/** The four tickets of the test suite's `SAMPLE_ROWS`, and the outcomes its
    test cases assert, derived from the model. */
module Samples {
  import opened Records
  import opened Strings
  import opened Dates
  import opened Selection

  const Ticket301: Record := map[
    "Name" := "Artist Search Broken", "Created by" := "Duke Ellington",
    "Description/Use Case" := "", "Due" := "", "Engineers" := "Jimmie Dean, Duke Ellington",
    "ID" := "301", "Priority" := "P2", "Product" := "Catalog", "Service" := "Backend",
    "Sprint 1" := "Sprint 34", "Status" := "Complete", "Type" := "Bug",
    "created" := "April 12, 2024 2:01 PM"]

  const Ticket302: Record := map[
    "Name" := "Playlist Sync Failing", "Created by" := "Duke Ellington",
    "Description/Use Case" := "", "Due" := "", "Engineers" := "Duke Ellington",
    "ID" := "302", "Priority" := "P1", "Product" := "Player", "Service" := "Backend",
    "Sprint 1" := "Sprint 35", "Status" := "In Progress", "Type" := "Bug",
    "created" := "March 10, 2025 9:00 AM"]

  const Ticket303: Record := map[
    "Name" := "Add Dark Mode", "Created by" := "Carol D",
    "Description/Use Case" := "", "Due" := "", "Engineers" := "Carol D",
    "ID" := "303", "Priority" := "P3", "Product" := "UI", "Service" := "Frontend",
    "Sprint 1" := "Sprint 36", "Status" := "Complete", "Type" := "Feature",
    "created" := "July 4, 2024 12:00 PM"]

  const Ticket304: Record := map[
    "Name" := "Onboarding Redesign", "Created by" := "Jimmie Dean",
    "Description/Use Case" := "", "Due" := "", "Engineers" := "Alice A",
    "ID" := "304", "Priority" := "P2", "Product" := "Onboarding", "Service" := "Frontend",
    "Sprint 1" := "Sprint 37", "Status" := "complete", "Type" := "Task",
    "created" := "December 31, 2025 11:59 PM"]

  const SampleRows: seq<Record> := [Ticket301, Ticket302, Ticket303, Ticket304]

  /** `FormatCreated` written out as its five pieces. */
  lemma CreatedPieces(d: Date, hour: int, minute: int, pm: bool, month: string, day: string, year: string, clock: string)
    requires ValidDate(d) && 1 <= hour <= 12 && 0 <= minute <= 59
    requires MonthTitles[d.month - 1] == month && ShortText(d.day) == day && YearText(d.year) == year
    requires ClockText(hour, minute, pm) == clock
    ensures FormatCreated(d, hour, minute, pm) == month + " " + day + ", " + year + " " + clock
  {
  }

  lemma CreatedText301()
    ensures FormatCreated(Date(2024, 4, 12), 2, 1, true) == "April 12, 2024 2:01 PM"
  {
    assert MonthTitles[3] == "April";
    assert ShortText(12) == "12" && YearText(2024) == "2024";
    assert ClockText(2, 1, true) == "2:01 PM" by {
      assert ShortText(2) == "2" && PaddedText(1) == "01";
    }
    CreatedPieces(Date(2024, 4, 12), 2, 1, true, "April", "12", "2024", "2:01 PM");
  }

  lemma CreatedText302()
    ensures FormatCreated(Date(2025, 3, 10), 9, 0, false) == "March 10, 2025 9:00 AM"
  {
    assert MonthTitles[2] == "March";
    assert ShortText(10) == "10" && YearText(2025) == "2025";
    assert ClockText(9, 0, false) == "9:00 AM" by {
      assert ShortText(9) == "9" && PaddedText(0) == "00";
    }
    CreatedPieces(Date(2025, 3, 10), 9, 0, false, "March", "10", "2025", "9:00 AM");
  }

  lemma CreatedText303()
    ensures FormatCreated(Date(2024, 7, 4), 12, 0, true) == "July 4, 2024 12:00 PM"
  {
    assert MonthTitles[6] == "July";
    assert ShortText(4) == "4" && YearText(2024) == "2024";
    assert ClockText(12, 0, true) == "12:00 PM" by {
      assert ShortText(12) == "12" && PaddedText(0) == "00";
    }
    CreatedPieces(Date(2024, 7, 4), 12, 0, true, "July", "4", "2024", "12:00 PM");
  }

  lemma CreatedText304()
    ensures FormatCreated(Date(2025, 12, 31), 11, 59, true) == "December 31, 2025 11:59 PM"
  {
    assert MonthTitles[11] == "December";
    assert ShortText(31) == "31" && YearText(2025) == "2025";
    assert ClockText(11, 59, true) == "11:59 PM" by {
      assert ShortText(11) == "11" && PaddedText(59) == "59";
    }
    CreatedPieces(Date(2025, 12, 31), 11, 59, true, "December", "31", "2025", "11:59 PM");
  }

  /** The `created` cells are what the export writes for each ticket's
      date and time, so each parses to its calendar date. */
  lemma Created301()
    ensures ParseCreated(Ticket301["created"]) == Some(Date(2024, 4, 12))
  {
    assert Ticket301["created"] == "April 12, 2024 2:01 PM";
    CreatedText301();
    ParseCreatedFormatCreated(Date(2024, 4, 12), 2, 1, true);
  }

  lemma Created302()
    ensures ParseCreated(Ticket302["created"]) == Some(Date(2025, 3, 10))
  {
    assert Ticket302["created"] == "March 10, 2025 9:00 AM";
    CreatedText302();
    ParseCreatedFormatCreated(Date(2025, 3, 10), 9, 0, false);
  }

  lemma Created303()
    ensures ParseCreated(Ticket303["created"]) == Some(Date(2024, 7, 4))
  {
    assert Ticket303["created"] == "July 4, 2024 12:00 PM";
    CreatedText303();
    ParseCreatedFormatCreated(Date(2024, 7, 4), 12, 0, true);
  }

  lemma Created304()
    ensures ParseCreated(Ticket304["created"]) == Some(Date(2025, 12, 31))
  {
    assert Ticket304["created"] == "December 31, 2025 11:59 PM";
    CreatedText304();
    ParseCreatedFormatCreated(Date(2025, 12, 31), 11, 59, true);
  }

  lemma SelectCons(x: Record, rest: seq<Record>, crit: Criterion, k: bool, kept: seq<Record>)
    requires Keep(crit, x) == Ok(k) && Select(rest, crit) == Ok(kept)
    ensures Select([x] + rest, crit) == Ok((if k then [x] else []) + kept)
  {
    assert ([x] + rest)[0] == x && ([x] + rest)[1..] == rest;
    assert [] + kept == kept;
  }

  function Kept(x: Record, k: bool): seq<Record>
  {
    if k then [x] else []
  }

  lemma SelectTwo(c: Record, d: Record, crit: Criterion, kc: bool, kd: bool)
    requires Keep(crit, c) == Ok(kc) && Keep(crit, d) == Ok(kd)
    ensures Select([c, d], crit) == Ok(Kept(c, kc) + Kept(d, kd))
  {
    SelectCons(d, [], crit, kd, []);
    assert [d] + [] == [d] && Kept(d, kd) + [] == Kept(d, kd);
    SelectCons(c, [d], crit, kc, Kept(d, kd));
    assert [c] + [d] == [c, d];
  }

  lemma SelectOne(a: Record, crit: Criterion, k: bool)
    requires Keep(crit, a) == Ok(k)
    ensures Select([a], crit) == Ok(Kept(a, k))
  {
    SelectCons(a, [], crit, k, []);
    assert [a] + [] == [a] && Kept(a, k) + [] == Kept(a, k);
  }

  lemma SelectThree(a: Record, b: Record, c: Record, crit: Criterion, ka: bool, kb: bool, kc: bool)
    requires Keep(crit, a) == Ok(ka) && Keep(crit, b) == Ok(kb) && Keep(crit, c) == Ok(kc)
    ensures Select([a, b, c], crit) == Ok(Kept(a, ka) + (Kept(b, kb) + Kept(c, kc)))
  {
    SelectTwo(b, c, crit, kb, kc);
    SelectCons(a, [b, c], crit, ka, Kept(b, kb) + Kept(c, kc));
    assert [a] + [b, c] == [a, b, c];
  }

  /** `[r for r in [a, b, c, d] if ...]` once each decision is known. */
  lemma SelectFour(a: Record, b: Record, c: Record, d: Record, crit: Criterion, ka: bool, kb: bool, kc: bool, kd: bool)
    requires Keep(crit, a) == Ok(ka) && Keep(crit, b) == Ok(kb) && Keep(crit, c) == Ok(kc) && Keep(crit, d) == Ok(kd)
    ensures Select([a, b, c, d], crit) == Ok(Kept(a, ka) + Kept(b, kb) + Kept(c, kc) + Kept(d, kd))
  {
    var tail := Kept(b, kb) + (Kept(c, kc) + Kept(d, kd));
    SelectThree(b, c, d, crit, kb, kc, kd);
    SelectCons(a, [b, c, d], crit, ka, tail);
    assert [a] + [b, c, d] == [a, b, c, d];
    ConcatAssociates(Kept(a, ka), Kept(b, kb), Kept(c, kc), Kept(d, kd));
  }

  lemma ConcatAssociates(w: seq<Record>, x: seq<Record>, y: seq<Record>, z: seq<Record>)
    ensures w + (x + (y + z)) == w + x + y + z
  {
  }

  lemma Fields301()
    ensures "Engineers" in Ticket301 && Ticket301["Engineers"] == "Jimmie Dean, Duke Ellington"
    ensures "Status" in Ticket301 && Ticket301["Status"] == "Complete"
    ensures "created" in Ticket301 && "ID" in Ticket301 && Ticket301["ID"] == "301"
  {
  }

  lemma Fields302()
    ensures "Engineers" in Ticket302 && Ticket302["Engineers"] == "Duke Ellington"
    ensures "Status" in Ticket302 && Ticket302["Status"] == "In Progress"
    ensures "created" in Ticket302 && "ID" in Ticket302 && Ticket302["ID"] == "302"
  {
  }

  lemma Fields303()
    ensures "Engineers" in Ticket303 && Ticket303["Engineers"] == "Carol D"
    ensures "Status" in Ticket303 && Ticket303["Status"] == "Complete"
    ensures "created" in Ticket303 && "ID" in Ticket303 && Ticket303["ID"] == "303"
  {
  }

  lemma Fields304()
    ensures "Engineers" in Ticket304 && Ticket304["Engineers"] == "Alice A"
    ensures "Status" in Ticket304 && Ticket304["Status"] == "complete"
    ensures "created" in Ticket304 && "ID" in Ticket304 && Ticket304["ID"] == "304"
  {
  }

  /** The sample selected by a criterion, given its decision on each ticket. */
  lemma OnSample(crit: Criterion, k1: bool, k2: bool, k3: bool, k4: bool)
    requires Keep(crit, Ticket301) == Ok(k1) && Keep(crit, Ticket302) == Ok(k2)
    requires Keep(crit, Ticket303) == Ok(k3) && Keep(crit, Ticket304) == Ok(k4)
    ensures Step(SampleRows, [], crit) == Ok(Kept(Ticket301, k1) + Kept(Ticket302, k2) + Kept(Ticket303, k3) + Kept(Ticket304, k4))
  {
    SelectFour(Ticket301, Ticket302, Ticket303, Ticket304, crit, k1, k2, k3, k4);
  }

  lemma KeepByDate(r: Record, d: Date, start: Date, end: Date)
    requires "created" in r && ParseCreated(r["created"]) == Some(d)
    ensures Keep(ByDate(start, end), r) == Ok(DateLe(start, d) && DateLe(d, end))
  {
  }

  lemma KeepByName(r: Record, name: string, engineers: string, k: bool)
    requires "Engineers" in r && r["Engineers"] == engineers && Contains(engineers, name) == k
    ensures Keep(ByName(name), r) == Ok(k)
  {
  }

  /** A ticket whose `Engineers` cell lacks the first character of the
      name is dropped. */
  lemma NameAbsent(r: Record, name: string)
    requires "Engineers" in r && name != [] && name[0] !in r["Engineers"]
    ensures Keep(ByName(name), r) == Ok(false)
  {
    NotContainsAbsentChar(r["Engineers"], name);
  }

  /** A ticket whose `Engineers` cell holds the first character of the
      name only too late for the rest to fit is dropped. */
  lemma NameStartsTooLate(r: Record, name: string)
    requires "Engineers" in r && name != []
    requires |r["Engineers"]| < |name| || name[0] !in r["Engineers"][..|r["Engineers"]| - |name| + 1]
    ensures Keep(ByName(name), r) == Ok(false)
  {
    NotContainsWithoutFirstChar(r["Engineers"], name);
  }

  lemma DukeEllingtonOn303()
    ensures Keep(ByName("Duke Ellington"), Ticket303) == Ok(false)
  {
    Fields303();
    NameStartsTooLate(Ticket303, "Duke Ellington");
  }

  lemma DukeEllingtonOn304()
    ensures Keep(ByName("Duke Ellington"), Ticket304) == Ok(false)
  {
    Fields304();
    NameAbsent(Ticket304, "Duke Ellington");
  }

  lemma DukeOn303()
    ensures Keep(ByName("Duke"), Ticket303) == Ok(false)
  {
    Fields303();
    NameStartsTooLate(Ticket303, "Duke");
  }

  lemma DukeOn304()
    ensures Keep(ByName("Duke"), Ticket304) == Ok(false)
  {
    Fields304();
    NameAbsent(Ticket304, "Duke");
  }

  lemma ZorkOn301()
    ensures Keep(ByName("Zork Z"), Ticket301) == Ok(false)
  {
    Fields301();
    NameAbsent(Ticket301, "Zork Z");
  }

  lemma ZorkOn302()
    ensures Keep(ByName("Zork Z"), Ticket302) == Ok(false)
  {
    Fields302();
    NameAbsent(Ticket302, "Zork Z");
  }

  lemma ZorkOn303()
    ensures Keep(ByName("Zork Z"), Ticket303) == Ok(false)
  {
    Fields303();
    NameAbsent(Ticket303, "Zork Z");
  }

  lemma ZorkOn304()
    ensures Keep(ByName("Zork Z"), Ticket304) == Ok(false)
  {
    Fields304();
    NameAbsent(Ticket304, "Zork Z");
  }

  lemma CarolOn301()
    ensures Keep(ByName("Carol D"), Ticket301) == Ok(false)
  {
    Fields301();
    NameAbsent(Ticket301, "Carol D");
  }

  lemma CarolOn302()
    ensures Keep(ByName("Carol D"), Ticket302) == Ok(false)
  {
    Fields302();
    NameAbsent(Ticket302, "Carol D");
  }

  lemma CarolOn304()
    ensures Keep(ByName("Carol D"), Ticket304) == Ok(false)
  {
    Fields304();
    NameAbsent(Ticket304, "Carol D");
  }

  /** The selections the scenarios below come to. */
  lemma KeptPatterns(a: Record, b: Record, c: Record, d: Record)
    ensures Kept(a, true) + Kept(b, true) + Kept(c, false) + Kept(d, false) == [a, b]
    ensures Kept(a, false) + Kept(b, false) + Kept(c, false) + Kept(d, false) == []
    ensures Kept(a, false) + Kept(b, false) + Kept(c, true) + Kept(d, false) == [c]
    ensures Kept(a, false) + Kept(b, true) + Kept(c, false) + Kept(d, false) == [b]
    ensures Kept(a, true) + Kept(b, false) + Kept(c, true) + Kept(d, true) == [a, c, d]
    ensures Kept(a, true) + Kept(b, false) + Kept(c, true) + Kept(d, false) == [a, c]
    ensures Kept(a, false) + Kept(b, true) + Kept(c, false) + Kept(d, true) == [b, d]
    ensures Kept(a, true) + Kept(b, false) + Kept(c, false) + Kept(d, false) == [a]
    ensures Kept(a, true) + Kept(b, true) + Kept(c, true) + Kept(d, true) == [a, b, c, d]
  {
  }

  lemma DukeEllingtonOn301()
    ensures Keep(ByName("Duke Ellington"), Ticket301) == Ok(true)
  {
    Fields301();
    assert Contains("Jimmie Dean, Duke Ellington", "Duke Ellington") by {
      assert "Jimmie Dean, Duke Ellington"[13..27] == "Duke Ellington";
      ContainsFromOccurrence("Jimmie Dean, Duke Ellington", "Duke Ellington", 13);
    }
    KeepByName(Ticket301, "Duke Ellington", "Jimmie Dean, Duke Ellington", true);
  }

  lemma DukeOn301()
    ensures Keep(ByName("Duke"), Ticket301) == Ok(true)
  {
    Fields301();
    assert Contains("Jimmie Dean, Duke Ellington", "Duke") by {
      assert "Jimmie Dean, Duke Ellington"[13..17] == "Duke";
      ContainsFromOccurrence("Jimmie Dean, Duke Ellington", "Duke", 13);
    }
    KeepByName(Ticket301, "Duke", "Jimmie Dean, Duke Ellington", true);
  }

  lemma DukeEllingtonOn302()
    ensures Keep(ByName("Duke Ellington"), Ticket302) == Ok(true)
  {
    Fields302();
    assert Contains("Duke Ellington", "Duke Ellington") by {
      assert "Duke Ellington"[0..14] == "Duke Ellington";
      ContainsFromOccurrence("Duke Ellington", "Duke Ellington", 0);
    }
    KeepByName(Ticket302, "Duke Ellington", "Duke Ellington", true);
  }

  lemma DukeOn302()
    ensures Keep(ByName("Duke"), Ticket302) == Ok(true)
  {
    Fields302();
    assert Contains("Duke Ellington", "Duke") by {
      assert "Duke Ellington"[0..4] == "Duke";
      ContainsFromOccurrence("Duke Ellington", "Duke", 0);
    }
    KeepByName(Ticket302, "Duke", "Duke Ellington", true);
  }

  lemma CarolOn303()
    ensures Keep(ByName("Carol D"), Ticket303) == Ok(true)
  {
    Fields303();
    assert Contains("Carol D", "Carol D") by {
      assert "Carol D"[0..7] == "Carol D";
      ContainsFromOccurrence("Carol D", "Carol D", 0);
    }
    KeepByName(Ticket303, "Carol D", "Carol D", true);
  }

  lemma StatusesOn301()
    ensures Keep(ByStatus("complete"), Ticket301) == Ok(true)
    ensures Keep(ByStatus("In Progress"), Ticket301) == Ok(false)
    ensures Keep(ByStatus("Blocked"), Ticket301) == Ok(false)
  {
    Fields301();
    assert Lower("Complete") == Lower("complete");
    assert Lower("Complete")[0] != Lower("In Progress")[0];
    assert Lower("Complete")[0] != Lower("Blocked")[0];
  }

  lemma StatusesOn302()
    ensures Keep(ByStatus("complete"), Ticket302) == Ok(false)
    ensures Keep(ByStatus("In Progress"), Ticket302) == Ok(true)
    ensures Keep(ByStatus("Blocked"), Ticket302) == Ok(false)
  {
    Fields302();
    assert Lower("In Progress")[0] != Lower("complete")[0];
    assert Lower("In Progress") == Lower("In Progress");
    assert Lower("In Progress")[0] != Lower("Blocked")[0];
  }

  lemma StatusesOn303()
    ensures Keep(ByStatus("complete"), Ticket303) == Ok(true)
    ensures Keep(ByStatus("In Progress"), Ticket303) == Ok(false)
    ensures Keep(ByStatus("Blocked"), Ticket303) == Ok(false)
  {
    Fields303();
    assert Lower("Complete") == Lower("complete");
    assert Lower("Complete")[0] != Lower("In Progress")[0];
    assert Lower("Complete")[0] != Lower("Blocked")[0];
  }

  lemma StatusesOn304()
    ensures Keep(ByStatus("complete"), Ticket304) == Ok(true)
    ensures Keep(ByStatus("In Progress"), Ticket304) == Ok(false)
    ensures Keep(ByStatus("Blocked"), Ticket304) == Ok(false)
  {
    Fields304();
    assert Lower("complete") == Lower("complete");
    assert Lower("complete")[0] != Lower("In Progress")[0];
    assert Lower("complete")[0] != Lower("Blocked")[0];
  }

  lemma DatesOn301()
    ensures Keep(ByDate(Date(2024, 1, 1), Date(2024, 12, 31)), Ticket301) == Ok(true)
    ensures Keep(ByDate(Date(2025, 1, 1), Date(2025, 12, 31)), Ticket301) == Ok(false)
    ensures Keep(ByDate(Date(2024, 4, 12), Date(2024, 4, 12)), Ticket301) == Ok(true)
    ensures Keep(ByDate(Date(2020, 1, 1), Date(2020, 12, 31)), Ticket301) == Ok(false)
    ensures Keep(ByDate(Date(2024, 1, 1), Date(2025, 12, 31)), Ticket301) == Ok(true)
  {
    var d := Date(2024, 4, 12);
    Fields301();
    Created301();
    KeepByDate(Ticket301, d, Date(2024, 1, 1), Date(2024, 12, 31));
    KeepByDate(Ticket301, d, Date(2025, 1, 1), Date(2025, 12, 31));
    KeepByDate(Ticket301, d, Date(2024, 4, 12), Date(2024, 4, 12));
    KeepByDate(Ticket301, d, Date(2020, 1, 1), Date(2020, 12, 31));
    KeepByDate(Ticket301, d, Date(2024, 1, 1), Date(2025, 12, 31));
  }

  lemma DatesOn302()
    ensures Keep(ByDate(Date(2024, 1, 1), Date(2024, 12, 31)), Ticket302) == Ok(false)
    ensures Keep(ByDate(Date(2025, 1, 1), Date(2025, 12, 31)), Ticket302) == Ok(true)
    ensures Keep(ByDate(Date(2024, 4, 12), Date(2024, 4, 12)), Ticket302) == Ok(false)
    ensures Keep(ByDate(Date(2020, 1, 1), Date(2020, 12, 31)), Ticket302) == Ok(false)
    ensures Keep(ByDate(Date(2024, 1, 1), Date(2025, 12, 31)), Ticket302) == Ok(true)
  {
    var d := Date(2025, 3, 10);
    Fields302();
    Created302();
    KeepByDate(Ticket302, d, Date(2024, 1, 1), Date(2024, 12, 31));
    KeepByDate(Ticket302, d, Date(2025, 1, 1), Date(2025, 12, 31));
    KeepByDate(Ticket302, d, Date(2024, 4, 12), Date(2024, 4, 12));
    KeepByDate(Ticket302, d, Date(2020, 1, 1), Date(2020, 12, 31));
    KeepByDate(Ticket302, d, Date(2024, 1, 1), Date(2025, 12, 31));
  }

  lemma DatesOn303()
    ensures Keep(ByDate(Date(2024, 1, 1), Date(2024, 12, 31)), Ticket303) == Ok(true)
    ensures Keep(ByDate(Date(2025, 1, 1), Date(2025, 12, 31)), Ticket303) == Ok(false)
    ensures Keep(ByDate(Date(2024, 4, 12), Date(2024, 4, 12)), Ticket303) == Ok(false)
    ensures Keep(ByDate(Date(2020, 1, 1), Date(2020, 12, 31)), Ticket303) == Ok(false)
    ensures Keep(ByDate(Date(2024, 1, 1), Date(2025, 12, 31)), Ticket303) == Ok(true)
  {
    var d := Date(2024, 7, 4);
    Fields303();
    Created303();
    KeepByDate(Ticket303, d, Date(2024, 1, 1), Date(2024, 12, 31));
    KeepByDate(Ticket303, d, Date(2025, 1, 1), Date(2025, 12, 31));
    KeepByDate(Ticket303, d, Date(2024, 4, 12), Date(2024, 4, 12));
    KeepByDate(Ticket303, d, Date(2020, 1, 1), Date(2020, 12, 31));
    KeepByDate(Ticket303, d, Date(2024, 1, 1), Date(2025, 12, 31));
  }

  lemma DatesOn304()
    ensures Keep(ByDate(Date(2024, 1, 1), Date(2024, 12, 31)), Ticket304) == Ok(false)
    ensures Keep(ByDate(Date(2025, 1, 1), Date(2025, 12, 31)), Ticket304) == Ok(true)
    ensures Keep(ByDate(Date(2024, 4, 12), Date(2024, 4, 12)), Ticket304) == Ok(false)
    ensures Keep(ByDate(Date(2020, 1, 1), Date(2020, 12, 31)), Ticket304) == Ok(false)
    ensures Keep(ByDate(Date(2024, 1, 1), Date(2025, 12, 31)), Ticket304) == Ok(true)
  {
    var d := Date(2025, 12, 31);
    Fields304();
    Created304();
    KeepByDate(Ticket304, d, Date(2024, 1, 1), Date(2024, 12, 31));
    KeepByDate(Ticket304, d, Date(2025, 1, 1), Date(2025, 12, 31));
    KeepByDate(Ticket304, d, Date(2024, 4, 12), Date(2024, 4, 12));
    KeepByDate(Ticket304, d, Date(2020, 1, 1), Date(2020, 12, 31));
    KeepByDate(Ticket304, d, Date(2024, 1, 1), Date(2025, 12, 31));
  }

  /** `name("Duke Ellington")` keeps tickets 301 and 302: the engineer is
      also found inside a list of names. */
  lemma NameDukeEllington()
    ensures NameStep(SampleRows, [], "Duke Ellington") == Ok([Ticket301, Ticket302])
  {
    DukeEllingtonOn301();
    DukeEllingtonOn302();
    DukeEllingtonOn303();
    DukeEllingtonOn304();
    OnSample(ByName("Duke Ellington"), true, true, false, false);
    KeptPatterns(Ticket301, Ticket302, Ticket303, Ticket304);
  }

  /** A partial name matches: `name("Duke")` keeps the same two tickets. */
  lemma NameDuke()
    ensures NameStep(SampleRows, [], "Duke") == Ok([Ticket301, Ticket302])
  {
    DukeOn301();
    DukeOn302();
    DukeOn303();
    DukeOn304();
    OnSample(ByName("Duke"), true, true, false, false);
    KeptPatterns(Ticket301, Ticket302, Ticket303, Ticket304);
  }

  /** `name("Zork Z")` keeps nothing. */
  lemma NameZork()
    ensures NameStep(SampleRows, [], "Zork Z") == Ok([])
  {
    ZorkOn301();
    ZorkOn302();
    ZorkOn303();
    ZorkOn304();
    OnSample(ByName("Zork Z"), false, false, false, false);
    KeptPatterns(Ticket301, Ticket302, Ticket303, Ticket304);
  }

  /** `name("Carol D")` keeps ticket 303 only. */
  lemma NameCarol()
    ensures NameStep(SampleRows, [], "Carol D") == Ok([Ticket303])
  {
    CarolOn301();
    CarolOn302();
    CarolOn303();
    CarolOn304();
    OnSample(ByName("Carol D"), false, false, true, false);
    KeptPatterns(Ticket301, Ticket302, Ticket303, Ticket304);
  }

  /** Letter case is ignored: `status("complete")` keeps the three tickets
      whose cell reads "Complete" or "complete". */
  lemma StatusComplete()
    ensures StatusStep(SampleRows, [], "complete") == Ok([Ticket301, Ticket303, Ticket304])
  {
    StatusesOn301();
    StatusesOn302();
    StatusesOn303();
    StatusesOn304();
    OnSample(ByStatus("complete"), true, false, true, true);
    KeptPatterns(Ticket301, Ticket302, Ticket303, Ticket304);
  }

  /** `status("In Progress")` keeps ticket 302 only. */
  lemma StatusInProgress()
    ensures StatusStep(SampleRows, [], "In Progress") == Ok([Ticket302])
  {
    StatusesOn301();
    StatusesOn302();
    StatusesOn303();
    StatusesOn304();
    OnSample(ByStatus("In Progress"), false, true, false, false);
    KeptPatterns(Ticket301, Ticket302, Ticket303, Ticket304);
  }

  /** `status("Blocked")` keeps nothing. */
  lemma StatusBlocked()
    ensures StatusStep(SampleRows, [], "Blocked") == Ok([])
  {
    StatusesOn301();
    StatusesOn302();
    StatusesOn303();
    StatusesOn304();
    OnSample(ByStatus("Blocked"), false, false, false, false);
    KeptPatterns(Ticket301, Ticket302, Ticket303, Ticket304);
  }

  /** "Complete", "complete" and "COMPLETE" select the same tickets. */
  lemma StatusAnyCase()
    ensures StatusStep(SampleRows, [], "COMPLETE") == Ok([Ticket301, Ticket303, Ticket304])
    ensures StatusStep(SampleRows, [], "Complete") == Ok([Ticket301, Ticket303, Ticket304])
  {
    StatusComplete();
    StatusStepIgnoresCase(SampleRows, [], "complete", "COMPLETE");
    StatusStepIgnoresCase(SampleRows, [], "complete", "Complete");
  }
  /** `FormatIso` written out character by character. */
  lemma IsoChars(d: Date, y1: char, y2: char, y3: char, y4: char, m1: char, m2: char, d1: char, d2: char)
    requires ValidDate(d)
    requires YearText(d.year) == [y1, y2, y3, y4] && PaddedText(d.month) == [m1, m2] && PaddedText(d.day) == [d1, d2]
    ensures FormatIso(d) == [y1, y2, y3, y4, '-', m1, m2, '-', d1, d2]
  {
  }

  lemma Iso20240101()
    ensures ParseIso("2024-01-01") == Some(Date(2024, 1, 1))
  {
    IsoChars(Date(2024, 1, 1), '2', '0', '2', '4', '0', '1', '0', '1');
    ParseIsoFormatIso(Date(2024, 1, 1));
  }

  lemma Iso20241231()
    ensures ParseIso("2024-12-31") == Some(Date(2024, 12, 31))
  {
    IsoChars(Date(2024, 12, 31), '2', '0', '2', '4', '1', '2', '3', '1');
    ParseIsoFormatIso(Date(2024, 12, 31));
  }

  lemma Iso20250101()
    ensures ParseIso("2025-01-01") == Some(Date(2025, 1, 1))
  {
    IsoChars(Date(2025, 1, 1), '2', '0', '2', '5', '0', '1', '0', '1');
    ParseIsoFormatIso(Date(2025, 1, 1));
  }

  lemma Iso20251231()
    ensures ParseIso("2025-12-31") == Some(Date(2025, 12, 31))
  {
    IsoChars(Date(2025, 12, 31), '2', '0', '2', '5', '1', '2', '3', '1');
    ParseIsoFormatIso(Date(2025, 12, 31));
  }

  lemma Iso20240412()
    ensures ParseIso("2024-04-12") == Some(Date(2024, 4, 12))
  {
    IsoChars(Date(2024, 4, 12), '2', '0', '2', '4', '0', '4', '1', '2');
    ParseIsoFormatIso(Date(2024, 4, 12));
  }

  lemma Iso20200101()
    ensures ParseIso("2020-01-01") == Some(Date(2020, 1, 1))
  {
    IsoChars(Date(2020, 1, 1), '2', '0', '2', '0', '0', '1', '0', '1');
    ParseIsoFormatIso(Date(2020, 1, 1));
  }

  lemma Iso20201231()
    ensures ParseIso("2020-12-31") == Some(Date(2020, 12, 31))
  {
    IsoChars(Date(2020, 12, 31), '2', '0', '2', '0', '1', '2', '3', '1');
    ParseIsoFormatIso(Date(2020, 12, 31));
  }

  /** The 2025 window keeps tickets 302 (March) and 304 (December 31). */
  lemma DateRange2025(today: Date)
    ensures DateRangeStep(SampleRows, [], "2025-01-01", Some("2025-12-31"), today) == Ok([Ticket302, Ticket304])
  {
    Iso20250101();
    Iso20251231();
    assert EndDate(Some("2025-12-31"), today) == Ok(Date(2025, 12, 31));
    DatesOn301();
    DatesOn302();
    DatesOn303();
    DatesOn304();
    OnSample(ByDate(Date(2025, 1, 1), Date(2025, 12, 31)), false, true, false, true);
    KeptPatterns(Ticket301, Ticket302, Ticket303, Ticket304);
  }

  /** The 2024 window keeps tickets 301 (April) and 303 (July). */
  lemma DateRange2024(today: Date)
    ensures DateRangeStep(SampleRows, [], "2024-01-01", Some("2024-12-31"), today) == Ok([Ticket301, Ticket303])
  {
    Iso20240101();
    Iso20241231();
    assert EndDate(Some("2024-12-31"), today) == Ok(Date(2024, 12, 31));
    DatesOn301();
    DatesOn302();
    DatesOn303();
    DatesOn304();
    OnSample(ByDate(Date(2024, 1, 1), Date(2024, 12, 31)), true, false, true, false);
    KeptPatterns(Ticket301, Ticket302, Ticket303, Ticket304);
  }

  /** Both bounds are inclusive: a window of the single day April 12, 2024
      keeps ticket 301, created at 2:01 PM that day. */
  lemma DateRangeOneDay(today: Date)
    ensures DateRangeStep(SampleRows, [], "2024-04-12", Some("2024-04-12"), today) == Ok([Ticket301])
  {
    Iso20240412();
    assert EndDate(Some("2024-04-12"), today) == Ok(Date(2024, 4, 12));
    DatesOn301();
    DatesOn302();
    DatesOn303();
    DatesOn304();
    OnSample(ByDate(Date(2024, 4, 12), Date(2024, 4, 12)), true, false, false, false);
    KeptPatterns(Ticket301, Ticket302, Ticket303, Ticket304);
  }

  /** A window before every ticket keeps nothing. */
  lemma DateRange2020(today: Date)
    ensures DateRangeStep(SampleRows, [], "2020-01-01", Some("2020-12-31"), today) == Ok([])
  {
    Iso20200101();
    Iso20201231();
    assert EndDate(Some("2020-12-31"), today) == Ok(Date(2020, 12, 31));
    DatesOn301();
    DatesOn302();
    DatesOn303();
    DatesOn304();
    OnSample(ByDate(Date(2020, 1, 1), Date(2020, 12, 31)), false, false, false, false);
    KeptPatterns(Ticket301, Ticket302, Ticket303, Ticket304);
  }
}
