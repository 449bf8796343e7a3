/** The chained filters, `remove_duplicates` and `main` on the sample
    tickets: the outcomes the test suite asserts, and the one where the code
    and the suite part ways. */
module SampleRuns {
  import opened Records
  import opened Strings
  import opened Dates
  import opened Selection
  import opened FilterChain
  import opened Dedup
  import opened DedupProperties
  import opened Pipeline
  import opened Samples

  /** Duke's two tickets, then `status("Complete")`: only 301 is done. */
  lemma DukeThenComplete()
    ensures StatusStep(SampleRows, [Ticket301, Ticket302], "Complete") == Ok([Ticket301])
  {
    StatusesOn301();
    StatusesOn302();
    SelectTwo(Ticket301, Ticket302, ByStatus("complete"), true, false);
    assert Kept(Ticket301, true) + Kept(Ticket302, false) == [Ticket301];
    StatusStepIgnoresCase(SampleRows, [Ticket301, Ticket302], "complete", "Complete");
  }

  /** Ticket 301 lies in the 2024 window. */
  lemma DukeCompleteIn2024(today: Date)
    ensures DateRangeStep(SampleRows, [Ticket301], "2024-01-01", Some("2024-12-31"), today) == Ok([Ticket301])
  {
    Iso20240101();
    Iso20241231();
    DatesOn301();
    SelectOne(Ticket301, ByDate(Date(2024, 1, 1), Date(2024, 12, 31)), true);
  }

  /** Carol's only ticket is not in progress. */
  lemma CarolThenInProgress()
    ensures StatusStep(SampleRows, [Ticket303], "In Progress") == Ok([])
  {
    StatusesOn303();
    SelectOne(Ticket303, ByStatus("In Progress"), false);
  }

  /** `f.name("Duke Ellington")` hands back `f` itself. */
  method NameReturnsSelf() returns (filter: NotionFilter, chain: Result<NotionFilter>)
    ensures chain == Ok(filter)
  {
    filter := new NotionFilter(SampleRows);
    NameDukeEllington();
    chain := filter.Name("Duke Ellington");
  }

  /** `f.status("Complete")` hands back `f` itself. */
  method StatusReturnsSelf() returns (filter: NotionFilter, chain: Result<NotionFilter>)
    ensures chain == Ok(filter)
  {
    filter := new NotionFilter(SampleRows);
    StatusAnyCase();
    chain := filter.Status("Complete");
  }

  /** `f.date_range("2025-01-01", "2025-12-31")` hands back `f` itself. */
  method DateRangeReturnsSelf(today: Date) returns (filter: NotionFilter, chain: Result<NotionFilter>)
    ensures chain == Ok(filter)
  {
    filter := new NotionFilter(SampleRows);
    DateRange2025(today);
    chain := filter.DateRange("2025-01-01", Some("2025-12-31"), today);
  }

  /** `name("Duke Ellington").status("Complete")` keeps ticket 301, and
      every call hands back the same filter. */
  method NameThenStatus() returns (filter: NotionFilter, byName: Result<NotionFilter>, byStatus: Result<NotionFilter>)
    ensures fresh(filter) && filter.Valid()
    ensures filter.rows == SampleRows && filter.results == [Ticket301]
    ensures byName == Ok(filter) && byStatus == Ok(filter)
  {
    filter := new NotionFilter(SampleRows);
    NameDukeEllington();
    byName := filter.Name("Duke Ellington");
    DukeThenComplete();
    byStatus := filter.Status("Complete");
  }

  /** The full chain with the 2024 window keeps ticket 301. */
  method FullChain(today: Date) returns (results: seq<Record>)
    ensures results == [Ticket301]
  {
    var filter, byName, byStatus := NameThenStatus();
    DukeCompleteIn2024(today);
    assert DateRangeStep(filter.rows, filter.results, "2024-01-01", Some("2024-12-31"), today) == Ok([Ticket301]);
    var chain := filter.DateRange("2024-01-01", Some("2024-12-31"), today);
    results := filter.results;
  }

  /** `name("Carol D").status("In Progress")` ends with no results. */
  method ChainYieldingNothing() returns (results: seq<Record>)
    ensures results == []
  {
    var filter := new NotionFilter(SampleRows);
    NameCarol();
    var chain := filter.Name("Carol D");
    CarolThenInProgress();
    chain := filter.Status("In Progress");
    results := filter.results;
  }

  /** As written: `name("Zork Z")` empties `results`, so `status("Complete")`
      reads all the rows again and keeps the three finished tickets, none of
      which is Zork's. The test suite expects an empty result here. */
  method ChainAfterEmpty() returns (results: seq<Record>)
    ensures results == [Ticket301, Ticket303, Ticket304]
  {
    var filter := new NotionFilter(SampleRows);
    NameZork();
    var chain := filter.Name("Zork Z");
    assert filter.results == [];
    StatusAnyCase();
    chain := filter.Status("Complete");
    results := filter.results;
  }

  /** With the sentinel, the same chain stays empty, as the suite expects. */
  lemma SentinelChainAfterEmpty()
    ensures SentinelChain(SampleRows, None, [ByName("Zork Z"), ByStatus("Complete")]) == Ok([])
  {
    NameZork();
    var cs := [ByName("Zork Z"), ByStatus("Complete")];
    assert SentinelSource(SampleRows, None) == SampleRows;
    assert Select(SampleRows, cs[0]) == Ok([]);
    SentinelEmptyStaysEmpty(SampleRows, cs[1..]);
  }

  /** The sample IDs compare as the strings Python compares. */
  lemma IdsOrdered()
    ensures LexLt("301", "302") && LexLt("302", "303") && LexLt("303", "304")
  {
  }

  lemma SortedThree(a: Record, b: Record, c: Record)
    requires "ID" in a && "ID" in b && "ID" in c
    requires LexLt(a["ID"], b["ID"]) && LexLt(b["ID"], c["ID"])
    ensures StrictlySortedById([a, b, c])
  {
    LexLtTransitive(a["ID"], b["ID"], c["ID"]);
  }

  lemma SortedFour(a: Record, b: Record, c: Record, d: Record)
    requires "ID" in a && "ID" in b && "ID" in c && "ID" in d
    requires LexLt(a["ID"], b["ID"]) && LexLt(b["ID"], c["ID"]) && LexLt(c["ID"], d["ID"])
    ensures StrictlySortedById([a, b, c, d])
  {
    LexLtTransitive(a["ID"], b["ID"], c["ID"]);
    LexLtTransitive(b["ID"], c["ID"], d["ID"]);
    LexLtTransitive(a["ID"], c["ID"], d["ID"]);
  }

  /** Three distinct IDs given out of order come back ordered. */
  lemma DedupReorders(a: Record, b: Record, c: Record)
    requires "ID" in a && "ID" in b && "ID" in c
    requires LexLt(a["ID"], b["ID"]) && LexLt(b["ID"], c["ID"])
    ensures RemoveDuplicates([c, a, b]) == Ok([a, b, c])
  {
    SortedThree(a, b, c);
    StrictlySortedDistinct([a, b, c]);
    var rows := [c, a, b];
    assert rows[0]["ID"] != rows[1]["ID"] && rows[0]["ID"] != rows[2]["ID"] && rows[1]["ID"] != rows[2]["ID"] by {
      assert [a, b, c][0] == a && [a, b, c][1] == b && [a, b, c][2] == c;
    }
    assert DistinctIds(rows);
    RemoveDuplicatesSortsDistinct(rows, [a, b, c]);
  }

  lemma LastOfSnoc(rows: seq<Record>, x: Record, k: string)
    ensures LastWithId(rows + [x], k) == if "ID" in x && x["ID"] == k then Some(x) else LastWithId(rows, k)
  {
    assert (rows + [x])[..|rows|] == rows;
  }

  lemma LastOfTwo(a: Record, b: Record, k: string)
    ensures LastWithId([a, b], k) ==
      if "ID" in b && b["ID"] == k then Some(b) else if "ID" in a && a["ID"] == k then Some(a) else None
  {
    LastOfSnoc([a], b, k);
    LastOfSnoc([], a, k);
    assert [a] + [b] == [a, b] && [] + [a] == [a];
  }

  /** A record given twice is kept once. */
  lemma DedupDuplicate(a: Record, b: Record)
    requires "ID" in a && "ID" in b && LexLt(a["ID"], b["ID"])
    ensures RemoveDuplicates([a, a, b]) == Ok([a, b])
  {
    var rows := [a, a, b];
    LexLtIrreflexive(a["ID"]);
    RemoveDuplicatesLastWins(rows);
    var out := RemoveDuplicates(rows).value;
    forall y
      ensures y in out <==> y in [a, b]
    {
      if "ID" in y {
        LastOfSnoc([a, a], b, y["ID"]);
        LastOfTwo(a, a, y["ID"]);
        assert [a, a] + [b] == rows;
      }
    }
    SortedTwo(a, b);
    StrictlySortedUnique(out, [a, b]);
  }

  lemma SortedTwo(a: Record, b: Record)
    requires "ID" in a && "ID" in b && LexLt(a["ID"], b["ID"])
    ensures StrictlySortedById([a, b])
  {
  }

  /** Of two records with one ID, the later one is kept. */
  lemma DedupLastSeen(a: Record, b: Record)
    requires "ID" in a && "ID" in b && a["ID"] == b["ID"]
    ensures RemoveDuplicates([a, b]) == Ok([b])
  {
    var rows := [a, b];
    RemoveDuplicatesLastWins(rows);
    var out := RemoveDuplicates(rows).value;
    forall y
      ensures y in out <==> y in [b]
    {
      if "ID" in y {
        LastOfTwo(a, b, y["ID"]);
      }
    }
    StrictlySortedUnique(out, [b]);
  }

  /** Tickets 303, 301, 302 come out as 301, 302, 303. */
  lemma DedupSortsSample()
    ensures RemoveDuplicates([Ticket303, Ticket301, Ticket302]) == Ok([Ticket301, Ticket302, Ticket303])
  {
    Fields301();
    Fields302();
    Fields303();
    IdsOrdered();
    DedupReorders(Ticket301, Ticket302, Ticket303);
  }

  /** An exact duplicate of ticket 301 leaves two records. */
  lemma DedupExactDuplicate()
    ensures RemoveDuplicates([Ticket301, Ticket301, Ticket302]) == Ok([Ticket301, Ticket302])
  {
    Fields301();
    Fields302();
    IdsOrdered();
    DedupDuplicate(Ticket301, Ticket302);
  }

  /** The four sample tickets, already distinct and ordered, pass through. */
  lemma DedupKeepsUniqueSample()
    ensures RemoveDuplicates(SampleRows) == Ok(SampleRows)
  {
    Fields301();
    Fields302();
    Fields303();
    Fields304();
    IdsOrdered();
    SortedFour(Ticket301, Ticket302, Ticket303, Ticket304);
    StrictlySortedDistinct(SampleRows);
    RemoveDuplicatesSortsDistinct(SampleRows, SampleRows);
  }

  /** Ticket 301 re-assigned to Alice A, after the original: the
      re-assignment is what remains. */
  lemma DedupKeepsLastSeen(second: Record)
    requires second == Ticket301["Engineers" := "Alice A"]
    ensures RemoveDuplicates([Ticket301, second]) == Ok([second])
    ensures second["Engineers"] == "Alice A"
  {
    Fields301();
    DedupLastSeen(Ticket301, second);
  }

  /** One record is its own de-duplication. */
  lemma DedupSingle(a: Record)
    requires "ID" in a
    ensures RemoveDuplicates([a]) == Ok([a])
  {
    RemoveDuplicatesSortsDistinct([a], [a]);
  }

  /** The three finished tickets all lie between 2024-01-01 and 2025-12-31. */
  lemma FinishedInWindow(today: Date)
    ensures DateRangeStep(SampleRows, [Ticket301, Ticket303, Ticket304], "2024-01-01", Some("2025-12-31"), today)
         == Ok([Ticket301, Ticket303, Ticket304])
  {
    Iso20240101();
    Iso20251231();
    assert EndDate(Some("2025-12-31"), today) == Ok(Date(2025, 12, 31));
    DatesOn301();
    DatesOn303();
    DatesOn304();
    SelectThree(Ticket301, Ticket303, Ticket304, ByDate(Date(2024, 1, 1), Date(2025, 12, 31)), true, true, true);
    assert Kept(Ticket301, true) + (Kept(Ticket303, true) + Kept(Ticket304, true)) == [Ticket301, Ticket303, Ticket304];
  }

  /** `main` asked for Zork Z, who has no tickets, exports the finished
      tickets of everybody else: the empty name stage is read as "not yet
      filtered". */
  lemma ZorkYearInReview(today: Date)
    ensures Decide(SampleRows, "Zork Z", "Complete", "2024-01-01", "2025-12-31", today)
         == Exported([Ticket301, Ticket303, Ticket304])
    ensures Keep(ByName("Zork Z"), Ticket301) == Ok(false)
    ensures Keep(ByName("Zork Z"), Ticket303) == Ok(false)
    ensures Keep(ByName("Zork Z"), Ticket304) == Ok(false)
  {
    ZorkOn301();
    ZorkOn303();
    ZorkOn304();
    NameZork();
    StatusAnyCase();
    FinishedInWindow(today);
    Fields301();
    Fields303();
    Fields304();
    IdsOrdered();
    SortedThree(Ticket301, Ticket303, Ticket304);
    StrictlySortedDistinct([Ticket301, Ticket303, Ticket304]);
    RemoveDuplicatesSortsDistinct([Ticket301, Ticket303, Ticket304], [Ticket301, Ticket303, Ticket304]);
  }

  /** `main` for Duke Ellington's completed 2024 tickets exports ticket 301. */
  lemma DukeYearInReview(today: Date)
    ensures Decide(SampleRows, "Duke Ellington", "Complete", "2024-01-01", "2024-12-31", today)
         == Exported([Ticket301])
  {
    NameDukeEllington();
    DukeThenComplete();
    DukeCompleteIn2024(today);
    Fields301();
    DedupSingle(Ticket301);
  }

  /** The same run through the filter object. */
  method ZorkRun(today: Date) returns (outcome: Outcome)
    ensures outcome == Exported([Ticket301, Ticket303, Ticket304])
  {
    outcome := Run(SampleRows, "Zork Z", "Complete", "2024-01-01", "2025-12-31", today);
    ZorkYearInReview(today);
  }
}
