/** Calendar dates as the filter compares them, and the two text formats it
    reads them from: the ISO form `%Y-%m-%d` of the window bounds and the
    export form `%B %d, %Y %I:%M %p` ("April 12, 2024 2:01 PM") of the
    `created` column. Parsing is a simplified `strptime`: see README. */
module Dates {
  import opened Records
  import opened Strings

  /** A `datetime.date`: the time of day is already discarded. */
  datatype Date = Date(year: int, month: int, day: int)

  predicate IsLeapYear(y: int)
  {
    y % 4 == 0 && (y % 100 != 0 || y % 400 == 0)
  }

  function DaysInMonth(y: int, m: int): int
    requires 1 <= m <= 12
  {
    if m == 2 then (if IsLeapYear(y) then 29 else 28)
    else if m == 4 || m == 6 || m == 9 || m == 11 then 30
    else 31
  }

  /** The dates `datetime.date` can represent. */
  predicate ValidDate(d: Date)
  {
    1 <= d.year <= 9999 && 1 <= d.month <= 12 && 1 <= d.day <= DaysInMonth(d.year, d.month)
  }

  /** `a <= b` on `datetime.date`: by year, then month, then day. */
  predicate DateLe(a: Date, b: Date)
  {
    a.year < b.year
    || (a.year == b.year && (a.month < b.month || (a.month == b.month && a.day <= b.day)))
  }

  lemma DateLeTotalOrder(a: Date, b: Date, c: Date)
    ensures DateLe(a, a)
    ensures DateLe(a, b) || DateLe(b, a)
    ensures DateLe(a, b) && DateLe(b, a) ==> a == b
    ensures DateLe(a, b) && DateLe(b, c) ==> DateLe(a, c)
  {
  }

  predicate IsDigit(c: char)
  {
    '0' <= c <= '9'
  }

  predicate AllDigits(s: string)
  {
    forall i :: 0 <= i < |s| ==> IsDigit(s[i])
  }

  /** The decimal value of a string of digits. */
  function Value(s: string): (n: nat)
    requires AllDigits(s)
    decreases |s|
  {
    if s == [] then 0 else Value(s[..|s| - 1]) * 10 + (s[|s| - 1] as int - '0' as int)
  }

  /** The field is one or two digits long, as `%m`, `%d`, `%I` and `%M`
      accept it. */
  function ShortNumber(s: string): Option<nat>
  {
    if (|s| == 1 || |s| == 2) && AllDigits(s) then Some(Value(s)) else None
  }

  /** Four digits, as `%Y` accepts them. */
  function YearNumber(s: string): Option<nat>
  {
    if |s| == 4 && AllDigits(s) then Some(Value(s)) else None
  }

  /** Cuts a one- or two-character field off the front of `s`, where the
      field must be followed by the separator `sep`. */
  function SplitShort(s: string, sep: char): (r: Option<(string, string)>)
    ensures r.Some? ==> (|r.value.0| == 1 || |r.value.0| == 2) && s == r.value.0 + [sep] + r.value.1
  {
    if |s| >= 2 && s[1] == sep then Some((s[..1], s[2..]))
    else if |s| >= 3 && s[2] == sep then Some((s[..2], s[3..]))
    else None
  }

  function MakeDate(y: int, m: int, d: int): Option<Date>
  {
    if ValidDate(Date(y, m, d)) then Some(Date(y, m, d)) else None
  }

  /** `strptime(s, "%Y-%m-%d").date()`; `None` stands for its ValueError. */
  function ParseIso(s: string): (r: Option<Date>)
    ensures r.Some? ==> ValidDate(r.value)
  {
    if |s| < 5 || s[4] != '-' then None
    else match (YearNumber(s[..4]), SplitShort(s[5..], '-'))
      case (Some(y), Some((ms, ds))) =>
        (match (ShortNumber(ms), ShortNumber(ds))
         case (Some(m), Some(d)) => MakeDate(y, m, d)
         case _ => None)
      case _ => None
  }

  const MonthNames: seq<string> := [
    "january", "february", "march", "april", "may", "june",
    "july", "august", "september", "october", "november", "december"]

  /** The month whose full name (in any letter case) starts `s`, trying the
      names from index `k` on; returns the month number and the name's
      length. */
  function MatchMonth(s: string, k: nat): (r: Option<(int, nat)>)
    requires k <= 12
    ensures r.Some? ==> 1 <= r.value.0 <= 12 && r.value.1 <= |s|
    decreases 12 - k
  {
    if k == 12 then None
    else if |MonthNames[k]| <= |s| && Lower(s[..|MonthNames[k]|]) == MonthNames[k] then Some((k + 1, |MonthNames[k]|))
    else MatchMonth(s, k + 1)
  }

  /** `strptime(s, "%B %d, %Y %I:%M %p").date()`: the month name, then the
      rest of the text after one space. */
  function ParseCreated(s: string): (r: Option<Date>)
    ensures r.Some? ==> ValidDate(r.value)
  {
    var month := MatchMonth(s, 0);
    if month.None? then None else ParseAfterMonth(s, month.value.0, month.value.1)
  }

  /** The rest of the `created` text once the month `m`, `n` characters
      long, has been read: one space, then the day, year and clock. */
  function ParseAfterMonth(s: string, m: int, n: nat): (r: Option<Date>)
    ensures r.Some? ==> ValidDate(r.value)
  {
    if n < |s| && s[n] == ' ' then ParseDayYearClock(s[n + 1..], m) else None
  }

  /** `%d, %Y %I:%M %p` once the month `m` is known. */
  function ParseDayYearClock(s: string, m: int): (r: Option<Date>)
    ensures r.Some? ==> ValidDate(r.value)
  {
    match SplitShort(s, ',')
    case None => None
    case Some((dayText, rest)) =>
      if |rest| < 6 || rest[0] != ' ' || rest[5] != ' ' then None
      else match (ShortNumber(dayText), YearNumber(rest[1..5]))
        case (Some(d), Some(y)) => if ValidClock(rest[6..]) then MakeDate(y, m, d) else None
        case _ => None
  }

  /** `%I:%M %p`: an hour from 1 to 12, a minute up to 59 and AM or PM in
      any letter case. The time is checked, then dropped by `.date()`. */
  predicate ValidClock(s: string)
  {
    match SplitShort(s, ':')
    case None => false
    case Some((hourText, rest)) =>
      match (ShortNumber(hourText), SplitShort(rest, ' '))
      case (Some(h), Some((minuteText, period))) =>
        1 <= h <= 12 && ShortNumber(minuteText).Some? && ShortNumber(minuteText).value <= 59
        && (Lower(period) == "am" || Lower(period) == "pm")
      case _ => false
  }

  function DigitChar(n: int): char
    requires 0 <= n <= 9
  {
    ('0' as int + n) as char
  }

  /** `%04d`: a year written with four digits. */
  function YearText(n: int): (s: string)
    requires 0 <= n <= 9999
    ensures |s| == 4
  {
    [DigitChar(n / 1000), DigitChar(n / 100 % 10), DigitChar(n / 10 % 10), DigitChar(n % 10)]
  }

  /** `%02d`: a number below 100 written with two digits. */
  function PaddedText(n: int): (s: string)
    requires 0 <= n <= 99
    ensures |s| == 2
  {
    [DigitChar(n / 10), DigitChar(n % 10)]
  }

  /** A number below 100 written without a leading zero, as the exports
      write the day and the hour ("July 4, 2024 2:01 PM"). */
  function ShortText(n: int): (s: string)
    requires 0 <= n <= 99
    ensures |s| == 1 || |s| == 2
  {
    if n < 10 then [DigitChar(n)] else PaddedText(n)
  }

  /** `str(date)`: `%04d-%02d-%02d`. */
  function FormatIso(d: Date): (s: string)
    requires ValidDate(d)
    ensures |s| == 10
  {
    YearText(d.year) + "-" + PaddedText(d.month) + "-" + PaddedText(d.day)
  }

  /** The month names as `%B` writes them. */
  const MonthTitles: seq<string> := [
    "January", "February", "March", "April", "May", "June",
    "July", "August", "September", "October", "November", "December"]

  /** The `created` text of a ticket made on `d` at `hour:minute` in the
      morning or, when `pm`, the afternoon: `%B %-d, %Y %-I:%M %p`, the
      export's own form ("April 12, 2024 2:01 PM"). */
  function FormatCreated(d: Date, hour: int, minute: int, pm: bool): (s: string)
    requires ValidDate(d) && 1 <= hour <= 12 && 0 <= minute <= 59
  {
    MonthTitles[d.month - 1] + " " + ShortText(d.day) + ", " + YearText(d.year) + " " + ClockText(hour, minute, pm)
  }

  /** `%-I:%M %p`. */
  function ClockText(hour: int, minute: int, pm: bool): string
    requires 1 <= hour <= 12 && 0 <= minute <= 59
  {
    ShortText(hour) + ":" + PaddedText(minute) + " " + (if pm then "PM" else "AM")
  }

  lemma ValueSnoc(s: string, c: char)
    requires AllDigits(s) && IsDigit(c)
    ensures AllDigits(s + [c])
    ensures Value(s + [c]) == Value(s) * 10 + (c as int - '0' as int)
  {
    assert (s + [c])[..|s|] == s;
  }

  lemma TwoDigitValue(n: int)
    requires 0 <= n <= 99
    ensures AllDigits(PaddedText(n)) && Value(PaddedText(n)) == n
  {
    ValueSnoc([], DigitChar(n / 10));
    ValueSnoc([DigitChar(n / 10)], DigitChar(n % 10));
  }

  lemma ShortTextValue(n: int)
    requires 0 <= n <= 99
    ensures ShortNumber(ShortText(n)) == Some(n)
  {
    if n < 10 {
      ValueSnoc([], DigitChar(n));
    } else {
      TwoDigitValue(n);
    }
  }

  /** Taking off the last decimal digit. */
  lemma LastDigit(n: int)
    requires n >= 0
    ensures n / 10 * 10 + n % 10 == n
  {
  }

  lemma NestedDivisions(n: int)
    requires n >= 0
    ensures n / 10 / 10 == n / 100 && n / 100 / 10 == n / 1000
  {
  }

  lemma FourDigitValue(n: int)
    requires 0 <= n <= 9999
    ensures AllDigits(YearText(n)) && Value(YearText(n)) == n
  {
    var a, b, c, d := DigitChar(n / 1000), DigitChar(n / 100 % 10), DigitChar(n / 10 % 10), DigitChar(n % 10);
    NestedDivisions(n);
    LastDigit(n / 100);
    LastDigit(n / 10);
    LastDigit(n);
    ValueSnoc([], a);
    assert [] + [a] == [a];
    ValueSnoc([a], b);
    assert [a] + [b] == [a, b];
    assert Value([a, b]) == n / 100;
    ValueSnoc([a, b], c);
    assert [a, b] + [c] == [a, b, c];
    assert Value([a, b, c]) == n / 10;
    ValueSnoc([a, b, c], d);
    assert [a, b, c] + [d] == [a, b, c, d];
  }

  /** A one- or two-digit field followed by a separator that is not a
      digit is cut off exactly. */
  lemma SplitShortField(a: string, sep: char, t: string)
    requires (|a| == 1 || |a| == 2) && AllDigits(a) && !IsDigit(sep)
    ensures SplitShort(a + [sep] + t, sep) == Some((a, t))
  {
    var s := a + [sep] + t;
    if |a| == 1 {
      assert s[..1] == a && s[2..] == t;
    } else {
      assert s[1] == a[1];
      assert s[..2] == a && s[3..] == t;
    }
  }

  /** Parsing what `str(date)` prints gives the date back, so the default
      window bounds computed from today's date always parse. */
  lemma ParseIsoFormatIso(d: Date)
    requires ValidDate(d)
    ensures ParseIso(FormatIso(d)) == Some(d)
  {
    var s := FormatIso(d);
    FourDigitValue(d.year);
    TwoDigitValue(d.month);
    TwoDigitValue(d.day);
    assert s[..4] == YearText(d.year);
    assert s[5..] == PaddedText(d.month) + "-" + PaddedText(d.day);
    SplitShortField(PaddedText(d.month), '-', PaddedText(d.day));
  }

  /** `%Y-%m-%d` on a year field, a month field and a day field. */
  lemma ParseIsoFields(ys: string, ms: string, ds: string, d: Date)
    requires ValidDate(d) && YearNumber(ys) == Some(d.year)
    requires ShortNumber(ms) == Some(d.month) && ShortNumber(ds) == Some(d.day)
    ensures ParseIso(ys + "-" + ms + "-" + ds) == Some(d)
  {
    var s := ys + "-" + ms + "-" + ds;
    assert s[..4] == ys;
    assert s[5..] == ms + "-" + ds;
    SplitShortField(ms, '-', ds);
  }

  /** A month or day written with or without a leading zero. */
  lemma FieldValue(n: int, pad: bool)
    requires 0 <= n <= 99
    ensures ShortNumber(if pad then PaddedText(n) else ShortText(n)) == Some(n)
  {
    if pad {
      TwoDigitValue(n);
    } else {
      ShortTextValue(n);
    }
  }

  /** The bounds a user types need not be zero-padded: with the month and
      the day written with or without a leading zero, the text still parses
      to the date it names ("2024-1-5" is 5 January 2024). */
  lemma ParseIsoUnpadded(d: Date, padMonth: bool, padDay: bool)
    requires ValidDate(d)
    ensures ParseIso(YearText(d.year) + "-" + (if padMonth then PaddedText(d.month) else ShortText(d.month))
                     + "-" + (if padDay then PaddedText(d.day) else ShortText(d.day))) == Some(d)
  {
    FourDigitValue(d.year);
    FieldValue(d.month, padMonth);
    FieldValue(d.day, padDay);
    ParseIsoFields(YearText(d.year), if padMonth then PaddedText(d.month) else ShortText(d.month),
                   if padDay then PaddedText(d.day) else ShortText(d.day), d);
  }

  /** The month read from its first three letters: no two month names
      share them. */
  function MonthOfInitials(a: char, b: char, c: char): int
  {
    if a == 'j' then (if b == 'a' then 1 else if c == 'n' then 6 else 7)
    else if a == 'f' then 2
    else if a == 'm' then (if c == 'r' then 3 else 5)
    else if a == 'a' then (if b == 'p' then 4 else 8)
    else if a == 's' then 9
    else if a == 'o' then 10
    else if a == 'n' then 11
    else 12
  }

  lemma MonthNameFacts(k: nat)
    requires k < 12
    ensures |MonthNames[k]| >= 3 && |MonthTitles[k]| == |MonthNames[k]|
    ensures Lower(MonthTitles[k]) == MonthNames[k]
    ensures MonthOfInitials(MonthNames[k][0], MonthNames[k][1], MonthNames[k][2]) == k + 1
  {
    assert k == 0 || k == 1 || k == 2 || k == 3 || k == 4 || k == 5
        || k == 6 || k == 7 || k == 8 || k == 9 || k == 10 || k == 11;
  }

  /** A month name that starts `s` fixes the first three letters of `s`. */
  lemma MatchFixesInitials(s: string, k: nat)
    requires k < 12 && |MonthNames[k]| >= 3
    ensures |MonthNames[k]| <= |s| && Lower(s[..|MonthNames[k]|]) == MonthNames[k]
        ==> MonthNames[k][0] == LowerChar(s[0]) && MonthNames[k][1] == LowerChar(s[1])
            && MonthNames[k][2] == LowerChar(s[2])
  {
  }

  /** Text that starts with the name of month `k + 1` matches no other
      month name. */
  lemma OtherMonthMisses(s: string, j: nat, k: nat)
    requires j < 12 && k < 12 && j != k
    requires |MonthNames[k]| <= |s| && Lower(s[..|MonthNames[k]|]) == MonthNames[k]
    ensures !(|MonthNames[j]| <= |s| && Lower(s[..|MonthNames[j]|]) == MonthNames[j])
  {
    MonthNameFacts(j);
    MonthNameFacts(k);
    MatchFixesInitials(s, j);
    MatchFixesInitials(s, k);
  }

  lemma {:induction false} MatchMonthFinds(s: string, i: nat, k: nat)
    requires i <= k < 12
    requires |MonthNames[k]| <= |s| && Lower(s[..|MonthNames[k]|]) == MonthNames[k]
    ensures MatchMonth(s, i) == Some((k + 1, |MonthNames[k]|))
    decreases k - i
  {
    if i < k {
      OtherMonthMisses(s, i, k);
      MatchMonthFinds(s, i + 1, k);
    }
  }

  /** The clock the exports write is a valid `%I:%M %p` time. */
  lemma ClockTextValid(hour: int, minute: int, pm: bool)
    requires 1 <= hour <= 12 && 0 <= minute <= 59
    ensures ValidClock(ClockText(hour, minute, pm))
  {
    var period := if pm then "PM" else "AM";
    ShortTextValue(hour);
    TwoDigitValue(minute);
    assert ClockText(hour, minute, pm) == ShortText(hour) + [':'] + (PaddedText(minute) + " " + period);
    SplitShortField(ShortText(hour), ':', PaddedText(minute) + " " + period);
    SplitShortField(PaddedText(minute), ' ', period);
    PeriodLower(pm);
  }

  /** `%p` reads either spelling of the period the export writes. */
  lemma PeriodLower(pm: bool)
    ensures Lower(if pm then "PM" else "AM") == (if pm then "pm" else "am")
  {
    var period := if pm then "PM" else "AM";
    assert |Lower(period)| == 2 && Lower(period)[0] == LowerChar(period[0]) && Lower(period)[1] == LowerChar(period[1]);
  }

  /** `%d, %Y %I:%M %p` read back from what the export writes. */
  lemma DayYearClockText(d: Date, hour: int, minute: int, pm: bool)
    requires ValidDate(d) && 1 <= hour <= 12 && 0 <= minute <= 59
    ensures ParseDayYearClock(ShortText(d.day) + ", " + YearText(d.year) + " " + ClockText(hour, minute, pm), d.month)
         == Some(d)
  {
    var clock := ClockText(hour, minute, pm);
    var rest := " " + YearText(d.year) + " " + clock;
    assert ShortText(d.day) + ", " + YearText(d.year) + " " + clock == ShortText(d.day) + [','] + rest;
    ShortTextValue(d.day);
    SplitShortField(ShortText(d.day), ',', rest);
    FourDigitValue(d.year);
    assert rest[1..5] == YearText(d.year) && rest[6..] == clock;
    ClockTextValid(hour, minute, pm);
  }

  /** Parsing the `created` text the export writes for a date gives that
      date back, whatever the time of day: `date_range` compares exactly the
      day the ticket was created. */
  lemma ParseCreatedFormatCreated(d: Date, hour: int, minute: int, pm: bool)
    requires ValidDate(d) && 1 <= hour <= 12 && 0 <= minute <= 59
    ensures ParseCreated(FormatCreated(d, hour, minute, pm)) == Some(d)
  {
    var k := d.month - 1;
    var tail := ShortText(d.day) + ", " + YearText(d.year) + " " + ClockText(hour, minute, pm);
    var s := FormatCreated(d, hour, minute, pm);
    assert s == MonthTitles[k] + [' '] + tail;
    MonthNameFacts(k);
    assert s[..|MonthNames[k]|] == MonthTitles[k];
    MatchMonthFinds(s, 0, k);
    assert s[|MonthNames[k]| + 1..] == tail;
    DayYearClockText(d, hour, minute, pm);
  }
}
