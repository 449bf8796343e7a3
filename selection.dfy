/** The filter stages of `NotionFilter` as pure functions: the predicate each
    list comprehension applies to one record, the comprehension itself, the
    choice of the list it reads (`self.results or self.rows`) and the new
    `results` each method computes. */
module Selection {
  import opened Records
  import opened Strings
  import opened Dates

  /** Which comprehension runs: the `name`, `status` or `date_range` one,
      the last with its two bounds already parsed. */
  datatype Criterion =
    | ByName(name: string)
    | ByStatus(status: string)
    | ByDate(start: Date, end: Date)

  /** Whether the comprehension keeps `r`, or the exception raised while
      deciding: a missing column or an unparsable `created` cell. */
  function Keep(c: Criterion, r: Record): Result<bool>
  {
    match c
    case ByName(name) =>
      if "Engineers" in r then Ok(Contains(r["Engineers"], name)) else Err(KeyError("Engineers"))
    case ByStatus(status) =>
      if "Status" in r then Ok(Lower(r["Status"]) == Lower(status)) else Err(KeyError("Status"))
    case ByDate(start, end) =>
      if "created" !in r then Err(KeyError("created"))
      else match ParseCreated(r["created"])
        case None => Err(ValueError(r["created"]))
        case Some(d) => Ok(DateLe(start, d) && DateLe(d, end))
  }

  /** The per-record decision of criterion `c`, as a function value. */
  function Decision(c: Criterion): Record -> Result<bool>
  {
    r => Keep(c, r)
  }

  /** `[r for r in src if ...]` for any per-record decision `keep`: the
      records are decided in order, and the first one that raises aborts
      the whole comprehension. */
  function SelectBy(src: seq<Record>, keep: Record -> Result<bool>): Result<seq<Record>>
    decreases |src|
  {
    if src == [] then Ok([])
    else match keep(src[0])
      case Err(e) => Err(e)
      case Ok(k) =>
        match SelectBy(src[1..], keep)
        case Err(e) => Err(e)
        case Ok(rest) => Ok(if k then [src[0]] + rest else rest)
  }

  /** The comprehension of one filter method. */
  function Select(src: seq<Record>, c: Criterion): Result<seq<Record>>
  {
    SelectBy(src, Decision(c))
  }

  /** `a` is `b` with some elements left out, the rest in their order. */
  predicate IsSubsequence<T(==)>(a: seq<T>, b: seq<T>)
    decreases |b|
  {
    if b == [] then a == []
    else (a != [] && a[0] == b[0] && IsSubsequence(a[1..], b[1..])) || IsSubsequence(a, b[1..])
  }

  lemma {:induction false} SubsequenceReflexive<T>(a: seq<T>)
    ensures IsSubsequence(a, a)
    decreases |a|
  {
    if a != [] {
      SubsequenceReflexive(a[1..]);
    }
  }

  lemma {:induction false} EmptySubsequence<T>(b: seq<T>)
    ensures IsSubsequence([], b)
    decreases |b|
  {
    if b != [] {
      EmptySubsequence(b[1..]);
    }
  }

  lemma {:induction false} SubsequenceTransitive<T>(a: seq<T>, b: seq<T>, c: seq<T>)
    requires IsSubsequence(a, b) && IsSubsequence(b, c)
    ensures IsSubsequence(a, c)
    decreases |c|
  {
    if c == [] {
    } else if IsSubsequence(b, c[1..]) {
      SubsequenceTransitive(a, b, c[1..]);
    } else {
      assert b != [] && b[0] == c[0] && IsSubsequence(b[1..], c[1..]);
      if a != [] && a[0] == b[0] && IsSubsequence(a[1..], b[1..]) {
        SubsequenceTransitive(a[1..], b[1..], c[1..]);
      } else {
        SubsequenceTransitive(a, b[1..], c[1..]);
      }
    }
  }

  lemma {:induction false} SubsequenceMembers<T>(a: seq<T>, b: seq<T>)
    requires IsSubsequence(a, b)
    ensures |a| <= |b|
    ensures forall x :: x in a ==> x in b
    decreases |b|
  {
    if b != [] {
      if a != [] && a[0] == b[0] && IsSubsequence(a[1..], b[1..]) {
        SubsequenceMembers(a[1..], b[1..]);
        assert a == [a[0]] + a[1..];
      } else {
        SubsequenceMembers(a, b[1..]);
      }
    }
  }

  /** The comprehension fails exactly when some record cannot be decided,
      and then with the exception of the first such record. */
  lemma {:induction false} SelectByErrors(src: seq<Record>, keep: Record -> Result<bool>)
    ensures SelectBy(src, keep).Ok? <==> forall i :: 0 <= i < |src| ==> keep(src[i]).Ok?
    ensures SelectBy(src, keep).Err? ==>
      exists k :: 0 <= k < |src| && keep(src[k]) == Err(SelectBy(src, keep).error)
        && forall j :: 0 <= j < k ==> keep(src[j]).Ok?
    decreases |src|
  {
    if src != [] {
      SelectByErrors(src[1..], keep);
      if keep(src[0]).Err? {
        assert keep(src[0]) == Err(SelectBy(src, keep).error);
      } else if SelectBy(src[1..], keep).Err? {
        var k :| 0 <= k < |src[1..]| && keep(src[1..][k]) == Err(SelectBy(src[1..], keep).error)
          && forall j :: 0 <= j < k ==> keep(src[1..][j]).Ok?;
        assert keep(src[k + 1]) == Err(SelectBy(src, keep).error);
        assert forall j :: 0 <= j < k + 1 ==> keep(src[j]).Ok? by {
          forall j | 0 <= j < k + 1
            ensures keep(src[j]).Ok?
          {
            if j > 0 {
              assert src[j] == src[1..][j - 1];
            }
          }
        }
      } else {
        forall i | 0 <= i < |src|
          ensures keep(src[i]).Ok?
        {
          if i > 0 {
            assert src[i] == src[1..][i - 1];
          }
        }
      }
    }
  }

  /** A successful comprehension keeps the order of its input. */
  lemma {:induction false} SelectByKeepsOrder(src: seq<Record>, keep: Record -> Result<bool>)
    requires SelectBy(src, keep).Ok?
    ensures IsSubsequence(SelectBy(src, keep).value, src)
    decreases |src|
  {
    if src != [] {
      SelectByKeepsOrder(src[1..], keep);
      var rest := SelectBy(src[1..], keep).value;
      if keep(src[0]) == Ok(true) {
        assert SelectBy(src, keep).value == [src[0]] + rest;
        assert ([src[0]] + rest)[1..] == rest;
      }
    }
  }

  /** A successful comprehension keeps each record it keeps as often as the
      input holds it, and drops the others entirely. */
  lemma {:induction false} SelectByCounts(src: seq<Record>, keep: Record -> Result<bool>)
    requires SelectBy(src, keep).Ok?
    ensures forall x :: multiset(SelectBy(src, keep).value)[x] == if keep(x) == Ok(true) then multiset(src)[x] else 0
    decreases |src|
  {
    if src != [] {
      SelectByCounts(src[1..], keep);
      var rest := SelectBy(src[1..], keep).value;
      assert src == [src[0]] + src[1..];
      assert multiset(src) == multiset{src[0]} + multiset(src[1..]);
      if keep(src[0]) == Ok(true) {
        assert SelectBy(src, keep).value == [src[0]] + rest;
        assert multiset(SelectBy(src, keep).value) == multiset{src[0]} + multiset(rest);
      } else {
        assert SelectBy(src, keep).value == rest;
      }
    }
  }

  /** Two decisions that agree on every record select alike. */
  lemma {:induction false} SelectBySameDecisions(src: seq<Record>, keep1: Record -> Result<bool>, keep2: Record -> Result<bool>)
    requires forall i :: 0 <= i < |src| ==> keep1(src[i]) == keep2(src[i])
    ensures SelectBy(src, keep1) == SelectBy(src, keep2)
    decreases |src|
  {
    if src != [] {
      assert keep1(src[0]) == keep2(src[0]);
      forall i | 0 <= i < |src[1..]|
        ensures keep1(src[1..][i]) == keep2(src[1..][i])
      {
        assert src[1..][i] == src[i + 1];
      }
      SelectBySameDecisions(src[1..], keep1, keep2);
    }
  }

  /** A filter method's comprehension fails exactly when some record cannot
      be decided, and then with the exception of the first such record. */
  lemma SelectErrors(src: seq<Record>, c: Criterion)
    ensures Select(src, c).Ok? <==> forall i :: 0 <= i < |src| ==> Keep(c, src[i]).Ok?
    ensures Select(src, c).Err? ==>
      exists k :: 0 <= k < |src| && Keep(c, src[k]) == Err(Select(src, c).error)
        && forall j :: 0 <= j < k ==> Keep(c, src[j]).Ok?
  {
    SelectByErrors(src, Decision(c));
  }

  /** When it succeeds, a filter method's comprehension returns the records
      it keeps, in their order, each as often as it occurs in the input,
      and nothing else. */
  lemma SelectFilters(src: seq<Record>, c: Criterion)
    requires Select(src, c).Ok?
    ensures IsSubsequence(Select(src, c).value, src)
    ensures forall x :: multiset(Select(src, c).value)[x] == if Keep(c, x) == Ok(true) then multiset(src)[x] else 0
    ensures forall x :: x in Select(src, c).value <==> x in src && Keep(c, x) == Ok(true)
  {
    SelectByKeepsOrder(src, Decision(c));
    SelectByCounts(src, Decision(c));
    forall x
      ensures x in Select(src, c).value <==> x in src && Keep(c, x) == Ok(true)
    {
      assert x in Select(src, c).value <==> multiset(Select(src, c).value)[x] > 0;
      assert x in src <==> multiset(src)[x] > 0;
    }
  }

  /** Two criteria that decide every record alike select alike. */
  lemma SelectSameDecisions(src: seq<Record>, c1: Criterion, c2: Criterion)
    requires forall i :: 0 <= i < |src| ==> Keep(c1, src[i]) == Keep(c2, src[i])
    ensures Select(src, c1) == Select(src, c2)
  {
    SelectBySameDecisions(src, Decision(c1), Decision(c2));
  }

  /** `self.results or self.rows`: an empty list is falsy, so an empty
      `results` reads the original rows again. */
  function Source(rows: seq<Record>, results: seq<Record>): seq<Record>
  {
    if results == [] then rows else results
  }

  /** One filter method applied to the state (`rows`, `results`). */
  function Step(rows: seq<Record>, results: seq<Record>, c: Criterion): Result<seq<Record>>
  {
    Select(Source(rows, results), c)
  }

  /** The new `results` of `name(name)`, or its exception. */
  function NameStep(rows: seq<Record>, results: seq<Record>, name: string): Result<seq<Record>>
  {
    Step(rows, results, ByName(name))
  }

  /** The new `results` of `status(status)`, or its exception. */
  function StatusStep(rows: seq<Record>, results: seq<Record>, status: string): Result<seq<Record>>
  {
    Step(rows, results, ByStatus(status))
  }

  /** The upper bound of `date_range`: `end` parsed, or today's date when
      `end` is None or the empty string. */
  function EndDate(end: Option<string>, today: Date): Result<Date>
  {
    if end.None? || end.value == "" then Ok(today)
    else match ParseIso(end.value)
      case None => Err(ValueError(end.value))
      case Some(d) => Ok(d)
  }

  /** The new `results` of `date_range(start, end)`, or its exception: the
      start bound is parsed first, then the end bound, then each record. */
  function DateRangeStep(rows: seq<Record>, results: seq<Record>, start: string, end: Option<string>, today: Date)
    : Result<seq<Record>>
  {
    match ParseIso(start)
    case None => Err(ValueError(start))
    case Some(startDate) =>
      match EndDate(end, today)
      case Err(e) => Err(e)
      case Ok(endDate) => Step(rows, results, ByDate(startDate, endDate))
  }

  /** Every successful step leaves `results` an order-preserving
      subsequence of `rows`. */
  lemma StepKeepsSubsequence(rows: seq<Record>, results: seq<Record>, c: Criterion)
    requires IsSubsequence(results, rows)
    requires Step(rows, results, c).Ok?
    ensures IsSubsequence(Step(rows, results, c).value, rows)
  {
    var src := Source(rows, results);
    SelectFilters(src, c);
    SubsequenceReflexive(rows);
    SubsequenceTransitive(Step(rows, results, c).value, src, rows);
  }

  lemma DateRangeStepKeepsSubsequence(rows: seq<Record>, results: seq<Record>, start: string, end: Option<string>, today: Date)
    requires IsSubsequence(results, rows)
    requires DateRangeStep(rows, results, start, end, today).Ok?
    ensures IsSubsequence(DateRangeStep(rows, results, start, end, today).value, rows)
  {
    var s := ParseIso(start).value;
    var e := EndDate(end, today).value;
    StepKeepsSubsequence(rows, results, ByDate(s, e));
  }

  /** `name`: a record of the source is kept iff its `Engineers` cell
      contains `name` as a substring; a missing `Engineers` column raises. */
  lemma NameStepKeeps(rows: seq<Record>, results: seq<Record>, name: string)
    ensures NameStep(rows, results, name).Ok? <==> HasColumn(Source(rows, results), "Engineers")
    ensures NameStep(rows, results, name).Err? ==> NameStep(rows, results, name).error == KeyError("Engineers")
    ensures NameStep(rows, results, name).Ok? ==>
      IsSubsequence(NameStep(rows, results, name).value, Source(rows, results))
      && forall x :: x in NameStep(rows, results, name).value <==>
           x in Source(rows, results) && Contains(x["Engineers"], name)
    ensures NameStep(rows, results, name).Ok? ==>
      forall x :: multiset(NameStep(rows, results, name).value)[x]
        == if "Engineers" in x && Contains(x["Engineers"], name) then multiset(Source(rows, results))[x] else 0
  {
    var src := Source(rows, results);
    SelectErrors(src, ByName(name));
    if NameStep(rows, results, name).Ok? {
      SelectFilters(src, ByName(name));
      forall x | x in src
        ensures "Engineers" in x
      {
        var i :| 0 <= i < |src| && src[i] == x;
      }
    }
  }

  /** `status`: a record of the source is kept iff its `Status` cell equals
      `status` once both are lower-cased. */
  lemma StatusStepKeeps(rows: seq<Record>, results: seq<Record>, status: string)
    ensures StatusStep(rows, results, status).Ok? <==> HasColumn(Source(rows, results), "Status")
    ensures StatusStep(rows, results, status).Err? ==> StatusStep(rows, results, status).error == KeyError("Status")
    ensures StatusStep(rows, results, status).Ok? ==>
      IsSubsequence(StatusStep(rows, results, status).value, Source(rows, results))
      && forall x :: x in StatusStep(rows, results, status).value <==>
           x in Source(rows, results) && Lower(x["Status"]) == Lower(status)
    ensures StatusStep(rows, results, status).Ok? ==>
      forall x :: multiset(StatusStep(rows, results, status).value)[x]
        == if "Status" in x && Lower(x["Status"]) == Lower(status) then multiset(Source(rows, results))[x] else 0
  {
    var src := Source(rows, results);
    SelectErrors(src, ByStatus(status));
    if StatusStep(rows, results, status).Ok? {
      SelectFilters(src, ByStatus(status));
      forall x | x in src
        ensures "Status" in x
      {
        var i :| 0 <= i < |src| && src[i] == x;
      }
    }
  }

  /** The status filter does not see letter case: "complete" and
      "COMPLETE" select the same records. */
  lemma StatusStepIgnoresCase(rows: seq<Record>, results: seq<Record>, s1: string, s2: string)
    requires Lower(s1) == Lower(s2)
    ensures StatusStep(rows, results, s1) == StatusStep(rows, results, s2)
  {
    SelectSameDecisions(Source(rows, results), ByStatus(s1), ByStatus(s2));
  }

  /** `date_range`: an unparsable bound raises before any record is read;
      otherwise a record is kept iff the date of its `created` cell lies in
      the window, both ends included, and a record whose `created` cell is
      missing or unparsable raises. */
  lemma DateRangeStepKeeps(rows: seq<Record>, results: seq<Record>, start: string, end: Option<string>, today: Date)
    ensures ParseIso(start).None? ==> DateRangeStep(rows, results, start, end, today) == Err(ValueError(start))
    ensures ParseIso(start).Some? && end.Some? && end.value != "" && ParseIso(end.value).None? ==>
      DateRangeStep(rows, results, start, end, today) == Err(ValueError(end.value))
    ensures ParseIso(start).Some? && EndDate(end, today).Ok? ==>
      (DateRangeStep(rows, results, start, end, today).Ok? <==>
         forall x :: x in Source(rows, results) ==> "created" in x && ParseCreated(x["created"]).Some?)
    ensures DateRangeStep(rows, results, start, end, today).Ok? ==>
      IsSubsequence(DateRangeStep(rows, results, start, end, today).value, Source(rows, results))
      && forall x :: x in DateRangeStep(rows, results, start, end, today).value <==>
           x in Source(rows, results)
           && DateLe(ParseIso(start).value, ParseCreated(x["created"]).value)
           && DateLe(ParseCreated(x["created"]).value, EndDate(end, today).value)
    ensures DateRangeStep(rows, results, start, end, today).Ok? ==>
      forall x :: multiset(DateRangeStep(rows, results, start, end, today).value)[x]
        == if "created" in x && ParseCreated(x["created"]).Some?
              && DateLe(ParseIso(start).value, ParseCreated(x["created"]).value)
              && DateLe(ParseCreated(x["created"]).value, EndDate(end, today).value)
           then multiset(Source(rows, results))[x] else 0
  {
    if ParseIso(start).Some? && EndDate(end, today).Ok? {
      var src := Source(rows, results);
      var c := ByDate(ParseIso(start).value, EndDate(end, today).value);
      SelectErrors(src, c);
      if forall x :: x in src ==> "created" in x && ParseCreated(x["created"]).Some? {
        assert forall i :: 0 <= i < |src| ==> Keep(c, src[i]).Ok? by {
          forall i | 0 <= i < |src|
            ensures Keep(c, src[i]).Ok?
          {
            assert src[i] in src;
          }
        }
      }
      if Select(src, c).Ok? {
        SelectFilters(src, c);
        forall x | x in src
          ensures "created" in x && ParseCreated(x["created"]).Some?
        {
          var i :| 0 <= i < |src| && src[i] == x;
        }
      }
    }
  }

  /** The chain state the test suite expects: `None` until a filter has
      run, so that an empty result is never mistaken for "not filtered
      yet". */
  function SentinelSource(rows: seq<Record>, results: Option<seq<Record>>): seq<Record>
  {
    match results
    case None => rows
    case Some(r) => r
  }

  /** The chain as written: each criterion in turn, starting from `results`. */
  function Chain(rows: seq<Record>, results: seq<Record>, cs: seq<Criterion>): Result<seq<Record>>
    decreases |cs|
  {
    if cs == [] then Ok(results)
    else match Step(rows, results, cs[0])
      case Err(e) => Err(e)
      case Ok(next) => Chain(rows, next, cs[1..])
  }

  /** The chain with the sentinel: an empty result stays the source. */
  function SentinelChain(rows: seq<Record>, results: Option<seq<Record>>, cs: seq<Criterion>): Result<seq<Record>>
    decreases |cs|
  {
    if cs == [] then Ok(SentinelSource(rows, results))
    else match Select(SentinelSource(rows, results), cs[0])
      case Err(e) => Err(e)
      case Ok(next) => SentinelChain(rows, Some(next), cs[1..])
  }

  /** Every criterion of `cs` keeps `x`. */
  predicate KeptByAll(cs: seq<Criterion>, x: Record)
  {
    forall i :: 0 <= i < |cs| ==> Keep(cs[i], x) == Ok(true)
  }

  /** With the sentinel, once a filter has run the chain is the
      intersection of its filters: each record of the current result that
      every later criterion keeps survives, as often as it occurs, in order,
      and nothing else does. */
  lemma {:induction false} SentinelChainIsIntersection(rows: seq<Record>, current: seq<Record>, cs: seq<Criterion>)
    requires SentinelChain(rows, Some(current), cs).Ok?
    ensures IsSubsequence(SentinelChain(rows, Some(current), cs).value, current)
    ensures forall x :: multiset(SentinelChain(rows, Some(current), cs).value)[x]
                        == if KeptByAll(cs, x) then multiset(current)[x] else 0
    decreases |cs|
  {
    if cs == [] {
      SubsequenceReflexive(current);
    } else {
      var next := Select(current, cs[0]).value;
      SelectFilters(current, cs[0]);
      SentinelChainIsIntersection(rows, next, cs[1..]);
      var out := SentinelChain(rows, Some(current), cs).value;
      SubsequenceTransitive(out, next, current);
      forall x
        ensures multiset(out)[x] == if KeptByAll(cs, x) then multiset(current)[x] else 0
      {
        if KeptByAll(cs, x) {
          assert Keep(cs[0], x) == Ok(true);
          assert KeptByAll(cs[1..], x) by {
            forall i | 0 <= i < |cs[1..]|
              ensures Keep(cs[1..][i], x) == Ok(true)
            {
              assert cs[1..][i] == cs[i + 1];
            }
          }
        } else if Keep(cs[0], x) == Ok(true) {
          var i :| 0 <= i < |cs| && Keep(cs[i], x) != Ok(true);
          assert cs[1..][i - 1] == cs[i];
        }
      }
    }
  }

  /** With the sentinel, a chain whose result is empty stays empty whatever
      filters follow: the property the test suite asserts. */
  lemma {:induction false} SentinelEmptyStaysEmpty(rows: seq<Record>, cs: seq<Criterion>)
    ensures SentinelChain(rows, Some([]), cs) == Ok([])
    decreases |cs|
  {
    if cs != [] {
      assert Select([], cs[0]) == Ok([]);
      SentinelEmptyStaysEmpty(rows, cs[1..]);
    }
  }

  /** As written, the chain agrees with the sentinel chain as long as no
      intermediate result is empty; the first empty one makes the next
      filter read the original rows again. */
  lemma {:induction false} ChainMatchesSentinelWhileNonEmpty(rows: seq<Record>, current: seq<Record>, cs: seq<Criterion>)
    requires current != []
    requires forall k :: 0 <= k < |cs| ==> SentinelChain(rows, Some(current), cs[..k]) != Ok([])
    ensures Chain(rows, current, cs) == SentinelChain(rows, Some(current), cs)
    decreases |cs|
  {
    if cs != [] {
      match Select(current, cs[0])
      case Err(e) =>
      case Ok(next) =>
        if |cs| > 1 {
          assert cs[..1][1..] == [];
          assert SentinelChain(rows, Some(current), cs[..1]) == Ok(next);
        }
        if next != [] {
          forall k | 0 <= k < |cs[1..]|
            ensures SentinelChain(rows, Some(next), cs[1..][..k]) != Ok([])
          {
            assert cs[..k + 1][0] == cs[0] && cs[..k + 1][1..] == cs[1..][..k];
            assert SentinelChain(rows, Some(current), cs[..k + 1]) == SentinelChain(rows, Some(next), cs[1..][..k]);
          }
          ChainMatchesSentinelWhileNonEmpty(rows, next, cs[1..]);
        } else {
          assert cs[1..] == [];
        }
    }
  }
}
