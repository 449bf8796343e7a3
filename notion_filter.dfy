/** The fluent filter object: it keeps the rows it was built from and a
    `results` list that each filter method replaces, then hands itself back
    for the next call. */
module FilterChain {
  import opened Records
  import opened Dates
  import opened Selection

  class NotionFilter {
    /** The rows given at construction; no method reassigns them. */
    const rows: seq<Record>
    /** The current result, `[]` until a filter has run. */
    var results: seq<Record>

    /** `results` is always an order-preserving subsequence of `rows`. */
    ghost predicate Valid()
      reads this
    {
      IsSubsequence(results, rows)
    }

    constructor (rows: seq<Record>)
      ensures this.rows == rows && results == []
      ensures Valid()
    {
      this.rows := rows;
      results := [];
      new;
      EmptySubsequence(rows);
    }

    /** `name(name)`: keep the records whose `Engineers` cell contains
        `name`. On an exception `results` is left as it was. */
    method Name(name: string) returns (chain: Result<NotionFilter>)
      requires Valid()
      modifies this
      ensures Valid()
      ensures match NameStep(rows, old(results), name)
        case Ok(v) => results == v && chain == Ok(this)
        case Err(e) => results == old(results) && chain == Err(e)
    {
      var source := if |results| == 0 then rows else results;
      var kept := Select(source, ByName(name));
      match kept {
        case Err(e) =>
          chain := Err(e);
        case Ok(v) =>
          StepKeepsSubsequence(rows, results, ByName(name));
          results := v;
          chain := Ok(this);
      }
    }

    /** `status(status)`: keep the records whose `Status` cell equals
        `status`, letter case ignored. */
    method Status(status: string) returns (chain: Result<NotionFilter>)
      requires Valid()
      modifies this
      ensures Valid()
      ensures match StatusStep(rows, old(results), status)
        case Ok(v) => results == v && chain == Ok(this)
        case Err(e) => results == old(results) && chain == Err(e)
    {
      var source := if |results| == 0 then rows else results;
      var kept := Select(source, ByStatus(status));
      match kept {
        case Err(e) =>
          chain := Err(e);
        case Ok(v) =>
          StepKeepsSubsequence(rows, results, ByStatus(status));
          results := v;
          chain := Ok(this);
      }
    }

    /** `date_range(start, end)`: keep the records created from `start` to
        `end`, both included; `end` defaults to `today`. */
    method DateRange(start: string, end: Option<string>, today: Date) returns (chain: Result<NotionFilter>)
      requires Valid()
      modifies this
      ensures Valid()
      ensures match DateRangeStep(rows, old(results), start, end, today)
        case Ok(v) => results == v && chain == Ok(this)
        case Err(e) => results == old(results) && chain == Err(e)
    {
      var source := if |results| == 0 then rows else results;
      var startDate := ParseIso(start);
      if startDate.None? {
        return Err(ValueError(start));
      }
      var endDate := EndDate(end, today);
      if endDate.Err? {
        return Err(endDate.error);
      }
      var kept := Select(source, ByDate(startDate.value, endDate.value));
      match kept {
        case Err(e) =>
          chain := Err(e);
        case Ok(v) =>
          StepKeepsSubsequence(rows, results, ByDate(startDate.value, endDate.value));
          results := v;
          chain := Ok(this);
      }
    }
  }
}
