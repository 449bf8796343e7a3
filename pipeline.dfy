/** `main`: the preflight checks, the filter chain `name` → `status` →
    `date_range` on a fresh `NotionFilter`, and the hand-off of the
    de-duplicated result to `export`. Reading the CSV files, the command
    line and the clock happen before this point: their results arrive as
    parameters. */
module Pipeline {
  import opened Records
  import opened Strings
  import opened Dates
  import opened Selection
  import opened Dedup
  import opened DedupProperties
  import opened FilterChain

  /** How a run ends: one of the three messages, the records handed to
      `export`, or an exception escaping `main`. */
  datatype Outcome =
    | MissingName
    | MissingRows
    | NoResults
    | Exported(records: seq<Record>)
    | Raised(error: Error)

  /** `n_filter.name(name).status(status).date_range(start, end).results`
      on a fresh filter. */
  function YearInReview(rows: seq<Record>, name: string, status: string, start: string, end: string, today: Date)
    : Result<seq<Record>>
  {
    match NameStep(rows, [], name)
    case Err(e) => Err(e)
    case Ok(named) =>
      match StatusStep(rows, named, status)
      case Err(e) => Err(e)
      case Ok(finished) => DateRangeStep(rows, finished, start, Some(end), today)
  }

  /** The decisions of `main` once its inputs are known. */
  function Decide(rows: seq<Record>, name: string, status: string, start: string, end: string, today: Date): Outcome
  {
    if name == "" then MissingName
    else if rows == [] then MissingRows
    else match YearInReview(rows, name, status, start, end, today)
      case Err(e) => Raised(e)
      case Ok(found) =>
        if found == [] then NoResults
        else match RemoveDuplicates(found)
          case Err(e) => Raised(e)
          case Ok(unique) => Exported(unique)
  }

  /** `main` after the inputs are read. */
  method Run(rows: seq<Record>, name: string, status: string, start: string, end: string, today: Date)
    returns (outcome: Outcome)
    ensures outcome == Decide(rows, name, status, start, end, today)
    ensures name == "" <==> outcome == MissingName
    ensures name != "" && rows == [] <==> outcome == MissingRows
  {
    if name == "" {
      return MissingName;
    }
    if rows == [] {
      return MissingRows;
    }
    var filter := new NotionFilter(rows);
    var chain := filter.Name(name);
    if chain.Err? {
      return Raised(chain.error);
    }
    chain := filter.Status(status);
    if chain.Err? {
      return Raised(chain.error);
    }
    chain := filter.DateRange(start, Some(end), today);
    if chain.Err? {
      return Raised(chain.error);
    }
    var found := filter.results;
    if found == [] {
      return NoResults;
    }
    var unique := RemoveDuplicates(found);
    match unique {
      case Err(e) =>
        outcome := Raised(e);
      case Ok(records) =>
        outcome := Exported(records);
    }
  }

  /** The chain only ever returns records of `rows`. */
  lemma YearInReviewWithinRows(rows: seq<Record>, name: string, status: string, start: string, end: string, today: Date)
    requires YearInReview(rows, name, status, start, end, today).Ok?
    ensures IsSubsequence(YearInReview(rows, name, status, start, end, today).value, rows)
  {
    EmptySubsequence(rows);
    StepKeepsSubsequence(rows, [], ByName(name));
    var named := NameStep(rows, [], name).value;
    StepKeepsSubsequence(rows, named, ByStatus(status));
    var finished := StatusStep(rows, named, status).value;
    DateRangeStepKeepsSubsequence(rows, finished, start, Some(end), today);
  }

  /** What `export` receives: at least one record (so `results[0]` exists),
      ordered by ID with one record per ID, each a record of `rows` created
      inside the date window. The last filter always applies; see
      `ExportedMatchesAllFilters` for the other two. */
  lemma ExportedRecords(rows: seq<Record>, name: string, status: string, start: string, end: string, today: Date)
    requires Decide(rows, name, status, start, end, today).Exported?
    ensures Decide(rows, name, status, start, end, today).records != []
    ensures StrictlySortedById(Decide(rows, name, status, start, end, today).records)
    ensures ParseIso(start).Some? && EndDate(Some(end), today).Ok?
    ensures forall y :: y in Decide(rows, name, status, start, end, today).records ==>
      y in rows && "created" in y && ParseCreated(y["created"]).Some?
      && DateLe(ParseIso(start).value, ParseCreated(y["created"]).value)
      && DateLe(ParseCreated(y["created"]).value, EndDate(Some(end), today).value)
  {
    var found := YearInReview(rows, name, status, start, end, today).value;
    var out := Decide(rows, name, status, start, end, today).records;
    var named := NameStep(rows, [], name).value;
    var finished := StatusStep(rows, named, status).value;
    DateRangeStepKeeps(rows, finished, start, Some(end), today);
    RemoveDuplicatesLastWins(found);
    RemoveDuplicatesKeepsIds(found);
    YearInReviewWithinRows(rows, name, status, start, end, today);
    SubsequenceMembers(found, rows);
    forall y | y in out
      ensures y in found
    {
      LastWithIdMember(found, y["ID"]);
    }
  }

  /** When neither the `name` nor the `status` stage came out empty, every
      exported record also names the engineer and has the status. */
  lemma ExportedMatchesAllFilters(rows: seq<Record>, name: string, status: string, start: string, end: string, today: Date)
    requires Decide(rows, name, status, start, end, today).Exported?
    requires NameStep(rows, [], name).Ok? && NameStep(rows, [], name).value != []
    requires StatusStep(rows, NameStep(rows, [], name).value, status).Ok?
    requires StatusStep(rows, NameStep(rows, [], name).value, status).value != []
    ensures forall y :: y in Decide(rows, name, status, start, end, today).records ==>
      "Engineers" in y && Contains(y["Engineers"], name) && "Status" in y && Lower(y["Status"]) == Lower(status)
  {
    var found := YearInReview(rows, name, status, start, end, today).value;
    var out := Decide(rows, name, status, start, end, today).records;
    var named := NameStep(rows, [], name).value;
    var finished := StatusStep(rows, named, status).value;
    NameStepKeeps(rows, [], name);
    StatusStepKeeps(rows, named, status);
    DateRangeStepKeeps(rows, finished, start, Some(end), today);
    RemoveDuplicatesLastWins(found);
    forall y | y in out
      ensures "Engineers" in y && Contains(y["Engineers"], name) && "Status" in y && Lower(y["Status"]) == Lower(status)
    {
      LastWithIdMember(found, y["ID"]);
      assert y in finished;
      assert y in named;
    }
  }

  /** "No results found" is printed exactly when the chain succeeds with an
      empty list, after both preflight checks passed. */
  lemma NoResultsWhenChainEmpty(rows: seq<Record>, name: string, status: string, start: string, end: string, today: Date)
    requires name != "" && rows != []
    ensures Decide(rows, name, status, start, end, today) == NoResults <==>
      YearInReview(rows, name, status, start, end, today) == Ok([])
  {
    var r := YearInReview(rows, name, status, start, end, today);
    if r.Ok? && r.value != [] {
      if RemoveDuplicates(r.value).Ok? {
        RemoveDuplicatesKeepsIds(r.value);
      }
    }
  }
}
