# notion_export_filter in Dafny

This project models the logic core of `notion_export_filter`. The tool reads
Notion ticket exports, narrows them to one engineer's tickets with a chosen
status and a creation date inside a window, removes duplicate tickets, and
writes what is left out as CSV. A ticket is a record: a mapping from column
name to cell text.

The model covers three pieces.

- **The fluent `NotionFilter` object** (`notion_filter.py`). This is a Dafny
  class, `FilterChain.NotionFilter`.
  - It has a constant field `rows` and a mutable field `results`.
  - Each of `Name`, `Status` and `DateRange` reads `results`, or reads `rows`
    again when `results` is empty (Python's `self.results or self.rows`).
  - It replaces `results` with the records it keeps and hands back the same
    object.
  - On an exception it leaves `results` as it was.
  - The per-record decisions and the comprehension are pure functions in
    `Selection` (`Keep`, `SelectBy`, `Select`, `Step`, `NameStep`, `StatusStep`,
    `DateRangeStep`), and each method is proved against them.
- **`remove_duplicates`** (`main.py`). `Dedup.RemoveDuplicates` builds the
  dict comprehension as an insertion-ordered dictionary, where the last
  record with an ID wins. It then sorts the values by ID under Python's
  string order (`Strings.LexLt`).
- **The decisions of `main`** (`main.py`). `Pipeline.Decide` holds the
  order of its checks: a missing name, then no rows, then the chain
  `name → status → date_range`, then no results, then export.
  `Pipeline.Run` performs the same steps through the filter object.

Dates are `(year, month, day)` triples (`Dates.Date`). The two `strptime`
formats are simplified parsers: `ParseIso` for `%Y-%m-%d` and
`ParseCreated` for `%B %d, %Y %I:%M %p`. Each is paired with the text
written for a date (`FormatIso`, and `FormatCreated` for the export's
`created` cells), and each parses that text back to the date.

The sample tickets of the test suite are `Samples.Ticket301`…`Ticket304`.
Each test about the filters and about `remove_duplicates` is a lemma or a
method in `Samples` or `SampleRuns`.

The code and its test suite disagree on one point: what happens after a
filter leaves no results. The model follows the code. The test's expectation
is proved for a corrected chain that uses a sentinel (see Findings).

## Model

| member | source | states |
|---|---|---|
| FilterChain.NotionFilter.constructor | notion_filter.py:5-7 | `rows` is the given list, `results` starts empty, and `results` is a subsequence of `rows` |
| FilterChain.NotionFilter.Name | notion_filter.py:9-12 | `results` becomes the name selection of `results or rows` and the object itself is returned; on an exception `results` is unchanged; `results` stays an order-preserving subsequence of `rows` |
| FilterChain.NotionFilter.Status | notion_filter.py:14-17 | the same for the status selection |
| FilterChain.NotionFilter.DateRange | notion_filter.py:19-29 | the same for the date window; an unparsable bound or `created` cell raises and leaves `results` unchanged |
| Selection.SelectByErrors | notion_filter.py:11 | for any per-record decision, the comprehension succeeds iff every record can be decided; otherwise it raises the exception of the first record that cannot |
| Selection.SelectByKeepsOrder | notion_filter.py:11 | a successful comprehension returns an order-preserving subsequence of its input |
| Selection.SelectByCounts | notion_filter.py:11 | a successful comprehension keeps each kept record as many times as the input holds it and drops the others |
| Selection.SelectBySameDecisions | notion_filter.py:11 | two decisions that agree on every record of the input select the same list |
| Selection.SelectErrors | notion_filter.py:11 | a filter method's comprehension succeeds iff every record can be decided by its criterion; otherwise it raises the exception of the first record that cannot |
| Selection.SelectFilters | notion_filter.py:11 | a successful comprehension returns, in input order, exactly the records it keeps, each as many times as it occurs |
| Selection.SelectSameDecisions | notion_filter.py:16 | two criteria that decide every record alike select the same list |
| Selection.StepKeepsSubsequence | notion_filter.py:10-11 | after any filter method `results` is still an order-preserving subsequence of `rows` |
| Selection.DateRangeStepKeepsSubsequence | notion_filter.py:20-28 | the same for `date_range` |
| Selection.NameStepKeeps | notion_filter.py:10-11 | `name` succeeds iff every source record has `Engineers`, and otherwise raises KeyError; it keeps exactly the source records whose `Engineers` contains the name as a substring, each as many times as it occurs, in source order |
| Selection.StatusStepKeeps | notion_filter.py:15-16 | `status` succeeds iff every source record has `Status`, and otherwise raises KeyError; it keeps exactly the records whose lower-cased status equals the lower-cased argument, each as many times as it occurs, in source order |
| Selection.StatusStepIgnoresCase | notion_filter.py:16 | two status arguments that lower-case alike ("complete", "COMPLETE") give the same result |
| Selection.DateRangeStepKeeps | notion_filter.py:20-28 | a bad `start` raises first, then a bad `end`; otherwise it succeeds iff every source record has a parsable `created`, and it keeps exactly those created from `start` to `end`, both included, each as many times as it occurs, in source order; a missing or empty `end` means today |
| Selection.SentinelChainIsIntersection | notion_filter.py:10 | with a sentinel in place of `[]`, a chain after the first filter keeps exactly the records every filter keeps, in order and with multiplicity |
| Selection.SentinelEmptyStaysEmpty | notion_filter.py:10 | with the sentinel, an empty result stays empty whatever filters follow |
| Selection.ChainMatchesSentinelWhileNonEmpty | notion_filter.py:10 | the code as written agrees with the sentinel chain as long as no intermediate result is empty |
| Strings.ContainsIffOccurs | notion_filter.py:11 | Python's `name in text` holds iff `name` occurs at some index of `text` |
| Strings.NotContainsAbsentChar | notion_filter.py:11 | a needle whose first character does not occur in the text is not contained in it |
| Strings.LowerEqualIff | notion_filter.py:16 | two strings lower-case alike iff they have the same length and agree at each position up to the case of an ASCII letter |
| Strings.LowerIdempotent | notion_filter.py:16 | lower-casing twice is lower-casing once |
| Strings.LowerHasNoUpper | notion_filter.py:16 | lower-cased text holds no upper-case ASCII letter |
| Strings.LexLtIffFirstDifferenceLess | main.py:31 | string `<` holds iff `a` is a proper prefix of `b` or the first differing character of `a` is smaller |
| Strings.LexLtIrreflexive | main.py:31 | string `<` is irreflexive |
| Strings.LexLtTransitive | main.py:31 | string `<` is transitive |
| Strings.LexLtTotal | main.py:31 | any two different strings are ordered one way or the other |
| Strings.LexLtAsymmetric | main.py:31 | string `<` never holds both ways |
| Dates.DateLeTotalOrder | notion_filter.py:27 | date comparison is a total order |
| Dates.ParseIso | notion_filter.py:22-23 | a successful `%Y-%m-%d` parse is a real calendar date |
| Dates.MatchMonthFinds | notion_filter.py:27 | text that starts with a month's full name, in any letter case, is read as that month and no other |
| Dates.ParseCreatedFormatCreated | notion_filter.py:27 | the `created` text the export writes for a valid date at any 12-hour time (`%B %-d, %Y %-I:%M %p`) parses back to exactly that date |
| Dates.ParseIsoUnpadded | notion_filter.py:22-23 | a typed bound `YYYY-M-D`, with the month and the day each written with or without a leading zero, parses to exactly the date it names |
| Dates.ParseIsoFormatIso | notion_filter.py:22 | parsing the zero-padded ISO text of any valid date gives that date back |
| Dedup.IndexById | main.py:30 | the dict comprehension succeeds iff every record has an `ID`, and otherwise raises KeyError("ID") |
| Dedup.IndexByIdWellFormed | main.py:30 | the dict has each key once and files every record under its own ID |
| Dedup.IndexByIdKeys | main.py:30 | the dict's keys are exactly the IDs of the input |
| Dedup.IndexByIdLast | main.py:30 | under each ID the dict holds the last input record with that ID |
| Dedup.IndexByIdLastWins | main.py:30 | the dict holds one entry per ID of the input, and that entry is the last record with that ID |
| Dedup.ValuesOfDict | main.py:30 | `.values()` has no repeated ID and holds exactly the records stored under their IDs |
| Dedup.SortById | main.py:31 | `sorted` returns a permutation of its input |
| Dedup.SortByIdSorted | main.py:31 | `sorted` orders any rows by ID |
| Dedup.SortByIdStrict | main.py:31 | on distinct IDs the order is strict |
| Dedup.LastWithIdMember | main.py:30 | the last record found for an ID is an input record with that ID |
| Dedup.StrictlySortedUnique | main.py:31 | two lists strictly ordered by ID with the same members are equal |
| Dedup.RemoveDuplicates | main.py:29-31 | succeeds iff every record has an `ID`, and otherwise raises KeyError("ID") |
| DedupProperties.RemoveDuplicatesLastWins | main.py:29-31 | the output is strictly ascending by ID; it holds exactly the records that are the last of the input with their ID; it is no longer than the input |
| DedupProperties.RemoveDuplicatesKeepsIds | main.py:30 | the output has exactly the IDs of the input, one record each; it is empty iff the input is |
| DedupProperties.RemoveDuplicatesWithinInput | main.py:30 | every output record is an input record |
| DedupProperties.RemoveDuplicatesOfDistinct | main.py:29-31 | input without repeated IDs is only sorted |
| DedupProperties.RemoveDuplicatesSortsDistinct | main.py:29-31 | input without repeated IDs comes out as the one arrangement of its records in ascending ID order |
| DedupProperties.RemoveDuplicatesIdempotent | main.py:29-31 | removing duplicates twice gives the same as once |
| Pipeline.Run | main.py:64-88 | `main` with the filter object gives the outcome `Decide` describes; it aborts for a missing name iff the name is empty, and for missing rows iff a name is given and there are no rows |
| Pipeline.YearInReviewWithinRows | main.py:79-82 | the chained result is an order-preserving subsequence of the rows |
| Pipeline.ExportedRecords | main.py:84-88 | `export` only receives a non-empty list, so `results[0]` at main.py:24 exists; the list is strictly ordered by ID and each record is an input row created inside the window |
| Pipeline.ExportedMatchesAllFilters | main.py:79-88 | when neither the name stage nor the status stage came out empty, every exported record names the engineer and has the status |
| Pipeline.NoResultsWhenChainEmpty | main.py:84-86 | once both preflight checks pass, "no results" is reported iff the chain returns `[]` |
| Samples.Created301 | tests.py:25 | ticket 301's `created` text parses to 2024-04-12 |
| Samples.Created302 | tests.py:40 | ticket 302's `created` text parses to 2025-03-10 |
| Samples.Created303 | tests.py:55 | ticket 303's `created` text parses to 2024-07-04 |
| Samples.Created304 | tests.py:70 | ticket 304's `created` text parses to 2025-12-31 |
| Samples.NameDukeEllington | tests.py:76-79 | `name("Duke Ellington")` keeps tickets 301 and 302 |
| Samples.NameDuke | tests.py:81-83 | a partial name, "Duke", keeps the same two |
| Samples.NameZork | tests.py:85-87 | `name("Zork Z")` keeps nothing |
| Samples.NameCarol | tests.py:165-172 | `name("Carol D")` keeps ticket 303 |
| Samples.StatusInProgress | tests.py:95-98 | `status("In Progress")` keeps ticket 302 only |
| Samples.StatusComplete | tests.py:100-105 | `status("complete")` keeps 301, 303 and 304 |
| Samples.StatusAnyCase | tests.py:100-105 | "COMPLETE" and "Complete" select the same three tickets |
| Samples.StatusBlocked | tests.py:107-109 | `status("Blocked")` keeps nothing |
| Samples.DateRange2025 | tests.py:117-123 | the 2025 window keeps 302 and 304 |
| Samples.DateRange2024 | tests.py:125-130 | the 2024 window keeps 301 and 303 |
| Samples.DateRangeOneDay | tests.py:132-135 | a one-day window keeps the ticket created that day, whatever its time |
| Samples.DateRange2020 | tests.py:137-139 | the 2020 window keeps nothing |
| SampleRuns.NameReturnsSelf | tests.py:89-91 | `name` hands back the filter object itself |
| SampleRuns.StatusReturnsSelf | tests.py:111-113 | `status` hands back the filter object itself |
| SampleRuns.DateRangeReturnsSelf | tests.py:141-143 | `date_range` hands back the filter object itself |
| SampleRuns.NameThenStatus | tests.py:147-152 | `name("Duke Ellington").status("Complete")` keeps ticket 301, and each call returns the same object |
| SampleRuns.FullChain | tests.py:154-163 | adding the 2024 window still keeps ticket 301 only |
| SampleRuns.ChainYieldingNothing | tests.py:165-172 | `name("Carol D").status("In Progress")` ends with no results |
| SampleRuns.ChainAfterEmpty | tests.py:174-182 | as written, `name("Zork Z").status("Complete")` ends with tickets 301, 303 and 304, not `[]` |
| SampleRuns.SentinelChainAfterEmpty | tests.py:174-182 | with the sentinel, the same chain ends empty |
| SampleRuns.DedupExactDuplicate | tests.py:186-192 | an exact duplicate of 301 collapses, leaving 301 and 302 |
| SampleRuns.DedupKeepsUniqueSample | tests.py:194-195 | the four distinct sample tickets all remain, in ID order |
| SampleRuns.DedupSortsSample | tests.py:197-204 | IDs 303, 301, 302 come out as 301, 302, 303 |
| SampleRuns.DedupKeepsLastSeen | tests.py:206-211 | of ticket 301 and its copy reassigned to "Alice A", only the copy remains |
| SampleRuns.ZorkYearInReview | main.py:79-88 | `main` for "Zork Z", who has no tickets, exports the finished tickets 301, 303 and 304 of other engineers |
| SampleRuns.DukeYearInReview | main.py:79-88 | `main` for Duke Ellington's completed 2024 tickets exports ticket 301 |
| SampleRuns.ZorkRun | main.py:64-88 | the same Zork run through `Run` and the filter object |

## Left out

- `unpack` and `export` (main.py:16-26) read and write CSV files. They are
  file I/O and the `csv` module. The model only proves that `export` gets a
  non-empty list.
- `fetch_args` (main.py:34-61) parses the command line. Its values (name,
  status, start, end) are parameters of `Pipeline.Decide` and `Pipeline.Run`.
  `--export` is parsed (main.py:56-60) but never passed on: main.py:88
  calls `export` without a file name, so the output is always named after
  `DEFAULT_EXPORT_NAME` (main.py:22). File naming is not modelled.
- The glob loop that concatenates all CSV files (main.py:66-68) is left
  out. `rows` is a parameter.
- The `print` messages (main.py:72, 76, 85) are left out. They become the
  `MissingName`, `MissingRows` and `NoResults` outcomes.
- The clock is a parameter, `today`. This covers the module-level defaults
  (main.py:9-13) and `datetime.date.today()` at notion_filter.py:23.
- Dates.ParseIso, Dates.ParseCreated: simplified `strptime`.
  - Only English month names are accepted, in any letter case.
  - Single spaces separate the fields.
  - The day, month and hour fields take one or two digits, and the year
    takes exactly four.
  - The clock must be a valid 12-hour time with AM or PM.
  - `strptime` also accepts a run of whitespace where the format has a
    space, and a space before a one-digit day or hour (" 5"). The model
    accepts exactly one space between fields and no such padding.
  - The year range is 1 to 9999, as for `datetime.date`.
  - A text that the model rejects and Python accepts, or the other way
    round, is outside what is proved.
- Dates.ParseCreated: its result is pinned to the named date for the text
  the export writes (`Dates.ParseCreatedFormatCreated`: unpadded day and
  hour, two-digit minute, title-case month, upper-case AM or PM). For other
  accepted spellings, such as a zero-padded day or a lower-case month, its
  contract only says the result is a valid date.
- Strings.Lower: ASCII letters only. Python's Unicode `str.lower` is not
  modelled.
- Dedup.SortById: `sorted` is modelled as a stable insertion sort, not
  Timsort. Only the result matters, and on the strictly ordered output the
  result is unique (`Dedup.StrictlySortedUnique`).
- Python's reference semantics are not modelled. `self` is returned as
  `Ok(this)`, and the records are values, so no aliasing between a row and
  a result is modelled.
- The CSV round-trip and header tests (tests.py:214-290) concern the `csv`
  module and are not part of this model.

## Findings

| source | as written | input that shows it | evidently intended | confidence | as-written member | corrected member |
|---|---|---|---|---|---|---|
| notion_filter.py:10 (also lines 15 and 20) | `results = self.results or self.rows` reads the original rows again whenever the previous filter kept nothing, because `[]` is falsy | the four sample tickets, `name("Zork Z").status("Complete")`: the result is tickets 301, 303 and 304, while the test at tests.py:174-182 expects `[]`; through `main` with name "Zork Z" this exports other engineers' tickets | once any filter has run, later filters read its result even when it is empty, using a sentinel for "not filtered yet" | not executed | SampleRuns.ChainAfterEmpty | Selection.SentinelEmptyStaysEmpty |

The main filter class and `main` follow the code as written. The corrected
chain is `Selection.SentinelChain`. Its properties are
`Selection.SentinelChainIsIntersection` and
`Selection.SentinelEmptyStaysEmpty`. `SampleRuns.SentinelChainAfterEmpty`
shows the same Zork chain ending empty under it.
`Selection.ChainMatchesSentinelWhileNonEmpty` shows that the two chains
differ only after an empty intermediate result.
