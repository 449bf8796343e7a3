/** `remove_duplicates`: the dict comprehension `{r["ID"]: r for r in rows}`
    keeps, for each ID, the last record seen with it; `.values()` lists them
    in the order their IDs first appeared; `sorted(..., key=r["ID"])` orders
    them by ID as strings. */
module Dedup {
  import opened Records
  import opened Strings

  /** A Python dict from ID to record: its keys in insertion order and the
      mapping itself. */
  datatype Dict = Dict(keys: seq<string>, entries: map<string, Record>)

  /** What the comprehension builds: each key once, the key list and the
      mapping agree, and every record sits under its own ID. */
  predicate WellFormed(d: Dict)
  {
    && (forall i, j :: 0 <= i < j < |d.keys| ==> d.keys[i] != d.keys[j])
    && (forall k :: k in d.keys ==> k in d.entries)
    && (forall k :: k in d.entries ==> k in d.keys)
    && |d.keys| == |d.entries|
    && (forall k :: k in d.entries ==> "ID" in d.entries[k] && d.entries[k]["ID"] == k)
  }

  /** `d[k] = v`: a new key goes to the end, a known key keeps its place and
      its value is replaced. */
  function Put(d: Dict, k: string, v: Record): Dict
  {
    Dict(if k in d.entries then d.keys else d.keys + [k], d.entries[k := v])
  }

  /** The IDs the records of `rows` carry. */
  function Ids(rows: seq<Record>): set<string>
  {
    set r | r in rows && "ID" in r :: r["ID"]
  }

  /** The last record of `rows` whose ID is `k`, if any. */
  function LastWithId(rows: seq<Record>, k: string): Option<Record>
    decreases |rows|
  {
    if rows == [] then None
    else if "ID" in rows[|rows| - 1] && rows[|rows| - 1]["ID"] == k then Some(rows[|rows| - 1])
    else LastWithId(rows[..|rows| - 1], k)
  }

  /** `{r["ID"]: r for r in rows}`; a record without an ID raises. */
  function IndexById(rows: seq<Record>): (r: Result<Dict>)
    ensures r.Ok? <==> HasColumn(rows, "ID")
    ensures r.Err? ==> r.error == KeyError("ID")
    decreases |rows|
  {
    if rows == [] then Ok(Dict([], map[]))
    else
      var prefix, last := rows[..|rows| - 1], rows[|rows| - 1];
      match IndexById(prefix)
      case Err(e) => Err(e)
      case Ok(d) =>
        if "ID" in last then Ok(Put(d, last["ID"], last)) else Err(KeyError("ID"))
  }

  lemma PutKeepsWellFormed(d: Dict, v: Record)
    requires WellFormed(d) && "ID" in v
    ensures WellFormed(Put(d, v["ID"], v))
    ensures Put(d, v["ID"], v).entries.Keys == d.entries.Keys + {v["ID"]}
  {
    var k := v["ID"];
    var d' := Put(d, k, v);
    assert d'.entries.Keys == d.entries.Keys + {k};
    if k in d.entries {
      assert d'.keys == d.keys;
      assert |d'.entries| == |d.entries|;
    } else {
      PutNewKey(d, k, v);
    }
    forall x | x in d'.entries
      ensures "ID" in d'.entries[x] && d'.entries[x]["ID"] == x
    {
      if x != k {
        assert d'.entries[x] == d.entries[x];
      }
    }
  }

  /** A new key goes once to the end of the key list. */
  lemma PutNewKey(d: Dict, k: string, v: Record)
    requires WellFormed(d) && k !in d.entries
    ensures Put(d, k, v).keys == d.keys + [k]
    ensures forall i, j :: 0 <= i < j < |d.keys| + 1 ==> (d.keys + [k])[i] != (d.keys + [k])[j]
    ensures forall x :: x in d.keys + [k] <==> x in d.keys || x == k
    ensures |d.entries[k := v]| == |d.entries| + 1
  {
    var keys := d.keys + [k];
    forall i, j | 0 <= i < j < |keys|
      ensures keys[i] != keys[j]
    {
      if j == |d.keys| {
        assert d.keys[i] in d.keys;
      }
    }
  }

  lemma IdsSnoc(prefix: seq<Record>, last: Record)
    requires "ID" in last
    ensures Ids(prefix + [last]) == Ids(prefix) + {last["ID"]}
  {
    var rows := prefix + [last];
    assert forall x :: x in rows <==> x in prefix || x == last;
    forall k | k in Ids(rows)
      ensures k in Ids(prefix) + {last["ID"]}
    {
      var r :| r in rows && "ID" in r && r["ID"] == k;
    }
    forall k | k in Ids(prefix) + {last["ID"]}
      ensures k in Ids(rows)
    {
      if k != last["ID"] {
        var r :| r in prefix && "ID" in r && r["ID"] == k;
        assert r in rows;
      } else {
        assert last in rows;
      }
    }
  }

  /** One step of the comprehension: the dict of `rows` is the dict of all
      but the last record, with the last record put under its ID. */
  lemma IndexByIdSnoc(rows: seq<Record>)
    requires rows != [] && IndexById(rows).Ok?
    ensures IndexById(rows[..|rows| - 1]).Ok? && "ID" in rows[|rows| - 1]
    ensures IndexById(rows).value
         == Put(IndexById(rows[..|rows| - 1]).value, rows[|rows| - 1]["ID"], rows[|rows| - 1])
  {
  }

  /** The dict is well formed. */
  lemma {:induction false} IndexByIdWellFormed(rows: seq<Record>)
    requires IndexById(rows).Ok?
    ensures WellFormed(IndexById(rows).value)
    decreases |rows|
  {
    if rows != [] {
      IndexByIdSnoc(rows);
      IndexByIdWellFormed(rows[..|rows| - 1]);
      PutKeepsWellFormed(IndexById(rows[..|rows| - 1]).value, rows[|rows| - 1]);
    }
  }

  /** The dict is keyed by exactly the IDs of `rows`. */
  lemma {:induction false} IndexByIdKeys(rows: seq<Record>)
    requires IndexById(rows).Ok?
    ensures IndexById(rows).value.entries.Keys == Ids(rows)
    decreases |rows|
  {
    if rows != [] {
      var prefix, last := rows[..|rows| - 1], rows[|rows| - 1];
      IndexByIdSnoc(rows);
      IndexByIdKeys(prefix);
      var d := IndexById(prefix).value;
      assert Put(d, last["ID"], last).entries.Keys == d.entries.Keys + {last["ID"]};
      assert rows == prefix + [last];
      IdsSnoc(prefix, last);
    }
  }

  /** The dict has no more keys than `rows` has records. */
  lemma {:induction false} IndexByIdSize(rows: seq<Record>)
    requires IndexById(rows).Ok?
    ensures |IndexById(rows).value.keys| <= |rows|
    decreases |rows|
  {
    if rows != [] {
      IndexByIdSnoc(rows);
      IndexByIdSize(rows[..|rows| - 1]);
    }
  }

  /** Under each ID the dict holds the last record of `rows` with it. */
  lemma {:induction false} IndexByIdLast(rows: seq<Record>)
    requires IndexById(rows).Ok?
    ensures forall k :: LastWithId(rows, k) == if k in IndexById(rows).value.entries
                                                then Some(IndexById(rows).value.entries[k]) else None
    decreases |rows|
  {
    if rows != [] {
      var prefix, last := rows[..|rows| - 1], rows[|rows| - 1];
      IndexByIdSnoc(rows);
      IndexByIdLast(prefix);
      var d := IndexById(prefix).value;
      var d' := IndexById(rows).value;
      assert d'.entries == d.entries[last["ID"] := last];
      forall k
        ensures LastWithId(rows, k) == if k in d'.entries then Some(d'.entries[k]) else None
      {
        if k == last["ID"] {
          assert LastWithId(rows, k) == Some(last);
        } else {
          assert LastWithId(rows, k) == LastWithId(prefix, k);
        }
      }
    }
  }

  /** The dict the comprehension builds holds, under each ID of `rows`, the
      last record with that ID, and nothing else. */
  lemma IndexByIdLastWins(rows: seq<Record>)
    requires IndexById(rows).Ok?
    ensures WellFormed(IndexById(rows).value)
    ensures IndexById(rows).value.entries.Keys == Ids(rows)
    ensures |IndexById(rows).value.keys| <= |rows|
    ensures forall k :: LastWithId(rows, k) == if k in IndexById(rows).value.entries
                                                then Some(IndexById(rows).value.entries[k]) else None
  {
    IndexByIdWellFormed(rows);
    IndexByIdKeys(rows);
    IndexByIdSize(rows);
    IndexByIdLast(rows);
  }

  /** `.values()`: the records in key insertion order. */
  function Values(d: Dict): seq<Record>
    requires WellFormed(d)
  {
    seq(|d.keys|, i requires 0 <= i < |d.keys| => d.entries[d.keys[i]])
  }

  /** `s` is ordered by ID, ties allowed. */
  predicate SortedById(s: seq<Record>)
    requires HasColumn(s, "ID")
  {
    forall i, j :: 0 <= i < j < |s| ==> !LexLt(s[j]["ID"], s[i]["ID"])
  }

  /** `s` is ordered by ID without ties: one record per ID. */
  predicate StrictlySortedById(s: seq<Record>)
  {
    HasColumn(s, "ID") && forall i, j :: 0 <= i < j < |s| ==> LexLt(s[i]["ID"], s[j]["ID"])
  }

  /** Places `x` before the first record whose ID is not smaller, which
      keeps equal IDs in their original order. */
  function Insert(x: Record, s: seq<Record>): (r: seq<Record>)
    requires "ID" in x && HasColumn(s, "ID")
    ensures multiset(r) == multiset(s) + multiset{x}
    ensures HasColumn(r, "ID")
    decreases |s|
  {
    if s == [] then [x]
    else if !LexLt(s[0]["ID"], x["ID"]) then [x] + s
    else
      var rest := Insert(x, s[1..]);
      assert s == [s[0]] + s[1..];
      assert multiset([s[0]] + rest) == multiset{s[0]} + multiset(rest);
      HasColumnOfMultiset([s[0]] + rest, s, x);
      [s[0]] + rest
  }

  /** A list holding the records of `s` and `x` has an `ID` column when
      they all have one. */
  lemma HasColumnOfMultiset(r: seq<Record>, s: seq<Record>, x: Record)
    requires "ID" in x && HasColumn(s, "ID")
    requires multiset(r) == multiset(s) + multiset{x}
    ensures HasColumn(r, "ID")
  {
    forall i | 0 <= i < |r|
      ensures "ID" in r[i]
    {
      assert r[i] in multiset(r);
      if r[i] != x {
        assert r[i] in multiset(s);
        var j :| 0 <= j < |s| && s[j] == r[i];
      }
    }
  }

  /** `sorted(s, key=lambda r: r["ID"])`: a stable insertion sort. */
  function SortById(s: seq<Record>): (r: seq<Record>)
    requires HasColumn(s, "ID")
    ensures multiset(r) == multiset(s)
    ensures HasColumn(r, "ID")
    decreases |s|
  {
    if s == [] then []
    else
      assert s == [s[0]] + s[1..];
      Insert(s[0], SortById(s[1..]))
  }

  /** No two records of `s` share an ID. */
  predicate DistinctIds(s: seq<Record>)
  {
    HasColumn(s, "ID") && forall i, j :: 0 <= i < j < |s| ==> s[i]["ID"] != s[j]["ID"]
  }

  /** A record whose ID is at most every ID of a sorted list can go in
      front of it. */
  lemma ConsSorted(h: Record, t: seq<Record>)
    requires "ID" in h && HasColumn(t, "ID") && SortedById(t)
    requires forall j :: 0 <= j < |t| ==> !LexLt(t[j]["ID"], h["ID"])
    ensures HasColumn([h] + t, "ID") && SortedById([h] + t)
  {
    var r := [h] + t;
    forall i, j | 0 <= i < j < |r|
      ensures !LexLt(r[j]["ID"], r[i]["ID"])
    {
      assert r[j] == t[j - 1];
      if i > 0 {
        assert r[i] == t[i - 1];
      }
    }
  }

  /** A record whose ID is below every ID of a strictly sorted list can go
      in front of it. */
  lemma ConsStrict(h: Record, t: seq<Record>)
    requires "ID" in h && StrictlySortedById(t)
    requires forall j :: 0 <= j < |t| ==> LexLt(h["ID"], t[j]["ID"])
    ensures StrictlySortedById([h] + t)
  {
    var r := [h] + t;
    forall i, j | 0 <= i < j < |r|
      ensures LexLt(r[i]["ID"], r[j]["ID"])
    {
      assert r[j] == t[j - 1];
      if i > 0 {
        assert r[i] == t[i - 1];
      }
    }
  }

  /** Each record of `Insert(x, s)` is `x` or a record of `s`. */
  lemma InsertMember(x: Record, s: seq<Record>, j: nat)
    requires "ID" in x && HasColumn(s, "ID") && j < |Insert(x, s)|
    ensures Insert(x, s)[j] == x || exists k :: 0 <= k < |s| && s[k] == Insert(x, s)[j]
  {
    assert Insert(x, s)[j] in multiset(s) + multiset{x};
  }

  lemma {:induction false} InsertSorted(x: Record, s: seq<Record>)
    requires "ID" in x && HasColumn(s, "ID") && SortedById(s)
    ensures SortedById(Insert(x, s))
    decreases |s|
  {
    if s == [] {
    } else if !LexLt(s[0]["ID"], x["ID"]) {
      forall j | 0 <= j < |s|
        ensures !LexLt(s[j]["ID"], x["ID"])
      {
        if j > 0 && LexLt(s[j]["ID"], x["ID"]) {
          LexLtTotal(x["ID"], s[0]["ID"]);
          if LexLt(x["ID"], s[0]["ID"]) {
            LexLtTransitive(s[j]["ID"], x["ID"], s[0]["ID"]);
          }
        }
      }
      ConsSorted(x, s);
    } else {
      InsertSorted(x, s[1..]);
      var t := Insert(x, s[1..]);
      forall j | 0 <= j < |t|
        ensures !LexLt(t[j]["ID"], s[0]["ID"])
      {
        InsertMember(x, s[1..], j);
        if t[j] == x {
          LexLtAsymmetric(s[0]["ID"], x["ID"]);
        } else {
          var k :| 0 <= k < |s[1..]| && s[1..][k] == t[j];
          assert s[k + 1] == t[j];
        }
      }
      ConsSorted(s[0], t);
    }
  }

  lemma {:induction false} InsertStrict(x: Record, s: seq<Record>)
    requires "ID" in x && StrictlySortedById(s)
    requires forall i :: 0 <= i < |s| ==> s[i]["ID"] != x["ID"]
    ensures StrictlySortedById(Insert(x, s))
    decreases |s|
  {
    if s == [] {
    } else if !LexLt(s[0]["ID"], x["ID"]) {
      LexLtTotal(s[0]["ID"], x["ID"]);
      forall j | 0 <= j < |s|
        ensures LexLt(x["ID"], s[j]["ID"])
      {
        if j > 0 {
          LexLtTransitive(x["ID"], s[0]["ID"], s[j]["ID"]);
        }
      }
      ConsStrict(x, s);
    } else {
      InsertStrict(x, s[1..]);
      var t := Insert(x, s[1..]);
      forall j | 0 <= j < |t|
        ensures LexLt(s[0]["ID"], t[j]["ID"])
      {
        InsertMember(x, s[1..], j);
        if t[j] != x {
          var k :| 0 <= k < |s[1..]| && s[1..][k] == t[j];
          assert s[k + 1] == t[j];
        }
      }
      ConsStrict(s[0], t);
    }
  }

  /** `sorted` orders any rows by ID. */
  lemma {:induction false} SortByIdSorted(s: seq<Record>)
    requires HasColumn(s, "ID")
    ensures SortedById(SortById(s))
    decreases |s|
  {
    if s != [] {
      SortByIdSorted(s[1..]);
      InsertSorted(s[0], SortById(s[1..]));
    }
  }

  /** On rows with distinct IDs, `sorted` leaves no ties. */
  lemma {:induction false} SortByIdStrict(s: seq<Record>)
    requires DistinctIds(s)
    ensures StrictlySortedById(SortById(s))
    decreases |s|
  {
    if s != [] {
      assert DistinctIds(s[1..]) by {
        forall i, j | 0 <= i < j < |s[1..]|
          ensures s[1..][i]["ID"] != s[1..][j]["ID"]
        {
          assert s[1..][i] == s[i + 1] && s[1..][j] == s[j + 1];
        }
      }
      SortByIdStrict(s[1..]);
      var t := SortById(s[1..]);
      forall i | 0 <= i < |t|
        ensures t[i]["ID"] != s[0]["ID"]
      {
        assert t[i] in multiset(s[1..]);
        var k :| 0 <= k < |s[1..]| && s[1..][k] == t[i];
        assert s[k + 1] == t[i];
      }
      InsertStrict(s[0], t);
    }
  }

  /** `.values()` holds exactly the records stored in the dict, one per key. */
  lemma ValuesOfDict(d: Dict)
    requires WellFormed(d)
    ensures DistinctIds(Values(d))
    ensures forall y :: y in Values(d) <==> "ID" in y && y["ID"] in d.entries && d.entries[y["ID"]] == y
  {
    var vs := Values(d);
    assert |vs| == |d.keys|;
    forall i | 0 <= i < |vs|
      ensures vs[i] == d.entries[d.keys[i]] && "ID" in vs[i] && vs[i]["ID"] == d.keys[i]
    {
      assert d.keys[i] in d.keys;
    }
    forall y | "ID" in y && y["ID"] in d.entries && d.entries[y["ID"]] == y
      ensures y in vs
    {
      var i :| 0 <= i < |d.keys| && d.keys[i] == y["ID"];
      assert vs[i] == y;
    }
  }

  /** What `LastWithId` finds is a record of `rows` carrying that ID. */
  lemma {:induction false} LastWithIdMember(rows: seq<Record>, k: string)
    requires LastWithId(rows, k).Some?
    ensures LastWithId(rows, k).value in rows
    ensures "ID" in LastWithId(rows, k).value && LastWithId(rows, k).value["ID"] == k
    decreases |rows|
  {
    var p := rows[..|rows| - 1];
    if !("ID" in rows[|rows| - 1] && rows[|rows| - 1]["ID"] == k) {
      LastWithIdMember(p, k);
      assert rows == p + [rows[|rows| - 1]];
    }
  }

  /** With distinct IDs, the last record carrying an ID is the only one. */
  lemma {:induction false} LastWithIdDistinct(s: seq<Record>, y: Record)
    requires DistinctIds(s) && "ID" in y
    ensures LastWithId(s, y["ID"]) == Some(y) <==> y in s
    decreases |s|
  {
    if s != [] {
      var p, l := s[..|s| - 1], s[|s| - 1];
      assert s == p + [l];
      assert DistinctIds(p);
      if l["ID"] != y["ID"] {
        LastWithIdDistinct(p, y);
      }
    }
  }

  /** Two ID-ordered sequences without ties that hold the same records are
      equal: the output of `remove_duplicates` is fixed by its records. */
  lemma {:induction false} StrictlySortedUnique(a: seq<Record>, b: seq<Record>)
    requires StrictlySortedById(a) && StrictlySortedById(b)
    requires forall y :: y in a <==> y in b
    ensures a == b
    decreases |a|
  {
    if a != [] {
      assert a[0] in b;
    }
    if b != [] {
      assert b[0] in a;
    }
    if a != [] && b != [] {
      var j :| 0 <= j < |b| && b[j] == a[0];
      var i :| 0 <= i < |a| && a[i] == b[0];
      if i > 0 && j > 0 {
        LexLtAsymmetric(a[0]["ID"], b[0]["ID"]);
      }
      assert a[0] == b[0];
      assert a == [a[0]] + a[1..] && b == [b[0]] + b[1..];
      forall y
        ensures y in a[1..] <==> y in b[1..]
      {
        if y in a[1..] {
          var k :| 0 <= k < |a[1..]| && a[1..][k] == y;
          assert a[k + 1] == y;
          assert LexLt(a[0]["ID"], y["ID"]);
          LexLtIrreflexive(y["ID"]);
          assert y != b[0];
          assert y in b;
        }
        if y in b[1..] {
          var k :| 0 <= k < |b[1..]| && b[1..][k] == y;
          assert b[k + 1] == y;
          assert LexLt(b[0]["ID"], y["ID"]);
          LexLtIrreflexive(y["ID"]);
          assert y != a[0];
          assert y in a;
        }
      }
      StrictlySortedUnique(a[1..], b[1..]);
    }
  }

  lemma StrictlySortedDistinct(s: seq<Record>)
    requires StrictlySortedById(s)
    ensures DistinctIds(s)
  {
    forall i, j | 0 <= i < j < |s|
      ensures s[i]["ID"] != s[j]["ID"]
    {
      LexLtIrreflexive(s[i]["ID"]);
    }
  }

  /** `remove_duplicates(rows)`. */
  function RemoveDuplicates(rows: seq<Record>): (r: Result<seq<Record>>)
    ensures r.Ok? <==> HasColumn(rows, "ID")
    ensures r.Err? ==> r.error == KeyError("ID")
  {
    match IndexById(rows)
    case Err(e) => Err(e)
    case Ok(d) =>
      IndexByIdLastWins(rows);
      Ok(SortById(Values(d)))
  }
}

module DedupProperties {
  import opened Records
  import opened Strings
  import opened Dedup

  /** The output is ordered by ID with one record per ID, and holds exactly
      the records that are the last of `rows` to carry their ID. */
  lemma RemoveDuplicatesLastWins(rows: seq<Record>)
    requires HasColumn(rows, "ID")
    ensures StrictlySortedById(RemoveDuplicates(rows).value)
    ensures forall y :: y in RemoveDuplicates(rows).value <==> "ID" in y && LastWithId(rows, y["ID"]) == Some(y)
    ensures |RemoveDuplicates(rows).value| <= |rows|
  {
    var d := IndexById(rows).value;
    IndexByIdLastWins(rows);
    ValuesOfDict(d);
    SortByIdStrict(Values(d));
    var out := RemoveDuplicates(rows).value;
    assert out == SortById(Values(d));
    forall y
      ensures y in out <==> y in Values(d)
    {
      assert y in out <==> y in multiset(out);
    }
    assert |out| == |multiset(out)| == |multiset(Values(d))| == |Values(d)|;
  }

  /** Every ID of the input survives, and no other appears. */
  lemma RemoveDuplicatesKeepsIds(rows: seq<Record>)
    requires HasColumn(rows, "ID")
    ensures Ids(RemoveDuplicates(rows).value) == Ids(rows)
    ensures RemoveDuplicates(rows).value == [] <==> rows == []
  {
    var out := RemoveDuplicates(rows).value;
    var d := IndexById(rows).value;
    RemoveDuplicatesLastWins(rows);
    IndexByIdLastWins(rows);
    forall k | k in Ids(rows)
      ensures k in Ids(out)
    {
      assert LastWithId(rows, k) == Some(d.entries[k]);
      assert d.entries[k] in out;
    }
    forall k | k in Ids(out)
      ensures k in Ids(rows)
    {
      var y :| y in out && "ID" in y && y["ID"] == k;
      assert LastWithId(rows, k) == Some(y);
    }
    if rows != [] {
      assert rows[0]["ID"] in Ids(rows);
    }
    if out != [] {
      assert out[0]["ID"] in Ids(out);
    }
  }

  /** Rows without repeated IDs lose nothing: they only get sorted. */
  lemma RemoveDuplicatesOfDistinct(rows: seq<Record>)
    requires DistinctIds(rows)
    ensures RemoveDuplicates(rows) == Ok(SortById(rows))
  {
    RemoveDuplicatesLastWins(rows);
    SortByIdStrict(rows);
    var out := RemoveDuplicates(rows).value;
    forall y
      ensures y in out <==> y in SortById(rows)
    {
      assert y in SortById(rows) <==> y in multiset(SortById(rows));
      if "ID" in y {
        LastWithIdDistinct(rows, y);
      }
    }
    StrictlySortedUnique(out, SortById(rows));
  }

  /** Nothing is invented: every output record is one of the input's. */
  lemma RemoveDuplicatesWithinInput(rows: seq<Record>)
    requires HasColumn(rows, "ID")
    ensures forall y :: y in RemoveDuplicates(rows).value ==> y in rows
  {
    RemoveDuplicatesLastWins(rows);
    forall y | y in RemoveDuplicates(rows).value
      ensures y in rows
    {
      LastWithIdMember(rows, y["ID"]);
    }
  }

  /** Removing duplicates twice is the same as once. */
  lemma RemoveDuplicatesIdempotent(rows: seq<Record>)
    requires HasColumn(rows, "ID")
    ensures RemoveDuplicates(RemoveDuplicates(rows).value) == RemoveDuplicates(rows)
  {
    var out := RemoveDuplicates(rows).value;
    RemoveDuplicatesLastWins(rows);
    StrictlySortedDistinct(out);
    RemoveDuplicatesOfDistinct(out);
    SortByIdStrict(out);
    forall y
      ensures y in SortById(out) <==> y in out
    {
      assert y in SortById(out) <==> y in multiset(SortById(out));
    }
    StrictlySortedUnique(SortById(out), out);
  }

  /** Rows with distinct IDs come out as their one arrangement ordered by
      ID. */
  lemma RemoveDuplicatesSortsDistinct(rows: seq<Record>, sorted: seq<Record>)
    requires DistinctIds(rows) && StrictlySortedById(sorted)
    requires forall y :: y in rows <==> y in sorted
    ensures RemoveDuplicates(rows) == Ok(sorted)
  {
    RemoveDuplicatesOfDistinct(rows);
    SortByIdStrict(rows);
    forall y
      ensures y in SortById(rows) <==> y in sorted
    {
      assert y in SortById(rows) <==> y in multiset(SortById(rows));
    }
    StrictlySortedUnique(SortById(rows), sorted);
  }
}
