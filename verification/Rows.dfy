/** One event row, the order of a compacted day and the dedupe that every reader applies. */
module Rows {
  import opened Prelude

  /** A decoded JSON value; numbers keep their text. */
  datatype Json =
    | JNull
    | JBool(b: bool)
    | JNumber(text: string)
    | JString(s: string)
    | JArray(items: seq<Json>)
    | JObject(fields: map<string, Json>)

  /** A stored event. An empty string is an absent optional column; ts counts nanoseconds. */
  datatype Row = Row(
    eid: nat,
    ts: int,
    event: string,
    msg: string,
    tags: seq<string>,
    userID: string,
    anonID: string,
    tenantID: string,
    requestID: string,
    value: Option<real>,
    country: string,
    data: Option<map<string, Json>>)

  /** A row with its namespace. */
  datatype Event = Event(row: Row, ns: string)

  const MILLISECOND: int := 1_000_000
  const SECOND: int := 1_000_000_000
  const DAY: int := 86_400 * SECOND

  /** The UTC day of an instant, as a day number (floor division). */
  function DateOf(ts: int): int {
    ts / DAY
  }

  /** A day is its 86 400 000 000 000 nanoseconds. */
  lemma DayMeans(ts: int, date: int)
    ensures DateOf(ts) == date <==> date * 86_400_000_000_000 <= ts < (date + 1) * 86_400_000_000_000
  {
  }

  // ---------------------------------------------------------------- dedupe

  /** The eids that identify a line; zero is not an identity. */
  function Eids(rows: seq<Row>): set<nat> {
    set r | r in rows && r.eid != 0 :: r.eid
  }

  /** The rows without an identity, in order. */
  function Zeros(rows: seq<Row>): seq<Row> {
    if rows == [] then []
    else Zeros(rows[..|rows| - 1]) + (if rows[|rows| - 1].eid == 0 then [rows[|rows| - 1]] else [])
  }

  /** No two rows share a nonzero eid. */
  ghost predicate Unique(rows: seq<Row>) {
    forall i, j :: 0 <= i < j < |rows| && rows[i].eid != 0 ==> rows[i].eid != rows[j].eid
  }

  /** A row stays unless an earlier row has its nonzero eid. */
  function Dedupe(rows: seq<Row>): seq<Row> {
    if rows == [] then []
    else
      var before, last := rows[..|rows| - 1], rows[|rows| - 1];
      Dedupe(before) + (if last.eid != 0 && last.eid in Eids(before) then [] else [last])
  }

  lemma EidsAppend(a: seq<Row>, b: seq<Row>)
    ensures Eids(a + b) == Eids(a) + Eids(b)
  {
    forall e | e in Eids(a) + Eids(b)
      ensures e in Eids(a + b)
    {
      var r :| (r in a || r in b) && r.eid == e && r.eid != 0;
      assert r in a + b;
    }
  }

  lemma DedupeLast(rows: seq<Row>)
    requires rows != []
    ensures
      var before, last := rows[..|rows| - 1], rows[|rows| - 1];
      && rows == before + [last]
      && Eids(rows) == Eids(before) + (if last.eid == 0 then {} else {last.eid})
      && Dedupe(rows) == if last.eid != 0 && last.eid in Eids(before) then Dedupe(before) else Dedupe(before) + [last]
  {
    var before, last := rows[..|rows| - 1], rows[|rows| - 1];
    assert rows == before + [last];
    EidsAppend(before, [last]);
    assert Eids([last]) == if last.eid == 0 then {} else {last.eid};
    assert Dedupe(before) + [] == Dedupe(before);
  }

  lemma UniquePut(rows: seq<Row>, last: Row)
    requires Unique(rows) && (last.eid == 0 || last.eid !in Eids(rows))
    ensures Unique(rows + [last])
  {
    forall i | 0 <= i < |rows| && rows[i].eid != 0
      ensures rows[i].eid in Eids(rows)
    {
      assert rows[i] in rows;
    }
  }

  lemma ZerosLast(rows: seq<Row>, last: Row)
    ensures Zeros(rows + [last]) == if last.eid == 0 then Zeros(rows) + [last] else Zeros(rows)
  {
    assert (rows + [last])[..|rows|] == rows;
  }

  /** What Dedupe keeps: exactly the same eids, each once, only input rows, every zero-eid row. */
  lemma {:induction false} DedupeKeeps(rows: seq<Row>)
    ensures Eids(Dedupe(rows)) == Eids(rows)
    ensures Unique(Dedupe(rows))
    ensures forall r :: r in Dedupe(rows) ==> r in rows
    ensures Zeros(Dedupe(rows)) == Zeros(rows)
  {
    if rows == [] {
    } else {
      var before, last := rows[..|rows| - 1], rows[|rows| - 1];
      DedupeKeeps(before);
      DedupeLast(rows);
      ZerosLast(before, last);
      hide Dedupe, Zeros;
      if last.eid == 0 || last.eid !in Eids(before) {
        var kept := Dedupe(before);
        UniquePut(kept, last);
        ZerosLast(kept, last);
        EidsAppend(kept, [last]);
        EidsAppend(before, [last]);
      }
    }
  }

  /** The kept row of an eid is the first one. */
  lemma {:induction false} DedupeKeepsFirst(rows: seq<Row>, k: nat)
    requires k < |rows| && rows[k].eid != 0
    ensures rows[k] in Dedupe(rows) || rows[k].eid in Eids(rows[..k])
    ensures rows[k].eid !in Eids(rows[..k]) ==>
      forall r :: r in Dedupe(rows) && r.eid == rows[k].eid ==> r == rows[k]
  {
    var before, last := rows[..|rows| - 1], rows[|rows| - 1];
    if k < |rows| - 1 {
      DedupeKeepsFirst(before, k);
      assert before[..k] == rows[..k];
      assert before[k].eid in Eids(before);
    } else {
      DedupeKeeps(before);
      assert rows[..k] == before;
      assert forall r :: r in Dedupe(before) && r.eid != 0 ==> r.eid in Eids(Dedupe(before));
    }
  }

  lemma {:induction false} DedupeFixed(rows: seq<Row>)
    requires Unique(rows)
    ensures Dedupe(rows) == rows
  {
    if rows == [] {
    } else {
      var before, last := rows[..|rows| - 1], rows[|rows| - 1];
      assert Unique(before);
      DedupeFixed(before);
      assert before + [last] == rows;
    }
  }

  lemma DedupeStep(rows: seq<Row>, i: nat)
    requires i < |rows|
    ensures Dedupe(rows[..i + 1]) ==
      if rows[i].eid != 0 && rows[i].eid in Eids(rows[..i]) then Dedupe(rows[..i]) else Dedupe(rows[..i]) + [rows[i]]
    ensures Eids(rows[..i + 1]) == Eids(rows[..i]) + (if rows[i].eid == 0 then {} else {rows[i].eid})
  {
    assert rows[..i + 1][..i] == rows[..i];
    assert rows[..i + 1] == rows[..i] + [rows[i]];
    EidsAppend(rows[..i], [rows[i]]);
    assert Eids([rows[i]]) == if rows[i].eid == 0 then {} else {rows[i].eid};
  }

  /** The in-place loop of the store: it overwrites the prefix of the buffer it reads from. */
  method DedupeInPlace(a: array<Row>) returns (n: nat)
    modifies a
    ensures n <= a.Length
    ensures a[..n] == Dedupe(old(a[..]))
  {
    ghost var input := a[..];
    var seen: set<nat> := {};
    n := 0;
    for i := 0 to a.Length
      invariant n <= i
      invariant a[..n] == Dedupe(input[..i])
      invariant forall k :: i <= k < a.Length ==> a[k] == input[k]
      invariant seen == Eids(input[..i])
    {
      DedupeStep(input, i);
      var row := a[i];
      if row.eid == 0 || row.eid !in seen {
        if row.eid != 0 {
          seen := seen + {row.eid};
        }
        a[n] := row;
        n := n + 1;
      }
    }
    assert input[..a.Length] == input;
  }

  // ---------------------------------------------------------------- order of a day file

  /** The sort key order of a compacted day: tenant, then event, then time. */
  predicate RowLe(a: Row, b: Row) {
    StrLt(a.tenantID, b.tenantID) ||
    (a.tenantID == b.tenantID &&
     (StrLt(a.event, b.event) || (a.event == b.event && a.ts <= b.ts)))
  }

  predicate SameKey(a: Row, b: Row) {
    a.tenantID == b.tenantID && a.event == b.event && a.ts == b.ts
  }

  ghost predicate Sorted(rows: seq<Row>) {
    forall i, j :: 0 <= i < j < |rows| ==> RowLe(rows[i], rows[j])
  }

  /** The order of a day file, said of any two rows: tenants ascend, then events, then times. */
  ghost predicate DayOrder(rows: seq<Row>) {
    forall i, j :: 0 <= i < j < |rows| ==>
      var a, b := rows[i], rows[j];
      && (a.tenantID == b.tenantID || Precedes(a.tenantID, b.tenantID))
      && (a.tenantID == b.tenantID ==> a.event == b.event || Precedes(a.event, b.event))
      && (a.tenantID == b.tenantID && a.event == b.event ==> a.ts <= b.ts)
  }

  lemma SortedIsDayOrder(rows: seq<Row>)
    ensures Sorted(rows) ==> DayOrder(rows)
  {
    hide Precedes, StrLt;
    if Sorted(rows) {
      forall i, j | 0 <= i < j < |rows|
        ensures
          var a, b := rows[i], rows[j];
          && (a.tenantID == b.tenantID || Precedes(a.tenantID, b.tenantID))
          && (a.tenantID == b.tenantID ==> a.event == b.event || Precedes(a.event, b.event))
          && (a.tenantID == b.tenantID && a.event == b.event ==> a.ts <= b.ts)
      {
        var a, b := rows[i], rows[j];
        assert RowLe(a, b);
        StrLtIff(a.tenantID, b.tenantID);
        StrLtIff(a.event, b.event);
        NotBeforeItself(a.tenantID);
        NotBeforeItself(a.event);
      }
    }
  }

  lemma NotBeforeItself(a: string)
    ensures !StrLt(a, a)
  {
  }

  lemma RowLeOrder(a: Row, b: Row)
    ensures RowLe(a, b) || RowLe(b, a)
    ensures RowLe(a, b) && RowLe(b, a) <==> SameKey(a, b)
  {
    StrLeTotal(a.tenantID, b.tenantID);
    StrLeTotal(a.event, b.event);
  }

  lemma RowLeTransitive(a: Row, b: Row, c: Row)
    requires RowLe(a, b) && RowLe(b, c)
    ensures RowLe(a, c)
  {
    StrLeTotal(a.tenantID, b.tenantID);
    StrLeTotal(a.event, b.event);
    if StrLe(a.tenantID, b.tenantID) && StrLe(b.tenantID, c.tenantID) {
      StrLeTransitive(a.tenantID, b.tenantID, c.tenantID);
    }
    if StrLe(a.event, b.event) && StrLe(b.event, c.event) {
      StrLeTransitive(a.event, b.event, c.event);
    }
    StrLeTotal(b.tenantID, c.tenantID);
    StrLeTotal(b.event, c.event);
  }

  function Insert(x: Row, rows: seq<Row>): seq<Row> {
    if rows == [] || RowLe(x, rows[0]) then [x] + rows
    else [rows[0]] + Insert(x, rows[1..])
  }

  /** The stable sort of a day file. */
  function SortRows(rows: seq<Row>): seq<Row> {
    if rows == [] then [] else Insert(rows[0], SortRows(rows[1..]))
  }

  /** The rows with the key of `k`, in order. */
  ghost function WithKey(rows: seq<Row>, k: Row): seq<Row> {
    if rows == [] then []
    else (if SameKey(rows[0], k) then [rows[0]] else []) + WithKey(rows[1..], k)
  }

  lemma {:induction false} InsertHolds(x: Row, rows: seq<Row>)
    ensures multiset(Insert(x, rows)) == multiset(rows) + multiset{x}
    ensures forall r :: r in Insert(x, rows) <==> r == x || r in rows
  {
    hide RowLe;
    if rows == [] || RowLe(x, rows[0]) {
    } else {
      InsertHolds(x, rows[1..]);
      assert rows == [rows[0]] + rows[1..];
    }
  }

  lemma SortedPut(first: Row, rest: seq<Row>)
    requires Sorted(rest) && forall r :: r in rest ==> RowLe(first, r)
    ensures Sorted([first] + rest)
  {
    hide RowLe;
  }

  lemma {:induction false} InsertSorted(x: Row, rows: seq<Row>)
    requires Sorted(rows)
    ensures Sorted(Insert(x, rows))
  {
    hide RowLe;
    if rows == [] || RowLe(x, rows[0]) {
      forall r | r in rows
        ensures RowLe(x, r)
      {
        RowLeTransitive(x, rows[0], r);
        RowLeOrder(r, r);
      }
      SortedPut(x, rows);
    } else {
      InsertSorted(x, rows[1..]);
      InsertHolds(x, rows[1..]);
      RowLeOrder(x, rows[0]);
      SortedPut(rows[0], Insert(x, rows[1..]));
    }
  }

  lemma {:induction false} InsertStable(x: Row, rows: seq<Row>, k: Row)
    ensures WithKey(Insert(x, rows), k) == WithKey([x] + rows, k)
  {
    assert ([x] + rows)[1..] == rows;
    if rows != [] && !RowLe(x, rows[0]) {
      var rest := Insert(x, rows[1..]);
      InsertStable(x, rows[1..], k);
      RowLeOrder(x, rows[0]);
      assert ([rows[0]] + rest)[1..] == rest;
      assert ([x] + rows[1..])[1..] == rows[1..];
    }
  }

  /** Sorting yields an ordered permutation and keeps the order of rows with equal keys. */
  lemma {:induction false} SortRowsStable(rows: seq<Row>)
    ensures Sorted(SortRows(rows)) && DayOrder(SortRows(rows))
    ensures multiset(SortRows(rows)) == multiset(rows)
    ensures forall r :: r in SortRows(rows) <==> r in rows
    ensures forall k :: WithKey(SortRows(rows), k) == WithKey(rows, k)
  {
    if rows == [] {
    } else {
      hide DayOrder;
      SortRowsStable(rows[1..]);
      InsertSorted(rows[0], SortRows(rows[1..]));
      SortedIsDayOrder(SortRows(rows));
      InsertHolds(rows[0], SortRows(rows[1..]));
      assert rows == [rows[0]] + rows[1..];
      forall k
        ensures WithKey(SortRows(rows), k) == WithKey(rows, k)
      {
        InsertStable(rows[0], SortRows(rows[1..]), k);
        assert ([rows[0]] + SortRows(rows[1..]))[1..] == SortRows(rows[1..]);
      }
    }
  }

  lemma {:induction false} WithKeyMember(rows: seq<Row>, k: Row)
    ensures forall r :: r in WithKey(rows, k) <==> r in rows && SameKey(r, k)
  {
    if rows == [] {
    } else {
      WithKeyMember(rows[1..], k);
    }
  }

  /** The stable sort is unique: an ordered sequence with the same rows per key is that sort. */
  lemma {:induction false} SortedUnique(a: seq<Row>, b: seq<Row>)
    requires Sorted(a) && Sorted(b)
    requires forall k :: WithKey(a, k) == WithKey(b, k)
    ensures a == b
  {
    hide RowLe;
    forall r | r in a ensures r in b { WithKeyMember(a, r); WithKeyMember(b, r); assert r in WithKey(a, r); }
    forall r | r in b ensures r in a { WithKeyMember(a, r); WithKeyMember(b, r); assert r in WithKey(b, r); }
    assert (a != [] ==> a[0] in a) && (b != [] ==> b[0] in b);
    if a != [] && b != [] {
      assert a[0] in b && b[0] in a;
      RowLeOrder(a[0], a[0]);
      RowLeOrder(b[0], b[0]);
      assert RowLe(b[0], a[0]) && RowLe(a[0], b[0]);
      RowLeOrder(a[0], b[0]);
      assert SameKey(a[0], b[0]);
      assert WithKey(a, a[0])[0] == a[0] && WithKey(b, a[0])[0] == b[0];
      forall k
        ensures WithKey(a[1..], k) == WithKey(b[1..], k)
      {
        var head := if SameKey(a[0], k) then [a[0]] else [];
        assert WithKey(a, k) == head + WithKey(a[1..], k);
        assert WithKey(b, k) == head + WithKey(b[1..], k);
        assert WithKey(a[1..], k) == WithKey(a, k)[|head|..];
        assert WithKey(b[1..], k) == WithKey(b, k)[|head|..];
      }
      SortedUnique(a[1..], b[1..]);
      assert a == [a[0]] + a[1..] && b == [b[0]] + b[1..];
    }
  }

  lemma SortFixed(rows: seq<Row>)
    requires Sorted(rows)
    ensures SortRows(rows) == rows
  {
    SortRowsStable(rows);
    SortedUnique(SortRows(rows), rows);
  }

  lemma {:induction false} ZerosBag(rows: seq<Row>)
    ensures forall r :: multiset(Zeros(rows))[r] == if r.eid == 0 then multiset(rows)[r] else 0
  {
    if rows == [] {
    } else {
      ZerosBag(rows[..|rows| - 1]);
      assert rows == rows[..|rows| - 1] + [rows[|rows| - 1]];
    }
  }

  /** What a compacted day holds: the first row of every eid, in key order. */
  function Compacted(rows: seq<Row>): seq<Row> {
    SortRows(Dedupe(rows))
  }

  lemma CompactedKeeps(rows: seq<Row>)
    ensures Eids(Compacted(rows)) == Eids(rows)
    ensures Unique(Compacted(rows)) && Sorted(Compacted(rows)) && DayOrder(Compacted(rows))
    ensures forall r :: r in Compacted(rows) ==> r in rows
    ensures multiset(Zeros(Compacted(rows))) == multiset(Zeros(rows))
  {
    hide Dedupe, SortRows, Zeros, DayOrder;
    DedupeKeeps(rows);
    var d, c := Dedupe(rows), SortRows(Dedupe(rows));
    SortRowsStable(d);
    assert Eids(c) == Eids(d);
    UniquePermutation(d, c);
    SameZeros(d, c);
  }

  lemma SameZeros(a: seq<Row>, b: seq<Row>)
    requires multiset(a) == multiset(b)
    ensures multiset(Zeros(a)) == multiset(Zeros(b))
  {
    hide Zeros;
    ZerosBag(a);
    ZerosBag(b);
  }

  lemma UniquePermutation(a: seq<Row>, b: seq<Row>)
    requires Unique(a) && multiset(a) == multiset(b)
    ensures Unique(b)
  {
    forall i, j | 0 <= i < j < |b| && b[i].eid != 0
      ensures b[i].eid != b[j].eid
    {
      assert b[i] in multiset(a) && b[j] in multiset(a);
      var k :| 0 <= k < |a| && a[k] == b[i];
      var l :| 0 <= l < |a| && a[l] == b[j];
      UniqueCount(a, k);
      if b[i] == b[j] { TwoPlaces(b, i, j); }
      assert b[i] != b[j];
    }
  }

  lemma TwoPlaces<T>(s: seq<T>, i: nat, j: nat)
    requires i < j < |s| && s[i] == s[j]
    ensures multiset(s)[s[i]] > 1
  {
    assert s == s[..i] + [s[i]] + s[i + 1..j] + [s[j]] + s[j + 1..];
  }

  lemma UniqueCount(a: seq<Row>, k: nat)
    requires Unique(a) && k < |a| && a[k].eid != 0
    ensures multiset(a)[a[k]] == 1
  {
    assert a == a[..k] + [a[k]] + a[k + 1..];
    assert a[k] !in a[..k] && a[k] !in a[k + 1..];
  }

  /** Compacting a compacted day changes nothing. */
  lemma CompactedFixed(rows: seq<Row>)
    requires Unique(rows) && Sorted(rows)
    ensures Compacted(rows) == rows
  {
    DedupeFixed(rows);
    SortFixed(rows);
  }
}
