/** What Facets counts, from the facet and key indexes and from matching rows. */
module Facets {
  import opened Prelude
  import opened Rows
  import opened Index
  import opened Summaries
  import F = Filter
  import Bags

  /** A facet value, or a data key with its type. */
  datatype Answer = Answer(value: string, kind: string)

  /** The key that asks for the data keys instead of tags. */
  const DATA_KEYS := "data."

  /** What one row of the facet index adds to: a tag key, a value of the asked key, or nothing. */
  function FacetLabel(q: Query, key: string): FacetKey -> Option<Answer> {
    (k: FacetKey) =>
      if !EventAllowed(q, k.event) then None
      else if key == "" && k.key != "#" then Some(Answer(k.key, ""))
      else if k.key == key then Some(Answer(k.value, ""))
      else None
  }

  function KeyLabel(q: Query): DataKey -> Option<Answer> {
    (k: DataKey) => if EventAllowed(q, k.event) then Some(Answer(k.path, k.kind)) else None
  }

  /** The total of the table rows with one answer. */
  ghost function LabelledTotal<K>(table: map<K, nat>, answers: K -> Option<Answer>, v: Answer): nat {
    Bags.Total(Labelled(table, answers, v))
  }

  function Labelled<K>(table: map<K, nat>, answers: K -> Option<Answer>, v: Answer): map<K, nat> {
    map k | k in table && answers(k) == Some(v) :: table[k]
  }

  /** What an index adds to an answer. */
  ghost function IndexCount(q: Query, key: string, index: Index, v: Answer): nat {
    if key == DATA_KEYS then LabelledTotal(index.keys, KeyLabel(q), v) else LabelledTotal(index.facets, FacetLabel(q, key), v)
  }

  /** What one event adds to an answer. */
  ghost function RowCount(q: Query, key: string, row: Row, v: Answer): nat {
    if key == DATA_KEYS then LabelledTotal(Table(RowKeys(row)), KeyLabel(q), v)
    else LabelledTotal(Table(TagFacets(row.event, row.tags)), FacetLabel(q, key), v)
  }

  ghost function RowsCount(q: Query, key: string, rows: seq<Row>, v: Answer): nat {
    if rows == [] then 0 else RowsCount(q, key, rows[..|rows| - 1], v) + RowCount(q, key, rows[|rows| - 1], v)
  }

  lemma LabelledAppend<K>(a: multiset<K>, b: multiset<K>, answers: K -> Option<Answer>, v: Answer)
    ensures LabelledTotal(Table(a + b), answers, v) == LabelledTotal(Table(a), answers, v) + LabelledTotal(Table(b), answers, v)
  {
    Bags.TotalAdd(Labelled(Table(a + b), answers, v), Labelled(Table(a), answers, v), Labelled(Table(b), answers, v));
  }

  lemma LabelledNone<K>(bag: multiset<K>, answers: K -> Option<Answer>, v: Answer)
    requires forall k :: k in bag ==> answers(k) != Some(v)
    ensures LabelledTotal(Table(bag), answers, v) == 0
  {
    assert Labelled(Table(bag), answers, v) == map[];
  }

  /** An index answers with the sum over its rows. */
  lemma {:induction false} IndexCountsRows(q: Query, key: string, rows: seq<Row>, v: Answer)
    ensures IndexCount(q, key, IndexOf(rows), v) == RowsCount(q, key, rows, v)
  {
    hide LabelledTotal, Table, RowKeys, TagFacets, FacetLabel, KeyLabel;
    if rows == [] {
      LabelledNone(multiset{}, KeyLabel(q), v);
      LabelledNone(multiset{}, FacetLabel(q, key), v);
    } else {
      var before, last := rows[..|rows| - 1], rows[|rows| - 1];
      IndexCountsRows(q, key, before, v);
      LabelledAppend(KeyBag(before), RowKeys(last), KeyLabel(q), v);
      LabelledAppend(FacetBag(before), TagFacets(last.event, last.tags), FacetLabel(q, key), v);
    }
  }

  lemma {:induction false} TagEvents(event: string, tags: seq<string>)
    ensures forall k :: k in TagFacets(event, tags) ==> k.event == event
  {
    if tags == [] {
    } else {
      TagEvents(event, tags[..|tags| - 1]);
    }
  }

  /** An event that is not allowed adds nothing. */
  lemma NotAllowed(q: Query, key: string, row: Row, v: Answer)
    requires !EventAllowed(q, row.event)
    ensures RowCount(q, key, row, v) == 0
  {
    hide EventAllowed;
    TagEvents(row.event, row.tags);
    if key == DATA_KEYS {
      LabelledNone(RowKeys(row), KeyLabel(q), v);
    } else {
      LabelledNone(TagFacets(row.event, row.tags), FacetLabel(q, key), v);
    }
  }

  /** Every event of the day that adds to the answer is within the filter's time bounds. */
  ghost predicate Bounded(q: Query, key: string, rows: seq<Row>, v: Answer) {
    forall r :: r in rows && RowCount(q, key, r, v) > 0 ==> F.InRange(F.Range(q.filter, q.now), r.ts)
  }

  lemma BoundedStep(q: Query, key: string, rows: seq<Row>, v: Answer)
    requires rows != []
    ensures Bounded(q, key, rows, v) <==>
      Bounded(q, key, rows[..|rows| - 1], v)
      && (RowCount(q, key, rows[|rows| - 1], v) > 0 ==> F.InRange(F.Range(q.filter, q.now), rows[|rows| - 1].ts))
  {
    hide RowCount;
    assert rows == rows[..|rows| - 1] + [rows[|rows| - 1]];
  }

  lemma MatchingStep(q: Query, key: string, ns: string, rows: seq<Row>, v: Answer)
    requires rows != []
    ensures
      var before, last := rows[..|rows| - 1], rows[|rows| - 1];
      RowsCount(q, key, Matching(q, ns, rows), v) ==
        RowsCount(q, key, Matching(q, ns, before), v) + (if F.Match(q.h, q.filter, last, ns, q.now) then RowCount(q, key, last, v) else 0)
  {
    hide F.Match, RowCount;
    var kept := Matching(q, ns, rows[..|rows| - 1]);
    var last := rows[|rows| - 1];
    assert (kept + [last])[..|kept|] == kept;
    assert kept + [] == kept;
  }

  /**
   For a filter the indexes can answer, the indexes of a day count what its matching rows count,
   exactly when every event adding to the answer is within the filter's bounds; otherwise more.
   */
  lemma {:induction false} FacetsAgreeIff(q: Query, key: string, ns: string, rows: seq<Row>, v: Answer)
    requires IndexOnly(q.filter) && NsAllowed(q, ns)
    ensures RowsCount(q, key, Matching(q, ns, rows), v) <= IndexCount(q, key, IndexOf(rows), v)
    ensures RowsCount(q, key, Matching(q, ns, rows), v) == IndexCount(q, key, IndexOf(rows), v) <==> Bounded(q, key, rows, v)
  {
    IndexCountsRows(q, key, rows, v);
    if rows != [] {
      var before, last := rows[..|rows| - 1], rows[|rows| - 1];
      FacetsAgreeIff(q, key, ns, before, v);
      IndexCountsRows(q, key, before, v);
      MatchingStep(q, key, ns, rows, v);
      BoundedStep(q, key, rows, v);
      TermSplit(q, last, ns);
      if !EventAllowed(q, last.event) { NotAllowed(q, key, last, v); }
      hide RowCount, F.Match, NsAllowed, EventAllowed, IndexOnly, Bounded, IndexCount, IndexOf, Matching, F.InRange;
    } else {
      hide IndexCount, RowCount, F.InRange;
    }
  }

  /** A namespace the filter leaves out has no matching row. */
  lemma {:induction false} NsLeftOut(q: Query, ns: string, rows: seq<Row>)
    requires IndexOnly(q.filter) && !NsAllowed(q, ns)
    ensures Matching(q, ns, rows) == []
  {
    hide NsAllowed, EventAllowed, F.Match, IndexOnly;
    if rows != [] {
      NsLeftOut(q, ns, rows[..|rows| - 1]);
      TermSplit(q, rows[|rows| - 1], ns);
    }
  }

  lemma {:induction false} RowsCountAppend(q: Query, key: string, a: seq<Row>, b: seq<Row>, v: Answer)
    ensures RowsCount(q, key, a + b, v) == RowsCount(q, key, a, v) + RowsCount(q, key, b, v)
  {
    hide RowCount;
    if b == [] {
      assert a + b == a;
    } else {
      assert (a + b)[..|a + b| - 1] == a + b[..|b| - 1];
      RowsCountAppend(q, key, a, b[..|b| - 1], v);
    }
  }

  // ---------------------------------------------------------------- counting facets

  /** What the served indexes answer for one value. */
  ghost function StoredCount(q: Query, key: string, served: map<Slot, Index>, v: Answer): nat {
    Bags.Total(StoredCounts(q, key, served, v))
  }

  ghost function StoredCounts(q: Query, key: string, served: map<Slot, Index>, v: Answer): map<Slot, nat> {
    map s | s in served && InScope(q, s) :: IndexCount(q, key, served[s], v)
  }

  /** What the matching raw rows answer for one value. */
  ghost function ScanCount(q: Query, key: string, raw: map<Slot, seq<Row>>, v: Answer): nat {
    Bags.Total(ScanCounts(q, key, raw, v))
  }

  ghost function ScanCounts(q: Query, key: string, raw: map<Slot, seq<Row>>, v: Answer): map<Slot, nat> {
    map s | s in raw && DayInRange(q, s.date) :: RowsCount(q, key, Matching(q, s.ns, raw[s]), v)
  }

  function CountAt(counts: map<Answer, nat>, v: Answer): nat {
    if v in counts then counts[v] else 0
  }

  /**
   The indexes answer a facet as a scan would, exactly when every event adding to it on an
   allowed day in range is within the filter's bounds; otherwise they answer more.
   */
  lemma FacetAnswersAgreeIff(q: Query, key: string, raw: map<Slot, seq<Row>>, v: Answer)
    requires IndexOnly(q.filter)
    ensures ScanCount(q, key, raw, v) <= StoredCount(q, key, Indexed(raw), v)
    ensures ScanCount(q, key, raw, v) == StoredCount(q, key, Indexed(raw), v) <==>
      forall s :: s in raw && InScope(q, s) ==> Bounded(q, key, raw[s], v)
  {
    var scanned, stored := ScanCounts(q, key, raw, v), StoredCounts(q, key, Indexed(raw), v);
    forall s: Slot | s in raw && DayInRange(q, s.date)
      ensures InScope(q, s) ==> scanned[s] <= stored[s] && (scanned[s] == stored[s] <==> Bounded(q, key, raw[s], v))
      ensures !InScope(q, s) ==> scanned[s] == 0
    {
      hide DayInRange, NsAllowed, Bounded, IndexOnly, IndexOf, IndexCount, RowCount, Matching;
      if NsAllowed(q, s.ns) {
        FacetsAgreeIff(q, key, s.ns, raw[s], v);
      } else {
        NsLeftOut(q, s.ns, raw[s]);
      }
    }
    hide DayInRange, NsAllowed, Bounded, IndexOnly, IndexCount, RowsCount, Matching, IndexOf;
    ScopeTotals(scanned, stored);
    assert forall s :: s in stored <==> s in raw && InScope(q, s);
  }

  /** Days of which only some are in scope, the others counting nothing. */
  lemma ScopeTotals(scanned: map<Slot, nat>, stored: map<Slot, nat>)
    requires stored.Keys <= scanned.Keys
    requires forall s :: s in stored ==> scanned[s] <= stored[s]
    requires forall s :: s in scanned && s !in stored ==> scanned[s] == 0
    ensures Bags.Total(scanned) <= Bags.Total(stored)
    ensures Bags.Total(scanned) == Bags.Total(stored) <==> forall s :: s in stored ==> scanned[s] == stored[s]
  {
    var kept := Bags.Restrict(scanned, stored.Keys);
    Bags.TotalSplit(scanned, stored.Keys);
    Bags.TotalZero(scanned - stored.Keys);
    Bags.TotalLe(kept, stored);
    if forall s :: s in stored ==> scanned[s] == stored[s] {
      assert kept == stored;
    }
  }

  // ---------------------------------------------------------------- collecting facets

  lemma LabelledPut<K>(table: map<K, nat>, answers: K -> Option<Answer>, e: K, n: nat, v: Answer)
    requires e !in table
    ensures LabelledTotal(table[e := n], answers, v) == LabelledTotal(table, answers, v) + (if answers(e) == Some(v) then n else 0)
  {
    if answers(e) == Some(v) {
      Bags.TotalPut(Labelled(table, answers, v), e, n);
      assert Labelled(table[e := n], answers, v) == Labelled(table, answers, v)[e := n];
    } else {
      assert Labelled(table[e := n], answers, v) == Labelled(table, answers, v);
    }
  }

  lemma LabelledEmpty<K>(answers: K -> Option<Answer>, v: Answer)
    ensures LabelledTotal(map[], answers, v) == 0
  {
    assert Labelled(map[], answers, v) == map[];
  }

  /** Every entry counts something. */
  predicate NoZero<K(!new)>(counts: map<K, nat>) {
    forall k :: k in counts ==> counts[k] > 0
  }

  /** No row of an index stands for nothing. */
  predicate Counting(index: Index) {
    NoZero(index.facets) && NoZero(index.keys)
  }

  lemma BuiltCounts(rows: seq<Row>)
    ensures Counting(IndexOf(rows))
  {
  }

  /** Adds every row of an index table to the answer it belongs to. */
  method CollectTable<K(!new)>(counts: map<Answer, nat>, table: map<K, nat>, answers: K -> Option<Answer>) returns (r: map<Answer, nat>)
    ensures forall v :: CountAt(r, v) == CountAt(counts, v) + LabelledTotal(table, answers, v)
    ensures NoZero(counts) && NoZero(table) ==> NoZero(r)
  {
    hide LabelledTotal;
    r := counts;
    var rest := table.Keys;
    ghost var done: map<K, nat> := map[];
    forall v ensures LabelledTotal(done, answers, v) == 0 { LabelledEmpty(answers, v); }
    while rest != {}
      invariant rest <= table.Keys && done == table - rest
      invariant forall v :: CountAt(r, v) == CountAt(counts, v) + LabelledTotal(done, answers, v)
      invariant NoZero(counts) && NoZero(table) ==> NoZero(r)
      decreases |rest|
    {
      var e :| e in rest;
      forall v
        ensures LabelledTotal(done[e := table[e]], answers, v) == LabelledTotal(done, answers, v) + (if answers(e) == Some(v) then table[e] else 0)
      {
        LabelledPut(done, answers, e, table[e], v);
      }
      if answers(e).Some? {
        var a := answers(e).value;
        r := r[a := CountAt(r, a) + table[e]];
      }
      done := done[e := table[e]];
      rest := rest - {e};
    }
    assert done == table;
  }

  method Collect(counts: map<Answer, nat>, q: Query, key: string, index: Index) returns (r: map<Answer, nat>)
    ensures forall v :: CountAt(r, v) == CountAt(counts, v) + IndexCount(q, key, index, v)
    ensures NoZero(counts) && Counting(index) ==> NoZero(r)
  {
    hide LabelledTotal, FacetLabel, KeyLabel, CountAt, NoZero;
    if key == DATA_KEYS {
      r := CollectTable(counts, index.keys, KeyLabel(q));
    } else {
      r := CollectTable(counts, index.facets, FacetLabel(q, key));
    }
  }

  lemma NothingStored(q: Query, key: string)
    ensures forall v :: CountAt(map[], v) == StoredCount(q, key, map[], v)
  {
    forall v ensures StoredCounts(q, key, map[], v) == map[] { }
  }

  lemma StoredPut(q: Query, key: string, done: map<Slot, Index>, s: Slot, index: Index)
    requires s !in done
    ensures forall v :: StoredCount(q, key, done[s := index], v) == StoredCount(q, key, done, v) + (if InScope(q, s) then IndexCount(q, key, index, v) else 0)
  {
    hide InScope, IndexCount;
    forall v
      ensures StoredCount(q, key, done[s := index], v) == StoredCount(q, key, done, v) + (if InScope(q, s) then IndexCount(q, key, index, v) else 0)
    {
      var was, now := StoredCounts(q, key, done, v), StoredCounts(q, key, done[s := index], v);
      if InScope(q, s) {
        Bags.TotalPut(was, s, IndexCount(q, key, index, v));
        assert now == was[s := IndexCount(q, key, index, v)];
      } else {
        assert now == was;
      }
    }
  }

  lemma ScanPut(q: Query, key: string, done: map<Slot, seq<Row>>, s: Slot, rows: seq<Row>)
    requires s !in done
    ensures forall v ::
      ScanCount(q, key, done[s := rows], v) ==
      ScanCount(q, key, done, v) + (if DayInRange(q, s.date) then RowsCount(q, key, Matching(q, s.ns, rows), v) else 0)
  {
    hide DayInRange, RowsCount, Matching;
    forall v
      ensures ScanCount(q, key, done[s := rows], v) ==
        ScanCount(q, key, done, v) + (if DayInRange(q, s.date) then RowsCount(q, key, Matching(q, s.ns, rows), v) else 0)
    {
      var was, now := ScanCounts(q, key, done, v), ScanCounts(q, key, done[s := rows], v);
      if DayInRange(q, s.date) {
        var n := RowsCount(q, key, Matching(q, s.ns, rows), v);
        Bags.TotalPut(was, s, n);
        assert now == was[s := n];
      } else {
        assert now == was;
      }
    }
  }

  /** What the rows gathered by namespace answer. */
  ghost function NsCount(q: Query, key: string, byNs: map<string, seq<Row>>, v: Answer): nat {
    Bags.Total(NsCounts(q, key, byNs, v))
  }

  ghost function NsCounts(q: Query, key: string, byNs: map<string, seq<Row>>, v: Answer): map<string, nat> {
    map ns | ns in byNs :: RowsCount(q, key, byNs[ns], v)
  }

  /** Appends a day's matching rows to their namespace. */
  function GatherNs(byNs: map<string, seq<Row>>, ns: string, matched: seq<Row>): map<string, seq<Row>> {
    if matched == [] then byNs else byNs[ns := (if ns in byNs then byNs[ns] else []) + matched]
  }

  lemma NothingGathered(q: Query, key: string)
    ensures forall v :: NsCount(q, key, map[], v) == 0 == ScanCount(q, key, map[], v)
  {
    forall v ensures NsCounts(q, key, map[], v) == map[] && ScanCounts(q, key, map[], v) == map[] { }
  }

  lemma NsCountsPut(q: Query, key: string, byNs: map<string, seq<Row>>, ns: string, rows: seq<Row>, v: Answer)
    ensures NsCounts(q, key, byNs[ns := rows], v) == NsCounts(q, key, byNs, v)[ns := RowsCount(q, key, rows, v)]
  {
    hide RowsCount;
  }

  lemma NoRows(q: Query, key: string, v: Answer)
    ensures RowsCount(q, key, [], v) == 0
  {
  }

  lemma GatherOne(q: Query, key: string, byNs: map<string, seq<Row>>, ns: string, matched: seq<Row>, v: Answer)
    ensures NsCount(q, key, GatherNs(byNs, ns, matched), v) == NsCount(q, key, byNs, v) + RowsCount(q, key, matched, v)
  {
    hide RowsCount, NsCounts;
    var before := if ns in byNs then byNs[ns] else [];
    RowsCountAppend(q, key, before, matched, v);
    NoRows(q, key, v);
    NsCountsPut(q, key, byNs, ns, before + matched, v);
    Bags.TotalPut(NsCounts(q, key, byNs, v), ns, RowsCount(q, key, before + matched, v));
    NsCountAt(q, key, byNs, ns, v);
  }

  lemma NsCountAt(q: Query, key: string, byNs: map<string, seq<Row>>, ns: string, v: Answer)
    ensures
      var counts := NsCounts(q, key, byNs, v);
      (ns in counts <==> ns in byNs) && (ns in byNs ==> counts[ns] == RowsCount(q, key, byNs[ns], v))
  {
    hide RowsCount;
  }

  lemma GatherPut(q: Query, key: string, byNs: map<string, seq<Row>>, ns: string, matched: seq<Row>)
    ensures forall v :: NsCount(q, key, GatherNs(byNs, ns, matched), v) == NsCount(q, key, byNs, v) + RowsCount(q, key, matched, v)
  {
    forall v
      ensures NsCount(q, key, GatherNs(byNs, ns, matched), v) == NsCount(q, key, byNs, v) + RowsCount(q, key, matched, v)
    {
      GatherOne(q, key, byNs, ns, matched, v);
    }
  }

  /** One index for each namespace's matching rows. */
  method CountGathered(q: Query, key: string, byNs: map<string, seq<Row>>) returns (counts: map<Answer, nat>)
    ensures forall v :: CountAt(counts, v) == NsCount(q, key, byNs, v)
    ensures NoZero(counts)
  {
    hide IndexOf, IndexCount, RowsCount, NsCount, CountAt, Counting;
    counts := map[];
    var rest := byNs.Keys;
    ghost var done: map<string, seq<Row>> := map[];
    NothingGathered(q, key);
    assert forall v :: CountAt(map[], v) == 0 by { EmptyCounts(); }
    while rest != {}
      invariant rest <= byNs.Keys && done == byNs - rest
      invariant forall v :: CountAt(counts, v) == NsCount(q, key, done, v)
      invariant NoZero(counts)
      decreases |rest|
    {
      var ns :| ns in rest;
      var index := BuildIndex(byNs[ns]);
      BuiltCounts(byNs[ns]);
      forall v
        ensures NsCount(q, key, done[ns := byNs[ns]], v) == NsCount(q, key, done, v) + IndexCount(q, key, index, v)
      {
        IndexCountsRows(q, key, byNs[ns], v);
        NsPut(q, key, done, ns, byNs[ns], v);
      }
      counts := Collect(counts, q, key, index);
      done := done[ns := byNs[ns]];
      rest := rest - {ns};
    }
    assert done == byNs;
  }

  lemma EmptyCounts()
    ensures forall v :: CountAt(map[], v) == 0
  {
  }

  lemma NsPut(q: Query, key: string, done: map<string, seq<Row>>, ns: string, rows: seq<Row>, v: Answer)
    requires ns !in done
    ensures NsCount(q, key, done[ns := rows], v) == NsCount(q, key, done, v) + RowsCount(q, key, rows, v)
  {
    hide RowsCount;
    Bags.TotalPut(NsCounts(q, key, done, v), ns, RowsCount(q, key, rows, v));
    assert NsCounts(q, key, done[ns := rows], v) == NsCounts(q, key, done, v)[ns := RowsCount(q, key, rows, v)];
  }
}
