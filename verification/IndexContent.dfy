/** What an index tells of the rows it was built from: when two sets of files have the same index. */
module IndexContent {
  import opened Prelude
  import opened Rows
  import opened Index
  import opened Partition
  import Bags

  // ---------------------------------------------------------------- order does not matter

  lemma NoneBag<T>(s: seq<T>)
    ensures multiset(s) == multiset{} <==> s == []
    ensures s == [] <==> forall r :: r !in s
  {
    if s != [] {
      assert s[0] in s;
      assert s[0] in multiset(s);
    }
  }

  ghost predicate Permutes<T>(a: seq<T>, b: seq<T>) {
    multiset(a) == multiset(b)
  }

  lemma PermutesNothing<T>(b: seq<T>)
    requires Permutes([], b)
    ensures b == []
  {
    NoneBag(b);
  }

  /** The last element of one sequence, taken out of another with the same elements. */
  lemma TakeOut<T>(a: seq<T>, b: seq<T>) returns (k: nat)
    requires Permutes(a, b) && a != []
    ensures k < |b| && b[k] == a[|a| - 1] && b == b[..k] + ([b[k]] + b[k + 1..])
    ensures Permutes(a[..|a| - 1], b[..k] + b[k + 1..])
  {
    var x := a[|a| - 1];
    assert a == a[..|a| - 1] + [x];
    assert x in multiset(b);
    k :| 0 <= k < |b| && b[k] == x;
    assert b == b[..k] + ([x] + b[k + 1..]);
    BagsWithout(multiset(a[..|a| - 1]), multiset(b[..k]), multiset(b[k + 1..]), x);
  }

  lemma BagsWithout<T>(a: multiset<T>, b: multiset<T>, c: multiset<T>, x: T)
    requires a + multiset{x} == b + (multiset{x} + c)
    ensures a == b + c
  {
    assert a == a + multiset{x} - multiset{x};
    assert b + c == b + (multiset{x} + c) - multiset{x};
  }

  lemma {:induction false} FiguresPermute(a: seq<Row>, b: seq<Row>, e: string)
    requires Permutes(a, b)
    ensures CountOf(a, e) == CountOf(b, e) && SumOf(a, e) == SumOf(b, e)
    decreases |a|
  {
    if a == [] {
      PermutesNothing(b);
    } else {
      hide Permutes, CountOf, SumOf;
      var k := TakeOut(a, b);
      var before := a[..|a| - 1];
      FiguresPermute(before, b[..k] + b[k + 1..], e);
      MovedFigures(b[..k], b[k], b[k + 1..], e);
      CountAppend(before, [b[k]], e);
      assert before + [b[k]] == a;
    }
  }

  lemma {:induction false} BagsPermute(a: seq<Row>, b: seq<Row>)
    requires Permutes(a, b)
    ensures FacetBag(a) == FacetBag(b) && KeyBag(a) == KeyBag(b)
    decreases |a|
  {
    if a == [] {
      PermutesNothing(b);
    } else {
      hide Permutes, FacetBag, KeyBag;
      var k := TakeOut(a, b);
      var before := a[..|a| - 1];
      BagsPermute(before, b[..k] + b[k + 1..]);
      assert before + [b[k]] == a;
      MovedBags(b[..k], b[k], b[k + 1..]);
      BagAppend(before, [b[k]]);
    }
  }

  lemma MovedFigures(before: seq<Row>, x: Row, after: seq<Row>, e: string)
    ensures CountOf(before + ([x] + after), e) == CountOf(before + after, e) + CountOf([x], e)
    ensures SumOf(before + ([x] + after), e) == SumOf(before + after, e) + SumOf([x], e)
  {
    hide CountOf, SumOf;
    CountAppend(before, [x] + after, e);
    CountAppend([x], after, e);
    CountAppend(before, after, e);
  }

  lemma MovedBags(before: seq<Row>, x: Row, after: seq<Row>)
    ensures FacetBag(before + ([x] + after)) == FacetBag(before + after) + FacetBag([x])
    ensures KeyBag(before + ([x] + after)) == KeyBag(before + after) + KeyBag([x])
  {
    hide FacetBag, KeyBag;
    BagAppend(before, [x] + after);
    BagAppend([x], after);
    BagAppend(before, after);
  }

  /** An index does not depend on the order of its rows. */
  lemma IndexPermutes(a: seq<Row>, b: seq<Row>)
    requires Permutes(a, b)
    ensures IndexOf(a) == IndexOf(b)
  {
    BagsPermute(a, b);
    SameMembers(a, b);
    assert EventsOf(a) == EventsOf(b);
    forall e
      ensures UsersOf(a, e) == UsersOf(b, e) && AnonsOf(a, e) == AnonsOf(b, e)
      ensures CountOf(a, e) == CountOf(b, e) && SumOf(a, e) == SumOf(b, e)
    {
      FiguresPermute(a, b, e);
    }
    hide CountOf, SumOf, UsersOf, AnonsOf, EventsOf, FacetBag, KeyBag;
    assert DailyOf(a) == DailyOf(b);
  }

  lemma SameMembers(a: seq<Row>, b: seq<Row>)
    requires Permutes(a, b)
    ensures forall r :: r in a <==> r in b
  {
    assert forall r :: r in a <==> r in multiset(a);
    assert forall r :: r in b <==> r in multiset(b);
  }

  // ---------------------------------------------------------------- what an index does not look at

  /** The row without the columns no index reads. */
  function Strip(r: Row): Row {
    r.(ts := 0, msg := "", tenantID := "", requestID := "", country := "")
  }

  function StripAll(rows: seq<Row>): seq<Row> {
    if rows == [] then [] else StripAll(rows[..|rows| - 1]) + [Strip(rows[|rows| - 1])]
  }

  lemma {:induction false} StripMembers(rows: seq<Row>)
    ensures |StripAll(rows)| == |rows| && forall i :: 0 <= i < |rows| ==> StripAll(rows)[i] == Strip(rows[i])
    ensures forall r :: r in StripAll(rows) <==> exists x :: x in rows && Strip(x) == r
  {
    if rows == [] {
    } else {
      StripMembers(rows[..|rows| - 1]);
      assert rows == rows[..|rows| - 1] + [rows[|rows| - 1]];
    }
  }

  lemma {:induction false} StripFigures(rows: seq<Row>)
    ensures forall e :: CountOf(StripAll(rows), e) == CountOf(rows, e) && SumOf(StripAll(rows), e) == SumOf(rows, e)
    ensures FacetBag(StripAll(rows)) == FacetBag(rows) && KeyBag(StripAll(rows)) == KeyBag(rows)
  {
    hide TagFacets;
    if rows == [] {
    } else {
      var before, last := rows[..|rows| - 1], rows[|rows| - 1];
      StripFigures(before);
      assert (StripAll(before) + [Strip(last)])[..|StripAll(before)|] == StripAll(before);
    }
  }

  lemma StripPeople(rows: seq<Row>, e: string)
    ensures UsersOf(StripAll(rows), e) == UsersOf(rows, e) && AnonsOf(StripAll(rows), e) == AnonsOf(rows, e)
    ensures e in EventsOf(StripAll(rows)) <==> e in EventsOf(rows)
  {
    StripMembers(rows);
    hide StripAll;
    forall r | r in rows
      ensures Strip(r) in StripAll(rows) && Strip(r).event == r.event && Strip(r).userID == r.userID && Strip(r).anonID == r.anonID
    {
    }
  }

  lemma IndexOfStripped(rows: seq<Row>)
    ensures IndexOf(StripAll(rows)) == IndexOf(rows)
  {
    StripFigures(rows);
    forall e
      ensures UsersOf(StripAll(rows), e) == UsersOf(rows, e) && AnonsOf(StripAll(rows), e) == AnonsOf(rows, e)
      ensures e in EventsOf(StripAll(rows)) <==> e in EventsOf(rows)
    {
      StripPeople(rows, e);
    }
    hide CountOf, SumOf, UsersOf, AnonsOf, EventsOf, FacetBag, KeyBag, StripAll;
    assert DailyOf(StripAll(rows)) == DailyOf(rows);
  }

  // ---------------------------------------------------------------- an index counts its rows

  function DailyCounts(daily: map<string, Daily>): map<string, nat> {
    map e | e in daily :: daily[e].count
  }

  lemma CountOne(rows: seq<Row>, row: Row, e: string)
    ensures CountOf(rows + [row], e) == CountOf(rows, e) + (if e == row.event then 1 else 0)
    ensures e !in EventsOf(rows) ==> CountOf(rows, e) == 0
  {
    assert (rows + [row])[..|rows|] == rows;
    if e !in EventsOf(rows) { AbsentEvent(rows, e); }
  }

  lemma DailyCountsStep(rows: seq<Row>, row: Row)
    ensures
      var was, now := DailyCounts(DailyOf(rows)), DailyCounts(DailyOf(rows + [row]));
      now == was[row.event := (if row.event in was then was[row.event] else 0) + 1]
  {
    EventsStep(rows, row);
    hide EventsOf, CountOf, SumOf, UsersOf, AnonsOf;
    var was, now := DailyCounts(DailyOf(rows)), DailyCounts(DailyOf(rows + [row]));
    var next := was[row.event := (if row.event in was then was[row.event] else 0) + 1];
    forall e: string
      ensures (e in now <==> e in next) && (e in now ==> now[e] == next[e])
    {
      CountOne(rows, row, e);
    }
  }

  lemma NothingCounted()
    ensures DailyCounts(DailyOf([])) == map[]
  {
  }

  /** The counts of the daily index add up to the number of its rows. */
  lemma {:induction false} RowsAreCounted(rows: seq<Row>)
    ensures Bags.Total(DailyCounts(DailyOf(rows))) == |rows|
  {
    hide DailyOf, DailyCounts;
    if rows == [] {
      NothingCounted();
    } else {
      var before, last := rows[..|rows| - 1], rows[|rows| - 1];
      assert rows == before + [last];
      RowsAreCounted(before);
      DailyCountsStep(before, last);
      var was := DailyCounts(DailyOf(before));
      Bags.TotalPut(was, last.event, (if last.event in was then was[last.event] else 0) + 1);
    }
  }

  // ---------------------------------------------------------------- one file against the whole day

  /** Rows with the same nonzero eid differ at most in columns no index reads. */
  ghost predicate Alike(rows: seq<Row>) {
    forall a, b :: a in rows && b in rows && a.eid == b.eid && a.eid != 0 ==>
      && a.event == b.event && a.tags == b.tags && a.userID == b.userID && a.anonID == b.anonID
      && a.value == b.value && a.data == b.data
  }

  lemma AlikeStrip(rows: seq<Row>)
    requires Alike(rows)
    ensures forall a, b :: a in rows && b in rows && a.eid == b.eid && a.eid != 0 ==> Strip(a) == Strip(b)
  {
  }

  /** Two places of deduplicated rows with an eid differ also when stripped. */
  lemma StripApart(rows: seq<Row>, i: nat, j: nat)
    requires Unique(rows) && i < |rows| && j < |rows| && i != j && rows[i].eid != 0
    ensures Strip(rows[i]) != Strip(rows[j])
  {
    var first, second := if i < j then i else j, if i < j then j else i;
    assert rows[first].eid != 0 ==> rows[first].eid != rows[second].eid;
  }

  lemma OnceBag<T>(all: seq<T>, i: nat)
    requires i < |all| && forall j :: 0 <= j < |all| && j != i ==> all[j] != all[i]
    ensures multiset(all)[all[i]] == 1
  {
    var x := all[i];
    assert all == all[..i] + [x] + all[i + 1..];
    assert x !in all[..i] && x !in all[i + 1..];
  }

  lemma StripCount(rows: seq<Row>, r: Row)
    requires Unique(rows) && r.eid != 0
    ensures multiset(StripAll(rows))[r] == if exists x :: x in rows && Strip(x) == r then 1 else 0
  {
    StripMembers(rows);
    hide Unique, StripAll;
    var all := StripAll(rows);
    if r in all {
      var i :| 0 <= i < |all| && all[i] == r;
      assert rows[i] in rows;
      forall j | 0 <= j < |all| && j != i
        ensures all[j] != all[i]
      {
        StripApart(rows, i, j);
      }
      OnceBag(all, i);
    }
  }

  lemma {:induction false} StripZeros(rows: seq<Row>, r: Row)
    requires r.eid == 0
    ensures multiset(StripAll(rows))[r] == multiset(StripAll(Zeros(rows)))[r]
  {
    if rows == [] {
    } else {
      var before, last := rows[..|rows| - 1], rows[|rows| - 1];
      StripZeros(before, r);
      var z := Zeros(before);
      assert last.eid == 0 ==> (z + [last])[..|z|] == z;
      assert z + [] == z;
    }
  }

  lemma {:induction false} StripBag(a: seq<Row>, b: seq<Row>)
    requires Permutes(a, b)
    ensures multiset(StripAll(a)) == multiset(StripAll(b))
    decreases |a|
  {
    if a == [] {
      PermutesNothing(b);
    } else {
      hide Permutes, StripAll;
      var k := TakeOut(a, b);
      var before := a[..|a| - 1];
      StripBag(before, b[..k] + b[k + 1..]);
      StripMoved(b[..k], b[k], b[k + 1..]);
      StripAppend(before, [b[k]]);
      assert before + [b[k]] == a;
    }
  }

  lemma StripMoved(before: seq<Row>, x: Row, after: seq<Row>)
    ensures multiset(StripAll(before + ([x] + after))) == multiset(StripAll(before + after)) + multiset(StripAll([x]))
  {
    hide StripAll;
    StripAppend(before, [x] + after);
    StripAppend([x], after);
    StripAppend(before, after);
  }

  lemma {:induction false} StripAppend(a: seq<Row>, b: seq<Row>)
    ensures StripAll(a + b) == StripAll(a) + StripAll(b)
  {
    if b == [] {
      assert a + b == a;
    } else {
      assert (a + b)[..|a + b| - 1] == a + b[..|b| - 1];
      StripAppend(a, b[..|b| - 1]);
    }
  }

  /** Same eids, same zero-eid rows and alike: the same index. */
  lemma SameContent(a: seq<Row>, b: seq<Row>)
    requires Unique(a) && Unique(b) && Eids(a) == Eids(b)
    requires multiset(Zeros(a)) == multiset(Zeros(b))
    requires forall x, y :: x in a && y in b && x.eid == y.eid && x.eid != 0 ==> Strip(x) == Strip(y)
    ensures IndexOf(a) == IndexOf(b)
  {
    hide IndexOf, StripAll, Zeros, Unique;
    forall r: Row
      ensures multiset(StripAll(a))[r] == multiset(StripAll(b))[r]
    {
      if r.eid == 0 {
        StripZeros(a, r);
        StripZeros(b, r);
        StripBag(Zeros(a), Zeros(b));
      } else {
        StripCount(a, r);
        StripCount(b, r);
        SameStripped(a, b, r);
        SameStripped(b, a, r);
      }
    }
    IndexPermutes(StripAll(a), StripAll(b));
    IndexOfStripped(a);
    IndexOfStripped(b);
  }

  lemma SameStripped(a: seq<Row>, b: seq<Row>, r: Row)
    requires Eids(a) == Eids(b) && r.eid != 0
    requires forall x, y :: x in a && y in b && x.eid == y.eid && x.eid != 0 ==> Strip(x) == Strip(y)
    ensures (exists x :: x in a && Strip(x) == r) ==> exists y :: y in b && Strip(y) == r
  {
    if exists x :: x in a && Strip(x) == r {
      var x :| x in a && Strip(x) == r;
      assert x.eid in Eids(a);
      var y :| y in b && y.eid == x.eid;
      assert Strip(y) == r;
    }
  }

  // ---------------------------------------------------------------- a day file among other files

  /** The rows of which nothing is in a file with these eids. */
  function NewTo(rows: seq<Row>, own: set<nat>): seq<Row> {
    if rows == [] then []
    else
      var last := rows[|rows| - 1];
      NewTo(rows[..|rows| - 1], own) + (if last.eid == 0 || last.eid !in own then [last] else [])
  }

  /** What the other files of a day add to one of its files. */
  function Added(files: Files, order: seq<Name>, n: Name): seq<Row>
    requires n in files
  {
    NewTo(Dedupe(ReadAll(files - {n}, order)), Eids(files[n]))
  }

  lemma {:induction false} NewToHolds(rows: seq<Row>, own: set<nat>)
    requires Unique(rows)
    ensures Unique(NewTo(rows, own)) && Zeros(NewTo(rows, own)) == Zeros(rows)
    ensures forall r :: r in NewTo(rows, own) <==> r in rows && (r.eid == 0 || r.eid !in own)
  {
    if rows == [] {
    } else {
      var before, last := rows[..|rows| - 1], rows[|rows| - 1];
      assert rows == before + [last];
      NewToHolds(before, own);
      var kept := NewTo(before, own);
      assert (kept + [last])[..|kept|] == kept;
      assert kept + [] == kept && Zeros(before) + [] == Zeros(before);
      if last.eid != 0 && last.eid !in own {
        assert forall r :: r in kept ==> r.eid != last.eid || r.eid == 0;
      }
    }
  }

  lemma UniqueJoin(a: seq<Row>, b: seq<Row>)
    requires Unique(a) && Unique(b) && Eids(a) !! Eids(b)
    ensures Unique(a + b)
  {
    forall i, j | 0 <= i < j < |a + b| && (a + b)[i].eid != 0
      ensures (a + b)[i].eid != (a + b)[j].eid
    {
      if i < |a| <= j {
        assert a[i].eid in Eids(a);
        assert b[j - |a|].eid != 0 ==> b[j - |a|].eid in Eids(b);
      }
    }
  }

  lemma Listed(files: Files, order: seq<Name>, n: Name)
    requires IsListing(order, files) && n in files
    ensures Distinct(order) && Only(files, Names(order)) == files && Only(files - {n}, Names(order)) == files - {n}
    ensures (files - {n})[n := files[n]] == files
  {
  }

  /** The eids and zero-eid rows of the other files. */
  lemma OthersHold(files: Files, order: seq<Name>, n: Name)
    requires IsListing(order, files) && n in files
    ensures Eids(ReadAll(files, order)) == Eids(files[n]) + Eids(ReadAll(files - {n}, order))
    ensures ZeroBag(ReadAll(files, order)) == ZeroBag(files[n]) + ZeroBag(ReadAll(files - {n}, order))
  {
    Listed(files, order, n);
    hide IsListing, Distinct, Only, Names, Bag, FileEids, ZeroBag, Eids, ReadAll;
    ReadAllEids(files, order);
    ReadAllEids(files - {n}, order);
    FileEidsPut(files - {n}, n, files[n]);
    ReadAllBag(files, order);
    ReadAllBag(files - {n}, order);
    BagPut(files - {n}, n, files[n]);
  }

  lemma AddedHolds(files: Files, order: seq<Name>, n: Name)
    requires IsListing(order, files) && n in files && Unique(files[n])
    ensures
      var whole, parts := Dedupe(ReadAll(files, order)), files[n] + Added(files, order, n);
      && Unique(whole) && Unique(parts) && Eids(whole) == Eids(parts)
      && multiset(Zeros(whole)) == multiset(Zeros(parts))
      && (forall r :: r in whole || r in parts ==> r in ReadAll(files, order))
  {
    hide Dedupe, Zeros, NewTo;
    var own, others := files[n], ReadAll(files - {n}, order);
    var more := NewTo(Dedupe(others), Eids(own));
    DedupeKeeps(ReadAll(files, order));
    DedupeKeeps(others);
    NewToHolds(Dedupe(others), Eids(own));
    OthersHold(files, order, n);
    NewEids(Dedupe(others), more, Eids(own));
    UniqueJoin(own, more);
    EidsAppend(own, more);
    ZerosAppend(own, more);
    forall r | r in own + more
      ensures r in ReadAll(files, order)
    {
      ReadAllRows(files, order, r);
      ReadAllRows(files - {n}, order, r);
    }
  }

  lemma NewEids(rows: seq<Row>, more: seq<Row>, own: set<nat>)
    requires forall r :: r in more <==> r in rows && (r.eid == 0 || r.eid !in own)
    ensures Eids(more) == Eids(rows) - own
  {
  }

  /** A day is indexed like one of its files and what the others add. */
  lemma IndexSplits(files: Files, order: seq<Name>, n: Name)
    requires IsListing(order, files) && n in files && Unique(files[n]) && Alike(ReadAll(files, order))
    ensures IndexOf(Dedupe(ReadAll(files, order))) == IndexOf(files[n] + Added(files, order, n))
  {
    hide Dedupe, Zeros, Added, IndexOf, Unique;
    AddedHolds(files, order, n);
    SameContent(Dedupe(ReadAll(files, order)), files[n] + Added(files, order, n));
  }

  lemma TableInjective<K>(a: multiset<K>, b: multiset<K>)
    requires Table(a) == Table(b)
    ensures a == b
  {
    forall k
      ensures a[k] == b[k]
    {
      assert k in a <==> k in Table(a);
      assert k in b <==> k in Table(b);
      if k in a { assert Table(a)[k] == a[k] && Table(b)[k] == b[k]; }
    }
  }

  lemma AddedBag<K>(a: multiset<K>, b: multiset<K>)
    ensures Table(a + b) == Table(a) <==> b == multiset{}
  {
    if Table(a + b) == Table(a) {
      TableInjective(a + b, a);
      assert b == (a + b) - a;
    } else {
      assert b == multiset{} ==> a + b == a;
    }
  }

  lemma {:induction false} NoTags(rows: seq<Row>)
    ensures FacetBag(rows) == multiset{} <==> forall r :: r in rows ==> r.tags == []
    ensures KeyBag(rows) == multiset{} <==> forall r :: r in rows ==> r.data.None? || r.data.value == map[]
  {
    if rows == [] {
    } else {
      var before, last := rows[..|rows| - 1], rows[|rows| - 1];
      assert rows == before + [last];
      NoTags(before);
      RowTags(last.event, last.tags);
      if last.data.Some? { RowKeyless(last.event, last.data.value); }
      hide TagFacets, DataKeys;
      NoneOfTwo(FacetBag(before), TagFacets(last.event, last.tags));
      NoneOfTwo(KeyBag(before), RowKeys(last));
      if last.data.Some? { NoneOfSet(DataKeys(last.event, last.data.value)); }
    }
  }

  lemma NoneOfTwo<K>(a: multiset<K>, b: multiset<K>)
    ensures a + b == multiset{} <==> a == multiset{} && b == multiset{}
  {
    if a + b == multiset{} {
      assert forall k :: a[k] <= (a + b)[k] && b[k] <= (a + b)[k];
    }
  }

  lemma NoneOfSet<K>(s: set<K>)
    ensures multiset(s) == multiset{} <==> s == {}
  {
    assert forall k :: k in multiset(s) <==> k in s;
  }

  lemma RowTags(event: string, tags: seq<string>)
    ensures TagFacets(event, tags) == multiset{} <==> tags == []
  {
    if tags != [] {
      assert FacetOf(event, tags[|tags| - 1]) in TagFacets(event, tags);
    }
  }

  lemma RowKeyless(event: string, data: map<string, Json>)
    ensures DataKeys(event, data) == {} <==> data == map[]
  {
    if data != map[] {
      var path :| path in data;
      assert DataKey(event, path, KindOf(data[path])) in DataKeys(event, data);
    }
  }

  /** What rows added to a file show in its three indexes. */
  lemma AddedShows(own: seq<Row>, more: seq<Row>)
    ensures IndexOf(own + more).daily == IndexOf(own).daily <==> more == []
    ensures IndexOf(own + more).facets == IndexOf(own).facets <==> forall r :: r in more ==> r.tags == []
    ensures IndexOf(own + more).keys == IndexOf(own).keys <==> forall r :: r in more ==> r.data.None? || r.data.value == map[]
  {
    RowsAreCounted(own);
    RowsAreCounted(own + more);
    assert more == [] ==> own + more == own;
    BagAppend(own, more);
    NoTags(more);
    hide DailyOf, FacetBag, KeyBag, Table;
    AddedBag(FacetBag(own), FacetBag(more));
    AddedBag(KeyBag(own), KeyBag(more));
  }

  // ---------------------------------------------------------------- stated on the files

  /** Some other file has a row this file has nothing of. */
  ghost predicate Adds(files: Files, n: Name)
    requires n in files
  {
    exists m, r :: m in files && m != n && r in files[m] && New(files, n, r)
  }

  predicate New(files: Files, n: Name, r: Row)
    requires n in files
  {
    r.eid == 0 || r.eid !in Eids(files[n])
  }

  ghost predicate AddsTags(files: Files, n: Name)
    requires n in files
  {
    exists m, r :: m in files && m != n && r in files[m] && New(files, n, r) && r.tags != []
  }

  ghost predicate AddsData(files: Files, n: Name)
    requires n in files
  {
    exists m, r :: m in files && m != n && r in files[m] && New(files, n, r) && r.data.Some? && r.data.value != map[]
  }

  lemma AddedFrom(files: Files, order: seq<Name>, n: Name, r: Row) returns (m: Name)
    requires IsListing(order, files) && n in files && r in Added(files, order, n)
    ensures m in files && m != n && r in files[m] && New(files, n, r)
  {
    var others := ReadAll(files - {n}, order);
    DedupeKeeps(others);
    NewToHolds(Dedupe(others), Eids(files[n]));
    ReadAllRows(files - {n}, order, r);
    m :| m in order && m in files - {n} && r in (files - {n})[m];
  }

  /** A new row of another file is among the added ones, or one like it is. */
  lemma AddedLike(files: Files, order: seq<Name>, n: Name, m: Name, r: Row) returns (x: Row)
    requires IsListing(order, files) && n in files && Alike(ReadAll(files, order))
    requires m in files && m != n && r in files[m] && New(files, n, r)
    ensures x in Added(files, order, n) && Strip(x) == Strip(r)
  {
    var others := ReadAll(files - {n}, order);
    DedupeKeeps(others);
    NewToHolds(Dedupe(others), Eids(files[n]));
    assert m in files - {n};
    ReadAllRows(files - {n}, order, r);
    if r.eid == 0 {
      ZerosMember(others);
      ZerosMember(Dedupe(others));
      assert r in Zeros(others);
      x := r;
    } else {
      assert r.eid in Eids(others);
      x :| x in Dedupe(others) && x.eid == r.eid;
      ReadAllRows(files - {n}, order, x);
      ReadAllRows(files, order, x);
      ReadAllRows(files, order, r);
    }
  }

  lemma {:induction false} ZerosMember(rows: seq<Row>)
    ensures forall r :: r in Zeros(rows) <==> r in rows && r.eid == 0
  {
    if rows == [] {
    } else {
      ZerosMember(rows[..|rows| - 1]);
      assert rows == rows[..|rows| - 1] + [rows[|rows| - 1]];
    }
  }

  /** Whatever can be told of a row without the columns no index reads. */
  lemma AddedOnFiles(files: Files, order: seq<Name>, n: Name, p: Row -> bool)
    requires IsListing(order, files) && n in files && Alike(ReadAll(files, order))
    requires forall a, b :: Strip(a) == Strip(b) ==> p(a) == p(b)
    ensures (exists r :: r in Added(files, order, n) && p(r)) <==>
      exists m, r :: m in files && m != n && r in files[m] && New(files, n, r) && p(r)
  {
    hide Added, Alike, New, Strip, IsListing;
    var more := Added(files, order, n);
    if r :| r in more && p(r) {
      var m := AddedFrom(files, order, n, r);
    }
    if m, r :| m in files && m != n && r in files[m] && New(files, n, r) && p(r) {
      var x := AddedLike(files, order, n, m, r);
      assert p(x);
    }
  }

  /**
   The index of a whole day against that of one of its files: the daily counts are the same exactly
   when the other files hold no row new to it, the facets exactly when they hold no new row with a
   tag, the data keys exactly when they hold no new row with data.
   */
  lemma SameIndexIff(files: Files, order: seq<Name>, n: Name)
    requires IsListing(order, files) && n in files && Unique(files[n]) && Alike(ReadAll(files, order))
    ensures
      var day, own := IndexOf(Dedupe(ReadAll(files, order))), IndexOf(files[n]);
      && (day.daily == own.daily <==> !Adds(files, n))
      && (day.facets == own.facets <==> !AddsTags(files, n))
      && (day.keys == own.keys <==> !AddsData(files, n))
  {
    hide IndexOf, Dedupe, Added, Unique, Alike, IsListing, New;
    IndexSplits(files, order, n);
    AddedShows(files[n], Added(files, order, n));
    AddedOnFiles(files, order, n, (r: Row) => true);
    AddedOnFiles(files, order, n, (r: Row) => r.tags != []);
    AddedOnFiles(files, order, n, (r: Row) => r.data.Some? && r.data.value != map[]);
    var more := Added(files, order, n);
    assert more != [] ==> more[0] in more;
  }

  /** The merge of a day is indexed like the day. */
  lemma MergedIndex(files: Files, order: seq<Name>)
    ensures IndexOf(Compacted(ReadAll(files, order))) == IndexOf(Dedupe(ReadAll(files, order)))
  {
    hide IndexOf, Dedupe, SortRows;
    SortRowsStable(Dedupe(ReadAll(files, order)));
    IndexPermutes(Compacted(ReadAll(files, order)), Dedupe(ReadAll(files, order)));
  }
}
