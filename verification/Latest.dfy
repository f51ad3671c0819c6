/** The newest matching events, read day by day from the newest and stopped as soon as enough are found. */
module Latest {
  import opened Prelude
  import opened Rows
  import opened Partition
  import opened PartitionSafety
  import opened Summaries
  import opened Reader
  import ReaderRuns
  import Sorting
  import F = Filter
  import IndexContent

  const MAX_LATEST := 500

  function Limit(limit: int): (n: nat)
    ensures 1 <= n <= 500 && (1 <= limit <= 500 ==> n == limit) && (limit > 500 ==> n == 500) && (limit < 1 ==> n == 1)
  {
    if limit < 1 then 1 else if limit > MAX_LATEST then MAX_LATEST else limit
  }

  function WithNs(rows: seq<Row>, ns: string): seq<Event> {
    seq(|rows|, i requires 0 <= i < |rows| => Event(rows[i], ns))
  }

  /** The matching events of one day in range. */
  function DayFound(q: Query, raw: map<Slot, seq<Row>>, s: Slot): seq<Event> {
    if s in raw && DayInRange(q, s.date) then WithNs(Matching(q, s.ns, raw[s]), s.ns) else []
  }

  /** All matching events of some days. */
  function AllFound(q: Query, raw: map<Slot, seq<Row>>, order: seq<Slot>): seq<Event> {
    if order == [] then [] else AllFound(q, raw, order[..|order| - 1]) + DayFound(q, raw, order[|order| - 1])
  }

  /** Newest first. */
  ghost predicate Desc(events: seq<Event>) {
    forall i, j :: 0 <= i < j < |events| ==> events[i].row.ts >= events[j].row.ts
  }

  /** The `limit` newest of `all`, newest first; which of two equally old events is open. */
  ghost predicate IsLatest(events: seq<Event>, all: seq<Event>, limit: nat) {
    && Desc(events)
    && |events| == (if |all| < limit then |all| else limit)
    && multiset(events) <= multiset(all)
    && forall e, i :: e in multiset(all) - multiset(events) && 0 <= i < |events| ==> e.row.ts <= events[i].row.ts
  }

  /** Every row lies in the partition of its own UTC day. */
  ghost predicate OwnDays(raw: map<Slot, seq<Row>>) {
    forall s, r :: s in raw && r in raw[s] ==> DateOf(r.ts) == s.date
  }

  /** The directories, newest day first. */
  ghost predicate NewestFirst(order: seq<Slot>) {
    forall i, j :: 0 <= i < j < |order| ==> order[i].date >= order[j].date
  }

  // ---------------------------------------------------------------- sorting a day

  predicate NotOlder(a: Event, b: Event) {
    a.row.ts >= b.row.ts
  }

  method SortDay(day: seq<Event>) returns (r: seq<Event>)
    ensures multiset(r) == multiset(day) && Desc(r)
  {
    var le := (a, b) => NotOlder(a, b);
    r := Sorting.Sort(le, day);
    assert forall i, j :: 0 <= i < j < |r| ==> le(r[i], r[j]);
  }

  // ---------------------------------------------------------------- the cutoff

  lemma {:induction false} MatchingMember(q: Query, ns: string, rows: seq<Row>)
    ensures forall r :: r in Matching(q, ns, rows) ==> r in rows
  {
    if rows == [] {
    } else {
      MatchingMember(q, ns, rows[..|rows| - 1]);
    }
  }

  lemma {:induction false} MatchingBag(q: Query, ns: string, rows: seq<Row>, row: Row)
    ensures multiset(Matching(q, ns, rows))[row] == if F.Match(q.h, q.filter, row, ns, q.now) then multiset(rows)[row] else 0
  {
    hide F.Match;
    if rows != [] {
      var before, last := rows[..|rows| - 1], rows[|rows| - 1];
      MatchingBag(q, ns, before, row);
      assert rows == before + [last];
      assert Matching(q, ns, before) + [] == Matching(q, ns, before);
    }
  }

  lemma {:induction false} WithNsBag(rows: seq<Row>, ns: string, e: Event)
    ensures multiset(WithNs(rows, ns))[e] == if e.ns == ns then multiset(rows)[e.row] else 0
  {
    if rows == [] {
      assert WithNs(rows, ns) == [];
    } else {
      var before, last := rows[..|rows| - 1], rows[|rows| - 1];
      WithNsBag(before, ns, e);
      assert rows == before + [last];
      assert WithNs(rows, ns) == WithNs(before, ns) + [Event(last, ns)];
    }
  }

  /** A day's share: its rows in range that match, each as often as it is there. */
  lemma DayFoundBag(q: Query, raw: map<Slot, seq<Row>>, s: Slot, e: Event)
    ensures multiset(DayFound(q, raw, s))[e] ==
      if s in raw && DayInRange(q, s.date) && e.ns == s.ns && F.Match(q.h, q.filter, e.row, e.ns, q.now) then multiset(raw[s])[e.row] else 0
  {
    hide F.Match, Matching, DayInRange, WithNs;
    if s in raw && DayInRange(q, s.date) {
      MatchingBag(q, s.ns, raw[s], e.row);
      WithNsBag(Matching(q, s.ns, raw[s]), s.ns, e);
    }
  }

  /**
   What the newest are taken from: an event counts exactly when it matches and its own UTC day has a
   listed directory in range, and then as often as it is visible there.
   */
  lemma {:induction false} FoundMeans(q: Query, raw: map<Slot, seq<Row>>, listing: seq<Slot>, e: Event)
    requires Distinct(listing) && OwnDays(raw)
    ensures
      var home := Slot(DateOf(e.row.ts), e.ns);
      multiset(AllFound(q, raw, listing))[e] ==
      if home in listing && home in raw && DayInRange(q, home.date) && F.Match(q.h, q.filter, e.row, e.ns, q.now)
      then multiset(raw[home])[e.row] else 0
  {
    hide F.Match, DayFound, DayInRange, DateOf;
    if listing != [] {
      var before, last := listing[..|listing| - 1], listing[|listing| - 1];
      assert listing == before + [last];
      FoundMeans(q, raw, before, e);
      DayFoundBag(q, raw, last, e);
      if last in raw && e.row !in raw[last] {
        assert multiset(raw[last])[e.row] == 0;
      }
    }
  }

  /** What a day yields is of that day. */
  lemma DayFoundDates(q: Query, raw: map<Slot, seq<Row>>, s: Slot)
    requires OwnDays(raw)
    ensures forall e :: e in DayFound(q, raw, s) ==> DateOf(e.row.ts) == s.date
  {
    hide Matching, DayInRange, DateOf;
    if s in raw {
      MatchingMember(q, s.ns, raw[s]);
    }
  }

  lemma {:induction false} AllFoundAppend(q: Query, raw: map<Slot, seq<Row>>, a: seq<Slot>, b: seq<Slot>)
    ensures AllFound(q, raw, a + b) == AllFound(q, raw, a) + AllFound(q, raw, b)
  {
    hide DayFound;
    if b == [] {
      assert a + b == a;
    } else {
      assert (a + b)[..|a + b| - 1] == a + b[..|b| - 1];
      AllFoundAppend(q, raw, a, b[..|b| - 1]);
    }
  }

  lemma {:induction false} AllFoundDates(q: Query, raw: map<Slot, seq<Row>>, order: seq<Slot>)
    requires OwnDays(raw)
    ensures forall e :: e in AllFound(q, raw, order) ==> exists j :: 0 <= j < |order| && DateOf(e.row.ts) == order[j].date
  {
    hide DayFound, DateOf, OwnDays;
    if order != [] {
      AllFoundDates(q, raw, order[..|order| - 1]);
      DayFoundDates(q, raw, order[|order| - 1]);
    }
  }

  lemma BagCut<T>(out: seq<T>, left: seq<T>, head: seq<T>, rest: seq<T>)
    requires multiset(out + left) == multiset(head)
    ensures multiset(head + rest) - multiset(out) == multiset(left) + multiset(rest)
    ensures multiset(out) <= multiset(head + rest) && |out| + |left| == |head|
  {
    assert |multiset(out + left)| == |out| + |left| && |multiset(head)| == |head|;
  }

  lemma LeftOlder(found: seq<Event>, k: nat, rest: seq<Event>, e: Event, i: nat)
    requires Desc(found) && i < k <= |found|
    requires forall e, x :: e in rest && x in found ==> e.row.ts <= x.row.ts
    requires e in multiset(found[k..]) + multiset(rest)
    ensures e.row.ts <= found[i].row.ts
  {
    assert found[i] in found;
    if e in found[k..] {
      var j :| 0 <= j < |found[k..]| && found[k..][j] == e;
      assert found[k + j] == e;
    } else {
      assert e in rest;
    }
  }

  lemma LatestWith(out: seq<Event>, missed: multiset<Event>, all: seq<Event>, limit: nat)
    requires Desc(out) && |out| == (if |all| < limit then |all| else limit)
    requires multiset(out) <= multiset(all) && multiset(all) - multiset(out) == missed
    requires forall e, i :: e in missed && 0 <= i < |out| ==> e.row.ts <= out[i].row.ts
    ensures IsLatest(out, all, limit)
  {
    hide Desc;
  }

  lemma CutAt(found: seq<Event>, k: nat, head: seq<Event>, rest: seq<Event>, limit: nat)
    requires Desc(found) && multiset(found) == multiset(head) && k <= |found|
    requires if |found| >= limit then k == limit else k == |found| && rest == []
    requires forall e, x :: e in rest && x in found ==> e.row.ts <= x.row.ts
    ensures IsLatest(found[..k], head + rest, limit)
  {
    hide Desc, IsLatest;
    var out, left := found[..k], found[k..];
    DescPrefix(found, k);
    assert found == out + left;
    BagCut(out, left, head, rest);
    forall e, i | e in multiset(left) + multiset(rest) && 0 <= i < k
      ensures e.row.ts <= out[i].row.ts
    {
      LeftOlder(found, k, rest, e, i);
    }
    LatestWith(out, multiset(left) + multiset(rest), head + rest, limit);
  }

  lemma DescPrefix(events: seq<Event>, k: nat)
    requires Desc(events) && k <= |events|
    ensures Desc(events[..k])
  {
  }

  /** The first `limit` of the newest days' events are the newest of all. */
  lemma Cut(found: seq<Event>, head: seq<Event>, rest: seq<Event>, limit: nat)
    requires Desc(found) && multiset(found) == multiset(head)
    requires |found| >= limit || rest == []
    requires forall e, x :: e in rest && x in found ==> e.row.ts <= x.row.ts
    ensures IsLatest(if |found| >= limit then found[..limit] else found, head + rest, limit)
  {
    hide IsLatest, Desc;
    CutAt(found, if |found| >= limit then limit else |found|, head, rest, limit);
    assert found[..|found|] == found;
  }

  /** Earlier days hold only older events. */
  lemma OlderDays(q: Query, raw: map<Slot, seq<Row>>, order: seq<Slot>, i: nat, found: seq<Event>, date: int)
    requires OwnDays(raw) && NewestFirst(order) && i <= |order| && (i < |order| ==> order[i].date < date)
    requires forall x :: x in found ==> DateOf(x.row.ts) >= date
    ensures forall e, x :: e in AllFound(q, raw, order[i..]) && x in found ==> e.row.ts <= x.row.ts
  {
    AllFoundDates(q, raw, order[i..]);
    forall e, x | e in AllFound(q, raw, order[i..]) && x in found
      ensures e.row.ts <= x.row.ts
    {
      var j :| 0 <= j < |order[i..]| && DateOf(e.row.ts) == order[i..][j].date;
      assert order[i..][j] == order[i + j];
      OlderDate(e.row.ts, x.row.ts);
    }
  }

  lemma OlderDate(a: int, b: int)
    requires DateOf(a) < DateOf(b)
    ensures a < b
  {
  }

  lemma AllFoundNext(q: Query, raw: map<Slot, seq<Row>>, order: seq<Slot>, start: nat, next: nat)
    requires start <= next < |order|
    ensures AllFound(q, raw, order[start..next + 1]) == AllFound(q, raw, order[start..next]) + DayFound(q, raw, order[next])
  {
    hide DayFound;
    assert order[start..next + 1][..next - start] == order[start..next];
  }

  /** A day in range that cannot be read is among the directories. */
  ghost predicate Blocks(q: Query, order: seq<Slot>, broken: set<Slot>, j: nat) {
    j < |order| && order[j] in broken && DayInRange(q, order[j].date)
  }

  /** Every namespace of one day, read before anything is decided; a read that fails ends it. */
  method ReadOneDay(q: Query, store: Store, order: seq<Slot>, start: nat, broken: set<Slot>) returns (day: Option<seq<Event>>, next: nat)
    requires start < |order| && Lists(order, Dirs(store)) && NewestFirst(order)
    ensures day.None? <==> exists j: nat :: start <= j && Blocks(q, order, broken, j) && order[j].date == order[start].date
    ensures day.Some? ==>
      && start < next <= |order| && day.value == AllFound(q, Raw(store), order[start..next])
      && (forall j :: start <= j < next ==> order[j].date == order[start].date)
      && (next < |order| ==> order[next].date < order[start].date)
  {
    hide Visible, DayInRange, Matching, AllFound;
    var events: seq<Event> := [];
    next := start;
    assert AllFound(q, Raw(store), order[start..start]) == [] by { assert order[start..start] == []; NoDays(q, Raw(store)); }
    while next < |order| && order[next].date == order[start].date
      invariant start <= next <= |order| && events == AllFound(q, Raw(store), order[start..next])
      invariant forall j :: start <= j < next ==> order[j].date == order[start].date && !Blocks(q, order, broken, j)
      invariant next > start || order[next].date == order[start].date
    {
      var x := order[next];
      assert x in Dirs(store);
      AllFoundNext(q, Raw(store), order, start, next);
      if DayInRange(q, x.date) {
        if x in broken {
          assert Blocks(q, order, broken, next);
          return None, next;
        }
        var rows := ReadDay(store[x]);
        var matched := Matches(q, x.ns, rows);
        events := events + WithNs(matched, x.ns);
      }
      next := next + 1;
    }
    return Some(events), next;
  }

  lemma JoinBags<T>(a: seq<T>, b: seq<T>, c: seq<T>, d: seq<T>)
    requires multiset(a) == multiset(c) && multiset(b) == multiset(d)
    ensures multiset(a + b) == multiset(c + d)
  {
  }

  /** A sorted older day goes behind what was found so far. */
  lemma JoinDays(q: Query, raw: map<Slot, seq<Row>>, order: seq<Slot>, start: nat, next: nat, found: seq<Event>, day: seq<Event>)
    requires start < next <= |order| && OwnDays(raw)
    requires forall j :: start <= j < next ==> order[j].date == order[start].date
    requires Desc(found) && multiset(found) == multiset(AllFound(q, raw, order[..start]))
    requires Desc(day) && multiset(day) == multiset(AllFound(q, raw, order[start..next]))
    requires forall x :: x in found ==> DateOf(x.row.ts) > order[start].date
    ensures Desc(found + day) && multiset(found + day) == multiset(AllFound(q, raw, order[..next]))
    ensures forall x :: x in found + day ==> DateOf(x.row.ts) >= order[start].date
  {
    hide AllFound, OwnDays, DateOf;
    AllFoundAppend(q, raw, order[..start], order[start..next]);
    assert order[..start] + order[start..next] == order[..next];
    JoinBags(found, day, AllFound(q, raw, order[..start]), AllFound(q, raw, order[start..next]));
    AllFoundDates(q, raw, order[start..next]);
    forall x | x in day
      ensures DateOf(x.row.ts) == order[start].date
    {
      assert x in multiset(day);
      var j :| 0 <= j < |order[start..next]| && DateOf(x.row.ts) == order[start..next][j].date;
      assert order[start..next][j] == order[start + j];
    }
    forall i, j | 0 <= i < |found| && 0 <= j < |day|
      ensures found[i].row.ts >= day[j].row.ts
    {
      assert found[i] in found && day[j] in day;
      OlderDate(day[j].row.ts, found[i].row.ts);
    }
  }

  /** The days after a date, in the order of the listing. */
  function NewerThan(listing: seq<Slot>, date: int): seq<Slot> {
    if listing == [] then []
    else
      var x := listing[|listing| - 1];
      NewerThan(listing[..|listing| - 1], date) + if x.date > date then [x] else []
  }

  /** Some unreadable day in range is reached: the days after it hold too few events. */
  ghost predicate Unreadable(q: Query, raw: map<Slot, seq<Row>>, listing: seq<Slot>, broken: set<Slot>, limit: nat) {
    exists x :: x in listing && x in broken && DayInRange(q, x.date) && |AllFound(q, raw, NewerThan(listing, x.date))| < limit
  }

  lemma {:induction false} NewerAppend(a: seq<Slot>, b: seq<Slot>, date: int)
    ensures NewerThan(a + b, date) == NewerThan(a, date) + NewerThan(b, date)
  {
    if b == [] {
      assert a + b == a;
    } else {
      assert (a + b)[..|a + b| - 1] == a + b[..|b| - 1];
      NewerAppend(a, b[..|b| - 1], date);
    }
  }

  lemma {:induction false} NewerAll(order: seq<Slot>, date: int)
    ensures (forall x :: x in order ==> x.date > date) ==> NewerThan(order, date) == order
    ensures (forall x :: x in order ==> x.date <= date) ==> NewerThan(order, date) == []
  {
    if order == [] {
    } else {
      assert order == order[..|order| - 1] + [order[|order| - 1]];
      NewerAll(order[..|order| - 1], date);
    }
  }

  lemma EarlierAre(order: seq<Slot>, start: nat)
    requires NewestFirst(order) && start < |order| && (start > 0 ==> order[start - 1].date > order[start].date)
    ensures forall x :: x in order[..start] ==> x.date > order[start].date
  {
    forall x | x in order[..start] ensures x.date > order[start].date {
      var i :| 0 <= i < start && order[i] == x;
    }
  }

  lemma LaterAre(order: seq<Slot>, start: nat)
    requires NewestFirst(order) && start < |order|
    ensures forall x :: x in order[start..] ==> x.date <= order[start].date
  {
    forall x | x in order[start..] ensures x.date <= order[start].date {
      var i :| start <= i < |order| && order[i] == x;
    }
  }

  /** In the order of reading, the days after the one at `start` are those before it. */
  lemma NewerPrefix(order: seq<Slot>, start: nat)
    requires NewestFirst(order) && start < |order| && (start > 0 ==> order[start - 1].date > order[start].date)
    ensures NewerThan(order, order[start].date) == order[..start]
  {
    hide NewerThan;
    EarlierAre(order, start);
    LaterAre(order, start);
    hide NewestFirst;
    var date := order[start].date;
    assert order[..start] + order[start..] == order;
    NewerAppend(order[..start], order[start..], date);
    NewerAll(order[..start], date);
    NewerAll(order[start..], date);
  }

  lemma {:induction false} NewerBag(listing: seq<Slot>, date: int, x: Slot)
    ensures multiset(NewerThan(listing, date))[x] == if x.date > date then multiset(listing)[x] else 0
  {
    if listing == [] {
    } else {
      assert listing == listing[..|listing| - 1] + [listing[|listing| - 1]];
      NewerBag(listing[..|listing| - 1], date, x);
    }
  }

  lemma {:induction false} FoundPermutes(q: Query, raw: map<Slot, seq<Row>>, a: seq<Slot>, b: seq<Slot>)
    requires IndexContent.Permutes(a, b)
    ensures IndexContent.Permutes(AllFound(q, raw, a), AllFound(q, raw, b))
    decreases |a|
  {
    if a == [] {
      IndexContent.PermutesNothing(b);
    } else {
      hide DayFound, AllFound, IndexContent.Permutes;
      var k := IndexContent.TakeOut(a, b);
      var l, x, r := b[..k], [b[k]], b[k + 1..];
      FoundPermutes(q, raw, a[..|a| - 1], l + r);
      AllFoundAppend(q, raw, l, x + r);
      AllFoundAppend(q, raw, x, r);
      AllFoundAppend(q, raw, l, r);
      AllFoundAppend(q, raw, a[..|a| - 1], x);
      assert a == a[..|a| - 1] + x;
      Shuffle(AllFound(q, raw, l), AllFound(q, raw, x), AllFound(q, raw, r), AllFound(q, raw, a[..|a| - 1]));
    }
  }

  lemma Shuffle<T>(l: seq<T>, x: seq<T>, r: seq<T>, other: seq<T>)
    requires IndexContent.Permutes(other, l + r)
    ensures IndexContent.Permutes(other + x, l + (x + r))
  {
  }

  /** The order in which a listing is given does not matter for what is unreadable or found. */
  lemma OrderIsOpen(q: Query, raw: map<Slot, seq<Row>>, a: seq<Slot>, b: seq<Slot>, broken: set<Slot>, limit: nat)
    requires multiset(a) == multiset(b)
    ensures Unreadable(q, raw, a, broken, limit) ==> Unreadable(q, raw, b, broken, limit)
  {
    hide AllFound, NewerThan;
    if Unreadable(q, raw, a, broken, limit) {
      var x :| x in a && x in broken && DayInRange(q, x.date) && |AllFound(q, raw, NewerThan(a, x.date))| < limit;
      assert x in multiset(a);
      forall y: Slot
        ensures multiset(NewerThan(a, x.date))[y] == multiset(NewerThan(b, x.date))[y]
      {
        NewerBag(a, x.date, y);
        NewerBag(b, x.date, y);
      }
      assert multiset(NewerThan(a, x.date)) == multiset(NewerThan(b, x.date));
      FoundPermutes(q, raw, NewerThan(a, x.date), NewerThan(b, x.date));
      Sorting.SameMembers(AllFound(q, raw, NewerThan(a, x.date)), AllFound(q, raw, NewerThan(b, x.date)));
    }
  }

  lemma LatestOfBag(events: seq<Event>, a: seq<Event>, b: seq<Event>, limit: nat)
    requires IsLatest(events, a, limit) && multiset(a) == multiset(b)
    ensures IsLatest(events, b, limit)
  {
    Sorting.SameMembers(a, b);
  }

  predicate NotEarlier(a: Slot, b: Slot) {
    a.date >= b.date
  }

  /** The directories, newest day first; within a day in any order. */
  method SortSlots(listing: seq<Slot>) returns (order: seq<Slot>)
    ensures multiset(order) == multiset(listing) && NewestFirst(order)
  {
    var le := (a, b) => NotEarlier(a, b);
    order := Sorting.Sort(le, listing);
    assert forall i, j :: 0 <= i < j < |order| ==> le(order[i], order[j]);
  }

  lemma {:induction false} DistinctBag<T>(s: seq<T>)
    ensures Distinct(s) <==> forall x :: x in s ==> multiset(s)[x] == 1
  {
    if s == [] {
    } else {
      var before, x := s[..|s| - 1], s[|s| - 1];
      assert s == before + [x];
      DistinctBag(before);
      if Distinct(s) { assert x !in before; }
      if forall y :: y in s ==> multiset(s)[y] == 1 {
        assert multiset(s)[x] == multiset(before)[x] + 1;
        assert x !in before;
        assert forall y :: y in before ==> multiset(s)[y] == multiset(before)[y];
      }
    }
  }

  lemma ListsPermuted(a: seq<Slot>, b: seq<Slot>, slots: iset<Slot>)
    requires Lists(a, slots) && multiset(a) == multiset(b)
    ensures Lists(b, slots)
  {
    Sorting.SameMembers(a, b);
    DistinctBag(a);
    DistinctBag(b);
  }

  /** Latest over the directories in the order of reading. */
  method FindInOrder(q: Query, store: Store, order: seq<Slot>, limit: int, broken: set<Slot>) returns (result: Option<seq<Event>>)
    requires Lists(order, Dirs(store)) && NewestFirst(order)
    requires OwnDays(Raw(store))
    ensures result.Some? ==> IsLatest(result.value, AllFound(q, Raw(store), order), Limit(limit))
    ensures result.None? <==> Unreadable(q, Raw(store), order, broken, Limit(limit))
  {
    hide DayFound, OwnDays, IsLatest, Visible, DateOf, AllFound, DayInRange, Unreadable, NewerThan, Blocks, Desc;
    ghost var raw := Raw(store);
    var out: seq<Event> := [];
    var i := 0;
    assert AllFound(q, raw, order[..0]) == [] && Desc(out) by { NoDays(q, raw); }
    while i < |order|
      invariant 0 <= i <= |order| && |out| < Limit(limit)
      invariant Desc(out) && multiset(out) == multiset(AllFound(q, raw, order[..i])) && |out| == |AllFound(q, raw, order[..i])|
      invariant 0 < i < |order| ==> order[i - 1].date > order[i].date
      invariant i < |order| ==> forall x :: x in out ==> DateOf(x.row.ts) > order[i].date
      invariant forall j: nat :: j < i ==> !Blocks(q, order, broken, j)
    {
      var start := i;
      var read, next := ReadOneDay(q, store, order, start, broken);
      if read.None? {
        Stopped(q, raw, order, start, broken, Limit(limit));
        return None;
      }
      i := next;
      var day := SortDay(read.value);
      JoinDays(q, raw, order, start, i, out, day);
      out := out + day;
      SameLength(out, AllFound(q, raw, order[..i]));
      if |out| >= Limit(limit) {
        OlderDays(q, raw, order, i, out, order[start].date);
        Cut(out, AllFound(q, raw, order[..i]), AllFound(q, raw, order[i..]), Limit(limit));
        AllFoundAppend(q, raw, order[..i], order[i..]);
        assert order[..i] + order[i..] == order;
        Enough(q, raw, order, i, broken, Limit(limit));
        return Some(out[..Limit(limit)]);
      }
    }
    assert order[..i] == order;
    Cut(out, AllFound(q, raw, order), [], Limit(limit));
    assert AllFound(q, raw, order) + [] == AllFound(q, raw, order);
    NoneBlocks(q, raw, order, broken, Limit(limit));
    return Some(out);
  }

  lemma SameLength<T>(a: seq<T>, b: seq<T>)
    requires multiset(a) == multiset(b)
    ensures |a| == |b|
  {
    Sorting.SameMembers(a, b);
  }

  lemma NoneBlocks(q: Query, raw: map<Slot, seq<Row>>, order: seq<Slot>, broken: set<Slot>, limit: nat)
    requires forall j: nat :: j < |order| ==> !Blocks(q, order, broken, j)
    ensures !Unreadable(q, raw, order, broken, limit)
  {
    hide AllFound, NewerThan, DayInRange;
    forall x | x in order && x in broken ensures !DayInRange(q, x.date) {
      var j: nat :| j < |order| && order[j] == x;
      assert !Blocks(q, order, broken, j);
    }
  }

  lemma Stopped(q: Query, raw: map<Slot, seq<Row>>, order: seq<Slot>, start: nat, broken: set<Slot>, limit: nat)
    requires NewestFirst(order) && start < |order| && (start > 0 ==> order[start - 1].date > order[start].date)
    requires |AllFound(q, raw, order[..start])| < limit
    requires exists j: nat :: start <= j && Blocks(q, order, broken, j) && order[j].date == order[start].date
    ensures Unreadable(q, raw, order, broken, limit)
  {
    hide AllFound, NewerThan, DayInRange;
    var j: nat :| start <= j && Blocks(q, order, broken, j) && order[j].date == order[start].date;
    NewerPrefix(order, start);
    assert order[j] in order;
  }

  /** Behind enough events no day is read, readable or not. */
  lemma Enough(q: Query, raw: map<Slot, seq<Row>>, order: seq<Slot>, i: nat, broken: set<Slot>, limit: nat)
    requires NewestFirst(order) && 0 < i <= |order| && (i < |order| ==> order[i - 1].date > order[i].date)
    requires |AllFound(q, raw, order[..i])| >= limit
    requires forall j: nat :: j < i ==> !Blocks(q, order, broken, j)
    ensures !Unreadable(q, raw, order, broken, limit)
  {
    hide AllFound, NewerThan, DayInRange;
    forall x | x in order && x in broken && DayInRange(q, x.date)
      ensures |AllFound(q, raw, NewerThan(order, x.date))| >= limit
    {
      var j: nat :| j < |order| && order[j] == x;
      assert Blocks(q, order, broken, j);
      EarlierAre(order, i);
      hide Blocks;
      assert x.date <= order[i].date;
      assert order[..i] + order[i..] == order;
      NewerAppend(order[..i], order[i..], x.date);
      NewerAll(order[..i], x.date);
      AllFoundAppend(q, raw, order[..i], NewerThan(order[i..], x.date));
    }
  }

  /**
   Latest: the directories are sorted newest day first and read until enough is found. It fails exactly when
   a day in range cannot be read and the days after it hold too few events.
   */
  method FindLatest(q: Query, store: Store, listing: seq<Slot>, limit: int, broken: set<Slot>) returns (result: Option<seq<Event>>)
    requires Lists(listing, Dirs(store)) && OwnDays(Raw(store))
    ensures result.Some? ==> IsLatest(result.value, AllFound(q, Raw(store), listing), Limit(limit))
    ensures result.None? <==> Unreadable(q, Raw(store), listing, broken, Limit(limit))
  {
    hide IsLatest, OwnDays, AllFound, Unreadable, Visible;
    var order := SortSlots(listing);
    ListsPermuted(listing, order, Dirs(store));
    result := FindInOrder(q, store, order, limit, broken);
    OrderIsOpen(q, Raw(store), listing, order, broken, Limit(limit));
    OrderIsOpen(q, Raw(store), order, listing, broken, Limit(limit));
    FoundPermutes(q, Raw(store), order, listing);
    if result.Some? {
      LatestOfBag(result.value, AllFound(q, Raw(store), order), AllFound(q, Raw(store), listing), Limit(limit));
    }
  }

  lemma NoDays(q: Query, raw: map<Slot, seq<Row>>)
    ensures AllFound(q, raw, []) == [] && Desc([])
  {
  }

  // ---------------------------------------------------------------- what the answer determines

  /** Two answers to one question show the same times: only equally old events can be exchanged. */
  lemma LatestTimes(a: seq<Event>, b: seq<Event>, all: seq<Event>, limit: nat, i: nat)
    requires IsLatest(a, all, limit) && IsLatest(b, all, limit) && i < |a|
    ensures |a| == |b| && a[i].row.ts == b[i].row.ts
  {
    if a[i].row.ts > b[i].row.ts {
      NoNewer(a, b, all, limit, i);
    } else if b[i].row.ts > a[i].row.ts {
      NoNewer(b, a, all, limit, i);
    }
  }

  lemma SubBag<T>(mine: multiset<T>, theirs: multiset<T>)
    requires mine <= theirs
    ensures |mine| <= |theirs|
  {
    assert theirs == mine + (theirs - mine);
  }

  /** A larger bag has an element it holds more often. */
  lemma Surplus<T>(mine: multiset<T>, theirs: multiset<T>) returns (e: T)
    requires |mine| > |theirs|
    ensures mine[e] > theirs[e]
  {
    if mine <= theirs {
      SubBag(mine, theirs);
    }
    e :| mine[e] > theirs[e];
  }

  /** An event of a's first entries that b's first i do not hold, though newer than b's entry i, is missing in b. */
  lemma MissingNewer(a: seq<Event>, b: seq<Event>, i: nat, e: Event)
    requires Desc(a) && Desc(b) && i < |a| && i < |b| && a[i].row.ts > b[i].row.ts
    requires multiset(a[..i + 1])[e] > multiset(b[..i])[e]
    ensures e.row.ts > b[i].row.ts && multiset(a)[e] > multiset(b)[e]
  {
    assert e in a[..i + 1] by { assert e in multiset(a[..i + 1]); }
    EntriesOlder(a, b, i, e);
    hide Desc;
    MoreIn(a[..i + 1], a[i + 1..], b[..i], b[i..], e);
    assert a == a[..i + 1] + a[i + 1..] && b == b[..i] + b[i..];
  }

  lemma EntriesOlder(a: seq<Event>, b: seq<Event>, i: nat, e: Event)
    requires Desc(a) && Desc(b) && i < |a| && i < |b| && a[i].row.ts > b[i].row.ts && e in a[..i + 1]
    ensures e.row.ts > b[i].row.ts && e !in b[i..]
  {
    var k :| 0 <= k < i + 1 && a[k] == e;
  }

  lemma MoreIn<T>(a: seq<T>, more: seq<T>, b: seq<T>, rest: seq<T>, e: T)
    requires multiset(a)[e] > multiset(b)[e] && e !in rest
    ensures multiset(a + more)[e] > multiset(b + rest)[e]
  {
  }

  /** What b misses is no newer than anything it shows. */
  lemma Missed(a: seq<Event>, b: seq<Event>, all: seq<Event>, limit: nat, e: Event, i: nat)
    requires IsLatest(b, all, limit) && multiset(a) <= multiset(all) && i < |b|
    requires multiset(a)[e] > multiset(b)[e]
    ensures e.row.ts <= b[i].row.ts
  {
    assert e in multiset(all) - multiset(b);
  }

  lemma NoNewer(a: seq<Event>, b: seq<Event>, all: seq<Event>, limit: nat, i: nat)
    requires IsLatest(a, all, limit) && IsLatest(b, all, limit) && i < |a|
    ensures a[i].row.ts <= b[i].row.ts
  {
    if a[i].row.ts > b[i].row.ts {
      assert |multiset(a[..i + 1])| == i + 1 && |multiset(b[..i])| == i;
      var e := Surplus(multiset(a[..i + 1]), multiset(b[..i]));
      MissingNewer(a, b, i, e);
      hide IsLatest, Desc;
      Missed(a, b, all, limit, e, i);
    }
  }

  // ---------------------------------------------------------------- why rows lie on their own day

  /** What Append promises of its batches: every row falls on the directory's UTC day. */
  ghost predicate DatedAppends(run: seq<Action>, date: int) {
    forall i, r :: 0 <= i < |run| && run[i].Append? && r in run[i].rows ==> DateOf(r.ts) == date
  }

  lemma {:induction false} AppendedDates(run: seq<Action>, date: int)
    requires DatedAppends(run, date)
    ensures forall r :: r in Exec(INIT, run).appended ==> DateOf(r.ts) == date
  {
    hide DateOf, Apply, Inv;
    if run == [] {
    } else {
      var before, last := run[..|run| - 1], run[|run| - 1];
      assert DatedAppends(before, date);
      AppendedDates(before, date);
      InitOk();
      ExecKeeps(INIT, before);
      StepHistory(Exec(INIT, before), last);
      assert last == run[|run| - 1];
    }
  }

  /** On every run whose batches were split by day, the rows a reader sees are on their own day. */
  lemma RunsKeepOwnDays(store: Store, runs: ReaderRuns.Runs)
    requires ReaderRuns.FromRuns(store, runs)
    requires forall s :: s in store ==> DatedAppends(runs[s], s.date)
    ensures OwnDays(Raw(store))
  {
    hide Exec, Visible, DateOf;
    forall s, r | s in Raw(store) && r in Raw(store)[s]
      ensures DateOf(r.ts) == s.date
    {
      ReaderSeesAppended(runs[s], store[s].order);
      AppendedDates(runs[s], s.date);
    }
  }
}
