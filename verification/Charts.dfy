/** How a summary's bars and totals grow by one index or one row at a time. */
module Charts {
  import opened Rows
  import opened Index
  import opened Summaries
  import Bags

  datatype Summary = Summary(days: Days, count: nat, sum: real, users: nat, anons: nat, scanned: bool)

  const EMPTY: Summary := Summary(map[], 0, 0.0, 0, 0, false)

  // ---------------------------------------------------------------- adding bars

  ghost predicate Totals(days: Days, count: nat, sum: real) {
    count == Bags.Total(Counts(days)) && sum == Bags.RealTotal(Sums(days))
  }

  /** The figures of a summary are those of its bars. */
  ghost predicate Tallied(s: Summary) {
    Totals(s.days, s.count, s.sum) && LargestUsers(s.days, s.users) && LargestAnons(s.days, s.anons)
  }

  lemma TotalsPut(days: Days, count: nat, sum: real, k: DayKey, d: Daily)
    requires k !in days && Totals(days, count, sum)
    ensures Totals(days[k := d], count + d.count, sum + d.sum)
  {
    Bags.TotalPut(Counts(days), k, d.count);
    Bags.RealPut(Sums(days), k, d.sum);
    assert Counts(days)[k := d.count] == Counts(days[k := d]);
    assert Sums(days)[k := d.sum] == Sums(days[k := d]);
  }

  function Larger(a: nat, b: nat): nat {
    if a < b then b else a
  }

  function AddBar(s: Summary, k: DayKey, d: Daily): Summary {
    Summary(s.days[k := d], s.count + d.count, s.sum + d.sum, Larger(s.users, d.users), Larger(s.anons, d.anons), s.scanned)
  }

  lemma LargestPut(days: Days, k: DayKey, d: Daily, users: nat, anons: nat)
    requires k !in days && LargestUsers(days, users) && LargestAnons(days, anons)
    ensures LargestUsers(days[k := d], Larger(users, d.users)) && LargestAnons(days[k := d], Larger(anons, d.anons))
  {
    var more := days[k := d];
    assert k in more;
    if users >= d.users && users > 0 {
      var m :| m in days && days[m].users == users;
      assert m in more;
    }
    if anons >= d.anons && anons > 0 {
      var m :| m in days && days[m].anons == anons;
      assert m in more;
    }
  }

  lemma BarTallied(s: Summary, k: DayKey, d: Daily)
    requires k !in s.days && Tallied(s)
    ensures Tallied(AddBar(s, k, d))
  {
    hide Totals, LargestUsers, LargestAnons;
    TotalsPut(s.days, s.count, s.sum, k, d);
    LargestPut(s.days, k, d, s.users, s.anons);
  }

  function SlotKeys(q: Query, s: Slot, daily: map<string, Daily>): set<DayKey> {
    set e | e in daily && EventAllowed(q, e) :: DayKey(s, e)
  }

  /** The bars one day's index adds. */
  function SlotDays(q: Query, s: Slot, daily: map<string, Daily>): Days {
    map k | k in SlotKeys(q, s, daily) :: daily[k.event]
  }

  lemma SlotKeysMean(q: Query, s: Slot, daily: map<string, Daily>)
    ensures forall k :: k in SlotKeys(q, s, daily) <==> k.slot == s && k.event in daily && EventAllowed(q, k.event)
    ensures SlotDays(q, s, daily).Keys == SlotKeys(q, s, daily)
  {
    hide EventAllowed;
    forall k: DayKey | k.slot == s && k.event in daily && EventAllowed(q, k.event)
      ensures k in SlotKeys(q, s, daily)
    {
      assert k == DayKey(s, k.event);
    }
  }

  lemma IndexKeysMean(q: Query, served: map<Slot, Index>)
    ensures forall k :: k in IndexKeys(q, served) <==>
      k.slot in served && InScope(q, k.slot) && k.event in served[k.slot].daily && EventAllowed(q, k.event)
    ensures IndexDays(q, served).Keys == IndexKeys(q, served)
  {
    hide EventAllowed, NsAllowed, DayInRange;
    forall k: DayKey | k.slot in served && InScope(q, k.slot) && k.event in served[k.slot].daily && EventAllowed(q, k.event)
      ensures k in IndexKeys(q, served)
    {
      assert k == DayKey(k.slot, k.event);
    }
  }

  lemma IndexDaysPut(q: Query, served: map<Slot, Index>, s: Slot, index: Index)
    requires s !in served
    ensures IndexDays(q, served[s := index]) ==
      if InScope(q, s) then IndexDays(q, served) + SlotDays(q, s, index.daily) else IndexDays(q, served)
    ensures forall k :: k in IndexDays(q, served) ==> k.slot != s
  {
    hide EventAllowed, InScope, IndexKeys, SlotKeys, IndexDays, SlotDays;
    var was, slot, now := IndexDays(q, served), SlotDays(q, s, index.daily), IndexDays(q, served[s := index]);
    forall k: DayKey
      ensures k in was ==> k.slot != s && k in now && now[k] == was[k]
      ensures k in slot ==> k.slot == s && (InScope(q, s) <==> k in now) && (k in now ==> now[k] == slot[k])
      ensures k in now ==> k in was || (InScope(q, s) && k in slot)
    {
      IndexBarPut(q, served, s, index, k);
    }
    DaysJoin(was, slot, now, InScope(q, s));
  }

  lemma IndexBarPut(q: Query, served: map<Slot, Index>, s: Slot, index: Index, k: DayKey)
    requires s !in served
    ensures
      var was, slot, now := IndexDays(q, served), SlotDays(q, s, index.daily), IndexDays(q, served[s := index]);
      && (k in was ==> k.slot != s && k in now && now[k] == was[k])
      && (k in slot ==> k.slot == s && (InScope(q, s) <==> k in now) && (k in now ==> now[k] == slot[k]))
      && (k in now ==> k in was || (InScope(q, s) && k in slot))
  {
    IndexKeysMean(q, served);
    IndexKeysMean(q, served[s := index]);
    SlotKeysMean(q, s, index.daily);
    hide EventAllowed, InScope, IndexKeys, SlotKeys;
  }

  lemma DaysJoin(was: Days, slot: Days, now: Days, joined: bool)
    requires forall k :: k in was ==> k in now && now[k] == was[k] && k !in slot
    requires forall k :: k in slot ==> (joined <==> k in now) && (k in now ==> now[k] == slot[k])
    requires forall k :: k in now ==> k in was || (joined && k in slot)
    ensures now == if joined then was + slot else was
  {
  }

  lemma SlotDaysStep(q: Query, slot: Slot, daily: map<string, Daily>, rest: set<string>, e: string)
    requires e in daily && e !in rest
    ensures DayKey(slot, e) !in SlotDays(q, slot, daily - (rest + {e}))
    ensures SlotDays(q, slot, daily - rest) ==
      if EventAllowed(q, e) then SlotDays(q, slot, daily - (rest + {e}))[DayKey(slot, e) := daily[e]]
      else SlotDays(q, slot, daily - (rest + {e}))
  {
    SlotKeysMean(q, slot, daily - rest);
    SlotKeysMean(q, slot, daily - (rest + {e}));
    hide EventAllowed, SlotKeys;
  }

  lemma SlotDaysEmpty(q: Query, slot: Slot)
    ensures SlotDays(q, slot, map[]) == map[]
  {
  }

  lemma PutMore(a: Days, b: Days, k: DayKey, d: Daily)
    ensures (a + b)[k := d] == a + b[k := d]
  {
  }

  /** Adds the allowed events of one index. */
  method AddDaily(s: Summary, q: Query, slot: Slot, daily: map<string, Daily>) returns (r: Summary)
    requires Tallied(s) && forall k :: k in s.days ==> k.slot != slot
    ensures Tallied(r) && r.scanned == s.scanned
    ensures r.days == s.days + SlotDays(q, slot, daily)
  {
    hide Tallied, EventAllowed, SlotDays;
    r := s;
    var rest := daily.Keys;
    ghost var added: Days := map[];
    SlotDaysEmpty(q, slot);
    assert daily - rest == map[];
    while rest != {}
      invariant rest <= daily.Keys && Tallied(r) && r.scanned == s.scanned
      invariant added == SlotDays(q, slot, daily - rest) && r.days == s.days + added
      decreases |rest|
    {
      var e :| e in rest;
      SlotDaysStep(q, slot, daily, rest - {e}, e);
      assert rest - {e} + {e} == rest;
      rest := rest - {e};
      if EventAllowed(q, e) {
        var k := DayKey(slot, e);
        PutMore(s.days, added, k, daily[e]);
        BarTallied(r, k, daily[e]);
        r := AddBar(r, k, daily[e]);
        added := added[k := daily[e]];
      }
    }
    assert daily - rest == daily;
  }

  // ---------------------------------------------------------------- counting rows

  /** Running figures of every bar while raw rows are scanned. */
  type Tallies = map<DayKey, Tally>

  function ScanTallies(q: Query, raw: map<Slot, seq<Row>>): Tallies {
    map k | k in ScanKeys(q, raw) :: TallyOf(Selected(q, k.slot.ns, raw[k.slot]), k.event)
  }

  function AddRowTo(days: Tallies, k: DayKey, row: Row): Tallies {
    var entry := if k in days then days[k] else Tally(0, {}, {}, 0.0);
    days[k := Tally(
      entry.count + 1,
      entry.users + (if row.userID != "" then {row.userID} else {}),
      entry.anons + (if row.anonID != "" then {row.anonID} else {}),
      entry.sum + Amount(row))]
  }

  lemma ScanKeysMean(q: Query, raw: map<Slot, seq<Row>>)
    ensures forall k :: k in ScanKeys(q, raw) <==>
      k.slot in raw && DayInRange(q, k.slot.date) && k.event in EventsOf(Selected(q, k.slot.ns, raw[k.slot]))
    ensures ScanTallies(q, raw).Keys == ScanKeys(q, raw)
  {
    hide DayInRange, Selected, TallyOf;
    forall k: DayKey | k.slot in raw && DayInRange(q, k.slot.date) && k.event in EventsOf(Selected(q, k.slot.ns, raw[k.slot]))
      ensures k in ScanKeys(q, raw)
    {
      assert k == DayKey(k.slot, k.event);
    }
  }

  lemma SelectedNext(q: Query, ns: string, rows: seq<Row>, i: nat)
    requires i < |rows|
    ensures Selected(q, ns, rows[..i + 1]) == if Picks(q, ns, rows[i]) then Selected(q, ns, rows[..i]) + [rows[i]] else Selected(q, ns, rows[..i])
  {
    assert rows[..i + 1][..i] == rows[..i];
  }

  /** The figures of one event after one more selected row. */
  lemma FiguresNext(seen: seq<Row>, row: Row, e: string)
    ensures e in EventsOf(seen + [row]) <==> e in EventsOf(seen) || e == row.event
    ensures
      var was := if e in EventsOf(seen) then TallyOf(seen, e) else Tally(0, {}, {}, 0.0);
      TallyOf(seen + [row], e) ==
        if e != row.event then TallyOf(seen, e)
        else
          Tally(
            was.count + 1,
            was.users + (if row.userID != "" then {row.userID} else {}),
            was.anons + (if row.anonID != "" then {row.anonID} else {}),
            was.sum + Amount(row))
  {
    EventsStep(seen, row);
    TallyStep(seen, row, e);
    if e !in EventsOf(seen) { AbsentEvent(seen, e); }
    hide EventsOf, CountOf, SumOf, UsersOf, AnonsOf;
  }

  lemma TalliesAt(q: Query, raw: map<Slot, seq<Row>>, k: DayKey)
    ensures k in ScanTallies(q, raw) <==>
      k.slot in raw && DayInRange(q, k.slot.date) && k.event in EventsOf(Selected(q, k.slot.ns, raw[k.slot]))
    ensures k in ScanTallies(q, raw) ==> ScanTallies(q, raw)[k] == TallyOf(Selected(q, k.slot.ns, raw[k.slot]), k.event)
  {
    ScanKeysMean(q, raw);
    hide DayInRange, Selected, TallyOf, ScanKeys;
  }

  /** The bar of one key after one more row of its day. */
  lemma TallyNext(q: Query, done: map<Slot, seq<Row>>, s: Slot, rows: seq<Row>, i: nat, k: DayKey)
    requires i < |rows| && DayInRange(q, s.date)
    ensures
      var was, now := ScanTallies(q, done[s := rows[..i]]), ScanTallies(q, done[s := rows[..i + 1]]);
      var next := if Picks(q, s.ns, rows[i]) then AddRowTo(was, DayKey(s, rows[i].event), rows[i]) else was;
      (k in now <==> k in next) && (k in now ==> now[k] == next[k])
  {
    hide Picks, DayInRange, ScanTallies, TallyOf, EventsOf, Selected;
    TalliesAt(q, done[s := rows[..i]], k);
    TalliesAt(q, done[s := rows[..i + 1]], k);
    if k.slot == s {
      SelectedNext(q, s.ns, rows, i);
      FiguresNext(Selected(q, s.ns, rows[..i]), rows[i], k.event);
    }
  }

  lemma TalliesNext(q: Query, done: map<Slot, seq<Row>>, s: Slot, rows: seq<Row>, i: nat)
    requires i < |rows| && DayInRange(q, s.date)
    ensures ScanTallies(q, done[s := rows[..i + 1]]) ==
      if Picks(q, s.ns, rows[i]) then AddRowTo(ScanTallies(q, done[s := rows[..i]]), DayKey(s, rows[i].event), rows[i])
      else ScanTallies(q, done[s := rows[..i]])
  {
    hide Picks, DayInRange, ScanTallies, AddRowTo;
    var was, now := ScanTallies(q, done[s := rows[..i]]), ScanTallies(q, done[s := rows[..i + 1]]);
    var next := if Picks(q, s.ns, rows[i]) then AddRowTo(was, DayKey(s, rows[i].event), rows[i]) else was;
    forall k: DayKey
      ensures (k in now <==> k in next) && (k in now ==> now[k] == next[k])
    {
      TallyNext(q, done, s, rows, i, k);
    }
  }

  function Users(rows: seq<Row>): set<string> {
    set r | r in rows && r.userID != "" :: r.userID
  }

  function Anons(rows: seq<Row>): set<string> {
    set r | r in rows && r.anonID != "" :: r.anonID
  }

  lemma PeoplePut(q: Query, done: map<Slot, seq<Row>>, s: Slot, rows: seq<Row>)
    requires s !in done
    ensures UsersSeen(q, done[s := rows]) == UsersSeen(q, done) + if DayInRange(q, s.date) then Users(Selected(q, s.ns, rows)) else {}
    ensures AnonsSeen(q, done[s := rows]) == AnonsSeen(q, done) + if DayInRange(q, s.date) then Anons(Selected(q, s.ns, rows)) else {}
  {
    hide DayInRange, Selected;
    UsersPut(q, done, s, rows);
    AnonsPut(q, done, s, rows);
  }

  lemma UsersPut(q: Query, done: map<Slot, seq<Row>>, s: Slot, rows: seq<Row>)
    requires s !in done
    ensures UsersSeen(q, done[s := rows]) == UsersSeen(q, done) + if DayInRange(q, s.date) then Users(Selected(q, s.ns, rows)) else {}
  {
    hide DayInRange, Selected;
    var more := done[s := rows];
    forall u | u in UsersSeen(q, done)
      ensures u in UsersSeen(q, more)
    {
      var t, r :| t in done && DayInRange(q, t.date) && r in Selected(q, t.ns, done[t]) && r.userID != "" && r.userID == u;
      assert t in more && more[t] == done[t];
    }
    if DayInRange(q, s.date) {
      assert s in more;
      assert forall u :: u in Users(Selected(q, s.ns, rows)) ==> u in UsersSeen(q, more);
    }
  }

  lemma AnonsPut(q: Query, done: map<Slot, seq<Row>>, s: Slot, rows: seq<Row>)
    requires s !in done
    ensures AnonsSeen(q, done[s := rows]) == AnonsSeen(q, done) + if DayInRange(q, s.date) then Anons(Selected(q, s.ns, rows)) else {}
  {
    hide DayInRange, Selected;
    var more := done[s := rows];
    forall u | u in AnonsSeen(q, done)
      ensures u in AnonsSeen(q, more)
    {
      var t, r :| t in done && DayInRange(q, t.date) && r in Selected(q, t.ns, done[t]) && r.anonID != "" && r.anonID == u;
      assert t in more && more[t] == done[t];
    }
    if DayInRange(q, s.date) {
      assert s in more;
      assert forall u :: u in Anons(Selected(q, s.ns, rows)) ==> u in AnonsSeen(q, more);
    }
  }

  /** Nothing of a day has been counted before its first row, nor ever of a day out of range. */
  lemma DayStart(q: Query, done: map<Slot, seq<Row>>, s: Slot, rows: seq<Row>)
    requires s !in done && (rows == [] || !DayInRange(q, s.date))
    ensures ScanTallies(q, done[s := rows]) == ScanTallies(q, done)
    ensures UsersSeen(q, done[s := rows]) == UsersSeen(q, done) && AnonsSeen(q, done[s := rows]) == AnonsSeen(q, done)
  {
    hide DayInRange, ScanTallies, UsersSeen, AnonsSeen, Picks;
    PeoplePut(q, done, s, rows);
    TalliesStart(q, done, s, rows);
  }

  lemma TalliesStart(q: Query, done: map<Slot, seq<Row>>, s: Slot, rows: seq<Row>)
    requires s !in done && (rows == [] || !DayInRange(q, s.date))
    ensures ScanTallies(q, done[s := rows]) == ScanTallies(q, done)
  {
    hide DayInRange, TallyOf, ScanTallies, Picks;
    var was, now := ScanTallies(q, done), ScanTallies(q, done[s := rows]);
    forall k: DayKey
      ensures (k in was <==> k in now) && (k in was ==> was[k] == now[k])
    {
      TalliesAt(q, done, k);
      TalliesAt(q, done[s := rows], k);
    }
  }

  lemma PeopleNext(q: Query, done: map<Slot, seq<Row>>, s: Slot, rows: seq<Row>, i: nat)
    requires s !in done && i < |rows| && DayInRange(q, s.date)
    ensures UsersSeen(q, done[s := rows[..i + 1]]) == UsersSeen(q, done[s := rows[..i]]) + if Picks(q, s.ns, rows[i]) && rows[i].userID != "" then {rows[i].userID} else {}
    ensures AnonsSeen(q, done[s := rows[..i + 1]]) == AnonsSeen(q, done[s := rows[..i]]) + if Picks(q, s.ns, rows[i]) && rows[i].anonID != "" then {rows[i].anonID} else {}
  {
    hide Picks, DayInRange, Selected, UsersSeen, AnonsSeen;
    SelectedNext(q, s.ns, rows, i);
    PeoplePut(q, done, s, rows[..i]);
    PeoplePut(q, done, s, rows[..i + 1]);
    PeopleGrow(Selected(q, s.ns, rows[..i]), rows[i]);
  }

  lemma PeopleGrow(seen: seq<Row>, row: Row)
    ensures Users(seen + [row]) == Users(seen) + if row.userID != "" then {row.userID} else {}
    ensures Anons(seen + [row]) == Anons(seen) + if row.anonID != "" then {row.anonID} else {}
  {
    assert forall r :: r in seen + [row] <==> r in seen || r == row;
  }

  lemma NothingScanned(q: Query)
    ensures ScanTallies(q, map[]) == map[] && UsersSeen(q, map[]) == {} && AnonsSeen(q, map[]) == {}
  {
  }

  function BarOf(t: Tally): Daily {
    Daily(t.count, |t.users|, |t.anons|, t.sum)
  }

  lemma TalliesAreDays(q: Query, raw: map<Slot, seq<Row>>)
    ensures (map k | k in ScanTallies(q, raw) :: BarOf(ScanTallies(q, raw)[k])) == ScanDays(q, raw)
  {
    ScanKeysMean(q, raw);
    hide ScanKeys, Selected, CountOf, SumOf, UsersOf, AnonsOf;
  }

  /** The scan's bars and their totals, in whatever order the map yields them. */
  method CountBars(tallies: Tallies) returns (days: Days, count: nat, sum: real)
    ensures days == map k | k in tallies :: BarOf(tallies[k])
    ensures Totals(days, count, sum)
  {
    days, count, sum := map[], 0, 0.0;
    assert Counts(map[]) == map[] && Sums(map[]) == map[];
    hide Totals;
    var rest := tallies.Keys;
    while rest != {}
      invariant rest <= tallies.Keys
      invariant days.Keys == tallies.Keys - rest && forall k :: k in days ==> days[k] == BarOf(tallies[k])
      invariant Totals(days, count, sum)
      decreases |rest|
    {
      var k :| k in rest;
      var d := BarOf(tallies[k]);
      TotalsPut(days, count, sum, k, d);
      days, count, sum := days[k := d], count + d.count, sum + d.sum;
      rest := rest - {k};
    }
  }
}
