/**
 What Summary and Facets answer from the indexes and what they answer by scanning, and when the
 two are the same.
 */
module Summaries {
  import opened Prelude
  import opened Rows
  import opened Index
  import F = Filter
  import Bags

  /** One namespace's day. */
  datatype Slot = Slot(date: int, ns: string)

  /** A filter asked at a moment. */
  datatype Query = Query(h: F.Host, filter: F.Filter, now: int)

  /** One bar of the summary chart. */
  datatype DayKey = DayKey(slot: Slot, event: string)

  type Days = map<DayKey, Daily>

  const DEFAULT_RANGE: int := 30 * DAY

  // ---------------------------------------------------------------- the window

  /** A filter without a lower bound covers the default range, one without an upper bound ends now. */
  function From(q: Query): int {
    var from := F.Range(q.filter, q.now).0;
    if from.None? then q.now - DEFAULT_RANGE else from.value
  }

  function To(q: Query): int {
    var to := F.Range(q.filter, q.now).1;
    if to.None? then q.now else to.value
  }

  predicate DayInRange(q: Query, date: int) {
    DateOf(From(q)) <= date <= DateOf(To(q))
  }

  /** Where the window starts: at the later of the filter's lower bounds, or thirty days ago without one. */
  lemma FromMeans(q: Query)
    requires q.filter.since >= 0
    ensures
      var since, from := q.now - q.filter.since, q.filter.from;
      && (q.filter.since > 0 ==> From(q) >= since) && (from.Some? ==> From(q) >= from.value)
      && ((From(q) == since && q.filter.since > 0) || from == Some(From(q)) || (q.filter.since == 0 && from == None && From(q) == q.now - 2_592_000_000_000_000))
  {
  }

  /** Where it ends: at the upper bound, or now. */
  lemma ToMeans(q: Query)
    ensures To(q) == match q.filter.to case Some(t) => t case None => q.now
  {
  }

  /** A day is in range exactly when it ends after the window's start and starts no later than its end. */
  lemma DayInRangeIff(q: Query, date: int)
    ensures DayInRange(q, date) <==> From(q) < (date + 1) * 86_400_000_000_000 && date * 86_400_000_000_000 <= To(q)
  {
    hide From, To;
    DayMeans(From(q), DateOf(From(q)));
    DayMeans(To(q), DateOf(To(q)));
  }

  /** The filters the indexes can answer: nothing but event names, event prefixes and namespaces is asked. */
  lemma IndexOnlyIff(f: F.Filter)
    ensures IndexOnly(f) <==>
      !exists t :: t in f.terms && match t.cond
        case EventIs(_) => false
        case EventPrefix(_) => false
        case FieldIs(field, _) => field != F.Ns
        case _ => true
  {
  }

  // ---------------------------------------------------------------- what the indexes can answer

  predicate IsNs(t: F.Term) {
    t.cond.FieldIs? && t.cond.field == F.Ns
  }

  predicate IsEvent(t: F.Term) {
    t.cond.EventIs? || t.cond.EventPrefix?
  }

  predicate IndexOnly(f: F.Filter) {
    forall t :: t in f.terms ==> IsEvent(t) || IsNs(t)
  }

  /** The filter reduced to some terms, without a time range. */
  function Only(terms: seq<F.Term>, keep: F.Term -> bool): (r: seq<F.Term>)
    ensures forall t :: t in r <==> t in terms && keep(t)
  {
    if terms == [] then [] else (if keep(terms[0]) then [terms[0]] else []) + Only(terms[1..], keep)
  }

  const BLANK: Row := Row(0, 0, "", "", [], "", "", "", "", None, "", None)

  predicate NsAllowed(q: Query, ns: string) {
    F.Match(q.h, F.Filter(Only(q.filter.terms, IsNs), 0, None, None), BLANK, ns, 0)
  }

  predicate EventAllowed(q: Query, event: string) {
    F.Match(q.h, F.Filter(Only(q.filter.terms, IsEvent), 0, None, None), BLANK.(event := event), "", 0)
  }

  /** The index rows' two tests and the time range are together the whole filter. */
  lemma TermSplit(q: Query, row: Row, ns: string)
    requires IndexOnly(q.filter)
    ensures F.Match(q.h, q.filter, row, ns, q.now) <==>
      F.InRange(F.Range(q.filter, q.now), row.ts) && NsAllowed(q, ns) && EventAllowed(q, row.event)
  {
    forall t | t in q.filter.terms
      ensures IsNs(t) ==> F.TermMatches(q.h, t, row, ns) == F.TermMatches(q.h, t, BLANK, ns)
      ensures IsEvent(t) ==> F.TermMatches(q.h, t, row, ns) == F.TermMatches(q.h, t, BLANK.(event := row.event), "")
    {
    }
  }

  // ---------------------------------------------------------------- selecting rows

  /** Inside the filter's own bounds and the window that stands in for missing ones. */
  predicate InWindow(q: Query, ts: int) {
    F.InRange(F.Range(q.filter, q.now), ts) && From(q) <= ts <= To(q)
  }

  /** A day in range of an allowed namespace. */
  predicate InScope(q: Query, s: Slot) {
    DayInRange(q, s.date) && NsAllowed(q, s.ns)
  }

  /** The rows of a day that a scan counts. */
  predicate Picks(q: Query, ns: string, row: Row) {
    F.Match(q.h, q.filter, row, ns, q.now) && From(q) <= row.ts <= To(q)
  }

  function Selected(q: Query, ns: string, rows: seq<Row>): seq<Row> {
    if rows == [] then []
    else
      Selected(q, ns, rows[..|rows| - 1]) +
      if Picks(q, ns, rows[|rows| - 1]) then [rows[|rows| - 1]] else []
  }

  lemma {:induction false} SelectedMember(q: Query, ns: string, rows: seq<Row>)
    ensures forall r :: r in Selected(q, ns, rows) <==> r in rows && Picks(q, ns, r)
  {
    hide Picks;
    if rows != [] {
      SelectedMember(q, ns, rows[..|rows| - 1]);
      assert rows == rows[..|rows| - 1] + [rows[|rows| - 1]];
    }
  }

  /** The rows of a day that match, whatever the default window. */
  function Matching(q: Query, ns: string, rows: seq<Row>): seq<Row> {
    if rows == [] then []
    else
      Matching(q, ns, rows[..|rows| - 1]) +
      if F.Match(q.h, q.filter, rows[|rows| - 1], ns, q.now) then [rows[|rows| - 1]] else []
  }

  lemma PicksSplit(q: Query, row: Row, ns: string)
    requires IndexOnly(q.filter)
    ensures Picks(q, ns, row) <==> NsAllowed(q, ns) && EventAllowed(q, row.event) && InWindow(q, row.ts)
  {
    hide F.Match, NsAllowed, EventAllowed;
    TermSplit(q, row, ns);
  }

  /** Every row of the event lies in the window. */
  ghost predicate Covered(q: Query, rows: seq<Row>, event: string) {
    forall r :: r in rows && r.event == event ==> InWindow(q, r.ts)
  }

  lemma SelectedStep(q: Query, ns: string, rows: seq<Row>, event: string)
    requires rows != []
    ensures
      var before, last := rows[..|rows| - 1], rows[|rows| - 1];
      var more := last.event == event && Picks(q, ns, last);
      && CountOf(Selected(q, ns, rows), event) == CountOf(Selected(q, ns, before), event) + (if more then 1 else 0)
      && SumOf(Selected(q, ns, rows), event) == SumOf(Selected(q, ns, before), event) + (if more then Amount(last) else 0.0)
  {
    hide Picks;
    var kept := Selected(q, ns, rows[..|rows| - 1]);
    var last := rows[|rows| - 1];
    assert (kept + [last])[..|kept|] == kept;
    assert kept + [] == kept;
  }

  lemma CoveredStep(q: Query, rows: seq<Row>, event: string)
    requires rows != []
    ensures
      var before, last := rows[..|rows| - 1], rows[|rows| - 1];
      Covered(q, rows, event) <==> Covered(q, before, event) && (last.event == event ==> InWindow(q, last.ts))
  {
    hide InWindow;
    assert rows == rows[..|rows| - 1] + [rows[|rows| - 1]];
  }

  /** A scan counts an allowed event's rows, less those outside the window. */
  lemma {:induction false} CountSelected(q: Query, ns: string, rows: seq<Row>, event: string)
    requires IndexOnly(q.filter) && NsAllowed(q, ns) && EventAllowed(q, event)
    ensures CountOf(Selected(q, ns, rows), event) <= CountOf(rows, event)
    ensures CountOf(Selected(q, ns, rows), event) == CountOf(rows, event) <==> Covered(q, rows, event)
    ensures Covered(q, rows, event) ==> SumOf(Selected(q, ns, rows), event) == SumOf(rows, event)
  {
    if rows == [] {
    } else {
      var before, last := rows[..|rows| - 1], rows[|rows| - 1];
      CountSelected(q, ns, before, event);
      PicksSplit(q, last, ns);
      SelectedStep(q, ns, rows, event);
      CoveredStep(q, rows, event);
      hide Picks, NsAllowed, EventAllowed, InWindow, IndexOnly, Selected, Covered, Amount;
    }
  }

  lemma PeopleSelected(q: Query, ns: string, rows: seq<Row>, event: string)
    requires IndexOnly(q.filter) && NsAllowed(q, ns) && EventAllowed(q, event)
    ensures UsersOf(Selected(q, ns, rows), event) <= UsersOf(rows, event)
    ensures AnonsOf(Selected(q, ns, rows), event) <= AnonsOf(rows, event)
    ensures Covered(q, rows, event) ==>
      UsersOf(Selected(q, ns, rows), event) == UsersOf(rows, event) && AnonsOf(Selected(q, ns, rows), event) == AnonsOf(rows, event)
  {
    hide Picks, NsAllowed, EventAllowed, InWindow, IndexOnly, Selected;
    SelectedMember(q, ns, rows);
    forall r | r in rows
      ensures Picks(q, ns, r) <==> EventAllowed(q, r.event) && InWindow(q, r.ts)
    {
      PicksSplit(q, r, ns);
    }
  }

  // ---------------------------------------------------------------- the two answers

  function IndexKeys(q: Query, served: map<Slot, Index>): set<DayKey> {
    set s, e | s in served && DayInRange(q, s.date) && NsAllowed(q, s.ns) && e in served[s].daily && EventAllowed(q, e) :: DayKey(s, e)
  }

  /** The bars added from indexes, stored or built. */
  function IndexDays(q: Query, served: map<Slot, Index>): Days {
    map k | k in IndexKeys(q, served) :: served[k.slot].daily[k.event]
  }

  function ScanKeys(q: Query, raw: map<Slot, seq<Row>>): set<DayKey> {
    set s, e | s in raw && DayInRange(q, s.date) && e in EventsOf(Selected(q, s.ns, raw[s])) :: DayKey(s, e)
  }

  function Figures(rows: seq<Row>, event: string): Daily {
    Daily(CountOf(rows, event), |UsersOf(rows, event)|, |AnonsOf(rows, event)|, SumOf(rows, event))
  }

  /** The bars counted from raw rows. */
  function ScanDays(q: Query, raw: map<Slot, seq<Row>>): Days {
    map k | k in ScanKeys(q, raw) :: Figures(Selected(q, k.slot.ns, raw[k.slot]), k.event)
  }

  function Indexed(raw: map<Slot, seq<Row>>): map<Slot, Index> {
    map s | s in raw :: IndexOf(raw[s])
  }

  function Counts(days: Days): map<DayKey, nat> {
    map k | k in days :: days[k].count
  }

  function Sums(days: Days): map<DayKey, real> {
    map k | k in days :: days[k].sum
  }

  /** Everyone a scan saw over the whole range. */
  function UsersSeen(q: Query, raw: map<Slot, seq<Row>>): set<string> {
    set s, r | s in raw && DayInRange(q, s.date) && r in Selected(q, s.ns, raw[s]) && r.userID != "" :: r.userID
  }

  function AnonsSeen(q: Query, raw: map<Slot, seq<Row>>): set<string> {
    set s, r | s in raw && DayInRange(q, s.date) && r in Selected(q, s.ns, raw[s]) && r.anonID != "" :: r.anonID
  }

  /** `n` is the largest single day, zero when there is none. */
  ghost predicate LargestUsers(days: Days, n: nat) {
    (forall k :: k in days ==> days[k].users <= n) && (n == 0 || exists k :: k in days && days[k].users == n)
  }

  ghost predicate LargestAnons(days: Days, n: nat) {
    (forall k :: k in days ==> days[k].anons <= n) && (n == 0 || exists k :: k in days && days[k].anons == n)
  }

  /** No row the filter's terms allow, on a day in range, is outside the window. */
  ghost predicate AllInWindow(q: Query, raw: map<Slot, seq<Row>>) {
    forall s, r :: s in raw && DayInRange(q, s.date) && NsAllowed(q, s.ns) && r in raw[s] && EventAllowed(q, r.event) ==> InWindow(q, r.ts)
  }

  lemma {:induction false} CountPositive(rows: seq<Row>, event: string)
    ensures CountOf(rows, event) > 0 <==> event in EventsOf(rows)
  {
    if rows == [] {
    } else {
      CountPositive(rows[..|rows| - 1], event);
      assert rows == rows[..|rows| - 1] + [rows[|rows| - 1]];
      EventsStep(rows[..|rows| - 1], rows[|rows| - 1]);
    }
  }

  /** The bar of one day and event in both answers. */
  lemma OneBar(q: Query, raw: map<Slot, seq<Row>>, k: DayKey)
    requires IndexOnly(q.filter)
    ensures k in ScanDays(q, raw) ==> k in IndexDays(q, Indexed(raw)) && ScanDays(q, raw)[k].count <= IndexDays(q, Indexed(raw))[k].count
    ensures k in IndexDays(q, Indexed(raw)) ==>
      IndexDays(q, Indexed(raw))[k].count > 0
      && (Covered(q, raw[k.slot], k.event) <==> k in ScanDays(q, raw) && ScanDays(q, raw)[k].count == IndexDays(q, Indexed(raw))[k].count)
      && (Covered(q, raw[k.slot], k.event) ==> k in ScanDays(q, raw) && ScanDays(q, raw)[k] == IndexDays(q, Indexed(raw))[k])
  {
    hide IndexOnly, DayInRange, NsAllowed, EventAllowed, Covered, CountOf, SumOf, UsersOf, AnonsOf, Selected, Picks;
    if k.slot in raw {
      var rows := raw[k.slot];
      var seen := Selected(q, k.slot.ns, rows);
      CountPositive(rows, k.event);
      CountPositive(seen, k.event);
      AllowedEvents(q, k.slot.ns, rows);
      if NsAllowed(q, k.slot.ns) && EventAllowed(q, k.event) {
        CountSelected(q, k.slot.ns, rows, k.event);
        PeopleSelected(q, k.slot.ns, rows, k.event);
      }
    }
  }

  /** A scan picks only allowed namespaces and events. */
  lemma AllowedEvents(q: Query, ns: string, rows: seq<Row>)
    requires IndexOnly(q.filter)
    ensures forall e :: e in EventsOf(Selected(q, ns, rows)) ==> NsAllowed(q, ns) && EventAllowed(q, e) && e in EventsOf(rows)
  {
    hide Picks, NsAllowed, EventAllowed, InWindow, IndexOnly, Selected;
    SelectedMember(q, ns, rows);
    forall r | r in rows
      ensures Picks(q, ns, r) ==> NsAllowed(q, ns) && EventAllowed(q, r.event)
    {
      PicksSplit(q, r, ns);
    }
  }

  lemma CoveredAll(q: Query, raw: map<Slot, seq<Row>>)
    ensures forall k :: k in IndexDays(q, Indexed(raw)) ==> k.slot in raw
    ensures AllInWindow(q, raw) <==> forall k :: k in IndexDays(q, Indexed(raw)) ==> Covered(q, raw[k.slot], k.event)
  {
    hide DayInRange, NsAllowed, EventAllowed, InWindow;
    if forall k :: k in IndexDays(q, Indexed(raw)) ==> Covered(q, raw[k.slot], k.event) {
      forall s, r | s in raw && DayInRange(q, s.date) && NsAllowed(q, s.ns) && r in raw[s] && EventAllowed(q, r.event)
        ensures InWindow(q, r.ts)
      {
        assert DayKey(s, r.event) in IndexDays(q, Indexed(raw));
      }
    }
  }

  /**
   For a filter the indexes can answer, the index path and the scan give the same bars if and only
   if no allowed row of a day in range lies outside the window; otherwise the index path counts
   more, never less. The same condition decides whether the two totals are equal.
   */
  lemma SummaryAgreesIff(q: Query, raw: map<Slot, seq<Row>>)
    requires IndexOnly(q.filter)
    ensures
      var scanned, indexed := ScanDays(q, raw), IndexDays(q, Indexed(raw));
      && (indexed == scanned <==> AllInWindow(q, raw))
      && (forall k :: k in scanned ==> k in indexed && scanned[k].count <= indexed[k].count)
      && Bags.Total(Counts(scanned)) <= Bags.Total(Counts(indexed))
      && (Bags.Total(Counts(scanned)) == Bags.Total(Counts(indexed)) <==> AllInWindow(q, raw))
  {
    hide IndexOnly, AllInWindow, Covered, ScanDays, IndexDays, Indexed, Counts;
    var scanned, indexed := ScanDays(q, raw), IndexDays(q, Indexed(raw));
    var same := set k: DayKey | k in indexed && k.slot in raw && Covered(q, raw[k.slot], k.event);
    CoveredAll(q, raw);
    assert AllInWindow(q, raw) <==> forall k :: k in indexed ==> k in same;
    forall k: DayKey
      ensures k in scanned ==> k in indexed && scanned[k].count <= indexed[k].count
      ensures k in indexed ==> indexed[k].count > 0
      ensures k in indexed ==> (k in same <==> k in scanned && scanned[k].count == indexed[k].count)
      ensures k in indexed && k in same ==> k in scanned && scanned[k] == indexed[k]
    {
      OneBar(q, raw, k);
    }
    DaysAgree(scanned, indexed, same);
  }

  /** Two charts of which the first is never higher, and equal just at the days `same` names. */
  lemma DaysAgree(scanned: Days, indexed: Days, same: set<DayKey>)
    requires forall k :: k in scanned ==> k in indexed && scanned[k].count <= indexed[k].count
    requires forall k :: k in indexed ==> indexed[k].count > 0
    requires forall k :: k in indexed ==> (k in same <==> k in scanned && scanned[k].count == indexed[k].count)
    requires forall k :: k in indexed && k in same ==> k in scanned && scanned[k] == indexed[k]
    ensures indexed == scanned <==> forall k :: k in indexed ==> k in same
    ensures Bags.Total(Counts(scanned)) <= Bags.Total(Counts(indexed))
    ensures Bags.Total(Counts(scanned)) == Bags.Total(Counts(indexed)) <==> forall k :: k in indexed ==> k in same
  {
    Bags.TotalLe(Counts(scanned), Counts(indexed));
    if forall k :: k in indexed ==> k in same {
      assert scanned.Keys == indexed.Keys;
      assert scanned == indexed;
    } else {
      var k :| k in indexed && k !in same;
      assert k in Counts(indexed) && Counts(indexed)[k] > 0;
    }
  }

  /** Rows on their own day and a window of whole days leave nothing outside. */
  lemma WholeDays(q: Query, raw: map<Slot, seq<Row>>)
    requires forall s, r :: s in raw && r in raw[s] ==> DateOf(r.ts) == s.date
    requires forall s :: s in raw && DayInRange(q, s.date) && NsAllowed(q, s.ns) ==> From(q) <= s.date * DAY && (s.date + 1) * DAY <= To(q)
    ensures AllInWindow(q, raw)
  {
    hide NsAllowed, EventAllowed;
    forall s, r | s in raw && DayInRange(q, s.date) && NsAllowed(q, s.ns) && r in raw[s] && EventAllowed(q, r.event)
      ensures InWindow(q, r.ts)
    {
      assert DateOf(r.ts) == s.date;
      assert s.date * DAY <= r.ts < (s.date + 1) * DAY;
    }
  }

  /**
   A date-only upper bound is the midnight that ends its day, so the following day is in range:
   the index path counts that whole day and a scan none of it.
   */
  lemma DateOnlyEnd(q: Query, raw: map<Slot, seq<Row>>, s: Slot, r: Row)
    requires IndexOnly(q.filter) && q.filter.to.Some? && q.filter.to.value % DAY == 0 && From(q) <= To(q)
    requires s in raw && s.date == DateOf(q.filter.to.value) && DateOf(r.ts) == s.date
    requires r in raw[s] && NsAllowed(q, s.ns) && EventAllowed(q, r.event)
    ensures DayInRange(q, s.date) && !InWindow(q, r.ts)
    ensures Bags.Total(Counts(ScanDays(q, raw))) < Bags.Total(Counts(IndexDays(q, Indexed(raw))))
  {
    hide NsAllowed, EventAllowed, IndexOnly, ScanDays, IndexDays, Indexed;
    MidnightEnd(q, s.date, r.ts);
    SummaryAgreesIff(q, raw);
  }

  lemma MidnightEnd(q: Query, date: int, ts: int)
    requires q.filter.to.Some? && q.filter.to.value % DAY == 0 && From(q) <= To(q)
    requires date == DateOf(q.filter.to.value) == DateOf(ts)
    ensures DayInRange(q, date) && !InWindow(q, ts)
  {
    DateMonotone(From(q), To(q));
    assert q.filter.to.value == date * DAY;
    assert date * DAY <= ts;
  }

  lemma DateMonotone(a: int, b: int)
    requires a <= b
    ensures DateOf(a) <= DateOf(b)
  {
  }

  /** The largest single day never exceeds the distinct people of the whole range. */
  lemma UsersBelow(q: Query, raw: map<Slot, seq<Row>>, n: nat)
    requires IndexOnly(q.filter) && AllInWindow(q, raw) && LargestUsers(IndexDays(q, Indexed(raw)), n)
    ensures n <= |UsersSeen(q, raw)|
  {
    hide IndexOnly, AllInWindow, DayInRange, Selected;
    SummaryAgreesIff(q, raw);
    if n > 0 {
      var k :| k in ScanDays(q, raw) && ScanDays(q, raw)[k].users == n;
      var users := UsersOf(Selected(q, k.slot.ns, raw[k.slot]), k.event);
      assert users <= UsersSeen(q, raw);
      Bags.SubsetSize(users, UsersSeen(q, raw));
    }
  }

  lemma AnonsBelow(q: Query, raw: map<Slot, seq<Row>>, n: nat)
    requires IndexOnly(q.filter) && AllInWindow(q, raw) && LargestAnons(IndexDays(q, Indexed(raw)), n)
    ensures n <= |AnonsSeen(q, raw)|
  {
    hide IndexOnly, AllInWindow, DayInRange, Selected;
    SummaryAgreesIff(q, raw);
    if n > 0 {
      var k :| k in ScanDays(q, raw) && ScanDays(q, raw)[k].anons == n;
      var anons := AnonsOf(Selected(q, k.slot.ns, raw[k.slot]), k.event);
      assert anons <= AnonsSeen(q, raw);
      Bags.SubsetSize(anons, AnonsSeen(q, raw));
    }
  }
}
