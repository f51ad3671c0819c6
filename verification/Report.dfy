/** The whole answer of Summary: its window, its namespaces, its bars in order and its oldest raw day. */
module Report {
  import opened Prelude
  import opened Index
  import opened Summaries
  import opened Charts
  import opened Reader
  import Rows
  import Sorting

  datatype Bar = Bar(key: DayKey, figures: Daily)

  /** `rawFrom` is the oldest day with a directory. */
  datatype Report = Report(from: int, to: int, namespaces: seq<string>, bars: seq<Bar>, rawFrom: Option<int>, summary: Summary)

  // ---------------------------------------------------------------- bars in order

  /** By day, then namespace, then event. */
  predicate KeyLe(a: DayKey, b: DayKey) {
    a.slot.date < b.slot.date ||
    (a.slot.date == b.slot.date &&
     (StrLt(a.slot.ns, b.slot.ns) || (a.slot.ns == b.slot.ns && StrLe(a.event, b.event))))
  }

  lemma KeyLeTotal(a: DayKey, b: DayKey)
    ensures KeyLe(a, b) || KeyLe(b, a)
    ensures KeyLe(a, b) && KeyLe(b, a) ==> a == b
  {
    StrLeTotal(a.slot.ns, b.slot.ns);
    StrLeTotal(a.event, b.event);
  }

  lemma KeyLeTransitive(a: DayKey, b: DayKey, c: DayKey)
    requires KeyLe(a, b) && KeyLe(b, c)
    ensures KeyLe(a, c)
  {
    StrLeTotal(a.slot.ns, b.slot.ns);
    StrLeTotal(b.slot.ns, c.slot.ns);
    if a.slot.date == b.slot.date == c.slot.date {
      if StrLe(a.slot.ns, b.slot.ns) && StrLe(b.slot.ns, c.slot.ns) { StrLeTransitive(a.slot.ns, b.slot.ns, c.slot.ns); }
      if a.slot.ns == b.slot.ns == c.slot.ns { StrLeTransitive(a.event, b.event, c.event); }
    }
  }

  lemma KeyOrders()
    ensures Sorting.Orders((a: Bar, b: Bar) => KeyLe(a.key, b.key))
  {
    forall a: Bar, b: Bar ensures KeyLe(a.key, b.key) || KeyLe(b.key, a.key) { KeyLeTotal(a.key, b.key); }
    forall a: Bar, b: Bar, c: Bar | KeyLe(a.key, b.key) && KeyLe(b.key, c.key) ensures KeyLe(a.key, c.key) { KeyLeTransitive(a.key, b.key, c.key); }
  }

  /** Strictly ascending, and the days' figures, each once. */
  ghost predicate InOrder(bars: seq<Bar>, days: Days) {
    && (forall i, j :: 0 <= i < j < |bars| ==> KeyLe(bars[i].key, bars[j].key) && bars[i].key != bars[j].key)
    && (forall b :: b in bars <==> b.key in days && days[b.key] == b.figures)
  }

  /** Every place another bar: the list of a map's items. */
  ghost predicate Items(bars: seq<Bar>, days: Days) {
    && Distinct(bars) && forall b :: b in bars <==> b.key in days && days[b.key] == b.figures
  }

  lemma ItemsPut(bars: seq<Bar>, days: Days, k: DayKey, d: Daily)
    requires Items(bars, days) && k !in days
    ensures Items(bars + [Bar(k, d)], days[k := d])
  {
    assert Bar(k, d) !in bars;
  }

  method ListBars(days: Days) returns (bars: seq<Bar>)
    ensures Items(bars, days)
  {
    hide Items;
    bars := [];
    var rest := days.Keys;
    ghost var done: Days := map[];
    assert Items(bars, done) by { NoItems(); }
    while rest != {}
      invariant rest <= days.Keys && done == days - rest && Items(bars, done)
      decreases |rest|
    {
      var k :| k in rest;
      ItemsPut(bars, done, k, days[k]);
      bars := bars + [Bar(k, days[k])];
      done := done[k := days[k]];
      rest := rest - {k};
    }
    assert done == days;
  }

  lemma NoItems()
    ensures Items([], map[])
  {
  }

  lemma DistinctBag<T>(a: seq<T>, b: seq<T>)
    requires multiset(a) == multiset(b) && Distinct(b)
    ensures Distinct(a)
  {
    forall i, j | 0 <= i < j < |a|
      ensures a[i] != a[j]
    {
      OnceIn(b, a[i]);
      TwiceIn(a, i, j);
    }
  }

  lemma TwiceIn<T>(s: seq<T>, i: nat, j: nat)
    requires i < j < |s|
    ensures s[i] == s[j] ==> multiset(s)[s[i]] >= 2
  {
    assert s == s[..i] + [s[i]] + s[i + 1..j] + [s[j]] + s[j + 1..];
  }

  lemma OnceIn<T>(s: seq<T>, x: T)
    requires Distinct(s)
    ensures multiset(s)[x] <= 1
  {
    if x in s {
      var i :| 0 <= i < |s| && s[i] == x;
      assert s == s[..i] + [x] + s[i + 1..];
      assert x !in s[..i] && x !in s[i + 1..];
    }
  }

  /** Ascending: by day, at the same day by namespace, at the same namespace by event, both as in a dictionary. */
  ghost predicate Chronological(bars: seq<Bar>) {
    forall i, j :: 0 <= i < j < |bars| ==>
      var a, b := bars[i].key, bars[j].key;
      && a.slot.date <= b.slot.date
      && (a.slot.date == b.slot.date ==> a.slot.ns == b.slot.ns || Precedes(a.slot.ns, b.slot.ns))
      && (a.slot == b.slot ==> Precedes(a.event, b.event))
  }

  lemma InOrderIsChronological(bars: seq<Bar>, days: Days)
    requires InOrder(bars, days)
    ensures Chronological(bars)
  {
    hide Precedes;
    forall i, j | 0 <= i < j < |bars|
      ensures
        var a, b := bars[i].key, bars[j].key;
        && a.slot.date <= b.slot.date
        && (a.slot.date == b.slot.date ==> a.slot.ns == b.slot.ns || Precedes(a.slot.ns, b.slot.ns))
        && (a.slot == b.slot ==> Precedes(a.event, b.event))
    {
      var a, b := bars[i].key, bars[j].key;
      assert KeyLe(a, b) && a != b;
      StrLtIff(a.slot.ns, b.slot.ns);
      StrLtIff(a.event, b.event);
      StrLeTotal(a.event, b.event);
    }
  }

  method OrderBars(days: Days) returns (bars: seq<Bar>)
    ensures InOrder(bars, days) && Chronological(bars)
  {
    hide KeyLe, Chronological;
    var items := ListBars(days);
    var le := (a: Bar, b: Bar) => KeyLe(a.key, b.key);
    KeyOrders();
    bars := Sorting.Sort(le, items);
    Sorting.SameMembers(bars, items);
    DistinctBag(bars, items);
    forall i, j | 0 <= i < j < |bars|
      ensures KeyLe(bars[i].key, bars[j].key) && bars[i].key != bars[j].key
    {
      assert le(bars[i], bars[j]);
      assert bars[i] in bars && bars[j] in bars;
    }
    InOrderIsChronological(bars, days);
  }

  /** The order leaves no choice. */
  lemma {:induction false} OrderIsUnique(a: seq<Bar>, b: seq<Bar>, days: Days)
    requires InOrder(a, days) && InOrder(b, days)
    ensures a == b
    decreases |a|
  {
    hide KeyLe;
    BothEmpty(a, b, days);
    if a == [] {
    } else {
      FirstSame(a, b, days);
      var fewer := days - {a[0].key};
      Rest(a, days);
      Rest(b, days);
      OrderIsUnique(a[1..], b[1..], fewer);
      assert a == [a[0]] + a[1..] && b == [b[0]] + b[1..];
    }
  }

  lemma BothEmpty(a: seq<Bar>, b: seq<Bar>, days: Days)
    requires InOrder(a, days) && InOrder(b, days)
    ensures a == [] <==> b == []
  {
    if a != [] { assert a[0] in a; }
    if b != [] { assert b[0] in b; }
  }

  lemma FirstSame(a: seq<Bar>, b: seq<Bar>, days: Days)
    requires InOrder(a, days) && InOrder(b, days) && a != [] && b != []
    ensures a[0] == b[0]
  {
    assert a[0] in a && b[0] in b;
    assert a[0] in b && b[0] in a;
    KeyLeTotal(a[0].key, a[0].key);
    KeyLeTotal(b[0].key, b[0].key);
    KeyLeTotal(a[0].key, b[0].key);
    hide KeyLe;
    var i :| 0 <= i < |b| && b[i] == a[0];
    var j :| 0 <= j < |a| && a[j] == b[0];
    assert KeyLe(b[0].key, a[0].key) && KeyLe(a[0].key, b[0].key);
  }

  lemma Rest(bars: seq<Bar>, days: Days)
    requires InOrder(bars, days) && bars != []
    ensures InOrder(bars[1..], days - {bars[0].key})
  {
    hide KeyLe;
    assert bars == [bars[0]] + bars[1..];
  }

  // ---------------------------------------------------------------- namespaces and the oldest day

  /** Namespaces with a directory; on the index path also those with an index on a day in range. */
  function NamespacesOf(q: Query, listing: seq<Slot>, dated: seq<Slot>): set<string> {
    (set s | s in listing :: s.ns) + (if IndexOnly(q.filter) then set s | s in dated && DayInRange(q, s.date) :: s.ns else {})
  }

  /** What makes a namespace one of them. */
  ghost predicate Known(q: Query, listing: seq<Slot>, dated: seq<Slot>, ns: string) {
    || (exists s :: s in listing && s.ns == ns)
    || (IndexOnly(q.filter) && exists s :: s in dated && s.ns == ns && Rows.DateOf(From(q)) <= s.date <= Rows.DateOf(To(q)))
  }

  lemma NamespacesMean(q: Query, listing: seq<Slot>, dated: seq<Slot>, ns: string)
    ensures ns in NamespacesOf(q, listing, dated) <==> Known(q, listing, dated, ns)
  {
  }

  /** The same said of the store: a directory, or on the index path a daily index of a day in range. */
  ghost predicate InStore(q: Query, store: Store, ns: string) {
    || (exists s :: s in store && s.ns == ns && store[s].disk.dir)
    || (IndexOnly(q.filter) && exists s :: s in store && s.ns == ns && store[s].disk.daily.Some? && Rows.DateOf(From(q)) <= s.date <= Rows.DateOf(To(q)))
  }

  lemma KnownInStore(q: Query, store: Store, listing: seq<Slot>, dated: seq<Slot>, ns: string)
    requires Lists(listing, Dirs(store)) && Lists(dated, Dated(store))
    ensures Known(q, listing, dated, ns) <==> InStore(q, store, ns)
  {
    hide IndexOnly, Rows.DateOf, From, To;
    assert forall s :: s in listing <==> s in store && store[s].disk.dir;
    assert forall s :: s in dated <==> s in store && store[s].disk.daily.Some?;
  }

  /** The names are the known namespaces, ascending as in a dictionary. */
  ghost predicate NamesListed(q: Query, listing: seq<Slot>, dated: seq<Slot>, names: seq<string>) {
    && (forall i, j :: 0 <= i < j < |names| ==> Precedes(names[i], names[j]))
    && (forall n :: n in names <==> Known(q, listing, dated, n))
  }

  /** The members in ascending order, each once. */
  ghost predicate Ascending(names: seq<string>, members: set<string>) {
    (forall i, j :: 0 <= i < j < |names| ==> StrLt(names[i], names[j])) && forall n :: n in names <==> n in members
  }

  lemma StringOrders()
    ensures Sorting.Orders((a: string, b: string) => StrLe(a, b))
  {
    forall a, b ensures StrLe(a, b) || StrLe(b, a) { StrLeTotal(a, b); }
    forall a, b, c | StrLe(a, b) && StrLe(b, c) ensures StrLe(a, c) { StrLeTransitive(a, b, c); }
  }

  lemma DistinctPut<T>(s: seq<T>, x: T)
    requires Distinct(s) && x !in s
    ensures Distinct(s + [x])
  {
  }

  method SortNames(members: set<string>) returns (names: seq<string>)
    ensures Ascending(names, members)
  {
    hide StrLe;
    var list: seq<string> := [];
    var rest := members;
    while rest != {}
      invariant rest <= members && Distinct(list) && forall n :: n in list <==> n in members - rest
      decreases |rest|
    {
      var n :| n in rest;
      assert n !in list;
      DistinctPut(list, n);
      list := list + [n];
      rest := rest - {n};
    }
    var le := (a: string, b: string) => StrLe(a, b);
    StringOrders();
    names := Sorting.Sort(le, list);
    Sorting.SameMembers(names, list);
    DistinctBag(names, list);
    assert forall i, j :: 0 <= i < j < |names| ==> le(names[i], names[j]);
  }

  method Namespaces(q: Query, listing: seq<Slot>, dated: seq<Slot>) returns (names: seq<string>)
    ensures NamesListed(q, listing, dated, names)
  {
    hide Known, NamespacesOf, Precedes;
    names := SortNames(NamespacesOf(q, listing, dated));
    forall n ensures n in names <==> Known(q, listing, dated, n) { NamespacesMean(q, listing, dated, n); }
    forall i, j | 0 <= i < j < |names| ensures Precedes(names[i], names[j]) { StrLtIff(names[i], names[j]); }
  }

  /** The oldest day that has a directory. */
  ghost predicate OldestInStore(store: Store, day: Option<int>) {
    if day.None? then forall s :: s in store ==> !store[s].disk.dir
    else (forall s :: s in store && store[s].disk.dir ==> day.value <= s.date) && exists s :: s in store && store[s].disk.dir && s.date == day.value
  }

  lemma OldestListed(store: Store, listing: seq<Slot>, day: Option<int>)
    requires Lists(listing, Dirs(store)) && IsOldest(listing, day)
    ensures OldestInStore(store, day)
  {
    assert forall s :: s in listing <==> s in store && store[s].disk.dir;
    if day.None? {
      forall s | s in store ensures !store[s].disk.dir { assert s !in listing; }
    }
  }

  ghost predicate IsOldest(listing: seq<Slot>, day: Option<int>) {
    if day.None? then listing == []
    else (forall s :: s in listing ==> day.value <= s.date) && exists s :: s in listing && s.date == day.value
  }

  method Oldest(listing: seq<Slot>) returns (day: Option<int>)
    ensures IsOldest(listing, day)
  {
    day := None;
    for i := 0 to |listing|
      invariant IsOldest(listing[..i], day)
    {
      assert listing[..i + 1] == listing[..i] + [listing[i]];
      if day.None? || listing[i].date < day.value {
        day := Some(listing[i].date);
      }
      assert listing[i] in listing[..i + 1];
    }
    assert listing[..|listing|] == listing;
  }

  // ---------------------------------------------------------------- the answer

  /** Summary as a whole; a failed read in range is its error. */
  method Summarized(reader: Reader, q: Query, store: Store, listing: seq<Slot>, dated: seq<Slot>, broken: set<Slot>, ghost world: World)
    returns (result: Option<Report>)
    requires reader.Valid(world) && StoreOk(world, store)
    requires Lists(listing, Dirs(store)) && Lists(dated, Dated(store))
    modifies reader
    ensures reader.Valid(world)
    ensures result.None? ==> exists x :: x in broken && DayInRange(q, x.date) && (x in ServedBy(store) || x in Raw(store))
    ensures result.Some? ==>
      var r := result.value;
      && SummaryOk(q, store, r.summary) && InOrder(r.bars, r.summary.days) && Chronological(r.bars)
      && r.from == Rows.DateOf(From(q)) && r.to == Rows.DateOf(To(q))
      && (forall i, j :: 0 <= i < j < |r.namespaces| ==> Precedes(r.namespaces[i], r.namespaces[j]))
      && (forall n :: n in r.namespaces <==> InStore(q, store, n)) && OldestInStore(store, r.rawFrom)
  {
    forall n ensures Known(q, listing, dated, n) <==> InStore(q, store, n) { KnownInStore(q, store, listing, dated, n); }
    hide SummaryOk, StoreOk, InOrder, Chronological, Known, InStore, Precedes, OldestInStore, IsOldest, From, To, Lists, ServedBy, Raw, DayInRange, Rows.DateOf;
    var s := reader.Summarize(q, store, listing, dated, broken, world);
    if s.None? {
      return None;
    }
    var names := Namespaces(q, listing, dated);
    var oldest := Oldest(listing);
    OldestListed(store, listing, oldest);
    var bars := OrderBars(s.value.days);
    return Some(Report(Rows.DateOf(From(q)), Rows.DateOf(To(q)), names, bars, oldest, s.value));
  }
}
