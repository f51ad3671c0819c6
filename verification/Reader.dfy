/** Answering from the files alone: the index cache, the summary and the facets. */
module Reader {
  import opened Prelude
  import opened Rows
  import opened Index
  import opened Partition
  import opened PartitionSafety
  import opened IndexFreshness
  import opened Summaries
  import opened Facets
  import opened Charts
  import F = Filter
  import FacetRanking

  /** A namespace's day: its finished files as listed and its disk. */
  datatype View = View(order: seq<Name>, disk: Disk)

  type Store = map<Slot, View>

  /** Every file ever finished, by day; a name is used once. */
  type World = map<Slot, Files>

  ghost predicate ViewOk(world: World, s: Slot, v: View) {
    && s in world && IsListing(v.order, v.disk.files)
    && forall n :: n in v.disk.files ==> n in world[s] && world[s][n] == v.disk.files[n]
  }

  ghost predicate StoreOk(world: World, store: Store) {
    forall s :: s in store ==> ViewOk(world, s, store[s])
  }

  /** The stored index of a compacted day, else the index of its visible rows. */
  function Serve(v: View): Index {
    if IsCompact(v.order) && HasIndex(v.disk) then StoredIndex(v.disk) else IndexOf(Visible(v.disk, v.order))
  }

  /** Days with a directory answer first; a day whose directory is gone answers from its indexes. */
  function ServedBy(store: Store): map<Slot, Index> {
    map s | s in store && (store[s].disk.dir || HasIndex(store[s].disk)) ::
      if store[s].disk.dir then Serve(store[s]) else StoredIndex(store[s].disk)
  }

  function Raw(store: Store): map<Slot, seq<Row>> {
    map s | s in store && store[s].disk.dir :: Visible(store[s].disk, store[s].order)
  }

  datatype Cached = Cached(signature: seq<Name>, index: Index)

  /** Some slots, each once. */
  ghost predicate Lists(listing: seq<Slot>, slots: iset<Slot>) {
    Distinct(listing) && forall s :: s in listing <==> s in slots
  }

  function Dirs(store: Store): iset<Slot> {
    iset s | s in store && store[s].disk.dir
  }

  function Dated(store: Store): iset<Slot> {
    iset s | s in store && store[s].disk.daily.Some?
  }

  // ---------------------------------------------------------------- parts of a store

  /** Part of what is served or scanned: some of its days. */
  ghost predicate PartOf<T>(done: map<Slot, T>, whole: map<Slot, T>, slots: set<Slot>) {
    done.Keys == slots && forall s :: s in done ==> s in whole && done[s] == whole[s]
  }

  lemma PartPut<T>(done: map<Slot, T>, whole: map<Slot, T>, slots: set<Slot>, s: Slot)
    requires PartOf(done, whole, slots) && s in whole
    ensures PartOf(done[s := whole[s]], whole, slots + {s})
  {
  }

  lemma WholePart<T>(done: map<Slot, T>, whole: map<Slot, T>, slots: set<Slot>)
    requires PartOf(done, whole, slots) && whole.Keys <= slots
    ensures done == whole
  {
  }

  function Slots(listing: seq<Slot>): set<Slot> {
    set s | s in listing
  }

  lemma SlotsNext(listing: seq<Slot>, i: nat)
    requires i < |listing| && Distinct(listing)
    ensures Slots(listing[..i + 1]) == Slots(listing[..i]) + {listing[i]} && listing[i] !in Slots(listing[..i])
  {
  }

  // ---------------------------------------------------------------- the reader

  /** One partition's rows: its files read in order, deduplicated in place. */
  method ReadDay(v: View) returns (rows: seq<Row>)
    ensures rows == Visible(v.disk, v.order)
  {
    var all: seq<Row> := [];
    for i := 0 to |v.order|
      invariant all == ReadAll(v.disk.files, v.order[..i])
    {
      assert v.order[..i + 1][..i] == v.order[..i];
      all := all + if v.order[i] in v.disk.files then v.disk.files[v.order[i]] else [];
    }
    assert v.order[..|v.order|] == v.order;
    var buffer := new Row[|all|](i requires 0 <= i < |all| => all[i]);
    assert buffer[..] == all;
    var n := DedupeInPlace(buffer);
    rows := buffer[..n];
  }

  /** A cache entry is the index of the files its signature names. */
  ghost predicate CachedOk(world: World, s: Slot, c: Cached) {
    && s in world && (forall n :: n in c.signature ==> n in world[s])
    && c.index == IndexOf(Dedupe(ReadAll(world[s], c.signature)))
  }

  lemma CachedServes(world: World, s: Slot, v: View, c: Cached)
    requires ViewOk(world, s, v) && c.signature == v.order
    ensures CachedOk(world, s, c) <==> c.index == IndexOf(Visible(v.disk, v.order))
  {
    ReadAllFrame(v.disk.files, world[s], v.order);
  }

  class Reader {
    var cache: map<Slot, Cached>

    ghost predicate Valid(world: World)
      reads this
    {
      forall s :: s in cache ==> CachedOk(world, s, cache[s])
    }

    constructor ()
      ensures cache == map[]
    {
      cache := map[];
    }

    /** More files may be finished later; what is cached stays right. */
    lemma StillValid(world: World, later: World)
      requires Valid(world)
      requires forall s, n :: s in world && n in world[s] ==> s in later && n in later[s] && later[s][n] == world[s][n]
      requires world.Keys <= later.Keys
      ensures Valid(later)
    {
      forall s | s in cache
        ensures CachedOk(later, s, cache[s])
      {
        ReadAllFrame(world[s], later[s], cache[s].signature);
      }
    }

    /** The index of one day; `fails` is a read error. */
    method ReadIndex(s: Slot, v: View, fails: bool, ghost world: World) returns (index: Option<Index>)
      requires Valid(world) && ViewOk(world, s, v)
      modifies this
      ensures Valid(world)
      ensures index.Some? ==> index.value == Serve(v)
      ensures !fails ==> index.Some?
      ensures
        var stored := IsCompact(v.order) && HasIndex(v.disk);
        cache == if stored then old(cache) - {s} else if index.Some? then old(cache)[s := Cached(v.order, index.value)] else old(cache)
    {
      hide IndexOf, Visible, CachedOk, ViewOk;
      if IsCompact(v.order) && HasIndex(v.disk) {
        cache := cache - {s};
        return if fails then None else Some(StoredIndex(v.disk));
      }
      if s in cache && cache[s].signature == v.order {
        CachedServes(world, s, v, cache[s]);
        assert cache[s := Cached(v.order, cache[s].index)] == cache;
        return Some(cache[s].index);
      }
      if fails {
        return None;
      }
      var rows := ReadDay(v);
      var built := BuildIndex(rows);
      CachedServes(world, s, v, Cached(v.order, built));
      cache := cache[s := Cached(v.order, built)];
      return Some(built);
    }

    /** The index path of Summary: days with a directory, then days that only have indexes; a read that fails ends it. */
    method SummarizeIndexes(q: Query, store: Store, listing: seq<Slot>, dated: seq<Slot>, broken: set<Slot>, ghost world: World)
      returns (result: Option<Summary>)
      requires Valid(world) && StoreOk(world, store)
      requires Lists(listing, Dirs(store)) && Lists(dated, Dated(store))
      modifies this
      ensures Valid(world)
      ensures result.Some? ==> var s := result.value; Tallied(s) && !s.scanned && s.days == IndexDays(q, ServedBy(store))
      ensures result.None? ==> exists x :: x in broken && x in ServedBy(store) && InScope(q, x)
    {
      hide Tallied, IndexDays, SlotDays, InScope, Serve, ViewOk;
      var s := EMPTY;
      EmptyTallied(q);
      ghost var done: map<Slot, Index> := map[];
      for i := 0 to |listing|
        invariant Valid(world) && PartOf(done, ServedBy(store), Slots(listing[..i]))
        invariant Tallied(s) && !s.scanned && s.days == IndexDays(q, done)
      {
        var x := listing[i];
        assert x in Dirs(store);
        SlotsNext(listing, i);
        PartPut(done, ServedBy(store), Slots(listing[..i]), x);
        IndexDaysPut(q, done, x, ServedBy(store)[x]);
        if InScope(q, x) {
          var index := ReadIndex(x, store[x], x in broken, world);
          if index.None? {
            return None;
          }
          s := AddDaily(s, q, x, index.value.daily);
        }
        done := done[x := ServedBy(store)[x]];
      }
      assert listing[..|listing|] == listing;
      ghost var slots := Slots(listing);
      for i := 0 to |dated|
        invariant Valid(world) && PartOf(done, ServedBy(store), slots)
        invariant Slots(listing) <= slots && forall x :: x in dated[..i] && x in ServedBy(store) ==> x in slots
        invariant forall x :: x in dated && x !in dated[..i] && x !in listing ==> x !in slots
        invariant Tallied(s) && !s.scanned && s.days == IndexDays(q, done)
      {
        var x := dated[i];
        SlotsNext(dated, i);
        assert x in Dated(store) && (x in listing <==> x in Dirs(store));
        if x !in listing && HasIndex(store[x].disk) {
          PartPut(done, ServedBy(store), slots, x);
          IndexDaysPut(q, done, x, ServedBy(store)[x]);
          if InScope(q, x) {
            if x in broken {
              return None;
            }
            s := AddDaily(s, q, x, StoredIndex(store[x].disk).daily);
          }
          done := done[x := ServedBy(store)[x]];
          slots := slots + {x};
        }
      }
      assert dated[..|dated|] == dated;
      ServedListed(store, listing, dated, slots);
      WholePart(done, ServedBy(store), slots);
      return Some(s);
    }

    /** The scanning path: every raw row in range is tested and counted; a read that fails ends it. */
    method SummarizeRows(q: Query, store: Store, listing: seq<Slot>, broken: set<Slot>) returns (result: Option<Summary>)
      requires Lists(listing, Dirs(store))
      ensures result.Some? ==> var s := result.value; s.scanned && s.days == ScanDays(q, Raw(store)) && Totals(s.days, s.count, s.sum)
      ensures result.Some? ==> var s := result.value; s.users == |UsersSeen(q, Raw(store))| && s.anons == |AnonsSeen(q, Raw(store))|
      ensures result.None? <==> exists x :: x in broken && x in Raw(store) && DayInRange(q, x.date)
    {
      hide ScanTallies, ScanDays, UsersSeen, AnonsSeen, Picks, DayInRange, Totals, Visible, AddRowTo;
      var tallies: Tallies := map[];
      var users: set<string> := {};
      var anons: set<string> := {};
      ghost var done: map<Slot, seq<Row>> := map[];
      NothingScanned(q);
      for i := 0 to |listing|
        invariant PartOf(done, Raw(store), Slots(listing[..i]))
        invariant tallies == ScanTallies(q, done) && users == UsersSeen(q, done) && anons == AnonsSeen(q, done)
        invariant forall x :: x in done && DayInRange(q, x.date) ==> x !in broken
      {
        var x := listing[i];
        assert x in Dirs(store);
        SlotsNext(listing, i);
        PartPut(done, Raw(store), Slots(listing[..i]), x);
        if DayInRange(q, x.date) {
          if x in broken {
            return None;
          }
          var rows := ReadDay(store[x]);
          tallies, users, anons := CountDay(q, x, rows, tallies, users, anons, done);
        } else {
          DayStart(q, done, x, Raw(store)[x]);
        }
        done := done[x := Raw(store)[x]];
      }
      assert listing[..|listing|] == listing;
      RawListed(store, listing);
      WholePart(done, Raw(store), Slots(listing));
      var days, count, sum := CountBars(tallies);
      TalliesAreDays(q, done);
      return Some(Summary(days, count, sum, |users|, |anons|, true));
    }

    /** Summary's figures: the indexes when the filter allows it, else a scan. */
    method Summarize(q: Query, store: Store, listing: seq<Slot>, dated: seq<Slot>, broken: set<Slot>, ghost world: World)
      returns (result: Option<Summary>)
      requires Valid(world) && StoreOk(world, store)
      requires Lists(listing, Dirs(store)) && Lists(dated, Dated(store))
      modifies this
      ensures Valid(world)
      ensures result.Some? ==> SummaryOk(q, store, result.value)
      ensures result.None? ==> exists x :: x in broken && DayInRange(q, x.date) && (x in ServedBy(store) || x in Raw(store))
    {
      if IndexOnly(q.filter) {
        result := SummarizeIndexes(q, store, listing, dated, broken, world);
      } else {
        result := SummarizeRows(q, store, listing, broken);
      }
    }

    /** The index path of Facets; a read that fails ends it. */
    method FacetsFromIndexes(q: Query, key: string, store: Store, listing: seq<Slot>, dated: seq<Slot>, broken: set<Slot>, ghost world: World)
      returns (result: Option<map<Facets.Answer, nat>>)
      requires Valid(world) && StoreOk(world, store)
      requires Lists(listing, Dirs(store)) && Lists(dated, Dated(store))
      modifies this
      ensures Valid(world)
      ensures result.Some? ==> forall v :: CountAt(result.value, v) == StoredCount(q, key, ServedBy(store), v)
      ensures result.Some? && CountingStore(store) ==> NoZero(result.value)
      ensures result.None? ==> exists x :: x in broken && x in ServedBy(store) && InScope(q, x)
    {
      hide StoredCount, IndexCount, CountAt, InScope, Counting, Serve, ViewOk, StoredIndex, IsCompact, Visible;
      var counts: map<Facets.Answer, nat> := map[];
      ghost var done: map<Slot, Index> := map[];
      NothingStored(q, key);
      for i := 0 to |listing|
        invariant Valid(world) && PartOf(done, ServedBy(store), Slots(listing[..i]))
        invariant forall v :: CountAt(counts, v) == StoredCount(q, key, done, v)
        invariant CountingStore(store) ==> NoZero(counts)
      {
        var x := listing[i];
        assert x in Dirs(store);
        SlotsNext(listing, i);
        PartPut(done, ServedBy(store), Slots(listing[..i]), x);
        StoredPut(q, key, done, x, ServedBy(store)[x]);
        if InScope(q, x) {
          var index := ReadIndex(x, store[x], x in broken, world);
          if index.None? {
            return None;
          }
          counts := Collect(counts, q, key, index.value);
        }
        done := done[x := ServedBy(store)[x]];
      }
      assert listing[..|listing|] == listing;
      ghost var slots := Slots(listing);
      for i := 0 to |dated|
        invariant Valid(world) && PartOf(done, ServedBy(store), slots)
        invariant Slots(listing) <= slots && forall x :: x in dated[..i] && x in ServedBy(store) ==> x in slots
        invariant forall x :: x in dated && x !in dated[..i] && x !in listing ==> x !in slots
        invariant forall v :: CountAt(counts, v) == StoredCount(q, key, done, v)
        invariant CountingStore(store) ==> NoZero(counts)
      {
        var x := dated[i];
        SlotsNext(dated, i);
        assert x in Dated(store) && (x in listing <==> x in Dirs(store));
        if x !in listing && HasIndex(store[x].disk) {
          PartPut(done, ServedBy(store), slots, x);
          StoredPut(q, key, done, x, ServedBy(store)[x]);
          if InScope(q, x) {
            if x in broken {
              return None;
            }
            counts := Collect(counts, q, key, StoredIndex(store[x].disk));
          }
          done := done[x := ServedBy(store)[x]];
          slots := slots + {x};
        }
      }
      assert dated[..|dated|] == dated;
      ServedListed(store, listing, dated, slots);
      WholePart(done, ServedBy(store), slots);
      return Some(counts);
    }

    /** The scanning path of Facets: matching rows by namespace, then one index for each; a read that fails ends it. */
    method FacetsFromRows(q: Query, key: string, store: Store, listing: seq<Slot>, broken: set<Slot>)
      returns (result: Option<map<Facets.Answer, nat>>)
      requires Lists(listing, Dirs(store))
      ensures result.Some? ==> (forall v :: CountAt(result.value, v) == ScanCount(q, key, Raw(store), v)) && NoZero(result.value)
      ensures result.None? <==> exists x :: x in broken && x in Raw(store) && DayInRange(q, x.date)
    {
      hide ScanCount, NsCount, CountAt, NoZero, DayInRange, Visible, Matching, IndexOf, IndexCount, RowsCount;
      var byNs: map<string, seq<Row>> := map[];
      ghost var done: map<Slot, seq<Row>> := map[];
      NothingGathered(q, key);
      for i := 0 to |listing|
        invariant PartOf(done, Raw(store), Slots(listing[..i]))
        invariant forall v :: NsCount(q, key, byNs, v) == ScanCount(q, key, done, v)
        invariant forall x :: x in done && DayInRange(q, x.date) ==> x !in broken
      {
        var x := listing[i];
        assert x in Dirs(store);
        SlotsNext(listing, i);
        PartPut(done, Raw(store), Slots(listing[..i]), x);
        ScanPut(q, key, done, x, Raw(store)[x]);
        if DayInRange(q, x.date) {
          if x in broken {
            return None;
          }
          var rows := ReadDay(store[x]);
          var matched := Matches(q, x.ns, rows);
          GatherPut(q, key, byNs, x.ns, matched);
          byNs := GatherNs(byNs, x.ns, matched);
        }
        done := done[x := Raw(store)[x]];
      }
      assert listing[..|listing|] == listing;
      RawListed(store, listing);
      WholePart(done, Raw(store), Slots(listing));
      var counts := CountGathered(q, key, byNs);
      return Some(counts);
    }

    /** Facets: the counts of either path, most frequent first, at most fifty. */
    method ListFacets(q: Query, key: string, store: Store, listing: seq<Slot>, dated: seq<Slot>, broken: set<Slot>, ghost world: World)
      returns (result: Option<seq<FacetRanking.Facet>>)
      requires Valid(world) && StoreOk(world, store)
      requires Lists(listing, Dirs(store)) && Lists(dated, Dated(store))
      modifies this
      ensures Valid(world)
      ensures result.Some? ==>
        exists counts :: FacetCounts(q, key, store, counts) && FacetRanking.FirstFifty(result.value, counts)
      ensures result.None? ==> exists x :: x in broken && DayInRange(q, x.date) && (x in ServedBy(store) || x in Raw(store))
    {
      hide StoredCount, ScanCount, IndexOnly, FacetRanking.IsTop, FacetRanking.FirstFifty, Counting, ServedBy, Raw, CountAt, DayInRange;
      var counts;
      if IndexOnly(q.filter) {
        counts := FacetsFromIndexes(q, key, store, listing, dated, broken, world);
      } else {
        counts := FacetsFromRows(q, key, store, listing, broken);
      }
      if counts.None? {
        return None;
      }
      var list := FacetRanking.Rank(counts.value);
      assert FacetCounts(q, key, store, counts.value);
      return Some(list);
    }
  }

  /** The summary of a store: bars, totals and people, from the indexes when the filter allows it, else from rows. */
  ghost predicate SummaryOk(q: Query, store: Store, s: Summary) {
    && s.scanned == !IndexOnly(q.filter) && Totals(s.days, s.count, s.sum)
    && s.days == (if s.scanned then ScanDays(q, Raw(store)) else IndexDays(q, ServedBy(store)))
    && (if s.scanned then s.users == |UsersSeen(q, Raw(store))| && s.anons == |AnonsSeen(q, Raw(store))|
        else LargestUsers(s.days, s.users) && LargestAnons(s.days, s.anons))
  }

  /** What is counted for a facet: from the indexes when the filter allows it, else from rows; no answer is listed for nothing. */
  ghost predicate FacetCounts(q: Query, key: string, store: Store, counts: map<Facets.Answer, nat>) {
    && (forall v :: CountAt(counts, v) == if IndexOnly(q.filter) then StoredCount(q, key, ServedBy(store), v) else ScanCount(q, key, Raw(store), v))
    && (!IndexOnly(q.filter) || CountingStore(store) ==> forall v :: v in counts ==> counts[v] > 0)
  }

  /** No served index has a row that stands for nothing. */
  ghost predicate CountingStore(store: Store) {
    forall s :: s in ServedBy(store) ==> Counting(ServedBy(store)[s])
  }

  /** The rows of a day that match, in order. */
  method Matches(q: Query, ns: string, rows: seq<Row>) returns (matched: seq<Row>)
    ensures matched == Matching(q, ns, rows)
  {
    hide F.Match;
    matched := [];
    for i := 0 to |rows|
      invariant matched == Matching(q, ns, rows[..i])
    {
      assert rows[..i + 1][..i] == rows[..i];
      if F.Match(q.h, q.filter, rows[i], ns, q.now) {
        matched := matched + [rows[i]];
      }
    }
    assert rows[..|rows|] == rows;
  }

  /** The visit of one day's rows. */
  method CountDay(q: Query, x: Slot, rows: seq<Row>, tallies: Tallies, users: set<string>, anons: set<string>, ghost done: map<Slot, seq<Row>>)
    returns (tallies': Tallies, users': set<string>, anons': set<string>)
    requires x !in done && DayInRange(q, x.date)
    requires tallies == ScanTallies(q, done) && users == UsersSeen(q, done) && anons == AnonsSeen(q, done)
    ensures tallies' == ScanTallies(q, done[x := rows]) && users' == UsersSeen(q, done[x := rows]) && anons' == AnonsSeen(q, done[x := rows])
  {
    hide ScanTallies, UsersSeen, AnonsSeen, Picks, DayInRange, AddRowTo;
    tallies', users', anons' := tallies, users, anons;
    DayStart(q, done, x, rows[..0]);
    for j := 0 to |rows|
      invariant tallies' == ScanTallies(q, done[x := rows[..j]])
      invariant users' == UsersSeen(q, done[x := rows[..j]]) && anons' == AnonsSeen(q, done[x := rows[..j]])
    {
      TalliesNext(q, done, x, rows, j);
      PeopleNext(q, done, x, rows, j);
      if Picks(q, x.ns, rows[j]) {
        tallies' := AddRowTo(tallies', DayKey(x, rows[j].event), rows[j]);
        users' := users' + if rows[j].userID != "" then {rows[j].userID} else {};
        anons' := anons' + if rows[j].anonID != "" then {rows[j].anonID} else {};
      }
    }
    assert rows[..|rows|] == rows;
  }

  lemma RawListed(store: Store, listing: seq<Slot>)
    requires Lists(listing, Dirs(store))
    ensures Raw(store).Keys <= Slots(listing)
  {
    hide Visible;
    forall x | x in Raw(store)
      ensures x in Slots(listing)
    {
      assert x in Dirs(store);
      assert x in listing;
    }
  }

  lemma ServedListed(store: Store, listing: seq<Slot>, dated: seq<Slot>, slots: set<Slot>)
    requires Lists(listing, Dirs(store)) && Lists(dated, Dated(store))
    requires Slots(listing) <= slots && forall x :: x in dated && x in ServedBy(store) ==> x in slots
    ensures ServedBy(store).Keys <= slots
  {
    hide Serve;
    forall x | x in ServedBy(store)
      ensures x in slots
    {
      if x in Dirs(store) {
        assert x in listing;
        assert x in Slots(listing);
      } else {
        assert x in Dated(store);
        assert x in dated;
      }
    }
  }

  lemma EmptyTallied(q: Query)
    ensures Tallied(EMPTY) && EMPTY.days == IndexDays(q, map[])
  {
    assert Counts(map[]) == map[] && Sums(map[]) == map[];
  }
}
