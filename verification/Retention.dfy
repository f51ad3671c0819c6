/**
 The retention pass that follows compaction: which answers of the index paths survive the removal
 of a day, and what late rows do to them.
 */
module Retention {
  import opened Rows
  import opened Index
  import opened Partition
  import opened PartitionSafety
  import opened Maintenance
  import opened IndexFreshness
  import opened IndexContent
  import opened Summaries
  import opened Facets
  import opened Reader
  import opened ReaderRuns
  import Bags
  import Recompaction

  // ---------------------------------------------------------------- one day, removed and then left alone

  /** Nothing but indexes is left, and the maintenance run does nothing about it. */
  ghost predicate Bare(s: State, indexes: Disk) {
    && s.disk == Emptied(s.disk)
    && s.disk.daily == indexes.daily && s.disk.facets == indexes.facets && s.disk.keys == indexes.keys
    && (s.pc.Idle? || s.pc == Recovering(ReadJournal, ToListing) || s.pc.Listing?)
  }

  lemma BareStep(s: State, indexes: Disk, a: Action)
    requires Bare(s, indexes) && !a.Append?
    ensures Bare(Apply(s, a), indexes)
  {
    hide Compacted, IndexOf, ReadAll;
    if a.Advance? && s.pc.Listing? && IsListing(a.order, s.disk.files) {
      ListingEmpty(a.order, s.disk.files);
    }
  }

  lemma {:induction false} BareRun(s: State, indexes: Disk, run: seq<Action>)
    requires Bare(s, indexes) && forall i :: 0 <= i < |run| ==> !run[i].Append?
    ensures Bare(Exec(s, run), indexes)
  {
    hide Bare, Apply;
    if run == [] {
    } else {
      BareRun(s, indexes, run[..|run| - 1]);
      BareStep(Exec(s, run[..|run| - 1]), indexes, run[|run| - 1]);
    }
  }

  /**
   The stored index outlives its rows: once retention removes a day that was served from its index,
   that index stays the index of the rows a reader saw before, through any further maintenance,
   removals and crashes, until the next append.
   */
  lemma IndexOutlivesRows(run: seq<Action>, order: seq<Name>, rest: seq<Action>)
    requires Uninterrupted(run) && Exec(INIT, run).pc.Idle? && IndexFreshness.Served(Exec(INIT, run).disk, order)
    requires forall i :: 0 <= i < |rest| ==> !rest[i].Append?
    ensures
      var d := Exec(INIT, run + ([PruneFiles] + rest)).disk;
      d.files == map[] && HasIndex(d) && StoredIndex(d) == IndexOf(Visible(Exec(INIT, run).disk, order))
  {
    var s := Exec(INIT, run);
    ServedIndexIsFresh(run, order);
    ExecAppend(INIT, run, [PruneFiles] + rest);
    ExecAppend(s, [PruneFiles], rest);
    ExecOne(s, PruneFiles);
    BareRun(Apply(s, PruneFiles), s.disk, rest);
    hide Exec, IndexOf, Visible;
  }

  /**
   Late rows end that: the first of them reopens the directory, and the next turn overwrites the
   stored index with one of the late rows alone, so the old counts are gone from every answer.
   */
  lemma LateRowsReplaceIndex(s: State, batch: nat, rows: seq<Row>, id: nat) returns (turn: seq<Action>, s': State)
    requires Inv(s) && s.pc.Idle? && s.disk.files == map[] && s.disk.journal.None? && s.appended == []
    requires Batch(batch) !in s.ever && Day(id) !in s.ever
    ensures Undisturbed(turn) && s' == Exec(s, [Append(batch, rows)] + turn)
    ensures s'.pc.Idle? && s'.appended == rows && s'.disk.files == map[Day(id) := Compacted(rows)]
    ensures IndexFreshness.Served(s'.disk, [Day(id)]) && StoredIndex(s'.disk) == IndexOf(Dedupe(rows))
    ensures IndexOf(Visible(Apply(s, Append(batch, rows)).disk, [Batch(batch)])) == IndexOf(Dedupe(rows))
  {
    hide Exec, IndexOf, Compacted, Dedupe, Inv, RunStep;
    var a := Append(batch, rows);
    var order := [Batch(batch)];
    StepKeeps(s, a);
    ExecOne(s, a);
    var s1 := Apply(s, a);
    OneBatch(s1.disk, batch, rows);
    turn, s' := TurnFinishes(s1, order, id);
    ExecAppend(s, [a], turn);
    MergedAlone(s1.disk, order, id);
    MergedIndex(s1.disk.files, order);
    assert [Day(id)][0] == Day(id);
  }

  lemma OneBatch(d: Disk, batch: nat, rows: seq<Row>)
    requires d.files == map[Batch(batch) := rows] && d.journal.None?
    ensures IsListing([Batch(batch)], RecoverDisk(d).files) && RecoverDisk(d) == d
    ensures ReadAll(d.files, [Batch(batch)]) == rows
  {
    ReadTwo(d.files, Batch(batch), Batch(batch));
  }

  // ---------------------------------------------------------------- the pass over a store

  /** The days older than the retention; a zero or negative retention keeps everything. */
  predicate Expired(s: Slot, retention: int, now: int) {
    retention > 0 && s.date < DateOf(now - retention)
  }

  /**
   A day goes exactly when a retention is set and the last moment of the day is at least that long ago; no
   retention, and a negative one, keeps everything.
   */
  lemma GoesIff(store: Store, s: Slot, retention: int, now: int)
    ensures Goes(store, s, retention, now) <==>
      s in store && store[s].disk.dir && retention > 0 && (s.date + 1) * 86_400_000_000_000 <= now - retention
  {
    DayMeans(now - retention, DateOf(now - retention));
  }

  /** A day whose directory is gone; its index files lie elsewhere and stay. */
  function Removed(v: View): View {
    View([], Emptied(v.disk).(dir := false))
  }

  predicate Goes(store: Store, s: Slot, retention: int, now: int) {
    s in store && store[s].disk.dir && Expired(s, retention, now)
  }

  function PrunedStore(store: Store, retention: int, now: int): Store {
    map s | s in store :: if Goes(store, s, retention, now) then Removed(store[s]) else store[s]
  }

  /** The loop over the listed directories. */
  method Prune(store: Store, listing: seq<Slot>, retention: int, now: int) returns (r: Store)
    requires Lists(listing, Dirs(store))
    ensures r == PrunedStore(store, retention, now)
  {
    hide Removed, Expired;
    r := store;
    for i := 0 to |listing|
      invariant r.Keys == store.Keys
      invariant forall s :: s in store ==> r[s] == if s in listing[..i] && Expired(s, retention, now) then Removed(store[s]) else store[s]
    {
      assert listing[i] in Dirs(store);
      if Expired(listing[i], retention, now) {
        r := r[listing[i] := Removed(store[listing[i]])];
      }
    }
    assert listing[..|listing|] == listing;
    assert forall s :: s in store ==> (s in listing <==> s in Dirs(store));
  }

  ghost function PrunedRuns(store: Store, runs: Runs, retention: int, now: int): Runs {
    map s | s in runs :: if Goes(store, s, retention, now) then runs[s] + [PruneFiles, RemoveDir] else runs[s]
  }

  /** No maintenance of another kind is under way on the days that go. */
  ghost predicate Resting(store: Store, runs: Runs, retention: int, now: int)
    requires FromRuns(store, runs)
  {
    forall s :: Goes(store, s, retention, now) ==> Exec(INIT, runs[s]).pc.Idle?
  }

  lemma RemovedRun(v: View, run: seq<Action>)
    requires v.disk == Exec(INIT, run).disk && Exec(INIT, run).pc.Idle?
    ensures Exec(INIT, run + [PruneFiles, RemoveDir]).disk == Removed(v).disk && Exec(INIT, run + [PruneFiles, RemoveDir]).pc.Idle?
    ensures IsListing(Removed(v).order, Removed(v).disk.files)
    ensures Uninterrupted(run) ==> Uninterrupted(run + [PruneFiles, RemoveDir])
  {
    var s := Exec(INIT, run);
    var one, both := run + [PruneFiles], run + [PruneFiles, RemoveDir];
    assert both[..|both| - 1] == one && one[..|one| - 1] == run;
    assert Exec(INIT, both) == Apply(Apply(s, PruneFiles), RemoveDir);
    assert Uninterrupted(run) ==> Uninterrupted(one);
  }

  /** A store after the pass is again one that runs left, so all that is proved of those holds of it. */
  lemma PassIsRuns(store: Store, runs: Runs, retention: int, now: int)
    requires FromRuns(store, runs) && Calm(store, runs) && Resting(store, runs, retention, now)
    ensures
      var pruned, longer := PrunedStore(store, retention, now), PrunedRuns(store, runs, retention, now);
      FromRuns(pruned, longer) && Calm(pruned, longer)
  {
    hide Exec, Uninterrupted, Goes, Removed, IndexFreshness.InWindow;
    forall s | s in store && Goes(store, s, retention, now)
      ensures
        var run := runs[s] + [PruneFiles, RemoveDir];
        && Removed(store[s]).disk == Exec(INIT, run).disk && IsListing(Removed(store[s]).order, Removed(store[s]).disk.files)
        && Uninterrupted(run) && !IndexFreshness.InWindow(Exec(INIT, run).pc)
    {
      RemovedRun(store[s], runs[s]);
      IdleOutside(Exec(INIT, runs[s] + [PruneFiles, RemoveDir]).pc);
    }
  }

  lemma IdleOutside(pc: Pc)
    requires pc.Idle?
    ensures !IndexFreshness.InWindow(pc)
  {
  }

  // ---------------------------------------------------------------- what the index paths tell

  const SILENT: Index := Index(map[], map[], map[])

  /** The indexes that tell anything. */
  function Told(served: map<Slot, Index>): map<Slot, Index> {
    map s | s in served && served[s] != SILENT :: served[s]
  }

  lemma ToldDays(q: Query, served: map<Slot, Index>)
    ensures IndexDays(q, Told(served)) == IndexDays(q, served)
  {
    hide DayInRange, NsAllowed, EventAllowed;
    assert IndexKeys(q, Told(served)) == IndexKeys(q, served);
  }

  lemma ToldCounts(q: Query, key: string, served: map<Slot, Index>, v: Facets.Answer)
    ensures StoredCount(q, key, Told(served), v) == StoredCount(q, key, served, v)
  {
    var all, told := StoredCounts(q, key, served, v), StoredCounts(q, key, Told(served), v);
    hide InScope, FacetLabel, KeyLabel;
    LabelledEmpty(KeyLabel(q), v);
    LabelledEmpty(FacetLabel(q, key), v);
    hide LabelledTotal;
    Bags.TotalSplit(all, told.Keys);
    assert Bags.Restrict(all, told.Keys) == told;
    Bags.TotalZero(all - told.Keys);
  }

  lemma SilentIff(rows: seq<Row>)
    ensures IndexOf(rows) == SILENT <==> rows == []
  {
    RowsAreCounted(rows);
    if rows == [] {
      assert EventsOf(rows) == {};
    }
  }

  // ---------------------------------------------------------------- what removal costs

  /** An indexed day with a directory still has a day file: no late rows await their first turn. */
  ghost predicate Ordinary(v: View) {
    HasIndex(v.disk) ==> exists n :: n in v.disk.files && n.Day?
  }

  /**
   The files of the day hold nothing its indexes lack: with indexes, no other file has a row new to
   the day file; without them there is no row at all.
   */
  ghost predicate Backed(v: View) {
    if HasIndex(v.disk) then forall n :: n in v.disk.files && n.Day? ==> !Adds(v.disk.files, n)
    else forall n :: n in v.disk.files ==> v.disk.files[n] == []
  }

  lemma {:induction false} NoRows(files: Files, order: seq<Name>)
    ensures ReadAll(files, order) == [] <==> forall n :: n in order && n in files ==> files[n] == []
  {
    if order == [] {
    } else {
      NoRows(files, order[..|order| - 1]);
      assert order == order[..|order| - 1] + [order[|order| - 1]];
    }
  }

  lemma NoDedupe(rows: seq<Row>)
    ensures Dedupe(rows) == [] <==> rows == []
  {
    DedupeKeeps(rows);
    if rows != [] {
      var first := rows[0];
      if first.eid != 0 {
        assert first.eid in Eids(Dedupe(rows));
      } else {
        ZerosMember(rows);
        assert first in Zeros(rows);
      }
    }
  }

  lemma DayBacked(v: View, run: seq<Action>)
    requires v.disk == Exec(INIT, run).disk && IsListing(v.order, v.disk.files) && Alike(ReadAll(v.disk.files, v.order))
    requires Uninterrupted(run) && Exec(INIT, run).pc.Idle? && Ordinary(v)
    ensures Backed(v) <==> Serve(v) == if HasIndex(v.disk) then StoredIndex(v.disk) else SILENT
  {
    ServeIsVisible(v, run);
    if HasIndex(v.disk) {
      IndexedBacked(v, run);
    } else {
      UnindexedBacked(v);
    }
  }

  lemma IndexedBacked(v: View, run: seq<Action>)
    requires v.disk == Exec(INIT, run).disk && IsListing(v.order, v.disk.files) && Alike(ReadAll(v.disk.files, v.order))
    requires Uninterrupted(run) && Exec(INIT, run).pc.Idle? && Ordinary(v) && HasIndex(v.disk)
    ensures Backed(v) <==> IndexOf(Visible(v.disk, v.order)) == StoredIndex(v.disk)
  {
    hide IndexOf, Dedupe, ReadAll, Exec, Alike, Adds, AddsTags, AddsData, IsListing;
    ExecFresh(run);
    forall n | n in v.disk.files && n.Day?
      ensures !Adds(v.disk.files, n) <==> IndexOf(Visible(v.disk, v.order)) == StoredIndex(v.disk)
    {
      DayFileIndexed(Exec(INIT, run), n);
      SameIndexIff(v.disk.files, v.order, n);
      Recompaction.TagsAdd(v.disk.files, n);
    }
  }

  lemma DayFileIndexed(s: State, n: Name)
    requires Fresh(s) && s.pc.Idle? && HasIndex(s.disk) && n in s.disk.files && n.Day?
    ensures Unique(s.disk.files[n]) && IndexOf(s.disk.files[n]) == StoredIndex(s.disk)
  {
    hide IndexOf, ContentOk, JournalOk;
  }

  lemma UnindexedBacked(v: View)
    requires IsListing(v.order, v.disk.files) && !HasIndex(v.disk)
    ensures Backed(v) <==> IndexOf(Visible(v.disk, v.order)) == SILENT
  {
    hide IndexOf, Dedupe, ReadAll;
    SilentIff(Visible(v.disk, v.order));
    NoDedupe(ReadAll(v.disk.files, v.order));
    NoRows(v.disk.files, v.order);
  }

  /**
   The pass keeps every answer of the index paths exactly when the files of each day that goes hold
   nothing its indexes lack.
   */
  lemma PassKeepsAnswersIff(store: Store, runs: Runs, retention: int, now: int)
    requires FromRuns(store, runs) && Calm(store, runs) && Resting(store, runs, retention, now)
    requires forall s :: Goes(store, s, retention, now) ==> Ordinary(store[s]) && Alike(ReadAll(store[s].disk.files, store[s].order))
    ensures Told(ServedBy(PrunedStore(store, retention, now))) == Told(ServedBy(store)) <==>
      forall s :: Goes(store, s, retention, now) ==> Backed(store[s])
  {
    var before, after := ServedBy(store), ServedBy(PrunedStore(store, retention, now));
    hide Backed, Ordinary, Alike, Exec, Uninterrupted, Serve, IndexOf, ReadAll, IsListing;
    forall s | Goes(store, s, retention, now)
      ensures Backed(store[s]) <==> Serve(store[s]) == if HasIndex(store[s].disk) then StoredIndex(store[s].disk) else SILENT
    {
      DayBacked(store[s], runs[s]);
    }
    hide FromRuns, Calm, Resting;
    forall s
      ensures !Goes(store, s, retention, now) ==> Tells(after, s) == Tells(before, s)
      ensures Goes(store, s, retention, now) ==> (Tells(after, s) == Tells(before, s) <==> Backed(store[s]))
    {
      PassTells(store, s, retention, now);
    }
    hide ServedBy, PrunedStore, Goes;
    ToldSame(before, after);
  }

  function Tells(served: map<Slot, Index>, s: Slot): Index {
    if s in served then served[s] else SILENT
  }

  lemma ToldSame(a: map<Slot, Index>, b: map<Slot, Index>)
    ensures Told(a) == Told(b) <==> forall s :: Tells(a, s) == Tells(b, s)
  {
    if Told(a) == Told(b) {
      forall s
        ensures Tells(a, s) == Tells(b, s)
      {
        assert s in Told(a) <==> s in Told(b);
        if s in Told(a) { assert Told(a)[s] == Told(b)[s]; }
      }
    } else if forall s :: Tells(a, s) == Tells(b, s) {
      forall s
        ensures (s in Told(a) <==> s in Told(b)) && (s in Told(a) ==> Told(a)[s] == Told(b)[s])
      {
        assert Tells(a, s) == Tells(b, s);
      }
    }
  }

  lemma PassTells(store: Store, s: Slot, retention: int, now: int)
    ensures
      var before, after := ServedBy(store), ServedBy(PrunedStore(store, retention, now));
      if Goes(store, s, retention, now) then
        Tells(before, s) == Serve(store[s]) && Tells(after, s) == if HasIndex(store[s].disk) then StoredIndex(store[s].disk) else SILENT
      else Tells(after, s) == Tells(before, s)
  {
    hide Serve, Expired;
  }

  /** What a turn without failure leaves: one day file with all three indexes, or no file at all. */
  ghost predicate Done(v: View) {
    Settled(v.disk) || (v.disk.files == map[] && v.disk.journal.None? && !HasIndex(v.disk))
  }

  lemma DoneBacked(v: View)
    requires Done(v)
    ensures Ordinary(v) && Backed(v)
  {
    if Settled(v.disk) {
      var n :| SingleDay(v.disk.files, n);
      var files := v.disk.files;
      assert forall m :: m in files <==> m == n;
      assert !Adds(files, n);
    }
  }

  /**
   A maintenance pass that does not fail loses no answer: when compaction has settled every expired
   day, the removal that follows changes nothing any summary or facet tells.
   */
  lemma PassAfterTurnsKeepsAnswers(store: Store, runs: Runs, retention: int, now: int)
    requires FromRuns(store, runs) && Calm(store, runs) && Resting(store, runs, retention, now)
    requires forall s :: Goes(store, s, retention, now) ==> Done(store[s]) && Alike(ReadAll(store[s].disk.files, store[s].order))
    ensures Told(ServedBy(PrunedStore(store, retention, now))) == Told(ServedBy(store))
    ensures forall q :: IndexDays(q, ServedBy(PrunedStore(store, retention, now))) == IndexDays(q, ServedBy(store))
    ensures forall q, key, v :: StoredCount(q, key, ServedBy(PrunedStore(store, retention, now)), v) == StoredCount(q, key, ServedBy(store), v)
  {
    hide FromRuns, Calm, Resting, ServedBy, PrunedStore, Backed, Ordinary, Alike, Done, Expired, IndexDays, StoredCount, Told, ReadAll;
    forall s | s in store && Goes(store, s, retention, now)
      ensures Ordinary(store[s]) && Backed(store[s])
    {
      DoneBacked(store[s]);
    }
    PassKeepsAnswersIff(store, runs, retention, now);
    var before, after := ServedBy(store), ServedBy(PrunedStore(store, retention, now));
    forall q
      ensures IndexDays(q, after) == IndexDays(q, before)
    {
      ToldDays(q, before);
      ToldDays(q, after);
    }
    forall q, key, v
      ensures StoredCount(q, key, after, v) == StoredCount(q, key, before, v)
    {
      ToldCounts(q, key, before, v);
      ToldCounts(q, key, after, v);
    }
  }

  // ---------------------------------------------------------------- a removal that stops half way

  lemma ServedSlot(store: Store, s: Slot, v: View)
    ensures Tells(ServedBy(store[s := v]), s) ==
      if v.disk.dir then Serve(v) else if HasIndex(v.disk) then StoredIndex(v.disk) else SILENT
  {
    hide Serve, StoredIndex;
  }

  /** The two disks of a removal: entries gone, then the directory too. */
  lemma RemovalDisks(run: seq<Action>, order: seq<Name>)
    requires Exec(INIT, run).pc.Idle? && IndexFreshness.Served(Exec(INIT, run).disk, order)
    ensures
      var d := Exec(INIT, run).disk;
      && Exec(INIT, run + [PruneFiles]).disk == Emptied(d) && Exec(INIT, run + [PruneFiles, RemoveDir]).disk == Emptied(d).(dir := false)
      && d.dir && HasIndex(d)
  {
    var s := Exec(INIT, run);
    ExecAppend(INIT, run, [PruneFiles]);
    ExecOne(s, PruneFiles);
    RemovedRun(View(order, s.disk), run);
    HasDir(run, order);
    hide Exec;
  }

  /**
   A removal that stopped with the directory left empty: the day tells nothing although the index of
   its rows is there, until the directory is removed as well; then the index tells all of them.
   */
  lemma StopInRemovalHides(run: seq<Action>, order: seq<Name>, store: Store, s: Slot)
    requires Uninterrupted(run) && Exec(INIT, run).pc.Idle? && IndexFreshness.Served(Exec(INIT, run).disk, order)
    ensures
      var seen := Visible(Exec(INIT, run).disk, order);
      var half, gone := Exec(INIT, run + [PruneFiles]).disk, Exec(INIT, run + [PruneFiles, RemoveDir]).disk;
      && Tells(ServedBy(store[s := View([], half)]), s) == SILENT
      && Tells(ServedBy(store[s := View([], gone)]), s) == IndexOf(seen)
      && (IndexOf(seen) == SILENT <==> seen == [])
  {
    hide Exec, IndexOf, ServedBy;
    ServedIndexIsFresh(run, order);
    RemovalDisks(run, order);
    SilentIff([]);
    SilentIff(Visible(Exec(INIT, run).disk, order));
    ServedSlot(store, s, View([], Exec(INIT, run + [PruneFiles]).disk));
    ServedSlot(store, s, View([], Exec(INIT, run + [PruneFiles, RemoveDir]).disk));
  }

  lemma HasDir(run: seq<Action>, order: seq<Name>)
    requires IndexFreshness.Served(Exec(INIT, run).disk, order)
    ensures Exec(INIT, run).disk.dir
  {
    hide Exec, ContentOk, JournalOk, PcOk, FilesOk;
    InitOk();
    ExecKeeps(INIT, run);
    assert order[0] in order;
  }
}
