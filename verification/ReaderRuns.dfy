/** What the reader's answers are worth on stores that runs of the write path produced. */
module ReaderRuns {
  import opened Rows
  import opened Index
  import opened Partition
  import opened PartitionSafety
  import opened Summaries
  import opened Facets
  import opened Reader
  import Bags
  import Charts
  import IndexFreshness
  import Maintenance

  type Runs = map<Slot, seq<Action>>

  /** Every day of the store is on the disk its run left, as one listing saw it. */
  ghost predicate FromRuns(store: Store, runs: Runs) {
    forall s :: s in store ==>
      s in runs && store[s].disk == Exec(INIT, runs[s]).disk && IsListing(store[s].order, store[s].disk.files)
  }

  /** No run was stopped between a rename and the indexes of a day that had some, none is there now. */
  ghost predicate Calm(store: Store, runs: Runs)
    requires FromRuns(store, runs)
  {
    forall s :: s in store ==> IndexFreshness.Uninterrupted(runs[s]) && !IndexFreshness.InWindow(Exec(INIT, runs[s]).pc)
  }

  ghost function Ever(runs: Runs): World {
    map s | s in runs :: Exec(INIT, runs[s]).ever
  }

  /** The reader's demand on its world is met by the files the runs ever finished. */
  lemma RunsGiveWorld(store: Store, runs: Runs)
    requires FromRuns(store, runs)
    ensures StoreOk(Ever(runs), store)
  {
    hide Exec;
    forall s | s in store
      ensures ViewOk(Ever(runs), s, store[s])
    {
      FinishedFiles(runs[s]);
      assert s in runs && Ever(runs)[s] == Exec(INIT, runs[s]).ever;
      assert store[s].disk == Exec(INIT, runs[s]).disk && IsListing(store[s].order, store[s].disk.files);
    }
  }

  lemma FinishedFiles(run: seq<Action>)
    ensures
      var s := Exec(INIT, run);
      forall n :: n in s.disk.files ==> n in s.ever && s.ever[n] == s.disk.files[n]
  {
    hide Exec, ContentOk, JournalOk, PcOk;
    InitOk();
    ExecKeeps(INIT, run);
  }

  lemma StepGrows(s: State, a: Action)
    ensures forall n :: n in s.ever ==> n in Apply(s, a).ever && Apply(s, a).ever[n] == s.ever[n]
  {
    hide Compacted, IndexOf, ReadAll;
  }

  /** File names are fresh, so what a name ever held it holds for good. */
  lemma {:induction false} EverGrows(s: State, run: seq<Action>)
    ensures forall n :: n in s.ever ==> n in Exec(s, run).ever && Exec(s, run).ever[n] == s.ever[n]
  {
    if run == [] {
    } else {
      EverGrows(s, run[..|run| - 1]);
      StepGrows(Exec(s, run[..|run| - 1]), run[|run| - 1]);
    }
  }

  /** Whatever is appended, compacted or recovered later, no cache entry becomes wrong. */
  lemma CacheSurvives(reader: Reader, runs: Runs, later: Runs)
    requires reader.Valid(Ever(runs)) && runs.Keys <= later.Keys
    requires forall s :: s in runs ==> |runs[s]| <= |later[s]| && later[s][..|runs[s]|] == runs[s]
    ensures reader.Valid(Ever(later))
  {
    hide Exec;
    forall s, n | s in Ever(runs) && n in Ever(runs)[s]
      ensures s in Ever(later) && n in Ever(later)[s] && Ever(later)[s][n] == Ever(runs)[s][n]
    {
      var more := later[s][|runs[s]|..];
      assert runs[s] + more == later[s];
      Maintenance.ExecAppend(INIT, runs[s], more);
      EverGrows(Exec(INIT, runs[s]), more);
    }
    reader.StillValid(Ever(runs), Ever(later));
  }

  /** One day's answer, stored or built, is the index of the rows a reader sees. */
  lemma ServeIsVisible(v: View, run: seq<Action>)
    requires v.disk == Exec(INIT, run).disk && IsListing(v.order, v.disk.files)
    requires IndexFreshness.Uninterrupted(run) && !IndexFreshness.InWindow(Exec(INIT, run).pc)
    ensures Serve(v) == IndexOf(Visible(v.disk, v.order))
  {
    hide Exec, IndexOf, Visible;
    if IsCompact(v.order) && HasIndex(v.disk) {
      IndexFreshness.ServedIndexIsFresh(run, v.order);
    }
  }

  /** On calm runs every day with a directory is served the index of its visible rows. */
  lemma ServedIsIndexed(store: Store, runs: Runs)
    requires FromRuns(store, runs) && Calm(store, runs)
    requires forall s :: s in store ==> store[s].disk.dir
    ensures ServedBy(store) == Indexed(Raw(store))
  {
    hide Serve, IndexOf, Visible;
    forall s | s in store
      ensures Serve(store[s]) == IndexOf(Visible(store[s].disk, store[s].order))
    {
      ServeIsVisible(store[s], runs[s]);
    }
  }

  /**
   Index answers equal a scan: on calm runs with raw files for every day, the index path gives the
   scan's bars, and the scan's total, if and only if no allowed row of a day in range is outside
   the window.
   */
  lemma IndexPathIsScan(q: Query, store: Store, runs: Runs)
    requires FromRuns(store, runs) && Calm(store, runs) && IndexOnly(q.filter)
    requires forall s :: s in store ==> store[s].disk.dir
    ensures IndexDays(q, ServedBy(store)) == ScanDays(q, Raw(store)) <==> AllInWindow(q, Raw(store))
    ensures Bags.Total(Counts(IndexDays(q, ServedBy(store)))) == Bags.Total(Counts(ScanDays(q, Raw(store)))) <==> AllInWindow(q, Raw(store))
  {
    hide ServedBy, Raw, IndexDays, ScanDays, AllInWindow, Indexed, IndexOnly, Counts;
    ServedIsIndexed(store, runs);
    SummaryAgreesIff(q, Raw(store));
  }

  /** The same for the count of any facet value: only the events that carry it must be in bounds. */
  lemma FacetPathIsScan(q: Query, key: string, v: Facets.Answer, store: Store, runs: Runs)
    requires FromRuns(store, runs) && Calm(store, runs) && IndexOnly(q.filter)
    requires forall s :: s in store ==> store[s].disk.dir
    ensures StoredCount(q, key, ServedBy(store), v) == ScanCount(q, key, Raw(store), v) <==>
      forall s :: s in Raw(store) && InScope(q, s) ==> Bounded(q, key, Raw(store)[s], v)
  {
    hide ServedBy, Raw, StoredCount, ScanCount, Bounded, InScope, Indexed, IndexOnly;
    ServedIsIndexed(store, runs);
    FacetAnswersAgreeIff(q, key, Raw(store), v);
  }

  /**
   Summary on a store that calm runs left, with raw files for every day: it is the scan's, on the
   index path exactly when no allowed row in range is outside the window, and the cache stays right.
   */
  method SummaryOfRuns(reader: Reader, q: Query, store: Store, listing: seq<Slot>, dated: seq<Slot>, ghost runs: Runs) returns (s: Charts.Summary)
    requires FromRuns(store, runs) && Calm(store, runs) && reader.Valid(Ever(runs))
    requires forall s :: s in store ==> store[s].disk.dir
    requires Lists(listing, Dirs(store)) && Lists(dated, Dated(store))
    modifies reader
    ensures reader.Valid(Ever(runs))
    ensures s.days == ScanDays(q, Raw(store)) <==> IndexOnly(q.filter) ==> AllInWindow(q, Raw(store))
    ensures s.count == Bags.Total(Counts(ScanDays(q, Raw(store)))) <==> IndexOnly(q.filter) ==> AllInWindow(q, Raw(store))
  {
    hide FromRuns, Calm, ServedBy, Raw, IndexDays, ScanDays, AllInWindow, IndexOnly, Counts, StoreOk, Lists;
    RunsGiveWorld(store, runs);
    if IndexOnly(q.filter) {
      IndexPathIsScan(q, store, runs);
    }
    var result := reader.Summarize(q, store, listing, dated, {}, Ever(runs));
    s := result.value;
  }
}
