/**
 A day that already has indexes is merged again because late rows came: what a stop between the
 rename and the last index write costs, stated on the files that were merged.
 */
module Recompaction {
  import opened Prelude
  import opened Rows
  import opened Index
  import opened Partition
  import opened PartitionSafety
  import opened Maintenance
  import opened IndexFreshness
  import opened IndexContent

  /** The run holds the listing of a day with indexes that is more than one day file. */
  ghost predicate MergesAgain(s: State, n: Name) {
    Fresh(s) && s.pc.Merging? && !IsCompact(s.pc.order) && HasIndex(s.disk) && n.Day? && n in s.disk.files
  }

  /** The files as they were listed. */
  function Listed(s: State): Files
    requires s.pc.Merging?
  {
    Only(s.disk.files, Names(s.pc.order))
  }

  ghost function MergedRows(s: State): seq<Row>
    requires s.pc.Merging?
  {
    Compacted(ReadAll(s.disk.files, s.pc.order))
  }

  /** The run goes on, batches arrive meanwhile, nothing stops it. */
  ghost predicate Onward(run: seq<Action>) {
    forall i :: 0 <= i < |run| ==> run[i].Advance? || run[i].Append?
  }

  predicate SameIndexes(d: Disk, e: Disk) {
    d.daily == e.daily && d.facets == e.facets && d.keys == e.keys
  }

  function Written(pc: Pc): nat {
    if pc.Indexing? then pc.done else 0
  }

  /** Where the merge of s can be, and which of its indexes are on disk there. */
  ghost predicate OnTheWay(s: State, t: State)
    requires s.pc.Merging?
  {
    var rows, d := MergedRows(s), t.disk;
    match t.pc
    case Merging(order) => order == s.pc.order && SameIndexes(d, s.disk) && (forall n :: n in order ==> n in d.files && n in s.disk.files && d.files[n] == s.disk.files[n])
    case Written(_, _, r) => r == rows && SameIndexes(d, s.disk)
    case Journalled(_, _, r) => r == rows && SameIndexes(d, s.disk)
    case Recovering(_, after) => after == ToIndexing(rows) && SameIndexes(d, s.disk)
    case Indexing(r, done) =>
      && r == rows && done < 3
      && d.daily == (if done >= 1 then Some(IndexOf(rows).daily) else s.disk.daily)
      && d.facets == (if done >= 2 then Some(IndexOf(rows).facets) else s.disk.facets)
      && d.keys == s.disk.keys
    case Idle => true
    case Listing => false
  }

  lemma AppendOnTheWay(s: State, t: State, id: nat, rows: seq<Row>)
    requires s.pc.Merging? && OnTheWay(s, t) && Inv(t)
    ensures OnTheWay(s, Apply(t, Append(id, rows)))
  {
    hide Compacted, IndexOf, ReadAll;
  }

  lemma RecoverOnTheWay(s: State, t: State, order: seq<Name>, id: nat)
    requires s.pc.Merging? && OnTheWay(s, t) && t.pc.Recovering?
    ensures OnTheWay(s, RunStep(t, order, id))
  {
    hide Compacted, IndexOf, ReadAll;
  }

  lemma MergeOnTheWay(s: State, t: State, order: seq<Name>, id: nat)
    requires s.pc.Merging? && !IsCompact(s.pc.order) && OnTheWay(s, t) && t.pc.Merging?
    ensures OnTheWay(s, RunStep(t, order, id))
  {
    ReadAllFrame(s.disk.files, t.disk.files, s.pc.order);
    hide Compacted, IndexOf, ReadAll;
  }

  lemma AdvanceOnTheWay(s: State, t: State, order: seq<Name>, id: nat)
    requires s.pc.Merging? && !IsCompact(s.pc.order) && OnTheWay(s, t)
    ensures OnTheWay(s, RunStep(t, order, id))
  {
    if t.pc.Merging? {
      MergeOnTheWay(s, t, order, id);
    } else if t.pc.Recovering? {
      RecoverOnTheWay(s, t, order, id);
    } else {
      hide Compacted, IndexOf, ReadAll;
    }
  }

  lemma {:induction false} RunOnTheWay(s: State, run: seq<Action>)
    requires Fresh(s) && s.pc.Merging? && !IsCompact(s.pc.order) && Onward(run)
    ensures Fresh(Exec(s, run)) && OnTheWay(s, Exec(s, run))
  {
    hide Fresh, OnTheWay, Apply, RunStep;
    if run == [] {
      StartOnTheWay(s);
    } else {
      var before, a := run[..|run| - 1], run[|run| - 1];
      RunOnTheWay(s, before);
      var t := Exec(s, before);
      assert a.Advance? || a.Append?;
      StepFresh(t, a);
      if a.Append? {
        assert Inv(t) by { FreshInv(t); }
        AppendOnTheWay(s, t, a.id, a.rows);
      } else {
        AdvanceStep(t, a);
        AdvanceOnTheWay(s, t, a.order, a.id);
      }
    }
  }

  lemma FreshInv(s: State)
    requires Fresh(s)
    ensures Inv(s)
  {
  }

  lemma AdvanceStep(s: State, a: Action)
    requires a.Advance?
    ensures Apply(s, a) == RunStep(s, a.order, a.id)
  {
  }

  lemma StartOnTheWay(s: State)
    requires Fresh(s) && s.pc.Merging?
    ensures OnTheWay(s, s)
  {
    hide ContentOk, JournalOk, FilesOk, IndexOk;
  }

  /** The day file's rows are what the old indexes were built from. */
  lemma OldIndex(s: State, n: Name)
    requires MergesAgain(s, n)
    ensures IsListing(s.pc.order, Listed(s)) && n in Listed(s) && Listed(s)[n] == s.disk.files[n]
    ensures Unique(Listed(s)[n]) && StoredIndex(s.disk) == IndexOf(Listed(s)[n])
  {
    hide ContentOk, JournalOk, IndexOf;
  }

  /** What the indexes written so far do not tell of the merged rows. */
  ghost predicate Untold(files: Files, n: Name, written: nat)
    requires n in files
  {
    if written == 0 then Adds(files, n) else if written == 1 then AddsTags(files, n) || AddsData(files, n) else AddsData(files, n)
  }

  /** The indexes on disk when the run stops: the new ones already written, the old ones else. */
  lemma StoppedIndex(s: State, w: State)
    requires s.pc.Merging? && HasIndex(s.disk) && OnTheWay(s, w) && InWindow(w.pc)
    ensures HasIndex(w.disk) && WindowRows(w.pc) == MergedRows(s) && Written(w.pc) < 3
    ensures
      var k, was, now := Written(w.pc), StoredIndex(s.disk), IndexOf(MergedRows(s));
      StoredIndex(w.disk) == Index(if k >= 1 then now.daily else was.daily, if k >= 2 then now.facets else was.facets, was.keys)
  {
    hide IndexOf, MergedRows;
  }

  lemma MergedDiffers(s: State, n: Name)
    requires MergesAgain(s, n) && Alike(ReadAll(s.disk.files, s.pc.order))
    ensures n in Listed(s)
    ensures
      var was, now := StoredIndex(s.disk), IndexOf(MergedRows(s));
      && (now.daily == was.daily <==> !Adds(Listed(s), n))
      && (now.facets == was.facets <==> !AddsTags(Listed(s), n))
      && (now.keys == was.keys <==> !AddsData(Listed(s), n))
  {
    assert s.pc.Merging?;
    hide IndexOf, Dedupe, Compacted, ReadAll, Adds, AddsTags, AddsData, Alike, MergesAgain, IsListing, Unique;
    OldIndex(s, n);
    ListedReads(s, n);
    MergedIndex(Listed(s), s.pc.order);
    SameIndexIff(Listed(s), s.pc.order, n);
  }

  lemma ListedReads(s: State, n: Name)
    requires MergesAgain(s, n)
    ensures ReadAll(Listed(s), s.pc.order) == ReadAll(s.disk.files, s.pc.order)
  {
    ReadAllFrame(s.disk.files, Listed(s), s.pc.order);
  }

  lemma UntoldMeans(s: State, n: Name, w: State)
    requires MergesAgain(s, n) && Alike(ReadAll(s.disk.files, s.pc.order)) && OnTheWay(s, w) && InWindow(w.pc)
    ensures HasIndex(w.disk) && WindowRows(w.pc) == MergedRows(s)
    ensures n in Listed(s) && (StoredIndex(w.disk) == IndexOf(WindowRows(w.pc)) <==> !Untold(Listed(s), n, Written(w.pc)))
  {
    assert HasIndex(s.disk);
    MergedDiffers(s, n);
    TagsAdd(Listed(s), n);
    hide IndexOf, MergedRows, MergesAgain, Adds, AddsTags, AddsData, OnTheWay, InWindow, WindowRows, StoredIndex, HasIndex, Alike;
    StoppedIndex(s, w);
  }

  lemma TagsAdd(files: Files, n: Name)
    requires n in files
    ensures AddsTags(files, n) || AddsData(files, n) ==> Adds(files, n)
  {
  }

  /**
   The cost of a stop, exactly. The day is merged again; the run stops between the rename and the
   last index write, and the next turn is undisturbed. Then the day is served the index of its rows
   unless that turn finds a single day file and the files merged with the old one held a row new to
   it that an index not yet written would have shown: any row before the first write, a row with a
   tag or with data after it, a row with data after the second.
   */
  lemma StopAfterRename(s: State, n: Name, run: seq<Action>, order: seq<Name>, id: nat, listing: seq<Name>)
    requires MergesAgain(s, n) && Alike(ReadAll(s.disk.files, s.pc.order))
    requires Onward(run) && InWindow(Exec(s, run).pc) && Day(id) !in Exec(s, run).ever
    requires IsListing(order, RecoverDisk(Exec(s, run).disk).files)
    requires Served(CompactDisk(Exec(s, run).disk, order, id), listing)
    ensures
      var w := Exec(s, run);
      var d := CompactDisk(w.disk, order, id);
      n in Listed(s) &&
      (StoredIndex(d) == IndexOf(Visible(d, listing)) <==> !(IsCompact(order) && Untold(Listed(s), n, Written(w.pc))))
  {
    hide Exec, OnTheWay, IndexOf, Visible, CompactDisk, RecoverDisk, Untold, InWindow, WindowRows, Alike, Served, MergedRows, IsListing, HasIndex;
    RunOnTheWay(s, run);
    UntoldMeans(s, n, Exec(s, run));
    StopDecidesFreshness(Exec(s, run), order, id, listing);
  }

  /** The only day file of the window is the merged one. */
  lemma WindowFile(w: State, listing: seq<Name>)
    requires WindowOk(w) && InWindow(w.pc) && IsListing(listing, w.disk.files) && IsCompact(listing)
    ensures listing[0] in w.disk.files && w.disk.files[listing[0]] == WindowRows(w.pc)
  {
    hide IndexOf;
    assert listing[0] in listing;
    if w.pc.Recovering? {
      assert w.disk.journal.value.target in listing;
    }
  }

  lemma WindowVisible(w: State, listing: seq<Name>)
    requires Fresh(w) && InWindow(w.pc) && IsListing(listing, w.disk.files) && IsCompact(listing)
    ensures Visible(w.disk, listing) == WindowRows(w.pc)
  {
    assert Inv(w) && WindowOk(w);
    hide Fresh, Inv, WindowOk, InWindow, WindowRows, IsListing, Visible;
    SingleVisible(w, listing);
    WindowFile(w, listing);
  }

  /**
   A reader that comes between the last delete and the last index write finds one day file with
   three index files and is served those: the right ones unless a piece not yet written would have
   shown a row new to the old day file.
   */
  lemma ReadInWindow(s: State, n: Name, run: seq<Action>, listing: seq<Name>)
    requires MergesAgain(s, n) && Alike(ReadAll(s.disk.files, s.pc.order))
    requires Onward(run) && InWindow(Exec(s, run).pc) && IsListing(listing, Exec(s, run).disk.files) && IsCompact(listing)
    ensures
      var w := Exec(s, run);
      n in Listed(s) && Served(w.disk, listing) &&
      (StoredIndex(w.disk) == IndexOf(Visible(w.disk, listing)) <==> !Untold(Listed(s), n, Written(w.pc)))
  {
    hide Exec, OnTheWay, IndexOf, Visible, Untold, InWindow, WindowRows, Alike, MergedRows, IsListing, HasIndex;
    RunOnTheWay(s, run);
    UntoldMeans(s, n, Exec(s, run));
    WindowVisible(Exec(s, run), listing);
  }
}
