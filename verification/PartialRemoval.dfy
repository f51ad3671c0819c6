/**
 A removal that stops among the files of a day: the next maintenance pass compacts the day before it
 removes it, and takes the files that are left for the whole of it.
 */
module PartialRemoval {
  import opened Prelude
  import opened Rows
  import opened Index
  import opened Partition
  import opened PartitionSafety
  import opened Maintenance
  import opened IndexFreshness
  import opened IndexContent

  // ---------------------------------------------------------------- file after file

  lemma ListingPut(order: seq<Name>, files: Files, n: Name)
    requires n in files && IsListing(order, files - {n})
    ensures IsListing(order + [n], files)
  {
    assert n !in order;
    DistinctJoin(order, [n]);
    assert forall m :: m in order + [n] <==> m in order || m == n;
  }

  lemma DistinctJoin<T>(a: seq<T>, b: seq<T>)
    requires Distinct(a) && Distinct(b) && forall x :: x in a ==> x !in b
    ensures Distinct(a + b)
  {
    forall i, j | 0 <= i < j < |a + b| ensures (a + b)[i] != (a + b)[j] {
      if i < |a| <= j {
        assert a[i] in a && b[j - |a|] in b;
      }
    }
  }

  lemma {:induction false} SomeListing(files: Files) returns (order: seq<Name>)
    ensures IsListing(order, files)
  {
    if files == map[] {
      order := [];
    } else {
      var n :| n in files;
      order := SomeListing(files - {n});
      ListingPut(order, files, n);
      order := order + [n];
    }
  }

  ghost predicate AllRemove(run: seq<Action>) {
    forall i :: 0 <= i < |run| ==> run[i].RemoveFile?
  }

  ghost predicate Removable(s: State, gone: seq<Name>) {
    s.pc.Idle? && s.disk.journal.None? && Distinct(gone) && forall n :: n in gone ==> n in s.disk.files
  }

  lemma RemoveOne(s: State, n: Name, rest: seq<Name>)
    requires Inv(s) && Removable(s, [n]) && IsListing(rest, s.disk.files - {n})
    ensures
      var s' := Apply(s, RemoveFile(n, rest));
      && Inv(s') && s'.pc == s.pc && s'.ever == s.ever && s'.disk == s.disk.(files := s.disk.files - {n})
      && s'.appended == ReadAll(s'.disk.files, rest)
  {
    hide Inv, IsListing;
    assert n in [n];
    StepKeeps(s, RemoveFile(n, rest));
  }

  lemma LastGone(files: Files, gone: seq<Name>)
    requires gone != []
    ensures files - Names(gone[..|gone| - 1]) - {gone[|gone| - 1]} == files - Names(gone)
  {
    assert gone == gone[..|gone| - 1] + [gone[|gone| - 1]];
  }

  /** The files go one by one, in any order. */
  lemma {:induction false} RemoveFiles(s: State, gone: seq<Name>) returns (run: seq<Action>)
    requires Inv(s) && Removable(s, gone)
    ensures AllRemove(run)
    ensures
      var s' := Exec(s, run);
      && Inv(s') && s'.pc == s.pc && s'.ever == s.ever && s'.disk == s.disk.(files := s.disk.files - Names(gone))
      && (gone != [] && s'.disk.files == map[] ==> s'.appended == [])
  {
    hide Inv, IsListing;
    if gone == [] {
      run := [];
      assert s.disk.files - Names(gone) == s.disk.files;
    } else {
      var before, n := gone[..|gone| - 1], gone[|gone| - 1];
      assert gone == before + [n] && n in gone;
      run := RemoveFiles(s, before);
      var s1 := Exec(s, run);
      LastGone(s.disk.files, gone);
      assert n in s1.disk.files;
      var rest := SomeListing(s1.disk.files - {n});
      RemoveOne(s1, n, rest);
      ExecAppend(s, run, [RemoveFile(n, rest)]);
      ExecOne(s1, RemoveFile(n, rest));
      NothingRead(s1.disk.files - {n}, rest);
      run := run + [RemoveFile(n, rest)];
    }
  }

  lemma NothingRead(files: Files, order: seq<Name>)
    requires IsListing(order, files)
    ensures files == map[] ==> ReadAll(files, order) == []
  {
    if files == map[] { ListingEmpty(order, files); }
  }

  /** All of them gone is the removal in one step. */
  lemma FileByFile(s: State, order: seq<Name>) returns (run: seq<Action>)
    requires Inv(s) && s.pc.Idle? && s.disk.journal.None? && s.disk.temps == map[] && IsListing(order, s.disk.files) && order != []
    ensures AllRemove(run) && Exec(s, run) == Apply(s, PruneFiles)
  {
    hide Inv;
    run := RemoveFiles(s, order);
    assert s.disk.files - Names(order) == map[];
  }

  // ---------------------------------------------------------------- the next turn

  /** A turn with the indexes there leaves those of the rows it finds. */
  lemma NextTurn(s: State, rest: seq<Name>, id: nat) returns (turn: seq<Action>, s': State)
    requires Inv(s) && s.pc.Idle? && s.disk.journal.None? && HasIndex(s.disk) && DaysIndexed(s.disk)
    requires IsListing(rest, s.disk.files) && rest != [] && Day(id) !in s.ever
    ensures Undisturbed(turn) && s' == Exec(s, turn)
    ensures HasIndex(s'.disk) && StoredIndex(s'.disk) == IndexOf(Dedupe(ReadAll(s.disk.files, rest)))
  {
    hide Inv, Exec, IndexOf, Dedupe, IsListing;
    assert RecoverDisk(s.disk) == s.disk;
    turn, s' := TurnFinishes(s, rest, id);
    if IsCompact(rest) {
      SingleVisible(s, rest);
    } else {
      hide Compacted;
      MergedIndex(s.disk.files, rest);
    }
  }

  /**
   Once the removal of a day with indexes has stopped among its files, the next turn leaves the index of
   the rows in the files that are left: what was only in the others is gone from the index too.
   */
  lemma StopAmongFiles(run: seq<Action>, gone: seq<Name>, rest: seq<Name>, id: nat) returns (removal: seq<Action>, turn: seq<Action>)
    requires Uninterrupted(run) && Removable(Exec(INIT, run), gone)
    requires
      var s := Exec(INIT, run);
      HasIndex(s.disk) && IsListing(rest, s.disk.files - Names(gone)) && rest != [] && Day(id) !in s.ever
    ensures AllRemove(removal) && Undisturbed(turn)
    ensures
      var s := Exec(INIT, run);
      var d := Exec(INIT, run + (removal + turn)).disk;
      HasIndex(d) && StoredIndex(d) == IndexOf(Dedupe(ReadAll(s.disk.files, rest)))
  {
    hide Inv, Exec, IndexOf, Dedupe, Undisturbed, AllRemove, Uninterrupted;
    var s := Exec(INIT, run);
    ExecFresh(run);
    removal := RemoveFiles(s, gone);
    var s1 := Exec(s, removal);
    var s2;
    turn, s2 := NextTurn(s1, rest, id);
    ReadAllFrame(s1.disk.files, s.disk.files, rest);
    ExecAppend(INIT, run, removal + turn);
    ExecAppend(s, removal, turn);
  }

  // ---------------------------------------------------------------- what that loses

  lemma {:induction false} ReadAllJoin(files: Files, a: seq<Name>, b: seq<Name>)
    ensures ReadAll(files, a + b) == ReadAll(files, a) + ReadAll(files, b)
  {
    if b == [] {
      assert a + b == a;
    } else {
      assert (a + b)[..|a + b| - 1] == a + b[..|b| - 1];
      ReadAllJoin(files, a, b[..|b| - 1]);
    }
  }

  lemma BothList(files: Files, gone: seq<Name>, rest: seq<Name>)
    requires Distinct(gone) && (forall n :: n in gone ==> n in files) && IsListing(rest, files - Names(gone))
    ensures IsListing(rest + gone, files)
  {
    DistinctJoin(rest, gone);
    assert forall m :: m in rest + gone <==> m in rest || m in gone;
  }

  /** The rows left, deduplicated, as one file, and the removed ones as another. */
  function Halves(left: seq<Row>, lost: seq<Row>): Files {
    map[Day(0) := left, Batch(0) := lost]
  }

  const HALVES: seq<Name> := [Day(0), Batch(0)]

  lemma HalvesRead(left: seq<Row>, lost: seq<Row>)
    ensures IsListing(HALVES, Halves(left, lost)) && ReadAll(Halves(left, lost), HALVES) == left + lost
    ensures Adds(Halves(left, lost), Day(0)) <==> exists r :: r in lost && (r.eid == 0 || r.eid !in Eids(left))
  {
    var files := Halves(left, lost);
    ReadTwo(files, Day(0), Batch(0));
    if r :| r in lost && (r.eid == 0 || r.eid !in Eids(left)) {
      assert r in files[Batch(0)] && New(files, Day(0), r);
    }
  }

  /** The whole day is indexed like those two halves. */
  lemma IndexOfHalves(files: Files, order: seq<Name>, gone: seq<Name>, rest: seq<Name>)
    requires IsListing(order, files) && IsListing(rest + gone, files) && Alike(ReadAll(files, order))
    ensures
      var left, lost := Dedupe(ReadAll(files, rest)), ReadAll(files, gone);
      Alike(left + lost) && IndexOf(Dedupe(ReadAll(files, order))) == IndexOf(Dedupe(left + lost))
  {
    hide IndexOf, Dedupe, Strip, IsListing, Zeros, Unique, Eids;
    var all, kept, lost := ReadAll(files, order), ReadAll(files, rest), ReadAll(files, gone);
    var left := Dedupe(kept);
    ReadAllJoin(files, rest, gone);
    ListingHolds(files, order);
    ListingHolds(files, rest + gone);
    DedupeKeeps(kept);
    DedupeKeeps(all);
    DedupeKeeps(left + lost);
    EidsAppend(kept, lost);
    EidsAppend(left, lost);
    ZerosAppend(kept, lost);
    ZerosAppend(left, lost);
    forall r | r in left + lost ensures r in all {
      assert r in kept + lost;
      ReadAllRows(files, rest + gone, r);
      ReadAllRows(files, order, r);
      SameNames(order, rest + gone, files);
    }
    AlikeStrip(all);
    hide Alike;
    SameContent(Dedupe(all), Dedupe(left + lost));
    AlikePart(all, left + lost);
  }

  lemma AlikePart(rows: seq<Row>, part: seq<Row>)
    requires Alike(rows) && forall r :: r in part ==> r in rows
    ensures Alike(part)
  {
  }

  lemma SameNames(a: seq<Name>, b: seq<Name>, files: Files)
    requires IsListing(a, files) && IsListing(b, files)
    ensures forall n :: n in a <==> n in b
  {
  }

  lemma LostRow(files: Files, gone: seq<Name>, left: set<nat>)
    ensures (exists r :: r in ReadAll(files, gone) && (r.eid == 0 || r.eid !in left)) <==>
      exists n, r :: n in gone && n in files && r in files[n] && (r.eid == 0 || r.eid !in left)
  {
    forall r ensures r in ReadAll(files, gone) <==> exists n :: n in gone && n in files && r in files[n] { ReadAllRows(files, gone, r); }
  }

  /** The files left tell the same index as the whole day exactly when the others hold no row new to them. */
  lemma RemovalLosesIff(files: Files, order: seq<Name>, gone: seq<Name>, rest: seq<Name>)
    requires IsListing(order, files) && Alike(ReadAll(files, order))
    requires Distinct(gone) && (forall n :: n in gone ==> n in files) && IsListing(rest, files - Names(gone))
    ensures IndexOf(Dedupe(ReadAll(files, rest))) == IndexOf(Dedupe(ReadAll(files, order))) <==>
      forall n, r :: n in gone && n in files && r in files[n] ==> r.eid != 0 && r.eid in Eids(ReadAll(files, rest))
  {
    hide IndexOf, Dedupe, IsListing, Alike, Adds, AddsTags, AddsData, Unique, Eids, Names;
    var left, lost := Dedupe(ReadAll(files, rest)), ReadAll(files, gone);
    DedupeKeeps(ReadAll(files, rest));
    BothList(files, gone, rest);
    IndexOfHalves(files, order, gone, rest);
    HalvesRead(left, lost);
    SameIndexIff(Halves(left, lost), HALVES, Day(0));
    AddsAll(Halves(left, lost), Day(0));
    LostRow(files, gone, Eids(left));
  }

  lemma AddsAll(files: Files, n: Name)
    requires n in files
    ensures AddsTags(files, n) || AddsData(files, n) ==> Adds(files, n)
  {
  }
}
