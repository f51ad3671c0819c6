/**
 The maintenance run of one closed day without failures: what recovery and compaction leave on
 disk, as imperative methods and as the end of a run of the partition machine.
 */
module Maintenance {
  import opened Prelude
  import opened Rows
  import opened Index
  import opened Partition
  import opened PartitionSafety

  /** The disk after a recovery that ran to its end. */
  function RecoverDisk(d: Disk): Disk {
    if d.journal.None? then d
    else if Landed(d) then d.(files := Effective(d), journal := None)
    else d.(temps := d.temps - {d.journal.value.target}, journal := None)
  }

  function PutIndex(d: Disk, index: Index): Disk {
    d.(daily := Some(index.daily), facets := Some(index.facets), keys := Some(index.keys))
  }

  /** The disk after a whole turn for one closed day. */
  function CompactDisk(d: Disk, order: seq<Name>, id: nat): Disk {
    var recovered := RecoverDisk(d);
    if order == [] || (IsCompact(order) && HasIndex(recovered)) then recovered
    else
      PutIndex(MergedDisk(recovered, order, id), IndexOf(Compacted(ReadAll(recovered.files, order))))
  }

  /** The disk between the rename and the deletes. */
  function RenamedDisk(d: Disk, order: seq<Name>, id: nat, rows: seq<Row>): Disk {
    d.(files := d.files[Day(id) := rows], temps := d.temps - {Day(id)}, journal := Some(Journal(Day(id), order)))
  }

  // ---------------------------------------------------------------- the imperative form

  class DayStore {
    var disk: Disk

    constructor (initial: Disk)
      ensures disk == initial
    {
      disk := initial;
    }

    method Recover()
      modifies this
      ensures disk == RecoverDisk(old(disk))
    {
      if disk.journal.None? { return; }
      var j := disk.journal.value;
      if j.target in disk.files {
        for i := 0 to |j.sources|
          invariant disk == old(disk).(files := old(disk.files) - (Names(j.sources[..i]) - {j.target}))
        {
          assert Names(j.sources[..i + 1]) == Names(j.sources[..i]) + {j.sources[i]};
          if j.sources[i] != j.target {
            disk := disk.(files := disk.files - {j.sources[i]});
          }
        }
        assert j.sources[..|j.sources|] == j.sources;
      } else {
        disk := disk.(temps := disk.temps - {j.target});
      }
      disk := disk.(journal := None);
    }

    /** The rows of the listed files, deduplicated in place and sorted. */
    method ReadCompacted(order: seq<Name>) returns (rows: seq<Row>)
      ensures rows == Compacted(ReadAll(disk.files, order))
    {
      var all: seq<Row> := [];
      for i := 0 to |order|
        invariant all == ReadAll(disk.files, order[..i])
      {
        assert order[..i + 1][..i] == order[..i];
        all := all + if order[i] in disk.files then disk.files[order[i]] else [];
      }
      assert order[..|order|] == order;
      var buffer := new Row[|all|](i requires 0 <= i < |all| => all[i]);
      assert buffer[..] == all;
      var n := DedupeInPlace(buffer);
      rows := SortRows(buffer[..n]);
    }

    /** CompactApp's turn for one closed day; `order` is what listing the recovered day yields. */
    method CompactDay(order: seq<Name>, id: nat)
      requires IsListing(order, RecoverDisk(disk).files)
      modifies this
      ensures disk == CompactDisk(old(disk), order, id)
    {
      Recover();
      if order == [] || (IsCompact(order) && HasIndex(disk)) { return; }
      var rows := ReadCompacted(order);
      if !IsCompact(order) {
        ghost var recovered := disk;
        disk := disk.(temps := disk.temps[Day(id) := rows]);
        disk := disk.(journal := Some(Journal(Day(id), order)));
        disk := disk.(files := disk.files[Day(id) := disk.temps[Day(id)]], temps := disk.temps - {Day(id)});
        assert disk == RenamedDisk(recovered, order, id, rows);
        Recover();
      }
      var index := BuildIndex(rows);
      disk := disk.(daily := Some(index.daily));
      disk := disk.(facets := Some(index.facets));
      disk := disk.(keys := Some(index.keys));
    }
  }

  // ---------------------------------------------------------------- recovery

  /** Recovering twice is recovering once, and a finished recovery leaves no journal. */
  lemma RecoverIdempotent(d: Disk)
    ensures RecoverDisk(d).journal.None? && RecoverDisk(RecoverDisk(d)) == RecoverDisk(d)
  {
  }

  /** Wherever a recovery stops, starting over ends on the same disk. */
  lemma RecoverResumes(s: State)
    requires Inv(s) && s.pc.Recovering?
    ensures RecoverDisk(RecoverStep(s, s.pc.stage, s.pc.after).disk) == RecoverDisk(s.disk)
  {
    var d, d' := s.disk, RecoverStep(s, s.pc.stage, s.pc.after).disk;
    match s.pc.stage
    case ReadJournal =>
    case RemoveSources(j, k) =>
      if k < |j.sources| {
        assert j.sources[k] in j.sources;
        assert Effective(d') == Effective(d);
      }
    case RemoveTemp(j) =>
      assert d'.temps - {j.target} == RecoverDisk(d).temps;
    case DropJournal(j) =>
      assert Effective(d) == d.files;
      assert d.temps - {j.target} == d.temps;
  }

  // ---------------------------------------------------------------- runs that finish

  lemma {:induction false} ExecAppend(s: State, a: seq<Action>, b: seq<Action>)
    ensures Exec(s, a + b) == Exec(Exec(s, a), b)
  {
    if b == [] {
      assert a + b == a;
    } else {
      assert (a + b)[..|a + b| - 1] == a + b[..|b| - 1];
      ExecAppend(s, a, b[..|b| - 1]);
    }
  }

  lemma ExecOne(s: State, a: Action)
    ensures Exec(s, [a]) == Apply(s, a)
  {
    assert [a][..0] == [];
    assert Exec(s, []) == s;
  }

  /** The actions of a maintenance run that meets no failure and no concurrent append. */
  ghost predicate Undisturbed(run: seq<Action>) {
    forall i :: 0 <= i < |run| ==> run[i].StartRun? || run[i].Advance?
  }

  lemma {:induction false} DeletesFinish(s: State, order: seq<Name>, id: nat) returns (run: seq<Action>)
    requires Inv(s) && s.pc.Recovering? && s.pc.stage.RemoveSources?
    ensures Undisturbed(run)
    ensures Exec(s, run) == s.(disk := RecoverDisk(s.disk), pc := Resume(s.pc.after))
    decreases |s.pc.stage.j.sources| - s.pc.stage.k
  {
    hide Exec, FilesOk, ContentOk, DirOk, JournalOk;
    var a := Advance(order, id);
    var s1 := Apply(s, a);
    StepKeeps(s, a);
    RecoverResumes(s);
    ExecOne(s, a);
    var rest: seq<Action>;
    if s.pc.stage.k < |s.pc.stage.j.sources| {
      rest := DeletesFinish(s1, order, id);
    } else {
      rest := [a];
      RecoverResumes(s1);
      ExecOne(s1, a);
    }
    run := [a] + rest;
    ExecAppend(s, [a], rest);
  }

  /** A recovery that is left alone ends on RecoverDisk. */
  lemma RecoveryFinishes(s: State, order: seq<Name>, id: nat) returns (run: seq<Action>)
    requires Inv(s) && s.pc.Recovering? && s.pc.stage.ReadJournal?
    ensures Undisturbed(run)
    ensures Exec(s, run) == s.(disk := RecoverDisk(s.disk), pc := Resume(s.pc.after))
  {
    var a := Advance(order, id);
    var s1 := Apply(s, a);
    StepKeeps(s, a);
    ExecOne(s, a);
    if s.disk.journal.None? {
      run := [a];
    } else if Landed(s.disk) {
      var rest := DeletesFinish(s1, order, id);
      run := [a] + rest;
      ExecAppend(s, [a], rest);
    } else {
      ExecOne(s1, a);
      ExecOne(Apply(s1, a), a);
      run := [a] + [a] + [a];
      ExecAppend(s, [a] + [a], [a]);
      ExecAppend(s, [a], [a]);
    }
  }

  lemma IndexingFinishes(s: State, order: seq<Name>, id: nat) returns (run: seq<Action>)
    requires s.pc.Indexing? && s.pc.done == 0
    ensures Undisturbed(run)
    ensures Exec(s, run) == s.(disk := PutIndex(s.disk, IndexOf(s.pc.rows)), pc := Idle)
  {
    hide Exec, IndexOf;
    var a := Advance(order, id);
    run := [a] + [a] + [a];
    ExecAppend(s, [a] + [a], [a]);
    ExecAppend(s, [a], [a]);
    ExecOne(s, a);
    ExecOne(Apply(s, a), a);
    ExecOne(Apply(Apply(s, a), a), a);
  }

  /** From the merge in memory to the rename. */
  lemma MergeFinishes(s: State, order: seq<Name>, id: nat) returns (run: seq<Action>)
    requires Inv(s) && s.pc.Merging? && !IsCompact(s.pc.order) && Day(id) !in s.ever
    ensures Undisturbed(run)
    ensures
      var rows := Compacted(ReadAll(s.disk.files, s.pc.order));
      Exec(s, run) == s.(
        disk := RenamedDisk(s.disk, s.pc.order, id, rows),
        ever := s.ever[Day(id) := rows],
        pc := Recovering(ReadJournal, ToIndexing(rows)))
  {
    hide Inv, Compacted, Exec;
    var a := Advance(order, id);
    var s1 := Apply(s, a);
    var s2 := Apply(s1, a);
    run := [a] + [a] + [a];
    ExecAppend(s, [a] + [a], [a]);
    ExecAppend(s, [a], [a]);
    ExecOne(s, a);
    ExecOne(s1, a);
    ExecOne(s2, a);
    assert s1.pc.Written? && s2.pc.Journalled?;
    assert s2.disk.temps - {Day(id)} == s.disk.temps - {Day(id)};
  }

  /** The disk after the part of a turn that follows the listing. */
  function MergedDisk(d: Disk, order: seq<Name>, id: nat): Disk {
    var rows := Compacted(ReadAll(d.files, order));
    if IsCompact(order) then d else RecoverDisk(RenamedDisk(d, order, id, rows))
  }

  lemma MergeToIndexing(s: State, order: seq<Name>, id: nat) returns (run: seq<Action>, s': State)
    requires Inv(s) && s.pc.Merging? && Day(id) !in s.ever
    ensures Undisturbed(run) && s' == Exec(s, run)
    ensures s'.disk == MergedDisk(s.disk, s.pc.order, id) && s'.appended == s.appended
    ensures s'.ever.Keys <= s.ever.Keys + {Day(id)}
    ensures s'.pc == Indexing(Compacted(ReadAll(s.disk.files, s.pc.order)), 0)
  {
    hide Inv, Exec, RecoverDisk, Compacted, ReadAll;
    if IsCompact(s.pc.order) {
      run := [Advance(order, id)];
      ExecOne(s, run[0]);
      s' := Exec(s, run);
    } else {
      var first := MergeFinishes(s, order, id);
      ExecKeeps(s, first);
      var s1 := Exec(s, first);
      var more := RecoveryFinishes(s1, order, id);
      ExecAppend(s, first, more);
      run, s' := first + more, Exec(s1, more);
    }
  }

  lemma FromMerge(s: State, order: seq<Name>, id: nat) returns (run: seq<Action>, s': State)
    requires Inv(s) && s.pc.Merging? && Day(id) !in s.ever
    ensures Undisturbed(run) && s' == Exec(s, run)
    ensures s'.pc.Idle? && s'.appended == s.appended
    ensures s'.ever.Keys <= s.ever.Keys + {Day(id)}
    ensures s'.disk == PutIndex(MergedDisk(s.disk, s.pc.order, id), IndexOf(Compacted(ReadAll(s.disk.files, s.pc.order))))
  {
    var first, s1 := MergeToIndexing(s, order, id);
    var last := IndexingFinishes(s1, order, id);
    ExecAppend(s, first, last);
    run, s' := first + last, Exec(s1, last);
  }

  lemma ToListing(s: State, order: seq<Name>, id: nat) returns (run: seq<Action>, s': State)
    requires Inv(s) && s.pc.Idle?
    ensures Undisturbed(run) && s' == Exec(s, run) && Inv(s')
    ensures s' == s.(disk := RecoverDisk(s.disk), pc := Listing)
  {
    ExecOne(s, StartRun);
    StepKeeps(s, StartRun);
    var s1 := Apply(s, StartRun);
    var first := RecoveryFinishes(s1, order, id);
    ExecAppend(s, [StartRun], first);
    ExecKeeps(s1, first);
    run, s' := [StartRun] + first, Exec(s1, first);
  }

  lemma ToDecision(s: State, order: seq<Name>, id: nat) returns (run: seq<Action>, s': State)
    requires Inv(s) && s.pc.Idle?
    requires IsListing(order, RecoverDisk(s.disk).files)
    ensures Undisturbed(run) && s' == Exec(s, run) && Inv(s')
    ensures s' == s.(disk := RecoverDisk(s.disk), pc := if order == [] || (IsCompact(order) && HasIndex(RecoverDisk(s.disk))) then Idle else Merging(order))
  {
    var first, s1 := ToListing(s, order, id);
    var a := Advance(order, id);
    ExecOne(s1, a);
    StepKeeps(s1, a);
    ExecAppend(s, first, [a]);
    run, s' := first + [a], Apply(s1, a);
  }

  /** The machine, left alone for a whole turn, reaches the disk the imperative form computes. */
  lemma TurnFinishes(s: State, order: seq<Name>, id: nat) returns (run: seq<Action>, s': State)
    requires Inv(s) && s.pc.Idle? && Day(id) !in s.ever
    requires IsListing(order, RecoverDisk(s.disk).files)
    ensures Undisturbed(run) && s' == Exec(s, run) && Inv(s')
    ensures s'.pc.Idle? && s'.disk == CompactDisk(s.disk, order, id) && s'.appended == s.appended
    ensures s'.ever.Keys <= s.ever.Keys + {Day(id)}
  {
    hide Inv, Exec;
    var s1;
    run, s1 := ToDecision(s, order, id);
    s' := s1;
    if s1.pc.Merging? {
      var rest;
      rest, s' := FromMerge(s1, order, id);
      ExecAppend(s, run, rest);
      run := run + rest;
    }
    ExecKeeps(s, run);
  }

  // ---------------------------------------------------------------- convergence

  /** One deduplicated and sorted day file, no journal, all three indexes. */
  ghost predicate Settled(d: Disk) {
    && d.journal.None? && HasIndex(d)
    && exists n :: SingleDay(d.files, n)
  }

  ghost predicate SingleDay(files: Files, n: Name) {
    files.Keys == {n} && n.Day? && Unique(files[n]) && Sorted(files[n]) && DayOrder(files[n])
  }

  lemma ListingEmpty(order: seq<Name>, files: Files)
    requires IsListing(order, files)
    ensures order == [] <==> files == map[]
  {
    if order != [] { assert order[0] in files; }
    if files != map[] { var n :| n in files; assert n in order; }
  }

  lemma MergedAlone(d: Disk, order: seq<Name>, id: nat)
    requires IsListing(order, d.files) && d.journal.None? && Day(id) !in d.files && !IsCompact(order)
    ensures MergedDisk(d, order, id).files == map[Day(id) := Compacted(ReadAll(d.files, order))]
    ensures MergedDisk(d, order, id).journal.None?
  {
    var rows := Compacted(ReadAll(d.files, order));
    var renamed := RenamedDisk(d, order, id, rows);
    assert Landed(renamed) && Day(id) !in order;
    assert renamed.files - Superseded(renamed) == map[Day(id) := rows];
  }

  lemma CompactSettles(files: Files, order: seq<Name>)
    requires IsListing(order, files) && IsCompact(order)
    requires forall n :: n in files && n.Day? ==> Unique(files[n]) && Sorted(files[n])
    ensures SingleDay(files, order[0])
  {
    assert order[0] in order;
    assert forall n :: n in files ==> n == order[0];
    SortedIsDayOrder(files[order[0]]);
  }

  lemma MergeSettles(d: Disk, order: seq<Name>, id: nat)
    requires IsListing(order, d.files) && d.journal.None? && Day(id) !in d.files && !IsCompact(order)
    ensures SingleDay(MergedDisk(d, order, id).files, Day(id)) && MergedDisk(d, order, id).journal.None?
  {
    MergedAlone(d, order, id);
    CompactedKeeps(ReadAll(d.files, order));
  }

  lemma PutIndexSettles(d: Disk, n: Name, index: Index)
    requires SingleDay(d.files, n) && d.journal.None?
    ensures Settled(PutIndex(d, index))
  {
    assert SingleDay(PutIndex(d, index).files, n);
  }

  lemma TurnSettles(s: State, order: seq<Name>, id: nat)
    requires Inv(s) && s.pc.Idle? && Day(id) !in s.ever
    requires IsListing(order, RecoverDisk(s.disk).files) && order != []
    ensures Settled(CompactDisk(s.disk, order, id))
  {
    var d1 := RecoverDisk(s.disk);
    RecoverIdempotent(s.disk);
    var index := IndexOf(Compacted(ReadAll(d1.files, order)));
    if IsCompact(order) {
      CompactSettles(d1.files, order);
      PutIndexSettles(d1, order[0], index);
    } else {
      MergeSettles(d1, order, id);
      PutIndexSettles(MergedDisk(d1, order, id), Day(id), index);
    }
  }

  lemma TurnDone(s: State, order: seq<Name>, id: nat)
    requires Inv(s) && s.pc.Idle? && Day(id) !in s.ever && IsListing(order, RecoverDisk(s.disk).files)
    ensures CompactDisk(s.disk, order, id).journal.None?
    ensures Effective(s.disk) != map[] ==> Settled(CompactDisk(s.disk, order, id))
  {
    RecoverIdempotent(s.disk);
    assert Effective(s.disk) == RecoverDisk(s.disk).files;
    ListingEmpty(order, RecoverDisk(s.disk).files);
    if order != [] {
      TurnSettles(s, order, id);
    }
    hide Inv, RecoverDisk, MergedDisk, IsListing, Effective;
  }

  /**
   Recovery converges: from whatever a crash left at whatever point of whatever run, one
   undisturbed turn leaves a nonempty closed day as a single deduplicated, sorted day file with
   no journal and all three indexes, still holding exactly the appended eids.
   */
  lemma RecoveryConverges(history: seq<Action>, order: seq<Name>, id: nat) returns (run: seq<Action>)
    requires
      var s := Apply(Exec(INIT, history), Crash);
      IsListing(order, RecoverDisk(s.disk).files) && Day(id) !in s.ever
    ensures Undisturbed(run)
    ensures
      var s := Apply(Exec(INIT, history), Crash);
      var s' := Exec(s, run);
      && s'.pc.Idle?
      && (Effective(s.disk) != map[] ==> Settled(s'.disk))
      && FileEids(s'.disk.files) == Eids(s.appended)
      && (forall listing :: IsListing(listing, s'.disk.files) ==> multiset(Zeros(Visible(s'.disk, listing))) == multiset(Zeros(s.appended)))
  {
    hide Inv, Exec, CompactDisk, RecoverDisk, Effective, Settled, Visible, Zeros, IsListing;
    InitOk();
    ExecKeeps(INIT, history);
    StepKeeps(Exec(INIT, history), Crash);
    var s := Apply(Exec(INIT, history), Crash);
    var s';
    run, s' := TurnFinishes(s, order, id);
    InvEids(s');
    TurnDone(s, order, id);
    forall listing | IsListing(listing, s'.disk.files)
      ensures multiset(Zeros(Visible(s'.disk, listing))) == multiset(Zeros(s.appended))
    {
      VisibleFromInv(s', listing);
    }
  }
}
