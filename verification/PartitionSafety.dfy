/** What every step of the partition machine keeps, and what a reader therefore sees. */
module PartitionSafety {
  import opened Prelude
  import opened Rows
  import opened Index
  import opened Partition

  /** The journal's merged file is in place. */
  predicate Landed(d: Disk) {
    d.journal.Some? && d.journal.value.target in d.files
  }

  /** The files a journal whose target is in place makes redundant. */
  function Superseded(d: Disk): set<Name> {
    if Landed(d) then Names(d.journal.value.sources) - {d.journal.value.target} else {}
  }

  /** The files that will remain once a pending journal is finished. */
  function Effective(d: Disk): Files {
    d.files - Superseded(d)
  }

  /** Files are written once under a name and a compacted day is deduplicated and sorted. */
  ghost predicate FilesOk(s: State) {
    && (forall n :: n in s.disk.files ==> n in s.ever && s.ever[n] == s.disk.files[n])
    && (forall n :: n in s.disk.temps ==> n in s.ever && s.ever[n] == s.disk.temps[n] && n !in s.disk.files && n.Day?)
    && (forall n :: n in s.ever && n.Day? ==> Unique(s.ever[n]) && Sorted(s.ever[n]))
  }

  /** Without a directory there is nothing in it. */
  ghost predicate DirOk(d: Disk) {
    !d.dir ==> d == Emptied(d)
  }

  /** A pending journal names known files, and a landed target holds every eid of its sources. */
  ghost predicate JournalOk(s: State) {
    s.disk.journal.Some? ==>
      var j, files := s.disk.journal.value, s.disk.files;
      && j.target in s.ever && j.target !in j.sources
      && (forall n :: n in j.sources ==> n in s.ever)
      && (j.target in files ==> forall n :: n in j.sources && n in files ==> Eids(files[n]) <= Eids(files[j.target]))
  }

  /** No appended eid or zero-eid row is lost, none is invented. */
  ghost predicate ContentOk(s: State) {
    && FileEids(Effective(s.disk)) == Eids(s.appended)
    && Bag(Effective(s.disk)) == ZeroBag(s.appended)
    && (forall n, r :: n in s.disk.files && r in s.disk.files[n] ==> r in s.appended)
  }

  ghost predicate StageOk(d: Disk, stage: Stage) {
    match stage
    case ReadJournal => true
    case RemoveSources(j, k) =>
      d.journal == Some(j) && j.target in d.files && k <= |j.sources| &&
      forall i :: 0 <= i < k ==> j.sources[i] !in d.files
    case RemoveTemp(j) => d.journal == Some(j) && j.target !in d.files
    case DropJournal(j) =>
      d.journal == Some(j) && j.target !in d.temps && (j.target in d.files ==> forall n :: n in j.sources ==> n !in d.files)
  }

  /** The merge in memory: the listed files are still there and cover every day file. */
  ghost predicate MergeOk(d: Disk, order: seq<Name>) {
    && Distinct(order) && order != []
    && (forall n :: n in order ==> n in d.files)
    && (forall n :: n in d.files && n.Day? ==> n in order)
  }

  ghost predicate TempOk(d: Disk, order: seq<Name>, target: Name, rows: seq<Row>) {
    && MergeOk(d, order)
    && target in d.temps && d.temps[target] == rows == Compacted(ReadAll(d.files, order))
  }

  ghost predicate PcOk(s: State) {
    match s.pc
    case Idle => true
    case Recovering(stage, after) => StageOk(s.disk, stage)
    case Listing => s.disk.journal.None?
    case Merging(order) => s.disk.journal.None? && MergeOk(s.disk, order)
    case Written(order, target, rows) => s.disk.journal.None? && TempOk(s.disk, order, target, rows)
    case Journalled(order, target, rows) => s.disk.journal == Some(Journal(target, order)) && TempOk(s.disk, order, target, rows)
    case Indexing(rows, done) => s.disk.journal.None? && done < 3
  }

  ghost predicate Inv(s: State) {
    FilesOk(s) && DirOk(s.disk) && JournalOk(s) && ContentOk(s) && PcOk(s)
  }

  // ---------------------------------------------------------------- one lemma per kind of step

  lemma {:induction false} ReadAllFrame(files: Files, more: Files, order: seq<Name>)
    requires forall n :: n in order && n in files ==> n in more && more[n] == files[n]
    requires forall n :: n in order && n in more ==> n in files
    ensures ReadAll(files, order) == ReadAll(more, order)
  {
    if order == [] {
    } else {
      ReadAllFrame(files, more, order[..|order| - 1]);
    }
  }

  lemma AppendEffective(d: Disk, n: Name, rows: seq<Row>)
    requires n !in d.files && (d.journal.Some? ==> n != d.journal.value.target && n !in d.journal.value.sources)
    ensures Effective(d.(dir := true, files := d.files[n := rows])) == Effective(d)[n := rows]
  {
    var d' := d.(dir := true, files := d.files[n := rows]);
    assert Superseded(d') == Superseded(d);
  }

  lemma AppendKeepsContent(s: State, id: nat, rows: seq<Row>)
    requires Inv(s) && Batch(id) !in s.ever
    ensures ContentOk(Apply(s, Append(id, rows)))
  {
    hide Eids, Zeros, Bag, FileEids, PcOk, Unique, Sorted;
    var s', n := Apply(s, Append(id, rows)), Batch(id);
    var eff := Effective(s.disk);
    AppendEffective(s.disk, n, rows);
    FileEidsPut(eff, n, rows);
    BagPut(eff, n, rows);
    EidsAppend(s.appended, rows);
    ZerosAppend(s.appended, rows);
    assert ZeroBag(s.appended + rows) == ZeroBag(rows) + ZeroBag(s.appended);
  }

  lemma AppendKeepsPc(s: State, id: nat, rows: seq<Row>)
    requires Inv(s) && Batch(id) !in s.ever
    ensures PcOk(Apply(s, Append(id, rows)))
  {
    var s' := Apply(s, Append(id, rows));
    if s.pc.Written? || s.pc.Journalled? {
      ReadAllFrame(s.disk.files, s'.disk.files, s.pc.order);
    }
  }

  lemma AppendKeeps(s: State, id: nat, rows: seq<Row>)
    requires Inv(s) && Batch(id) !in s.ever
    ensures Inv(Apply(s, Append(id, rows)))
  {
    hide FilesOk, DirOk, JournalOk, ContentOk, PcOk, Apply;
    AppendKeepsFiles(s, id, rows);
    AppendKeepsContent(s, id, rows);
    AppendKeepsPc(s, id, rows);
  }

  lemma AppendKeepsFiles(s: State, id: nat, rows: seq<Row>)
    requires FilesOk(s) && DirOk(s.disk) && JournalOk(s) && Batch(id) !in s.ever
    ensures FilesOk(Apply(s, Append(id, rows))) && DirOk(Apply(s, Append(id, rows)).disk) && JournalOk(Apply(s, Append(id, rows)))
  {
    hide Unique, Sorted, Eids;
  }

  lemma RemoveSourceKeeps(s: State)
    requires Inv(s) && s.pc.Recovering? && s.pc.stage.RemoveSources? && s.pc.stage.k < |s.pc.stage.j.sources|
    ensures Inv(RecoverStep(s, s.pc.stage, s.pc.after))
  {
    var s' := RecoverStep(s, s.pc.stage, s.pc.after);
    var j, k := s.pc.stage.j, s.pc.stage.k;
    assert j.sources[k] in j.sources;
    assert Effective(s'.disk) == Effective(s.disk);
  }

  lemma RecoverKeeps(s: State)
    requires Inv(s) && s.pc.Recovering?
    ensures Inv(RecoverStep(s, s.pc.stage, s.pc.after))
  {
    var s' := RecoverStep(s, s.pc.stage, s.pc.after);
    match s.pc.stage
    case ReadJournal =>
      assert s'.disk == s.disk;
    case RemoveSources(j, k) =>
      if k < |j.sources| {
        RemoveSourceKeeps(s);
      } else {
        assert s'.disk == s.disk;
      }
    case RemoveTemp(j) =>
      assert Effective(s'.disk) == Effective(s.disk);
    case DropJournal(j) =>
      assert Effective(s'.disk) == Effective(s.disk);
  }

  /** A merge touches nothing but its temporary file. */
  lemma MergingDisk(s: State, order: seq<Name>, id: nat)
    requires s.pc.Merging?
    ensures
      var d, s', rows := s.disk, RunStep(s, order, id), Compacted(ReadAll(s.disk.files, s.pc.order));
      && s'.disk.files == d.files && s'.disk.journal == d.journal && s'.appended == s.appended
      && ((s'.disk.temps == d.temps && s'.ever == s.ever) ||
          (Day(id) !in s.ever && s'.disk.temps == d.temps[Day(id) := rows] && s'.ever == s.ever[Day(id) := rows]))
  {
    hide Compacted, ReadAll;
  }

  lemma MergingFiles(s: State, order: seq<Name>, id: nat)
    requires s.pc.Merging? && FilesOk(s)
    ensures FilesOk(RunStep(s, order, id))
  {
    hide Compacted, ReadAll, Unique, Sorted, RunStep;
    MergingDisk(s, order, id);
    CompactedKeeps(ReadAll(s.disk.files, s.pc.order));
  }

  lemma MergingContent(s: State, order: seq<Name>, id: nat)
    requires s.pc.Merging? && ContentOk(s)
    ensures ContentOk(RunStep(s, order, id))
  {
    hide Compacted, ReadAll, FileEids, Bag, Eids, Unique, Sorted, RunStep;
    var s', names := RunStep(s, order, id), s.pc.order;
    var read := ReadAll(s.disk.files, names);
    MergingDisk(s, order, id);
    CompactedKeeps(read);
    assert Effective(s'.disk) == Effective(s.disk);
  }

  lemma MergingDir(s: State, order: seq<Name>, id: nat)
    requires s.pc.Merging? && DirOk(s.disk) && PcOk(s)
    ensures DirOk(RunStep(s, order, id).disk)
  {
    hide Compacted, ReadAll;
    assert s.pc.order[0] in s.pc.order;
  }

  lemma MergingPc(s: State, order: seq<Name>, id: nat)
    requires s.pc.Merging? && PcOk(s)
    ensures PcOk(RunStep(s, order, id)) && JournalOk(RunStep(s, order, id))
  {
    hide Compacted, ReadAll;
  }

  lemma MergingKeeps(s: State, order: seq<Name>, id: nat)
    requires Inv(s) && s.pc.Merging?
    ensures Inv(RunStep(s, order, id))
  {
    hide FilesOk, ContentOk, PcOk, JournalOk, DirOk, RunStep;
    MergingFiles(s, order, id);
    MergingDir(s, order, id);
    MergingContent(s, order, id);
    MergingPc(s, order, id);
  }

  lemma JournalKeeps(s: State, order: seq<Name>, id: nat)
    requires Inv(s) && s.pc.Written?
    ensures Inv(RunStep(s, order, id))
  {
    assert Effective(RunStep(s, order, id).disk) == Effective(s.disk);
  }

  lemma RenameKeepsContent(s: State, order: seq<Name>, id: nat)
    requires Inv(s) && s.pc.Journalled?
    ensures ContentOk(RunStep(s, order, id))
  {
    var s' := RunStep(s, order, id);
    hide Compacted, FileEids, Bag, Eids;
    var names, target, rows := s.pc.order, s.pc.target, s.pc.rows;
    var files := s.disk.files;
    MergeHolds(files, names, target);
    assert Effective(s.disk) == files;
    assert Effective(s'.disk) == (files - Names(names))[target := rows];
    CompactedKeeps(ReadAll(files, names));
    forall r | r in rows ensures r in s.appended { ReadAllRows(files, names, r); }
  }

  lemma RenameKeeps(s: State, order: seq<Name>, id: nat)
    requires Inv(s) && s.pc.Journalled?
    ensures Inv(RunStep(s, order, id))
  {
    RenameKeepsContent(s, order, id);
    var names, files := s.pc.order, s.disk.files;
    ReadAllEids(files, names);
    CompactedKeeps(ReadAll(files, names));
    forall n, e | n in names && e in Eids(files[n])
      ensures e in Eids(s.pc.rows)
    {
      assert n in Only(files, Names(names)) && Only(files, Names(names))[n] == files[n];
    }
  }

  /** A step that touches neither files, temporary files nor the journal. */
  lemma SameFilesKeep(s: State, s': State)
    requires Inv(s) && PcOk(s')
    requires s'.disk.dir == s.disk.dir && s'.disk.files == s.disk.files && s'.disk.temps == s.disk.temps && s'.disk.journal == s.disk.journal
    requires s'.ever == s.ever && s'.appended == s.appended
    ensures Inv(s')
  {
    assert Effective(s'.disk) == Effective(s.disk);
  }

  lemma FailKeeps(s: State)
    requires Inv(s) && s.pc.Written?
    ensures Inv(Apply(s, FailJournal))
  {
    assert Effective(Apply(s, FailJournal).disk) == Effective(s.disk);
  }

  lemma TempsKnown(s: State)
    requires Inv(s)
    ensures forall n :: n in s.disk.temps ==> n in s.ever
  {
    hide JournalOk, ContentOk, PcOk;
  }

  /** A merge whose journal cannot be written leaves the disk as it found it. */
  lemma FailedJournal(s: State, order: seq<Name>, id: nat)
    requires Inv(s) && s.pc.Merging? && !IsCompact(s.pc.order) && Day(id) !in s.ever
    ensures
      var written := Apply(s, Advance(order, id));
      written.pc.Written? && Apply(written, FailJournal).disk == s.disk && Apply(written, FailJournal).pc.Idle?
  {
    TempsKnown(s);
    hide Compacted, Inv, IsCompact, ReadAll;
    assert s.disk.temps[Day(id) := Compacted(ReadAll(s.disk.files, s.pc.order))] - {Day(id)} == s.disk.temps;
  }

  lemma PruneKeeps(s: State)
    requires Inv(s) && s.pc.Idle?
    ensures Inv(Apply(s, PruneFiles))
  {
    var s' := Apply(s, PruneFiles);
    assert Effective(s'.disk) == map[];
    EmptyBag(map[]);
    assert FileEids(map[]) == {};
    assert Zeros([]) == [];
  }

  lemma RemoveFileKeeps(s: State, n: Name, rest: seq<Name>)
    requires Inv(s) && s.pc.Idle? && s.disk.journal.None? && n in s.disk.files && IsListing(rest, s.disk.files - {n})
    ensures Inv(Apply(s, RemoveFile(n, rest)))
  {
    hide Eids, Bag, FileEids, Zeros;
    var s' := Apply(s, RemoveFile(n, rest));
    assert Effective(s'.disk) == s'.disk.files;
    ListingHolds(s'.disk.files, rest);
    forall m, r | m in s'.disk.files && r in s'.disk.files[m] ensures r in s'.appended { ReadAllRows(s'.disk.files, rest, r); }
  }

  lemma RemoveDirKeeps(s: State)
    requires Inv(s)
    ensures Inv(Apply(s, RemoveDir))
  {
    assert Effective(Apply(s, RemoveDir).disk) == Effective(s.disk);
  }

  lemma ListingKeeps(s: State, order: seq<Name>, id: nat)
    requires Inv(s) && s.pc.Listing?
    ensures Inv(RunStep(s, order, id))
  {
    hide FilesOk, JournalOk, ContentOk;
    SameFilesKeep(s, RunStep(s, order, id));
  }

  lemma IndexingKeeps(s: State, order: seq<Name>, id: nat)
    requires Inv(s) && s.pc.Indexing?
    ensures Inv(RunStep(s, order, id))
  {
    hide FilesOk, JournalOk, ContentOk, IndexOf;
    SameFilesKeep(s, RunStep(s, order, id));
  }

  lemma RunKeeps(s: State, order: seq<Name>, id: nat)
    requires Inv(s)
    ensures Inv(RunStep(s, order, id))
  {
    if s.pc.Idle? {
    } else if s.pc.Recovering? {
      RecoverKeeps(s);
    } else if s.pc.Listing? {
      ListingKeeps(s, order, id);
    } else if s.pc.Merging? {
      MergingKeeps(s, order, id);
    } else if s.pc.Written? {
      JournalKeeps(s, order, id);
    } else if s.pc.Journalled? {
      RenameKeeps(s, order, id);
    } else {
      IndexingKeeps(s, order, id);
    }
  }

  /** Every action keeps the invariant. */
  lemma StepKeeps(s: State, a: Action)
    requires Inv(s)
    ensures Inv(Apply(s, a))
  {
    match a
    case Append(id, rows) => if Batch(id) !in s.ever { AppendKeeps(s, id, rows); }
    case StartRun => SameFilesKeep(s, Apply(s, a));
    case Crash => SameFilesKeep(s, Apply(s, a));
    case FailJournal => if s.pc.Written? { FailKeeps(s); }
    case RemoveFile(n, rest) =>
      if s.pc.Idle? && s.disk.journal.None? && n in s.disk.files && IsListing(rest, s.disk.files - {n}) { RemoveFileKeeps(s, n, rest); }
    case PruneFiles => if s.pc.Idle? { PruneKeeps(s); }
    case RemoveDir => RemoveDirKeeps(s);
    case Advance(order, id) => RunKeeps(s, order, id);
  }

  lemma RunHistory(s: State, order: seq<Name>, id: nat)
    ensures RunStep(s, order, id).appended == s.appended
  {
    hide Compacted, ReadAll, IndexOf;
  }

  /** What the day is to hold after a step it held before or got by it. */
  lemma StepHistory(s: State, a: Action)
    requires Inv(s)
    ensures !a.Append? && !a.PruneFiles? && !a.RemoveFile? ==> Apply(s, a).appended == s.appended
    ensures forall r :: r in Apply(s, a).appended ==> r in s.appended || (a.Append? && r in a.rows)
  {
    hide IsListing, RunStep, Eids, Bag, FileEids;
    if a.RemoveFile? {
      forall r | r in ReadAll(s.disk.files - {a.n}, a.rest) ensures r in s.appended {
        ReadAllRows(s.disk.files - {a.n}, a.rest, r);
      }
    } else if a.Advance? {
      RunHistory(s, a.order, a.id);
    }
  }

  lemma {:induction false} ExecKeeps(s: State, run: seq<Action>)
    requires Inv(s)
    ensures Inv(Exec(s, run))
  {
    if run == [] {
    } else {
      ExecKeeps(s, run[..|run| - 1]);
      StepKeeps(Exec(s, run[..|run| - 1]), run[|run| - 1]);
    }
  }

  lemma InitOk()
    ensures Inv(INIT)
  {
    assert Effective(INIT.disk) == map[];
    assert ZeroBags(map[]) == map[];
  }

  // ---------------------------------------------------------------- what a reader sees

  /** Dedupe over all finished files, in any listing order. */
  function Visible(d: Disk, order: seq<Name>): seq<Row> {
    Dedupe(ReadAll(d.files, order))
  }

  /** Rows with the same nonzero eid are the same row. */
  ghost predicate Functional(rows: seq<Row>) {
    forall a, b :: a in rows && b in rows && a.eid == b.eid && a.eid != 0 ==> a == b
  }

  lemma InvEids(s: State)
    requires Inv(s)
    ensures FileEids(s.disk.files) == Eids(s.appended)
  {
    var d := s.disk;
    FileEidsSplit(d.files, Superseded(d));
    var stale := Only(d.files, Superseded(d));
    forall e | e in FileEids(stale)
      ensures e in FileEids(Effective(d))
    {
      var n :| n in stale && e in Eids(stale[n]);
      var target := d.journal.value.target;
      assert n in d.journal.value.sources && n in d.files;
      assert target in Effective(d) && Effective(d)[target] == d.files[target];
    }
  }

  /**
   On every run that interleaves appends, the steps of recovery and compaction and crashes
   between any two of them, a reader sees each appended eid exactly once and no other, only rows
   that were appended, and, when no merge waits for its deletes, every zero-eid row exactly as
   often as it was appended.
   */
  lemma ReaderSeesAppended(run: seq<Action>, order: seq<Name>)
    requires IsListing(order, Exec(INIT, run).disk.files)
    ensures
      var s := Exec(INIT, run);
      var seen := Visible(s.disk, order);
      && Eids(seen) == Eids(s.appended)
      && Unique(seen)
      && (forall r :: r in seen ==> r in s.appended)
      && (!Landed(s.disk) ==> multiset(Zeros(seen)) == multiset(Zeros(s.appended)))
  {
    InitOk();
    ExecKeeps(INIT, run);
    VisibleFromInv(Exec(INIT, run), order);
  }

  lemma VisibleFromInv(s: State, order: seq<Name>)
    requires Inv(s) && IsListing(order, s.disk.files)
    ensures
      var seen := Visible(s.disk, order);
      && Eids(seen) == Eids(s.appended)
      && Unique(seen)
      && (forall r :: r in seen ==> r in s.appended)
      && (!Landed(s.disk) ==> multiset(Zeros(seen)) == multiset(Zeros(s.appended)))
  {
    var files := s.disk.files;
    var read := ReadAll(files, order);
    InvEids(s);
    ListingHolds(files, order);
    DedupeKeeps(read);
    forall r | r in Dedupe(read) ensures r in s.appended { ReadAllRows(files, order, r); }
    if !Landed(s.disk) {
      assert Effective(s.disk) == files;
    }
  }

  lemma ListingHolds(files: Files, order: seq<Name>)
    requires IsListing(order, files)
    ensures Eids(ReadAll(files, order)) == FileEids(files)
    ensures multiset(Zeros(ReadAll(files, order))) == Bag(files)
  {
    assert Only(files, Names(order)) == files;
    ReadAllEids(files, order);
    ReadAllBag(files, order);
  }

  /** If an eid always names the same row, the rows themselves are the appended ones. */
  lemma ReaderSeesRows(run: seq<Action>, order: seq<Name>, r: Row)
    requires IsListing(order, Exec(INIT, run).disk.files)
    requires Functional(Exec(INIT, run).appended) && r.eid != 0
    ensures r in Visible(Exec(INIT, run).disk, order) <==> r in Exec(INIT, run).appended
  {
    ReaderSeesAppended(run, order);
    var s := Exec(INIT, run);
    if r in s.appended {
      assert r.eid in Eids(s.appended);
      var v :| v in Visible(s.disk, order) && v.eid == r.eid;
    }
  }
}
