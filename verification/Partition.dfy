/**
 One ns/date directory as a machine whose every file operation is one step. Ingest appends
 batches at any moment; the maintenance run recovers and compacts, and retention then removes the
 directory, all its entries at once or file after file; a crash may fall between any two steps and forgets everything but the disk.
 */
module Partition {
  import opened Prelude
  import opened Rows
  import opened Index
  import Bags

  /** A finished file: an ingest batch or a compacted day. Ids are fresh when a file is written. */
  datatype Name = Batch(id: nat) | Day(id: nat)

  type Files = map<Name, seq<Row>>

  datatype Journal = Journal(target: Name, sources: seq<Name>)

  /**
   Whether the directory exists, finished files, merged files still under their .writing name, the
   journal, and the index files, which lie elsewhere.
   */
  datatype Disk = Disk(
    dir: bool,
    files: Files,
    temps: Files,
    journal: Option<Journal>,
    daily: Option<map<string, Daily>>,
    facets: Option<map<FacetKey, nat>>,
    keys: Option<map<DataKey, nat>>)

  /** Where a recovery continues: it runs at the start of a day's turn and again after the rename. */
  datatype After = ToListing | ToIndexing(rows: seq<Row>)

  datatype Stage =
    | ReadJournal
    | RemoveSources(j: Journal, k: nat)
    | RemoveTemp(j: Journal)
    | DropJournal(j: Journal)

  /** The program point of the maintenance run. */
  datatype Pc =
    | Idle
    | Recovering(stage: Stage, after: After)
    | Listing
    | Merging(order: seq<Name>)
    | Written(order: seq<Name>, target: Name, rows: seq<Row>)
    | Journalled(order: seq<Name>, target: Name, rows: seq<Row>)
    | Indexing(rows: seq<Row>, done: nat)

  /** The last two fields are history: every file content ever written, and the rows the day is to hold: those appended, less what retention removed. */
  datatype State = State(disk: Disk, pc: Pc, ever: Files, appended: seq<Row>)

  datatype Action =
    | Append(id: nat, rows: seq<Row>)
    | StartRun
    | Advance(order: seq<Name>, id: nat)
    | FailJournal
    | RemoveFile(n: Name, rest: seq<Name>)
    | PruneFiles
    | RemoveDir
    | Crash

  const INIT: State := State(Disk(false, map[], map[], None, None, None, None), Idle, map[], [])

  // ---------------------------------------------------------------- reading a directory

  /** The rows of the named files, file after file. */
  function ReadAll(files: Files, order: seq<Name>): seq<Row> {
    if order == [] then []
    else
      var n := order[|order| - 1];
      ReadAll(files, order[..|order| - 1]) + (if n in files then files[n] else [])
  }

  /** A listing names every finished file once; its order is the directory's. */
  ghost predicate IsListing(order: seq<Name>, files: Files) {
    Distinct(order) && forall n :: n in order <==> n in files
  }

  predicate IsCompact(order: seq<Name>) {
    |order| == 1 && order[0].Day?
  }

  predicate HasIndex(d: Disk) {
    d.daily.Some? && d.facets.Some? && d.keys.Some?
  }

  // ---------------------------------------------------------------- steps

  function Resume(after: After): Pc {
    match after
    case ToListing => Listing
    case ToIndexing(rows) => Indexing(rows, 0)
  }

  function RecoverStep(s: State, stage: Stage, after: After): State {
    var d := s.disk;
    match stage
    case ReadJournal =>
      if d.journal.None? then s.(pc := Resume(after))
      else
        var j := d.journal.value;
        s.(pc := Recovering(if j.target in d.files then RemoveSources(j, 0) else RemoveTemp(j), after))
    case RemoveSources(j, k) =>
      if k < |j.sources| then
        var d' := if j.sources[k] == j.target then d else d.(files := d.files - {j.sources[k]});
        s.(disk := d', pc := Recovering(RemoveSources(j, k + 1), after))
      else
        s.(pc := Recovering(DropJournal(j), after))
    case RemoveTemp(j) =>
      s.(disk := d.(temps := d.temps - {j.target}), pc := Recovering(DropJournal(j), after))
    case DropJournal(j) =>
      s.(disk := d.(journal := None), pc := Resume(after))
  }

  function WritePiece(d: Disk, index: Index, piece: nat): Disk {
    if piece == 0 then d.(daily := Some(index.daily))
    else if piece == 1 then d.(facets := Some(index.facets))
    else d.(keys := Some(index.keys))
  }

  /** The next file operation of the maintenance run. */
  ghost function RunStep(s: State, order: seq<Name>, id: nat): State {
    var d := s.disk;
    match s.pc
    case Idle => s
    case Recovering(stage, after) => RecoverStep(s, stage, after)
    case Listing =>
      if !IsListing(order, d.files) then s
      else if order == [] || (IsCompact(order) && HasIndex(d)) then s.(pc := Idle)
      else s.(pc := Merging(order))
    case Merging(names) =>
      var rows := Compacted(ReadAll(d.files, names));
      if IsCompact(names) then s.(pc := Indexing(rows, 0))
      else if Day(id) in s.ever then s
      else s.(disk := d.(temps := d.temps[Day(id) := rows]), ever := s.ever[Day(id) := rows], pc := Written(names, Day(id), rows))
    case Written(names, target, rows) =>
      s.(disk := d.(journal := Some(Journal(target, names))), pc := Journalled(names, target, rows))
    case Journalled(names, target, rows) =>
      if target !in d.temps then s.(pc := Idle)
      else
        s.(disk := d.(files := d.files[target := d.temps[target]], temps := d.temps - {target}),
           pc := Recovering(ReadJournal, ToIndexing(rows)))
    case Indexing(rows, done) =>
      s.(disk := WritePiece(d, IndexOf(rows), done), pc := if done < 2 then Indexing(rows, done + 1) else Idle)
  }

  /** A directory whose entries are gone. */
  function Emptied(d: Disk): Disk {
    d.(files := map[], temps := map[], journal := None)
  }

  /** One step; an action that is not possible in a state leaves it unchanged. */
  ghost function Apply(s: State, a: Action): State {
    match a
    case Append(id, rows) =>
      if Batch(id) in s.ever then s
      else
        s.(disk := s.disk.(dir := true, files := s.disk.files[Batch(id) := rows]),
           ever := s.ever[Batch(id) := rows], appended := s.appended + rows)
    case StartRun => if s.pc.Idle? then s.(pc := Recovering(ReadJournal, ToListing)) else s
    case Advance(order, id) => RunStep(s, order, id)
    case FailJournal =>
      if s.pc.Written? then s.(disk := s.disk.(temps := s.disk.temps - {s.pc.target}), pc := Idle) else s
    case RemoveFile(n, rest) =>
      if s.pc.Idle? && s.disk.journal.None? && n in s.disk.files && IsListing(rest, s.disk.files - {n})
      then s.(disk := s.disk.(files := s.disk.files - {n}), appended := ReadAll(s.disk.files - {n}, rest)) else s
    case PruneFiles => if s.pc.Idle? then s.(disk := Emptied(s.disk), appended := []) else s
    case RemoveDir => if s.pc.Idle? && s.disk == Emptied(s.disk) then s.(disk := s.disk.(dir := false)) else s
    case Crash => s.(pc := Idle)
  }

  /** The state after a whole run. */
  ghost function Exec(s: State, run: seq<Action>): State {
    if run == [] then s else Apply(Exec(s, run[..|run| - 1]), run[|run| - 1])
  }

  // ---------------------------------------------------------------- what a set of files holds

  function Only(files: Files, ns: set<Name>): Files {
    map n | n in files && n in ns :: files[n]
  }

  function Names(order: seq<Name>): set<Name> {
    set n | n in order
  }

  ghost function FileEids(files: Files): set<nat> {
    set n, e | n in files && e in Eids(files[n]) :: e
  }

  /** The zero-eid rows of one file, with multiplicity. */
  ghost function ZeroBag(rows: seq<Row>): multiset<Row> {
    multiset(Zeros(rows))
  }

  ghost function ZeroBags(files: Files): map<Name, multiset<Row>> {
    map n | n in files :: ZeroBag(files[n])
  }

  /** The zero-eid rows of all files, with multiplicity. */
  ghost function Bag(files: Files): multiset<Row> {
    Bags.Sum(ZeroBags(files))
  }

  lemma EmptyBag(files: Files)
    requires files == map[]
    ensures Bag(files) == multiset{}
  {
    assert ZeroBags(files) == map[];
  }

  lemma BagPut(files: Files, n: Name, rows: seq<Row>)
    requires n !in files
    ensures Bag(files[n := rows]) == ZeroBag(rows) + Bag(files)
  {
    ZeroBagsPut(files, n, rows);
    Bags.SumPut(ZeroBags(files), n, ZeroBag(rows));
  }

  lemma ZeroBagsPut(files: Files, n: Name, rows: seq<Row>)
    ensures ZeroBags(files[n := rows]) == ZeroBags(files)[n := ZeroBag(rows)]
  {
  }

  lemma ZeroBagsSplit(files: Files, ns: set<Name>)
    ensures ZeroBags(files - ns) == ZeroBags(files) - ns
    ensures ZeroBags(Only(files, ns)) == Bags.Restrict(ZeroBags(files), ns)
  {
  }

  lemma FileEidsPut(files: Files, n: Name, rows: seq<Row>)
    requires n !in files
    ensures FileEids(files[n := rows]) == FileEids(files) + Eids(rows)
  {
    var more := files[n := rows];
    assert n in more && more[n] == rows;
    forall e | e in FileEids(files) ensures e in FileEids(more) {
      var m :| m in files && e in Eids(files[m]);
      assert m in more && more[m] == files[m];
    }
  }

  lemma {:induction false} ZerosAppend(a: seq<Row>, b: seq<Row>)
    ensures Zeros(a + b) == Zeros(a) + Zeros(b)
  {
    if b == [] {
      assert a + b == a;
    } else {
      assert (a + b)[..|a + b| - 1] == a + b[..|b| - 1];
      ZerosAppend(a, b[..|b| - 1]);
    }
  }

  lemma OnlyStep(files: Files, before: seq<Name>, n: Name)
    requires n !in before
    ensures Only(files, Names(before + [n])) ==
      if n in files then Only(files, Names(before))[n := files[n]] else Only(files, Names(before))
    ensures n !in Only(files, Names(before))
  {
  }

  /** Reading distinct files yields exactly what those files hold. */
  lemma {:induction false} ReadAllEids(files: Files, order: seq<Name>)
    requires Distinct(order)
    ensures Eids(ReadAll(files, order)) == FileEids(Only(files, Names(order)))
  {
    if order == [] {
    } else {
      var before, n := order[..|order| - 1], order[|order| - 1];
      ReadAllEids(files, before);
      assert order == before + [n];
      OnlyStep(files, before, n);
      if n in files {
        EidsAppend(ReadAll(files, before), files[n]);
        FileEidsPut(Only(files, Names(before)), n, files[n]);
      } else {
        assert ReadAll(files, order) == ReadAll(files, before);
      }
    }
  }

  lemma {:induction false} ReadAllBag(files: Files, order: seq<Name>)
    requires Distinct(order)
    ensures ZeroBag(ReadAll(files, order)) == Bag(Only(files, Names(order)))
  {
    hide Bag;
    if order == [] {
      EmptyBag(Only(files, Names(order)));
    } else {
      var before, n := order[..|order| - 1], order[|order| - 1];
      ReadAllBag(files, before);
      assert order == before + [n];
      OnlyStep(files, before, n);
      if n in files {
        ZerosAppend(ReadAll(files, before), files[n]);
        BagPut(Only(files, Names(before)), n, files[n]);
      } else {
        assert ReadAll(files, order) == ReadAll(files, before);
      }
    }
  }

  lemma {:induction false} ReadAllRows(files: Files, order: seq<Name>, r: Row)
    ensures r in ReadAll(files, order) <==> exists n :: n in order && n in files && r in files[n]
  {
    if order == [] {
    } else {
      var before, n := order[..|order| - 1], order[|order| - 1];
      ReadAllRows(files, before, r);
      assert order == before + [n];
    }
  }

  /** Replacing some files by their compacted merge keeps the eids and the zero-eid rows. */
  lemma MergeHolds(files: Files, order: seq<Name>, target: Name)
    requires Distinct(order) && target !in files
    ensures
      var rows := Compacted(ReadAll(files, order));
      var merged := (files - Names(order))[target := rows];
      FileEids(merged) == FileEids(files) && Bag(merged) == Bag(files)
  {
    var read := ReadAll(files, order);
    var rest := files - Names(order);
    ReadAllEids(files, order);
    ReadAllBag(files, order);
    CompactedKeeps(read);
    FileEidsPut(rest, target, Compacted(read));
    BagPut(rest, target, Compacted(read));
    FileEidsSplit(files, Names(order));
    BagSplit(files, Names(order));
  }

  lemma FileEidsSplit(files: Files, ns: set<Name>)
    ensures FileEids(files) == FileEids(files - ns) + FileEids(Only(files, ns))
  {
    var rest, some := files - ns, Only(files, ns);
    forall e | e in FileEids(files) ensures e in FileEids(rest) + FileEids(some) {
      var n :| n in files && e in Eids(files[n]);
      assert if n in ns then n in some && some[n] == files[n] else n in rest && rest[n] == files[n];
    }
  }

  lemma BagSplit(files: Files, ns: set<Name>)
    ensures Bag(files) == Bag(files - ns) + Bag(Only(files, ns))
  {
    ZeroBagsSplit(files, ns);
    Bags.SumSplit(ZeroBags(files), ns);
  }
}
