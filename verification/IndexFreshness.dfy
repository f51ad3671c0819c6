/**
 When the stored indexes of a compacted day are those of its rows. They are, unless a run stops
 between the rename and the third index write of a day that already had indexes: the next run
 finds one day file with three index files and leaves them alone.
 */
module IndexFreshness {
  import opened Prelude
  import opened Rows
  import opened Index
  import opened Partition
  import opened PartitionSafety
  import opened Maintenance

  function StoredIndex(d: Disk): Index
    requires HasIndex(d)
  {
    Index(d.daily.value, d.facets.value, d.keys.value)
  }

  /** The merged file is in place but its indexes are not all written. */
  predicate InWindow(pc: Pc) {
    (pc.Recovering? && pc.after.ToIndexing?) || pc.Indexing?
  }

  function WindowRows(pc: Pc): seq<Row>
    requires InWindow(pc)
  {
    if pc.Indexing? then pc.rows else pc.after.rows
  }

  /** The stop that loses freshness: inside the window, with all three index files on disk. */
  predicate Interrupts(s: State, a: Action) {
    a.Crash? && InWindow(s.pc) && HasIndex(s.disk)
  }

  ghost predicate Uninterrupted(run: seq<Action>) {
    run == [] ||
    (var before, last := run[..|run| - 1], run[|run| - 1];
     Uninterrupted(before) && !Interrupts(Exec(INIT, before), last))
  }

  ghost predicate DaysHold(files: Files, rows: seq<Row>) {
    forall n :: n in files && n.Day? ==> files[n] == rows
  }

  /** Outside the window every day file is the one the stored indexes were built from. */
  ghost predicate DaysIndexed(d: Disk) {
    HasIndex(d) ==> forall n :: n in d.files && n.Day? ==> IndexOf(d.files[n]) == StoredIndex(d)
  }

  /** Inside the window only the merged file will be left, and the pieces written are its own. */
  ghost predicate WindowOk(s: State) {
    var d := s.disk;
    match s.pc
    case Recovering(stage, ToIndexing(rows)) =>
      && Landed(d) && !stage.RemoveTemp?
      && d.files[d.journal.value.target] == rows
      && (forall n :: n in d.files && n.Day? ==> n == d.journal.value.target || n in d.journal.value.sources)
    case Indexing(rows, done) =>
      && DaysHold(d.files, rows)
      && (done >= 1 ==> d.daily == Some(IndexOf(rows).daily))
      && (done >= 2 ==> d.facets == Some(IndexOf(rows).facets))
    case _ => true
  }

  ghost predicate IndexOk(s: State) {
    && (s.disk.facets.Some? ==> s.disk.daily.Some?)
    && (s.disk.keys.Some? ==> s.disk.facets.Some?)
    && (!InWindow(s.pc) ==> DaysIndexed(s.disk))
    && WindowOk(s)
  }

  ghost predicate Fresh(s: State) {
    Inv(s) && IndexOk(s)
  }

  lemma AppendFresh(s: State, id: nat, rows: seq<Row>)
    requires Fresh(s)
    ensures Fresh(Apply(s, Append(id, rows)))
  {
    StepKeeps(s, Append(id, rows));
  }

  /** A recovery outside the window only removes files, never an index. */
  lemma RecoverOutside(s: State)
    requires IndexOk(s) && s.pc.Recovering? && s.pc.after.ToListing?
    ensures IndexOk(RecoverStep(s, s.pc.stage, s.pc.after))
  {
    hide IndexOf;
    var d, d' := s.disk, RecoverStep(s, s.pc.stage, s.pc.after).disk;
    assert forall n :: n in d'.files ==> n in d.files && d'.files[n] == d.files[n];
  }

  lemma RecoverInside(s: State)
    requires s.pc.Recovering? && IndexOk(s) && StageOk(s.disk, s.pc.stage)
    requires s.pc.after.ToIndexing? && !s.pc.stage.DropJournal?
    ensures IndexOk(RecoverStep(s, s.pc.stage, s.pc.after))
  {
    var d, d' := s.disk, RecoverStep(s, s.pc.stage, s.pc.after).disk;
    assert d'.journal == d.journal;
    assert forall n :: n in d'.files ==> n in d.files && d'.files[n] == d.files[n];
  }

  lemma DropFresh(s: State)
    requires s.pc.Recovering? && IndexOk(s) && StageOk(s.disk, s.pc.stage)
    requires s.pc.after.ToIndexing? && s.pc.stage.DropJournal?
    ensures IndexOk(RecoverStep(s, s.pc.stage, s.pc.after))
  {
    assert DaysHold(s.disk.files, s.pc.after.rows);
  }

  lemma RecoverFresh(s: State)
    requires Fresh(s) && s.pc.Recovering?
    ensures Fresh(RecoverStep(s, s.pc.stage, s.pc.after))
  {
    RecoverKeeps(s);
    assert StageOk(s.disk, s.pc.stage);
    hide Inv, IndexOk;
    if s.pc.after.ToListing? {
      RecoverOutside(s);
    } else if s.pc.stage.DropJournal? {
      DropFresh(s);
    } else {
      RecoverInside(s);
    }
  }

  /** The rows of a day that is already a single file are that file. */
  lemma CompactRows(s: State)
    requires Inv(s) && s.pc.Merging? && IsCompact(s.pc.order)
    ensures DaysHold(s.disk.files, Compacted(ReadAll(s.disk.files, s.pc.order)))
  {
    hide ContentOk, JournalOk;
    assert s.pc.order[0] in s.pc.order;
    CompactedDay(s.disk.files, s.pc.order);
  }

  lemma MergingFresh(s: State, order: seq<Name>, id: nat)
    requires Fresh(s) && s.pc.Merging?
    ensures Fresh(RunStep(s, order, id))
  {
    MergingKeeps(s, order, id);
    if IsCompact(s.pc.order) { CompactRows(s); }
  }

  lemma RenameFresh(s: State, order: seq<Name>, id: nat)
    requires Fresh(s) && s.pc.Journalled?
    ensures Fresh(RunStep(s, order, id))
  {
    RenameKeeps(s, order, id);
  }

  lemma IndexingFresh(s: State, order: seq<Name>, id: nat)
    requires Fresh(s) && s.pc.Indexing?
    ensures Fresh(RunStep(s, order, id))
  {
    IndexingKeeps(s, order, id);
  }

  /** The steps that touch neither finished files nor indexes. */
  lemma QuietFresh(s: State, order: seq<Name>, id: nat)
    requires IndexOk(s) && (s.pc.Idle? || s.pc.Listing? || s.pc.Written?)
    ensures IndexOk(RunStep(s, order, id))
  {
  }

  lemma RunFresh(s: State, order: seq<Name>, id: nat)
    requires Fresh(s)
    ensures Fresh(RunStep(s, order, id))
  {
    hide Inv, IndexOk;
    if s.pc.Recovering? {
      RecoverFresh(s);
    } else if s.pc.Merging? {
      MergingFresh(s, order, id);
    } else if s.pc.Journalled? {
      RenameFresh(s, order, id);
    } else if s.pc.Indexing? {
      IndexingFresh(s, order, id);
    } else {
      RunKeeps(s, order, id);
      QuietFresh(s, order, id);
    }
  }

  /** Retention leaves the index files where they are. */
  lemma PruneFresh(s: State, a: Action)
    requires Fresh(s) && (a.RemoveFile? || a.PruneFiles? || a.RemoveDir?)
    ensures Fresh(Apply(s, a))
  {
    StepKeeps(s, a);
    hide Inv, IndexOf;
  }

  lemma StopFresh(s: State, a: Action)
    requires Fresh(s) && !Interrupts(s, a) && (a.StartRun? || a.FailJournal? || a.Crash?)
    ensures Fresh(Apply(s, a))
  {
    StepKeeps(s, a);
    hide Inv, IndexOf;
  }

  lemma StepFresh(s: State, a: Action)
    requires Fresh(s) && !Interrupts(s, a)
    ensures Fresh(Apply(s, a))
  {
    hide Fresh, RunStep;
    match a
    case Append(id, rows) => AppendFresh(s, id, rows);
    case Advance(order, id) => RunFresh(s, order, id);
    case StartRun => StopFresh(s, a);
    case FailJournal => StopFresh(s, a);
    case RemoveFile(_, _) => PruneFresh(s, a);
    case PruneFiles => PruneFresh(s, a);
    case RemoveDir => PruneFresh(s, a);
    case Crash => StopFresh(s, a);
  }

  lemma {:induction false} ExecFresh(run: seq<Action>)
    requires Uninterrupted(run)
    ensures Fresh(Exec(INIT, run))
  {
    if run == [] {
      InitOk();
    } else {
      ExecFresh(run[..|run| - 1]);
      StepFresh(Exec(INIT, run[..|run| - 1]), run[|run| - 1]);
    }
  }

  /** A day is served from its stored indexes when it is one day file with all three of them. */
  ghost predicate Served(d: Disk, order: seq<Name>) {
    IsListing(order, d.files) && IsCompact(order) && HasIndex(d)
  }

  /**
   On every run that is never stopped inside the window of a day with indexes, a day served from
   its stored indexes is served what indexing its visible rows would give.
   */
  lemma ServedIndexIsFresh(run: seq<Action>, order: seq<Name>)
    requires Uninterrupted(run)
    requires Served(Exec(INIT, run).disk, order) && !InWindow(Exec(INIT, run).pc)
    ensures StoredIndex(Exec(INIT, run).disk) == IndexOf(Visible(Exec(INIT, run).disk, order))
  {
    ExecFresh(run);
    SingleVisible(Exec(INIT, run), order);
  }

  lemma SingleVisible(s: State, order: seq<Name>)
    requires Inv(s) && IsListing(order, s.disk.files) && IsCompact(order)
    ensures order[0] in s.disk.files && Visible(s.disk, order) == s.disk.files[order[0]]
  {
    hide ContentOk, JournalOk, PcOk;
    assert order[0] in order;
    SingleRead(s.disk.files, order);
    DedupeFixed(s.disk.files[order[0]]);
  }

  lemma WindowTarget(s: State, order: seq<Name>)
    requires Fresh(s) && InWindow(s.pc)
    requires IsListing(order, RecoverDisk(s.disk).files) && IsCompact(order)
    ensures RecoverDisk(s.disk).files[order[0]] == WindowRows(s.pc)
  {
    var files := RecoverDisk(s.disk).files;
    assert order[0] in order;
    assert order[0] in files;
  }

  /** The turn finds one day file: its listing afterwards is the same file. */
  lemma SameDay(d: Disk, order: seq<Name>, id: nat, listing: seq<Name>)
    requires IsListing(order, RecoverDisk(d).files) && IsCompact(order)
    requires IsListing(listing, CompactDisk(d, order, id).files)
    ensures CompactDisk(d, order, id).files == RecoverDisk(d).files
    ensures order[0] in RecoverDisk(d).files && IsCompact(listing) && listing[0] == order[0]
  {
    assert order[0] in order;
    assert forall n :: n in listing <==> n in order;
    assert order[0] in listing;
    assert |listing| > 1 ==> listing[0] != listing[1];
    forall i | 0 <= i < |listing|
      ensures listing[i] == order[0]
    {
      assert listing[i] in listing;
    }
  }

  lemma ServedAfterMerge(s: State, order: seq<Name>, id: nat, listing: seq<Name>)
    requires Inv(s) && Day(id) !in s.ever
    requires IsListing(order, RecoverDisk(s.disk).files) && order != [] && !IsCompact(order)
    requires Served(CompactDisk(s.disk, order, id), listing)
    ensures
      var d := CompactDisk(s.disk, order, id);
      listing[0] in d.files && d.files[listing[0]] == Compacted(ReadAll(RecoverDisk(s.disk).files, order))
      && StoredIndex(d) == IndexOf(d.files[listing[0]])
  {
    var d1 := RecoverDisk(s.disk);
    RecoverIdempotent(s.disk);
    MergedAlone(d1, order, id);
    assert listing[0] in listing;
  }

  lemma CompactedDay(files: Files, order: seq<Name>)
    requires IsCompact(order) && order[0] in files && Unique(files[order[0]]) && Sorted(files[order[0]])
    ensures Compacted(ReadAll(files, order)) == files[order[0]]
  {
    SingleRead(files, order);
    CompactedFixed(files[order[0]]);
  }

  lemma WindowDay(s: State, order: seq<Name>)
    requires Fresh(s) && InWindow(s.pc)
    requires IsListing(order, RecoverDisk(s.disk).files) && IsCompact(order)
    ensures order[0] in RecoverDisk(s.disk).files
    ensures Unique(RecoverDisk(s.disk).files[order[0]]) && Sorted(RecoverDisk(s.disk).files[order[0]])
  {
    assert order[0] in order;
    assert order[0] in s.disk.files;
  }

  lemma ServedAfterCompact(s: State, order: seq<Name>, id: nat, listing: seq<Name>)
    requires Fresh(s) && InWindow(s.pc)
    requires IsListing(order, RecoverDisk(s.disk).files) && IsCompact(order)
    requires Served(CompactDisk(s.disk, order, id), listing)
    ensures
      var d := CompactDisk(s.disk, order, id);
      listing[0] in d.files && d.files[listing[0]] == WindowRows(s.pc)
      && StoredIndex(d) == if HasIndex(s.disk) then StoredIndex(s.disk) else IndexOf(WindowRows(s.pc))
  {
    SameDay(s.disk, order, id, listing);
    WindowDay(s, order);
    WindowTarget(s, order);
    CompactedDay(RecoverDisk(s.disk).files, order);
  }

  lemma ServedVisible(s: State, order: seq<Name>, id: nat, listing: seq<Name>)
    requires Inv(s) && Day(id) !in s.ever
    requires IsListing(order, RecoverDisk(s.disk).files)
    requires Served(CompactDisk(s.disk, order, id), listing)
    ensures
      var d := CompactDisk(s.disk, order, id);
      listing[0] in d.files && Visible(d, listing) == d.files[listing[0]]
  {
    hide Inv, Visible, CompactDisk, RecoverDisk, HasIndex;
    StepKeeps(s, Crash);
    var run, s' := TurnFinishes(Apply(s, Crash), order, id);
    SingleVisible(s', listing);
  }

  lemma ServedTurn(d: Disk, order: seq<Name>, id: nat, listing: seq<Name>)
    requires IsListing(order, RecoverDisk(d).files) && Served(CompactDisk(d, order, id), listing)
    ensures order != []
  {
    assert listing[0] in listing;
  }

  /**
   What a stop inside the window does, exactly: after the next undisturbed turn the day is served
   its own indexes if and only if that turn did not take the branch that skips an already compact
   and indexed day, or the indexes on disk happened to be the right ones already.
   */
  lemma StopDecidesFreshness(s: State, order: seq<Name>, id: nat, listing: seq<Name>)
    requires Fresh(s) && InWindow(s.pc) && Day(id) !in s.ever
    requires IsListing(order, RecoverDisk(s.disk).files)
    requires Served(CompactDisk(s.disk, order, id), listing)
    ensures
      var d := CompactDisk(s.disk, order, id);
      StoredIndex(d) == IndexOf(Visible(d, listing)) <==>
        (IsCompact(order) && HasIndex(s.disk) ==> StoredIndex(s.disk) == IndexOf(WindowRows(s.pc)))
  {
    ServedVisible(s, order, id, listing);
    if IsCompact(order) {
      ServedAfterCompact(s, order, id, listing);
    } else {
      ServedTurn(s.disk, order, id, listing);
      ServedAfterMerge(s, order, id, listing);
    }
  }

  lemma SingleRead(files: Files, order: seq<Name>)
    requires IsCompact(order) && order[0] in files
    ensures ReadAll(files, order) == files[order[0]]
  {
    assert order[..0] == [];
    assert ReadAll(files, order[..0]) == [];
  }

  // ---------------------------------------------------------------- a run that leaves stale indexes

  function Plain(eid: nat): Row {
    Row(eid, 0, "signup", "", [], "", "", "", "", None, "", None)
  }

  lemma {:induction false} CountAll(rows: seq<Row>, event: string)
    requires forall r :: r in rows ==> r.event == event
    ensures CountOf(rows, event) == |rows|
  {
    if rows == [] {
    } else {
      CountAll(rows[..|rows| - 1], event);
      assert rows[|rows| - 1] in rows;
    }
  }

  lemma SignupCount(rows: seq<Row>)
    requires rows != [] && Unique(rows) && forall r :: r in rows ==> r.event == "signup"
    ensures |Compacted(rows)| == |rows|
    ensures "signup" in IndexOf(Compacted(rows)).daily && IndexOf(Compacted(rows)).daily["signup"].count == |rows|
  {
    var c := Compacted(rows);
    DedupeFixed(rows);
    SortRowsStable(rows);
    assert |multiset(c)| == |c| && |multiset(rows)| == |rows|;
    assert c[0] in c;
    CountAll(c, "signup");
  }

  lemma ReadTwo(files: Files, a: Name, b: Name)
    requires a in files && b in files
    ensures ReadAll(files, [a]) == files[a] && ReadAll(files, [a, b]) == files[a] + files[b]
  {
    assert [a][..0] == [] && [a, b][..1] == [a];
    assert ReadAll(files, []) == [];
  }

  /** One signup, compacted and indexed. */
  lemma FirstDay() returns (run: seq<Action>, s: State)
    ensures s == Exec(INIT, run) && Inv(s) && s.pc.Idle? && s.ever.Keys <= {Batch(0), Day(0)}
    ensures s.disk.files == map[Day(0) := Compacted([Plain(1)])] && s.disk.journal.None?
    ensures HasIndex(s.disk) && StoredIndex(s.disk) == IndexOf(Compacted([Plain(1)]))
  {
    hide Inv, Compacted, IndexOf, Exec, Plain;
    InitOk();
    var a, order := Append(0, [Plain(1)]), [Batch(0)];
    ExecOne(INIT, a);
    StepKeeps(INIT, a);
    var s0 := Apply(INIT, a);
    ReadTwo(s0.disk.files, Batch(0), Batch(0));
    MergedAlone(s0.disk, order, 0);
    var turn;
    turn, s := TurnFinishes(s0, order, 0);
    run := [a] + turn;
    ExecAppend(INIT, [a], turn);
  }

  /** A compacted and indexed day with nothing pending. */
  ghost predicate Rests(s: State, one: seq<Row>) {
    && Inv(s) && s.pc.Idle? && s.disk.journal.None? && HasIndex(s.disk)
    && s.disk.files == map[Day(0) := one] && s.ever.Keys <= {Batch(0), Day(0)}
  }

  lemma ListingTwo(files: Files, one: seq<Row>, late: seq<Row>)
    requires files == map[Day(0) := one][Batch(1) := late]
    ensures IsListing([Day(0), Batch(1)], files) && ReadAll(files, [Day(0), Batch(1)]) == one + late
  {
    ReadTwo(files, Day(0), Batch(1));
  }

  lemma LateAppend(s: State, one: seq<Row>, late: seq<Row>) returns (s': State)
    requires Rests(s, one)
    ensures s' == Exec(s, [Append(1, late)]) && Inv(s') && s'.pc.Idle?
    ensures s'.disk == s.disk.(dir := true, files := s.disk.files[Batch(1) := late])
    ensures Day(1) !in s'.ever && Day(2) !in s'.ever
  {
    hide Inv;
    ExecOne(s, Append(1, late));
    StepKeeps(s, Append(1, late));
    s' := Apply(s, Append(1, late));
  }

  /** Late rows arrive and the next turn reads both files. */
  lemma LateDecision(s: State, one: seq<Row>, late: seq<Row>) returns (run: seq<Action>, s': State)
    requires Rests(s, one)
    ensures s' == Exec(s, run) && Inv(s')
    ensures s'.pc.Merging? && !IsCompact(s'.pc.order) && s'.disk == s.disk.(dir := true, files := s'.disk.files)
    ensures IsListing(s'.pc.order, s'.disk.files) && ReadAll(s'.disk.files, s'.pc.order) == one + late
    ensures Day(1) !in s'.ever && Day(2) !in s'.ever
  {
    var s1 := LateAppend(s, one, late);
    ListingTwo(s1.disk.files, one, late);
    var order, decide := [Day(0), Batch(1)], [];
    decide, s' := ToDecision(s1, order, 1);
    ExecAppend(s, [Append(1, late)], decide);
    run := [Append(1, late)] + decide;
  }

  lemma RenamedIndex(d: Disk, order: seq<Name>, id: nat, rows: seq<Row>)
    requires HasIndex(d)
    ensures HasIndex(RenamedDisk(d, order, id, rows)) && StoredIndex(RenamedDisk(d, order, id, rows)) == StoredIndex(d)
  {
  }

  /** The merge of both files is renamed into place. */
  lemma LateMerge(s: State) returns (run: seq<Action>, s': State)
    requires Inv(s) && s.pc.Merging? && !IsCompact(s.pc.order) && Day(1) !in s.ever && Day(2) !in s.ever
    requires HasIndex(s.disk) && s.disk.journal.None? && IsListing(s.pc.order, s.disk.files)
    ensures s' == Exec(s, run) && Inv(s') && Day(2) !in s'.ever
    ensures HasIndex(s'.disk) && StoredIndex(s'.disk) == StoredIndex(s.disk)
    ensures RecoverDisk(s'.disk).files == map[Day(1) := Compacted(ReadAll(s.disk.files, s.pc.order))]
  {
    run := MergeFinishes(s, [], 1);
    ExecKeeps(s, run);
    s' := Exec(s, run);
    MergedAlone(s.disk, s.pc.order, 1);
    RenamedIndex(s.disk, s.pc.order, 1, Compacted(ReadAll(s.disk.files, s.pc.order)));
  }

  lemma SkippedTurn(d: Disk, n: nat, rows: seq<Row>, id: nat)
    requires HasIndex(d) && RecoverDisk(d).files == map[Day(n) := rows]
    ensures IsListing([Day(n)], RecoverDisk(d).files)
    ensures CompactDisk(d, [Day(n)], id) == RecoverDisk(d)
    ensures HasIndex(RecoverDisk(d)) && StoredIndex(RecoverDisk(d)) == StoredIndex(d)
  {
    RecoveredIndex(d);
    hide RecoverDisk, StoredIndex;
  }

  lemma RecoveredIndex(d: Disk)
    ensures HasIndex(d) ==> HasIndex(RecoverDisk(d)) && StoredIndex(RecoverDisk(d)) == StoredIndex(d)
  {
  }

  /** The daemon stops; the next turn is undisturbed and leaves the indexes as they were. */
  lemma StopAndTurn(s: State, rows: seq<Row>) returns (run: seq<Action>, s': State)
    requires Inv(s) && Day(2) !in s.ever && HasIndex(s.disk) && RecoverDisk(s.disk).files == map[Day(1) := rows]
    ensures s' == Exec(s, run) && Inv(s') && s'.pc.Idle?
    ensures HasIndex(s'.disk) && StoredIndex(s'.disk) == StoredIndex(s.disk) && s'.disk.files == map[Day(1) := rows]
  {
    hide Inv, CompactDisk, RecoverDisk, StoredIndex, Exec;
    StepKeeps(s, Crash);
    ExecOne(s, Crash);
    SkippedTurn(s.disk, 1, rows, 2);
    var turn;
    turn, s' := TurnFinishes(Apply(s, Crash), [Day(1)], 2);
    ExecAppend(s, [Crash], turn);
    run := [Crash] + turn;
  }

  lemma LateTurn(s: State, one: seq<Row>, late: seq<Row>) returns (run: seq<Action>, s': State)
    requires Rests(s, one)
    ensures s' == Exec(s, run) && Inv(s') && s'.pc.Idle?
    ensures HasIndex(s'.disk) && StoredIndex(s'.disk) == StoredIndex(s.disk)
    ensures s'.disk.files == map[Day(1) := Compacted(one + late)]
  {
    var decide, s1 := LateDecision(s, one, late);
    var merge, s2 := LateMerge(s1);
    var rest;
    rest, s' := StopAndTurn(s2, Compacted(one + late));
    ExecAppend(s1, merge, rest);
    ExecAppend(s, decide, merge + rest);
    run := decide + (merge + rest);
  }

  lemma StaleServed(s: State, one: seq<Row>, all: seq<Row>)
    requires Inv(s) && HasIndex(s.disk) && s.disk.files == map[Day(1) := all] && StoredIndex(s.disk) == IndexOf(one)
    requires IndexOf(one) != IndexOf(all)
    ensures Served(s.disk, [Day(1)]) && StoredIndex(s.disk) != IndexOf(Visible(s.disk, [Day(1)]))
  {
    hide Inv, Visible, IndexOf;
    SingleVisible(s, [Day(1)]);
  }

  /**
   The unconditional claim is false: after this run, which ends with an undisturbed turn, the day
   is served indexes that count one signup while a reader sees two.
   */
  lemma StaleIndexRun() returns (run: seq<Action>, order: seq<Name>)
    ensures
      var s := Exec(INIT, run);
      Served(s.disk, order) && s.pc.Idle? && StoredIndex(s.disk) != IndexOf(Visible(s.disk, order))
  {
    var first, s1 := FirstDay();
    var more, s := LateTurn(s1, Compacted([Plain(1)]), [Plain(2)]);
    ExecAppend(INIT, first, more);
    run, order := first + more, [Day(1)];
    SignupCount([Plain(1)]);
    TwoSignups();
    StaleServed(s, Compacted([Plain(1)]), Compacted(Compacted([Plain(1)]) + [Plain(2)]));
  }

  lemma TwoSignups()
    ensures
      var rows := Compacted(Compacted([Plain(1)]) + [Plain(2)]);
      "signup" in IndexOf(rows).daily && IndexOf(rows).daily["signup"].count == 2
  {
    SignupCount([Plain(1)]);
    var one := Compacted([Plain(1)]);
    CompactedKeeps([Plain(1)]);
    assert one[0] in one;
    assert one + [Plain(2)] == [Plain(1), Plain(2)];
    SignupCount([Plain(1), Plain(2)]);
  }
}
