/**
 Runs of passes over an app's exception files, with transactions that fail and are retried while the
 files grow, are replaced and removed, interleaved with resolving, ignoring and retention.
 */
module ExceptionRuns {
  import opened Prelude
  import opened Lines
  import opened UniqueValues
  import opened ExceptionTables
  import opened ExceptionMeaning
  import opened ExceptionLines
  import Bags

  datatype File = File(inode: nat, text: string)

  /**
   The database and the files; the rest is history: every committed line in commit order, per path the
   lines committed before the last start at offset zero and since then, and what retention took away.
   */
  datatype State = State(
    store: Store,
    files: map<string, File>,
    history: seq<Entry>,
    past: map<string, seq<string>>,
    mine: map<string, seq<string>>,
    pruned: map<string, nat>,
    aged: seq<Warning>)

  /** `Forget` drops the saved offset of a file that is gone. */
  datatype Action =
    | Pass(path: string, now: int, commits: bool)
    | Write(path: string, more: string)
    | Replace(path: string, file: File)
    | Remove(path: string)
    | Forget(path: string)
    | Resolved(uid: string, value: bool)
    | Ignored(uid: string, value: bool)
    | Retention(cutoff: int)
    | DropWarnings(cutoff: int)

  /** The same without files and transactions: one record at a time. */
  datatype Op = One(r: Record) | Flag(a: Action)

  const START: State := State(EMPTY, map[], [], map[], map[], map[], [])

  function At(lines: map<string, seq<string>>, path: string): seq<string> {
    if path in lines then lines[path] else []
  }

  /** Occurrences per minute row of one group. */
  function Counts(minutes: map<(string, int), Minute>, uid: string): map<(string, int), nat> {
    map k | k in minutes && k.0 == uid :: minutes[k].count
  }

  ghost function Live(t: Tables, uid: string): nat {
    Bags.Total(Counts(t.minutes, uid))
  }

  function Pruned(s: State, uid: string): nat {
    if uid in s.pruned then s.pruned[uid] else 0
  }

  /** Where the rows that retention drops are counted. */
  function Dropped(t: Tables, cutoff: int): map<(string, int), Minute> {
    map k | k in t.minutes && k.1 * 60_000 < cutoff :: t.minutes[k]
  }

  function Newer(warnings: seq<Warning>, cutoff: int): seq<Warning> {
    if warnings == [] then []
    else
      var w := warnings[|warnings| - 1];
      Newer(warnings[..|warnings| - 1], cutoff) + if w.at < cutoff then [] else [w]
  }

  function Older(warnings: seq<Warning>, cutoff: int): seq<Warning> {
    if warnings == [] then []
    else
      var w := warnings[|warnings| - 1];
      Older(warnings[..|warnings| - 1], cutoff) + if w.at < cutoff then [w] else []
  }

  /** Resolving, ignoring and the retention of minute rows. */
  predicate TableFlag(a: Action) {
    a.Resolved? || a.Ignored? || a.Retention?
  }

  function FlagTables(t: Tables, a: Action): Tables
    requires TableFlag(a)
  {
    match a
    case Resolved(uid, value) => SetResolved(t, uid, value)
    case Ignored(uid, value) => SetIgnored(t, uid, value)
    case Retention(cutoff) => Prune(t, cutoff)
  }

  function Start(s: State, path: string): nat
    requires path in s.files
  {
    StartAt(s.store, path, s.files[path].inode, |s.files[path].text|)
  }

  /** The lines a pass over the file reads. */
  function NextLines(c: Codec, s: State, path: string): seq<string>
    requires path in s.files
  {
    LinesRead(c, s.store, path, s.files[path].inode, s.files[path].text)
  }

  /** A pass has something to do: bytes after its start, or a file it has no offset of. */
  predicate Due(s: State, path: string)
    requires path in s.files
  {
    Start(s, path) < |s.files[path].text| || NewFile(s.store, path, s.files[path].inode)
  }

  /** The lines that a step commits. */
  function Committed(c: Codec, s: State, a: Action): seq<Entry> {
    if a.Pass? && a.commits && a.path in s.files && Due(s, a.path) then Entries(a.path, NextLines(c, s, a.path), a.now)
    else []
  }

  function PassState(c: Codec, s: State, path: string, now: int): State
    requires path in s.files && Due(s, path)
  {
    var f, lines, restart := s.files[path], NextLines(c, s, path), Start(s, path) == 0;
    s.(store := Tailed(c, s.store, path, f.inode, f.text, now, true),
       history := s.history + Entries(path, lines, now),
       past := s.past[path := if restart then At(s.past, path) + At(s.mine, path) else At(s.past, path)],
       mine := s.mine[path := if restart then lines else At(s.mine, path) + lines])
  }

  ghost function Apply(c: Codec, s: State, a: Action): State {
    match a
    case Pass(path, now, commits) =>
      if commits && path in s.files && Due(s, path) then PassState(c, s, path, now) else s
    case Write(path, more) =>
      if path in s.files then s.(files := s.files[path := s.files[path].(text := s.files[path].text + more)]) else s
    case Replace(path, file) => s.(files := s.files[path := file])
    case Remove(path) => s.(files := s.files - {path})
    case Forget(path) => if path in s.files then s else s.(store := s.store.(saved := s.store.saved - {path}))
    case Retention(cutoff) =>
      s.(store := s.store.(tables := Prune(s.store.tables, cutoff)),
         pruned := map u | u in s.store.tables.groups ::
           Pruned(s, u) + Bags.Total(Counts(Dropped(s.store.tables, cutoff), u)))
    case DropWarnings(cutoff) =>
      s.(store := s.store.(warnings := Newer(s.store.warnings, cutoff)), aged := s.aged + Older(s.store.warnings, cutoff))
    case _ => s.(store := s.store.(tables := FlagTables(s.store.tables, a)))
  }

  ghost function Exec(c: Codec, run: seq<Action>): State {
    if run == [] then START else Apply(c, Exec(c, run[..|run| - 1]), run[|run| - 1])
  }

  /** The records and flag changes of a run, in order, with files and transactions flattened out. */
  ghost function Trace(c: Codec, run: seq<Action>): seq<Op> {
    if run == [] then []
    else
      var before, a := run[..|run| - 1], run[|run| - 1];
      Trace(c, before) + if TableFlag(a) then [Flag(a)] else Ones(Records(c, Committed(c, Exec(c, before), a)))
  }

  function Ones(records: seq<Record>): seq<Op> {
    seq(|records|, i requires 0 <= i < |records| => One(records[i]))
  }

  function Replay(ops: seq<Op>): Tables {
    if ops == [] then NO_TABLES
    else
      var t := Replay(ops[..|ops| - 1]);
      match ops[|ops| - 1]
      case One(r) => Save(t, Aggregate([r]))
      case Flag(a) => if TableFlag(a) then FlagTables(t, a) else t
  }

  // ---------------------------------------------------------------- the cuts do not show

  lemma {:induction false} ReplayOnes(ops: seq<Op>, records: seq<Record>)
    ensures Replay(ops + Ones(records)) == SaveEach(Replay(ops), records)
  {
    hide Save, Aggregate;
    if records == [] {
      assert ops + Ones(records) == ops;
    } else {
      var before, r := records[..|records| - 1], records[|records| - 1];
      ReplayOnes(ops, before);
      var all := ops + Ones(records);
      assert all[..|all| - 1] == ops + Ones(before);
    }
  }

  lemma FlagsOk(t: Tables, a: Action)
    requires TablesOk(t) && TableFlag(a)
    ensures TablesOk(FlagTables(t, a))
  {
    hide MinuteOk;
  }

  /** Tables, warnings and history after a step. */
  ghost predicate StepIs(c: Codec, s: State, a: Action, s': State) {
    var entries := Committed(c, s, a);
    && s'.history == s.history + entries
    && (TableFlag(a) ==> s'.store.tables == FlagTables(s.store.tables, a))
    && (!TableFlag(a) ==> s'.store.tables == Save(s.store.tables, Aggregate(Records(c, entries))))
    && (!a.DropWarnings? ==> s'.store.warnings == s.store.warnings + Warnings(c, entries) && s'.aged == s.aged)
    && (a.Retention? || s'.pruned == s.pruned)
  }

  lemma PassCommits(c: Codec, s: State, a: Action)
    requires a.Pass? && a.commits && a.path in s.files && Due(s, a.path)
    ensures StepIs(c, s, a, Apply(c, s, a))
  {
    hide Save, Whole, Accepted, Refused, Aggregate;
    var f := s.files[a.path];
    if Start(s, a.path) == |f.text| {
      NothingWhole(c.batch);
      assert f.text[|f.text|..] == "";
      NothingCommits(c, s.store.tables, s.store.warnings);
    }
  }

  lemma NothingCommits(c: Codec, t: Tables, warnings: seq<Warning>)
    ensures Save(t, Aggregate(Records(c, []))) == t && warnings + Warnings(c, []) == warnings
  {
    hide Save;
    SaveNothing(t);
  }

  lemma StepCommits(c: Codec, s: State, a: Action)
    ensures StepIs(c, s, a, Apply(c, s, a))
  {
    hide Prune, SetResolved, SetIgnored, Save, Newer, Older, Aggregate, Records, Warnings, NextLines, PassState, Due;
    hide Counts, Dropped, StepIs;
    if a.Pass? && a.commits && a.path in s.files && Due(s, a.path) {
      PassCommits(c, s, a);
    } else {
      OtherCommits(c, s, a);
    }
  }

  lemma OtherCommits(c: Codec, s: State, a: Action)
    requires !(a.Pass? && a.commits && a.path in s.files && Due(s, a.path))
    ensures StepIs(c, s, a, Apply(c, s, a))
  {
    hide Prune, SetResolved, SetIgnored, Save, Newer, Older, Aggregate, Records, Warnings, PassState, Counts, Dropped;
    NothingCommits(c, s.store.tables, s.store.warnings);
    assert Committed(c, s, a) == [];
    assert s.history + [] == s.history;
  }

  /**
   Batch-split invariance: however the lines are cut into passes, whichever transactions fail, the
   tables are those of the committed records and flag changes one by one, in the same order.
   */
  lemma {:induction false} CutsDoNotShow(c: Codec, run: seq<Action>)
    ensures Exec(c, run).store.tables == Replay(Trace(c, run)) && TablesOk(Exec(c, run).store.tables)
  {
    hide Save, Aggregate, TablesOk, FlagTables, Records, Apply, Committed;
    if run == [] {
      NoTablesOk();
    } else {
      var before, a := run[..|run| - 1], run[|run| - 1];
      CutsDoNotShow(c, before);
      var s, ops := Exec(c, before), Trace(c, before);
      StepCommits(c, s, a);
      if TableFlag(a) {
        FlagsOk(s.store.tables, a);
        assert (ops + [Flag(a)])[..|ops|] == ops;
      } else {
        var records := Records(c, Committed(c, s, a));
        PassIsItsRecords(s.store.tables, records);
        ReplayOnes(ops, records);
      }
    }
  }

  lemma NoTablesOk()
    ensures TablesOk(NO_TABLES)
  {
  }

  /** Two runs with the same records and flag changes in the same order have the same tables. */
  lemma SameTraceSameTables(c: Codec, one: seq<Action>, two: seq<Action>)
    requires Trace(c, one) == Trace(c, two)
    ensures Exec(c, one).store.tables == Exec(c, two).store.tables
  {
    CutsDoNotShow(c, one);
    CutsDoNotShow(c, two);
  }

  // ---------------------------------------------------------------- tables and warnings of the committed lines

  /** Files change and passes commit or fail; nobody flags a group and retention does not run. */
  ghost predicate OnlyTails(run: seq<Action>) {
    forall i :: 0 <= i < |run| ==> !TableFlag(run[i]) && !run[i].DropWarnings?
  }

  lemma {:induction false} TablesAreHistory(c: Codec, run: seq<Action>)
    requires OnlyTails(run)
    ensures
      var s := Exec(c, run);
      && s.store.tables == SaveEach(NO_TABLES, Records(c, s.history)) && TablesOk(s.store.tables)
      && s.store.warnings == Warnings(c, s.history)
  {
    hide Save, Aggregate, TablesOk, Apply, Committed, Accepted, Refused;
    if run == [] {
      NoTablesOk();
    } else {
      var before, a := run[..|run| - 1], run[|run| - 1];
      assert forall i :: 0 <= i < |before| ==> before[i] == run[i];
      TablesAreHistory(c, before);
      var s := Exec(c, before);
      StepCommits(c, s, a);
      var entries := Committed(c, s, a);
      RecordsAppend(c, s.history, entries);
      PassIsItsRecords(s.store.tables, Records(c, entries));
      SaveEachAppend(NO_TABLES, Records(c, s.history), Records(c, entries));
    }
  }

  /**
   Any number of files that grow, are replaced and vanish, any cut into passes with any transactions
   failing: the tables are the reference aggregation of exactly the committed lines, each read with the
   clock of its pass, and the warning rows are exactly the rejected ones among them.
   */
  lemma TablesMeanCommitted(c: Codec, run: seq<Action>)
    requires OnlyTails(run)
    ensures
      var s := Exec(c, run);
      && GroupsSay(s.store.tables.groups, Records(c, s.history))
      && MinutesSay(s.store.tables.minutes, Records(c, s.history))
      && s.store.warnings == Warnings(c, s.history)
  {
    hide GroupsSay, MinutesSay, Exec, Warnings;
    TablesAreHistory(c, run);
    TablesSay(Records(c, Exec(c, run).history));
  }

  lemma {:induction false} AgeSplits(warnings: seq<Warning>, cutoff: int)
    ensures multiset(Newer(warnings, cutoff)) + multiset(Older(warnings, cutoff)) == multiset(warnings)
  {
    if warnings == [] {
    } else {
      var before, last := warnings[..|warnings| - 1], warnings[|warnings| - 1];
      AgeSplits(before, cutoff);
      assert warnings == before + [last];
      assert Newer(warnings, cutoff) == Newer(before, cutoff) + if last.at < cutoff then [] else [last];
      assert Older(warnings, cutoff) == Older(before, cutoff) + if last.at < cutoff then [last] else [];
    }
  }

  /** On every run each rejected line that was committed has its warning row, unless retention took it. */
  lemma {:induction false} WarningsOverRuns(c: Codec, run: seq<Action>)
    ensures
      var s := Exec(c, run);
      multiset(s.store.warnings) + multiset(s.aged) == multiset(Warnings(c, s.history))
  {
    hide Committed, Accepted, Refused, Newer, Older;
    if run == [] {
    } else {
      var before, a := run[..|run| - 1], run[|run| - 1];
      WarningsOverRuns(c, before);
      var s := Exec(c, before);
      RecordsAppend(c, s.history, Committed(c, s, a));
      StepWarnings(c, s, a);
    }
  }

  lemma StepWarnings(c: Codec, s: State, a: Action)
    ensures
      var s' := Apply(c, s, a);
      && s'.history == s.history + Committed(c, s, a)
      && multiset(s'.store.warnings) + multiset(s'.aged) ==
        multiset(s.store.warnings) + multiset(s.aged) + multiset(Warnings(c, Committed(c, s, a)))
  {
    hide Warnings, Newer, Older, Apply, Committed;
    StepCommits(c, s, a);
    if a.DropWarnings? {
      DropSplits(c, s, a);
    }
  }

  lemma DropSplits(c: Codec, s: State, a: Action)
    requires a.DropWarnings?
    ensures
      var s' := Apply(c, s, a);
      && Warnings(c, Committed(c, s, a)) == []
      && multiset(s'.store.warnings) + multiset(s'.aged) == multiset(s.store.warnings) + multiset(s.aged)
  {
    hide Newer, Older;
    AgeSplits(s.store.warnings, a.cutoff);
  }

  // ---------------------------------------------------------------- which lines are committed

  function LinesOf(entries: seq<Entry>, path: string): seq<string> {
    if entries == [] then []
    else
      var e := entries[|entries| - 1];
      LinesOf(entries[..|entries| - 1], path) + if e.path == path then [e.line] else []
  }

  lemma {:induction false} LinesOfAppend(entries: seq<Entry>, at: string, lines: seq<string>, now: int, path: string)
    ensures LinesOf(entries + Entries(at, lines, now), path) == LinesOf(entries, path) + if at == path then lines else []
  {
    var all := entries + Entries(at, lines, now);
    if lines == [] {
      assert all == entries;
    } else {
      LinesOfAppend(entries, at, lines[..|lines| - 1], now, path);
      assert all[..|all| - 1] == entries + Entries(at, lines[..|lines| - 1], now);
    }
  }

  /** Saved offsets are the length of the committed lines since the last start at zero. */
  ghost predicate MineOk(s: State, path: string) {
    && AllWhole(At(s.mine, path))
    && (path in s.store.saved ==> s.store.saved[path].at == |Text(At(s.mine, path))|)
    && LinesOf(s.history, path) == At(s.past, path) + At(s.mine, path)
  }

  lemma PassMine(c: Codec, s: State, at: string, now: int, path: string)
    requires MineOk(s, path) && at in s.files && Due(s, at)
    ensures MineOk(PassState(c, s, at, now), path)
  {
    hide LinesOf, NextLines, Tailed, Start, Text, AllWhole, Entries;
    LinesOfAppend(s.history, at, NextLines(c, s, at), now, path);
    TailedAt(c, s, at, now);
    if at == path { LinesGrow(c, s, at); }
  }

  /** The committed lines of a file after a pass, and their length. */
  lemma LinesGrow(c: Codec, s: State, path: string)
    requires MineOk(s, path) && path in s.files
    ensures
      var lines := NextLines(c, s, path);
      var mine := if Start(s, path) == 0 then lines else At(s.mine, path) + lines;
      AllWhole(mine) && |Text(mine)| == Start(s, path) + |Text(lines)|
  {
    hide Whole, LinesOf, Text, LineEnd;
    WholeIsPrefix(s.files[path].text[Start(s, path)..], c.batch);
    TextAppend(At(s.mine, path), NextLines(c, s, path));
  }

  lemma TailedAt(c: Codec, s: State, path: string, now: int)
    requires path in s.files && Due(s, path)
    ensures
      var o := PassState(c, s, path, now).store.saved;
      o == s.store.saved[path := Offset(s.files[path].inode, Start(s, path) + |Text(NextLines(c, s, path))|)]
  {
    hide Save, Records, Warnings, Whole, Text, Aggregate, LineEnd, Entries;
    NothingWhole(c.batch);
    if Start(s, path) == |s.files[path].text| {
      assert s.files[path].text[Start(s, path)..] == "";
    }
  }

  lemma {:induction false} RunMine(c: Codec, run: seq<Action>, path: string)
    ensures MineOk(Exec(c, run), path)
  {
    hide MineOk, PassState;
    if run == [] {
      StartMine(path);
    } else {
      var before, a := run[..|run| - 1], run[|run| - 1];
      RunMine(c, before, path);
      var s := Exec(c, before);
      if a.Pass? && a.commits && a.path in s.files && Due(s, a.path) {
        PassMine(c, s, a.path, a.now, path);
      } else {
        OtherMine(c, s, a, path);
      }
    }
  }

  lemma StartMine(path: string)
    ensures MineOk(START, path)
  {
  }

  lemma OtherMine(c: Codec, s: State, a: Action, path: string)
    requires MineOk(s, path)
    requires !(a.Pass? && a.commits && a.path in s.files && Due(s, a.path))
    ensures MineOk(Apply(c, s, a), path)
  {
    hide LinesOf, Text, AllWhole, Prune, FlagTables, Newer, Older, Counts, Dropped;
  }

  /** The lines committed since the last start at zero are the file's first whole lines, up to the offset. */
  ghost predicate Follows(s: State, path: string) {
    && path in s.files && path in s.store.saved && s.store.saved[path].inode == s.files[path].inode
    && At(s.mine, path) == Whole(s.files[path].text, |At(s.mine, path)|)
    && s.store.saved[path].at == |Text(At(s.mine, path))|
  }

  /** A pass starts over, or the bytes before its start are still the ones it committed. */
  ghost predicate Kept(s: State, path: string)
    requires path in s.files
  {
    Start(s, path) == 0 || s.files[path].text[..Start(s, path)] == Text(At(s.mine, path))
  }

  /**
   On every run, a pass leaves exactly the file's first whole lines committed if and only if it starts
   over or the bytes before its start are unchanged. A replacement under a new inode, or one shorter
   than the offset, makes it start over.
   */
  lemma FollowsIff(c: Codec, run: seq<Action>, path: string, now: int)
    requires path in Exec(c, run).files && Due(Exec(c, run), path)
    ensures Follows(Exec(c, run + [Pass(path, now, true)]), path) <==> Kept(Exec(c, run), path)
    ensures LinesOf(Exec(c, run).history, path) == At(Exec(c, run).past, path) + At(Exec(c, run).mine, path)
  {
    hide Exec, PassState, MineOk, LinesOf;
    var s := Exec(c, run);
    ExecStep(c, run, Pass(path, now, true));
    RunMine(c, run, path);
    PassFollows(c, s, path, now);
    MineParts(s, path);
  }

  lemma ExecStep(c: Codec, run: seq<Action>, a: Action)
    ensures Exec(c, run + [a]) == Apply(c, Exec(c, run), a)
  {
    assert (run + [a])[..|run|] == run;
  }

  lemma MineParts(s: State, path: string)
    requires MineOk(s, path)
    ensures LinesOf(s.history, path) == At(s.past, path) + At(s.mine, path)
  {
  }

  lemma PassFollows(c: Codec, s: State, path: string, now: int)
    requires MineOk(s, path) && path in s.files && Due(s, path)
    ensures Follows(PassState(c, s, path, now), path) <==> Kept(s, path)
  {
    hide Whole, LineEnd, Text, LinesOf, Save, Records, Warnings;
    var s' := PassState(c, s, path, now);
    var lines, b, start := NextLines(c, s, path), s.files[path].text, Start(s, path);
    var old' := if start == 0 then [] else At(s.mine, path);
    assert At(s'.mine, path) == old' + lines;
    TailedAt(c, s, path, now);
    PassMine(c, s, path, now, path);
    NothingWhole(c.batch);
    ReadIff(b, old', c.batch);
  }

  /** Reading on after `old'` gives the first whole lines exactly when the text starts with `old'`. */
  lemma ReadIff(b: string, old': seq<string>, n: nat)
    requires AllWhole(old') && |Text(old')| <= |b|
    ensures
      var lines := old' + Whole(b[|Text(old')|..], n);
      lines == Whole(b, |lines|) <==> b[..|Text(old')|] == Text(old')
  {
    hide Whole, LineEnd, Text;
    var rest := b[|Text(old')|..];
    var lines := old' + Whole(rest, n);
    TextAppend(old', Whole(rest, n));
    WholeIsPrefix(b, |lines|);
    if b[..|Text(old')|] == Text(old') {
      assert b == Text(old') + rest;
      WholeAgain(rest, n);
      WholeReadsBack(old', rest, |Whole(rest, n)|);
    }
  }

  /** Asking for as many lines as were found finds the same. */
  lemma {:induction false} WholeAgain(s: string, n: nat)
    ensures Whole(s, |Whole(s, n)|) == Whole(s, n)
    decreases n
  {
    if n > 0 && LineEnd(s, 0).Some? {
      WholeAgain(s[LineEnd(s, 0).value..], n - 1);
    }
  }

  /** A step that changes what is under the path, other than by appending to it. */
  predicate Swaps(a: Action, path: string) {
    (a.Replace? || a.Remove? || a.Forget?) && a.path == path
  }

  /**
   Appending and everything else but a replacement keeps the file followed, and no line of it is committed
   a second time: what was committed before its first line stays the same.
   */
  lemma {:induction false} StaysFollowed(c: Codec, run: seq<Action>, more: seq<Action>, path: string)
    requires Follows(Exec(c, run), path) && forall i :: 0 <= i < |more| ==> !Swaps(more[i], path)
    ensures Follows(Exec(c, run + more), path) && At(Exec(c, run + more).past, path) == At(Exec(c, run).past, path)
  {
    hide Exec, Follows, Swaps;
    if more == [] {
      assert run + more == run;
    } else {
      var before, a := more[..|more| - 1], more[|more| - 1];
      StaysFollowed(c, run, before, path);
      assert run + more == (run + before) + [a];
      ExecStep(c, run + before, a);
      RunMine(c, run + before, path);
      StepFollowed(c, Exec(c, run + before), a, path);
    }
  }

  /** The file's next pass reads on, or has nothing to start over. */
  lemma PassStays(c: Codec, s: State, path: string, now: int)
    requires MineOk(s, path) && Follows(s, path) && Due(s, path)
    ensures Follows(PassState(c, s, path, now), path) && At(PassState(c, s, path, now).past, path) == At(s.past, path)
  {
    hide Whole, LineEnd, Text, LinesOf, Save, Records, Warnings, Tailed;
    var mine := At(s.mine, path);
    WholeIsPrefix(s.files[path].text, |mine|);
    PassFollows(c, s, path, now);
    if mine != [] { SomeText(mine); }
    assert At(s.past, path) + [] == At(s.past, path);
  }

  lemma SomeText(lines: seq<string>)
    requires AllWhole(lines) && lines != []
    ensures |Text(lines)| > 0
  {
    assert LineEnd(lines[0], 0) == Some(|lines[0]|);
  }

  lemma StepFollowed(c: Codec, s: State, a: Action, path: string)
    requires MineOk(s, path) && Follows(s, path) && !Swaps(a, path)
    ensures Follows(Apply(c, s, a), path) && At(Apply(c, s, a).past, path) == At(s.past, path)
  {
    hide Whole, LineEnd, Text, LinesOf, Prune, FlagTables, Newer, Older, Counts, Dropped, Save, Records, Warnings;
    if a.Pass? && a.path == path {
      hide MineOk, Follows, PassState;
      if a.commits && Due(s, path) { PassStays(c, s, path, a.now); }
    } else if a.Write? && a.path == path {
      WholeGrows(s.files[path].text, a.more, |At(s.mine, path)|);
    }
  }

  lemma WholeGrows(b: string, more: string, n: nat)
    requires |Whole(b, n)| == n
    ensures Whole(b + more, n) == Whole(b, n)
  {
    hide Whole, LineEnd, Text;
    var lines := Whole(b, n);
    WholeIsPrefix(b, n);
    var rest := b[|Text(lines)|..];
    assert b + more == Text(lines) + (rest + more);
    WholeReadsBack(lines, rest + more, 0);
    WholeNone(rest + more, 0);
    assert lines + [] == lines;
  }

  const FIRST: File := File(1, "a\n")
  const SECOND: File := File(1, "b\nc\n")

  const RUN: seq<Action> := [Replace("e", FIRST), Pass("e", 0, true), Replace("e", SECOND), Pass("e", 0, true)]

  /** Truncated in place and grown past the offset before the next pass: its first line is never read. */
  lemma TruncationUnnoticed(c: Codec)
    requires c.batch > 0
    ensures
      var s := Exec(c, RUN);
      LinesOf(s.history, "e") == ["a\n", "c\n"] && s.files == map["e" := SECOND] && !Due(s, "e")
  {
    hide Whole, Text, LinesOf, Save, Records, Warnings, Exec;
    var pass := Pass("e", 0, true);
    ExecNone(c);
    var one := Apply(c, START, Replace("e", FIRST));
    FirstEnds();
    OneWhole("a\n", c.batch);
    assert NextLines(c, one, "e") == ["a\n"];
    LinesOfAppend([], "e", ["a\n"], 0, "e");
    TailedAt(c, one, "e", 0);
    var two := Apply(c, one, pass);
    var three := Apply(c, two, Replace("e", SECOND));
    assert "b\nc\n"[2..] == "c\n";
    OneWhole("c\n", c.batch);
    assert NextLines(c, three, "e") == ["c\n"];
    LinesOfAppend(two.history, "e", ["c\n"], 0, "e");
    TailedAt(c, three, "e", 0);
    RunUnfolds(c);
  }

  lemma RunUnfolds(c: Codec)
    ensures Exec(c, RUN) == Apply(c, Apply(c, Apply(c, Apply(c, START, RUN[0]), RUN[1]), RUN[2]), RUN[3])
  {
    hide Exec, Apply;
    ExecNone(c);
    ExecStep(c, [], RUN[0]);
    ExecStep(c, RUN[..1], RUN[1]);
    ExecStep(c, RUN[..2], RUN[2]);
    ExecStep(c, RUN[..3], RUN[3]);
    assert RUN[..1] == [] + [RUN[0]] && RUN[..2] == RUN[..1] + [RUN[1]];
    assert RUN[..3] == RUN[..2] + [RUN[2]] && RUN == RUN[..3] + [RUN[3]];
  }

  lemma ExecNone(c: Codec)
    ensures Exec(c, []) == START && LinesOf([], "e") == []
  {
  }

  lemma FirstEnds()
    ensures LineEnd("a\n", 0) == Some(2) && LineEnd("c\n", 0) == Some(2)
  {
  }

  // ---------------------------------------------------------------- flags and counts

  /** An ignored group is resolved. */
  ghost predicate FlagsHold(t: Tables) {
    forall u :: u in t.groups && t.groups[u].ignored ==> t.groups[u].resolved
  }

  /** A group's count is that of its minute rows and of those retention took. */
  ghost predicate CountsHold(t: Tables, pruned: map<string, nat>) {
    && (forall k :: k in t.minutes ==> k.0 in t.groups)
    && (forall u :: u in t.groups ==> t.groups[u].count == Live(t, u) + (if u in pruned then pruned[u] else 0))
    && (forall u :: u in pruned ==> u in t.groups)
  }

  lemma CountsPut(minutes: map<(string, int), Minute>, key: (string, int), m: Minute, uid: string)
    ensures Counts(minutes[key := m], uid) ==
      if key.0 == uid then Counts(minutes, uid)[key := m.count] else Counts(minutes, uid)
  {
  }

  lemma CountsAbsent(minutes: map<(string, int), Minute>, uid: string)
    requires forall k :: k in minutes ==> k.0 != uid
    ensures Counts(minutes, uid) == map[]
  {
  }

  /** One occurrence adds one to its group, to its minute and to nothing else. */
  lemma SaveOneCounts(t: Tables, pruned: map<string, nat>, r: Record)
    requires CountsHold(t, pruned)
    ensures CountsHold(Save(t, Aggregate([r])), pruned)
  {
    hide Save, Aggregate, MergeGroup, MergeMinute, AddGroup, AddMinute;
    SaveOne(t, r);
    OneCounts(Find(t.groups, r.uid), r);
    var key := (r.uid, MinuteOf(r.ts));
    MinuteCounts(Find(t.minutes, key), r);
    var row := MergeMinute(Find(t.minutes, key), AddMinute(None, r));
    var t' := Save(t, Aggregate([r]));
    forall u | u in t'.groups
      ensures Live(t', u) == (if u in t.groups then Live(t, u) else 0) + if u == r.uid then 1 else 0
    {
      CountsPut(t.minutes, key, row, u);
      if u !in t.groups { CountsAbsent(t.minutes, u); }
      if u == r.uid { Bags.TotalPut(Counts(t.minutes, u), key, row.count); }
    }
  }

  lemma OneCounts(known: Option<GroupRow>, r: Record)
    ensures MergeGroup(known, AddGroup(None, r)).count == (if known.Some? then known.value.count else 0) + 1
  {
  }

  lemma MinuteCounts(known: Option<Minute>, r: Record)
    ensures MergeMinute(known, AddMinute(None, r)).count == (if known.Some? then known.value.count else 0) + 1
  {
    hide Append;
  }

  lemma {:induction false} SaveEachCounts(t: Tables, pruned: map<string, nat>, records: seq<Record>)
    requires CountsHold(t, pruned)
    ensures CountsHold(SaveEach(t, records), pruned)
  {
    hide CountsHold, Save, Aggregate;
    if records == [] {
    } else {
      SaveEachCounts(t, pruned, records[..|records| - 1]);
      SaveOneCounts(SaveEach(t, records[..|records| - 1]), pruned, records[|records| - 1]);
    }
  }

  lemma PruneSplits(t: Tables, cutoff: int, uid: string)
    ensures Live(t, uid) == Live(Prune(t, cutoff), uid) + Bags.Total(Counts(Dropped(t, cutoff), uid))
  {
    var counts := Counts(t.minutes, uid);
    var gone := set k | k in counts && k.1 * 60_000 < cutoff;
    Bags.TotalSplit(counts, gone);
    assert counts - gone == Counts(Prune(t, cutoff).minutes, uid);
    assert Bags.Restrict(counts, gone) == Counts(Dropped(t, cutoff), uid);
  }

  lemma FlagsKeepCounts(t: Tables, pruned: map<string, nat>, a: Action)
    requires CountsHold(t, pruned) && (a.Resolved? || a.Ignored?)
    ensures CountsHold(FlagTables(t, a), pruned)
  {
    var t' := FlagTables(t, a);
    assert t'.minutes == t.minutes;
    assert forall u :: Live(t', u) == Live(t, u);
  }

  lemma RetentionKeepsCounts(c: Codec, s: State, cutoff: int)
    requires CountsHold(s.store.tables, s.pruned)
    ensures
      var s' := Apply(c, s, Retention(cutoff));
      CountsHold(s'.store.tables, s'.pruned)
  {
    hide Live, Counts, Dropped;
    var s' := Apply(c, s, Retention(cutoff));
    forall u | u in s'.store.tables.groups
      ensures s'.store.tables.groups[u].count == Live(s'.store.tables, u) + s'.pruned[u]
    {
      PruneSplits(s.store.tables, cutoff, u);
    }
  }

  /** Over all runs: ignored implies resolved, and every group's count is accounted for. */
  lemma {:induction false} CountsOverRuns(c: Codec, run: seq<Action>)
    ensures
      var s := Exec(c, run);
      CountsHold(s.store.tables, s.pruned) && FlagsHold(s.store.tables)
  {
    hide Save, Aggregate, TablesOk, Records, CountsHold, FlagsHold, Apply, Committed, FlagTables;
    if run == [] {
      StartHolds();
    } else {
      var before, a := run[..|run| - 1], run[|run| - 1];
      CountsOverRuns(c, before);
      CutsDoNotShow(c, before);
      var s := Exec(c, before);
      StepCommits(c, s, a);
      if !TableFlag(a) {
        var records := Records(c, Committed(c, s, a));
        PassIsItsRecords(s.store.tables, records);
        SaveEachCounts(s.store.tables, s.pruned, records);
        SaveFlags(s.store.tables, Aggregate(records));
      } else {
        FlagsKeepFlags(s.store.tables, a);
        if a.Retention? {
          RetentionKeepsCounts(c, s, a.cutoff);
        } else {
          FlagsKeepCounts(s.store.tables, s.pruned, a);
        }
      }
    }
  }

  lemma StartHolds()
    ensures CountsHold(START.store.tables, START.pruned) && FlagsHold(START.store.tables)
  {
  }

  lemma SaveFlags(t: Tables, groups: map<string, Group>)
    requires FlagsHold(t)
    ensures FlagsHold(Save(t, groups))
  {
    hide MergeMinute, MinuteKeys;
  }

  lemma FlagsKeepFlags(t: Tables, a: Action)
    requires FlagsHold(t) && TableFlag(a)
    ensures FlagsHold(FlagTables(t, a))
  {
  }

  /** A committed occurrence reopens its group if and only if the group is not ignored. */
  lemma OccurrenceReopens(t: Tables, records: seq<Record>, uid: string)
    requires uid in Aggregate(records)
    ensures
      var row := Save(t, Aggregate(records)).groups[uid];
      row.resolved <==> uid in t.groups && t.groups[uid].ignored
  {
    hide MergeMinute, MinuteKeys, Aggregate;
  }
}
