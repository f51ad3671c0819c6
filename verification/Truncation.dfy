/**
 Files truncated in place, and new files that are given an old inode. The daemon compares the inode and
 the size with what it saved; when both still fit, it reads on from an offset of another incarnation.
 */
module Truncation {
  import opened Prelude
  import opened Lines
  import opened EventTail
  import opened EventTailSafety
  import P = Partition

  /** The pass starts over, or at an offset saved for this very incarnation. */
  predicate NoticedAt(w: World, path: string) {
    path in w.live && LiveFile(w, path) in w.contents ==>
      StartAt(w, LiveFile(w, path), |w.contents[LiveFile(w, path)]|) == 0 || w.saved[path].gen == w.live[path].gen
  }

  /** Every pass of the run does. */
  ghost predicate Noticed(c: Codec, run: seq<Action>)
    requires Lawful(c)
  {
    forall i :: 0 <= i < |run| && run[i].Begin? ==> NoticedAt(Exec(c, run[..i]), run[i].path)
  }

  // ---------------------------------------------------------------- every replacement is noticed

  ghost predicate SavedOk(w: World) {
    forall path :: path in w.saved ==>
      var o := w.saved[path];
      var file := File(path, o.inode, o.gen);
      file in w.contents && Boundary(w.contents[file], o.at) && o.at <= Mark(w, file)
  }

  ghost predicate WholeRead(c: Codec, w: World, r: Read) {
    r.file in w.contents && Accepted(c, w.contents[r.file], r.at)
  }

  ghost predicate PassWhole(c: Codec, w: World) {
    w.pass.Reading? ==>
      var p := w.pass;
      && p.file in w.contents && p.start <= Mark(w, p.file) && Boundary(w.contents[p.file], p.next)
      && forall r :: r in p.taken ==> WholeRead(c, w, r)
  }

  ghost predicate LandedWhole(c: Codec, w: World) {
    forall key, r :: r in LandedAt(w, key) ==> WholeRead(c, w, r)
  }

  ghost predicate Whole(c: Codec, w: World) {
    SavedOk(w) && PassWhole(c, w) && LandedWhole(c, w)
  }

  /** Contents that stay, or join, leave what landed and what is held in memory whole. */
  lemma FrameWhole(c: Codec, w: World, w': World)
    requires LandedWhole(c, w) && w'.landed == w.landed
    requires forall f :: f in w.contents ==> f in w'.contents && w'.contents[f] == w.contents[f]
    ensures LandedWhole(c, w')
    ensures forall r :: WholeRead(c, w, r) ==> WholeRead(c, w', r)
  {
    hide Accepted;
    forall key, r | r in LandedAt(w', key) ensures WholeRead(c, w', r) {
      assert r in LandedAt(w, key) && WholeRead(c, w, r);
    }
  }

  lemma WholeGrows(c: Codec, w: World, file: File, bytes: string, r: Read)
    requires file in w.contents && WholeRead(c, w, r)
    ensures WholeRead(c, w.(contents := w.contents[file := w.contents[file] + bytes]), r)
  {
    if r.file == file { LineGrows(w.contents[file], bytes, r.at); }
  }

  lemma GrowWhole(c: Codec, w: World, file: File, bytes: string)
    requires Whole(c, w) && file in w.contents
    ensures Whole(c, w.(contents := w.contents[file := w.contents[file] + bytes]))
  {
    hide WholeRead;
    var w' := w.(contents := w.contents[file := w.contents[file] + bytes]);
    forall r | WholeRead(c, w, r) ensures WholeRead(c, w', r) { WholeGrows(c, w, file, bytes, r); }
    assert forall key :: LandedAt(w', key) == LandedAt(w, key);
  }

  lemma TakenWhole(c: Codec, file: File, b: string, start: nat, now: int, countries: map<string, string>)
    requires Lawful(c) && Boundary(b, start)
    ensures forall r :: r in Take(c, file, b, now, countries, Starts(b, start, c.batch)) ==> r.file == file && Accepted(c, b, r.at)
  {
    hide Take, Starts, Takes;
    var starts := Starts(b, start, c.batch);
    TakeParses(c, file, b, now, countries, starts);
    forall r | r in Take(c, file, b, now, countries, starts) ensures Accepted(c, b, r.at) {
      StartsAreLines(b, start, c.batch, r.at);
    }
  }

  lemma NoticedStart(w: World, path: string)
    requires SavedOk(w) && NoticedAt(w, path) && path in w.live && LiveFile(w, path) in w.contents
    ensures
      var file := LiveFile(w, path);
      var start := StartAt(w, file, |w.contents[file]|);
      start <= Mark(w, file) && Boundary(w.contents[file], start)
  {
  }

  lemma BeginWhole(c: Codec, w: World, path: string, now: int, countries: map<string, string>)
    requires Lawful(c) && Whole(c, w) && NoticedAt(w, path) && path in w.live && LiveFile(w, path) in w.contents
    ensures Whole(c, BeginPass(c, w, LiveFile(w, path), now, countries))
  {
    hide Take, Refuse, Starts, After, Accepted, Boundary, Lawful, StartAt, NoticedAt, LandedWhole;
    var file := LiveFile(w, path);
    var b := w.contents[file];
    NoticedStart(w, path);
    ZeroBoundary(b);
    var start := StartAt(w, file, |b|);
    TakenWhole(c, file, b, start, now, countries);
    BeginShape(c, w, file, now, countries);
    var w' := BeginPass(c, w, file, now, countries);
    FrameWhole(c, w, w');
    if start >= |b| && w' != w { SaveWhole(c, w, file, start, start); }
  }

  lemma AppendWhole(c: Codec, w: World, date: int, batch: nat)
    requires Whole(c, w) && w.pass.Reading? && Parsed(c, w.pass.taken)
    ensures Whole(c, AppendBatch(c, w, date, batch))
  {
    hide DayReads, StoredAll, Accepted, Boundary, P.Apply;
    var w' := AppendBatch(c, w, date, batch);
    DayReadsSubset(c, w.pass.taken, date);
    forall key, r | r in LandedAt(w', key) ensures WholeRead(c, w', r) {
      assert r in LandedAt(w, key) || r in w.pass.taken;
      assert WholeRead(c, w, r);
    }
  }

  lemma SaveWhole(c: Codec, w: World, file: File, start: nat, at: nat)
    requires Whole(c, w) && file in w.contents && start <= Mark(w, file) && Boundary(w.contents[file], at)
    ensures Whole(c, SaveAt(w, file, start, at))
  {
    hide Accepted, Boundary, LandedWhole;
    var w' := SaveAt(w, file, start, at);
    FrameWhole(c, w, w');
    assert forall f :: Mark(w, f) <= Mark(w', f);
    assert File(file.path, file.inode, file.gen) == file;
  }

  lemma LinkWhole(c: Codec, w: World, path: string, inode: nat, gen: nat)
    requires Lawful(c) && Whole(c, w)
    ensures Whole(c, Apply(c, w, Link(path, inode, gen)))
  {
    hide Accepted, Boundary, Lawful, LandedWhole, WholeRead;
    FrameWhole(c, w, Apply(c, w, Link(path, inode, gen)));
  }

  lemma SameWhole(c: Codec, w: World, w': World)
    requires Whole(c, w) && Quiet(w, w')
    ensures Whole(c, w')
  {
    hide Accepted, Boundary, LandedWhole, WholeRead;
    FrameWhole(c, w, w');
  }

  /** Nothing is read, landed or saved: an offset may go, a pass may end or have its warnings recorded. */
  ghost predicate Quiet(w: World, w': World) {
    && w'.contents == w.contents && w'.landed == w.landed && w'.marks == w.marks
    && (forall path :: path in w'.saved ==> path in w.saved && w'.saved[path] == w.saved[path])
    && (w'.pass.NoPass? || (w.pass.Reading? && w'.pass == w.pass.(warned := w'.pass.warned)))
  }

  lemma QuietSteps(c: Codec, w: World, a: Action)
    requires Lawful(c) && (a.Unlink? || a.DropOffset? || a.Warn? || a.Stop? || a.Maintain?)
    ensures Quiet(w, Apply(c, w, a))
  {
    hide P.Apply, Lawful, BeginPass, AppendBatch, SaveAt, PartAt;
    match a
    case Unlink(_) =>
    case DropOffset(_) =>
    case Warn =>
    case Stop =>
    case Maintain(_, _) =>
  }

  lemma SaveStep(c: Codec, w: World)
    requires Lawful(c) && Whole(c, w)
    ensures Whole(c, Apply(c, w, Save))
  {
    hide Whole, P.Apply, Lawful, BeginPass, AppendBatch, SaveAt;
    if w.pass.Reading? && w.pass.todo == {} && w.pass.warned {
      PassStarts(c, w);
      SaveWhole(c, w, w.pass.file, w.pass.start, w.pass.next);
    }
  }

  lemma PassStarts(c: Codec, w: World)
    requires Whole(c, w) && w.pass.Reading?
    ensures
      var p := w.pass;
      p.file in w.contents && p.start <= Mark(w, p.file) && Boundary(w.contents[p.file], p.next)
  {
  }

  lemma {:induction false} RunWhole(c: Codec, run: seq<Action>)
    requires Lawful(c) && Noticed(c, run)
    ensures Whole(c, Exec(c, run))
  {
    hide Whole, Lawful, NoticedAt, BeginPass, AppendBatch;
    if run == [] {
      NothingWhole(c);
    } else {
      var before, a := run[..|run| - 1], run[|run| - 1];
      assert forall i :: 0 <= i < |before| ==> before[i] == run[i] && before[..i] == run[..i];
      RunWhole(c, before);
      var w := Exec(c, before);
      match a
      case Write(path, bytes) =>
        if path in w.live && LiveFile(w, path) in w.contents { GrowWhole(c, w, LiveFile(w, path), bytes); }
      case Begin(path, now, countries) =>
        if path in w.live && LiveFile(w, path) in w.contents { BeginWhole(c, w, path, now, countries); }
      case AppendDay(date, batch) =>
        if w.pass.Reading? && Parsed(c, w.pass.taken) { AppendWhole(c, w, date, batch); }
      case Link(path, inode, gen) => LinkWhole(c, w, path, inode, gen);
      case Save => SaveStep(c, w);
      case _ =>
        QuietSteps(c, w, a);
        SameWhole(c, w, Apply(c, w, a));
    }
  }

  lemma NothingWhole(c: Codec)
    ensures Whole(c, NOTHING)
  {
  }

  /**
   While every replacement is noticed, everything before a saved offset was read, from the first line
   of that incarnation on, and only whole lines were.
   */
  lemma NoticedRunsRead(c: Codec, run: seq<Action>, path: string)
    requires Lawful(c) && Noticed(c, run) && path in Exec(c, run).saved
    ensures
      var w := Exec(c, run);
      var o := w.saved[path];
      && o.at <= Mark(w, File(path, o.inode, o.gen))
      && forall key, r :: r in LandedAt(w, key) ==> r.file in w.contents && Accepted(c, w.contents[r.file], r.at)
  {
    hide Accepted, Boundary, Lawful;
    hide Exec, Noticed, Mark;
    RunWhole(c, run);
    var w := Exec(c, run);
    forall key, r | r in LandedAt(w, key)
      ensures r.file in w.contents && Accepted(c, w.contents[r.file], r.at)
    {
      assert WholeRead(c, w, r);
    }
  }

  // ---------------------------------------------------------------- one is not

  /** The offset saved for the path fits the file, whoever's it is, and lies behind this place. */
  ghost predicate Behind(w: World, file: File, at: nat) {
    && file.path in w.live && LiveFile(w, file.path) == file && file in w.contents
    && file.path in w.saved && w.saved[file.path].inode == file.inode && at < w.saved[file.path].at <= |w.contents[file]|
  }

  /** Nothing that was read or is being read comes from that place. */
  ghost predicate Unread(w: World, file: File, at: nat) {
    && (forall key, r :: r in LandedAt(w, key) ==> !(r.file == file && r.at == at))
    && file in w.contents
    && (w.pass.Reading? && w.pass.file.path == file.path ==>
      w.pass.file == file && at < w.pass.start <= w.pass.next <= |w.contents[file]|)
    && (w.pass.Reading? ==> forall r :: r in w.pass.taken ==> r.file == w.pass.file && w.pass.start <= r.at)
  }

  predicate Disturbs(a: Action, path: string) {
    (a.Link? || a.Unlink? || a.DropOffset?) && a.path == path
  }

  lemma BeginUnread(c: Codec, w: World, path: string, now: int, countries: map<string, string>, file: File, at: nat)
    requires Lawful(c) && Behind(w, file, at) && Unread(w, file, at) && w.pass.NoPass?
    requires path in w.live && LiveFile(w, path) in w.contents
    ensures
      var w' := BeginPass(c, w, LiveFile(w, path), now, countries);
      Behind(w', file, at) && Unread(w', file, at)
  {
    hide Take, Refuse, Starts, After, Takes, Lawful;
    var live := LiveFile(w, path);
    var b := w.contents[live];
    var start := StartAt(w, live, |b|);
    var starts := Starts(b, start, c.batch);
    TakeParses(c, live, b, now, countries, starts);
    forall r | r in Take(c, live, b, now, countries, starts) ensures start <= r.at {
      StartsAreLines(b, start, c.batch, r.at);
    }
    AfterBound(b, start, c.batch);
    var w' := BeginPass(c, w, live, now, countries);
    assert forall key :: LandedAt(w', key) == LandedAt(w, key);
  }

  lemma {:induction false} AfterBound(b: string, from: nat, n: nat)
    requires from <= |b|
    ensures After(b, from, n) <= |b|
    decreases n
  {
    if n > 0 && LineEnd(b, from).Some? { AfterBound(b, LineEnd(b, from).value, n - 1); }
  }

  lemma AppendUnread(c: Codec, w: World, date: int, batch: nat, file: File, at: nat)
    requires Behind(w, file, at) && Unread(w, file, at) && w.pass.Reading? && Parsed(c, w.pass.taken)
    ensures
      var w' := AppendBatch(c, w, date, batch);
      Behind(w', file, at) && Unread(w', file, at)
  {
    hide DayReads, StoredAll, P.Apply;
    var w' := AppendBatch(c, w, date, batch);
    DayReadsSubset(c, w.pass.taken, date);
    forall key, r | r in LandedAt(w', key) ensures !(r.file == file && r.at == at) {
      assert r in LandedAt(w, key) || r in w.pass.taken;
    }
  }

  lemma QuietUnread(w: World, w': World, file: File, at: nat)
    requires Behind(w, file, at) && Unread(w, file, at) && Quiet(w, w')
    requires file.path in w'.live && LiveFile(w', file.path) == file && file.path in w'.saved
    ensures Behind(w', file, at) && Unread(w', file, at)
  {
    assert forall key :: LandedAt(w', key) == LandedAt(w, key);
  }

  lemma OtherUnread(c: Codec, w: World, a: Action, file: File, at: nat)
    requires Lawful(c) && Behind(w, file, at) && Unread(w, file, at)
    requires (a.Write? || a.Link? || a.Save?) && !Disturbs(a, file.path)
    ensures
      var w' := Apply(c, w, a);
      Behind(w', file, at) && Unread(w', file, at)
  {
    hide P.Apply, Lawful, BeginPass, AppendBatch;
    var w' := Apply(c, w, a);
    assert forall key :: LandedAt(w', key) == LandedAt(w, key);
  }

  lemma QuietBehind(c: Codec, w: World, a: Action, file: File, at: nat)
    requires Lawful(c) && Behind(w, file, at) && !Disturbs(a, file.path)
    requires a.Unlink? || a.DropOffset? || a.Warn? || a.Stop? || a.Maintain?
    ensures
      var w' := Apply(c, w, a);
      file.path in w'.live && LiveFile(w', file.path) == file && file.path in w'.saved
  {
    hide P.Apply, Lawful;
  }

  /**
   What a saved offset of another incarnation lies behind is lost: while the daemon is between passes, a
   line of the live file before a fitting saved offset that has not landed never lands, however the run
   goes on, unless the path is linked anew or its offset dropped.
   */
  lemma NeverRead(c: Codec, run: seq<Action>, more: seq<Action>, file: File, at: nat, key: Key)
    requires Lawful(c) && Behind(Exec(c, run), file, at) && Exec(c, run).pass.NoPass?
    requires forall k :: !Copy(Exec(c, run), k, file, at)
    requires forall i :: 0 <= i < |more| ==> !Disturbs(more[i], file.path)
    ensures !Copy(Exec(c, run + more), key, file, at)
  {
    hide Behind, Lawful, Disturbs, Exec;
    StaysUnread(c, run, more, file, at);
  }

  lemma {:induction false} StaysUnread(c: Codec, run: seq<Action>, more: seq<Action>, file: File, at: nat)
    requires Lawful(c) && Behind(Exec(c, run), file, at) && Exec(c, run).pass.NoPass?
    requires forall k :: !Copy(Exec(c, run), k, file, at)
    requires forall i :: 0 <= i < |more| ==> !Disturbs(more[i], file.path)
    ensures Behind(Exec(c, run + more), file, at) && Unread(Exec(c, run + more), file, at)
  {
    hide Behind, Lawful, Disturbs, Unread, Exec, BeginPass, AppendBatch;
    if more == [] {
      assert run + more == run;
      BehindFile(Exec(c, run), file, at);
      FreshUnread(Exec(c, run), file, at);
    } else {
      var before, a := more[..|more| - 1], more[|more| - 1];
      StaysUnread(c, run, before, file, at);
      var w := Exec(c, run + before);
      assert run + more == (run + before) + [a];
      ExecLast(c, run + before, a);
      match a
      case Begin(path, now, countries) =>
        if w.pass.NoPass? && path in w.live && LiveFile(w, path) in w.contents { BeginUnread(c, w, path, now, countries, file, at); }
      case AppendDay(date, batch) =>
        if w.pass.Reading? && Parsed(c, w.pass.taken) { AppendUnread(c, w, date, batch, file, at); }
      case Write(_, _) => OtherUnread(c, w, a, file, at);
      case Link(_, _, _) => OtherUnread(c, w, a, file, at);
      case Save => OtherUnread(c, w, a, file, at);
      case _ =>
        QuietSteps(c, w, a);
        QuietBehind(c, w, a, file, at);
        QuietUnread(w, Apply(c, w, a), file, at);
    }
  }

  lemma BehindFile(w: World, file: File, at: nat)
    requires Behind(w, file, at)
    ensures file in w.contents
  {
  }

  lemma FreshUnread(w: World, file: File, at: nat)
    requires w.pass.NoPass? && file in w.contents && forall k :: !Copy(w, k, file, at)
    ensures Unread(w, file, at)
  {
    forall key, r | r in LandedAt(w, key) ensures !(r.file == file && r.at == at) { assert !Copy(w, key, file, at); }
  }

  /** Some run gets there: the file is cut to nothing and written anew, longer, before the next pass. */
  lemma LostRun(c: Codec, path: string, inode: nat, line: string) returns (run: seq<Action>, file: File)
    requires Lawful(c) && WholeLine(c, line) && c.batch > 0
    ensures
      var w := Exec(c, run);
      && Behind(w, file, 0) && w.pass.NoPass? && Accepted(c, w.contents[file], 0) && LineText(w.contents[file], 0) == line
      && forall k :: !Copy(w, k, file, 0)
  {
    hide Apply, Exec, Accepted, LineText, Lawful, WholeLine, Starts, After;
    var old', key, r := File(path, inode, 0), (c.ns(path), 0), Read(File(path, inode, 0), 0, line, 0, map[]);
    file := File(path, inode, 1);
    var w0 := StartWorld(c, old', line);
    var w1;
    w1, key, r := OnePass(c, w0, old', line, 0, 0);
    EndOffset(c, w1);
    var w2 := Apply(c, Apply(c, w1, Warn), Save);
    run := [Link(path, inode, 0), Write(path, line), Begin(path, 0, map[]), AppendDay(key.1, 0), Warn, Save,
            Link(path, inode, 1), Write(path, line + line)];
    EightSteps(c, run);
    Rewritten(c, w2, path, inode, line + line);
    forall k ensures !Copy(Exec(c, run), k, file, 0) { }
    Doubled(c, line);
    assert 0 < |line| by { OneStart(c, line); }
  }

  lemma EndOffset(c: Codec, w: World)
    requires Lawful(c) && w.pass.Reading? && w.pass.todo == {} && !w.pass.warned
    ensures
      var w', p := Apply(c, Apply(c, w, Warn), Save), w.pass;
      && w'.pass.NoPass? && w'.contents == w.contents && w'.landed == w.landed
      && w'.saved == w.saved[p.file.path := Offset(p.file.inode, p.next, p.file.gen)]
  {
    hide Lawful;
  }

  lemma Rewritten(c: Codec, w: World, path: string, inode: nat, text: string)
    requires Lawful(c) && File(path, inode, 1) !in w.contents
    ensures
      var w', file := Apply(c, Apply(c, w, Link(path, inode, 1)), Write(path, text)), File(path, inode, 1);
      && w'.pass == w.pass && w'.landed == w.landed && w'.saved == w.saved
      && path in w'.live && LiveFile(w', path) == file && file in w'.contents && w'.contents[file] == text
  {
    hide Lawful;
    assert "" + text == text;
  }

  lemma Doubled(c: Codec, line: string)
    requires WholeLine(c, line)
    ensures Accepted(c, line + line, 0) && LineText(line + line, 0) == line
  {
    OnlyLine(line, 0);
    LineGrows(line, line, 0);
  }

  lemma EightSteps(c: Codec, run: seq<Action>)
    requires Lawful(c) && |run| == 8
    ensures
      var w4 := Apply(c, Apply(c, Apply(c, Apply(c, NOTHING, run[0]), run[1]), run[2]), run[3]);
      var w6 := Apply(c, Apply(c, w4, run[4]), run[5]);
      Exec(c, run) == Apply(c, Apply(c, w6, run[6]), run[7])
  {
    hide Apply, Lawful;
    ExecTake(c, run, 1);
    ExecTake(c, run, 2);
    ExecTake(c, run, 3);
    ExecTake(c, run, 4);
    ExecTake(c, run, 5);
    ExecTake(c, run, 6);
    ExecTake(c, run, 7);
    ExecTake(c, run, 8);
    assert run[..8] == run && run[..0] == [];
  }

  lemma ExecLast(c: Codec, run: seq<Action>, a: Action)
    requires Lawful(c)
    ensures Exec(c, run + [a]) == Apply(c, Exec(c, run), a)
  {
    assert (run + [a])[..|run|] == run;
  }
}
