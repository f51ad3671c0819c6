/**
 The other half of module Truncation: a line that no saved offset lies behind is read sooner or later, so
 the lines lost are exactly those a fitting saved offset has passed.
 */
module CatchUp {
  import opened Lines
  import opened EventTail
  import opened EventTailSafety
  import opened Truncation
  import P = Partition

  /** Batch ids at or above this one are unused. */
  lemma {:induction false} FreeId(names: set<P.Name>) returns (n: nat)
    ensures forall m: nat :: n <= m ==> P.Batch(m) !in names
  {
    if names == {} {
      n := 0;
    } else {
      var x :| x in names;
      n := FreeId(names - {x});
      if x.Batch? && n <= x.id {
        n := x.id + 1;
      }
    }
  }

  /** Between passes, a whole accepted line of the live file that the next pass does not start behind. */
  ghost predicate Ahead(c: Codec, w: World, file: File, at: nat) {
    && w.pass.NoPass?
    && file.path in w.live && LiveFile(w, file.path) == file && file in w.contents
    && Accepted(c, w.contents[file], at) && StartAt(w, file, |w.contents[file]|) <= at
  }

  /** Nothing but the pass and what its appends change. */
  ghost predicate SameFiles(w: World, w': World) {
    w'.live == w.live && w'.contents == w.contents && w'.saved == w.saved
  }

  ghost predicate Untouched(more: seq<Action>, path: string) {
    forall i :: 0 <= i < |more| ==> !Disturbs(more[i], path)
  }

  lemma UntouchedJoin(a: seq<Action>, b: seq<Action>, path: string)
    requires Untouched(a, path) && Untouched(b, path)
    ensures Untouched(a + b, path)
  {
  }

  lemma UntouchedOne(a: Action, path: string)
    requires !a.Link? && !a.Unlink? && !a.DropOffset?
    ensures Untouched([a], path)
  {
  }

  lemma AppendOne(c: Codec, w: World, date: int, n: nat)
    requires Lawful(c) && w.pass.Reading? && Parsed(c, w.pass.taken) && date in w.pass.todo
    requires P.Batch(n) !in PartAt(w, (c.ns(w.pass.file.path), date)).ever
    ensures
      var w', key := Apply(c, w, AppendDay(date, n)), (c.ns(w.pass.file.path), date);
      && SameFiles(w, w') && w'.pass == w.pass.(todo := w.pass.todo - {date})
      && forall r :: r in w.pass.taken && DayOf(c, r) == date ==> r in LandedAt(w', key)
  {
    hide DayReads, StoredAll, P.Apply, Lawful;
    DayReadsSubset(c, w.pass.taken, date);
  }

  lemma Pick<T>(s: set<T>) returns (x: T)
    requires s != {}
    ensures x in s
  {
    x :| x in s;
  }

  /** The appends of a pass, day by day. */
  lemma {:induction false} AppendAll(c: Codec, run: seq<Action>) returns (more: seq<Action>)
    requires Lawful(c) && Exec(c, run).pass.Reading? && Parsed(c, Exec(c, run).pass.taken)
    ensures
      var w, w' := Exec(c, run), Exec(c, run + more);
      SameFiles(w, w') && w'.pass == w.pass.(todo := {})
    ensures forall path :: Untouched(more, path)
    decreases |Exec(c, run).pass.todo|
  {
    hide Exec, Lawful, Parsed, AppendBatch;
    var w := Exec(c, run);
    var todo: set<int> := w.pass.todo;
    if todo == {} {
      more := [];
      assert run + more == run;
      assert w.pass == w.pass.(todo := todo);
    } else {
      var date := Pick(todo);
      var n := FreeId(PartAt(w, (c.ns(w.pass.file.path), date)).ever.Keys);
      var a := AppendDay(date, n);
      ExecLast(c, run, a);
      AppendOne(c, w, date, n);
      var rest := AppendAll(c, run + [a]);
      more := [a] + rest;
      forall path ensures Untouched(more, path) {
        UntouchedOne(a, path);
        UntouchedJoin([a], rest, path);
      }
      assert run + more == (run + [a]) + rest;
    }
  }

  lemma Finish(c: Codec, w: World)
    requires Lawful(c) && w.pass.Reading? && w.pass.todo == {} && !w.pass.warned
    ensures
      var w', p := Apply(c, Apply(c, w, Warn), Save), w.pass;
      && w'.pass.NoPass? && w'.live == w.live && w'.contents == w.contents
      && w'.saved == w.saved[p.file.path := Offset(p.file.inode, p.next, p.file.gen)]
  {
    hide Lawful;
  }

  lemma Begins(c: Codec, w: World, file: File, at: nat)
    requires Lawful(c) && Ahead(c, w, file, at)
    ensures
      var b := w.contents[file];
      var start := StartAt(w, file, |b|);
      var w' := Apply(c, w, Begin(file.path, 0, map[]));
      && SameFiles(w, w') && w'.landed == w.landed && w'.parts == w.parts
      && w'.pass == Reading(file, start, After(b, start, c.batch), w'.pass.taken, w'.pass.bad, w'.pass.todo, false)
      && Parsed(c, w'.pass.taken) && w'.pass.todo == Dates(c, w'.pass.taken)
      && (at < After(b, start, c.batch) ==> Took(w'.pass.taken, at))
      && forall r :: r in w'.pass.taken ==> r.file == file
  {
    hide Take, Refuse, Starts, After, Takes, Lawful, Accepted, Dates;
    var b := w.contents[file];
    var start := StartAt(w, file, |b|);
    AcceptedInside(c, b, at);
    TakeParses(c, file, b, 0, map[], Starts(b, start, c.batch));
    if at < After(b, start, c.batch) { TakesLine(c, file, b, start, 0, map[], at); }
  }

  lemma AcceptedInside(c: Codec, b: string, at: nat)
    requires Accepted(c, b, at)
    ensures at < |b| && LineEnd(b, at).Some?
  {
  }

  /** A pass that starts at or before a whole line takes at least one read further. */
  lemma {:induction false} Advances(b: string, from: nat, n: nat, at: nat)
    requires n > 0 && from <= at && LineEnd(b, at).Some?
    ensures from < After(b, from, n) <= |b|
  {
    LineEndBefore(b, from, at);
    AfterBound(b, LineEnd(b, from).value, n - 1);
  }

  lemma {:induction false} LineEndBefore(b: string, from: nat, at: nat)
    requires from <= at && LineEnd(b, at).Some?
    ensures LineEnd(b, from).Some?
    decreases at - from
  {
    if from < at && b[from] != '\n' { LineEndBefore(b, from + 1, at); }
  }

  /** A whole pass that stops short of the line starts the next one closer to it. */
  lemma PassNearer(c: Codec, run: seq<Action>, file: File, at: nat) returns (more: seq<Action>)
    requires Lawful(c) && c.batch > 0 && Ahead(c, Exec(c, run), file, at)
    requires
      var b := Exec(c, run).contents[file];
      After(b, StartAt(Exec(c, run), file, |b|), c.batch) <= at
    ensures
      var w, w' := Exec(c, run), Exec(c, run + more);
      && Ahead(c, w', file, at) && w'.contents[file] == w.contents[file]
      && StartAt(w', file, |w.contents[file]|) > StartAt(w, file, |w.contents[file]|)
    ensures Untouched(more, file.path)
  {
    hide Exec, Lawful, After, Accepted, Apply;
    var w := Exec(c, run);
    var b, begin := w.contents[file], Begin(file.path, 0, map[]);
    var start := StartAt(w, file, |b|);
    Begins(c, w, file, at);
    ExecLast(c, run, begin);
    AcceptedInside(c, b, at);
    Advances(b, start, c.batch, at);
    var days := AppendAll(c, run + [begin]);
    var run2 := run + [begin] + days;
    ExecLast(c, run2, Warn);
    ExecLast(c, run2 + [Warn], Save);
    Finish(c, Exec(c, run2));
    more := [begin] + days + [Warn, Save];
    UntouchedOne(begin, file.path);
    UntouchedJoin([begin], days, file.path);
    UntouchedJoin([begin] + days, [Warn, Save], file.path);
    assert run + more == run2 + [Warn] + [Save];
  }

  /** Reading on, pass after pass, gets to the line and lands it. */
  lemma {:induction false} Lands(c: Codec, run: seq<Action>, file: File, at: nat) returns (more: seq<Action>, key: Key)
    requires Lawful(c) && c.batch > 0 && Ahead(c, Exec(c, run), file, at)
    ensures Untouched(more, file.path) && Copy(Exec(c, run + more), key, file, at)
    decreases at - StartAt(Exec(c, run), file, |Exec(c, run).contents[file]|)
  {
    hide Exec, Lawful, After, Accepted, Apply, StartAt, Parsed, Dates;
    var w := Exec(c, run);
    var b := w.contents[file];
    if After(b, StartAt(w, file, |b|), c.batch) <= at {
      var pass := PassNearer(c, run, file, at);
      var rest;
      rest, key := Lands(c, run + pass, file, at);
      more := pass + rest;
      assert run + more == (run + pass) + rest;
    } else {
      var begin := Begin(file.path, 0, map[]);
      Begins(c, w, file, at);
      ExecLast(c, run, begin);
      var w1 := Exec(c, run + [begin]);
      var r :| r in w1.pass.taken && r.at == at;
      var date := TakenDay(c, w1.pass.taken, r);
      key := (c.ns(file.path), date);
      var n := FreeId(PartAt(w1, key).ever.Keys);
      ExecLast(c, run + [begin], AppendDay(date, n));
      AppendOne(c, w1, date, n);
      more := [begin, AppendDay(date, n)];
      assert run + more == run + [begin] + [AppendDay(date, n)];
      assert r in LandedAt(Exec(c, run + more), key);
    }
  }

  lemma TakenDay(c: Codec, taken: seq<Read>, r: Read) returns (date: int)
    requires Parsed(c, taken) && r in taken
    ensures date in Dates(c, taken) && date == DayOf(c, r)
  {
    date := DayOf(c, r);
  }

  /** The next pass starts at or before a line exactly when no fitting saved offset lies behind it. */
  lemma StartsBehindIff(w: World, file: File, at: nat)
    requires file.path in w.live && LiveFile(w, file.path) == file && file in w.contents
    ensures StartAt(w, file, |w.contents[file]|) <= at <==> !Behind(w, file, at)
  {
  }

  /**
   Exactly the lines that are lost: between passes, a whole accepted line of the live file that has not
   landed lands on some run on which its path is not linked anew and its offset not dropped, if and only if
   no saved offset that fits the file lies behind it.
   */
  lemma LandsIff(c: Codec, run: seq<Action>, file: File, at: nat)
    requires Lawful(c) && c.batch > 0
    requires
      var w := Exec(c, run);
      && w.pass.NoPass? && file.path in w.live && LiveFile(w, file.path) == file && file in w.contents
      && Accepted(c, w.contents[file], at) && forall k :: !Copy(w, k, file, at)
    ensures (exists more, key :: Untouched(more, file.path) && Copy(Exec(c, run + more), key, file, at)) <==>
      !Behind(Exec(c, run), file, at)
  {
    hide Exec, Lawful, Accepted, Behind, StartAt, Copy, Disturbs;
    var w := Exec(c, run);
    StartsBehindIff(w, file, at);
    if !Behind(w, file, at) {
      var more, key := Lands(c, run, file, at);
      assert Untouched(more, file.path) && Copy(Exec(c, run + more), key, file, at);
    } else {
      forall more, key | Untouched(more, file.path) ensures !Copy(Exec(c, run + more), key, file, at) {
        NeverRead(c, run, more, file, at, key);
      }
    }
  }
}
