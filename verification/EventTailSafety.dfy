/** At-least-once reading and per-partition dedupe together give exactly once. */
module EventTailSafety {
  import opened Prelude
  import opened Rows
  import opened Lines
  import opened EventTail
  import P = Partition
  import Safety = PartitionSafety

  /** What was read and accepted is still at its place in its file. */
  ghost predicate Genuine(c: Codec, w: World, r: Read) {
    && r.file in w.contents && Takes(c, w.contents[r.file], r.at)
    && r.line == LineText(w.contents[r.file], r.at)
  }

  ghost predicate KeyOk(c: Codec, w: World, key: Key) {
    var landed, part := LandedAt(w, key), PartAt(w, key);
    && Parsed(c, landed) && Safety.Inv(part)
    && (forall row :: row in part.appended ==> row in StoredAll(c, landed))
    && (key !in w.expired ==> part.appended == StoredAll(c, landed))
    && forall r :: r in landed ==> Genuine(c, w, r) && key == (c.ns(r.file.path), DayOf(c, r))
  }

  /** The line reached the partition of its day. */
  ghost predicate Landed(c: Codec, w: World, file: File, at: nat) {
    exists d, r :: r in LandedAt(w, (c.ns(file.path), d)) && r.file == file && r.at == at
  }

  ghost predicate Recorded(w: World, file: File, at: nat) {
    (file, at) in w.warned
  }

  /** Every line before the furthest saved offset is dealt with. */
  ghost predicate MarkOk(c: Codec, w: World, file: File)
    requires file in w.marks && file in w.contents
  {
    && Boundary(w.contents[file], w.marks[file])
    && (forall at :: 0 <= at < w.marks[file] && Accepted(c, w.contents[file], at) ==> Landed(c, w, file, at))
    && (forall at :: 0 <= at < w.marks[file] && Rejected(c, w.contents[file], at) ==> Recorded(w, file, at))
  }

  ghost predicate MarksOk(c: Codec, w: World) {
    forall file :: file in w.marks ==> file in w.contents && MarkOk(c, w, file)
  }

  ghost predicate Took(taken: seq<Read>, at: nat) {
    exists r :: r in taken && r.at == at
  }

  /** The pass in memory holds every line it read past, and the days not on its list have landed. */
  ghost predicate PassOk(c: Codec, w: World) {
    w.pass.Reading? ==>
      var p := w.pass;
      && p.file in w.contents && p.start <= p.next && (p.start < p.next ==> Boundary(w.contents[p.file], p.next))
      && Parsed(c, p.taken)
      && (forall r :: r in p.taken ==> Genuine(c, w, r) && r.file == p.file)
      && (forall at :: p.start <= at < p.next && Accepted(c, w.contents[p.file], at) ==> Took(p.taken, at))
      && (forall at :: p.start <= at < p.next && Rejected(c, w.contents[p.file], at) ==> (p.file, at) in p.bad)
      && (forall r :: r in p.taken ==> DayOf(c, r) in p.todo || r in LandedAt(w, (c.ns(p.file.path), DayOf(c, r))))
      && (p.warned ==> forall b :: b in p.bad ==> b in w.warned)
  }

  ghost predicate KeysOk(c: Codec, w: World) {
    forall key :: KeyOk(c, w, key)
  }

  ghost predicate Inv(c: Codec, w: World) {
    KeysOk(c, w) && MarksOk(c, w) && PassOk(c, w)
  }

  // ---------------------------------------------------------------- the file grows

  lemma GenuineGrows(c: Codec, w: World, file: File, bytes: string, r: Read)
    requires file in w.contents && Genuine(c, w, r)
    ensures Genuine(c, w.(contents := w.contents[file := w.contents[file] + bytes]), r)
  {
    if r.file == file { LineGrows(w.contents[file], bytes, r.at); }
  }

  lemma AcceptedBefore(c: Codec, b: string, bytes: string, limit: nat, at: nat)
    requires Boundary(b, limit) && at < limit
    ensures Accepted(c, b + bytes, at) ==> Accepted(c, b, at)
    ensures Rejected(c, b + bytes, at) ==> Rejected(c, b, at)
  {
    if LineAt(b + bytes, at) { LineBefore(b, bytes, at, limit); }
  }

  lemma BoundaryGrows(b: string, bytes: string, at: nat)
    requires Boundary(b, at)
    ensures Boundary(b + bytes, at)
  {
  }

  lemma GrowKeepsKeys(c: Codec, w: World, file: File, bytes: string)
    requires Lawful(c) && KeysOk(c, w) && file in w.contents
    ensures KeysOk(c, w.(contents := w.contents[file := w.contents[file] + bytes]))
  {
    hide Genuine, Safety.Inv, Lawful;
    var w' := w.(contents := w.contents[file := w.contents[file] + bytes]);
    forall key ensures KeyOk(c, w', key) {
      assert KeyOk(c, w, key);
      forall r | r in LandedAt(w, key) ensures Genuine(c, w', r) { GenuineGrows(c, w, file, bytes, r); }
    }
  }

  lemma GrowKeepsMark(c: Codec, w: World, file: File, bytes: string, marked: File)
    requires file in w.contents && marked in w.marks && marked in w.contents && MarkOk(c, w, marked)
    ensures MarkOk(c, w.(contents := w.contents[file := w.contents[file] + bytes]), marked)
  {
    hide Accepted, Rejected, Boundary;
    var w' := w.(contents := w.contents[file := w.contents[file] + bytes]);
    if marked == file {
      BoundaryGrows(w.contents[file], bytes, w.marks[file]);
      forall at: nat | at < w.marks[file]
        ensures Accepted(c, w'.contents[file], at) ==> Landed(c, w', file, at)
        ensures Rejected(c, w'.contents[file], at) ==> Recorded(w', file, at)
      {
        AcceptedBefore(c, w.contents[file], bytes, w.marks[file], at);
      }
    }
    assert forall f, at :: Landed(c, w, f, at) ==> Landed(c, w', f, at);
  }

  lemma GrowKeepsPass(c: Codec, w: World, file: File, bytes: string)
    requires file in w.contents && PassOk(c, w)
    ensures PassOk(c, w.(contents := w.contents[file := w.contents[file] + bytes]))
  {
    hide Accepted, Rejected, Boundary, Genuine, Parsed;
    var w' := w.(contents := w.contents[file := w.contents[file] + bytes]);
    if w.pass.Reading? {
      var p := w.pass;
      forall r | r in p.taken ensures Genuine(c, w', r) { GenuineGrows(c, w, file, bytes, r); }
      if p.file == file {
        if p.start < p.next { BoundaryGrows(w.contents[file], bytes, p.next); }
        forall at: nat | p.start <= at < p.next
          ensures Accepted(c, w'.contents[file], at) ==> Took(p.taken, at)
          ensures Rejected(c, w'.contents[file], at) ==> (file, at) in p.bad
        {
          AcceptedBefore(c, w.contents[file], bytes, p.next, at);
        }
      }
    }
  }

  lemma GrowKeeps(c: Codec, w: World, file: File, bytes: string)
    requires Lawful(c) && Inv(c, w) && file in w.contents
    ensures Inv(c, w.(contents := w.contents[file := w.contents[file] + bytes]))
  {
    hide KeysOk, MarkOk, PassOk, Lawful;
    GrowKeepsKeys(c, w, file, bytes);
    forall marked | marked in w.marks { GrowKeepsMark(c, w, file, bytes, marked); }
    GrowKeepsPass(c, w, file, bytes);
  }

  // ---------------------------------------------------------------- files come and go

  lemma LinkKeepsKeys(c: Codec, w: World, path: string, inode: nat, gen: nat)
    requires Lawful(c) && KeysOk(c, w)
    ensures KeysOk(c, Apply(c, w, Link(path, inode, gen)))
  {
    hide Accepted, Safety.Inv, StoredAll, Lawful, P.Apply;
    var w' := Apply(c, w, Link(path, inode, gen));
    forall key ensures KeyOk(c, w', key) { assert KeyOk(c, w, key); }
  }

  lemma LinkKeepsMarks(c: Codec, w: World, path: string, inode: nat, gen: nat)
    requires Lawful(c) && MarksOk(c, w)
    ensures MarksOk(c, Apply(c, w, Link(path, inode, gen)))
  {
    hide Accepted, Rejected, Boundary, Lawful, LandedAt, P.Apply;
    var w' := Apply(c, w, Link(path, inode, gen));
    assert w'.landed == w.landed;
    forall file | file in w'.marks ensures MarkOk(c, w', file) {
      assert MarkOk(c, w, file);
      SameLanded(c, w, w');
    }
  }

  lemma SameLanded(c: Codec, w: World, w': World)
    requires w'.landed == w.landed
    ensures forall f, at :: Landed(c, w, f, at) <==> Landed(c, w', f, at)
  {
    assert forall k :: LandedAt(w, k) == LandedAt(w', k);
  }

  /** A new incarnation starts empty; nothing refers to it yet. */
  lemma LinkKeeps(c: Codec, w: World, path: string, inode: nat, gen: nat)
    requires Lawful(c) && Inv(c, w)
    ensures Inv(c, Apply(c, w, Link(path, inode, gen)))
  {
    hide Accepted, Rejected, Boundary, Lawful, KeysOk, MarksOk, Landed, Genuine, P.Apply;
    LinkKeepsKeys(c, w, path, inode, gen);
    LinkKeepsMarks(c, w, path, inode, gen);
    SameLanded(c, w, Apply(c, w, Link(path, inode, gen)));
    LinkGenuine(c, w, path, inode, gen);
  }

  lemma LinkGenuine(c: Codec, w: World, path: string, inode: nat, gen: nat)
    requires Lawful(c)
    ensures forall r :: Genuine(c, w, r) ==> Genuine(c, Apply(c, w, Link(path, inode, gen)), r)
  {
    hide Takes, LineText;
  }

  lemma UnlinkKeeps(c: Codec, w: World, live: map<string, Inode>, saved: map<string, Offset>)
    requires Inv(c, w)
    ensures Inv(c, w.(live := live, saved := saved))
  {
    hide Accepted, Rejected, Boundary, Safety.Inv, StoredAll;
    var w' := w.(live := live, saved := saved);
    forall key ensures KeyOk(c, w', key) { assert KeyOk(c, w, key); }
    forall file | file in w'.marks ensures MarkOk(c, w', file) {
      assert MarkOk(c, w, file);
      assert forall f, at :: Landed(c, w, f, at) ==> Landed(c, w', f, at);
    }
  }

  // ---------------------------------------------------------------- the pass

  /** A pass takes every accepted line it reads past and refuses every other. */
  lemma TakesLine(c: Codec, file: File, b: string, start: nat, now: int, countries: map<string, string>, at: nat)
    requires Lawful(c) && start <= at < After(b, start, c.batch)
    ensures Accepted(c, b, at) ==> Took(Take(c, file, b, now, countries, Starts(b, start, c.batch)), at)
    ensures Rejected(c, b, at) ==> (file, at) in Refuse(c, file, b, Starts(b, start, c.batch))
  {
    var starts := Starts(b, start, c.batch);
    TakeParses(c, file, b, now, countries, starts);
    RefuseAll(c, file, b, starts);
    StartsAreLines(b, start, c.batch, at);
    LineOf(c, b, at);
    hide Take, Refuse, Starts, After, Takes, Refuses, LineText;
    if Accepted(c, b, at) {
      assert Read(file, at, LineText(b, at), now, countries) in Take(c, file, b, now, countries, starts);
    }
  }

  lemma BeginReads(c: Codec, w: World, file: File, now: int, countries: map<string, string>)
    requires Lawful(c) && file in w.contents
    requires StartAt(w, file, |w.contents[file]|) < |w.contents[file]|
    ensures PassOk(c, BeginPass(c, w, file, now, countries))
  {
    hide Take, Refuse, Starts, After, Accepted, Rejected, Takes, Refuses, LineText, KeysOk, MarksOk, Took;
    var b := w.contents[file];
    var start := StartAt(w, file, |b|);
    var w' := BeginPass(c, w, file, now, countries);
    TakeParses(c, file, b, now, countries, Starts(b, start, c.batch));
    forall at: nat | start <= at < w'.pass.next
      ensures Accepted(c, b, at) ==> Took(w'.pass.taken, at)
      ensures Rejected(c, b, at) ==> (file, at) in w'.pass.bad
    {
      TakesLine(c, file, b, start, now, countries, at);
    }
  }

  lemma LineOf(c: Codec, b: string, at: nat)
    ensures Accepted(c, b, at) ==> LineAt(b, at) && Takes(c, b, at)
    ensures Rejected(c, b, at) ==> LineAt(b, at) && Refuses(c, b, at)
  {
  }

  /** A change to the pass, the saved offset of one path or the recorded rejections. */
  lemma SameStoreKeeps(c: Codec, w: World, w': World)
    requires KeysOk(c, w) && MarksOk(c, w)
    requires w'.contents == w.contents && w'.parts == w.parts && w'.landed == w.landed && w'.marks == w.marks && w'.expired == w.expired
    requires forall x :: x in w.warned ==> x in w'.warned
    ensures KeysOk(c, w') && MarksOk(c, w')
  {
    hide Accepted, Rejected, Boundary, Safety.Inv, StoredAll;
    forall key ensures KeyOk(c, w', key) { assert KeyOk(c, w, key); }
    forall file | file in w'.marks ensures MarkOk(c, w', file) {
      assert MarkOk(c, w, file);
      assert forall f, at :: Landed(c, w, f, at) ==> Landed(c, w', f, at);
    }
  }

  /** Saving an offset up to which every line is dealt with. */
  lemma SaveKeeps(c: Codec, w: World, file: File, start: nat, at: nat)
    requires Inv(c, w) && file in w.contents
    requires start <= Mark(w, file) < at ==> Boundary(w.contents[file], at)
    requires forall o :: start <= Mark(w, file) <= o < at && Accepted(c, w.contents[file], o) ==> Landed(c, w, file, o)
    requires forall o :: start <= Mark(w, file) <= o < at && Rejected(c, w.contents[file], o) ==> Recorded(w, file, o)
    ensures Inv(c, SaveAt(w, file, start, at))
  {
    hide Accepted, Rejected, Boundary, Safety.Inv, StoredAll;
    var w' := SaveAt(w, file, start, at);
    ZeroBoundary(w.contents[file]);
    forall key ensures KeyOk(c, w', key) { assert KeyOk(c, w, key); }
    assert forall f, o :: Landed(c, w, f, o) ==> Landed(c, w', f, o);
    forall marked | marked in w'.marks ensures marked in w'.contents && MarkOk(c, w', marked) {
      if marked in w.marks { assert MarkOk(c, w, marked); }
    }
  }

  lemma ZeroBoundary(b: string)
    ensures Boundary(b, 0)
  {
  }

  lemma BeginKeeps(c: Codec, w: World, file: File, now: int, countries: map<string, string>)
    requires Lawful(c) && Inv(c, w) && file in w.contents
    ensures Inv(c, BeginPass(c, w, file, now, countries))
  {
    hide KeysOk, MarksOk, PassOk, Lawful, BeginPass;
    BeginShape(c, w, file, now, countries);
    var start := StartAt(w, file, |w.contents[file]|);
    if start >= |w.contents[file]| {
      SaveKeeps(c, w, file, start, start);
    } else {
      BeginReads(c, w, file, now, countries);
      SameStoreKeeps(c, w, BeginPass(c, w, file, now, countries));
    }
  }

  lemma BeginShape(c: Codec, w: World, file: File, now: int, countries: map<string, string>)
    requires Lawful(c) && file in w.contents
    ensures
      var w', size := BeginPass(c, w, file, now, countries), |w.contents[file]|;
      var start := StartAt(w, file, size);
      if start >= size then w' == w || (w' == SaveAt(w, file, start, start) && start == 0)
      else
        w' == w.(pass := w'.pass) && w'.pass.Reading? && w'.pass.file == file && w'.pass.start == start
  {
  }

  lemma WarnPass(c: Codec, w: World, w': World)
    requires PassOk(c, w) && w.pass.Reading? && w'.contents == w.contents && w'.landed == w.landed && w'.marks == w.marks
    requires w'.pass == w.pass.(warned := true) && w'.warned == w.warned + w.pass.bad
    ensures PassOk(c, w')
  {
    hide Genuine, Accepted, Rejected, Boundary, DayOf, Parsed;
    GenuineFrame(c, w, w');
  }

  lemma WarnKeeps(c: Codec, w: World)
    requires Lawful(c) && Inv(c, w)
    ensures Inv(c, Apply(c, w, Warn))
  {
    hide KeysOk, MarksOk, PassOk, Lawful, BeginPass, AppendBatch, P.Apply;
    var w' := Apply(c, w, Warn);
    SameStoreKeeps(c, w, w');
    if w' != w { WarnPass(c, w, w'); }
  }

  lemma GenuineFrame(c: Codec, w: World, w': World)
    requires w'.contents == w.contents
    ensures forall r :: Genuine(c, w', r) == Genuine(c, w, r)
  {
  }

  lemma StopKeeps(c: Codec, w: World)
    requires Lawful(c) && Inv(c, w)
    ensures Inv(c, Apply(c, w, Stop))
  {
    hide KeysOk, MarksOk, Lawful;
    SameStoreKeeps(c, w, Apply(c, w, Stop));
  }

  /** When the days have landed and the rejections are recorded, so has every line read past. */
  lemma PassDone(c: Codec, w: World, o: nat)
    requires PassOk(c, w) && w.pass.Reading? && w.pass.todo == {} && w.pass.warned
    requires w.pass.start <= Mark(w, w.pass.file) <= o < w.pass.next
    ensures Accepted(c, w.contents[w.pass.file], o) ==> Landed(c, w, w.pass.file, o)
    ensures Rejected(c, w.contents[w.pass.file], o) ==> Recorded(w, w.pass.file, o)
  {
    hide Accepted, Rejected, Boundary, Genuine, DayOf;
    var p := w.pass;
    if Accepted(c, w.contents[p.file], o) {
      assert Took(p.taken, o);
      var r :| r in p.taken && r.at == o;
      assert r in LandedAt(w, (c.ns(p.file.path), DayOf(c, r)));
    }
  }

  lemma FinishKeeps(c: Codec, w: World)
    requires Lawful(c) && Inv(c, w)
    ensures Inv(c, Apply(c, w, Save))
  {
    hide KeysOk, MarksOk, Accepted, Rejected, Lawful;
    if w.pass.Reading? && w.pass.todo == {} && w.pass.warned {
      var file := w.pass.file;
      forall o: nat | w.pass.start <= Mark(w, file) <= o < w.pass.next
        ensures Accepted(c, w.contents[file], o) ==> Landed(c, w, file, o)
        ensures Rejected(c, w.contents[file], o) ==> Recorded(w, file, o)
      {
        PassDone(c, w, o);
      }
      SaveKeeps(c, w, file, w.pass.start, w.pass.next);
    }
  }

  // ---------------------------------------------------------------- the partitions

  lemma {:induction false} StoredAppend(c: Codec, a: seq<Read>, b: seq<Read>)
    requires Parsed(c, a) && Parsed(c, b)
    ensures Parsed(c, a + b) && StoredAll(c, a + b) == StoredAll(c, a) + StoredAll(c, b)
  {
    if b == [] {
      assert a + b == a;
    } else {
      assert (a + b)[..|a + b| - 1] == a + b[..|b| - 1];
      StoredAppend(c, a, b[..|b| - 1]);
    }
  }

  lemma MaintainKeepsKeys(c: Codec, w: World, key: Key, step: P.Action)
    requires Lawful(c) && KeysOk(c, w) && !step.Append?
    ensures KeysOk(c, Apply(c, w, Maintain(key, step)))
  {
    hide Accepted, Safety.Inv, StoredAll, Lawful, P.Apply;
    var w' := Apply(c, w, Maintain(key, step));
    forall k ensures KeyOk(c, w', k) {
      assert KeyOk(c, w, k);
      if k == key {
        Safety.StepKeeps(PartAt(w, key), step);
        Safety.StepHistory(PartAt(w, key), step);
      }
    }
  }

  lemma MaintainKeeps(c: Codec, w: World, key: Key, step: P.Action)
    requires Lawful(c) && Inv(c, w) && !step.Append?
    ensures Inv(c, Apply(c, w, Maintain(key, step)))
  {
    hide Accepted, Rejected, Boundary, Lawful, KeysOk, Landed, Genuine, P.Apply;
    var w' := Apply(c, w, Maintain(key, step));
    MaintainKeepsKeys(c, w, key, step);
    SameLanded(c, w, w');
    GenuineFrame(c, w, w');
    forall file | file in w'.marks ensures MarkOk(c, w', file) { assert MarkOk(c, w, file); }
  }

  lemma AppendedKey(c: Codec, w: World, date: int, batch: nat)
    requires Lawful(c) && Inv(c, w) && w.pass.Reading?
    ensures KeysOk(c, AppendBatch(c, w, date, batch))
  {
    hide Safety.Inv, StoredAll, Lawful, P.Apply, Genuine, DayReads, DayOf;
    var w', p := AppendBatch(c, w, date, batch), w.pass;
    var key := (c.ns(p.file.path), date);
    if w' != w {
      var day := DayReads(c, p.taken, date);
      DayReadsSubset(c, p.taken, date);
      GenuineFrame(c, w, w');
      forall k ensures KeyOk(c, w', k) {
        assert KeyOk(c, w, k);
        if k == key {
          Safety.StepKeeps(PartAt(w, key), P.Append(batch, StoredAll(c, day)));
          StoredAppend(c, LandedAt(w, key), day);
          AppendHistory(PartAt(w, key), batch, StoredAll(c, day));
        }
      }
    }
  }

  lemma AppendHistory(s: P.State, batch: nat, rows: seq<Row>)
    requires P.Batch(batch) !in s.ever
    ensures P.Apply(s, P.Append(batch, rows)).appended == s.appended + rows
  {
  }

  lemma AppendedLanded(c: Codec, w: World, date: int, batch: nat)
    requires Lawful(c) && Inv(c, w) && w.pass.Reading?
    ensures forall k, r :: r in LandedAt(w, k) ==> r in LandedAt(AppendBatch(c, w, date, batch), k)
    ensures forall f, o :: Landed(c, w, f, o) ==> Landed(c, AppendBatch(c, w, date, batch), f, o)
  {
    hide MarksOk, KeysOk, StoredAll, Lawful, P.Apply, DayReads, Genuine, Accepted, Rejected;
    var w' := AppendBatch(c, w, date, batch);
    assert forall k, r :: r in LandedAt(w, k) ==> r in LandedAt(w', k);
  }

  lemma AppendedMarks(c: Codec, w: World, date: int, batch: nat)
    requires Lawful(c) && Inv(c, w) && w.pass.Reading?
    ensures MarksOk(c, AppendBatch(c, w, date, batch))
  {
    hide Accepted, Rejected, Boundary, StoredAll, Lawful, P.Apply, DayReads, KeysOk, Landed, LandedAt, Genuine;
    AppendedLanded(c, w, date, batch);
    var w' := AppendBatch(c, w, date, batch);
    forall file | file in w'.marks ensures MarkOk(c, w', file) { assert MarkOk(c, w, file); }
  }

  lemma AppendedPass(c: Codec, w: World, date: int, batch: nat)
    requires Lawful(c) && Inv(c, w) && w.pass.Reading?
    ensures PassOk(c, AppendBatch(c, w, date, batch))
  {
    hide Accepted, Rejected, Boundary, StoredAll, Lawful, P.Apply, Genuine, DayReads, DayOf, KeysOk, MarksOk, Landed;
    AppendedLanded(c, w, date, batch);
    DayReadsSubset(c, w.pass.taken, date);
    GenuineFrame(c, w, AppendBatch(c, w, date, batch));
  }

  // ---------------------------------------------------------------- every run

  lemma StepKeeps(c: Codec, w: World, a: Action)
    requires Lawful(c) && Inv(c, w)
    ensures Inv(c, Apply(c, w, a))
  {
    hide Inv, Lawful, AppendBatch, BeginPass, SaveAt;
    match a
    case Write(path, bytes) =>
      if path in w.live && LiveFile(w, path) in w.contents { GrowKeeps(c, w, LiveFile(w, path), bytes); }
    case Link(path, inode, gen) => LinkKeeps(c, w, path, inode, gen);
    case Unlink(path) => UnlinkKeeps(c, w, w.live - {path}, w.saved);
    case DropOffset(path) => UnlinkKeeps(c, w, w.live, w.saved - {path});
    case Begin(path, now, countries) =>
      if path in w.live && LiveFile(w, path) in w.contents { BeginKeeps(c, w, LiveFile(w, path), now, countries); }
    case AppendDay(date, batch) =>
      if w.pass.Reading? && Parsed(c, w.pass.taken) { AppendKeeps(c, w, date, batch); }
    case Warn => WarnKeeps(c, w);
    case Save => FinishKeeps(c, w);
    case Stop => StopKeeps(c, w);
    case Maintain(key, step) => if !step.Append? { MaintainKeeps(c, w, key, step); }
  }

  lemma AppendKeeps(c: Codec, w: World, date: int, batch: nat)
    requires Lawful(c) && Inv(c, w) && w.pass.Reading? && Parsed(c, w.pass.taken)
    ensures Inv(c, AppendBatch(c, w, date, batch))
  {
    hide KeysOk, MarksOk, PassOk, Lawful, AppendBatch;
    AppendedKey(c, w, date, batch);
    AppendedMarks(c, w, date, batch);
    AppendedPass(c, w, date, batch);
  }

  lemma {:induction false} ExecKeeps(c: Codec, run: seq<Action>)
    requires Lawful(c)
    ensures Inv(c, Exec(c, run))
  {
    if run == [] {
      Safety.InitOk();
      assert forall key :: PartAt(NOTHING, key) == P.INIT;
    } else {
      ExecKeeps(c, run[..|run| - 1]);
      StepKeeps(c, Exec(c, run[..|run| - 1]), run[|run| - 1]);
    }
  }

  // ---------------------------------------------------------------- exactly once

  /** The eid of a line. */
  function LineEid(c: Codec, file: File, at: nat): nat {
    c.eid(file.path, file.inode, at)
  }

  /** The read has the same path, inode and offset; its eid is then the same. */
  predicate SamePlace(r: Read, file: File, at: nat) {
    r.file.path == file.path && r.file.inode == file.inode && r.at == at
  }

  function Occurrences(rows: seq<Row>, eid: nat): nat {
    if rows == [] then 0 else Occurrences(rows[1..], eid) + if rows[0].eid == eid then 1 else 0
  }

  lemma {:induction false} UniqueOccurs(rows: seq<Row>, eid: nat)
    requires Unique(rows) && eid != 0
    ensures Occurrences(rows, eid) == if eid in Eids(rows) then 1 else 0
  {
    if rows == [] {
    } else {
      UniqueOccurs(rows[1..], eid);
      assert rows == [rows[0]] + rows[1..];
      EidsAppend([rows[0]], rows[1..]);
      assert Eids([rows[0]]) == if rows[0].eid == 0 then {} else {rows[0].eid};
    }
  }

  lemma {:induction false} StoredRows(c: Codec, taken: seq<Read>)
    requires Lawful(c) && Parsed(c, taken)
    ensures forall row :: row in StoredAll(c, taken) <==> exists r :: r in taken && Stored(c, r) == row
  {
    hide Stored, Lawful;
    if taken == [] {
    } else {
      var before, last := taken[..|taken| - 1], taken[|taken| - 1];
      assert last in taken && taken == before + [last];
      StoredRows(c, before);
    }
  }

  lemma StoredEids(c: Codec, taken: seq<Read>)
    requires Lawful(c) && Parsed(c, taken)
    ensures forall e :: e in Eids(StoredAll(c, taken)) <==> exists r :: r in taken && LineEid(c, r.file, r.at) == e
    ensures forall row :: row in StoredAll(c, taken) <==> exists r :: r in taken && Stored(c, r) == row
  {
    StoredRows(c, taken);
    hide StoredAll;
    forall r | r in taken
      ensures Stored(c, r).eid == LineEid(c, r.file, r.at) != 0
    {
    }
    hide Stored, LineEid;
  }

  /**
   A reader of a partition that was never removed sees a line's eid there once if the line, or another
   incarnation's at the same path, inode and offset, landed there, and not at all if not; of a
   partition removed since, at most once and only then.
   */
  lemma LineSeen(c: Codec, w: World, key: Key, listing: seq<P.Name>, file: File, at: nat)
    requires Lawful(c) && Inv(c, w) && P.IsListing(listing, PartAt(w, key).disk.files)
    ensures
      var n := Occurrences(Safety.Visible(PartAt(w, key).disk, listing), LineEid(c, file, at));
      if exists r :: r in LandedAt(w, key) && SamePlace(r, file, at) then n <= 1 && (key !in w.expired ==> n == 1) else n == 0
  {
    hide Safety.Inv, Genuine, StoredAll, Lawful;
    assert KeyOk(c, w, key);
    var part, e := PartAt(w, key), LineEid(c, file, at);
    Safety.VisibleFromInv(part, listing);
    StoredEids(c, LandedAt(w, key));
    assert Eids(part.appended) <= Eids(StoredAll(c, LandedAt(w, key)));
    EidNames(c, file, at);
    UniqueOccurs(Safety.Visible(part.disk, listing), e);
  }

  lemma EidNames(c: Codec, file: File, at: nat)
    requires Lawful(c)
    ensures LineEid(c, file, at) != 0
    ensures forall r: Read :: LineEid(c, r.file, r.at) == LineEid(c, file, at) <==> SamePlace(r, file, at)
  {
  }

  /** Whenever it is read, the line falls on the same UTC day: it carries its own time. */
  ghost predicate Dated(c: Codec, line: string) {
    forall n, m :: c.parse(line, n).Some? && c.parse(line, m).Some? ==>
      DateOf(c.parse(line, n).value.ts) == DateOf(c.parse(line, m).value.ts)
  }

  lemma LandedDay(c: Codec, w: World, key: Key, r: Read)
    requires Lawful(c) && Inv(c, w) && r in LandedAt(w, key)
    ensures r.file in w.contents && Takes(c, w.contents[r.file], r.at) && r.line == LineText(w.contents[r.file], r.at)
    ensures c.parse(r.line, r.now).Some? && key == (c.ns(r.file.path), DateOf(c.parse(r.line, r.now).value.ts))
  {
    hide Safety.Inv, StoredAll, Takes;
    assert KeyOk(c, w, key);
  }

  /** Another incarnation's line at the same path, inode and offset is in the partition. */
  ghost predicate Shared(w: World, key: Key, file: File, at: nat) {
    exists r :: r in LandedAt(w, key) && SamePlace(r, file, at) && r.file != file
  }

  /**
   The row of a read, column by column: what the line parses to, with the eid of its place and, if the
   line has no country of its own, the country of its request where that is known.
   */
  ghost predicate IsRowOf(c: Codec, r: Read, row: Row) {
    c.parse(r.line, r.now).Some? &&
    var p := c.parse(r.line, r.now).value;
    && row.eid == c.eid(r.file.path, r.file.inode, r.at)
    && row.ts == p.ts && row.event == p.event && row.msg == p.msg && row.tags == p.tags
    && row.userID == p.userID && row.anonID == p.anonID && row.tenantID == p.tenantID
    && row.requestID == p.requestID && row.value == p.value && row.data == p.data
    && (p.country != "" ==> row.country == p.country)
    && (p.country == "" && p.requestID != "" && p.requestID in r.countries ==> row.country == r.countries[p.requestID])
    && (p.country == "" && (p.requestID == "" || p.requestID !in r.countries) ==> row.country == "")
  }

  lemma StoredIsRow(c: Codec, r: Read)
    requires c.parse(r.line, r.now).Some?
    ensures IsRowOf(c, r, Stored(c, r)) && forall row :: IsRowOf(c, r, row) ==> row == Stored(c, r)
  {
  }

  /** A row of this very line is among the rows. */
  ghost predicate Shows(c: Codec, w: World, key: Key, rows: seq<Row>, file: File, at: nat) {
    exists r, row :: r in LandedAt(w, key) && r.file == file && r.at == at && row in rows && IsRowOf(c, r, row)
  }

  /**
   Exactly once: take any run and an accepted line that carries its own time, before an offset up to
   which its file was read and saved. In the partition of its namespace and day, unless retention has
   removed that day, its eid is visible once: as the line's own row, unless another incarnation of the
   file put a line of the same inode and offset into the same partition. Elsewhere its eid is visible
   only where such a line landed.
   */
  lemma ExactlyOnce(c: Codec, run: seq<Action>, file: File, at: nat, key: Key, listing: seq<P.Name>)
    requires Lawful(c)
    requires
      var w := Exec(c, run);
      && at < Mark(w, file) && file in w.contents && Accepted(c, w.contents[file], at)
      && Dated(c, LineText(w.contents[file], at))
      && P.IsListing(listing, PartAt(w, key).disk.files)
    ensures
      var w := Exec(c, run);
      var day := DateOf(c.parse(LineText(w.contents[file], at), 0).value.ts);
      var rows := Safety.Visible(PartAt(w, key).disk, listing);
      var n := Occurrences(rows, LineEid(c, file, at));
      && n <= 1
      && (key == (c.ns(file.path), day) && key !in w.expired ==>
        n == 1 && (Shared(w, key, file, at) || Shows(c, w, key, rows, file, at)))
      && (key != (c.ns(file.path), day) ==> if Shared(w, key, file, at) then key in w.expired || n == 1 else n == 0)
  {
    hide Occurrences, Safety.Visible, Accepted, Lawful, P.IsListing, Stored, IsRowOf;
    var w := Exec(c, run);
    ExecKeeps(c, run);
    LineSeen(c, w, key, listing, file, at);
    assert Landed(c, w, file, at) by { hide KeysOk, PassOk; }
    var d, r :| r in LandedAt(w, (c.ns(file.path), d)) && r.file == file && r.at == at;
    hide Inv;
    LandedDay(c, w, (c.ns(file.path), d), r);
    AcceptedParses(c, w.contents[file], at);
    forall q | q in LandedAt(w, key) && q.file == file && q.at == at
      ensures key == (c.ns(file.path), d)
    {
      LandedDay(c, w, key, q);
    }
    var rows := Safety.Visible(PartAt(w, key).disk, listing);
    if Occurrences(rows, LineEid(c, file, at)) == 1 {
      var q := SeenRow(c, w, key, listing, file, at);
      StoredIsRow(c, q);
    }
  }

  /** The visible row of an eid is the row of some read at that place. */
  lemma SeenRow(c: Codec, w: World, key: Key, listing: seq<P.Name>, file: File, at: nat) returns (r: Read)
    requires Lawful(c) && Inv(c, w) && P.IsListing(listing, PartAt(w, key).disk.files)
    requires Occurrences(Safety.Visible(PartAt(w, key).disk, listing), LineEid(c, file, at)) == 1
    ensures r in LandedAt(w, key) && SamePlace(r, file, at) && c.parse(r.line, r.now).Some?
    ensures Stored(c, r) in Safety.Visible(PartAt(w, key).disk, listing)
  {
    hide Safety.Inv, Genuine, StoredAll, Lawful, Safety.Visible;
    assert KeyOk(c, w, key);
    var part, e := PartAt(w, key), LineEid(c, file, at);
    var rows := Safety.Visible(part.disk, listing);
    Safety.VisibleFromInv(part, listing);
    var i := OccursAt(rows, e);
    assert rows[i] in part.appended;
    StoredEids(c, LandedAt(w, key));
    r :| r in LandedAt(w, key) && Stored(c, r) == rows[i];
    assert Stored(c, r).eid == LineEid(c, r.file, r.at);
    EidNames(c, file, at);
  }

  lemma {:induction false} OccursAt(rows: seq<Row>, eid: nat) returns (i: nat)
    requires Occurrences(rows, eid) > 0
    ensures i < |rows| && rows[i].eid == eid
  {
    if rows[0].eid == eid {
      i := 0;
    } else {
      i := OccursAt(rows[1..], eid);
      i := i + 1;
    }
  }

  lemma AcceptedParses(c: Codec, b: string, at: nat)
    requires Accepted(c, b, at)
    ensures c.parse(LineText(b, at), 0).Some?
  {
  }

  /**
   Nothing else is visible: every row a reader sees was read and accepted from some file, has that line's
   columns, and falls on the partition's day.
   */
  lemma NothingElse(c: Codec, run: seq<Action>, key: Key, listing: seq<P.Name>, row: Row)
    requires Lawful(c) && P.IsListing(listing, PartAt(Exec(c, run), key).disk.files)
    requires row in Safety.Visible(PartAt(Exec(c, run), key).disk, listing)
    ensures
      var w := Exec(c, run);
      exists r: Read ::
        && r in LandedAt(w, key) && r.file in w.contents && Takes(c, w.contents[r.file], r.at)
        && r.line == LineText(w.contents[r.file], r.at)
        && IsRowOf(c, r, row) && row.eid == LineEid(c, r.file, r.at)
        && key.0 == c.ns(r.file.path) && key.1 * 86_400_000_000_000 <= row.ts < (key.1 + 1) * 86_400_000_000_000
  {
    hide Safety.Visible, Takes, P.IsListing, Safety.Inv, StoredAll;
    var w := Exec(c, run);
    ExecKeeps(c, run);
    assert KeyOk(c, w, key);
    Safety.VisibleFromInv(PartAt(w, key), listing);
    StoredEids(c, LandedAt(w, key));
    assert row in PartAt(w, key).appended;
    var r :| r in LandedAt(w, key) && Stored(c, r) == row;
    LandedDay(c, w, key, r);
    StoredIsRow(c, r);
    DayMeans(row.ts, key.1);
  }

  /** Every rejected line before any offset ever saved has its warning row. */
  lemma RejectionsRecorded(c: Codec, run: seq<Action>, file: File, at: nat)
    requires Lawful(c)
    requires
      var w := Exec(c, run);
      at < Mark(w, file) && file in w.contents && Rejected(c, w.contents[file], at)
    ensures Recorded(Exec(c, run), file, at)
  {
    hide KeysOk, PassOk, Rejected, Accepted, Lawful;
    ExecKeeps(c, run);
    assert MarkOk(c, Exec(c, run), file);
  }

  // ---------------------------------------------------------------- lines without a time of their own

  ghost predicate Copy(w: World, key: Key, file: File, at: nat) {
    exists r :: r in LandedAt(w, key) && r.file == file && r.at == at
  }

  ghost predicate Covered(w: World, file: File, at: nat, line: string) {
    file in w.contents && LineAt(w.contents[file], at) && LineText(w.contents[file], at) == line && at < Mark(w, file)
  }

  /** No run leaves two partitions holding the line of this file once its offset is covered. */
  ghost predicate OnceInEveryRun(c: Codec, file: File, line: string)
    requires Lawful(c)
  {
    forall run, at, k1, k2 ::
      Covered(Exec(c, run), file, at, line) && Copy(Exec(c, run), k1, file, at) && Copy(Exec(c, run), k2, file, at) ==> k1 == k2
  }

  ghost predicate WholeLine(c: Codec, line: string) {
    && |line| > 0 && line[|line| - 1] == '\n' && '\n' !in line[..|line| - 1]
    && !c.blank(line) && c.parse(line, 0).Some?
  }

  lemma {:induction false} OnlyLine(line: string, pos: nat)
    requires |line| > 0 && line[|line| - 1] == '\n' && '\n' !in line[..|line| - 1] && pos < |line|
    ensures LineEnd(line, pos) == Some(|line|)
    decreases |line| - pos
  {
    if pos < |line| - 1 {
      assert line[pos] == line[..|line| - 1][pos];
      OnlyLine(line, pos + 1);
    }
  }

  /** A file that is one accepted line, with no offset saved for it. */
  ghost predicate OneLine(c: Codec, w: World, file: File, line: string) {
    && WholeLine(c, line) && c.batch > 0
    && file.path in w.live && LiveFile(w, file.path) == file
    && file in w.contents && w.contents[file] == line && file.path !in w.saved
  }

  lemma OneStart(c: Codec, line: string)
    requires WholeLine(c, line) && c.batch > 0
    ensures Boundary(line, 0) && Starts(line, 0, c.batch) == [0] && After(line, 0, c.batch) == |line|
    ensures LineAt(line, 0) && LineText(line, 0) == line
  {
    OnlyLine(line, 0);
    var none := Starts(line, |line|, c.batch - 1);
    assert LineEnd(line, |line|).None?;
    assert none == [];
  }

  lemma OneTake(c: Codec, file: File, line: string, now: int)
    requires Lawful(c) && WholeLine(c, line) && c.batch > 0
    ensures Take(c, file, line, now, map[], [0]) == [Read(file, 0, line, now, map[])]
    ensures Refuse(c, file, line, [0]) == []
  {
    OneStart(c, line);
    assert [0][..0] == [];
    assert Take(c, file, line, now, map[], []) == [];
  }

  lemma OneDay(c: Codec, r: Read)
    requires c.parse(r.line, r.now).Some?
    ensures Parsed(c, [r]) && Dates(c, [r]) == {DayOf(c, r)}
    ensures DayReads(c, [r], DayOf(c, r)) == [r]
  {
    assert [r][..0] == [];
    assert r in [r];
  }

  lemma OneBegins(c: Codec, w: World, file: File, line: string, now: int)
    requires Lawful(c) && w.pass.NoPass? && OneLine(c, w, file, line)
    ensures
      var r := Read(file, 0, line, now, map[]);
      c.parse(line, now).Some? &&
      Apply(c, w, Begin(file.path, now, map[])) == w.(pass := Reading(file, 0, |line|, [r], [], {DayOf(c, r)}, false))
  {
    hide Take, Refuse, Starts, After, DayOf, Dates;
    OneStart(c, line);
    OneTake(c, file, line, now);
    assert c.parse(line, now).Some? == c.parse(line, 0).Some?;
    OneDay(c, Read(file, 0, line, now, map[]));
  }

  /** One pass over that file up to the append of its only day. */
  lemma OnePass(c: Codec, w: World, file: File, line: string, now: int, batch: nat) returns (w': World, key: Key, r: Read)
    requires Lawful(c) && w.pass.NoPass? && OneLine(c, w, file, line)
    requires forall k :: P.Batch(batch) !in PartAt(w, k).ever
    ensures c.parse(line, now).Some? && key == (c.ns(file.path), DateOf(c.parse(line, now).value.ts))
    ensures r == Read(file, 0, line, now, map[])
    ensures w' == Apply(c, Apply(c, w, Begin(file.path, now, map[])), AppendDay(key.1, batch))
    ensures w'.pass == Reading(file, 0, |line|, [r], [], {}, false)
    ensures w'.landed == w.landed[key := LandedAt(w, key) + [r]]
    ensures w'.live == w.live && w'.contents == w.contents && w'.saved == w.saved && w'.marks == w.marks
    ensures forall n, k :: P.Batch(n) in PartAt(w', k).ever ==> n == batch || P.Batch(n) in PartAt(w, k).ever
  {
    hide Lawful, StoredAll, DayReads, DayOf, BeginPass, OneLine, Dates, P.Apply;
    OneBegins(c, w, file, line, now);
    r := Read(file, 0, line, now, map[]);
    key := (c.ns(file.path), DayOf(c, r));
    DayIs(c, r);
    OneDay(c, r);
    var w1 := w.(pass := Reading(file, 0, |line|, [r], [], {DayOf(c, r)}, false));
    assert w1 == Apply(c, w, Begin(file.path, now, map[]));
    assert forall k :: PartAt(w1, k) == PartAt(w, k);
    w' := AppendBatch(c, w1, key.1, batch);
    assert w' == Apply(c, w1, AppendDay(key.1, batch));
    OneAppend(c, w1, r, key, batch);
  }

  lemma OneAppend(c: Codec, w: World, r: Read, key: Key, batch: nat)
    requires c.parse(r.line, r.now).Some? && key == (c.ns(r.file.path), DayOf(c, r))
    requires w.pass.Reading? && w.pass.taken == [r] && w.pass.file == r.file && w.pass.todo == {DayOf(c, r)}
    requires P.Batch(batch) !in PartAt(w, key).ever
    ensures Parsed(c, w.pass.taken)
    ensures
      var w' := AppendBatch(c, w, key.1, batch);
      && w'.pass == w.pass.(todo := {}) && w'.landed == w.landed[key := LandedAt(w, key) + [r]]
      && w'.live == w.live && w'.contents == w.contents && w'.saved == w.saved && w'.marks == w.marks
      && forall n, k :: P.Batch(n) in PartAt(w', k).ever ==> n == batch || P.Batch(n) in PartAt(w, k).ever
  {
    hide StoredAll, DayReads, DayOf;
    OneDay(c, r);
    assert {DayOf(c, r)} - {DayOf(c, r)} == {};
  }

  lemma DayIs(c: Codec, r: Read)
    requires c.parse(r.line, r.now).Some?
    ensures DayOf(c, r) == DateOf(c.parse(r.line, r.now).value.ts)
  {
  }

  /** The pass is stopped before its offset is saved and the next one runs to its end. */
  lemma TwoPasses(c: Codec, file: File, line: string, n: int, m: int) returns (run: seq<Action>, k1: Key, k2: Key)
    requires Lawful(c) && WholeLine(c, line) && c.batch > 0
    requires c.parse(line, n).Some? && c.parse(line, m).Some?
    requires DateOf(c.parse(line, n).value.ts) != DateOf(c.parse(line, m).value.ts)
    ensures k1 != k2
    ensures Covered(Exec(c, run), file, 0, line)
    ensures Copy(Exec(c, run), k1, file, 0) && Copy(Exec(c, run), k2, file, 0)
  {
    hide Apply, Accepted, LineAt, LineText, Lawful, WholeLine, P.Apply;
    var path := file.path;
    var w1 := StartWorld(c, file, line);
    var w2, r1, r2;
    w2, k1, r1 := OnePass(c, w1, file, line, n, 0);
    StopWorld(c, w2);
    var w3 := Apply(c, w2, Stop);
    assert forall k :: PartAt(w1, k) == P.INIT;
    assert forall k :: PartAt(w3, k) == PartAt(w2, k);
    assert forall k :: P.Batch(1) !in PartAt(w2, k).ever;
    var w4;
    w4, k2, r2 := OnePass(c, w3, file, line, m, 1);
    EndWorld(c, w4);
    run := [Link(path, file.inode, file.gen), Write(path, line), Begin(path, n, map[]), AppendDay(k1.1, 0), Stop, Begin(path, m, map[]), AppendDay(k2.1, 1), Warn, Save];
    NineSteps(c, run);
    OneStart(c, line);
    assert r1 in LandedAt(w4, k1) && r2 in LandedAt(w4, k2);
  }

  lemma StartWorld(c: Codec, file: File, line: string) returns (w: World)
    requires Lawful(c) && WholeLine(c, line) && c.batch > 0
    ensures w == Apply(c, Apply(c, NOTHING, Link(file.path, file.inode, file.gen)), Write(file.path, line))
    ensures w.pass.NoPass? && OneLine(c, w, file, line) && w.parts == map[] && w.landed == map[]
    ensures w.contents == map[file := line]
  {
    w := Apply(c, Apply(c, NOTHING, Link(file.path, file.inode, file.gen)), Write(file.path, line));
    assert "" + line == line;
  }

  lemma StopWorld(c: Codec, w: World)
    requires Lawful(c)
    ensures Apply(c, w, Stop) == w.(pass := NoPass)
  {
  }

  lemma EndWorld(c: Codec, w: World)
    requires Lawful(c) && w.pass.Reading? && w.pass.start == 0 && w.pass.todo == {} && !w.pass.warned
    ensures
      var w' := Apply(c, Apply(c, w, Warn), Save);
      w'.contents == w.contents && w'.landed == w.landed && Mark(w', w.pass.file) >= w.pass.next
  {
  }

  lemma NineSteps(c: Codec, run: seq<Action>)
    requires Lawful(c) && |run| == 9
    ensures
      var w2 := Apply(c, Apply(c, NOTHING, run[0]), run[1]);
      var w4 := Apply(c, Apply(c, w2, run[2]), run[3]);
      var w7 := Apply(c, Apply(c, Apply(c, w4, run[4]), run[5]), run[6]);
      Exec(c, run) == Apply(c, Apply(c, w7, run[7]), run[8])
  {
    hide Apply, Lawful;
    ExecTake(c, run, 1);
    ExecTake(c, run, 2);
    ExecTake(c, run, 3);
    ExecTake(c, run, 4);
    ExecTake(c, run, 5);
    ExecTake(c, run, 6);
    ExecTake(c, run, 7);
    ExecTake(c, run, 8);
    ExecTake(c, run, 9);
    assert run[..9] == run && run[..0] == [];
  }

  lemma ExecTake(c: Codec, run: seq<Action>, i: nat)
    requires Lawful(c) && 0 < i <= |run|
    ensures Exec(c, run[..i]) == Apply(c, Exec(c, run[..i - 1]), run[i - 1])
  {
    assert run[..i][..i - 1] == run[..i - 1];
  }

  lemma CopiesAgree(c: Codec, line: string, run: seq<Action>, file: File, at: nat, k1: Key, k2: Key)
    requires Lawful(c) && Dated(c, line) && Covered(Exec(c, run), file, at, line)
    requires Copy(Exec(c, run), k1, file, at) && Copy(Exec(c, run), k2, file, at)
    ensures k1 == k2
  {
    hide Accepted, Lawful, Inv;
    var w := Exec(c, run);
    ExecKeeps(c, run);
    var r :| r in LandedAt(w, k1) && r.file == file && r.at == at;
    var q :| q in LandedAt(w, k2) && q.file == file && q.at == at;
    LandedDay(c, w, k1, r);
    LandedDay(c, w, k2, q);
  }

  /**
   Carrying its own time is not only enough but needed: for every path and inode, a line whose day
   depends on the clock is visible in two partitions on some run, a line whose day does not never is.
   */
  lemma OnceIffDated(c: Codec, file: File, line: string)
    requires Lawful(c) && WholeLine(c, line) && c.batch > 0
    ensures OnceInEveryRun(c, file, line) <==> Dated(c, line)
  {
    hide WholeLine, Covered, Copy, Lawful;
    if Dated(c, line) {
      forall run, at, k1, k2 | Covered(Exec(c, run), file, at, line) && Copy(Exec(c, run), k1, file, at) && Copy(Exec(c, run), k2, file, at)
        ensures k1 == k2
      {
        CopiesAgree(c, line, run, file, at, k1, k2);
      }
    } else {
      var n, m :| c.parse(line, n).Some? && c.parse(line, m).Some? && DateOf(c.parse(line, n).value.ts) != DateOf(c.parse(line, m).value.ts);
      var run, k1, k2 := TwoPasses(c, file, line, n, m);
    }
  }
}
