/** What every run of the log writer keeps: rows are committed in order, once, or dropped oldest first. */
module LogWriterSafety {
  import opened Prelude
  import opened LogWriter

  datatype Action = Offer(e: Entry) | Take(ok: bool) | Tick(ok: bool) | Stop(ok: bool)

  /**
   The writer with its history: the entries the queue accepted and those taken from it, which of
   the settled rows were committed rather than dropped, and the counters that were thrown away.
   */
  datatype State = State(core: Core, accepted: seq<Entry>, taken: seq<Entry>, keptRequests: seq<bool>, keptLogs: seq<bool>, forgotten: map<string, nat>)

  const INIT: State := State(Core([], NOTHING, NOTHING, false), [], [], [], [], map[])

  function Same(n: nat, b: bool): seq<bool> {
    seq(n, i => b)
  }

  /** Flushing with history: a success settles all rows as kept, a failure the excess as dropped. */
  function Flush(s: State, ok: bool): State {
    var b := s.core.buffer;
    var s' := s.(core := Flushed(s.core, ok));
    if ok then
      s'.(keptRequests := s.keptRequests + Same(|b.requests|, true), keptLogs := s.keptLogs + Same(|b.logs|, true))
    else
      s'.(keptRequests := s.keptRequests + Same(|b.requests| - |Trimmed(b).requests|, false),
          keptLogs := s.keptLogs + Same(|b.logs| - |Trimmed(b).logs|, false),
          forgotten := if |b.blocked| > MAX_LOGS then Merge(s.forgotten, b.blocked) else s.forgotten)
  }

  /** One entry moves from the queue to the buffers. */
  function Move(s: State): State
    requires s.core.queue != []
  {
    var e := s.core.queue[0];
    s.(core := s.core.(queue := s.core.queue[1..], buffer := Drained(s.core.buffer, e)), taken := s.taken + [e])
  }

  function MoveAll(s: State): State
    decreases |s.core.queue|
  {
    if s.core.queue == [] then s else MoveAll(Move(s))
  }

  function Apply(s: State, a: Action): State {
    match a
    case Offer(e) => s.(core := Offered(s.core, e), accepted := if |s.core.queue| < QUEUE_SIZE then s.accepted + [e] else s.accepted)
    case Take(ok) =>
      if s.core.done || s.core.queue == [] then s
      else if Full(Move(s).core.buffer) then Flush(Move(s), ok) else Move(s)
    case Tick(ok) => if s.core.done then s else Flush(s, ok)
    case Stop(ok) => if s.core.done then s else Flush(MoveAll(s).(core := MoveAll(s).core.(done := true)), ok)
  }

  function Exec(run: seq<Action>): State {
    if run == [] then INIT else Apply(Exec(run[..|run| - 1]), run[|run| - 1])
  }

  // ---------------------------------------------------------------- the machine is the class

  lemma {:induction false} MoveAllCore(s: State)
    ensures MoveAll(s).core == s.core.(queue := [], buffer := DrainedAll(s.core.buffer, s.core.queue))
    decreases |s.core.queue|
  {
    if s.core.queue == [] {
    } else {
      MoveAllCore(Move(s));
    }
  }

  /** The machine's steps change the writer as the class's methods do. */
  lemma ApplyIsWriter(s: State, a: Action)
    ensures a.Offer? ==> Apply(s, a).core == Offered(s.core, a.e)
    ensures a.Take? && !s.core.done && s.core.queue != [] ==> Apply(s, a).core == Took(s.core, a.ok)
    ensures a.Tick? && !s.core.done ==> Apply(s, a).core == Flushed(s.core, a.ok)
    ensures a.Stop? && !s.core.done ==> Apply(s, a).core == Stopped(s.core, a.ok)
  {
    MoveAllCore(s);
  }

  // ---------------------------------------------------------------- what is kept of each table

  function Requests(entries: seq<Entry>): seq<RequestRow> {
    if entries == [] then []
    else
      var e := entries[|entries| - 1];
      Requests(entries[..|entries| - 1]) + (if e.request.Some? then [e.request.value] else [])
  }

  function Logs(entries: seq<Entry>): seq<LogRow> {
    if entries == [] then [] else Logs(entries[..|entries| - 1]) + entries[|entries| - 1].logs
  }

  /** How often a path was blocked. */
  function Hits(entries: seq<Entry>, path: string): nat {
    if entries == [] then 0
    else Hits(entries[..|entries| - 1], path) + (if entries[|entries| - 1].blocked == path then 1 else 0)
  }

  /** The rows marked as kept. */
  function Keep<T>(rows: seq<T>, kept: seq<bool>): seq<T>
    requires |rows| == |kept|
  {
    if rows == [] then []
    else Keep(rows[..|rows| - 1], kept[..|rows| - 1]) + (if kept[|rows| - 1] then [rows[|rows| - 1]] else [])
  }

  /** The received rows are the settled ones, each committed or dropped, and then the buffer. */
  ghost predicate Accounted<T>(received: seq<T>, kept: seq<bool>, buffer: seq<T>, committed: seq<T>) {
    && |received| == |kept| + |buffer| && received[|kept|..] == buffer
    && committed == Keep(received[..|kept|], kept)
  }

  lemma AccountedMore<T>(received: seq<T>, kept: seq<bool>, buffer: seq<T>, committed: seq<T>, more: seq<T>)
    requires Accounted(received, kept, buffer, committed)
    ensures Accounted(received + more, kept, buffer + more, committed)
  {
    assert (received + more)[..|kept|] == received[..|kept|];
    assert (received + more)[|kept|..] == received[|kept|..] + more;
  }

  lemma {:induction false} KeepAppend<T>(a: seq<T>, ka: seq<bool>, b: seq<T>, kb: seq<bool>)
    requires |a| == |ka| && |b| == |kb|
    ensures Keep(a + b, ka + kb) == Keep(a, ka) + Keep(b, kb)
  {
    if b == [] {
      assert a + b == a && ka + kb == ka;
    } else {
      var n := |b| - 1;
      KeepAppend(a, ka, b[..n], kb[..n]);
      assert (a + b)[..|a| + n] == a + b[..n] && (ka + kb)[..|a| + n] == ka + kb[..n];
    }
  }

  lemma {:induction false} KeepSame<T>(rows: seq<T>, b: bool)
    ensures Keep(rows, Same(|rows|, b)) == if b then rows else []
  {
    if rows == [] {
    } else {
      var n := |rows| - 1;
      KeepSame(rows[..n], b);
      assert Same(|rows|, b)[..n] == Same(n, b) && |rows[..n]| == n;
      assert rows[..n] + [rows[n]] == rows;
    }
  }

  /** The oldest n buffered rows are settled one way. */
  lemma AccountedSettle<T>(received: seq<T>, kept: seq<bool>, buffer: seq<T>, committed: seq<T>, n: nat, b: bool)
    requires Accounted(received, kept, buffer, committed) && n <= |buffer|
    ensures Accounted(received, kept + Same(n, b), buffer[n..], committed + if b then buffer[..n] else [])
  {
    var k := |kept|;
    assert received[..k + n] == received[..k] + buffer[..n];
    assert received[k + n..] == buffer[n..];
    KeepAppend(received[..k], kept, buffer[..n], Same(n, b));
    KeepSame(buffer[..n], b);
  }

  ghost predicate CountersOk(s: State) {
    forall p :: At(s.core.db.blocked, p) + At(s.core.buffer.blocked, p) + At(s.forgotten, p) == (if p == "" then 0 else Hits(s.taken, p))
  }

  ghost predicate Inv(s: State) {
    && s.accepted == s.taken + s.core.queue
    && Accounted(Requests(s.taken), s.keptRequests, s.core.buffer.requests, s.core.db.requests)
    && Accounted(Logs(s.taken), s.keptLogs, s.core.buffer.logs, s.core.db.logs)
    && CountersOk(s)
  }

  lemma MergeAt(a: map<string, nat>, b: map<string, nat>, p: string)
    ensures At(Merge(a, b), p) == At(a, p) + At(b, p)
  {
  }

  lemma MoveCounters(s: State)
    requires CountersOk(s) && s.core.queue != []
    ensures CountersOk(Move(s))
  {
    assert Move(s).taken[..|s.taken|] == s.taken;
  }

  lemma MoveKeeps(s: State)
    requires Inv(s) && s.core.queue != []
    ensures Inv(Move(s))
  {
    MoveCounters(s);
    hide CountersOk, Accounted;
    var e, s' := s.core.queue[0], Move(s);
    assert s'.taken[..|s.taken|] == s.taken;
    AccountedMore(Requests(s.taken), s.keptRequests, s.core.buffer.requests, s.core.db.requests, if e.request.Some? then [e.request.value] else []);
    AccountedMore(Logs(s.taken), s.keptLogs, s.core.buffer.logs, s.core.db.logs, e.logs);
  }

  lemma {:induction false} MoveAllKeeps(s: State)
    requires Inv(s)
    ensures Inv(MoveAll(s)) && MoveAll(s).core.queue == []
    decreases |s.core.queue|
  {
    hide Inv;
    if s.core.queue != [] {
      MoveKeeps(s);
      MoveAllKeeps(Move(s));
    }
  }

  lemma FlushCountersAt(s: State, ok: bool, p: string)
    ensures
      var s' := Flush(s, ok);
      At(s'.core.db.blocked, p) + At(s'.core.buffer.blocked, p) + At(s'.forgotten, p)
      == At(s.core.db.blocked, p) + At(s.core.buffer.blocked, p) + At(s.forgotten, p)
  {
    var b := s.core.buffer;
    MergeAt(s.core.db.blocked, b.blocked, p);
    MergeAt(s.forgotten, b.blocked, p);
    hide Merge, Newest, Same;
  }

  lemma FlushCounters(s: State, ok: bool)
    requires CountersOk(s)
    ensures CountersOk(Flush(s, ok))
  {
    assert Flush(s, ok).taken == s.taken;
    hide Flush, Hits, At;
    forall p
      ensures At(Flush(s, ok).core.db.blocked, p) + At(Flush(s, ok).core.buffer.blocked, p) + At(Flush(s, ok).forgotten, p) == (if p == "" then 0 else Hits(s.taken, p))
    {
      FlushCountersAt(s, ok, p);
      assert At(s.core.db.blocked, p) + At(s.core.buffer.blocked, p) + At(s.forgotten, p) == (if p == "" then 0 else Hits(s.taken, p));
    }
  }

  lemma FlushRows(s: State, ok: bool)
    requires Inv(s)
    ensures
      var s' := Flush(s, ok);
      && Accounted(Requests(s'.taken), s'.keptRequests, s'.core.buffer.requests, s'.core.db.requests)
      && Accounted(Logs(s'.taken), s'.keptLogs, s'.core.buffer.logs, s'.core.db.logs)
  {
    hide CountersOk, Accounted, Requests, Logs;
    var b := s.core.buffer;
    var nr := if ok then |b.requests| else |b.requests| - |Trimmed(b).requests|;
    var nl := if ok then |b.logs| else |b.logs| - |Trimmed(b).logs|;
    AccountedSettle(Requests(s.taken), s.keptRequests, b.requests, s.core.db.requests, nr, ok);
    AccountedSettle(Logs(s.taken), s.keptLogs, b.logs, s.core.db.logs, nl, ok);
    SettledPart(b.requests, nr, s.core.db.requests);
    SettledPart(b.logs, nl, s.core.db.logs);
    assert b == NOTHING ==> Trimmed(b) == NOTHING && b.requests == [] && b.logs == [];
  }

  lemma SettledPart<T>(rows: seq<T>, n: nat, db: seq<T>)
    requires n <= |rows|
    ensures rows[|rows|..] == [] && rows[..|rows|] == rows && rows[0..] == rows && db + [] == db
  {
  }

  lemma FlushKeeps(s: State, ok: bool)
    requires Inv(s)
    ensures Inv(Flush(s, ok))
  {
    FlushRows(s, ok);
    FlushCounters(s, ok);
    hide CountersOk, Accounted;
  }

  lemma StepKeeps(s: State, a: Action)
    requires Inv(s)
    ensures Inv(Apply(s, a))
  {
    hide CountersOk, Accounted;
    match a
    case Offer(e) => OfferKeeps(s, e);
    case Take(ok) =>
      if !s.core.done && s.core.queue != [] {
        MoveKeeps(s);
        FlushKeeps(Move(s), ok);
      }
    case Tick(ok) => FlushKeeps(s, ok);
    case Stop(ok) =>
      MoveAllKeeps(s);
      var drained := MoveAll(s);
      DoneKeeps(drained);
      FlushKeeps(drained.(core := drained.core.(done := true)), ok);
  }

  lemma OfferKeeps(s: State, e: Entry)
    requires Inv(s)
    ensures Inv(Apply(s, Offer(e)))
  {
    hide Accounted, Hits;
  }

  lemma DoneKeeps(s: State)
    requires Inv(s)
    ensures Inv(s.(core := s.core.(done := true)))
  {
    hide Accounted, Hits;
  }

  lemma {:induction false} ExecKeeps(run: seq<Action>)
    ensures Inv(Exec(run))
  {
    hide Inv, Apply;
    if run == [] {
      InitOk();
    } else {
      ExecKeeps(run[..|run| - 1]);
      StepKeeps(Exec(run[..|run| - 1]), run[|run| - 1]);
    }
  }

  lemma InitOk()
    ensures Inv(INIT)
  {
  }

  /**
   Conservation: on every run of offers, ticks, takes and a stop, with any inserts failing, the
   rows of the accepted entries are, in order, the settled rows, the buffer and the queue; the
   tables hold exactly the settled rows not dropped, each once and in order; and every blocked
   counter is in the table, in the buffer or among those thrown away.
   */
  lemma WriterConserves(run: seq<Action>)
    ensures
      var s := Exec(run);
      && s.accepted == s.taken + s.core.queue
      && (exists settled :: |settled| == |s.keptRequests| && Requests(s.taken) == settled + s.core.buffer.requests && s.core.db.requests == Keep(settled, s.keptRequests))
      && (exists settled :: |settled| == |s.keptLogs| && Logs(s.taken) == settled + s.core.buffer.logs && s.core.db.logs == Keep(settled, s.keptLogs))
      && (forall p :: p != "" ==> At(s.core.db.blocked, p) + At(s.core.buffer.blocked, p) + At(s.forgotten, p) == Hits(s.taken, p))
  {
    hide Exec;
    ExecKeeps(run);
    var s := Exec(run);
    AccountedSplit(Requests(s.taken), s.keptRequests, s.core.buffer.requests, s.core.db.requests);
    AccountedSplit(Logs(s.taken), s.keptLogs, s.core.buffer.logs, s.core.db.logs);
    hide Accounted, Requests, Logs, Hits, Keep;
  }

  lemma AccountedSplit<T>(received: seq<T>, kept: seq<bool>, buffer: seq<T>, committed: seq<T>)
    requires Accounted(received, kept, buffer, committed)
    ensures exists settled :: |settled| == |kept| && received == settled + buffer && committed == Keep(settled, kept)
  {
    var settled := received[..|kept|];
    assert |settled| == |kept| && received == settled + buffer && committed == Keep(settled, kept);
  }

  lemma {:induction false} RunsOpen(run: seq<Action>)
    requires forall a :: a in run ==> !a.Stop?
    ensures !Exec(run).core.done
  {
    if run != [] {
      assert run[|run| - 1] in run;
      RunsOpen(run[..|run| - 1]);
      var s, a := Exec(run[..|run| - 1]), run[|run| - 1];
      if a.Take? && s.core.queue != [] { FlushOpen(Move(s), a.ok); }
      FlushOpen(s, true);
      FlushOpen(s, false);
    }
  }

  lemma FlushOpen(s: State, ok: bool)
    ensures Flush(s, ok).core.done == s.core.done && Flush(s, ok).core.queue == s.core.queue
  {
  }

  /** The writer works until it is stopped; then everything accepted was taken, and a good last insert leaves no row behind. */
  lemma StopSettles(run: seq<Action>, ok: bool)
    requires forall a :: a in run ==> !a.Stop?
    ensures
      var s, t := Exec(run), Exec(run + [Stop(ok)]);
      && !s.core.done && t.core.done && t.core.queue == [] && t.taken == t.accepted == s.accepted
      && (ok ==> t.core.buffer == Batch([], [], map[]))
  {
    RunsOpen(run);
    WriterConserves(run + [Stop(ok)]);
    var s := Exec(run);
    MoveAllCore(s);
    MoveAllAccepts(s);
    assert (run + [Stop(ok)])[..|run|] == run;
    FlushOpen(MoveAll(s).(core := MoveAll(s).core.(done := true)), ok);
    FlushAccepts(MoveAll(s).(core := MoveAll(s).core.(done := true)), ok);
  }

  lemma {:induction false} MoveAllAccepts(s: State)
    ensures MoveAll(s).accepted == s.accepted
    decreases |s.core.queue|
  {
    if s.core.queue != [] { MoveAllAccepts(Move(s)); }
  }

  lemma FlushAccepts(s: State, ok: bool)
    ensures Flush(s, ok).accepted == s.accepted && (ok ==> Flush(s, ok).core.buffer == Batch([], [], map[]))
  {
  }

  // ---------------------------------------------------------------- caps

  predicate WithinCaps(b: Batch) {
    |b.requests| <= 8192 && |b.logs| <= 32768 && |b.blocked| <= 32768
  }

  /** Whatever its outcome, a flush leaves every buffer within its cap. */
  lemma FlushCaps(s: State, ok: bool)
    ensures WithinCaps(Flush(s, ok).core.buffer)
  {
  }

  /** Before the stop, request rows and counters are within their caps at every moment, not only after a flush. */
  lemma {:induction false} AlwaysCapped(run: seq<Action>)
    requires forall i :: 0 <= i < |run| ==> !run[i].Stop?
    ensures var b := Exec(run).core.buffer; |b.requests| <= 8192 && |b.blocked| <= 32768
  {
    if run == [] {
    } else {
      var s, a := Exec(run[..|run| - 1]), run[|run| - 1];
      AlwaysCapped(run[..|run| - 1]);
      if a.Take? && !s.core.done && s.core.queue != [] {
        FlushCaps(Move(s), a.ok);
      } else if a.Tick? {
        FlushCaps(s, a.ok);
      }
    }
  }

  // ---------------------------------------------------------------- when rows are dropped

  /** The rows an action's flush works on, if it flushes. */
  function Flushing(s: State, a: Action): Option<Batch> {
    if s.core.done then None
    else
      match a
      case Offer(_) => None
      case Take(_) =>
        if s.core.queue != [] && Full(Drained(s.core.buffer, s.core.queue[0])) then Some(Drained(s.core.buffer, s.core.queue[0])) else None
      case Tick(_) => Some(s.core.buffer)
      case Stop(_) => Some(DrainedAll(s.core.buffer, s.core.queue))
  }

  /** The action's insert fails while its backlog of requests exceeds the cap. */
  predicate Overflows(s: State, a: Action) {
    Fails(s, a) && |Flushing(s, a).value.requests| > 8192
  }

  predicate OverflowsLogs(s: State, a: Action) {
    Fails(s, a) && |Flushing(s, a).value.logs| > 32768
  }

  /** The action's insert fails with counters for more paths than the cap, this one among them. */
  predicate Forgets(s: State, a: Action, path: string) {
    Fails(s, a) && |Flushing(s, a).value.blocked| > 32768 && At(Flushing(s, a).value.blocked, path) > 0
  }

  predicate Fails(s: State, a: Action) {
    !a.Offer? && !a.ok && Flushing(s, a).Some?
  }

  lemma {:induction false} MoveAllKept(s: State)
    ensures MoveAll(s).keptRequests == s.keptRequests && MoveAll(s).keptLogs == s.keptLogs && MoveAll(s).forgotten == s.forgotten
    decreases |s.core.queue|
  {
    if s.core.queue == [] {
    } else {
      MoveAllKept(Move(s));
    }
  }

  lemma SameFalse(n: nat)
    ensures false in Same(n, false) <==> n > 0
    ensures false !in Same(n, true)
  {
    if n > 0 { assert Same(n, false)[0] == false; }
  }

  lemma FlushDrops(s: State, ok: bool)
    ensures
      var s', b := Flush(s, ok), s.core.buffer;
      && (false in s'.keptRequests <==> false in s.keptRequests || (!ok && |b.requests| > MAX_REQUESTS))
      && (false in s'.keptLogs <==> false in s.keptLogs || (!ok && |b.logs| > MAX_LOGS))
  {
    hide Stored, Merge, Same;
    var b := s.core.buffer;
    SameFalse(|b.requests|);
    SameFalse(|b.logs|);
    SameFalse(|b.requests| - |Trimmed(b).requests|);
    SameFalse(|b.logs| - |Trimmed(b).logs|);
  }

  lemma FlushForgets(s: State, ok: bool, path: string)
    ensures At(Flush(s, ok).forgotten, path) > 0 <==>
      At(s.forgotten, path) > 0 || (!ok && |s.core.buffer.blocked| > MAX_LOGS && At(s.core.buffer.blocked, path) > 0)
  {
    MergeAt(s.forgotten, s.core.buffer.blocked, path);
    hide Merge, Same, Trimmed, Stored;
  }

  /** The flush of an action, on the state it finds. */
  lemma FlushOf(s: State, a: Action) returns (before: State)
    requires Flushing(s, a).Some?
    ensures !a.Offer? && Apply(s, a) == Flush(before, a.ok) && before.core.buffer == Flushing(s, a).value
    ensures before.keptRequests == s.keptRequests && before.keptLogs == s.keptLogs && before.forgotten == s.forgotten
  {
    MoveAllCore(s);
    MoveAllKept(s);
    hide Flush, MoveAll, DrainedAll;
    match a
    case Take(_) => before := Move(s);
    case Tick(_) => before := s;
    case Stop(_) => before := MoveAll(s).(core := MoveAll(s).core.(done := true));
  }

  lemma NoFlush(s: State, a: Action)
    requires Flushing(s, a).None?
    ensures Apply(s, a).keptRequests == s.keptRequests && Apply(s, a).keptLogs == s.keptLogs && Apply(s, a).forgotten == s.forgotten
  {
    hide Flush, MoveAll;
  }

  lemma StepDrops(s: State, a: Action, path: string)
    ensures false in Apply(s, a).keptRequests <==> false in s.keptRequests || Overflows(s, a)
    ensures false in Apply(s, a).keptLogs <==> false in s.keptLogs || OverflowsLogs(s, a)
    ensures At(Apply(s, a).forgotten, path) > 0 <==> At(s.forgotten, path) > 0 || Forgets(s, a, path)
  {
    hide Apply, Flush, Flushing;
    if Flushing(s, a).Some? {
      var before := FlushOf(s, a);
      FlushDrops(before, a.ok);
      FlushForgets(before, a.ok, path);
    } else {
      NoFlush(s, a);
    }
  }

  ghost predicate Overflowed(run: seq<Action>) {
    run != [] && (Overflowed(run[..|run| - 1]) || Overflows(Exec(run[..|run| - 1]), run[|run| - 1]))
  }

  ghost predicate OverflowedLogs(run: seq<Action>) {
    run != [] && (OverflowedLogs(run[..|run| - 1]) || OverflowsLogs(Exec(run[..|run| - 1]), run[|run| - 1]))
  }

  ghost predicate Forgotten(run: seq<Action>, path: string) {
    run != [] && (Forgotten(run[..|run| - 1], path) || Forgets(Exec(run[..|run| - 1]), run[|run| - 1], path))
  }

  lemma {:induction false} Dropped(run: seq<Action>, path: string)
    ensures false in Exec(run).keptRequests <==> Overflowed(run)
    ensures false in Exec(run).keptLogs <==> OverflowedLogs(run)
    ensures At(Exec(run).forgotten, path) > 0 <==> Forgotten(run, path)
  {
    hide Apply, Overflows, OverflowsLogs, Forgets;
    if run == [] {
    } else {
      Dropped(run[..|run| - 1], path);
      StepDrops(Exec(run[..|run| - 1]), run[|run| - 1], path);
    }
  }

  /**
   A received request row is dropped if and only if some insert failed on a backlog over the cap;
   without one, table, buffer and queue hold every accepted row in order.
   */
  lemma DropsOnlyOverCap(run: seq<Action>)
    ensures false in Exec(run).keptRequests <==> Overflowed(run)
    ensures !Overflowed(run) ==> Exec(run).core.db.requests + Exec(run).core.buffer.requests + Requests(Exec(run).core.queue) == Requests(Exec(run).accepted)
  {
    hide Exec, Accounted, Requests, Overflowed;
    Dropped(run, "");
    ExecKeeps(run);
    var s := Exec(run);
    if !Overflowed(run) {
      NothingDropped(Requests(s.taken), s.keptRequests, s.core.buffer.requests, s.core.db.requests);
      RequestsAppend(s.taken, s.core.queue);
    }
  }

  /** The same of process log rows and their cap. */
  lemma LogDropsOnlyOverCap(run: seq<Action>)
    ensures false in Exec(run).keptLogs <==> OverflowedLogs(run)
    ensures !OverflowedLogs(run) ==> Exec(run).core.db.logs + Exec(run).core.buffer.logs + Logs(Exec(run).core.queue) == Logs(Exec(run).accepted)
  {
    hide Exec, Accounted, Logs, OverflowedLogs;
    Dropped(run, "");
    ExecKeeps(run);
    var s := Exec(run);
    if !OverflowedLogs(run) {
      NothingDropped(Logs(s.taken), s.keptLogs, s.core.buffer.logs, s.core.db.logs);
      LogsAppend(s.taken, s.core.queue);
    }
  }

  /**
   Hits of a path are thrown away if and only if some insert failed while the buffer held it among
   more paths than the cap; without that, table and buffer hold every hit taken from the queue.
   */
  lemma HitsForgottenOnlyOverCap(run: seq<Action>, path: string)
    requires path != ""
    ensures At(Exec(run).forgotten, path) > 0 <==> Forgotten(run, path)
    ensures !Forgotten(run, path) ==> At(Exec(run).core.db.blocked, path) + At(Exec(run).core.buffer.blocked, path) == Hits(Exec(run).taken, path)
  {
    hide Exec, Accounted, Hits, Forgotten, At;
    Dropped(run, path);
    ExecKeeps(run);
  }

  lemma {:induction false} RequestsAppend(a: seq<Entry>, b: seq<Entry>)
    ensures Requests(a + b) == Requests(a) + Requests(b)
  {
    if b == [] {
      assert a + b == a;
    } else {
      assert (a + b)[..|a + b| - 1] == a + b[..|b| - 1];
      RequestsAppend(a, b[..|b| - 1]);
    }
  }

  lemma {:induction false} LogsAppend(a: seq<Entry>, b: seq<Entry>)
    ensures Logs(a + b) == Logs(a) + Logs(b)
  {
    if b == [] {
      assert a + b == a;
    } else {
      assert (a + b)[..|a + b| - 1] == a + b[..|b| - 1];
      LogsAppend(a, b[..|b| - 1]);
    }
  }

  lemma NothingDropped<T>(received: seq<T>, kept: seq<bool>, buffer: seq<T>, committed: seq<T>)
    requires Accounted(received, kept, buffer, committed) && false !in kept
    ensures committed + buffer == received
  {
    var settled := received[..|kept|];
    forall i | 0 <= i < |kept|
      ensures kept[i]
    {
      assert kept[i] in kept;
    }
    assert kept == Same(|settled|, true);
    KeepSame(settled, true);
    assert received == settled + buffer;
  }
}
