/**
 The writer of one app's request and process logs: a bounded queue, three buffers and a database
 whose inserts are all or nothing and may fail at any time.
 */
module LogWriter {
  import opened Prelude

  /** The columns of a row. */
  type RequestRow = seq<string>
  type LogRow = seq<string>

  /** One queued operation; an empty path is none. */
  datatype Entry = Entry(request: Option<RequestRow>, logs: seq<LogRow>, blocked: string)

  /** The three buffers, and the three tables they go to. */
  datatype Batch = Batch(requests: seq<RequestRow>, logs: seq<LogRow>, blocked: map<string, nat>)

  const NOTHING: Batch := Batch([], [], map[])

  const QUEUE_SIZE := 4096
  const FLUSH_AT := 256
  const MAX_REQUESTS := 8192
  const MAX_LOGS := 32768

  function At(m: map<string, nat>, path: string): nat {
    if path in m then m[path] else 0
  }

  /** Upserting counters adds them. */
  function Merge(a: map<string, nat>, b: map<string, nat>): map<string, nat> {
    map p | p in a.Keys + b.Keys :: At(a, p) + At(b, p)
  }

  function Stored(db: Batch, b: Batch): Batch {
    Batch(db.requests + b.requests, db.logs + b.logs, Merge(db.blocked, b.blocked))
  }

  /** The newest rows of a backlog. */
  function Newest<T>(rows: seq<T>, cap: nat): seq<T> {
    if |rows| > cap then rows[|rows| - cap..] else rows
  }

  /** What a failed flush keeps. */
  function Trimmed(b: Batch): Batch {
    Batch(Newest(b.requests, MAX_REQUESTS), Newest(b.logs, MAX_LOGS), if |b.blocked| > MAX_LOGS then map[] else b.blocked)
  }

  function Drained(b: Batch, e: Entry): Batch {
    Batch(
      b.requests + (if e.request.Some? then [e.request.value] else []),
      b.logs + e.logs,
      if e.blocked == "" then b.blocked else b.blocked[e.blocked := At(b.blocked, e.blocked) + 1])
  }

  function DrainedAll(b: Batch, queue: seq<Entry>): Batch
    decreases |queue|
  {
    if queue == [] then b else DrainedAll(Drained(b, queue[0]), queue[1..])
  }

  /** A failed flush keeps the newest 8192 request rows and 32768 log rows, and no counters of more paths than that. */
  lemma TrimmedMeans(b: Batch)
    ensures
      var t := Trimmed(b);
      && |t.requests| == (if |b.requests| < 8192 then |b.requests| else 8192) && t.requests == b.requests[|b.requests| - |t.requests|..]
      && |t.logs| == (if |b.logs| < 32768 then |b.logs| else 32768) && t.logs == b.logs[|b.logs| - |t.logs|..]
      && t.blocked == if |b.blocked| <= 32768 then b.blocked else map[]
  {
  }

  predicate Full(b: Batch) {
    |b.requests| >= FLUSH_AT || |b.blocked| >= FLUSH_AT
  }

  datatype Core = Core(queue: seq<Entry>, buffer: Batch, db: Batch, done: bool)

  function Flushed(c: Core, ok: bool): Core {
    if c.buffer == NOTHING then c
    else if ok then c.(buffer := NOTHING, db := Stored(c.db, c.buffer))
    else c.(buffer := Trimmed(c.buffer))
  }

  function Offered(c: Core, e: Entry): Core {
    if |c.queue| < QUEUE_SIZE then c.(queue := c.queue + [e]) else c
  }

  /** The loop's first case: one entry, then a flush when the buffers are full. */
  function Took(c: Core, ok: bool): Core
    requires c.queue != []
  {
    var c' := c.(queue := c.queue[1..], buffer := Drained(c.buffer, c.queue[0]));
    if Full(c'.buffer) then Flushed(c', ok) else c'
  }

  /** The queue takes 4096 entries; 256 request rows or blocked paths are written out at once. */
  lemma LimitsMean(c: Core, e: Entry, b: Batch)
    ensures Offered(c, e) == if |c.queue| < 4096 then c.(queue := c.queue + [e]) else c
    ensures Full(b) <==> |b.requests| >= 256 || |b.blocked| >= 256
  {
  }

  /** The loop's last case: the whole queue, one last flush. */
  function Stopped(c: Core, ok: bool): Core {
    Flushed(c.(queue := [], buffer := DrainedAll(c.buffer, c.queue), done := true), ok)
  }

  // ---------------------------------------------------------------- the imperative form

  class AppWriter {
    var queue: seq<Entry>
    var requests: seq<RequestRow>
    var logs: seq<LogRow>
    var blocked: map<string, nat>
    var db: Batch
    var done: bool

    function View(): Core
      reads this
    {
      Core(queue, Batch(requests, logs, blocked), db, done)
    }

    constructor (tables: Batch)
      ensures View() == Core([], NOTHING, tables, false)
    {
      queue, requests, logs, blocked, db, done := [], [], [], map[], tables, false;
    }

    /** Record, RecordLogs and RecordBlocked: a full queue refuses the entry. */
    method Offer(e: Entry) returns (accepted: bool)
      modifies this
      ensures View() == Offered(old(View()), e)
      ensures accepted <==> |old(queue)| < QUEUE_SIZE
    {
      accepted := |queue| < QUEUE_SIZE;
      if accepted {
        queue := queue + [e];
      }
    }

    /** One transaction: the statement with number `failAt`, or the commit after them, fails and with it the whole batch. */
    method Insert(failAt: Option<nat>) returns (ok: bool)
      modifies this`db
      ensures ok <==> failAt.None? || failAt.value > |requests| + |logs| + |blocked|
      ensures db == if ok then Stored(old(db), Batch(requests, logs, blocked)) else old(db)
    {
      hide Merge;
      var tx := db;
      var rows, inserted := InsertRows(tx.requests, requests, failAt);
      if !inserted { return false; }
      tx := tx.(requests := rows);
      rows, inserted := InsertRows(tx.logs, logs, Less(failAt, |requests|));
      if !inserted { return false; }
      tx := tx.(logs := rows);
      var counters, upserted := UpsertBlocked(tx.blocked, blocked, Less(failAt, |requests| + |logs|));
      if !upserted || failAt == Some(|requests| + |logs| + |blocked|) { return false; }
      db := tx.(blocked := counters);
      return true;
    }

    /** flushNow. */
    method FlushNow(failAt: Option<nat>) returns (ok: bool)
      modifies this
      ensures View() == Flushed(old(View()), ok)
      ensures failAt.None? ==> ok
    {
      hide Stored;
      ok := true;
      if |requests| == 0 && |logs| == 0 && |blocked| == 0 { return; }
      ok := Insert(failAt);
      if !ok {
        if |requests| > MAX_REQUESTS {
          requests := requests[|requests| - MAX_REQUESTS..];
        }
        if |logs| > MAX_LOGS {
          logs := logs[|logs| - MAX_LOGS..];
        }
        if |blocked| > MAX_LOGS {
          blocked := map[];
        }
        return;
      }
      requests, logs, blocked := [], [], map[];
    }

    method Drain(op: Entry)
      modifies this`requests, this`logs, this`blocked
      ensures View() == old(View()).(buffer := Drained(old(View()).buffer, op))
    {
      if op.request.Some? { requests := requests + [op.request.value]; }
      if |op.logs| > 0 { logs := logs + op.logs; }
      if op.blocked != "" { blocked := blocked[op.blocked := At(blocked, op.blocked) + 1]; }
    }

    method OnEntry(failAt: Option<nat>) returns (ok: bool)
      requires queue != []
      modifies this
      ensures View() == Took(old(View()), ok)
      ensures failAt.None? ==> ok
    {
      ok := true;
      var op := queue[0];
      queue := queue[1..];
      Drain(op);
      if |requests| >= FLUSH_AT || |blocked| >= FLUSH_AT {
        ok := FlushNow(failAt);
      }
    }

    method OnStop(failAt: Option<nat>) returns (ok: bool)
      modifies this
      ensures View() == Stopped(old(View()), ok)
      ensures failAt.None? ==> ok
    {
      ghost var buffer := View().buffer;
      while queue != []
        invariant DrainedAll(View().buffer, queue) == DrainedAll(buffer, old(queue))
        invariant db == old(db) && done == old(done)
        decreases |queue|
      {
        var op := queue[0];
        queue := queue[1..];
        Drain(op);
      }
      done := true;
      ok := FlushNow(failAt);
    }
  }

  function Less(failAt: Option<nat>, n: nat): Option<nat> {
    if failAt.Some? && failAt.value >= n then Some(failAt.value - n) else None
  }

  /** One statement for each row, inside the transaction. */
  method InsertRows<T>(table: seq<T>, rows: seq<T>, failAt: Option<nat>) returns (r: seq<T>, ok: bool)
    ensures ok <==> failAt.None? || failAt.value >= |rows|
    ensures ok ==> r == table + rows
  {
    r := table;
    for i := 0 to |rows|
      invariant r == table + rows[..i] && (failAt.Some? ==> failAt.value >= i)
    {
      if failAt == Some(i) { return r, false; }
      r := r + [rows[i]];
    }
    ok := true;
  }

  lemma MergeStep(a: map<string, nat>, done: map<string, nat>, p: string, n: nat)
    requires p !in done
    ensures Merge(a, done[p := n]) == Merge(a, done)[p := At(Merge(a, done), p) + n]
  {
  }

  method UpsertBlocked(table: map<string, nat>, blocked: map<string, nat>, failAt: Option<nat>) returns (r: map<string, nat>, ok: bool)
    ensures ok <==> failAt.None? || failAt.value >= |blocked|
    ensures ok ==> r == Merge(table, blocked)
  {
    hide Merge;
    r := table;
    var rest := blocked.Keys;
    ghost var done: map<string, nat> := map[];
    assert Merge(table, map[]) == table by { MergeNothing(table); }
    var i := 0;
    while rest != {}
      invariant rest <= blocked.Keys && done == blocked - rest && r == Merge(table, done)
      invariant |rest| + i == |blocked.Keys| && (failAt.Some? ==> failAt.value >= i)
      decreases |rest|
    {
      if failAt == Some(i) { return r, false; }
      var p :| p in rest;
      MergeStep(table, done, p, blocked[p]);
      r := r[p := At(r, p) + blocked[p]];
      done := done[p := blocked[p]];
      rest := rest - {p};
      i := i + 1;
    }
    assert done == blocked;
    assert |blocked| == |blocked.Keys|;
    ok := true;
  }

  lemma MergeNothing(a: map<string, nat>)
    ensures Merge(a, map[]) == a
  {
  }
}
