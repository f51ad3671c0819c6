/**
 What a funnel's query computes: a chain of common table expressions, each joining the actors of
 the step before with their next matching event.
 */
module Funnel {
  import opened Prelude
  import opened Rows
  import F = Filter
  import Agreement = FilterAgreement
  import Sql
  import Bags

  /** Who is counted, the window in nanoseconds, the step filters and the console's extra range. */
  datatype Funnel = Funnel(actor: F.Field, window: int, steps: seq<F.Filter>, extra: F.Filter)

  /** One row of a step's table: an actor, its breakdown, first time, this step's time and the previous one. */
  datatype Line = Line(bd: Option<string>, t1: int, t: int, prev: Option<int>)

  type Table = map<string, Line>

  /** The clock and zone of one query. */
  datatype Session = Session(h: F.Host, now: int, zone: int)

  function Actor(f: Funnel, e: Event): string {
    F.FieldValue(e.row, e.ns, f.actor)
  }

  /** The query's to_seconds literal: the window without its fraction of a second. */
  function Window(f: Funnel): int {
    F.Whole(f.window, SECOND) * SECOND
  }

  function EnvOf(q: Session, e: Event): Sql.Env {
    Sql.Env(e.row, e.ns, DateOf(e.row.ts), q.now, q.zone)
  }

  /** The WHERE of a step is TRUE; the console's extra range only narrows the first. */
  predicate Hit(q: Session, f: Funnel, n: nat, e: Event)
    requires n < |f.steps|
  {
    && Sql.Eval(q.h, EnvOf(q, e), F.Where(q.h, f.steps[n])) == Sql.Bool(true)
    && (n == 0 ==> Sql.Eval(q.h, EnvOf(q, e), F.Where(q.h, f.extra)) == Sql.Bool(true))
  }

  /** The events an actor's step n may be taken from, between two times. */
  function Candidates(q: Session, f: Funnel, n: nat, actor: string, from: Option<int>, until: Option<int>, events: seq<Event>): seq<Event>
    requires n < |f.steps|
  {
    if events == [] then []
    else
      var e := events[0];
      (if Actor(f, e) == actor && Hit(q, f, n, e) && (from.Some? ==> e.row.ts >= from.value) && (until.Some? ==> e.row.ts <= until.value)
       then [e] else []) +
      Candidates(q, f, n, actor, from, until, events[1..])
  }

  function MinTs(events: seq<Event>): int
    requires events != []
  {
    if |events| == 1 then events[0].row.ts
    else if events[0].row.ts < MinTs(events[1..]) then events[0].row.ts else MinTs(events[1..])
  }

  /** The actors of some events; NULL actors are left out. */
  function Actors(f: Funnel, events: seq<Event>): set<string> {
    set e | e in events && Actor(f, e) != "" :: Actor(f, e)
  }

  /** The first expression: each actor's earliest match of the first filter. */
  function First(q: Session, f: Funnel, bd: string -> Option<string>, events: seq<Event>): Table
    requires |f.steps| > 0
  {
    map a | a in Actors(f, events) && Candidates(q, f, 0, a, None, None, events) != [] ::
      var t := MinTs(Candidates(q, f, 0, a, None, None, events));
      Line(bd(a), t, t, None)
  }

  function NextCandidates(q: Session, f: Funnel, n: nat, p: Line, actor: string, events: seq<Event>): seq<Event>
    requires n < |f.steps|
  {
    Candidates(q, f, n, actor, Some(p.t), Some(p.t1 + Window(f)), events)
  }

  /** The join of a later expression. */
  function Next(q: Session, f: Funnel, n: nat, previous: Table, events: seq<Event>): Table
    requires n < |f.steps|
  {
    map a | a in previous && NextCandidates(q, f, n, previous[a], a, events) != [] ::
      var p := previous[a];
      Line(p.bd, p.t1, MinTs(NextCandidates(q, f, n, p, a, events)), Some(p.t))
  }

  /** The table of step n, counting from one. */
  function StepTable(q: Session, f: Funnel, bd: string -> Option<string>, n: nat, events: seq<Event>): Table
    requires 0 < n <= |f.steps|
  {
    if n == 1 then First(q, f, bd, events) else Next(q, f, n - 1, StepTable(q, f, bd, n - 1, events), events)
  }

  /** The loop over the steps, one expression each. */
  method Evaluate(q: Session, f: Funnel, bd: string -> Option<string>, events: seq<Event>) returns (tables: seq<Table>)
    ensures |tables| == |f.steps|
    ensures forall i :: 0 <= i < |tables| ==> tables[i] == StepTable(q, f, bd, i + 1, events)
  {
    hide First, Next;
    tables := [];
    for i := 0 to |f.steps|
      invariant |tables| == i
      invariant forall j :: 0 <= j < i ==> tables[j] == StepTable(q, f, bd, j + 1, events)
    {
      var t := if i == 0 then First(q, f, bd, events) else Next(q, f, i, tables[i - 1], events);
      tables := tables + [t];
    }
  }

  // ---------------------------------------------------------------- chains

  /** The event carries this actor in the column the funnel counts by. */
  predicate ActsAs(f: Funnel, e: Event, actor: string) {
    match f.actor
    case User => e.row.userID == actor
    case Anon => e.row.anonID == actor
    case Tenant => e.row.tenantID == actor
    case Country => e.row.country == actor
    case Request => e.row.requestID == actor
    case Ns => e.ns == actor
  }

  lemma ActorIff(f: Funnel, e: Event, actor: string)
    ensures Actor(f, e) == actor <==> ActsAs(f, e, actor)
  {
  }

  /** No more than the whole seconds of the window lie between the two times. */
  ghost predicate Within(f: Funnel, t1: int, t: int) {
    exists seconds :: WholeSeconds(seconds, f.window) && t - t1 <= seconds * 1_000_000_000
  }

  predicate WholeSeconds(seconds: int, window: int) {
    seconds * 1_000_000_000 <= window < (seconds + 1) * 1_000_000_000
  }

  lemma WithinIff(f: Funnel, t1: int, t: int)
    ensures t <= t1 + Window(f) <==> Within(f, t1, t)
  {
    var seconds := f.window / SECOND;
    assert WholeSeconds(seconds, f.window) && Window(f) == seconds * 1_000_000_000;
    assert forall s :: WholeSeconds(s, f.window) ==> s == seconds;
  }

  /** The actor's earliest match of the first step. */
  ghost predicate FirstAt(q: Session, f: Funnel, actor: string, t: int, events: seq<Event>)
    requires |f.steps| > 0
  {
    && actor != ""
    && (exists e :: e in events && ActsAs(f, e, actor) && Hit(q, f, 0, e) && e.row.ts == t)
    && (forall e :: e in events && ActsAs(f, e, actor) && Hit(q, f, 0, e) ==> e.row.ts >= t)
  }

  /** The actor did the first n steps in order: one event each, in time order, within the window. */
  ghost predicate Chain(q: Session, f: Funnel, actor: string, n: nat, chain: seq<Event>, t1: int, events: seq<Event>)
    requires 0 < n <= |f.steps|
  {
    && |chain| == n && FirstAt(q, f, actor, t1, events) && chain[0].row.ts == t1
    && (forall i :: 0 <= i < n ==> chain[i] in events && ActsAs(f, chain[i], actor) && Hit(q, f, i, chain[i]))
    && (forall i :: 0 < i < n ==> chain[i - 1].row.ts <= chain[i].row.ts && Within(f, t1, chain[i].row.ts))
  }

  lemma {:induction false} CandidatesMean(q: Session, f: Funnel, n: nat, actor: string, from: Option<int>, until: Option<int>, events: seq<Event>)
    requires n < |f.steps|
    ensures forall e :: e in Candidates(q, f, n, actor, from, until, events) <==>
      e in events && Actor(f, e) == actor && Hit(q, f, n, e) && (from.Some? ==> e.row.ts >= from.value) && (until.Some? ==> e.row.ts <= until.value)
  {
    hide Hit, Actor;
    if events != [] {
      CandidatesMean(q, f, n, actor, from, until, events[1..]);
      assert events == [events[0]] + events[1..];
    }
  }

  lemma {:induction false} MinTsMeans(events: seq<Event>)
    requires events != []
    ensures exists e :: e in events && e.row.ts == MinTs(events)
    ensures forall e :: e in events ==> e.row.ts >= MinTs(events)
  {
    if |events| > 1 {
      MinTsMeans(events[1..]);
      assert events == [events[0]] + events[1..];
      var e :| e in events[1..] && e.row.ts == MinTs(events[1..]);
      assert events[0] in events && e in events;
    } else {
      assert events[0] in events;
      assert events == [events[0]];
    }
  }

  /** Some chain of the first n steps from t1 ends at time t. */
  ghost predicate Ends(q: Session, f: Funnel, actor: string, n: nat, t1: int, t: int, events: seq<Event>)
    requires 0 < n <= |f.steps|
  {
    exists chain: seq<Event> :: |chain| == n && Chain(q, f, actor, n, chain, t1, events) && chain[n - 1].row.ts == t
  }

  /** An event that may take the actor of a row to the next step. */
  predicate Follows(q: Session, f: Funnel, n: nat, p: Line, actor: string, e: Event, events: seq<Event>)
    requires n < |f.steps|
  {
    e in events && Actor(f, e) == actor && Hit(q, f, n, e) && p.t <= e.row.ts <= p.t1 + Window(f)
  }

  lemma NextMeans(q: Session, f: Funnel, n: nat, previous: Table, actor: string, events: seq<Event>)
    requires n < |f.steps|
    ensures actor in Next(q, f, n, previous, events) <==>
      actor in previous && exists e :: Follows(q, f, n, previous[actor], actor, e, events)
    ensures actor in Next(q, f, n, previous, events) ==>
      var p, l := previous[actor], Next(q, f, n, previous, events)[actor];
      l.t1 == p.t1 && l.bd == p.bd && l.prev == Some(p.t)
      && (exists e :: Follows(q, f, n, p, actor, e, events) && e.row.ts == l.t)
      && (forall e :: Follows(q, f, n, p, actor, e, events) ==> l.t <= e.row.ts)
  {
    hide Hit, Actor, Window;
    if actor in previous {
      var p := previous[actor];
      var next := NextCandidates(q, f, n, p, actor, events);
      CandidatesMean(q, f, n, actor, Some(p.t), Some(p.t1 + Window(f)), events);
      assert forall e :: e in next <==> Follows(q, f, n, p, actor, e, events);
      if next != [] {
        MinTsMeans(next);
        assert next[0] in next;
      }
    }
  }

  lemma FirstMeans(q: Session, f: Funnel, bd: string -> Option<string>, actor: string, events: seq<Event>)
    requires |f.steps| > 0
    ensures actor in First(q, f, bd, events) ==>
      FirstAt(q, f, actor, First(q, f, bd, events)[actor].t1, events) && var l := First(q, f, bd, events)[actor]; Ends(q, f, actor, 1, l.t1, l.t, events)
    ensures forall t :: FirstAt(q, f, actor, t, events) ==> actor in First(q, f, bd, events) && First(q, f, bd, events)[actor].t1 == t
  {
    hide Hit, Actor, ActsAs;
    forall e ensures Actor(f, e) == actor <==> ActsAs(f, e, actor) { ActorIff(f, e, actor); }
    var all := Candidates(q, f, 0, actor, None, None, events);
    CandidatesMean(q, f, 0, actor, None, None, events);
    if all != [] {
      MinTsMeans(all);
      var e :| e in all && e.row.ts == MinTs(all);
      if actor != "" {
        assert FirstAt(q, f, actor, MinTs(all), events);
        assert Chain(q, f, actor, 1, [e], MinTs(all), events);
      }
    }
  }

  /** Appending the next event to a chain. */
  lemma ChainGrows(q: Session, f: Funnel, actor: string, n: nat, chain: seq<Event>, t1: int, e: Event, events: seq<Event>)
    requires 0 < n < |f.steps| && Chain(q, f, actor, n, chain, t1, events)
    requires e in events && Actor(f, e) == actor && Hit(q, f, n, e) && chain[n - 1].row.ts <= e.row.ts <= t1 + Window(f)
    ensures Chain(q, f, actor, n + 1, chain + [e], t1, events)
  {
    hide Hit, Actor, ActsAs, Window, Within, FirstAt;
    ActorIff(f, e, actor);
    WithinIff(f, t1, e.row.ts);
  }

  lemma ChainShrinks(q: Session, f: Funnel, actor: string, n: nat, chain: seq<Event>, t1: int, events: seq<Event>)
    requires 0 < n < |f.steps| && Chain(q, f, actor, n + 1, chain, t1, events)
    ensures Chain(q, f, actor, n, chain[..n], t1, events)
    ensures chain[n] in events && Actor(f, chain[n]) == actor && Hit(q, f, n, chain[n])
    ensures chain[n - 1].row.ts <= chain[n].row.ts <= t1 + Window(f)
  {
    hide Hit, Actor, ActsAs, Window, Within, FirstAt;
    ActorIff(f, chain[n], actor);
    WithinIff(f, t1, chain[n].row.ts);
  }

  /** Soundness: every row of a step's table ends a chain. */
  lemma {:induction false} RowsEndChains(q: Session, f: Funnel, bd: string -> Option<string>, n: nat, actor: string, events: seq<Event>)
    requires 0 < n <= |f.steps| && actor in StepTable(q, f, bd, n, events)
    ensures var l := StepTable(q, f, bd, n, events)[actor]; Ends(q, f, actor, n, l.t1, l.t, events)
  {
    hide Hit, Actor, First, Next, Chain, Ends, Follows, Window;
    if n == 1 {
      FirstMeans(q, f, bd, actor, events);
    } else {
      var previous := StepTable(q, f, bd, n - 1, events);
      NextMeans(q, f, n - 1, previous, actor, events);
      RowsEndChains(q, f, bd, n - 1, actor, events);
      var l := StepTable(q, f, bd, n, events)[actor];
      var e :| Follows(q, f, n - 1, previous[actor], actor, e, events) && e.row.ts == l.t;
      EndsGrow(q, f, actor, n - 1, previous[actor], e, events);
    }
  }

  lemma EndsGrow(q: Session, f: Funnel, actor: string, n: nat, p: Line, e: Event, events: seq<Event>)
    requires 0 < n < |f.steps| && Ends(q, f, actor, n, p.t1, p.t, events) && Follows(q, f, n, p, actor, e, events)
    ensures Ends(q, f, actor, n + 1, p.t1, e.row.ts, events)
  {
    hide Hit, Actor, Chain, Window;
    var chain: seq<Event> :| |chain| == n && Chain(q, f, actor, n, chain, p.t1, events) && chain[n - 1].row.ts == p.t;
    ChainGrows(q, f, actor, n, chain, p.t1, e, events);
    assert (chain + [e])[n] == e;
  }

  /** Completeness and greed: every chain puts its actor in the table, no later than the chain ends. */
  lemma {:induction false} ChainsAreRows(q: Session, f: Funnel, bd: string -> Option<string>, n: nat, actor: string, chain: seq<Event>, t1: int, events: seq<Event>)
    requires 0 < n <= |f.steps| && |chain| == n && Chain(q, f, actor, n, chain, t1, events)
    ensures actor in StepTable(q, f, bd, n, events)
    ensures StepTable(q, f, bd, n, events)[actor].t1 == t1 && StepTable(q, f, bd, n, events)[actor].t <= chain[n - 1].row.ts
  {
    hide Hit, Actor, First, Next, FirstAt, Chain, Window;
    if n == 1 {
      ChainStarts(q, f, actor, chain, t1, events);
      FirstMeans(q, f, bd, actor, events);
      FirstRow(q, f, bd, actor, events);
    } else {
      ChainShrinks(q, f, actor, n - 1, chain, t1, events);
      ChainsAreRows(q, f, bd, n - 1, actor, chain[..n - 1], t1, events);
      var previous := StepTable(q, f, bd, n - 1, events);
      assert Follows(q, f, n - 1, previous[actor], actor, chain[n - 1], events);
      NextMeans(q, f, n - 1, previous, actor, events);
    }
  }

  lemma ChainStarts(q: Session, f: Funnel, actor: string, chain: seq<Event>, t1: int, events: seq<Event>)
    requires 0 < |f.steps| && |chain| == 1 && Chain(q, f, actor, 1, chain, t1, events)
    ensures FirstAt(q, f, actor, t1, events) && chain[0].row.ts == t1
  {
  }

  lemma FirstRow(q: Session, f: Funnel, bd: string -> Option<string>, actor: string, events: seq<Event>)
    requires |f.steps| > 0 && actor in First(q, f, bd, events)
    ensures First(q, f, bd, events)[actor].t == First(q, f, bd, events)[actor].t1
  {
  }

  /** A row keeps its actor's breakdown and the time of the step before, from which the seconds count. */
  lemma {:induction false} RowKeeps(q: Session, f: Funnel, bd: string -> Option<string>, n: nat, actor: string, events: seq<Event>)
    requires 0 < n <= |f.steps| && actor in StepTable(q, f, bd, n, events)
    ensures
      var l := StepTable(q, f, bd, n, events)[actor];
      && l.bd == bd(actor)
      && (n == 1 ==> l.prev == None)
      && (n > 1 ==> actor in StepTable(q, f, bd, n - 1, events) && l.prev == Some(StepTable(q, f, bd, n - 1, events)[actor].t))
  {
    hide Next, Candidates, MinTs;
    if n > 1 {
      NextMeans(q, f, n - 1, StepTable(q, f, bd, n - 1, events), actor, events);
      RowKeeps(q, f, bd, n - 1, actor, events);
    }
  }

  /**
   Funnel correctness: an actor is in step n if and only if a chain of its own events starts at its
   earliest match of the first step and does each step in order within the window; the time the
   query keeps is the earliest possible end of such a chain.
   */
  lemma FunnelCorrect(q: Session, f: Funnel, bd: string -> Option<string>, n: nat, actor: string, events: seq<Event>)
    requires 0 < n <= |f.steps|
    ensures actor in StepTable(q, f, bd, n, events) <==> exists t1, t :: Ends(q, f, actor, n, t1, t, events)
    ensures actor in StepTable(q, f, bd, n, events) ==>
      var l := StepTable(q, f, bd, n, events)[actor];
      Ends(q, f, actor, n, l.t1, l.t, events) && forall t1, t :: Ends(q, f, actor, n, t1, t, events) ==> t1 == l.t1 && l.t <= t
  {
    hide StepTable, Chain;
    if actor in StepTable(q, f, bd, n, events) {
      RowsEndChains(q, f, bd, n, actor, events);
    }
    forall t1, t | Ends(q, f, actor, n, t1, t, events)
      ensures actor in StepTable(q, f, bd, n, events)
      ensures StepTable(q, f, bd, n, events)[actor].t1 == t1 && StepTable(q, f, bd, n, events)[actor].t <= t
    {
      var chain: seq<Event> :| |chain| == n && Chain(q, f, actor, n, chain, t1, events) && chain[n - 1].row.ts == t;
      ChainsAreRows(q, f, bd, n, actor, chain, t1, events);
    }
  }

  /** With exact time bounds and plain data values a step's hit is the predicate the console uses. */
  lemma HitIsMatch(q: Session, f: Funnel, n: nat, e: Event)
    requires n < |f.steps| && Agreement.LowersAlike(q.h) && Agreement.WritesJson(q.h) && -DAY < q.zone < DAY
    requires F.FilterOk(f.steps[n]) && Agreement.ExactTimes(f.steps[n]) && F.FilterOk(f.extra) && Agreement.ExactTimes(f.extra)
    requires e.ns != "" && e.row.ts % MILLISECOND == 0
    requires Agreement.PlainValues(q.h, f.steps[n]) && Agreement.FiniteNumbers(f.steps[n]) && Agreement.RowAlike(q.h, f.steps[n], e.row)
    requires Agreement.PlainValues(q.h, f.extra) && Agreement.FiniteNumbers(f.extra) && Agreement.RowAlike(q.h, f.extra, e.row)
    ensures Hit(q, f, n, e) <==>
      F.Match(q.h, f.steps[n], e.row, e.ns, q.now) && (n == 0 ==> F.Match(q.h, f.extra, e.row, e.ns, q.now))
  {
    hide F.Match, F.Where, F.FilterOk, Agreement.ExactTimes, Agreement.PlainValues, Agreement.WritesJson, Agreement.FiniteNumbers, Agreement.RowAlike, Agreement.LowersAlike;
    Agreement.WhereAgrees(q.h, f.steps[n], EnvOf(q, e));
    Agreement.WhereAgrees(q.h, f.extra, EnvOf(q, e));
  }

  // ---------------------------------------------------------------- the report

  /** The actors of a step under one breakdown value. */
  function Reached(t: Table, value: Option<string>): set<string> {
    set a | a in t && t[a].bd == value
  }

  /**
   Per breakdown value the actor sets shrink from step to step, so each share of the first and of
   the previous step is at most 100, and a step that has actors had some at every step before.
   */
  lemma {:induction false} SharesAtMostAll(q: Session, f: Funnel, bd: string -> Option<string>, m: nat, n: nat, value: Option<string>, events: seq<Event>)
    requires 0 < m <= n <= |f.steps|
    ensures
      var earlier, later := Reached(StepTable(q, f, bd, m, events), value), Reached(StepTable(q, f, bd, n, events), value);
      later <= earlier && 100 * |later| <= 100 * |earlier|
    decreases n
  {
    hide First, Next;
    if m < n {
      SharesAtMostAll(q, f, bd, m, n - 1, value, events);
      NextShrinks(q, f, n - 1, StepTable(q, f, bd, n - 1, events), value, events);
      Bags.SubsetSize(Reached(StepTable(q, f, bd, n, events), value), Reached(StepTable(q, f, bd, m, events), value));
    }
  }

  lemma NextShrinks(q: Session, f: Funnel, n: nat, previous: Table, value: Option<string>, events: seq<Event>)
    requires n < |f.steps|
    ensures Reached(Next(q, f, n, previous, events), value) <= Reached(previous, value)
  {
    hide NextCandidates, MinTs;
  }

  /** The actors reported under a breakdown value are those of the step with that value. */
  lemma ReachedIff(q: Session, f: Funnel, bd: string -> Option<string>, n: nat, value: Option<string>, actor: string, events: seq<Event>)
    requires 0 < n <= |f.steps|
    ensures actor in Reached(StepTable(q, f, bd, n, events), value) <==>
      bd(actor) == value && exists t1, t :: Ends(q, f, actor, n, t1, t, events)
  {
    hide StepTable, Ends;
    FunnelCorrect(q, f, bd, n, actor, events);
    if actor in StepTable(q, f, bd, n, events) { RowKeeps(q, f, bd, n, actor, events); }
  }
}
