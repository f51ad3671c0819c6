/**
 Ingesting sealed process logs: the rows of all segments are committed, the newest segment is
 replaced by the lines of a row that is still open, and only then are the others removed. A crash
 may fall between any two of these steps, and the process keeps sealing new segments.
 */
module SealedLogs {
  import opened Prelude
  import opened Grouper
  import Bags

  type Segments = map<nat, seq<string>>

  function KeptBag(s: Syntax, lines: seq<string>): multiset<string> {
    multiset(Kept(s, lines))
  }

  /** What an ingest has decided once it has parsed the segments it was given. */
  datatype Plan = Plan(order: seq<nat>, entries: seq<Entry>, tail: seq<string>, hold: bool)

  datatype Pc =
    | Idle
    | Parsed(plan: Plan)
    | Committed(plan: Plan)
    | Removing(plan: Plan, k: nat)

  /**
   The last three fields are history: every line ever sealed, every segment name ever used, and
   whether no ingest was ever stopped between its commit and its last removal.
   */
  datatype World = World(
    segments: Segments, committed: seq<Entry>, pc: Pc, sealed: multiset<string>, used: set<nat>, clean: bool)

  datatype Action =
    | Seal(id: nat, lines: seq<string>)
    | Ingest(order: seq<nat>, recent: bool)
    | Commit
    | Carry
    | Remove
    | Stop

  const NOTHING: World := World(map[], [], Idle, multiset{}, {}, true)

  function LinesOf(segments: Segments, order: seq<nat>): seq<string> {
    if order == [] then []
    else
      LinesOf(segments, order[..|order| - 1]) +
        (if order[|order| - 1] in segments then segments[order[|order| - 1]] else [])
  }

  /** A row that is still open is held back when the newest segment was written to moments ago. */
  function MakePlan(s: Syntax, segments: Segments, order: seq<nat>, recent: bool): Plan {
    var g := Run(s, EMPTY, LinesOf(segments, order));
    if Open(g) && recent then Plan(order, g.entries, g.raw, true) else Plan(order, Flush(g).entries, [], false)
  }

  /** The paths to remove: with a held row the newest segment stays. */
  function Doomed(plan: Plan): seq<nat> {
    if plan.hold && plan.order != [] then plan.order[..|plan.order| - 1] else plan.order
  }

  ghost predicate Listed(order: seq<nat>, segments: Segments) {
    order != [] && Distinct(order) && forall id :: id in order ==> id in segments
  }

  /** The scanner's buffer: a line must fit in with its newline. */
  const MAX_LINE: nat := 4 * 1024 * 1024

  ghost predicate Readable(lines: seq<string>) {
    forall l :: l in lines ==> |l| < MAX_LINE
  }

  /** Parsing the segments succeeds: one line too long in one of them fails the whole ingest. */
  ghost predicate AllReadable(order: seq<nat>, segments: Segments) {
    forall id :: id in order && id in segments ==> Readable(segments[id])
  }

  ghost function Apply(s: Syntax, w: World, a: Action): World {
    match a
    case Seal(id, lines) =>
      if id in w.used then w
      else w.(segments := w.segments[id := lines], sealed := w.sealed + KeptBag(s, lines), used := w.used + {id})
    case Ingest(order, recent) =>
      if w.pc.Idle? && Listed(order, w.segments) && AllReadable(order, w.segments) then w.(pc := Parsed(MakePlan(s, w.segments, order, recent))) else w
    case Commit => if w.pc.Parsed? then w.(committed := w.committed + w.pc.plan.entries, pc := Committed(w.pc.plan)) else w
    case Carry =>
      if !w.pc.Committed? then w
      else
        var plan := w.pc.plan;
        var newest := if plan.order == [] then 0 else plan.order[|plan.order| - 1];
        w.(segments := if plan.hold then w.segments[newest := plan.tail] else w.segments, pc := Removing(plan, 0))
    case Remove =>
      if !w.pc.Removing? then w
      else if w.pc.k < |Doomed(w.pc.plan)| then
        w.(segments := w.segments - {Doomed(w.pc.plan)[w.pc.k]}, pc := Removing(w.pc.plan, w.pc.k + 1))
      else w.(pc := Idle)
    case Stop => w.(pc := Idle, clean := w.clean && (w.pc.Idle? || w.pc.Parsed?))
  }

  ghost function Exec(s: Syntax, run: seq<Action>): World {
    if run == [] then NOTHING else Apply(s, Exec(s, run[..|run| - 1]), run[|run| - 1])
  }

  // ---------------------------------------------------------------- counting lines

  function Bagged(s: Syntax, segments: Segments): map<nat, multiset<string>> {
    map id | id in segments :: KeptBag(s, segments[id])
  }

  /** The nonblank lines still in segment files. */
  ghost function OnDisk(s: Syntax, segments: Segments): multiset<string> {
    Bags.Sum(Bagged(s, segments))
  }

  /** The nonblank lines in committed rows. */
  function InRows(s: Syntax, entries: seq<Entry>): multiset<string> {
    KeptBag(s, RawLines(entries))
  }

  lemma OnDiskPut(s: Syntax, segments: Segments, id: nat, lines: seq<string>)
    requires id !in segments
    ensures OnDisk(s, segments[id := lines]) == KeptBag(s, lines) + OnDisk(s, segments)
  {
    hide KeptBag;
    Bags.SumPut(Bagged(s, segments), id, KeptBag(s, lines));
    assert Bagged(s, segments[id := lines]) == Bagged(s, segments)[id := KeptBag(s, lines)];
  }

  lemma OnDiskTake(s: Syntax, segments: Segments, id: nat)
    requires id in segments
    ensures OnDisk(s, segments) == KeptBag(s, segments[id]) + OnDisk(s, segments - {id})
  {
    hide KeptBag;
    Bags.SumTake(Bagged(s, segments), id);
    assert Bagged(s, segments - {id}) == Bagged(s, segments) - {id};
  }

  function Names(order: seq<nat>): set<nat> {
    set id | id in order
  }

  lemma MinusOne(segments: Segments, before: seq<nat>, id: nat)
    requires id in segments && id !in before
    ensures id in segments - Names(before) && (segments - Names(before))[id] == segments[id]
    ensures segments - Names(before) - {id} == segments - Names(before + [id])
  {
    assert Names(before + [id]) == Names(before) + {id};
  }

  lemma LinesStep(segments: Segments, before: seq<nat>, id: nat)
    requires id in segments
    ensures LinesOf(segments, before + [id]) == LinesOf(segments, before) + segments[id]
  {
    assert (before + [id])[..|before|] == before;
  }

  /** The lines read from the listed segments are exactly what those segments hold. */
  lemma {:induction false} ReadHolds(s: Syntax, segments: Segments, order: seq<nat>)
    requires Distinct(order) && forall id :: id in order ==> id in segments
    ensures OnDisk(s, segments) == KeptBag(s, LinesOf(segments, order)) + OnDisk(s, segments - Names(order))
  {
    hide KeptBag, OnDisk, LinesOf, Names;
    if order == [] {
      NoNames(segments);
      EmptyBag(s);
    } else {
      var before, id := order[..|order| - 1], order[|order| - 1];
      assert order == before + [id];
      ReadHolds(s, segments, before);
      MinusOne(segments, before, id);
      OnDiskTake(s, segments - Names(before), id);
      LinesStep(segments, before, id);
      BagAppend(s, LinesOf(segments, before), segments[id]);
      var read, rest := KeptBag(s, LinesOf(segments, before)), OnDisk(s, segments - Names(order));
      assert OnDisk(s, segments) == read + (KeptBag(s, segments[id]) + rest);
    }
  }

  lemma NoNames(segments: Segments)
    ensures segments - Names([]) == segments && LinesOf(segments, []) == []
  {
  }

  lemma EmptyBag(s: Syntax)
    ensures KeptBag(s, []) == multiset{}
  {
  }

  lemma BagAppend(s: Syntax, a: seq<string>, b: seq<string>)
    ensures KeptBag(s, a + b) == KeptBag(s, a) + KeptBag(s, b)
  {
    hide Kept;
    KeptAppend(s, a, b);
  }

  /** The plan's rows and tail hold exactly the lines it read. */
  lemma PlanHolds(s: Syntax, segments: Segments, order: seq<nat>, recent: bool)
    requires Lawful(s)
    ensures
      var plan := MakePlan(s, segments, order, recent);
      KeptBag(s, LinesOf(segments, order)) == InRows(s, plan.entries) + KeptBag(s, plan.tail)
  {
    hide Kept, Lawful, Run, Flush;
    var lines := LinesOf(segments, order);
    var g := Run(s, EMPTY, lines);
    LinesConserved(s, lines);
    FlushHeld(s, g);
    if !(Open(g) && recent) {
      KeptNone(s);
      FlushClosed(g);
      assert Held(s, Flush(g)) == Kept(s, RawLines(Flush(g).entries)) + [];
    }
  }

  lemma FlushClosed(g: State)
    ensures Flush(g).raw == []
  {
  }

  lemma RowsAppend(s: Syntax, a: seq<Entry>, b: seq<Entry>)
    ensures InRows(s, a + b) == InRows(s, a) + InRows(s, b)
  {
    hide Kept;
    RawAppend(a, b);
    BagAppend(s, RawLines(a), RawLines(b));
  }

  lemma {:induction false} RawAppend(a: seq<Entry>, b: seq<Entry>)
    ensures RawLines(a + b) == RawLines(a) + RawLines(b)
  {
    if b == [] {
      assert a + b == a;
    } else {
      assert (a + b)[..|a + b| - 1] == a + b[..|b| - 1];
      RawAppend(a, b[..|b| - 1]);
    }
  }

  // ---------------------------------------------------------------- every crash point

  /** The segments outside the plan, which an ingest in progress never touches. */
  ghost function Others(w: World, plan: Plan): Segments {
    w.segments - Names(plan.order)
  }

  function Newest(plan: Plan): nat
    requires plan.order != []
  {
    plan.order[|plan.order| - 1]
  }

  ghost predicate PlanOk(s: Syntax, w: World, plan: Plan) {
    && plan.order != [] && Distinct(plan.order) && Names(plan.order) <= w.used
    && (!plan.hold ==> KeptBag(s, plan.tail) == multiset{})
  }

  /** Nothing sealed is missing; and nothing is there twice unless an ingest was cut short. */
  ghost predicate Balanced(w: World, have: multiset<string>) {
    w.sealed <= have && (w.clean ==> w.sealed == have)
  }

  /** While removing: the newest segment holds a held tail, and the first `k` doomed ones are gone. */
  ghost predicate RemovalOk(w: World, plan: Plan, k: nat)
    requires plan.order != []
  {
    && k <= |Doomed(plan)|
    && (plan.hold ==> Newest(plan) in w.segments && w.segments[Newest(plan)] == plan.tail)
    && forall i :: 0 <= i < k ==> Doomed(plan)[i] !in w.segments
  }

  ghost function Safe(s: Syntax, w: World, plan: Plan): multiset<string> {
    InRows(s, w.committed) + KeptBag(s, plan.tail) + OnDisk(s, Others(w, plan))
  }

  ghost predicate Inv(s: Syntax, w: World) {
    && w.segments.Keys <= w.used
    && w.sealed <= InRows(s, w.committed) + OnDisk(s, w.segments)
    && match w.pc
       case Idle => Balanced(w, InRows(s, w.committed) + OnDisk(s, w.segments))
       case Parsed(plan) =>
         && Balanced(w, InRows(s, w.committed) + OnDisk(s, w.segments))
         && PlanOk(s, w, plan) && (forall id :: id in plan.order ==> id in w.segments)
         && KeptBag(s, LinesOf(w.segments, plan.order)) == InRows(s, plan.entries) + KeptBag(s, plan.tail)
       case Committed(plan) =>
         && PlanOk(s, w, plan) && (forall id :: id in plan.order ==> id in w.segments) && Balanced(w, Safe(s, w, plan))
       case Removing(plan, k) => PlanOk(s, w, plan) && RemovalOk(w, plan, k) && Balanced(w, Safe(s, w, plan))
  }

  lemma {:induction false} LinesFrame(segments: Segments, id: nat, lines: seq<string>, order: seq<nat>)
    requires id !in order
    ensures LinesOf(segments[id := lines], order) == LinesOf(segments, order)
  {
    if order == [] {
    } else {
      LinesFrame(segments, id, lines, order[..|order| - 1]);
    }
  }

  /** One more bag on both sides. */
  lemma BagsGrow(have: multiset<string>, tail: multiset<string>, rest: multiset<string>, more: multiset<string>)
    ensures (have + rest) + more == have + (more + rest)
    ensures (have + tail + rest) + more == have + tail + (more + rest)
  {
  }

  lemma SealPlan(s: Syntax, w: World, id: nat, lines: seq<string>, plan: Plan)
    requires id !in w.used && w.segments.Keys <= w.used && PlanOk(s, w, plan)
    ensures
      var w' := Apply(s, w, Seal(id, lines));
      && PlanOk(s, w', plan) && id !in plan.order
      && LinesOf(w'.segments, plan.order) == LinesOf(w.segments, plan.order)
      && Safe(s, w', plan) == Safe(s, w, plan) + KeptBag(s, lines)
  {
    hide KeptBag, OnDisk, InRows, Distinct;
    assert id !in Names(plan.order);
    LinesFrame(w.segments, id, lines, plan.order);
    OnDiskPut(s, Others(w, plan), id, lines);
    assert Others(w, plan)[id := lines] == w.segments[id := lines] - Names(plan.order);
    BagsGrow(InRows(s, w.committed), KeptBag(s, plan.tail), OnDisk(s, Others(w, plan)), KeptBag(s, lines));
  }

  lemma SealKeeps(s: Syntax, w: World, id: nat, lines: seq<string>)
    requires Inv(s, w) && id !in w.used
    ensures Inv(s, Apply(s, w, Seal(id, lines)))
  {
    hide KeptBag, OnDisk, InRows, LinesOf, PlanOk, Safe;
    OnDiskPut(s, w.segments, id, lines);
    BagsGrow(InRows(s, w.committed), multiset{}, OnDisk(s, w.segments), KeptBag(s, lines));
    if !w.pc.Idle? {
      SealPlan(s, w, id, lines, w.pc.plan);
      assert w.pc.plan.order != [] by { PlanOrder(s, w, w.pc.plan); }
    }
  }

  lemma PlanOrder(s: Syntax, w: World, plan: Plan)
    requires PlanOk(s, w, plan)
    ensures plan.order != []
  {
  }

  lemma IngestKeeps(s: Syntax, w: World, order: seq<nat>, recent: bool)
    requires Lawful(s) && Inv(s, w) && w.pc.Idle? && Listed(order, w.segments) && AllReadable(order, w.segments)
    ensures Inv(s, Apply(s, w, Ingest(order, recent)))
  {
    hide KeptBag, OnDisk, InRows, Lawful;
    PlanHolds(s, w.segments, order, recent);
    EmptyBag(s);
  }

  lemma CommitKeeps(s: Syntax, w: World)
    requires Inv(s, w) && w.pc.Parsed?
    ensures Inv(s, Apply(s, w, Commit))
  {
    hide KeptBag, OnDisk, InRows;
    var plan := w.pc.plan;
    RowsAppend(s, w.committed, plan.entries);
    ReadHolds(s, w.segments, plan.order);
    var rows, tail, rest := InRows(s, plan.entries), KeptBag(s, plan.tail), OnDisk(s, Others(w, plan));
    assert OnDisk(s, w.segments) == (rows + tail) + rest;
  }

  /** The safe lines are on disk or committed while the newest segment holds the tail. */
  lemma SafeOnDisk(s: Syntax, w: World, plan: Plan)
    requires PlanOk(s, w, plan) && (plan.hold ==> Newest(plan) in w.segments && w.segments[Newest(plan)] == plan.tail)
    ensures Safe(s, w, plan) <= InRows(s, w.committed) + OnDisk(s, w.segments)
  {
    hide KeptBag, InRows;
    var here := Bags.Restrict(w.segments, Names(plan.order));
    SplitDisk(s, w.segments, Names(plan.order));
    if plan.hold {
      assert Newest(plan) in plan.order && Newest(plan) in here;
      OnDiskTake(s, here, Newest(plan));
    }
  }

  lemma SplitDisk(s: Syntax, segments: Segments, ids: set<nat>)
    ensures OnDisk(s, segments) == OnDisk(s, segments - ids) + OnDisk(s, Bags.Restrict(segments, ids))
  {
    hide KeptBag;
    Bags.SumSplit(Bagged(s, segments), ids);
    assert Bagged(s, segments - ids) == Bagged(s, segments) - ids;
    assert Bagged(s, Bags.Restrict(segments, ids)) == Bags.Restrict(Bagged(s, segments), ids);
  }

  lemma CarryKeeps(s: Syntax, w: World)
    requires Inv(s, w) && w.pc.Committed?
    ensures Inv(s, Apply(s, w, Carry))
  {
    hide KeptBag, OnDisk, InRows;
    var plan, w' := w.pc.plan, Apply(s, w, Carry);
    assert Newest(plan) in plan.order;
    assert Others(w', plan) == Others(w, plan);
    SafeOnDisk(s, w', plan);
  }

  lemma RemoveKeeps(s: Syntax, w: World)
    requires Inv(s, w) && w.pc.Removing? && w.pc.k < |Doomed(w.pc.plan)|
    ensures Inv(s, Apply(s, w, Remove))
  {
    hide KeptBag, OnDisk, InRows;
    var plan, k, w' := w.pc.plan, w.pc.k, Apply(s, w, Remove);
    assert Doomed(plan)[k] in plan.order;
    assert plan.hold ==> Doomed(plan)[k] != Newest(plan);
    assert Others(w', plan) == Others(w, plan);
    SafeOnDisk(s, w', plan);
  }

  lemma DoomedGone(w: World, plan: Plan)
    requires plan.order != [] && RemovalOk(w, plan, |Doomed(plan)|)
    ensures |Doomed(plan)| <= |plan.order| && forall i :: 0 <= i < |Doomed(plan)| ==> plan.order[i] !in w.segments
  {
    assert forall i :: 0 <= i < |Doomed(plan)| ==> Doomed(plan)[i] == plan.order[i];
  }

  /** When the removal is done, the disk holds the other segments and the held tail, no more. */
  lemma RemovalDone(s: Syntax, w: World, plan: Plan)
    requires PlanOk(s, w, plan) && RemovalOk(w, plan, |Doomed(plan)|)
    ensures Safe(s, w, plan) == InRows(s, w.committed) + OnDisk(s, w.segments)
  {
    hide KeptBag, InRows, OnDisk;
    DoomedGone(w, plan);
    forall id | id in w.segments && id in plan.order
      ensures plan.hold && id == Newest(plan)
    {
      var i :| 0 <= i < |plan.order| && plan.order[i] == id;
    }
    if plan.hold {
      assert Newest(plan) in plan.order;
      OnDiskTake(s, w.segments, Newest(plan));
      assert w.segments - {Newest(plan)} == Others(w, plan);
    } else {
      assert w.segments == Others(w, plan);
    }
  }

  lemma FinishKeeps(s: Syntax, w: World)
    requires Inv(s, w) && w.pc.Removing? && w.pc.k >= |Doomed(w.pc.plan)|
    ensures Inv(s, Apply(s, w, Remove))
  {
    hide KeptBag, OnDisk, InRows, Safe;
    RemovalDone(s, w, w.pc.plan);
  }

  lemma StepKeeps(s: Syntax, w: World, a: Action)
    requires Lawful(s) && Inv(s, w)
    ensures Inv(s, Apply(s, w, a))
  {
    match a
    case Seal(id, lines) => if id !in w.used { SealKeeps(s, w, id, lines); }
    case Ingest(order, recent) => if w.pc.Idle? && Listed(order, w.segments) && AllReadable(order, w.segments) { IngestKeeps(s, w, order, recent); }
    case Commit => if w.pc.Parsed? { CommitKeeps(s, w); }
    case Carry => if w.pc.Committed? { CarryKeeps(s, w); }
    case Remove => if w.pc.Removing? { if w.pc.k < |Doomed(w.pc.plan)| { RemoveKeeps(s, w); } else { FinishKeeps(s, w); } }
    case Stop => StopKeeps(s, w);
  }

  lemma StopKeeps(s: Syntax, w: World)
    requires Inv(s, w)
    ensures Inv(s, Apply(s, w, Stop))
  {
    hide KeptBag, OnDisk, InRows, Safe;
  }

  lemma {:induction false} ExecKeeps(s: Syntax, run: seq<Action>)
    requires Lawful(s)
    ensures Inv(s, Exec(s, run))
  {
    hide Lawful, Apply;
    if run == [] {
      NothingOk(s);
    } else {
      ExecKeeps(s, run[..|run| - 1]);
      StepKeeps(s, Exec(s, run[..|run| - 1]), run[|run| - 1]);
    }
  }

  lemma NothingOk(s: Syntax)
    ensures Inv(s, NOTHING)
  {
  }

  /**
   No line is lost: at every point of every run, also after a stop between any two steps, every
   nonblank line ever sealed is in a committed row or still in a segment file.
   */
  lemma NoLineLost(s: Syntax, run: seq<Action>)
    requires Lawful(s)
    ensures
      var w := Exec(s, run);
      w.sealed <= InRows(s, w.committed) + OnDisk(s, w.segments)
  {
    ExecKeeps(s, run);
  }

  /** And none is there twice, as long as no ingest was stopped after its commit. */
  lemma NoLineTwice(s: Syntax, run: seq<Action>)
    requires Lawful(s) && Exec(s, run).clean && Exec(s, run).pc.Idle?
    ensures
      var w := Exec(s, run);
      w.sealed == InRows(s, w.committed) + OnDisk(s, w.segments)
  {
    ExecKeeps(s, run);
  }

  /** Every stop came before a commit or after its last removal. */
  ghost predicate EarlyStops(s: Syntax, run: seq<Action>) {
    forall i :: 0 <= i < |run| && run[i].Stop? ==> Exec(s, run[..i]).pc.Idle? || Exec(s, run[..i]).pc.Parsed?
  }

  lemma StopsStep(s: Syntax, before: seq<Action>, last: Action)
    ensures EarlyStops(s, before + [last]) <==>
      EarlyStops(s, before) && (last.Stop? ==> Exec(s, before).pc.Idle? || Exec(s, before).pc.Parsed?)
  {
    hide Exec;
    var run := before + [last];
    assert run[..|before|] == before && run[|before|] == last;
    assert forall i :: 0 <= i < |before| ==> run[i] == before[i] && run[..i] == before[..i];
    if EarlyStops(s, run) {
      forall i | 0 <= i < |before| && before[i].Stop?
        ensures Exec(s, before[..i]).pc.Idle? || Exec(s, before[..i]).pc.Parsed?
      {
        assert run[i].Stop? && run[..i] == before[..i];
      }
    }
  }

  lemma StepClean(s: Syntax, w: World, a: Action)
    ensures Apply(s, w, a).clean <==> w.clean && (a.Stop? ==> w.pc.Idle? || w.pc.Parsed?)
  {
    hide MakePlan, KeptBag, Listed, AllReadable;
  }

  /** What `clean` records. */
  lemma {:induction false} CleanIff(s: Syntax, run: seq<Action>)
    ensures Exec(s, run).clean <==> EarlyStops(s, run)
  {
    hide Apply, EarlyStops;
    if run == [] {
      assert EarlyStops(s, []) by { NoStops(s); }
    } else {
      var before, last := run[..|run| - 1], run[|run| - 1];
      CleanIff(s, before);
      StepClean(s, Exec(s, before), last);
      StopsStep(s, before, last);
      assert run == before + [last];
    }
  }

  lemma NoStops(s: Syntax)
    ensures EarlyStops(s, [])
  {
  }

  /**
   A plan: all rows of the segments' lines in order, and when the last one is open and the newest segment
   recent, that one is no row of the plan but its tail.
   */
  lemma PlanMeans(s: Syntax, segments: Segments, order: seq<nat>, recent: bool)
    ensures
      var g, plan := Run(s, EMPTY, LinesOf(segments, order)), MakePlan(s, segments, order, recent);
      && plan.order == order && (plan.hold <==> recent && g.raw != [])
      && Raws(plan.entries) + (if plan.hold then [plan.tail] else []) == Raws(g.entries) + (if g.raw != [] then [g.raw] else [])
      && (!plan.hold ==> plan.tail == [])
  {
  }

  function Raws(entries: seq<Entry>): seq<seq<string>> {
    seq(|entries|, i requires 0 <= i < |entries| => entries[i].raw)
  }

  // ---------------------------------------------------------------- an ingest left alone

  /** Enough removals to end a removal of `n` segments. */
  function Removals(n: nat): seq<Action> {
    if n == 0 then [Remove] else [Remove] + Removals(n - 1)
  }

  lemma Then(s: Syntax, run: seq<Action>, a: Action)
    ensures Exec(s, run + [a]) == Apply(s, Exec(s, run), a)
  {
    hide Apply;
    assert (run + [a])[..|run|] == run;
  }

  lemma RemoveStep(s: Syntax, w: World)
    requires w.pc.Removing?
    ensures Apply(s, w, Remove) ==
      if w.pc.k < |Doomed(w.pc.plan)| then w.(segments := w.segments - {Doomed(w.pc.plan)[w.pc.k]}, pc := Removing(w.pc.plan, w.pc.k + 1))
      else w.(pc := Idle)
  {
    hide MakePlan, KeptBag, Listed, AllReadable;
  }

  lemma {:induction false} RemovalsEnd(s: Syntax, run: seq<Action>, n: nat)
    requires
      var w := Exec(s, run);
      w.pc.Removing? && w.pc.k + n == |Doomed(w.pc.plan)|
    ensures
      var w := Exec(s, run);
      Exec(s, run + Removals(n)) == w.(segments := w.segments - Names(Doomed(w.pc.plan)[w.pc.k..]), pc := Idle)
    decreases n
  {
    hide Exec, Apply, Names, Doomed;
    var w := Exec(s, run);
    var doomed := Doomed(w.pc.plan);
    Then(s, run, Remove);
    RemoveStep(s, w);
    if n == 0 {
      assert doomed[w.pc.k..] == [];
      assert Names([]) == {} by { NothingNamed(); }
      assert w.segments - {} == w.segments;
    } else {
      RemovalsEnd(s, run + [Remove], n - 1);
      assert run + Removals(n) == run + [Remove] + Removals(n - 1);
      FirstName(doomed, w.pc.k);
      Without(w.segments, {doomed[w.pc.k]}, Names(doomed[w.pc.k + 1..]));
    }
  }

  lemma NothingNamed()
    ensures Names([]) == {}
  {
  }

  lemma Without(segments: Segments, a: set<nat>, b: set<nat>)
    ensures segments - a - b == segments - (a + b)
  {
  }

  lemma FirstName(order: seq<nat>, k: nat)
    requires k < |order|
    ensures Names(order[k..]) == {order[k]} + Names(order[k + 1..])
  {
    assert order[k..] == [order[k]] + order[k + 1..];
  }

  /** The steps of one ingest. */
  function Steps(order: seq<nat>, recent: bool, removed: nat): seq<Action> {
    [Ingest(order, recent), Commit, Carry] + Removals(removed)
  }

  /**
   An ingest of readable segments that nothing stops commits the rows of all of them and removes them, but
   for the newest when its open row is held back: of that one just the row's lines stay.
   */
  lemma IngestFinishes(s: Syntax, run: seq<Action>, order: seq<nat>, recent: bool)
    requires Exec(s, run).pc.Idle? && Listed(order, Exec(s, run).segments) && AllReadable(order, Exec(s, run).segments)
    ensures
      var w := Exec(s, run);
      var plan := MakePlan(s, w.segments, order, recent);
      var last := order[|order| - 1];
      var t := Exec(s, run + Steps(order, recent, if plan.hold then |order| - 1 else |order|));
      && t.pc.Idle? && t.committed == w.committed + plan.entries
      && t.segments == if plan.hold then w.segments[last := plan.tail] - Names(order[..|order| - 1]) else w.segments - Names(order[..|order|])
  {
    hide Exec, Apply, Names, MakePlan, AllReadable, Listed, Doomed, Removals, Steps;
    var w := Exec(s, run);
    var plan := MakePlan(s, w.segments, order, recent);
    Nonempty(order, w.segments);
    ThreeSteps(s, w, order, recent);
    var n := if plan.hold then |order| - 1 else |order|;
    ThenThree(s, run, Ingest(order, recent), Commit, Carry);
    RemovesListed(s, run + [Ingest(order, recent), Commit, Carry], plan);
    StepsSplit(run, order, recent, n);
  }

  lemma StepsSplit(run: seq<Action>, order: seq<nat>, recent: bool, n: nat)
    ensures run + Steps(order, recent, n) == run + [Ingest(order, recent), Commit, Carry] + Removals(n)
  {
  }

  lemma RemovesListed(s: Syntax, run: seq<Action>, plan: Plan)
    requires Exec(s, run).pc == Removing(plan, 0) && plan.order != []
    ensures
      var n := if plan.hold then |plan.order| - 1 else |plan.order|;
      Exec(s, run + Removals(n)) == Exec(s, run).(segments := Exec(s, run).segments - Names(plan.order[..n]), pc := Idle)
  {
    hide Exec, Apply, Names;
    var n := if plan.hold then |plan.order| - 1 else |plan.order|;
    assert Doomed(plan) == plan.order[..n] by { assert plan.order[..|plan.order|] == plan.order; }
    RemovalsEnd(s, run, n);
    assert Doomed(plan)[0..] == plan.order[..n];
  }

  lemma ThenThree(s: Syntax, run: seq<Action>, a: Action, b: Action, c: Action)
    ensures Exec(s, run + [a, b, c]) == Apply(s, Apply(s, Apply(s, Exec(s, run), a), b), c)
  {
    hide Exec, Apply;
    assert run + [a, b] == run + [a] + [b] && run + [a, b, c] == run + [a, b] + [c];
    Then(s, run, a);
    Then(s, run + [a], b);
    Then(s, run + [a, b], c);
  }

  lemma ThreeSteps(s: Syntax, w: World, order: seq<nat>, recent: bool)
    requires w.pc.Idle? && order != [] && Listed(order, w.segments) && AllReadable(order, w.segments)
    ensures MakePlan(s, w.segments, order, recent).order == order
    ensures
      var plan := MakePlan(s, w.segments, order, recent);
      Apply(s, Apply(s, Apply(s, w, Ingest(order, recent)), Commit), Carry) == w.(
        committed := w.committed + plan.entries, pc := Removing(plan, 0),
        segments := if plan.hold then w.segments[order[|order| - 1] := plan.tail] else w.segments)
  {
    assert MakePlan(s, w.segments, order, recent).order == order;
    hide MakePlan, KeptBag;
  }

  lemma Nonempty(order: seq<nat>, segments: Segments)
    requires Listed(order, segments)
    ensures order != []
  {
  }

  // ---------------------------------------------------------------- a line that is too long

  /** Every ingest of the run is given this segment, as all segments of one process are ingested together. */
  ghost predicate AlwaysListed(run: seq<Action>, id: nat) {
    forall i :: 0 <= i < |run| && run[i].Ingest? ==> id in run[i].order
  }

  /** The segment waits, and nothing of its process is on the way. */
  ghost predicate Waits(w: World, id: nat, lines: seq<string>) {
    w.pc.Idle? && id in w.segments && id in w.used && w.segments[id] == lines
  }

  lemma StaysWaiting(s: Syntax, w: World, id: nat, lines: seq<string>, a: Action)
    requires Waits(w, id, lines) && !Readable(lines) && (a.Ingest? ==> id in a.order)
    ensures Waits(Apply(s, w, a), id, lines) && Apply(s, w, a).committed == w.committed
  {
    hide MakePlan, KeptBag, Readable;
  }

  /**
   An ingest gets past parsing exactly when every line of its segments fits the scanner's buffer. A longer
   one stops its process for good: its segment is never removed and no row of the process is committed
   again, although, as NoLineLost says, nothing sealed is lost.
   */
  lemma {:induction false} LongLineStops(s: Syntax, run: seq<Action>, more: seq<Action>, id: nat)
    requires
      var w := Exec(s, run);
      w.pc.Idle? && id in w.segments && id in w.used && !Readable(w.segments[id])
    requires AlwaysListed(more, id)
    ensures
      var w, w' := Exec(s, run), Exec(s, run + more);
      Waits(w', id, w.segments[id]) && w'.committed == w.committed
  {
    hide Apply, Readable;
    if more == [] {
      assert run + more == run;
    } else {
      var before, a := more[..|more| - 1], more[|more| - 1];
      assert forall i :: 0 <= i < |before| ==> before[i] == more[i];
      LongLineStops(s, run, before, id);
      assert (run + more)[..|run + more| - 1] == run + before;
      StaysWaiting(s, Exec(s, run + before), id, Exec(s, run).segments[id], a);
    }
  }

  lemma IngestsIff(s: Syntax, w: World, order: seq<nat>, recent: bool)
    requires w.pc.Idle? && Listed(order, w.segments)
    ensures Apply(s, w, Ingest(order, recent)).pc.Parsed? <==> forall id, l :: id in order && l in w.segments[id] ==> |l| < 4_194_304
  {
    hide MakePlan;
  }
}
