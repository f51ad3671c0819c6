/**
 Tailing event files into the partitions: whole lines are read, appended to the partition of
 their own day, the rejected ones recorded, and only then is the offset saved. Any step may be
 the last one before a crash, files grow and are replaced meanwhile, and every partition is the
 crash machine of module Partition with its own maintenance running.
 */
module EventTail {
  import opened Prelude
  import opened Rows
  import opened Lines
  import P = Partition

  /**
   What a line means to ingest; JSON decoding and hashing stay abstract. `batch` bounds the lines
   of one pass (50000 in the daemon).
   */
  datatype Codec = Codec(
    batch: nat,
    blank: string -> bool,
    parse: (string, int) -> Option<Row>,
    eid: (string, nat, nat) -> nat,
    ns: string -> string)

  /** Ids name one line each and are never zero; whether a line parses does not depend on the clock. */
  ghost predicate Lawful(c: Codec) {
    && (forall p, i, o, p', i', o' :: c.eid(p, i, o) == c.eid(p', i', o') ==> p == p' && i == i' && o == o')
    && (forall p, i, o :: c.eid(p, i, o) != 0)
    && (forall line, n, m :: c.parse(line, n).Some? == c.parse(line, m).Some?)
  }

  /**
   One incarnation of a file: a path under one inode. `gen` tells incarnations under the same inode
   apart: a file truncated in place, or a new file that was given the inode of an old one.
   */
  datatype File = File(path: string, inode: nat, gen: nat)

  /** A saved offset; of which incarnation it is, `gen`, is history: the daemon keeps the inode alone. */
  datatype Offset = Offset(inode: nat, at: nat, gen: nat)

  datatype Inode = Inode(number: nat, gen: nat)

  /** One line as one pass read it. */
  datatype Read = Read(file: File, at: nat, line: string, now: int, countries: map<string, string>)

  type Key = (string, int)

  datatype Pass =
    | NoPass
    | Reading(file: File, start: nat, next: nat, taken: seq<Read>, bad: seq<(File, nat)>, todo: set<int>, warned: bool)

  /**
   `contents` keeps every incarnation; the last four fields are history: what was ever appended to
   each partition, which rejections were recorded, the furthest offset read up to from the start
   of the file without a gap and saved, and the partitions retention has removed at least once.
   */
  datatype World = World(
    live: map<string, Inode>,
    contents: map<File, string>,
    saved: map<string, Offset>,
    parts: map<Key, P.State>,
    pass: Pass,
    landed: map<Key, seq<Read>>,
    warned: seq<(File, nat)>,
    marks: map<File, nat>,
    expired: set<Key>)

  datatype Action =
    | Write(path: string, bytes: string)
    | Link(path: string, inode: nat, gen: nat)
    | Unlink(path: string)
    | DropOffset(path: string)
    | Begin(path: string, now: int, countries: map<string, string>)
    | AppendDay(date: int, batch: nat)
    | Warn
    | Save
    | Stop
    | Maintain(key: Key, step: P.Action)

  const NOTHING: World := World(map[], map[], map[], map[], NoPass, map[], [], map[], {})

  // ---------------------------------------------------------------- lines and rows

  /** The row of a read line: its eid is its position, its country may come from its request. */
  function Stored(c: Codec, r: Read): Row
    requires c.parse(r.line, r.now).Some?
  {
    var row := c.parse(r.line, r.now).value.(eid := c.eid(r.file.path, r.file.inode, r.at));
    if row.requestID != "" && row.country == "" && row.requestID in r.countries
    then row.(country := r.countries[row.requestID]) else row
  }

  /** What is read at an offset through the next newline is taken, refused or blank. */
  predicate Takes(c: Codec, b: string, at: nat) {
    LineEnd(b, at).Some? && !c.blank(LineText(b, at)) && c.parse(LineText(b, at), 0).Some?
  }

  predicate Refuses(c: Codec, b: string, at: nat) {
    LineEnd(b, at).Some? && !c.blank(LineText(b, at)) && c.parse(LineText(b, at), 0).None?
  }

  /** The same of a whole line. */
  predicate Accepted(c: Codec, b: string, at: nat) {
    Boundary(b, at) && Takes(c, b, at)
  }

  predicate Rejected(c: Codec, b: string, at: nat) {
    Boundary(b, at) && Refuses(c, b, at)
  }

  /**
   addCountries: the requests of the rows without a country are looked up at once, and the countries found
   filled in. `lookup` is the request table; a failed lookup leaves every row as it is.
   */
  method AddCountries(rows: array<Row>, lookup: set<string> -> Option<map<string, string>>)
    modifies rows
    ensures
      var ids := set r | r in old(rows[..]) && r.requestID != "" && r.country == "" :: r.requestID;
      var found := if ids == {} then None else lookup(ids);
      forall i :: 0 <= i < rows.Length ==>
        var was, now := old(rows[i]), rows[i];
        && now == was.(country := now.country)
        && (was.country == "" && found.Some? && was.requestID in found.value ==> now.country == found.value[was.requestID])
        && (was.country != "" || found.None? || was.requestID !in found.value ==> now.country == was.country)
  {
    ghost var all := rows[..];
    var ids: set<string> := {};
    for i := 0 to rows.Length
      invariant rows[..] == all
      invariant ids == set r | r in all[..i] && r.requestID != "" && r.country == "" :: r.requestID
    {
      assert all[..i + 1] == all[..i] + [all[i]];
      if rows[i].requestID != "" && rows[i].country == "" {
        ids := ids + {rows[i].requestID};
      }
    }
    assert all[..rows.Length] == all;
    if ids == {} {
      return;
    }
    var found := lookup(ids);
    if found.None? {
      return;
    }
    for i := 0 to rows.Length
      invariant forall j :: i <= j < rows.Length ==> rows[j] == all[j]
      invariant forall j :: 0 <= j < i ==>
        rows[j] == if all[j].country == "" && all[j].requestID in found.value then all[j].(country := found.value[all[j].requestID]) else all[j]
    {
      if rows[i].requestID in found.value && rows[i].country == "" {
        rows[i] := rows[i].(country := found.value[rows[i].requestID]);
      }
    }
  }

  predicate Parsed(c: Codec, taken: seq<Read>) {
    forall r :: r in taken ==> c.parse(r.line, r.now).Some?
  }

  function StoredAll(c: Codec, taken: seq<Read>): seq<Row>
    requires Parsed(c, taken)
  {
    if taken == [] then []
    else
      assert taken[|taken| - 1] in taken;
      StoredAll(c, taken[..|taken| - 1]) + [Stored(c, taken[|taken| - 1])]
  }

  function DayOf(c: Codec, r: Read): int
    requires c.parse(r.line, r.now).Some?
  {
    DateOf(Stored(c, r).ts)
  }

  function DayReads(c: Codec, taken: seq<Read>, date: int): seq<Read>
    requires Parsed(c, taken)
  {
    if taken == [] then []
    else
      assert taken[|taken| - 1] in taken;
      DayReads(c, taken[..|taken| - 1], date) +
        (if DayOf(c, taken[|taken| - 1]) == date then [taken[|taken| - 1]] else [])
  }

  /** The accepted lines among the given starts, as this pass takes them. */
  function Take(c: Codec, file: File, b: string, now: int, countries: map<string, string>, starts: seq<nat>): seq<Read> {
    if starts == [] then []
    else
      var at := starts[|starts| - 1];
      Take(c, file, b, now, countries, starts[..|starts| - 1]) +
        (if Takes(c, b, at) then [Read(file, at, LineText(b, at), now, countries)] else [])
  }

  function Refuse(c: Codec, file: File, b: string, starts: seq<nat>): seq<(File, nat)> {
    if starts == [] then []
    else
      var at := starts[|starts| - 1];
      Refuse(c, file, b, starts[..|starts| - 1]) + (if Refuses(c, b, at) then [(file, at)] else [])
  }

  // ---------------------------------------------------------------- steps

  function PartAt(w: World, key: Key): P.State {
    if key in w.parts then w.parts[key] else P.INIT
  }

  function LandedAt(w: World, key: Key): seq<Read> {
    if key in w.landed then w.landed[key] else []
  }

  function Mark(w: World, file: File): nat {
    if file in w.marks then w.marks[file] else 0
  }

  function LiveFile(w: World, path: string): File
    requires path in w.live
  {
    File(path, w.live[path].number, w.live[path].gen)
  }

  /** Where a pass starts: the saved offset, unless the file was replaced or is shorter than it. */
  function StartAt(w: World, file: File, size: nat): nat {
    if file.path !in w.saved then 0
    else
      var o := w.saved[file.path];
      if o.inode != file.inode || size < o.at then 0 else o.at
  }

  function SaveAt(w: World, file: File, start: nat, at: nat): World {
    w.(saved := w.saved[file.path := Offset(file.inode, at, file.gen)],
       marks := w.marks[file := if start <= Mark(w, file) < at then at else Mark(w, file)],
       pass := NoPass)
  }

  function BeginPass(c: Codec, w: World, file: File, now: int, countries: map<string, string>): World
    requires Lawful(c) && file in w.contents
  {
    var b := w.contents[file];
    var start := StartAt(w, file, |b|);
    if start >= |b| then
      if file.path !in w.saved || w.saved[file.path].inode != file.inode then SaveAt(w, file, start, start) else w
    else
      var starts := Starts(b, start, c.batch);
      var taken := Take(c, file, b, now, countries, starts);
      TakeParses(c, file, b, now, countries, starts);
      w.(pass := Reading(file, start, After(b, start, c.batch), taken, Refuse(c, file, b, starts),
                         Dates(c, taken), false))
  }

  lemma {:induction false} TakeParses(c: Codec, file: File, b: string, now: int, countries: map<string, string>, starts: seq<nat>)
    requires Lawful(c)
    ensures Parsed(c, Take(c, file, b, now, countries, starts))
    ensures forall r :: r in Take(c, file, b, now, countries, starts) ==>
      r.file == file && r.now == now && Takes(c, b, r.at) && r.line == LineText(b, r.at) && r.at in starts
    ensures forall at :: at in starts && Takes(c, b, at) ==>
      Read(file, at, LineText(b, at), now, countries) in Take(c, file, b, now, countries, starts)
  {
    if starts == [] {
    } else {
      TakeParses(c, file, b, now, countries, starts[..|starts| - 1]);
    }
  }

  lemma {:induction false} RefuseAll(c: Codec, file: File, b: string, starts: seq<nat>)
    ensures forall at :: at in starts && Refuses(c, b, at) ==> (file, at) in Refuse(c, file, b, starts)
  {
    if starts == [] {
    } else {
      RefuseAll(c, file, b, starts[..|starts| - 1]);
    }
  }

  lemma StartsStep(b: string, from: nat, n: nat)
    requires n > 0 && LineEnd(b, from).Some?
    ensures Starts(b, from, n) == [from] + Starts(b, LineEnd(b, from).value, n - 1)
    ensures After(b, from, n) == After(b, LineEnd(b, from).value, n - 1)
  {
  }

  lemma TakeStep(c: Codec, file: File, b: string, now: int, countries: map<string, string>, starts: seq<nat>, at: nat)
    requires Lawful(c)
    ensures Take(c, file, b, now, countries, starts + [at]) ==
      Take(c, file, b, now, countries, starts) + if Takes(c, b, at) then [Read(file, at, LineText(b, at), now, countries)] else []
    ensures Refuse(c, file, b, starts + [at]) == Refuse(c, file, b, starts) + if Refuses(c, b, at) then [(file, at)] else []
  {
    assert (starts + [at])[..|starts|] == starts;
  }

  /** The reading loop of one pass: whole lines from `start`, at most a batch of them. */
  method ReadLines(c: Codec, file: File, b: string, start: nat, now: int, countries: map<string, string>)
    returns (taken: seq<Read>, bad: seq<(File, nat)>, next: nat)
    requires Lawful(c)
    ensures taken == Take(c, file, b, now, countries, Starts(b, start, c.batch))
    ensures bad == Refuse(c, file, b, Starts(b, start, c.batch))
    ensures next == After(b, start, c.batch)
  {
    hide Starts, After, Take, Refuse;
    taken, bad, next := [], [], start;
    ghost var starts: seq<nat> := [];
    NoStarts(c, file, b, now, countries, start);
    var left := c.batch;
    while left > 0 && LineEnd(b, next).Some?
      invariant starts + Starts(b, next, left) == Starts(b, start, c.batch)
      invariant After(b, next, left) == After(b, start, c.batch)
      invariant taken == Take(c, file, b, now, countries, starts)
      invariant bad == Refuse(c, file, b, starts)
      decreases left
    {
      StartsStep(b, next, left);
      TakeStep(c, file, b, now, countries, starts, next);
      var offset, end := next, LineEnd(b, next).value;
      var line := b[offset..end];
      if !c.blank(line) {
        assert c.parse(line, now).Some? == c.parse(line, 0).Some?;
        if c.parse(line, now).None? {
          bad := bad + [(file, offset)];
        } else {
          taken := taken + [Read(file, offset, line, now, countries)];
        }
      }
      assert starts + ([offset] + Starts(b, end, left - 1)) == (starts + [offset]) + Starts(b, end, left - 1);
      starts := starts + [offset];
      next := end;
      left := left - 1;
    }
    NoMoreStarts(b, next, left);
    assert starts + [] == starts;
  }

  lemma NoStarts(c: Codec, file: File, b: string, now: int, countries: map<string, string>, start: nat)
    ensures Take(c, file, b, now, countries, []) == [] && Refuse(c, file, b, []) == []
    ensures [] + Starts(b, start, c.batch) == Starts(b, start, c.batch)
  {
  }

  lemma NoMoreStarts(b: string, from: nat, n: nat)
    requires n == 0 || LineEnd(b, from).None?
    ensures Starts(b, from, n) == [] && After(b, from, n) == from
  {
  }

  function Dates(c: Codec, taken: seq<Read>): set<int>
    requires Parsed(c, taken)
  {
    set r | r in taken :: DayOf(c, r)
  }

  lemma DayStep(c: Codec, taken: seq<Read>, i: nat, d: int)
    requires Parsed(c, taken) && i < |taken|
    ensures Parsed(c, taken[..i]) && Parsed(c, taken[..i + 1]) && taken[i] in taken
    ensures DayReads(c, taken[..i + 1], d) ==
      DayReads(c, taken[..i], d) + if DayOf(c, taken[i]) == d then [taken[i]] else []
  {
    assert taken[..i + 1][..i] == taken[..i];
  }

  lemma DatesStep(c: Codec, taken: seq<Read>, i: nat)
    requires Parsed(c, taken) && i < |taken|
    ensures Parsed(c, taken[..i]) && Parsed(c, taken[..i + 1]) && taken[i] in taken
    ensures Dates(c, taken[..i + 1]) == Dates(c, taken[..i]) + {DayOf(c, taken[i])}
  {
    assert taken[..i + 1] == taken[..i] + [taken[i]];
  }

  /** Append's grouping loop: the rows by the UTC day they fall on, each day in order. */
  method GroupByDay(c: Codec, taken: seq<Read>) returns (byDate: map<int, seq<Read>>)
    requires Parsed(c, taken)
    ensures byDate.Keys == Dates(c, taken)
    ensures forall d :: d in byDate ==> byDate[d] == DayReads(c, taken, d)
  {
    hide DayOf, Dates;
    byDate := map[];
    NoDates(c);
    for i := 0 to |taken|
      invariant Parsed(c, taken[..i]) && byDate.Keys == Dates(c, taken[..i])
      invariant forall d :: DayReads(c, taken[..i], d) == if d in byDate then byDate[d] else []
    {
      DatesStep(c, taken, i);
      forall d ensures DayReads(c, taken[..i + 1], d) == DayReads(c, taken[..i], d) + if DayOf(c, taken[i]) == d then [taken[i]] else [] {
        DayStep(c, taken, i, d);
      }
      var date := DayOf(c, taken[i]);
      byDate := byDate[date := (if date in byDate then byDate[date] else []) + [taken[i]]];
    }
    assert taken[..|taken|] == taken;
  }

  lemma NoDates(c: Codec)
    ensures Dates(c, []) == {}
  {
  }

  ghost function AppendBatch(c: Codec, w: World, date: int, batch: nat): World
    requires w.pass.Reading? && Parsed(c, w.pass.taken)
  {
    var key := (c.ns(w.pass.file.path), date);
    var part := PartAt(w, key);
    if date !in w.pass.todo || P.Batch(batch) in part.ever then w
    else
      var day := DayReads(c, w.pass.taken, date);
      DayReadsSubset(c, w.pass.taken, date);
      w.(parts := w.parts[key := P.Apply(part, P.Append(batch, StoredAll(c, day)))],
         landed := w.landed[key := LandedAt(w, key) + day],
         pass := w.pass.(todo := w.pass.todo - {date}))
  }

  lemma {:induction false} DayReadsSubset(c: Codec, taken: seq<Read>, date: int)
    requires Parsed(c, taken)
    ensures Parsed(c, DayReads(c, taken, date))
    ensures forall r :: r in DayReads(c, taken, date) <==> r in taken && DayOf(c, r) == date
  {
    if taken == [] {
    } else {
      assert taken[|taken| - 1] in taken;
      DayReadsSubset(c, taken[..|taken| - 1], date);
    }
  }

  ghost function Apply(c: Codec, w: World, a: Action): World
    requires Lawful(c)
  {
    match a
    case Write(path, bytes) =>
      if path !in w.live then w
      else
        var file := LiveFile(w, path);
        if file !in w.contents then w else w.(contents := w.contents[file := w.contents[file] + bytes])
    case Link(path, inode, gen) =>
      var file := File(path, inode, gen);
      w.(live := w.live[path := Inode(inode, gen)],
         contents := if file in w.contents then w.contents else w.contents[file := ""])
    case Unlink(path) => w.(live := w.live - {path})
    case DropOffset(path) => w.(saved := w.saved - {path})
    case Begin(path, now, countries) =>
      if w.pass.Reading? || path !in w.live || LiveFile(w, path) !in w.contents then w
      else BeginPass(c, w, LiveFile(w, path), now, countries)
    case AppendDay(date, batch) =>
      if w.pass.Reading? && Parsed(c, w.pass.taken) then AppendBatch(c, w, date, batch) else w
    case Warn =>
      if w.pass.Reading? && w.pass.todo == {} && !w.pass.warned
      then w.(warned := w.warned + w.pass.bad, pass := w.pass.(warned := true)) else w
    case Save =>
      if w.pass.Reading? && w.pass.todo == {} && w.pass.warned then SaveAt(w, w.pass.file, w.pass.start, w.pass.next) else w
    case Stop => w.(pass := NoPass)
    case Maintain(key, step) =>
      if step.Append? then w
      else
        w.(parts := w.parts[key := P.Apply(PartAt(w, key), step)],
           expired := if step.PruneFiles? || step.RemoveFile? then w.expired + {key} else w.expired)
  }

  ghost function Exec(c: Codec, run: seq<Action>): World
    requires Lawful(c)
  {
    if run == [] then NOTHING else Apply(c, Exec(c, run[..|run| - 1]), run[|run| - 1])
  }
}
