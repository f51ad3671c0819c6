/** Tailing a plain log in passes: a row that is still open is held back and read again. */
module LogTail {
  import opened Lines
  import opened Grouper

  /** The grouper after the whole lines from `pos` on. */
  function Scan(s: Syntax, b: string, pos: nat, g: State): State
    decreases |b| - pos
  {
    var end := LineEnd(b, pos);
    if end.None? then g else Scan(s, b, end.value, Add(s, g, Chomp(b[pos..end.value])).0)
  }

  /** The end of the last whole line from `pos` on. */
  function ScanEnd(b: string, pos: nat): (next: nat)
    requires Boundary(b, pos)
    ensures pos <= next && Boundary(b, next)
    decreases |b| - pos
  {
    var end := LineEnd(b, pos);
    if end.None? then pos else ScanEnd(b, end.value)
  }

  /** Where the last row that the lines from `pos` on opened starts. */
  function RowStart(s: Syntax, b: string, pos: nat, g: State, start: nat): nat
    decreases |b| - pos
  {
    var end := LineEnd(b, pos);
    if end.None? then start
    else
      var (g', isNew) := Add(s, g, Chomp(b[pos..end.value]));
      RowStart(s, b, end.value, g', if isNew then pos else start)
  }

  /** One pass: the rows to commit and the offset to resume from. */
  function ParseRange(s: Syntax, b: string, start: nat, hold: bool): (seq<Entry>, nat)
    requires Boundary(b, start)
  {
    var g := Scan(s, b, start, EMPTY);
    if hold && Open(g) then (g.entries, RowStart(s, b, start, EMPTY, start)) else (Flush(g).entries, ScanEnd(b, start))
  }

  /** The reading loop with its two cursors. */
  method Parse(s: Syntax, b: string, start: nat, hold: bool) returns (entries: seq<Entry>, resume: nat)
    requires Boundary(b, start)
    ensures (entries, resume) == ParseRange(s, b, start, hold)
  {
    hide Add, Flush;
    var group := new LineGrouper(s);
    var next, rowStart := start, start;
    while LineEnd(b, next).Some?
      invariant Boundary(b, next) && group.syntax == s && fresh(group)
      invariant Scan(s, b, next, group.Value()) == Scan(s, b, start, EMPTY)
      invariant RowStart(s, b, next, group.Value(), rowStart) == RowStart(s, b, start, EMPTY, start)
      invariant ScanEnd(b, next) == ScanEnd(b, start)
      decreases |b| - next
    {
      var end := LineEnd(b, next).value;
      ghost var before := group.Value();
      var isNew := group.AddLine(Chomp(b[next..end]));
      assert Add(s, before, Chomp(b[next..end])) == (group.Value(), isNew);
      if isNew { rowStart := next; }
      next := end;
    }
    if hold && |group.raw| > 0 {
      return group.entries, rowStart;
    }
    group.FlushRow();
    return group.entries, next;
  }

  // ---------------------------------------------------------------- committed rows do not matter

  function Behind(entries: seq<Entry>, g: State): State {
    g.(entries := entries + g.entries)
  }

  lemma FlushBehind(entries: seq<Entry>, g: State)
    ensures Flush(Behind(entries, g)) == Behind(entries, Flush(g))
  {
    if Open(g) {
      assert entries + (g.entries + [Entry(g.raw, g.text, g.level)]) == entries + g.entries + [Entry(g.raw, g.text, g.level)];
    }
  }

  lemma AddBehind(s: Syntax, entries: seq<Entry>, g: State, line: string)
    ensures Add(s, Behind(entries, g), line) == (Behind(entries, Add(s, g, line).0), Add(s, g, line).1)
  {
    hide Blank, Flush;
    FlushBehind(entries, g);
    FlushBehind(entries, Push(s, g, line).(level := Grade(g.level, if s.completes(s.text(line)).Some? then s.completes(s.text(line)).value else ' ')));
  }

  lemma {:induction false} ScanBehind(s: Syntax, b: string, pos: nat, entries: seq<Entry>, g: State)
    ensures Scan(s, b, pos, Behind(entries, g)) == Behind(entries, Scan(s, b, pos, g))
    decreases |b| - pos
  {
    hide Add;
    var end := LineEnd(b, pos);
    if end.Some? {
      AddBehind(s, entries, g, Chomp(b[pos..end.value]));
      ScanBehind(s, b, end.value, entries, Add(s, g, Chomp(b[pos..end.value])).0);
    }
  }

  // ---------------------------------------------------------------- the file grows

  /** What was scanned of a shorter file is a step on the way through the longer one. */
  lemma {:induction false} ScanContinues(s: Syntax, b: string, more: string, pos: nat, g: State)
    requires Boundary(b, pos)
    ensures Scan(s, b + more, pos, g) == Scan(s, b + more, ScanEnd(b, pos), Scan(s, b, pos, g))
    decreases |b| - pos
  {
    hide Add, Chomp;
    var end := LineEnd(b, pos);
    if end.Some? {
      LineEndGrows(b, more, pos);
      assert (b + more)[pos..end.value] == b[pos..end.value];
      ScanContinues(s, b, more, end.value, Add(s, g, Chomp(b[pos..end.value])).0);
    }
  }

  // ---------------------------------------------------------------- reading the open row again

  function Fresh(g: State): State {
    g.(entries := [])
  }

  /** Scanning again from where the open row starts meets the same open row. */
  ghost predicate Rereads(s: Syntax, b: string, pos: nat, g: State, start: nat) {
    if Open(g) then Boundary(b, start) && start <= pos && Scan(s, b, start, EMPTY) == Scan(s, b, pos, Fresh(g))
    else Fresh(g) == EMPTY
  }

  lemma AddFresh(s: Syntax, g: State, line: string)
    requires !Open(g) ==> Fresh(g) == EMPTY
    ensures
      var (g', isNew) := Add(s, g, line);
      && (!Open(g') ==> Fresh(g') == EMPTY)
      && (isNew ==> Open(g') && Add(s, EMPTY, line).0 == Fresh(g'))
      && (!isNew && Open(g') ==> Open(g) && Add(s, Fresh(g), line).0 == Fresh(g'))
  {
    hide Blank;
  }

  lemma {:induction false} ScanRereads(s: Syntax, b: string, more: string, pos: nat, g: State, start: nat)
    requires Boundary(b, pos) && Rereads(s, b + more, pos, g, start) && start <= pos
    ensures
      var g', start' := Scan(s, b, pos, g), RowStart(s, b, pos, g, start);
      Rereads(s, b + more, ScanEnd(b, pos), g', start') && start' <= ScanEnd(b, pos)
    decreases |b| - pos
  {
    hide Add, Chomp;
    var end := LineEnd(b, pos);
    if end.Some? {
      var line := Chomp(b[pos..end.value]);
      LineEndGrows(b, more, pos);
      assert (b + more)[pos..end.value] == b[pos..end.value];
      AddFresh(s, g, line);
      var (g', isNew) := Add(s, g, line);
      BoundaryStays(b, more, pos);
      ScanRereads(s, b, more, end.value, g', if isNew then pos else start);
    }
  }

  lemma BoundaryStays(b: string, more: string, pos: nat)
    requires Boundary(b, pos)
    ensures Boundary(b + more, pos)
  {
  }

  /** The row start is where the open row's first line is, a line start of the file. */
  lemma {:induction false} RowStartIsLine(s: Syntax, b: string, pos: nat, g: State, start: nat)
    requires Boundary(b, pos) && Boundary(b, start) && start <= pos
    requires if Open(g) then LineAt(b, start) && g.raw[0] == Chomp(LineText(b, start)) else Fresh(g) == EMPTY
    ensures
      var g', start' := Scan(s, b, pos, g), RowStart(s, b, pos, g, start);
      Boundary(b, start') && (Open(g') ==> LineAt(b, start') && g'.raw[0] == Chomp(LineText(b, start')))
    decreases |b| - pos
  {
    hide Add, Chomp;
    var end := LineEnd(b, pos);
    if end.Some? {
      var line := Chomp(b[pos..end.value]);
      AddFirst(s, g, line);
      AddFresh(s, g, line);
      var (g', isNew) := Add(s, g, line);
      RowStartIsLine(s, b, end.value, g', if isNew then pos else start);
    }
  }

  lemma AddFirst(s: Syntax, g: State, line: string)
    ensures
      var (g', isNew) := Add(s, g, line);
      && (isNew ==> Open(g') && (g.blanks == 0 || Open(g) ==> g'.raw[0] == line))
      && (!isNew && Open(g') ==> Open(g) && g'.raw[0] == g.raw[0])
  {
    hide Blank;
  }

  // ---------------------------------------------------------------- held passes

  /** Passes over a growing file: each sees a longer prefix and holds its open row. */
  ghost predicate Growing(cuts: seq<nat>, size: nat) {
    && (forall i :: 0 <= i < |cuts| ==> cuts[i] <= size)
    && (forall i, j :: 0 <= i < j < |cuts| ==> cuts[i] <= cuts[j])
  }

  /** The rows of the held passes and the offset after them. */
  function Passes(s: Syntax, b: string, cuts: seq<nat>): (seq<Entry>, nat) {
    if cuts == [] then ([], 0)
    else
      var (rows, offset) := Passes(s, b, cuts[..|cuts| - 1]);
      var cut := cuts[|cuts| - 1];
      if cut > |b| || !Boundary(b[..cut], offset) then (rows, offset)
      else
        var (more, next) := ParseRange(s, b[..cut], offset, true);
        (rows + more, next)
  }

  /** The rows of one final pass from an offset. */
  function Rest(s: Syntax, b: string, start: nat): seq<Entry> {
    Flush(Scan(s, b, start, EMPTY)).entries
  }

  /** One held pass takes rows off the front and leaves the same rest. */
  lemma HeldPass(s: Syntax, b: string, more: string, start: nat)
    requires Boundary(b, start)
    ensures
      var (rows, next) := ParseRange(s, b, start, true);
      && Boundary(b, next) && start <= next
      && Rest(s, b + more, start) == rows + Rest(s, b + more, next)
  {
    hide Add, Chomp, Scan, RowStart, ScanEnd, Flush;
    var g, all := Scan(s, b, start, EMPTY), b + more;
    var end := ScanEnd(b, start);
    ScanContinues(s, b, more, start, EMPTY);
    ScanRereads(s, b, more, start, EMPTY, start);
    RowStartIsLine(s, b, start, EMPTY, start);
    assert g == Behind(g.entries, Fresh(g));
    ScanBehind(s, all, end, g.entries, Fresh(g));
    if Open(g) {
      var again := Scan(s, all, RowStart(s, b, start, EMPTY, start), EMPTY);
      FlushBehind(g.entries, again);
      RowStartAfter(s, b, start, EMPTY, start);
    } else {
      FlushBehind(g.entries, Scan(s, all, end, EMPTY));
      Closed(g);
    }
  }

  lemma Closed(g: State)
    requires !Open(g)
    ensures Flush(g) == g
  {
  }

  lemma {:induction false} RowStartAfter(s: Syntax, b: string, pos: nat, g: State, start: nat)
    requires start <= pos
    ensures start <= RowStart(s, b, pos, g, start)
    decreases |b| - pos
  {
    hide Add, Chomp;
    var end := LineEnd(b, pos);
    if end.Some? {
      var (g', isNew) := Add(s, g, Chomp(b[pos..end.value]));
      RowStartAfter(s, b, end.value, g', if isNew then pos else start);
    }
  }

  /**
   Held tailing is invisible: however an append-only file is cut into held passes, at whatever byte
   positions, their rows followed by one last flush are the rows of a single pass over the file.
   */
  lemma {:induction false} HeldPassesAreInvisible(s: Syntax, b: string, cuts: seq<nat>)
    requires Growing(cuts, |b|)
    ensures
      var (rows, offset) := Passes(s, b, cuts);
      && Boundary(b, offset) && (cuts != [] ==> offset <= cuts[|cuts| - 1]) && (cuts == [] ==> offset == 0)
      && rows + Rest(s, b, offset) == ParseRange(s, b, 0, false).0
  {
    hide Scan, Flush, RowStart, ScanEnd;
    if cuts == [] {
      assert [] + Rest(s, b, 0) == Rest(s, b, 0);
    } else {
      var before, cut := cuts[..|cuts| - 1], cuts[|cuts| - 1];
      HeldPassesAreInvisible(s, b, before);
      var (rows, offset) := Passes(s, b, before);
      var seen := b[..cut];
      assert b == seen + b[cut..];
      assert Boundary(seen, offset);
      HeldPass(s, seen, b[cut..], offset);
      var (more, next) := ParseRange(s, seen, offset, true);
      BoundaryStays(seen, b[cut..], next);
      assert rows + (more + Rest(s, b, next)) == (rows + more) + Rest(s, b, next);
    }
  }

  /**
   A held pass resumes at the first byte of its open row, or after its last whole line: the line
   there is the row's first, and the lines from there on are the open row and nothing else.
   */
  lemma ResumeOffset(s: Syntax, b: string, start: nat)
    requires Boundary(b, start)
    ensures
      var g, next := Scan(s, b, start, EMPTY), ParseRange(s, b, start, true).1;
      if Open(g) then LineAt(b, next) && g.raw[0] == Chomp(LineText(b, next)) && Scan(s, b, next, EMPTY) == Fresh(g)
      else Boundary(b, next) && LineEnd(b, next).None?
  {
    hide RowStart, Chomp;
    RowStartIsLine(s, b, start, EMPTY, start);
    LastLine(b, start);
    assert b + "" == b;
    ScanRereads(s, b, "", start, EMPTY, start);
  }

  lemma {:induction false} LastLine(b: string, pos: nat)
    requires Boundary(b, pos)
    ensures LineEnd(b, ScanEnd(b, pos)).None?
    decreases |b| - pos
  {
    if LineEnd(b, pos).Some? { LastLine(b, LineEnd(b, pos).value); }
  }
}
