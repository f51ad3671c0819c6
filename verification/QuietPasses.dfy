/**
 Tailing a log that falls quiet: a pass over a file that was silent for a while flushes its open row, and
 the file may still grow afterwards.
 */
module QuietPasses {
  import opened Prelude
  import opened Lines
  import opened Grouper
  import opened LogTail

  /** The first line from `pos` on that is not blank. */
  function NextLine(s: Syntax, b: string, pos: nat): Option<string>
    decreases |b| - pos
  {
    var end := LineEnd(b, pos);
    if end.None? then None
    else
      var line := Chomp(b[pos..end.value]);
      if Blank(s, line) then NextLine(s, b, end.value) else Some(line)
  }

  /** The row that was open at `pos` goes on: the next line that is not blank joins it. */
  predicate GoesOn(s: Syntax, b: string, pos: nat, g: State) {
    Open(g) && NextLine(s, b, pos).Some? && Joins(s, g, NextLine(s, b, pos).value)
  }

  // ---------------------------------------------------------------- the row does not go on

  /** A line that does not join finds the same state whether the row was flushed before or not. */
  lemma AddAfterFlush(s: Syntax, g: State, line: string)
    requires Open(g) && !Blank(s, line) && !Joins(s, g, line)
    ensures Add(s, g, line).0 == Behind(Flush(g).entries, Add(s, EMPTY, line).0)
  {
    assert Flush(g).entries + [] == Flush(g).entries;
  }

  lemma {:induction false} FlushedEarly(s: Syntax, b: string, pos: nat, g: State)
    requires Open(g) && !GoesOn(s, b, pos, g)
    ensures Flush(Scan(s, b, pos, g)) == Behind(Flush(g).entries, Flush(Scan(s, b, pos, EMPTY)))
    decreases |b| - pos
  {
    hide Add, Chomp, Joins, Blank;
    var end := LineEnd(b, pos);
    if end.None? {
      assert Flush(g).entries + [] == Flush(g).entries;
    } else {
      var line := Chomp(b[pos..end.value]);
      if Blank(s, line) {
        BlankAdds(s, g, line);
        BlankAdds(s, EMPTY, line);
        FlushedEarly(s, b, end.value, g.(blanks := g.blanks + 1));
      } else {
        AddAfterFlush(s, g, line);
        var first := Add(s, EMPTY, line).0;
        ScanBehind(s, b, end.value, Flush(g).entries, first);
        FlushBehind(Flush(g).entries, Scan(s, b, end.value, first));
      }
    }
  }

  lemma BlankAdds(s: Syntax, g: State, line: string)
    requires Blank(s, line)
    ensures Add(s, g, line).0 == if Open(g) then g.(blanks := g.blanks + 1) else g
    ensures forall n: nat, l :: Joins(s, g.(blanks := n), l) == Joins(s, g, l)
    ensures forall n: nat :: Flush(g.(blanks := n)) == if Open(g) then Flush(g) else g.(blanks := n)
  {
  }

  // ---------------------------------------------------------------- the row goes on

  /** The rows so far, and behind them a row of at least `n` lines. */
  ghost predicate Holds(rows: seq<Entry>, g: State, n: nat) {
    |g.entries| < |rows| && rows[..|g.entries|] == g.entries && |rows[|g.entries|].raw| >= n
  }

  /** Rows once emitted stay in front. */
  lemma AddKeeps(s: Syntax, g: State, line: string)
    ensures g.entries <= Add(s, g, line).0.entries
  {
    hide Blank, Joins;
  }

  lemma {:induction false} ScanKeeps(s: Syntax, b: string, pos: nat, g: State)
    ensures g.entries <= Flush(Scan(s, b, pos, g)).entries
    decreases |b| - pos
  {
    hide Add, Chomp;
    var end := LineEnd(b, pos);
    if end.Some? {
      var line := Chomp(b[pos..end.value]);
      AddKeeps(s, g, line);
      ScanKeeps(s, b, end.value, Add(s, g, line).0);
    }
  }

  /** The open row stays open with no fewer lines, or is the next one emitted. */
  lemma AddRow(s: Syntax, g: State, line: string)
    requires Open(g)
    ensures
      var g' := Add(s, g, line).0;
      (Open(g') && g'.entries == g.entries && |g'.raw| >= |g.raw|) || Holds(g'.entries, g, |g.raw|)
    ensures !Blank(s, line) && Joins(s, g, line) ==>
      var g' := Add(s, g, line).0;
      (Open(g') && g'.entries == g.entries && |g'.raw| > |g.raw|) || Holds(g'.entries, g, |g.raw| + 1)
  {
    hide Blank, Joins;
  }

  lemma HoldsLonger(rows: seq<Entry>, more: seq<Entry>, g: State, n: nat)
    requires Holds(rows, g, n) && rows <= more
    ensures Holds(more, g, n)
  {
  }

  lemma {:induction false} OpenRowEmitted(s: Syntax, b: string, pos: nat, g: State)
    requires Open(g)
    ensures Holds(Flush(Scan(s, b, pos, g)).entries, g, |g.raw|)
    decreases |b| - pos, 0
  {
    hide Add, Chomp;
    var end := LineEnd(b, pos);
    if end.Some? {
      var line := Chomp(b[pos..end.value]);
      AddRow(s, g, line);
      Onward(s, b, end.value, g, Add(s, g, line).0, |g.raw|);
    }
  }

  /** From a state that has the row open with `n` lines or emitted with them. */
  lemma {:induction false} Onward(s: Syntax, b: string, pos: nat, g: State, g': State, n: nat)
    requires (Open(g') && g'.entries == g.entries && |g'.raw| >= n) || Holds(g'.entries, g, n)
    ensures Holds(Flush(Scan(s, b, pos, g')).entries, g, n)
    decreases |b| - pos, 1
  {
    if Holds(g'.entries, g, n) {
      ScanKeeps(s, b, pos, g');
      HoldsLonger(g'.entries, Flush(Scan(s, b, pos, g')).entries, g, n);
    } else {
      OpenRowEmitted(s, b, pos, g');
    }
  }

  /** A row that goes on comes out with more lines than it had. */
  lemma {:induction false} GrownRow(s: Syntax, b: string, pos: nat, g: State)
    requires GoesOn(s, b, pos, g)
    ensures Holds(Flush(Scan(s, b, pos, g)).entries, g, |g.raw| + 1)
    decreases |b| - pos
  {
    hide Add, Chomp, Joins, Blank, Holds;
    var end := LineEnd(b, pos);
    var line := Chomp(b[pos..end.value]);
    if Blank(s, line) {
      BlankAdds(s, g, line);
      GrownRow(s, b, end.value, g.(blanks := g.blanks + 1));
      OtherBlanks(Flush(Scan(s, b, pos, g)).entries, g, g.blanks + 1, |g.raw| + 1);
    } else {
      AddRow(s, g, line);
      Onward(s, b, end.value, g, Add(s, g, line).0, |g.raw| + 1);
    }
  }

  lemma OtherBlanks(rows: seq<Entry>, g: State, blanks: nat, n: nat)
    ensures Holds(rows, g.(blanks := blanks), n) <==> Holds(rows, g, n)
  {
  }

  // ---------------------------------------------------------------- one quiet pass

  /** Rows that part from the true ones at some place, for good: rows are only added behind. */
  ghost predicate Parts(rows: seq<Entry>, truth: seq<Entry>) {
    exists p :: 0 <= p < |rows| && p < |truth| && rows[p] != truth[p]
  }

  lemma PartsStays(rows: seq<Entry>, more: seq<Entry>, truth: seq<Entry>)
    requires Parts(rows, truth)
    ensures Parts(rows + more, truth) && rows + more != truth
  {
    var p :| 0 <= p < |rows| && p < |truth| && rows[p] != truth[p];
    assert (rows + more)[p] == rows[p];
  }

  /** The rest of the whole file as what the flushed row would have led to. */
  lemma RestFrom(s: Syntax, b: string, more: string, start: nat)
    requires Boundary(b, start)
    ensures Rest(s, b + more, start) == Flush(Scan(s, b + more, ScanEnd(b, start), Scan(s, b, start, EMPTY))).entries
  {
    hide Scan, Flush;
    ScanContinues(s, b, more, start, EMPTY);
  }

  /**
   A pass without hold leaves the rows of the whole file as they are exactly when the row it flushes does
   not go on: it is closed, or the next line that is not blank does not join it. Otherwise the rows part
   there.
   */
  lemma QuietPass(s: Syntax, b: string, more: string, start: nat)
    requires Boundary(b, start)
    ensures
      var g, end := Scan(s, b, start, EMPTY), ScanEnd(b, start);
      var (rows, next) := ParseRange(s, b, start, false);
      && next == end
      && (!GoesOn(s, b + more, end, g) ==> rows + Rest(s, b + more, next) == Rest(s, b + more, start))
      && (GoesOn(s, b + more, end, g) ==> Parts(rows, Rest(s, b + more, start)))
  {
    hide Scan, ScanEnd, GoesOn, Flush;
    var all := b + more;
    var g, end := Scan(s, b, start, EMPTY), ScanEnd(b, start);
    RestFrom(s, b, more, start);
    if GoesOn(s, all, end, g) {
      GrownRow(s, all, end, g);
      GrownParts(s, all, end, g);
    } else if Open(g) {
      FlushedEarly(s, all, end, g);
    } else {
      ClosedPass(s, b, more, start);
    }
  }

  lemma GrownParts(s: Syntax, b: string, pos: nat, g: State)
    requires GoesOn(s, b, pos, g) && Holds(Flush(Scan(s, b, pos, g)).entries, g, |g.raw| + 1)
    ensures Parts(Flush(g).entries, Flush(Scan(s, b, pos, g)).entries)
  {
    hide Scan, Joins, NextLine;
    assert Flush(g).entries[|g.entries|].raw == g.raw;
  }

  /** Nothing is flushed: the pass is as a held one. */
  lemma ClosedPass(s: Syntax, b: string, more: string, start: nat)
    requires Boundary(b, start) && !Open(Scan(s, b, start, EMPTY))
    ensures
      var (rows, next) := ParseRange(s, b, start, false);
      rows + Rest(s, b + more, next) == Rest(s, b + more, start)
  {
    hide Scan, Flush, ScanEnd;
    HeldPass(s, b, more, start);
    LogTail.Closed(Scan(s, b, start, EMPTY));
  }

  // ---------------------------------------------------------------- every run of passes

  /** One look at a growing file: how much of it is there, and whether its open row is held. */
  datatype Look = Look(cut: nat, hold: bool)

  ghost predicate Grows(looks: seq<Look>, size: nat) {
    && (forall i :: 0 <= i < |looks| ==> looks[i].cut <= size)
    && (forall i, j :: 0 <= i < j < |looks| ==> looks[i].cut <= looks[j].cut)
  }

  /** The rows of some looks and the offset after them. */
  function Looks(s: Syntax, b: string, looks: seq<Look>): (seq<Entry>, nat) {
    if looks == [] then ([], 0)
    else
      var (rows, offset) := Looks(s, b, looks[..|looks| - 1]);
      var look := looks[|looks| - 1];
      if look.cut > |b| || !Boundary(b[..look.cut], offset) then (rows, offset)
      else
        var (more, next) := ParseRange(s, b[..look.cut], offset, look.hold);
        (rows + more, next)
  }

  /** Some look flushes a row that goes on. */
  ghost predicate Cuts(s: Syntax, b: string, looks: seq<Look>) {
    exists i :: 0 <= i < |looks| && CutsAt(s, b, looks, i)
  }

  ghost predicate CutsAt(s: Syntax, b: string, looks: seq<Look>, i: nat)
    requires i < |looks|
  {
    var offset, look := Looks(s, b, looks[..i]).1, looks[i];
    && !look.hold && look.cut <= |b| && Boundary(b[..look.cut], offset)
    && GoesOn(s, b, ScanEnd(b[..look.cut], offset), Scan(s, b[..look.cut], offset, EMPTY))
  }

  lemma CutsNext(s: Syntax, b: string, looks: seq<Look>)
    requires looks != []
    ensures Cuts(s, b, looks) <==> Cuts(s, b, looks[..|looks| - 1]) || CutsAt(s, b, looks, |looks| - 1)
  {
    hide GoesOn, Looks, Scan, ScanEnd;
    var before := looks[..|looks| - 1];
    forall i | 0 <= i < |before| ensures CutsAt(s, b, looks, i) <==> CutsAt(s, b, before, i) {
      assert looks[..i] == before[..i];
    }
  }

  lemma {:induction false} LooksShow(s: Syntax, b: string, looks: seq<Look>)
    requires Grows(looks, |b|)
    ensures
      var (rows, offset) := Looks(s, b, looks);
      && Boundary(b, offset) && (looks != [] ==> offset <= looks[|looks| - 1].cut) && (looks == [] ==> offset == 0)
      && (if Cuts(s, b, looks) then Parts(rows, Rest(s, b, 0)) else rows + Rest(s, b, offset) == Rest(s, b, 0))
  {
    hide Scan, Flush, RowStart, ScanEnd, GoesOn, Parts, Cuts;
    if looks == [] {
      NoLooks(s, b);
    } else {
      var before, look := looks[..|looks| - 1], looks[|looks| - 1];
      LooksShow(s, b, before);
      CutsNext(s, b, looks);
      var (rows, offset) := Looks(s, b, before);
      LookShows(s, b, rows, offset, look);
      var (more, next) := ParseRange(s, b[..look.cut], offset, look.hold);
      if Cuts(s, b, before) { PartsStays(rows, more, Rest(s, b, 0)); }
    }
  }

  lemma NoLooks(s: Syntax, b: string)
    ensures !Cuts(s, b, []) && [] + Rest(s, b, 0) == Rest(s, b, 0)
  {
  }

  lemma PartsBehind(rows: seq<Entry>, more: seq<Entry>, truth: seq<Entry>)
    requires Parts(more, truth)
    ensures Parts(rows + more, rows + truth)
  {
    var p :| 0 <= p < |more| && p < |truth| && more[p] != truth[p];
    assert (rows + more)[|rows| + p] == more[p] && (rows + truth)[|rows| + p] == truth[p];
  }

  /** One more look, after looks that gave `rows`. */
  lemma LookShows(s: Syntax, b: string, rows: seq<Entry>, offset: nat, look: Look)
    requires look.cut <= |b| && Boundary(b, offset) && offset <= look.cut
    ensures
      var seen := b[..look.cut];
      Boundary(seen, offset) &&
      var (more, next) := ParseRange(s, seen, offset, look.hold);
      && Boundary(b, next) && next <= look.cut
      && (rows + Rest(s, b, offset) == Rest(s, b, 0) ==>
        if !look.hold && GoesOn(s, b, ScanEnd(seen, offset), Scan(s, seen, offset, EMPTY)) then Parts(rows + more, Rest(s, b, 0))
        else (rows + more) + Rest(s, b, next) == Rest(s, b, 0))
  {
    hide Scan, Flush, RowStart, ScanEnd, GoesOn, Parts;
    var seen, later := b[..look.cut], b[look.cut..];
    assert b == seen + later;
    assert Boundary(seen, offset);
    var (more, next) := ParseRange(s, seen, offset, look.hold);
    if look.hold {
      HeldPass(s, seen, later, offset);
    } else {
      QuietPass(s, seen, later, offset);
    }
    InsideSeen(s, seen, offset, look.hold);
    BoundaryStays(seen, later, next);
    assert rows + (more + Rest(s, b, next)) == (rows + more) + Rest(s, b, next);
    if !look.hold && GoesOn(s, b, ScanEnd(seen, offset), Scan(s, seen, offset, EMPTY)) {
      PartsBehind(rows, more, Rest(s, b, offset));
    }
  }

  lemma InsideSeen(s: Syntax, b: string, start: nat, hold: bool)
    requires Boundary(b, start)
    ensures Boundary(b, ParseRange(s, b, start, hold).1) && ParseRange(s, b, start, hold).1 <= |b|
  {
    hide Scan, Flush, RowStart, ScanEnd;
    HeldPass(s, b, "", start);
    assert b + "" == b;
  }

  /**
   Exactly when tailing shows: an append-only file looked at any number of times, its open row held or
   flushed each time, gives with one last flush the rows of a single pass if and only if no look flushed a
   row that the next line joins.
   */
  lemma TailingShowsIff(s: Syntax, b: string, looks: seq<Look>)
    requires Grows(looks, |b|)
    ensures
      var (rows, offset) := Looks(s, b, looks);
      rows + Rest(s, b, offset) == ParseRange(s, b, 0, false).0 <==> !Cuts(s, b, looks)
  {
    hide Scan, Flush, Looks, Cuts, Parts, ScanEnd;
    LooksShow(s, b, looks);
    var (rows, offset) := Looks(s, b, looks);
    if Cuts(s, b, looks) { PartsStays(rows, Rest(s, b, offset), Rest(s, b, 0)); }
  }
}
