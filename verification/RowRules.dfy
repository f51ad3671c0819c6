/**
 Which lines of a log make a row, said of the rows themselves: a nonblank line belongs to the row above it
 exactly when nothing about the two breaks the row there.
 */
module RowRules {
  import opened Prelude
  import opened Trimming
  import opened Grouper

  /** Something is written on the line besides white space. */
  predicate HasInk(s: Syntax, line: string) {
    var text := s.text(line);
    exists i :: 0 <= i < |text| && !IsSpace(text[i])
  }

  lemma {:induction false} TrimLeftNone(text: string)
    ensures TrimLeft(text) == "" <==> forall i :: 0 <= i < |text| ==> IsSpace(text[i])
  {
    if text != "" && IsSpace(text[0]) {
      TrimLeftNone(text[1..]);
      assert forall i :: 0 < i < |text| ==> text[i] == text[1..][i - 1];
    }
  }

  lemma {:induction false} TrimRightNone(text: string)
    ensures TrimRight(text) == "" <==> forall i :: 0 <= i < |text| ==> IsSpace(text[i])
  {
    if text != "" && IsSpace(text[|text| - 1]) { TrimRightNone(text[..|text| - 1]); }
  }

  lemma InkIff(s: Syntax, line: string)
    ensures HasInk(s, line) <==> !Blank(s, line)
  {
    var text := s.text(line);
    TrimLeftNone(text);
    TrimRightNone(TrimLeft(text));
    TrimLeftStarts(text);
    if TrimLeft(text) != "" { assert !IsSpace(TrimLeft(text)[0]); }
  }

  // ---------------------------------------------------------------- when a row breaks

  /** The nonblank lines' bytes. */
  function InkBytes(s: Syntax, raw: seq<string>): nat {
    if raw == [] then 0
    else InkBytes(s, raw[..|raw| - 1]) + if HasInk(s, raw[|raw| - 1]) then |raw[|raw| - 1]| else 0
  }

  /** The row is a Rails request and its last line, not being its first, completes it. */
  predicate Completed(s: Syntax, raw: seq<string>) {
    |raw| > 1 && s.starts(s.text(raw[0])) && s.completes(s.text(raw[|raw| - 1])).Some?
  }

  /**
   A nonblank line after these lines of a row opens a row of its own: it carries another request id, the
   row is full, a Rails request is complete or another one starts, or a plain line is not indented.
   */
  predicate Breaks(s: Syntax, row: seq<string>, line: string)
    requires row != []
  {
    var text := s.text(line);
    || s.id(line) != s.id(row[0])
    || |row| >= 1000
    || InkBytes(s, row) + |line| > 262_144
    || if s.starts(s.text(row[0])) then Completed(s, row) || s.starts(text)
       else !(|text| > 0 && (text[0] as int == 32 || text[0] as int == 9))
  }

  /** Lines up to the last one with ink. */
  function UpToInk(s: Syntax, raw: seq<string>): seq<string> {
    if raw == [] || HasInk(s, raw[|raw| - 1]) then raw else UpToInk(s, raw[..|raw| - 1])
  }

  /** Inside a row no nonblank line breaks what is above it. */
  ghost predicate Coherent(s: Syntax, raw: seq<string>) {
    && raw != [] && HasInk(s, raw[0]) && HasInk(s, raw[|raw| - 1])
    && forall p :: 0 < p < |raw| && HasInk(s, raw[p]) ==> UpToInk(s, raw[..p]) != [] && !Breaks(s, UpToInk(s, raw[..p]), raw[p])
  }

  /** A completed request is graded by its status class, nothing else is. */
  ghost predicate Graded(s: Syntax, e: Entry) {
    var last := if e.raw == [] then None else s.completes(s.text(e.raw[|e.raw| - 1]));
    e.level == if Completed(s, e.raw) && last == Some('5') then "error" else if Completed(s, e.raw) && last == Some('4') then "warn" else ""
  }

  /** The rows of a state, the open one last. */
  function RowsOf(g: State): seq<seq<string>> {
    seq(|g.entries|, i requires 0 <= i < |g.entries| => g.entries[i].raw) + if Open(g) then [g.raw] else []
  }

  ghost predicate Apart(s: Syntax, rows: seq<seq<string>>) {
    forall i :: 0 < i < |rows| && rows[i - 1] != [] && rows[i] != [] ==> Breaks(s, rows[i - 1], rows[i][0])
  }

  ghost predicate Ruled(s: Syntax, g: State) {
    && (forall row :: row in RowsOf(g) ==> Coherent(s, row))
    && (forall e :: e in g.entries ==> Graded(s, e))
    && Apart(s, RowsOf(g))
  }

  // ---------------------------------------------------------------- the open row

  /** What the state knows of its open row; a closed state behind rows ends with a completed one. */
  ghost predicate Known(s: Syntax, g: State) {
    if Open(g) then
      && g.id == s.id(g.raw[0]) && g.rails == s.starts(s.text(g.raw[0])) && g.size == InkBytes(s, g.raw)
      && g.level == "" && !Completed(s, g.raw)
    else g.level == "" && g.blanks == 0 && g.size == 0 && (g.entries != [] ==> Completed(s, g.entries[|g.entries| - 1].raw))
  }

  /** Joining is not breaking. */
  lemma JoinsIff(s: Syntax, g: State, line: string)
    requires Open(g) && Known(s, g) && HasInk(s, line)
    ensures Joins(s, g, line) <==> !Breaks(s, g.raw, line)
  {
    InkIff(s, line);
  }

  lemma {:induction false} BlanksAway(s: Syntax, raw: seq<string>, n: nat)
    requires !HasInk(s, "") && (raw == [] || HasInk(s, raw[|raw| - 1]))
    ensures UpToInk(s, raw + Repeat(n)) == raw && InkBytes(s, raw + Repeat(n)) == InkBytes(s, raw)
  {
    hide HasInk;
    var all := raw + Repeat(n);
    if n == 0 {
      assert all == raw;
    } else {
      assert all[..|all| - 1] == raw + Repeat(n - 1) && all[|all| - 1] == "";
      BlanksAway(s, raw, n - 1);
    }
  }

  lemma InkMore(s: Syntax, raw: seq<string>, line: string)
    requires HasInk(s, line)
    ensures InkBytes(s, raw + [line]) == InkBytes(s, raw) + |line|
  {
    assert (raw + [line])[..|raw|] == raw;
  }

  /** The open row takes the line with the blank lines before it. */
  lemma CoherentMore(s: Syntax, raw: seq<string>, n: nat, line: string)
    requires !HasInk(s, "") && Coherent(s, raw) && HasInk(s, line) && !Breaks(s, raw, line)
    ensures Coherent(s, raw + Repeat(n) + [line])
  {
    hide HasInk, Breaks, InkBytes;
    var all := raw + Repeat(n) + [line];
    BlanksAway(s, raw, n);
    assert forall p :: |raw| <= p < |raw| + n ==> all[p] == "";
    forall p | 0 < p < |all| && HasInk(s, all[p])
      ensures UpToInk(s, all[..p]) != [] && !Breaks(s, UpToInk(s, all[..p]), all[p])
    {
      if p < |raw| {
        assert all[..p] == raw[..p] && all[p] == raw[p];
      } else {
        assert all[..|raw| + n] == raw + Repeat(n);
      }
    }
  }

  lemma RowsPush(g: State, raw: seq<string>)
    requires Open(g) && raw != []
    ensures RowsOf(g.(raw := raw)) == RowsOf(g)[..|g.entries|] + [raw] && RowsOf(g)[|g.entries|] == g.raw
  {
  }

  /** Rows that differ only behind the first line of the last one are apart as well. */
  lemma ApartLast(s: Syntax, rows: seq<seq<string>>, row: seq<string>)
    requires rows != [] && rows[|rows| - 1] != [] && row != [] && row[0] == rows[|rows| - 1][0] && Apart(s, rows)
    ensures Apart(s, rows[..|rows| - 1] + [row])
  {
    hide Breaks;
    var more := rows[..|rows| - 1] + [row];
    forall i | 0 < i < |more| && more[i - 1] != [] && more[i] != [] ensures Breaks(s, more[i - 1], more[i][0]) {
      assert more[i - 1] == rows[i - 1] && more[i][0] == rows[i][0];
    }
  }

  lemma ApartPut(s: Syntax, rows: seq<seq<string>>, row: seq<string>)
    requires Apart(s, rows) && row != []
    requires rows != [] && rows[|rows| - 1] != [] ==> Breaks(s, rows[|rows| - 1], row[0])
    ensures Apart(s, rows + [row])
  {
    hide Breaks;
  }

  /** A line that joins. */
  lemma PushRuled(s: Syntax, g: State, line: string)
    requires !HasInk(s, "") && Ruled(s, g) && Open(g) && Known(s, g) && HasInk(s, line) && !Breaks(s, g.raw, line)
    ensures
      var p := Push(s, g, line);
      && Ruled(s, p) && p.raw[0] == g.raw[0] && p.raw[|p.raw| - 1] == line && |p.raw| > 1
      && p.size == InkBytes(s, p.raw) && p.entries == g.entries && p.id == g.id && p.rails == g.rails && p.level == g.level && p.blanks == 0
  {
    hide HasInk, Breaks, InkBytes, Coherent, Graded, Completed;
    var raw := g.raw + Repeat(g.blanks) + [line];
    assert g.raw in RowsOf(g) by { RowsPush(g, g.raw); }
    assert g.raw != [] && HasInk(s, g.raw[|g.raw| - 1]) by { CoherentEnds(s, g.raw); }
    CoherentMore(s, g.raw, g.blanks, line);
    BlanksAway(s, g.raw, g.blanks);
    InkMore(s, g.raw + Repeat(g.blanks), line);
    RowsPush(g, raw);
    ApartLast(s, RowsOf(g), raw);
    var p := Push(s, g, line);
    assert RowsOf(p) == RowsOf(g.(raw := raw));
    forall row | row in RowsOf(p) ensures Coherent(s, row) { assert row == raw || row in RowsOf(g); }
  }

  lemma CoherentEnds(s: Syntax, raw: seq<string>)
    requires Coherent(s, raw)
    ensures raw != [] && HasInk(s, raw[0]) && HasInk(s, raw[|raw| - 1])
  {
  }

  /** Emitting the open row leaves the rows as they are. */
  lemma FlushRuled(s: Syntax, g: State)
    requires Ruled(s, g) && Open(g) && Graded(s, Entry(g.raw, g.text, g.level))
    ensures Ruled(s, Flush(g)) && RowsOf(Flush(g)) == RowsOf(g)
  {
    hide Coherent, Graded, Apart;
    var e := Entry(g.raw, g.text, g.level);
    assert Flush(g).entries == g.entries + [e];
    assert RowsOf(Flush(g)) == RowsOf(g);
  }

  /** A line that opens a row. */
  lemma OpenRuled(s: Syntax, g: State, line: string)
    requires Ruled(s, g) && !Open(g) && HasInk(s, line) && g.blanks == 0
    requires g.entries != [] ==> g.entries[|g.entries| - 1].raw == [] || Breaks(s, g.entries[|g.entries| - 1].raw, line)
    ensures
      var p := Push(s, g, line);
      Ruled(s, p) && p.raw == [line] && p.size == g.size + |line| && p.entries == g.entries
  {
    hide HasInk, Breaks, Graded;
    assert Repeat(0) == [];
    var p := Push(s, g, line);
    assert p.raw == [line];
    assert RowsOf(p) == RowsOf(g) + [[line]];
    ApartPut(s, RowsOf(g), [line]);
    OneCoherent(s, line);
    hide Coherent, Apart;
  }

  lemma OneCoherent(s: Syntax, line: string)
    requires HasInk(s, line)
    ensures Coherent(s, [line])
  {
    hide HasInk, Breaks;
  }

  // ---------------------------------------------------------------- every line

  lemma JoinKeeps(s: Syntax, g: State, line: string)
    requires !HasInk(s, "") && Ruled(s, g) && Open(g) && Known(s, g) && HasInk(s, line) && !Breaks(s, g.raw, line)
    ensures
      var p := Push(s, g, line);
      var g' := if g.rails then Complete(s, p, line) else p;
      Ruled(s, g') && Known(s, g')
  {
    hide HasInk, Breaks, InkBytes, Ruled, Push;
    PushRuled(s, g, line);
    var p := Push(s, g, line);
    var done := s.completes(s.text(line));
    if g.rails && done.Some? {
      var q := p.(level := Grade(p.level, done.value));
      SameRules(s, p, q);
      FlushRuled(s, q);
      assert Flush(q).entries[|Flush(q).entries| - 1].raw == p.raw;
    }
  }

  lemma SameRules(s: Syntax, g: State, h: State)
    requires Ruled(s, g) && h.entries == g.entries && h.raw == g.raw
    ensures Ruled(s, h)
  {
    hide Coherent, Graded, Apart;
    assert RowsOf(h) == RowsOf(g);
  }

  lemma BreakKeeps(s: Syntax, g: State, line: string)
    requires Ruled(s, g) && Known(s, g) && HasInk(s, line) && (Open(g) ==> Breaks(s, g.raw, line))
    ensures
      var g' := Push(s, Flush(g).(id := s.id(line), rails := s.starts(s.text(line))), line);
      Ruled(s, g') && Known(s, g')
  {
    hide HasInk, Ruled, InkBytes;
    var f := Flush(g);
    if Open(g) {
      FlushRuled(s, g);
    } else if g.entries != [] {
      CompletedBreaks(s, g.entries[|g.entries| - 1].raw, line);
    }
    var h := f.(id := s.id(line), rails := s.starts(s.text(line)));
    SameRules(s, f, h);
    OpenRuled(s, h, line);
    InkMore(s, [], line);
    assert [] + [line] == [line] && InkBytes(s, []) == 0 by { NoInk(s); }
  }

  lemma NoInk(s: Syntax)
    ensures InkBytes(s, []) == 0
  {
  }

  /** Nothing joins a completed request. */
  lemma CompletedBreaks(s: Syntax, row: seq<string>, line: string)
    requires row != [] && Completed(s, row)
    ensures Breaks(s, row, line)
  {
  }

  lemma AddRuled(s: Syntax, g: State, line: string)
    requires !HasInk(s, "") && Ruled(s, g) && Known(s, g)
    ensures Ruled(s, Add(s, g, line).0) && Known(s, Add(s, g, line).0)
    ensures Add(s, g, line).1 <==> HasInk(s, line) && (Open(g) ==> Breaks(s, g.raw, line))
  {
    hide HasInk, Ruled, Breaks, Joins, Push, Complete, Flush, Blank, InkBytes;
    InkIff(s, line);
    if !HasInk(s, line) {
      SameRules(s, g, g.(blanks := g.blanks + 1));
    } else {
      if Open(g) { JoinsIff(s, g, line); }
      if Open(g) && !Breaks(s, g.raw, line) {
        JoinKeeps(s, g, line);
      } else {
        BreakKeeps(s, g, line);
      }
    }
  }

  /**
   For every input: each nonblank line stands in the row above it exactly when it does not break that row,
   said of the rows that come out. Inside every row no nonblank line breaks the lines above it, the first
   line of every row breaks the row before, and a row's level is that of the request it completes.
   */
  lemma {:induction false} RowsAreRuled(s: Syntax, lines: seq<string>)
    requires Lawful(s)
    ensures Ruled(s, Run(s, EMPTY, lines))
    ensures Known(s, Run(s, EMPTY, lines))
  {
    hide Ruled, Known, Add, HasInk;
    InkIff(s, "");
    if lines == [] {
      NothingRuled(s);
    } else {
      RowsAreRuled(s, lines[..|lines| - 1]);
      AddRuled(s, Run(s, EMPTY, lines[..|lines| - 1]), lines[|lines| - 1]);
    }
  }

  lemma NothingRuled(s: Syntax)
    ensures Ruled(s, EMPTY) && Known(s, EMPTY)
  {
  }

  /** A nonblank line opens a row exactly when no row is open or it breaks the open one. */
  lemma OpensIff(s: Syntax, lines: seq<string>, line: string)
    requires Lawful(s)
    ensures
      var g := Run(s, EMPTY, lines);
      Add(s, g, line).1 <==> HasInk(s, line) && (Open(g) ==> Breaks(s, g.raw, line))
  {
    hide Ruled, Known, Add, HasInk, Breaks;
    InkIff(s, "");
    RowsAreRuled(s, lines);
    AddRuled(s, Run(s, EMPTY, lines), line);
  }

  /**
   In other words: in a row that starts no Rails request every nonblank line after the first starts with a
   blank or a tab; in a Rails row none after the first starts a request and none before the last completes
   it; all carry one request id.
   */
  lemma CoherentMeans(s: Syntax, raw: seq<string>, p: nat)
    requires Coherent(s, raw) && 0 < p < |raw| && HasInk(s, raw[p])
    ensures s.id(raw[p]) == s.id(raw[0])
    ensures !s.starts(s.text(raw[0])) ==> s.text(raw[p]) != "" && (s.text(raw[p])[0] == ' ' || s.text(raw[p])[0] == '\t')
    ensures s.starts(s.text(raw[0])) ==> !s.starts(s.text(raw[p])) && (p < |raw| - 1 ==> s.completes(s.text(raw[p])).None?)
  {
    hide HasInk, InkBytes;
    UpToFirst(s, raw, p);
    if p < |raw| - 1 && s.starts(s.text(raw[0])) { NotCompleted(s, raw, p); }
  }

  lemma {:induction false} UpToFirst(s: Syntax, raw: seq<string>, p: nat)
    requires raw != [] && HasInk(s, raw[0]) && 0 < p <= |raw|
    ensures UpToInk(s, raw[..p]) != [] && UpToInk(s, raw[..p])[0] == raw[0]
  {
    hide HasInk;
    if !HasInk(s, raw[p - 1]) {
      assert p > 1 && raw[..p][..p - 1] == raw[..p - 1];
      UpToFirst(s, raw, p - 1);
    }
  }

  /** The next nonblank line of a coherent row would have broken a completed one. */
  lemma {:induction false} NotCompleted(s: Syntax, raw: seq<string>, p: nat)
    requires Coherent(s, raw) && 0 < p < |raw| - 1 && HasInk(s, raw[p]) && s.starts(s.text(raw[0]))
    ensures s.completes(s.text(raw[p])).None?
  {
    hide HasInk, InkBytes;
    var q := NextInk(s, raw, p + 1);
    BetweenInk(s, raw, p, q);
    assert raw[..p + 1][0] == raw[0];
  }

  lemma {:induction false} NextInk(s: Syntax, raw: seq<string>, p: nat) returns (q: nat)
    requires p < |raw| && HasInk(s, raw[|raw| - 1])
    ensures p <= q < |raw| && HasInk(s, raw[q]) && forall i :: p <= i < q ==> !HasInk(s, raw[i])
    decreases |raw| - p
  {
    hide HasInk;
    if HasInk(s, raw[p]) {
      q := p;
    } else {
      q := NextInk(s, raw, p + 1);
    }
  }

  lemma {:induction false} BetweenInk(s: Syntax, raw: seq<string>, p: nat, q: nat)
    requires p < q <= |raw| && HasInk(s, raw[p]) && forall i :: p < i < q ==> !HasInk(s, raw[i])
    ensures UpToInk(s, raw[..q]) == raw[..p + 1]
  {
    hide HasInk;
    if q > p + 1 {
      assert raw[..q][..q - 1] == raw[..q - 1];
      BetweenInk(s, raw, p, q - 1);
    }
  }
}
