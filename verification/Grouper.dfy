/** Folding the physical lines of a log into rows. */
module Grouper {
  import opened Prelude
  import opened Trimming

  /**
   What a line looks like: its request id and its text without colors and tag, whether that text
   starts a Rails request, and the status class when it completes one.
   */
  datatype Syntax = Syntax(
    id: string -> string,
    text: string -> string,
    starts: string -> bool,
    completes: string -> Option<char>)

  const MAX_LINES: nat := 1000
  const MAX_BYTES: nat := 256 * 1024

  /** A finished row: its lines as written, their texts, and a level when its request graded it. */
  datatype Entry = Entry(raw: seq<string>, text: seq<string>, level: string)

  datatype State = State(
    entries: seq<Entry>, raw: seq<string>, text: seq<string>, size: nat, id: string, rails: bool, level: string, blanks: nat)

  const EMPTY: State := State([], [], [], 0, "", false, "", 0)

  predicate Open(g: State) {
    |g.raw| > 0
  }

  predicate Blank(s: Syntax, line: string) {
    Trim(s.text(line)) == ""
  }

  function Repeat(n: nat): seq<string> {
    seq(n, _ => "")
  }

  function Flush(g: State): State {
    if !Open(g) then g else State(g.entries + [Entry(g.raw, g.text, g.level)], [], [], 0, "", false, "", 0)
  }

  /** Blank lines survive only between two lines of the same row. */
  function Push(s: Syntax, g: State, line: string): State {
    g.(raw := g.raw + Repeat(g.blanks) + [line], text := g.text + Repeat(g.blanks) + [s.text(line)],
       size := g.size + |line|, blanks := 0)
  }

  predicate Joins(s: Syntax, g: State, line: string) {
    var text := s.text(line);
    && s.id(line) == g.id && |g.raw| < MAX_LINES && g.size + |line| <= MAX_BYTES
    && if g.rails then !s.starts(text) else text != "" && (text[0] == ' ' || text[0] == '\t')
  }

  function Grade(level: string, class_: char): string {
    if class_ == '5' then "error" else if class_ == '4' then "warn" else level
  }

  function Complete(s: Syntax, g: State, line: string): State {
    var done := s.completes(s.text(line));
    if done.None? then g else Flush(g.(level := Grade(g.level, done.value)))
  }

  /** The next line; the flag says whether it opened a row. */
  function Add(s: Syntax, g: State, line: string): (State, bool) {
    if Blank(s, line) then (if Open(g) then g.(blanks := g.blanks + 1) else g, false)
    else if Open(g) && Joins(s, g, line) then
      var pushed := Push(s, g, line);
      (if g.rails then Complete(s, pushed, line) else pushed, false)
    else
      (Push(s, Flush(g).(id := s.id(line), rails := s.starts(s.text(line))), line), true)
  }

  function Run(s: Syntax, g: State, lines: seq<string>): State {
    if lines == [] then g else Add(s, Run(s, g, lines[..|lines| - 1]), lines[|lines| - 1]).0
  }

  // ---------------------------------------------------------------- the imperative form

  class LineGrouper {
    const syntax: Syntax
    var entries: seq<Entry>
    var raw: seq<string>
    var text: seq<string>
    var size: nat
    var id: string
    var rails: bool
    var level: string
    var blanks: nat

    function Value(): State
      reads this
    {
      State(entries, raw, text, size, id, rails, level, blanks)
    }

    constructor (s: Syntax)
      ensures Value() == EMPTY && syntax == s
    {
      syntax := s;
      entries, raw, text, size, id, rails, level, blanks := [], [], [], 0, "", false, "", 0;
    }

    method FlushRow()
      modifies this
      ensures Value() == Flush(old(Value()))
    {
      if |raw| == 0 { return; }
      entries := entries + [Entry(raw, text, level)];
      raw, text, size, id, rails, level, blanks := [], [], 0, "", false, "", 0;
    }

    method PushLine(line: string)
      modifies this
      ensures Value() == Push(syntax, old(Value()), line)
    {
      ghost var n := blanks;
      while blanks > 0
        invariant blanks <= n
        invariant raw == old(raw) + Repeat(n - blanks) && text == old(text) + Repeat(n - blanks)
        invariant entries == old(entries) && size == old(size) && id == old(id) && rails == old(rails) && level == old(level)
        decreases blanks
      {
        assert Repeat(n - blanks) + [""] == Repeat(n - blanks + 1);
        raw, text := raw + [""], text + [""];
        blanks := blanks - 1;
      }
      raw, text := raw + [line], text + [syntax.text(line)];
      size := size + |line|;
    }

    method CompleteRow(line: string)
      modifies this
      ensures Value() == Complete(syntax, old(Value()), line)
    {
      var done := syntax.completes(syntax.text(line));
      if done.None? { return; }
      if done.value == '5' {
        level := "error";
      } else if done.value == '4' {
        level := "warn";
      }
      FlushRow();
    }

    method AddLine(line: string) returns (isNew: bool)
      modifies this
      ensures (Value(), isNew) == Add(syntax, old(Value()), line)
    {
      if Blank(syntax, line) {
        if |raw| > 0 { blanks := blanks + 1; }
        return false;
      }
      if |raw| > 0 && Joins(syntax, Value(), line) {
        var wasRails := rails;
        PushLine(line);
        if wasRails { CompleteRow(line); }
        return false;
      }
      FlushRow();
      id, rails := syntax.id(line), syntax.starts(syntax.text(line));
      PushLine(line);
      isNew := true;
    }
  }

  // ---------------------------------------------------------------- lines are conserved

  /** An empty line is blank: it has no tag and no colors. */
  ghost predicate Lawful(s: Syntax) {
    Blank(s, "")
  }

  function Kept(s: Syntax, lines: seq<string>): seq<string> {
    if lines == [] then []
    else Kept(s, lines[..|lines| - 1]) + if Blank(s, lines[|lines| - 1]) then [] else [lines[|lines| - 1]]
  }

  function RawLines(entries: seq<Entry>): seq<string> {
    if entries == [] then [] else RawLines(entries[..|entries| - 1]) + entries[|entries| - 1].raw
  }

  lemma {:induction false} KeptAppend(s: Syntax, a: seq<string>, b: seq<string>)
    ensures Kept(s, a + b) == Kept(s, a) + Kept(s, b)
  {
    hide Blank;
    if b == [] {
      assert a + b == a;
    } else {
      assert (a + b)[..|a + b| - 1] == a + b[..|b| - 1];
      KeptAppend(s, a, b[..|b| - 1]);
    }
  }

  lemma {:induction false} KeptBlanks(s: Syntax, n: nat)
    requires Lawful(s)
    ensures Kept(s, Repeat(n)) == []
  {
    hide Blank;
    if n > 0 {
      assert Repeat(n)[..n - 1] == Repeat(n - 1);
      KeptBlanks(s, n - 1);
    }
  }

  lemma KeptOne(s: Syntax, line: string)
    ensures Kept(s, [line]) == if Blank(s, line) then [] else [line]
  {
    assert [line][..0] == [];
  }

  lemma PushKeeps(s: Syntax, g: State, line: string)
    requires Lawful(s) && !Blank(s, line)
    ensures Kept(s, Push(s, g, line).raw) == Kept(s, g.raw) + [line]
  {
    hide Blank, Kept, Repeat;
    KeptAppend(s, g.raw + Repeat(g.blanks), [line]);
    KeptAppend(s, g.raw, Repeat(g.blanks));
    KeptBlanks(s, g.blanks);
    KeptOne(s, line);
  }

  /** The nonblank lines in the emitted rows and the open row. */
  function Held(s: Syntax, g: State): seq<string> {
    Kept(s, RawLines(g.entries)) + Kept(s, g.raw)
  }

  lemma FlushHeld(s: Syntax, g: State)
    ensures Held(s, Flush(g)) == Held(s, g) && !Open(Flush(g))
  {
    if Open(g) {
      hide Kept;
      var e := Entry(g.raw, g.text, g.level);
      assert (g.entries + [e])[..|g.entries|] == g.entries;
      KeptAppend(s, RawLines(g.entries), g.raw);
      KeptNone(s);
    }
  }

  lemma KeptNone(s: Syntax)
    ensures Kept(s, []) == []
  {
  }

  lemma AddHeld(s: Syntax, g: State, line: string)
    requires Lawful(s)
    ensures Held(s, Add(s, g, line).0) == Held(s, g) + if Blank(s, line) then [] else [line]
  {
    hide Blank, Joins, Kept, Push, Flush, Held;
    if !Blank(s, line) {
      if Open(g) && Joins(s, g, line) {
        PushHeld(s, g, line);
        var pushed := Push(s, g, line);
        if g.rails {
          CompleteHeld(s, pushed, line);
        }
      } else {
        FlushHeld(s, g);
        PushHeld(s, Flush(g).(id := s.id(line), rails := s.starts(s.text(line))), line);
        SameHeld(s, Flush(g), Flush(g).(id := s.id(line), rails := s.starts(s.text(line))));
      }
    } else {
      SameHeld(s, g, g.(blanks := g.blanks + 1));
    }
  }

  lemma SameHeld(s: Syntax, g: State, h: State)
    requires g.entries == h.entries && g.raw == h.raw
    ensures Held(s, g) == Held(s, h)
  {
  }

  lemma PushHeld(s: Syntax, g: State, line: string)
    requires Lawful(s) && !Blank(s, line)
    ensures Held(s, Push(s, g, line)) == Held(s, g) + [line]
  {
    hide Blank, Kept;
    PushKeeps(s, g, line);
  }

  lemma CompleteHeld(s: Syntax, g: State, line: string)
    ensures Held(s, Complete(s, g, line)) == Held(s, g)
  {
    hide Flush, Held;
    var done := s.completes(s.text(line));
    if done.Some? {
      var graded := g.(level := Grade(g.level, done.value));
      FlushHeld(s, graded);
      SameHeld(s, g, graded);
    }
  }

  /** For every input the emitted rows and the open row hold exactly its nonblank lines, in order. */
  lemma {:induction false} LinesConserved(s: Syntax, lines: seq<string>)
    requires Lawful(s)
    ensures Held(s, Run(s, EMPTY, lines)) == Kept(s, lines)
  {
    hide Blank, Add;
    if lines != [] {
      LinesConserved(s, lines[..|lines| - 1]);
      AddHeld(s, Run(s, EMPTY, lines[..|lines| - 1]), lines[|lines| - 1]);
    }
  }

  // ---------------------------------------------------------------- what a row may hold

  function Bytes(lines: seq<string>): nat {
    if lines == [] then 0 else Bytes(lines[..|lines| - 1]) + |lines[|lines| - 1]|
  }

  /** One request id; at most 1000 nonblank lines, and of them at most 256 KiB unless it is a single line. */
  ghost predicate RowOk(s: Syntax, raw: seq<string>, text: seq<string>, id: string) {
    && raw != [] && !Blank(s, raw[0]) && !Blank(s, raw[|raw| - 1])
    && |text| == |raw|
    && (forall i :: 0 <= i < |raw| ==> if Blank(s, raw[i]) then raw[i] == "" && text[i] == "" else s.id(raw[i]) == id && text[i] == s.text(raw[i]))
    && |Kept(s, raw)| <= 1000
    && (Bytes(Kept(s, raw)) <= 262_144 || |Kept(s, raw)| == 1)
  }

  ghost predicate EntryOk(s: Syntax, e: Entry) {
    exists id :: RowOk(s, e.raw, e.text, id)
  }

  ghost predicate GroupOk(s: Syntax, g: State) {
    && (forall e :: e in g.entries ==> EntryOk(s, e))
    && (if Open(g) then RowOk(s, g.raw, g.text, g.id) && g.size == Bytes(Kept(s, g.raw))
        else g == EMPTY.(entries := g.entries))
  }

  lemma BytesAppend(lines: seq<string>, line: string)
    ensures Bytes(lines + [line]) == Bytes(lines) + |line|
  {
    assert (lines + [line])[..|lines|] == lines;
  }

  lemma {:induction false} KeptLength(s: Syntax, lines: seq<string>)
    ensures |Kept(s, lines)| <= |lines|
  {
    if lines == [] {
    } else {
      KeptLength(s, lines[..|lines| - 1]);
    }
  }

  /** A line that joins keeps its row within the limits. */
  lemma JoinOk(s: Syntax, g: State, line: string)
    requires Lawful(s) && RowOk(s, g.raw, g.text, g.id) && g.size == Bytes(Kept(s, g.raw))
    requires !Blank(s, line) && Joins(s, g, line)
    ensures
      var p := Push(s, g, line);
      RowOk(s, p.raw, p.text, g.id) && p.size == Bytes(Kept(s, p.raw))
  {
    hide Blank, Kept, Bytes;
    PushKeeps(s, g, line);
    KeptLength(s, g.raw);
    BytesAppend(Kept(s, g.raw), line);
  }

  /** A line that opens a row is within the limits alone. */
  lemma OpenOk(s: Syntax, g: State, line: string)
    requires Lawful(s) && !Blank(s, line) && g == EMPTY.(entries := g.entries, id := g.id, rails := g.rails) && g.id == s.id(line)
    ensures
      var p := Push(s, g, line);
      p.raw == [line] && RowOk(s, p.raw, p.text, p.id) && p.size == Bytes(Kept(s, p.raw))
  {
    hide Blank, Bytes;
    assert Repeat(0) == [];
    KeptOne(s, line);
    BytesAppend([], line);
    NoBytes();
  }

  lemma NoBytes()
    ensures Bytes([]) == 0
  {
  }

  lemma FlushOk(s: Syntax, g: State)
    requires GroupOk(s, g)
    ensures GroupOk(s, Flush(g)) && !Open(Flush(g))
  {
    hide RowOk;
    if Open(g) { assert EntryOk(s, Entry(g.raw, g.text, g.level)); }
  }

  lemma AddOk(s: Syntax, g: State, line: string)
    requires Lawful(s) && GroupOk(s, g)
    ensures GroupOk(s, Add(s, g, line).0)
  {
    hide Blank, Joins, RowOk, EntryOk, Push, Bytes, Kept, Lawful;
    if Blank(s, line) {
    } else if Open(g) && Joins(s, g, line) {
      JoinOk(s, g, line);
      PushFrame(s, g, line);
      var p := Push(s, g, line);
      assert GroupOk(s, p);
      if g.rails { CompleteOk(s, p, line); }
    } else {
      FlushOk(s, g);
      var f := Flush(g).(id := s.id(line), rails := s.starts(s.text(line)));
      OpenOk(s, f, line);
      PushFrame(s, f, line);
    }
  }

  lemma PushFrame(s: Syntax, g: State, line: string)
    ensures var p := Push(s, g, line); p.entries == g.entries && p.id == g.id && p.rails == g.rails && Open(p)
  {
  }

  lemma CompleteOk(s: Syntax, g: State, line: string)
    requires GroupOk(s, g) && Open(g)
    ensures GroupOk(s, Complete(s, g, line))
  {
    hide RowOk, EntryOk;
    var done := s.completes(s.text(line));
    if done.Some? { FlushOk(s, g.(level := Grade(g.level, done.value))); }
  }

  /** Every row of every input carries one request id and stays within the limits. */
  lemma {:induction false} RowsWithinLimits(s: Syntax, lines: seq<string>)
    requires Lawful(s)
    ensures GroupOk(s, Run(s, EMPTY, lines))
  {
    hide GroupOk, Add, Lawful;
    if lines == [] {
      EmptyOk(s);
    } else {
      RowsWithinLimits(s, lines[..|lines| - 1]);
      AddOk(s, Run(s, EMPTY, lines[..|lines| - 1]), lines[|lines| - 1]);
    }
  }

  lemma EmptyOk(s: Syntax)
    ensures GroupOk(s, EMPTY)
  {
  }
}
