/** Whole lines of a growing file, by byte offset. A line ends with its newline. */
module Lines {
  import opened Prelude

  /** The offset just after the first newline at or after `pos`; None while the line is partial. */
  function LineEnd(b: string, pos: nat): (end: Option<nat>)
    ensures end.Some? ==> pos < end.value <= |b| && b[end.value - 1] == '\n' && '\n' !in b[pos..end.value - 1]
    ensures end.None? && pos <= |b| ==> '\n' !in b[pos..]
    decreases |b| - pos
  {
    if pos >= |b| then None
    else if b[pos] == '\n' then Some(pos + 1)
    else LineEnd(b, pos + 1)
  }

  predicate EndsLine(c: char) {
    c == '\r' || c == '\n'
  }

  /** The line without its line ending, as Go's strings.TrimRight(line, "\r\n"). */
  function Chomp(line: string): string {
    if line != "" && EndsLine(line[|line| - 1]) then Chomp(line[..|line| - 1]) else line
  }

  /** Line feeds and carriage returns go from the end, all of them, and nothing else. */
  lemma {:induction false} ChompMeans(line: string)
    ensures
      var kept := Chomp(line);
      && kept <= line && (forall i :: |kept| <= i < |line| ==> line[i] as int == 10 || line[i] as int == 13)
      && (kept != "" ==> kept[|kept| - 1] as int != 10 && kept[|kept| - 1] as int != 13)
  {
    if line != "" && EndsLine(line[|line| - 1]) { ChompMeans(line[..|line| - 1]); }
  }

  /** An offset where a line starts. */
  predicate Boundary(b: string, pos: nat) {
    pos <= |b| && (pos == 0 || b[pos - 1] == '\n')
  }

  /** A whole line starts here. */
  predicate LineAt(b: string, pos: nat) {
    Boundary(b, pos) && LineEnd(b, pos).Some?
  }

  /** The text from an offset through the next newline: the line, if one starts there. */
  function LineText(b: string, pos: nat): string
    requires LineEnd(b, pos).Some?
  {
    b[pos..LineEnd(b, pos).value]
  }

  /** Where the next reads through a newline start, at most `n` of them. */
  function Starts(b: string, from: nat, n: nat): seq<nat>
    decreases n
  {
    if n == 0 || LineEnd(b, from).None? then []
    else [from] + Starts(b, LineEnd(b, from).value, n - 1)
  }

  /** The offset after those reads. */
  function After(b: string, from: nat, n: nat): (next: nat)
    ensures from <= next && (from < next || Boundary(b, from) ==> Boundary(b, next))
    decreases n
  {
    if n == 0 || LineEnd(b, from).None? then from
    else After(b, LineEnd(b, from).value, n - 1)
  }

  /** Bytes appended to a file never change a line that was whole. */
  lemma {:induction false} LineEndGrows(b: string, more: string, pos: nat)
    requires LineEnd(b, pos).Some?
    ensures LineEnd(b + more, pos) == LineEnd(b, pos)
    decreases |b| - pos
  {
    if b[pos] != '\n' { LineEndGrows(b, more, pos + 1); }
  }

  lemma LineGrows(b: string, more: string, pos: nat)
    requires LineEnd(b, pos).Some?
    ensures LineEnd(b + more, pos).Some? && LineText(b + more, pos) == LineText(b, pos)
    ensures Boundary(b + more, pos) <==> Boundary(b, pos)
  {
    LineEndGrows(b, more, pos);
  }

  /** A line start before the end of a file that only grew was a line start before. */
  lemma LineBefore(b: string, more: string, pos: nat, limit: nat)
    requires Boundary(b, limit) && pos < limit && LineAt(b + more, pos)
    ensures LineAt(b, pos) && LineText(b, pos) == LineText(b + more, pos)
  {
    assert b[pos..][limit - 1 - pos] == '\n';
    assert LineEnd(b, pos).Some?;
    LineEndGrows(b, more, pos);
  }

  /** The reads start where the first one does and at exactly the line starts they pass. */
  lemma {:induction false} StartsAreLines(b: string, from: nat, n: nat, pos: nat)
    ensures pos in Starts(b, from, n) <==>
      from <= pos < After(b, from, n) && LineEnd(b, pos).Some? && (pos == from || Boundary(b, pos))
    decreases n
  {
    if n > 0 && LineEnd(b, from).Some? {
      var end := LineEnd(b, from).value;
      StartsAreLines(b, end, n - 1, pos);
      if from < pos < end {
        assert b[pos - 1] == b[from..end - 1][pos - 1 - from];
      }
    }
  }
}
