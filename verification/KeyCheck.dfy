/** The suggestion for a misspelt config key: the two-row edit distance and the closest candidate. */
module KeyCheck {
  newtype Byte = x: int | 0 <= x < 256

  type Bytes = seq<Byte>

  function Min(a: nat, b: nat): nat {
    if a < b then a else b
  }

  function Front(s: Bytes): Bytes
    requires s != []
  {
    s[..|s| - 1]
  }

  function Last(s: Bytes): Byte
    requires s != []
  {
    s[|s| - 1]
  }

  /** The recursive Levenshtein distance. */
  function Distance(a: Bytes, b: Bytes): nat
    decreases |a| + |b|
  {
    if a == [] then |b|
    else if b == [] then |a|
    else
      Min(Min(Distance(Front(a), b) + 1, Distance(a, Front(b)) + 1),
          Distance(Front(a), Front(b)) + if Last(a) == Last(b) then 0 else 1)
  }

  lemma DistanceStep(a: Bytes, b: Bytes, i: nat, j: nat)
    requires i < |a| && j < |b|
    ensures Distance(a[..i + 1], b[..j + 1]) ==
      Min(Min(Distance(a[..i], b[..j + 1]) + 1, Distance(a[..i + 1], b[..j]) + 1),
          Distance(a[..i], b[..j]) + if a[i] == b[j] then 0 else 1)
  {
    assert Front(a[..i + 1]) == a[..i] && Front(b[..j + 1]) == b[..j];
  }

  /** A row of the table: the distances of a prefix of a to the first prefixes of b. */
  ghost predicate Row(row: array<nat>, a: Bytes, b: Bytes, upTo: nat)
    reads row
  {
    upTo <= |b| + 1 <= row.Length && forall j :: 0 <= j < upTo ==> row[j] == Distance(a, b[..j])
  }

  method EditDistance(a: Bytes, b: Bytes) returns (d: nat)
    ensures d == Distance(a, b)
  {
    hide Distance;
    var previous := new nat[|b| + 1](j => j);
    var current := new nat[|b| + 1](j => 0);
    EmptyRow(b);
    assert a[..0] == [];
    for i := 0 to |a|
      invariant previous.Length == |b| + 1 && current.Length == |b| + 1 && previous != current
      invariant fresh(previous) && fresh(current)
      invariant Row(previous, a[..i], b, |b| + 1)
    {
      current[0] := i + 1;
      FirstColumn(a[..i + 1], b);
      for j := 0 to |b|
        invariant Row(previous, a[..i], b, |b| + 1) && Row(current, a[..i + 1], b, j + 1)
      {
        DistanceStep(a, b, i, j);
        var cost := if a[i] == b[j] then 0 else 1;
        current[j + 1] := Min(Min(previous[j + 1] + 1, current[j] + 1), previous[j] + cost);
      }
      previous, current := current, previous;
    }
    assert a[..|a|] == a && b[..|b|] == b;
    d := previous[|b|];
  }

  lemma EmptyRow(b: Bytes)
    ensures forall j :: 0 <= j <= |b| ==> Distance([], b[..j]) == j
  {
  }

  lemma FirstColumn(a: Bytes, b: Bytes)
    ensures Distance(a, b[..0]) == |a|
  {
  }

  // ---------------------------------------------------------------- edits

  /** A single-byte edit at a position. */
  datatype Edit = Insert(at: nat, c: Byte) | Delete(at: nat) | Substitute(at: nat, c: Byte)

  predicate Fits(s: Bytes, e: Edit) {
    if e.Insert? then e.at <= |s| else e.at < |s|
  }

  function Apply(s: Bytes, e: Edit): Bytes
    requires Fits(s, e)
  {
    match e
    case Insert(at, c) => s[..at] + [c] + s[at..]
    case Delete(at) => s[..at] + s[at + 1..]
    case Substitute(at, c) => s[..at] + [c] + s[at + 1..]
  }

  /** The edits turn a into b, one after the other. */
  ghost predicate Turns(a: Bytes, edits: seq<Edit>, b: Bytes)
    decreases |edits|
  {
    if edits == [] then a == b else Fits(a, edits[0]) && Turns(Apply(a, edits[0]), edits[1..], b)
  }

  lemma {:induction false} TurnsAppend(a: Bytes, first: seq<Edit>, b: Bytes, more: seq<Edit>, c: Bytes)
    requires Turns(a, first, b) && Turns(b, more, c)
    ensures Turns(a, first + more, c)
    decreases |first|
  {
    hide Apply, Fits;
    if first == [] {
      assert first + more == more;
    } else {
      assert (first + more)[1..] == first[1..] + more;
      TurnsAppend(Apply(a, first[0]), first[1..], b, more, c);
    }
  }

  lemma ApplyUnder(a: Bytes, e: Edit, z: Byte)
    requires Fits(a, e)
    ensures Fits(a + [z], e) && Apply(a + [z], e) == Apply(a, e) + [z]
  {
  }

  /** Edits of a prefix leave a common last byte alone. */
  lemma {:induction false} TurnsUnder(a: Bytes, edits: seq<Edit>, b: Bytes, z: Byte)
    requires Turns(a, edits, b)
    ensures Turns(a + [z], edits, b + [z])
    decreases |edits|
  {
    if edits == [] {
    } else {
      hide Apply, Fits;
      ApplyUnder(a, edits[0], z);
      TurnsUnder(Apply(a, edits[0]), edits[1..], b, z);
    }
  }

  lemma OneEdit(a: Bytes, e: Edit, b: Bytes)
    requires Fits(a, e) && Apply(a, e) == b
    ensures Turns(a, [e], b)
  {
    assert [e][1..] == [];
  }

  lemma EndInsert(a: Bytes, edits: seq<Edit>, b: Bytes)
    requires b != [] && Turns(a, edits, Front(b))
    ensures Turns(a, edits + [Insert(|b| - 1, Last(b))], b)
  {
    hide Turns;
    var e := Insert(|b| - 1, Last(b));
    OneEdit(Front(b), e, b);
    TurnsAppend(a, edits, Front(b), [e], b);
  }

  lemma StartDelete(a: Bytes, edits: seq<Edit>, b: Bytes)
    requires a != [] && Turns(Front(a), edits, b)
    ensures Turns(a, [Delete(|a| - 1)] + edits, b)
  {
    hide Turns;
    var e := Delete(|a| - 1);
    OneEdit(a, e, Front(a));
    TurnsAppend(a, [e], Front(a), edits, b);
  }

  lemma EndChange(a: Bytes, edits: seq<Edit>, b: Bytes)
    requires a != [] && b != [] && Turns(Front(a), edits, Front(b))
    ensures Turns(a, if Last(a) == Last(b) then edits else edits + [Substitute(|b| - 1, Last(b))], b)
  {
    hide Turns;
    TurnsUnder(Front(a), edits, Front(b), Last(a));
    assert Front(a) + [Last(a)] == a && Front(b) + [Last(b)] == b;
    if Last(a) != Last(b) {
      var e := Substitute(|b| - 1, Last(b));
      OneEdit(Front(b) + [Last(a)], e, b);
      TurnsAppend(a, edits, Front(b) + [Last(a)], [e], b);
    }
  }

  /** As many edits as the distance are enough. */
  lemma {:induction false} Enough(a: Bytes, b: Bytes) returns (edits: seq<Edit>)
    ensures |edits| == Distance(a, b) && Turns(a, edits, b)
    decreases |a| + |b|
  {
    if a == [] && b == [] {
      edits := [];
    } else if a == [] || (b != [] && Distance(a, b) == Distance(a, Front(b)) + 1) {
      edits := Enough(a, Front(b));
      EndInsert(a, edits, b);
      edits := edits + [Insert(|b| - 1, Last(b))];
    } else if b == [] || Distance(a, b) == Distance(Front(a), b) + 1 {
      edits := Enough(Front(a), b);
      StartDelete(a, edits, b);
      edits := [Delete(|a| - 1)] + edits;
    } else {
      edits := Enough(Front(a), Front(b));
      EndChange(a, edits, b);
      edits := if Last(a) == Last(b) then edits else edits + [Substitute(|b| - 1, Last(b))];
    }
  }

  /** p is at most one step further from a than q is. */
  predicate Near(a: Bytes, p: Bytes, q: Bytes) {
    Distance(a, p) <= Distance(a, q) + 1
  }

  /** A common last byte keeps two neighbours near. */
  lemma NearUnder(a: Bytes, p: Bytes, q: Bytes, z: Byte)
    requires Near(a, p, q)
    requires a != [] ==> Near(Front(a), p + [z], q + [z]) && Near(Front(a), p, q)
    ensures Near(a, p + [z], q + [z])
  {
    assert Front(p + [z]) == p && Front(q + [z]) == q;
  }

  lemma Longer(a: Bytes, x: Bytes, c: Byte)
    ensures Near(a, x + [c], x)
    ensures a != [] ==> Distance(a, x) <= Distance(Front(a), x) + 1
  {
    assert Front(x + [c]) == x;
  }

  lemma {:induction false} Shorter(a: Bytes, x: Bytes, c: Byte)
    ensures Near(a, x, x + [c])
  {
    assert Front(x + [c]) == x;
    if a != [] {
      Shorter(Front(a), x, c);
      Longer(a, x, c);
    }
  }

  lemma {:induction false} Other(a: Bytes, x: Bytes, c: Byte, d: Byte)
    ensures Near(a, x + [d], x + [c])
  {
    assert Front(x + [c]) == x && Front(x + [d]) == x;
    if a != [] {
      Other(Front(a), x, c, d);
      Longer(a, x, d);
    }
  }

  /** An edit at the end. */
  predicate AtEnd(s: Bytes, e: Edit) {
    if e.Insert? then e.at == |s| else e.at == |s| - 1
  }

  lemma NearAtEnd(a: Bytes, s: Bytes, e: Edit)
    requires Fits(s, e) && AtEnd(s, e)
    ensures Near(a, Apply(s, e), s)
  {
    hide Distance, Near;
    if e.Insert? {
      Longer(a, s, e.c);
      assert Apply(s, e) == s + [e.c];
    } else {
      assert s == Front(s) + [Last(s)];
      if e.Delete? {
        Shorter(a, Front(s), Last(s));
        assert Apply(s, e) == Front(s);
      } else {
        Other(a, Front(s), Last(s), e.c);
        assert Apply(s, e) == Front(s) + [e.c];
      }
    }
  }

  lemma ApplyBefore(s: Bytes, e: Edit)
    requires Fits(s, e) && !AtEnd(s, e)
    ensures s != [] && Fits(Front(s), e) && Apply(s, e) == Apply(Front(s), e) + [Last(s)] && s == Front(s) + [Last(s)]
  {
  }

  /** One edit changes the distance to any string by at most one. */
  lemma {:induction false} NearEdit(a: Bytes, s: Bytes, e: Edit)
    requires Fits(s, e)
    ensures Near(a, Apply(s, e), s)
    decreases |a| + |s|
  {
    if AtEnd(s, e) {
      NearAtEnd(a, s, e);
    } else {
      ApplyBefore(s, e);
      hide Distance, Near, Apply, Fits, AtEnd;
      NearEdit(a, Front(s), e);
      if a != [] {
        NearEdit(Front(a), s, e);
        NearEdit(Front(a), Front(s), e);
      }
      NearUnder(a, Apply(Front(s), e), Front(s), Last(s));
    }
  }

  lemma {:induction false} SameDistance(a: Bytes)
    ensures Distance(a, a) == 0
  {
    if a == [] {
    } else {
      SameDistance(Front(a));
    }
  }

  /** No fewer edits turn a into b, seen from any string they start near. */
  lemma {:induction false} EditsBound(from: Bytes, a: Bytes, edits: seq<Edit>, b: Bytes)
    requires Turns(a, edits, b)
    ensures Distance(from, b) <= Distance(from, a) + |edits|
    decreases |edits|
  {
    hide Distance, Apply;
    if edits != [] {
      NearEdit(from, a, edits[0]);
      EditsBound(from, Apply(a, edits[0]), edits[1..], b);
    }
  }

  /** The distance is the least number of single-byte inserts, deletes and substitutions turning a into b. */
  lemma DistanceIsLeast(a: Bytes, b: Bytes)
    ensures exists edits :: Turns(a, edits, b) && |edits| == Distance(a, b)
    ensures forall edits :: Turns(a, edits, b) ==> |edits| >= Distance(a, b)
  {
    hide Distance, Turns;
    var least := Enough(a, b);
    SameDistance(a);
    forall edits | Turns(a, edits, b)
      ensures |edits| >= Distance(a, b)
    {
      EditsBound(a, a, edits, b);
    }
  }

  // ---------------------------------------------------------------- the suggestion

  const NEAR: nat := 3

  /** The first candidate of least distance, when that is under three. */
  ghost predicate First(value: Bytes, candidates: seq<Bytes>, k: nat) {
    && k < |candidates| && Distance(value, candidates[k]) < 3
    && forall j :: 0 <= j < |candidates| ==>
      Distance(value, candidates[j]) >= Distance(value, candidates[k]) && (j < k ==> Distance(value, candidates[j]) > Distance(value, candidates[k]))
  }

  method Closest(value: Bytes, candidates: seq<Bytes>) returns (best: Bytes)
    ensures (exists k: nat :: First(value, candidates, k) && best == candidates[k])
      || (best == [] && forall j :: 0 <= j < |candidates| ==> Distance(value, candidates[j]) >= 3)
  {
    hide Distance;
    best := [];
    var bestDistance := NEAR;
    ghost var k: int := -1;
    for i := 0 to |candidates|
      invariant -1 <= k < i
      invariant k == -1 ==> best == [] && bestDistance == NEAR
      invariant k >= 0 ==> best == candidates[k] && bestDistance == Distance(value, candidates[k]) < NEAR
      invariant forall j :: 0 <= j < i ==> Distance(value, candidates[j]) >= bestDistance && (j < k ==> Distance(value, candidates[j]) > bestDistance)
    {
      var distance := EditDistance(value, candidates[i]);
      if distance < bestDistance {
        best, bestDistance := candidates[i], distance;
        k := i;
      }
    }
    if k >= 0 {
      assert First(value, candidates, k);
    }
  }
}
