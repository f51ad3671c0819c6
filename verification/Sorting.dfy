/** Sorting by a total preorder; equal elements may come out in any order, as from an unstable sort. */
module Sorting {
  ghost predicate Orders<T(!new)>(le: (T, T) -> bool) {
    && (forall a, b :: le(a, b) || le(b, a))
    && (forall a, b, c :: le(a, b) && le(b, c) ==> le(a, c))
  }

  ghost predicate Sorted<T>(le: (T, T) -> bool, s: seq<T>) {
    forall i, j :: 0 <= i < j < |s| ==> le(s[i], s[j])
  }

  function Insert<T>(le: (T, T) -> bool, x: T, s: seq<T>): seq<T> {
    if s == [] || le(x, s[0]) then [x] + s else [s[0]] + Insert(le, x, s[1..])
  }

  lemma {:induction false} InsertBag<T>(le: (T, T) -> bool, x: T, s: seq<T>)
    ensures multiset(Insert(le, x, s)) == multiset(s) + multiset{x}
  {
    if s == [] || le(x, s[0]) {
    } else {
      InsertBag(le, x, s[1..]);
      assert s == [s[0]] + s[1..];
    }
  }

  lemma SortedPut<T>(le: (T, T) -> bool, first: T, rest: seq<T>)
    requires Sorted(le, rest) && forall x :: x in rest ==> le(first, x)
    ensures Sorted(le, [first] + rest)
  {
  }

  lemma {:induction false} InsertSorted<T(!new)>(le: (T, T) -> bool, x: T, s: seq<T>)
    requires Orders(le) && Sorted(le, s)
    ensures Sorted(le, Insert(le, x, s))
    ensures forall y :: y in Insert(le, x, s) ==> y == x || y in s
  {
    if s == [] || le(x, s[0]) {
      assert forall y :: y in s ==> y == s[0] || le(s[0], y);
      SortedPut(le, x, s);
    } else {
      InsertSorted(le, x, s[1..]);
      SortedPut(le, s[0], Insert(le, x, s[1..]));
    }
  }

  method Sort<T(!new)>(le: (T, T) -> bool, s: seq<T>) returns (r: seq<T>)
    requires Orders(le)
    ensures Sorted(le, r) && multiset(r) == multiset(s)
  {
    hide Orders, Sorted, Insert;
    r := [];
    assert Sorted(le, r) by { NothingSorted(le); }
    for i := 0 to |s|
      invariant Sorted(le, r) && multiset(r) == multiset(s[..i])
    {
      InsertSorted(le, s[i], r);
      InsertBag(le, s[i], r);
      assert s[..i + 1] == s[..i] + [s[i]];
      r := Insert(le, s[i], r);
    }
    assert s[..|s|] == s;
  }

  lemma NothingSorted<T>(le: (T, T) -> bool)
    ensures Sorted(le, [])
  {
  }

  /** A permutation has the same members and the same length. */
  lemma SameMembers<T>(a: seq<T>, b: seq<T>)
    requires multiset(a) == multiset(b)
    ensures |a| == |b| && forall x :: x in a <==> x in b
  {
    assert |multiset(a)| == |a| && |multiset(b)| == |b|;
    assert forall x :: x in a <==> x in multiset(a);
    assert forall x :: x in b <==> x in multiset(b);
  }
}
