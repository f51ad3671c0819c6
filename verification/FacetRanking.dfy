/** The order and the cut of a facet answer: most frequent first, then by value, at most fifty. */
module FacetRanking {
  import opened Prelude
  import opened Facets
  import Sorting

  datatype Facet = Facet(answer: Answer, count: nat)

  const MAX_FACETS := 50

  /** More frequent, or as frequent and not behind by value. */
  predicate Leads(a: Facet, b: Facet) {
    a.count > b.count || (a.count == b.count && StrLe(a.answer.value, b.answer.value))
  }

  ghost predicate Ranked(list: seq<Facet>) {
    forall i, j :: 0 <= i < j < |list| ==> Leads(list[i], list[j])
  }

  /** The list is the counts, each once. */
  ghost predicate Holds(list: seq<Facet>, counts: map<Answer, nat>) {
    && (forall i :: 0 <= i < |list| ==> list[i].answer in counts && counts[list[i].answer] == list[i].count)
    && (forall i, j :: 0 <= i < j < |list| ==> list[i].answer != list[j].answer)
  }

  ghost predicate Names(list: seq<Facet>, a: Answer) {
    exists i :: 0 <= i < |list| && list[i].answer == a
  }

  /** The answers that lead all others, at most `max` of them, in order. */
  ghost predicate IsTop(list: seq<Facet>, counts: map<Answer, nat>, max: nat) {
    && Ranked(list) && Holds(list, counts)
    && |list| == (if |counts| < max then |counts| else max)
    && forall a, i :: a in counts && !Names(list, a) && 0 <= i < |list| ==> Leads(list[i], Facet(a, counts[a]))
  }

  /**
   The list a caller gets: at most fifty of the counted answers, each once with its count, the more
   frequent first and, at the same count, the earlier in the dictionary; every answer left out is
   no more frequent than any in the list, and at the same count none stands before it in the dictionary.
   */
  ghost predicate FirstFifty(list: seq<Facet>, counts: map<Answer, nat>) {
    && |list| <= 50 && |list| <= |counts| && (|list| == 50 || |list| == |counts|)
    && (forall i :: 0 <= i < |list| ==> list[i].answer in counts && counts[list[i].answer] == list[i].count)
    && (forall i, j :: 0 <= i < j < |list| ==> list[i].answer != list[j].answer)
    && (forall i, j :: 0 <= i < j < |list| ==>
         list[i].count > list[j].count ||
         (list[i].count == list[j].count && !Precedes(list[j].answer.value, list[i].answer.value)))
    && (forall a, i :: a in counts && (forall j :: 0 <= j < |list| ==> list[j].answer != a) && 0 <= i < |list| ==>
         list[i].count > counts[a] || (list[i].count == counts[a] && !Precedes(a.value, list[i].answer.value)))
  }

  lemma LeadsMeans(a: Facet, b: Facet)
    ensures Leads(a, b) <==> a.count > b.count || (a.count == b.count && !Precedes(b.answer.value, a.answer.value))
  {
    StrLtIff(b.answer.value, a.answer.value);
    StrLeTotal(a.answer.value, b.answer.value);
  }

  lemma LeftOut(list: seq<Facet>, counts: map<Answer, nat>, a: Answer, i: nat)
    requires IsTop(list, counts, MAX_FACETS) && a in counts && i < |list|
    requires forall j :: 0 <= j < |list| ==> list[j].answer != a
    ensures list[i].count > counts[a] || (list[i].count == counts[a] && !Precedes(a.value, list[i].answer.value))
  {
    hide Leads, Precedes, Ranked, Holds;
    assert !Names(list, a);
    LeadsMeans(list[i], Facet(a, counts[a]));
  }

  lemma InTurn(list: seq<Facet>, i: nat, j: nat)
    requires Ranked(list) && i < j < |list|
    ensures list[i].count > list[j].count || (list[i].count == list[j].count && !Precedes(list[j].answer.value, list[i].answer.value))
  {
    hide Leads, Precedes;
    LeadsMeans(list[i], list[j]);
  }

  lemma TopIsFirstFifty(list: seq<Facet>, counts: map<Answer, nat>)
    requires IsTop(list, counts, MAX_FACETS)
    ensures FirstFifty(list, counts)
  {
    hide Leads, Precedes, Ranked, Names;
    forall i, j | 0 <= i < j < |list|
      ensures list[i].count > list[j].count || (list[i].count == list[j].count && !Precedes(list[j].answer.value, list[i].answer.value))
    {
      InTurn(list, i, j);
    }
    forall a, i | a in counts && (forall j :: 0 <= j < |list| ==> list[j].answer != a) && 0 <= i < |list|
      ensures list[i].count > counts[a] || (list[i].count == counts[a] && !Precedes(a.value, list[i].answer.value))
    {
      LeftOut(list, counts, a, i);
    }
  }

  lemma LeadsTotal(a: Facet, b: Facet)
    ensures Leads(a, b) || Leads(b, a)
  {
    StrLeTotal(a.answer.value, b.answer.value);
  }

  lemma LeadsTransitive(a: Facet, b: Facet, c: Facet)
    requires Leads(a, b) && Leads(b, c)
    ensures Leads(a, c)
  {
    if a.count == b.count == c.count {
      StrLeTransitive(a.answer.value, b.answer.value, c.answer.value);
    }
  }

  /** Answers of the list differ, said without places. */
  ghost predicate Apart(list: seq<Facet>, counts: map<Answer, nat>) {
    && |list| == |counts|
    && (forall f :: f in list <==> f.answer in counts && counts[f.answer] == f.count)
  }

  /** As many places as answers, so no answer has two places. */
  lemma ApartHolds(list: seq<Facet>, counts: map<Answer, nat>)
    requires Apart(list, counts)
    ensures Holds(list, counts)
  {
    forall i | 0 <= i < |list|
      ensures list[i].answer in counts && counts[list[i].answer] == list[i].count
    {
      assert list[i] in list;
    }
    forall i, j | 0 <= i < j < |list|
      ensures list[i].answer != list[j].answer
    {
      assert list[i] in list && list[j] in list;
      if list[i].answer == list[j].answer {
        RepeatedShort(list, counts, i, j);
      }
    }
  }

  lemma RepeatedShort(list: seq<Facet>, counts: map<Answer, nat>, i: nat, j: nat)
    requires i < j < |list| && list[i] == list[j]
    requires forall f :: f in list <==> f.answer in counts && counts[f.answer] == f.count
    ensures |counts| < |list|
  {
    var rest := list[..j] + list[j + 1..];
    forall a | a in counts
      ensures Facet(a, counts[a]) in rest
    {
      var f := Facet(a, counts[a]);
      assert f in list;
      var k :| 0 <= k < |list| && list[k] == f;
      var place := if k < j then k else if k == j then i else k - 1;
      assert rest[place] == f;
    }
    AnswersFit(rest, counts.Keys);
  }

  /** Different answers need different places. */
  lemma {:induction false} AnswersFit(list: seq<Facet>, answers: set<Answer>)
    requires forall a :: a in answers ==> exists f :: f in list && f.answer == a
    ensures |answers| <= |list|
    decreases |list|
  {
    if list == [] {
      assert answers == {};
    } else {
      var last := list[|list| - 1].answer;
      assert list == list[..|list| - 1] + [list[|list| - 1]];
      AnswersFit(list[..|list| - 1], answers - {last});
      assert |answers| <= |answers - {last}| + 1 by {
        if last in answers { assert answers == answers - {last} + {last}; } else { assert answers == answers - {last}; }
      }
    }
  }

  /** The counts as a list, in whatever order the map yields them. */
  method ListCounts(counts: map<Answer, nat>) returns (list: seq<Facet>)
    ensures Apart(list, counts)
  {
    hide Apart;
    list := [];
    var rest := counts.Keys;
    ghost var done: map<Answer, nat> := map[];
    assert Apart(list, done) by { NothingApart(); }
    while rest != {}
      invariant rest <= counts.Keys && done == counts - rest
      invariant Apart(list, done)
      decreases |rest|
    {
      var a :| a in rest;
      ApartPut(list, done, a, counts[a]);
      list := list + [Facet(a, counts[a])];
      done := done[a := counts[a]];
      rest := rest - {a};
    }
    assert done == counts;
  }

  lemma NothingApart()
    ensures Apart([], map[])
  {
  }

  lemma ApartPut(list: seq<Facet>, counts: map<Answer, nat>, a: Answer, n: nat)
    requires Apart(list, counts) && a !in counts
    ensures Apart(list + [Facet(a, n)], counts[a := n])
  {
    assert counts[a := n].Keys == counts.Keys + {a};
    assert |counts[a := n]| == |counts| + 1;
  }

  lemma LeadsOrders()
    ensures Sorting.Orders((a: Facet, b: Facet) => Leads(a, b))
  {
    forall a, b ensures Leads(a, b) || Leads(b, a) { LeadsTotal(a, b); }
    forall a, b, c | Leads(a, b) && Leads(b, c) ensures Leads(a, c) { LeadsTransitive(a, b, c); }
  }

  /** The sort and the cut. */
  method Rank(counts: map<Answer, nat>) returns (top: seq<Facet>)
    ensures IsTop(top, counts, MAX_FACETS) && FirstFifty(top, counts)
  {
    hide Leads, IsTop, FirstFifty;
    var list := ListCounts(counts);
    var le := (a: Facet, b: Facet) => Leads(a, b);
    LeadsOrders();
    var sorted := Sorting.Sort(le, list);
    Sorting.SameMembers(sorted, list);
    assert Ranked(sorted) by {
      assert forall i, j :: 0 <= i < j < |sorted| ==> le(sorted[i], sorted[j]);
    }
    CutTop(sorted, counts, MAX_FACETS);
    top := if |sorted| > MAX_FACETS then sorted[..MAX_FACETS] else sorted;
    TopIsFirstFifty(top, counts);
  }

  lemma PlaceNames(list: seq<Facet>, n: nat, k: nat)
    requires n <= |list| && k < |list|
    ensures k < n ==> Names(list[..n], list[k].answer)
  {
    if k < n { assert list[..n][k] == list[k]; }
  }

  lemma CutTop(list: seq<Facet>, counts: map<Answer, nat>, max: nat)
    requires Ranked(list) && Apart(list, counts)
    ensures IsTop(if |list| > max then list[..max] else list, counts, max)
  {
    hide Leads;
    ApartHolds(list, counts);
    var top := if |list| > max then list[..max] else list;
    forall a, i | a in counts && !Names(top, a) && 0 <= i < |top|
      ensures Leads(top[i], Facet(a, counts[a]))
    {
      assert Facet(a, counts[a]) in list;
      var k :| 0 <= k < |list| && list[k] == Facet(a, counts[a]);
      PlaceNames(list, |top|, k);
      assert top[i] == list[i];
    }
  }

  /** Ties are open, nothing else: two tops of the same counts agree in count and value at every place. */
  lemma TopsAgree(a: seq<Facet>, b: seq<Facet>, counts: map<Answer, nat>, max: nat, i: nat)
    requires IsTop(a, counts, max) && IsTop(b, counts, max) && i < |a|
    ensures |a| == |b| && a[i].count == b[i].count && a[i].answer.value == b[i].answer.value
  {
    hide Leads;
    TopLeads(a, b, counts, max, i);
    TopLeads(b, a, counts, max, i);
    LeadsBoth(a[i], b[i]);
  }

  lemma LeadsBoth(x: Facet, y: Facet)
    requires Leads(x, y) && Leads(y, x)
    ensures x.count == y.count && x.answer.value == y.answer.value
  {
    StrLeTotal(x.answer.value, y.answer.value);
  }

  /** One of a's first entries is not among b's earlier ones, so it stands at place i or later there, or is missing. */
  lemma TopLeads(a: seq<Facet>, b: seq<Facet>, counts: map<Answer, nat>, max: nat, i: nat)
    requires IsTop(a, counts, max) && IsTop(b, counts, max) && i < |a|
    ensures i < |b| && Leads(b[i], a[i])
  {
    hide Leads, StrLe;
    var k := Newcomer(a, b, i);
    assert a[k].answer in counts && a[k] == Facet(a[k].answer, counts[a[k].answer]);
    if Names(b, a[k].answer) {
      var j :| 0 <= j < |b| && b[j].answer == a[k].answer;
      assert j >= i && b[j] == a[k];
      if j == i { LeadsSelf(b[i]); }
      assert Leads(b[i], a[k]);
    }
    assert Leads(b[i], a[k]);
    if k < i { LeadsTransitive(b[i], a[k], a[i]); }
  }

  lemma LeadsSelf(x: Facet)
    ensures Leads(x, x)
  {
    StrLeTotal(x.answer.value, x.answer.value);
  }

  function AnswersOf(a: seq<Facet>, n: nat): set<Answer>
    requires n <= |a|
  {
    set p | 0 <= p < n :: a[p].answer
  }

  /** If the first entries of a all stand among the first i of b, they have at most i answers. */
  lemma AllNamed(a: seq<Facet>, b: seq<Facet>, i: nat)
    requires i < |a| && i <= |b|
    requires forall p :: 0 <= p <= i ==> exists j :: 0 <= j < i && b[j].answer == a[p].answer
    ensures |AnswersOf(a, i + 1)| <= i
  {
    var answers := AnswersOf(a, i + 1);
    forall x | x in answers
      ensures exists f :: f in b[..i] && f.answer == x
    {
      var p :| 0 <= p <= i && a[p].answer == x;
      var j :| 0 <= j < i && b[j].answer == a[p].answer;
      assert b[..i][j] == b[j];
    }
    AnswersFit(b[..i], answers);
  }

  lemma Newcomer(a: seq<Facet>, b: seq<Facet>, i: nat) returns (k: nat)
    requires i < |a| && i <= |b|
    requires forall p, q :: 0 <= p < q < |a| ==> a[p].answer != a[q].answer
    ensures k <= i && forall j :: 0 <= j < i ==> b[j].answer != a[k].answer
  {
    PrefixSize(a, i + 1);
    if forall p :: 0 <= p <= i ==> exists j :: 0 <= j < i && b[j].answer == a[p].answer {
      AllNamed(a, b, i);
    }
    k :| k <= i && !(exists j :: 0 <= j < i && b[j].answer == a[k].answer);
  }

  lemma {:induction false} PrefixSize(a: seq<Facet>, n: nat)
    requires n <= |a| && forall p, q :: 0 <= p < q < |a| ==> a[p].answer != a[q].answer
    ensures |AnswersOf(a, n)| == n
  {
    if n == 0 {
    } else {
      PrefixSize(a, n - 1);
      assert AnswersOf(a, n) == AnswersOf(a, n - 1) + {a[n - 1].answer};
    }
  }
}
