/** Sums of multisets over the values of a finite map. */
module Bags {
  ghost function PickKey<K, V>(m: map<K, V>): (k: K)
    requires m != map[]
    ensures k in m
  {
    var k :| k in m;
    k
  }

  ghost function Sum<K, V>(m: map<K, multiset<V>>): multiset<V> {
    if m == map[] then multiset{}
    else
      var k := PickKey(m);
      m[k] + Sum(m - {k})
  }

  lemma {:induction false} SumTake<K, V>(m: map<K, multiset<V>>, k: K)
    requires k in m
    ensures Sum(m) == m[k] + Sum(m - {k})
    decreases |m|
  {
    var p := PickKey(m);
    if p != k {
      SumTake(m - {p}, k);
      SumTake(m - {k}, p);
      assert m - {p} - {k} == m - {k} - {p};
      var rest := Sum(m - {p} - {k});
      assert Sum(m) == m[p] + (m[k] + rest);
      assert m[k] + Sum(m - {k}) == m[k] + (m[p] + rest);
    }
  }

  function Restrict<K, V>(m: map<K, V>, ks: set<K>): map<K, V> {
    map k | k in m && k in ks :: m[k]
  }

  lemma {:induction false} SumSplit<K, V>(m: map<K, multiset<V>>, ks: set<K>)
    ensures Sum(m) == Sum(m - ks) + Sum(Restrict(m, ks))
    decreases |m|
  {
    if m == map[] {
      assert m - ks == m && Restrict(m, ks) == m;
    } else {
      var k := PickKey(m);
      SumSplit(m - {k}, ks);
      hide Sum;
      SumDrop(m, k);
      assert Restrict(m, ks) - {k} == Restrict(m - {k}, ks);
      if k in ks {
        SumDrop(Restrict(m, ks), k);
        assert m - {k} - ks == m - ks;
      } else {
        SumDrop(m - ks, k);
        assert m - {k} - ks == m - ks - {k};
        assert Restrict(m, ks) == Restrict(m - {k}, ks);
      }
      Regroup(m[k], Sum(m - {k} - ks), Sum(Restrict(m - {k}, ks)));
    }
  }

  lemma Regroup<V>(a: multiset<V>, x: multiset<V>, y: multiset<V>)
    ensures a + (x + y) == x + (a + y) && a + (x + y) == (a + x) + y
  {
  }

  lemma SumDrop<K, V>(m: map<K, multiset<V>>, k: K)
    ensures Sum(m) == (if k in m then m[k] else multiset{}) + Sum(m - {k})
  {
    if k in m {
      SumTake(m, k);
    } else {
      assert m - {k} == m;
    }
  }

  lemma SumPut<K, V>(m: map<K, multiset<V>>, k: K, bag: multiset<V>)
    requires k !in m
    ensures Sum(m[k := bag]) == bag + Sum(m)
  {
    SumTake(m[k := bag], k);
    assert m[k := bag] - {k} == m;
  }

  // ---------------------------------------------------------------- sums of numbers

  ghost function Total<K>(m: map<K, nat>): nat {
    if m == map[] then 0
    else
      var k := PickKey(m);
      m[k] + Total(m - {k})
  }

  lemma {:induction false} TotalTake<K>(m: map<K, nat>, k: K)
    requires k in m
    ensures Total(m) == m[k] + Total(m - {k})
    decreases |m|
  {
    var p := PickKey(m);
    if p != k {
      TotalTake(m - {p}, k);
      TotalTake(m - {k}, p);
      assert m - {p} - {k} == m - {k} - {p};
    }
  }

  lemma TotalPut<K>(m: map<K, nat>, k: K, n: nat)
    ensures Total(m[k := n]) + (if k in m then m[k] else 0) == Total(m) + n
  {
    TotalTake(m[k := n], k);
    assert m[k := n] - {k} == m - {k};
    if k in m {
      TotalTake(m, k);
    } else {
      assert m - {k} == m;
    }
  }

  lemma {:induction false} TotalSplit<K>(m: map<K, nat>, ks: set<K>)
    ensures Total(m) == Total(m - ks) + Total(Restrict(m, ks))
    decreases |m|
  {
    if m == map[] {
      assert m - ks == m && Restrict(m, ks) == m;
    } else {
      var k := PickKey(m);
      TotalSplit(m - {k}, ks);
      if k in ks {
        TotalTake(Restrict(m, ks), k);
        assert Restrict(m, ks) - {k} == Restrict(m - {k}, ks);
        assert m - {k} - ks == m - ks;
      } else {
        TotalTake(m - ks, k);
        assert m - {k} - ks == m - ks - {k};
        assert Restrict(m - {k}, ks) == Restrict(m, ks);
      }
    }
  }

  /** Smaller counts on fewer keys have a smaller total; equal totals leave no difference. */
  lemma {:induction false} TotalLe<K>(a: map<K, nat>, b: map<K, nat>)
    requires forall k :: k in a ==> k in b && a[k] <= b[k]
    ensures Total(a) <= Total(b)
    ensures Total(a) == Total(b) ==> forall k :: k in b ==> (if k in a then a[k] else 0) == b[k]
    decreases |b|
  {
    if b == map[] {
      assert a == b;
    } else {
      var k := PickKey(b);
      TotalLe(a - {k}, b - {k});
      if k in a {
        TotalTake(a, k);
      } else {
        assert a - {k} == a;
      }
      assert forall j :: j in b && j != k ==> j in b - {k} && (j in a <==> j in a - {k});
    }
  }

  lemma {:induction false} SubsetSize<T>(a: set<T>, b: set<T>)
    requires a <= b
    ensures |a| <= |b|
  {
    if a == {} {
    } else {
      var v :| v in a;
      SubsetSize(a - {v}, b - {v});
    }
  }

  ghost function RealTotal<K>(m: map<K, real>): real {
    if m == map[] then 0.0
    else
      var k := PickKey(m);
      m[k] + RealTotal(m - {k})
  }

  lemma {:induction false} RealTake<K>(m: map<K, real>, k: K)
    requires k in m
    ensures RealTotal(m) == m[k] + RealTotal(m - {k})
    decreases |m|
  {
    var p := PickKey(m);
    if p != k {
      RealTake(m - {p}, k);
      RealTake(m - {k}, p);
      assert m - {p} - {k} == m - {k} - {p};
    }
  }

  lemma RealPut<K>(m: map<K, real>, k: K, x: real)
    requires k !in m
    ensures RealTotal(m[k := x]) == RealTotal(m) + x
  {
    RealTake(m[k := x], k);
    assert m[k := x] - {k} == m;
  }

  ghost predicate IsSum<K>(m: map<K, nat>, a: map<K, nat>, b: map<K, nat>) {
    && m.Keys == a.Keys + b.Keys
    && forall k :: k in m ==> m[k] == (if k in a then a[k] else 0) + (if k in b then b[k] else 0)
  }

  lemma IsSumDrop<K>(m: map<K, nat>, a: map<K, nat>, b: map<K, nat>, k: K)
    requires IsSum(m, a, b)
    ensures IsSum(m - {k}, a - {k}, b - {k})
  {
    assert (m - {k}).Keys == (a - {k}).Keys + (b - {k}).Keys;
  }

  lemma NoSum<K>(a: map<K, nat>, b: map<K, nat>)
    requires IsSum(map[], a, b)
    ensures a == map[] && b == map[]
  {
    assert a.Keys == {} && b.Keys == {};
  }

  /** The total of a pointwise sum. */
  lemma {:induction false} TotalAdd<K>(m: map<K, nat>, a: map<K, nat>, b: map<K, nat>)
    requires IsSum(m, a, b)
    ensures Total(m) == Total(a) + Total(b)
    decreases |m|
  {
    if m == map[] {
      NoSum(a, b);
    } else {
      var k := PickKey(m);
      IsSumDrop(m, a, b, k);
      assert k in m && m[k] == (if k in a then a[k] else 0) + (if k in b then b[k] else 0);
      hide Total, IsSum;
      TotalAdd(m - {k}, a - {k}, b - {k});
      TotalDrop(m, k);
      TotalDrop(a, k);
      TotalDrop(b, k);
    }
  }

  lemma TotalDrop<K>(m: map<K, nat>, k: K)
    ensures Total(m) == (if k in m then m[k] else 0) + Total(m - {k})
  {
    if k in m {
      TotalTake(m, k);
    } else {
      assert m - {k} == m;
    }
  }

  lemma {:induction false} TotalZero<K>(m: map<K, nat>)
    requires forall k :: k in m ==> m[k] == 0
    ensures Total(m) == 0
  {
    if m == map[] {
    } else {
      TotalZero(m - {PickKey(m)});
    }
  }
}
