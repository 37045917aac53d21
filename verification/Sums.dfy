/** Sums over finite maps, independent of the order in which the keys are visited. */
module Sums {
  ghost function Sum<K, V>(m: map<K, V>, f: (K, V) -> nat): nat
    decreases |m|
  {
    if m == map[] then 0
    else
      var k :| k in m;
      f(k, m[k]) + Sum(m - {k}, f)
  }

  lemma {:induction false} SumRemove<K, V>(m: map<K, V>, f: (K, V) -> nat, k: K)
    requires k in m
    ensures Sum(m, f) == f(k, m[k]) + Sum(m - {k}, f)
    decreases |m|
  {
    var first :| first in m && Sum(m, f) == f(first, m[first]) + Sum(m - {first}, f);
    if first != k {
      SumRemove(m - {first}, f, k);
      SumRemove(m - {k}, f, first);
      assert m - {first} - {k} == m - {k} - {first};
    }
  }

  lemma SumInsert<K, V>(m: map<K, V>, f: (K, V) -> nat, k: K, v: V)
    ensures Sum(m[k := v], f) == Sum(m - {k}, f) + f(k, v)
  {
    SumRemove(m[k := v], f, k);
    assert m[k := v] - {k} == m - {k};
  }

  lemma SumAbsent<K, V>(m: map<K, V>, f: (K, V) -> nat, k: K)
    requires k !in m
    ensures Sum(m - {k}, f) == Sum(m, f)
  {
    assert m - {k} == m;
  }

  lemma SizeRemove<K, V>(m: map<K, V>, k: K)
    requires k in m
    ensures |m - {k}| == |m| - 1
  {
    assert (m - {k}).Keys == m.Keys - {k};
    assert |m.Keys| == |m| && |(m - {k}).Keys| == |m - {k}|;
  }

  lemma SizeInsert<K, V>(m: map<K, V>, k: K, v: V)
    ensures |m[k := v]| == |m - {k}| + 1
  {
    SizeRemove(m[k := v], k);
    assert m[k := v] - {k} == m - {k};
  }

  lemma UnionRemove<K, V>(a: map<K, V>, b: map<K, V>, k: K)
    requires a.Keys !! b.Keys && k in a
    ensures (a + b) - {k} == (a - {k}) + b
    ensures k in a + b && (a + b)[k] == a[k]
    ensures (a - {k}).Keys !! b.Keys
  {
  }

  lemma {:induction false} SumUnion<K, V>(a: map<K, V>, b: map<K, V>, f: (K, V) -> nat)
    requires a.Keys !! b.Keys
    ensures Sum(a + b, f) == Sum(a, f) + Sum(b, f)
    decreases |a|
  {
    hide Sum;
    if a == map[] {
      assert a + b == b;
      SumEmpty<K, V>(f);
    } else {
      var k :| k in a;
      UnionRemove(a, b, k);
      SumRemove(a, f, k);
      SumRemove(a + b, f, k);
      SizeRemove(a, k);
      SumUnion(a - {k}, b, f);
    }
  }

  lemma SumEmpty<K, V>(f: (K, V) -> nat)
    ensures Sum(map[], f) == 0
  {
  }

  lemma SplitSubset<K, V>(a: map<K, V>, b: map<K, V>)
    requires a.Keys <= b.Keys && forall k :: k in a ==> a[k] == b[k]
    ensures b == a + (b - a.Keys)
  {
  }

  /** A table holding part of another sums to no more, and has no more keys. */
  lemma SumSubset<K, V>(a: map<K, V>, b: map<K, V>, f: (K, V) -> nat)
    requires a.Keys <= b.Keys && forall k :: k in a ==> a[k] == b[k]
    ensures Sum(a, f) <= Sum(b, f)
    ensures |a| <= |b|
  {
    hide Sum;
    var rest := b - a.Keys;
    SplitSubset(a, b);
    SumUnion(a, rest, f);
    SubsetSize(a.Keys, b.Keys);
    assert |a.Keys| == |a| && |b.Keys| == |b|;
  }

  lemma {:induction false} SubsetSize<K>(a: set<K>, b: set<K>)
    requires a <= b
    ensures |a| <= |b|
  {
    assert b == a + (b - a);
  }
}
