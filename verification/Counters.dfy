/** Counters keyed by name or value: a missing key counts zero. */
module Counters {

  type Counter<!K> = map<K, int>

  function Get<K>(m: Counter<K>, k: K): int {
    if k in m then m[k] else 0
  }

  function Add<K>(m: Counter<K>, k: K, d: int): Counter<K> {
    m[k := Get(m, k) + d]
  }

  lemma Member<T>(s: set<T>) returns (x: T)
    requires s != {}
    ensures x in s
  {
    x :| x in s;
  }

  lemma Cancel<T>(a: multiset<T>, b: multiset<T>, x: T)
    requires a + multiset{x} == b + multiset{x}
    ensures a == b
  {
    assert a == a + multiset{x} - multiset{x};
    assert b == b + multiset{x} - multiset{x};
  }

  ghost function Sum<K>(m: Counter<K>): int
    decreases |m|
  {
    if m == map[] then 0
    else
      var k :| k in m;
      m[k] + Sum(m - {k})
  }

  /** The sum does not depend on the order the entries are taken in. */
  lemma {:induction false} SumWithout<K>(m: Counter<K>, k: K)
    requires k in m
    ensures Sum(m) == m[k] + Sum(m - {k})
    decreases |m|
  {
    var j :| j in m && Sum(m) == m[j] + Sum(m - {j});
    if j != k {
      SumWithout(m - {j}, k);
      SumWithout(m - {k}, j);
      assert m - {j} - {k} == m - {k} - {j};
    }
  }

  lemma {:induction false} SumAdd<K>(m: Counter<K>, k: K, d: int)
    ensures Sum(Add(m, k, d)) == Sum(m) + d
  {
    var m' := Add(m, k, d);
    SumWithout(m', k);
    if k in m {
      SumWithout(m, k);
      assert m' - {k} == m - {k};
    } else {
      assert m' - {k} == m;
    }
  }

  method Total<K(==)>(m: Counter<K>) returns (total: int)
    ensures total == Sum(m)
  {
    total := 0;
    var rest := m;
    while rest != map[]
      invariant total + Sum(rest) == Sum(m)
      decreases |rest|
    {
      var k :| k in rest;
      SumWithout(rest, k);
      total := total + rest[k];
      rest := rest - {k};
    }
  }

  /** Adds every count of `b` to `a`. */
  method Merge<K(==)>(a: Counter<K>, b: Counter<K>) returns (c: Counter<K>)
    ensures forall k: K :: Get(c, k) == Get(a, k) + Get(b, k)
    ensures Sum(c) == Sum(a) + Sum(b)
  {
    c := a;
    var rest := b;
    while rest != map[]
      invariant rest.Keys <= b.Keys && forall k :: k in rest ==> rest[k] == b[k]
      invariant forall k :: k !in rest ==> Get(c, k) == Get(a, k) + Get(b, k)
      invariant forall k :: k in rest ==> Get(c, k) == Get(a, k)
      invariant Sum(c) + Sum(rest) == Sum(a) + Sum(b)
      decreases |rest|
    {
      var k :| k in rest;
      SumWithout(rest, k);
      SumAdd(c, k, rest[k]);
      c := Add(c, k, rest[k]);
      rest := rest - {k};
    }
  }
}
