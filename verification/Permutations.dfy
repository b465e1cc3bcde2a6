/** What does not depend on the order of a list. */
module Permutations {

  predicate Distinct<T(==)>(s: seq<T>) {
    forall i, j :: 0 <= i < j < |s| ==> s[i] != s[j]
  }

  /** What the elements contribute, put together. */
  ghost function Gather<T, V>(s: seq<T>, g: T -> multiset<V>): multiset<V> {
    if s == [] then multiset{} else Gather(s[..|s| - 1], g) + g(s[|s| - 1])
  }

  lemma {:induction false} GatherJoin<T, V>(a: seq<T>, b: seq<T>, g: T -> multiset<V>)
    ensures Gather(a + b, g) == Gather(a, g) + Gather(b, g)
    decreases |b|
  {
    if b == [] {
      assert a + b == a;
    } else {
      var n := |b| - 1;
      GatherJoin(a, b[..n], g);
      assert (a + b)[..|a| + n] == a + b[..n];
    }
  }

  function Without<T>(s: seq<T>, i: nat): seq<T>
    requires i < |s|
  {
    s[..i] + s[i + 1..]
  }

  lemma {:induction false} WithoutOne<T, V>(s: seq<T>, i: nat, g: T -> multiset<V>)
    requires i < |s|
    ensures Gather(s, g) == Gather(Without(s, i), g) + g(s[i])
    ensures multiset(s) == multiset(Without(s, i)) + multiset{s[i]}
  {
    assert s == s[..i] + ([s[i]] + s[i + 1..]);
    GatherJoin(s[..i], [s[i]] + s[i + 1..], g);
    GatherJoin([s[i]], s[i + 1..], g);
    GatherJoin(s[..i], s[i + 1..], g);
    assert Gather([s[i]], g) == g(s[i]);
  }

  lemma {:induction false} GatherPermuted<T, V>(a: seq<T>, b: seq<T>, g: T -> multiset<V>)
    requires multiset(a) == multiset(b)
    ensures Gather(a, g) == Gather(b, g)
    decreases |a|
  {
    if a == [] {
      assert |multiset(b)| == 0;
    } else {
      var n := |a| - 1;
      assert a == a[..n] + [a[n]];
      assert a[n] in multiset(b);
      var j :| 0 <= j < |b| && b[j] == a[n];
      WithoutOne(b, j, g);
      assert multiset(a[..n]) == multiset(Without(b, j)) by {
        assert multiset(a[..n]) + multiset{a[n]} == multiset(Without(b, j)) + multiset{a[n]};
        assert multiset(a[..n]) == multiset(a) - multiset{a[n]};
      }
      GatherPermuted(a[..n], Without(b, j), g);
    }
  }

  // ----- elements that share a key

  ghost function Keyed<T, K>(key: T -> K): T -> multiset<K> {
    (x: T) => multiset{key(x)}
  }

  lemma {:induction false} HolderIsGathered<T, K>(s: seq<T>, key: T -> K, i: nat)
    requires i < |s|
    ensures Gather(s, Keyed(key))[key(s[i])] >= 1
    decreases |s|
  {
    if i < |s| - 1 {
      HolderIsGathered(s[..|s| - 1], key, i);
    }
  }

  lemma {:induction false} HolderOf<T, K>(s: seq<T>, key: T -> K, k: K) returns (i: nat)
    requires Gather(s, Keyed(key))[k] >= 1
    ensures i < |s| && key(s[i]) == k
    decreases |s|
  {
    i := |s| - 1;
    if key(s[i]) != k {
      i := HolderOf(s[..i], key, k);
    }
  }

  lemma {:induction false} ClashIsGathered<T, K>(s: seq<T>, key: T -> K, i: nat, j: nat)
    requires i < j < |s| && key(s[i]) == key(s[j])
    ensures Gather(s, Keyed(key))[key(s[i])] >= 2
    decreases |s|
  {
    var n := |s| - 1;
    if j < n {
      ClashIsGathered(s[..n], key, i, j);
    } else {
      HolderIsGathered(s[..n], key, i);
    }
  }

  lemma {:induction false} ClashOf<T, K>(s: seq<T>, key: T -> K, k: K) returns (i: nat, j: nat)
    requires Gather(s, Keyed(key))[k] >= 2
    ensures i < j < |s| && key(s[i]) == k && key(s[j]) == k
    decreases |s|
  {
    j := |s| - 1;
    if key(s[j]) == k {
      i := HolderOf(s[..j], key, k);
    } else {
      i, j := ClashOf(s[..j], key, k);
    }
  }

  /** Reordering keeps two elements that share a key apart. */
  lemma ClashMoves<T, K>(a: seq<T>, b: seq<T>, key: T -> K, i: nat, j: nat) returns (x: nat, y: nat)
    requires multiset(a) == multiset(b) && i < j < |a| && key(a[i]) == key(a[j])
    ensures x < y < |b| && key(b[x]) == key(b[y]) == key(a[i])
  {
    ClashIsGathered(a, key, i, j);
    GatherPermuted(a, b, Keyed(key));
    x, y := ClashOf(b, key, key(a[i]));
  }

  // ----- elements that satisfy a condition

  ghost function Those<T>(f: T -> bool): T -> multiset<T> {
    (x: T) => if f(x) then multiset{x} else multiset{}
  }
}
