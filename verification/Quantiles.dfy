/**
 Nearest-rank percentiles in milliseconds, from a sorted list and from a counter of microsecond values.
 */
module Quantiles {
  import opened Counters
  import opened Permutations

  const PERCENTILES: seq<nat> := [50, 95, 99, 100]

  /** A microsecond value in milliseconds. */
  function Ms(us: int): real {
    us as real / 1000.0
  }

  /** The rank of a percentile, counting from 1. */
  function Target(count: nat, p: nat): nat {
    (count * p + 99) / 100
  }

  lemma TargetInRange(count: nat, p: nat)
    requires 0 < count && 0 < p <= 100
    ensures 1 <= Target(count, p) <= count
  {
    assert count * p >= 1 by { Times(count, p, 1); }
    assert count * p <= count * 100 by { Times(count, 100, p); }
  }

  lemma Times(c: nat, a: nat, b: nat)
    requires b <= a
    ensures c * b <= c * a
  {
  }

  // ----- sorting

  predicate Ascending(s: seq<int>) {
    forall i, j :: 0 <= i < j < |s| ==> s[i] <= s[j]
  }

  function Insert(s: seq<int>, x: int): seq<int> {
    if s == [] then [x]
    else
      var n := |s| - 1;
      if s[n] <= x then s + [x] else Insert(s[..n], x) + [s[n]]
  }

  function Sorted(values: seq<int>): seq<int> {
    if values == [] then [] else Insert(Sorted(values[..|values| - 1]), values[|values| - 1])
  }

  lemma DropLast(s: seq<int>)
    requires s != []
    ensures multiset(s) == multiset(s[..|s| - 1]) + multiset{s[|s| - 1]}
  {
    assert s == s[..|s| - 1] + [s[|s| - 1]];
  }

  lemma {:induction false} InsertKeeps(s: seq<int>, x: int)
    ensures multiset(Insert(s, x)) == multiset(s) + multiset{x}
    decreases |s|
  {
    if s != [] && s[|s| - 1] > x {
      DropLast(s);
      InsertKeeps(s[..|s| - 1], x);
    }
  }

  lemma {:induction false} InsertOrders(s: seq<int>, x: int)
    requires Ascending(s)
    ensures Ascending(Insert(s, x))
    ensures forall i :: 0 <= i < |Insert(s, x)| ==> Insert(s, x)[i] == x || Insert(s, x)[i] in s
    decreases |s|
  {
    if s != [] && s[|s| - 1] > x {
      InsertOrders(s[..|s| - 1], x);
    }
  }

  lemma {:induction false} SortedSorts(values: seq<int>)
    ensures Ascending(Sorted(values)) && multiset(Sorted(values)) == multiset(values)
    ensures |Sorted(values)| == |values|
    decreases |values|
  {
    if values != [] {
      var n := |values| - 1;
      SortedSorts(values[..n]);
      InsertKeeps(Sorted(values[..n]), values[n]);
      InsertOrders(Sorted(values[..n]), values[n]);
      DropLast(values);
    }
    SameLength(Sorted(values), values);
  }

  lemma SameLength(a: seq<int>, b: seq<int>)
    requires multiset(a) == multiset(b)
    ensures |a| == |b|
  {
    assert |multiset(a)| == |a| && |multiset(b)| == |b|;
  }

  lemma LastIsGreatest(a: seq<int>, b: seq<int>)
    requires a != [] && b != [] && Ascending(a) && multiset(a) == multiset(b)
    ensures b[|b| - 1] <= a[|a| - 1]
  {
    assert b[|b| - 1] in multiset(a);
  }

  /** A list has only one ascending arrangement. */
  lemma {:induction false} SortedIsUnique(a: seq<int>, b: seq<int>)
    requires Ascending(a) && Ascending(b) && multiset(a) == multiset(b)
    ensures a == b
    decreases |a|
  {
    SameLength(a, b);
    if a != [] {
      var n := |a| - 1;
      LastIsGreatest(a, b);
      LastIsGreatest(b, a);
      DropLast(a);
      DropLast(b);
      Cancel(multiset(a[..n]), multiset(b[..n]), a[n]);
      SortedIsUnique(a[..n], b[..n]);
    }
  }

  // ----- the list form

  datatype Distribution = Empty | Distribution(count: nat, quantiles: map<nat, real>)

  function At(s: seq<int>, p: nat): int
    requires s != [] && 0 < p <= 100
  {
    TargetInRange(|s|, p);
    s[Target(|s|, p) - 1]
  }

  function DistributionOf(values: seq<int>): Distribution {
    var ordered := Sorted(values);
    if ordered == [] then Empty
    else Distribution(|values|, map[50 := Ms(At(ordered, 50)), 95 := Ms(At(ordered, 95)), 99 := Ms(At(ordered, 99)),
                                    100 := Ms(At(ordered, 100))])
  }

  ghost function Below(s: seq<int>, v: int): nat {
    if s == [] then 0 else Below(s[..|s| - 1], v) + if s[|s| - 1] < v then 1 else 0
  }

  lemma {:induction false} BelowInPrefix(s: seq<int>, v: int, k: nat)
    requires Ascending(s) && k <= |s|
    requires forall i :: 0 <= i < k ==> s[i] < v
    requires forall i :: k <= i < |s| ==> v <= s[i]
    ensures Below(s, v) == k
    decreases |s|
  {
    if s != [] {
      var n := |s| - 1;
      BelowInPrefix(s[..n], v, if k <= n then k else n);
    }
  }

  /** How many values are less than the one at a rank, and how many are at most it, bracket the rank. */
  lemma {:induction false} RankBrackets(s: seq<int>, v: int, r: nat)
    requires Ascending(s) && r < |s| && s[r] == v
    ensures Below(s, v) <= r < Below(s, v + 1)
    decreases |s|
  {
    var n := |s| - 1;
    if r < n {
      RankBrackets(s[..n], v, r);
    } else {
      BelowIsBounded(s[..n], v);
      if n > 0 && s[n - 1] == v {
        RankBrackets(s[..n], v, n - 1);
      } else {
        BelowInPrefix(s, v + 1, |s|);
      }
    }
  }

  lemma {:induction false} BelowIsBounded(s: seq<int>, v: int)
    ensures Below(s, v) <= |s|
    decreases |s|
  {
    if s != [] {
      BelowIsBounded(s[..|s| - 1], v);
    }
  }

  ghost function Under(v: int): int -> bool {
    (x: int) => x < v
  }

  lemma {:induction false} BelowGathered(s: seq<int>, v: int)
    ensures Below(s, v) == |Gather(s, Those(Under(v)))|
    decreases |s|
  {
    if s != [] {
      BelowGathered(s[..|s| - 1], v);
    }
  }

  /** How many values are less than some value does not depend on their order. */
  lemma {:induction false} BelowPermuted(a: seq<int>, b: seq<int>, v: int)
    requires multiset(a) == multiset(b)
    ensures Below(a, v) == Below(b, v)
  {
    BelowGathered(a, v);
    BelowGathered(b, v);
    GatherPermuted(a, b, Those(Under(v)));
  }

  lemma {:induction false} BelowRises(s: seq<int>, v: int, w: int)
    requires v <= w
    ensures Below(s, v) <= Below(s, w)
    decreases |s|
  {
    if s != [] {
      BelowRises(s[..|s| - 1], v, w);
    }
  }

  /** At least p percent of the values do not exceed it, and fewer than p percent undercut it. */
  ghost predicate IsPercentile(values: seq<int>, p: nat, v: int) {
    v in values && 100 * Below(values, v) < |values| * p <= 100 * Below(values, v + 1)
  }

  lemma {:induction false} QuantileAt(values: seq<int>, p: nat)
    requires Sorted(values) != [] && p in PERCENTILES
    ensures DistributionOf(values).Distribution? && p in DistributionOf(values).quantiles
    ensures DistributionOf(values).quantiles[p] == Ms(At(Sorted(values), p))
  {
    assert p == 50 || p == 95 || p == 99 || p == 100;
  }

  lemma NearestRank(values: seq<int>, p: nat) returns (v: int)
    requires values != [] && p in PERCENTILES
    ensures DistributionOf(values).Distribution? && p in DistributionOf(values).quantiles
    ensures DistributionOf(values).quantiles[p] * 1000.0 == v as real && IsPercentile(values, p, v)
  {
    SortedSorts(values);
    v := At(Sorted(values), p);
    QuantileAt(values, p);
    RankIsPercentile(values, p);
  }

  /** A percentile is within a limit exactly if at least so many percent of the values are. */
  lemma {:induction false} WithinMeansMost(values: seq<int>, p: nat, limit: int)
    requires values != [] && p in PERCENTILES
    ensures DistributionOf(values).Distribution? && p in DistributionOf(values).quantiles
    ensures DistributionOf(values).quantiles[p] * 1000.0 <= limit as real <==> |values| * p <= 100 * Below(values, limit + 1)
  {
    var v := NearestRank(values, p);
    if v <= limit {
      BelowRises(values, v + 1, limit + 1);
    } else {
      BelowRises(values, limit + 1, v);
    }
  }

  lemma {:induction false} RankBounds(s: seq<int>, values: seq<int>, p: nat, r: nat)
    requires Ascending(s) && multiset(s) == multiset(values) && r < |s| && r == Target(|s|, p) - 1
    ensures 100 * Below(values, s[r]) < |values| * p <= 100 * Below(values, s[r] + 1)
  {
    var v := s[r];
    SameLength(s, values);
    RankBrackets(s, v, r);
    BelowPermuted(s, values, v);
    BelowPermuted(s, values, v + 1);
    RankTarget(|values|, p, Below(values, v), Below(values, v + 1));
  }

  lemma {:induction false} RankIsPercentile(values: seq<int>, p: nat)
    requires values != [] && Sorted(values) != [] && 0 < p <= 100
    ensures IsPercentile(values, p, At(Sorted(values), p))
  {
    SortedSorts(values);
    TargetInRange(|values|, p);
    var r := Target(|values|, p) - 1;
    SortedHolds(values, r);
    RankBounds(Sorted(values), values, p, r);
  }

  lemma {:induction false} SortedHolds(values: seq<int>, i: nat)
    requires i < |Sorted(values)|
    ensures Sorted(values)[i] in values
  {
    SortedSorts(values);
    assert Sorted(values)[i] in multiset(values);
  }

  lemma RankTarget(count: nat, p: nat, below: nat, through: nat)
    requires below <= Target(count, p) - 1 < through
    ensures 100 * below < count * p <= 100 * through
  {
  }

  // ----- the counter form

  predicate Strict(keys: seq<int>) {
    forall i, j :: 0 <= i < j < |keys| ==> keys[i] < keys[j]
  }

  function Repeat(x: int, n: nat): seq<int> {
    seq(n, _ => x)
  }

  predicate Positive(counts: Counter<int>) {
    forall k :: k in counts ==> counts[k] > 0
  }

  /** Every key repeated as often as it occurred. */
  function Expand(keys: seq<int>, counts: Counter<int>): seq<int>
    requires Positive(counts) && forall i :: 0 <= i < |keys| ==> keys[i] in counts
  {
    if keys == [] then []
    else
      var n := |keys| - 1;
      Expand(keys[..n], counts) + Repeat(keys[n], counts[keys[n]])
  }

  lemma RepeatCounts(x: int, n: nat)
    ensures multiset(Repeat(x, n)) == multiset{}[x := n]
    decreases n
  {
    if n > 0 {
      RepeatCounts(x, n - 1);
      assert Repeat(x, n) == Repeat(x, n - 1) + [x];
    }
  }

  lemma {:induction false} ExpandCounts(keys: seq<int>, counts: Counter<int>, v: int)
    requires Positive(counts) && Strict(keys) && forall i :: 0 <= i < |keys| ==> keys[i] in counts
    ensures multiset(Expand(keys, counts))[v] == if v in keys then counts[v] else 0
    decreases |keys|
  {
    if keys != [] {
      var n := |keys| - 1;
      ExpandCounts(keys[..n], counts, v);
      RepeatCounts(keys[n], counts[keys[n]]);
      assert keys == keys[..n] + [keys[n]];
      assert keys[n] !in keys[..n];
    }
  }

  lemma {:induction false} ExpandAscends(keys: seq<int>, counts: Counter<int>)
    requires Positive(counts) && Strict(keys) && forall i :: 0 <= i < |keys| ==> keys[i] in counts
    ensures Ascending(Expand(keys, counts))
    ensures forall v :: v in Expand(keys, counts) ==> v in keys
    decreases |keys|
  {
    if keys != [] {
      var n := |keys| - 1;
      ExpandAscends(keys[..n], counts);
      var shorter := Expand(keys[..n], counts);
      forall i | 0 <= i < |shorter|
        ensures shorter[i] in keys[..n] && shorter[i] < keys[n]
      {
        assert shorter[i] in shorter;
      }
    }
  }

  /** The block of the expansion that one key fills. */
  lemma {:induction false} ExpandBlock(keys: seq<int>, counts: Counter<int>, i: nat)
    requires Positive(counts) && i < |keys| && forall i :: 0 <= i < |keys| ==> keys[i] in counts
    ensures var from, to := |Expand(keys[..i], counts)|, |Expand(keys[..i + 1], counts)|;
            && to == from + counts[keys[i]] && to <= |Expand(keys, counts)|
            && forall r :: from <= r < to ==> Expand(keys, counts)[r] == keys[i]
    decreases |keys|
  {
    var n := |keys| - 1;
    assert keys[..i + 1][..i] == keys[..i];
    if i < n {
      ExpandBlock(keys[..n], counts, i);
      assert keys[..n][..i] == keys[..i] && keys[..n][..i + 1] == keys[..i + 1];
    } else {
      assert keys[..i + 1] == keys;
    }
  }

  // ----- reading the counter in key order

  lemma {:induction false} InsertHolds(s: seq<int>, x: int, k: int)
    ensures k in Insert(s, x) <==> k == x || k in s
  {
    InsertKeeps(s, x);
    assert k in multiset(Insert(s, x)) <==> k in multiset(s) + multiset{x};
  }

  lemma {:induction false} InsertStrict(s: seq<int>, x: int)
    requires Strict(s) && x !in s
    ensures Strict(Insert(s, x))
    decreases |s|
  {
    if s != [] && s[|s| - 1] > x {
      var n := |s| - 1;
      var shorter := Insert(s[..n], x);
      InsertStrict(s[..n], x);
      forall i | 0 <= i < |shorter|
        ensures shorter[i] < s[n]
      {
        InsertHolds(s[..n], x, shorter[i]);
      }
    }
  }

  method SortedKeys(s: set<int>) returns (keys: seq<int>)
    ensures Strict(keys) && (forall i :: 0 <= i < |keys| ==> keys[i] in s) && forall k :: k in s ==> k in keys
  {
    keys := [];
    var rest := s;
    while rest != {}
      invariant rest <= s && Strict(keys)
      invariant forall i :: 0 <= i < |keys| ==> keys[i] in s - rest
      invariant forall k :: k in s - rest ==> k in keys
    {
      ghost var some := Member(rest);
      var k :| k in rest;
      assert k !in keys;
      InsertStrict(keys, k);
      forall j: int {
        InsertHolds(keys, k, j);
      }
      keys := Insert(keys, k);
      assert forall i :: 0 <= i < |keys| ==> keys[i] in keys;
      rest := rest - {k};
    }
  }

  predicate Enumerates(keys: seq<int>, counts: Counter<int>) {
    (forall i :: 0 <= i < |keys| ==> keys[i] in counts) && forall k :: k in counts ==> k in keys
  }

  /** The counter holds how often each value occurs in the list. */
  ghost predicate Tallies(counts: Counter<int>, values: seq<int>) {
    forall v: int :: Get(counts, v) == multiset(values)[v]
  }

  lemma {:induction false} ExpandTallies(keys: seq<int>, counts: Counter<int>)
    requires Positive(counts) && Strict(keys) && Enumerates(keys, counts)
    ensures Tallies(counts, Expand(keys, counts))
  {
    forall v: int
      ensures Get(counts, v) == multiset(Expand(keys, counts))[v]
    {
      ExpandCounts(keys, counts, v);
    }
  }

  lemma EnumeratesRest(keys: seq<int>, counts: Counter<int>)
    requires keys != [] && Strict(keys) && Enumerates(keys, counts)
    ensures Enumerates(keys[..|keys| - 1], counts - {keys[|keys| - 1]})
  {
    var n := |keys| - 1;
    forall k | k in counts - {keys[n]}
      ensures k in keys[..n]
    {
      var i :| 0 <= i < |keys| && keys[i] == k;
      assert keys[..n][i] == k;
    }
  }

  lemma {:induction false} ExpandLength(keys: seq<int>, counts: Counter<int>)
    requires Positive(counts) && Strict(keys) && Enumerates(keys, counts)
    ensures |Expand(keys, counts)| == Sum(counts)
    decreases |keys|
  {
    if keys == [] {
      if counts.Keys != {} {
        var k := Member(counts.Keys);
      }
      assert counts == map[];
    } else {
      var n := |keys| - 1;
      var rest := counts - {keys[n]};
      EnumeratesRest(keys, counts);
      SumWithout(counts, keys[n]);
      ExpandLength(keys[..n], rest);
      SameExpansion(keys[..n], counts, rest);
    }
  }

  lemma {:induction false} SameExpansion(keys: seq<int>, a: Counter<int>, b: Counter<int>)
    requires Positive(a) && Positive(b)
    requires forall i :: 0 <= i < |keys| ==> keys[i] in a && keys[i] in b && a[keys[i]] == b[keys[i]]
    ensures Expand(keys, a) == Expand(keys, b)
    decreases |keys|
  {
    if keys != [] {
      SameExpansion(keys[..|keys| - 1], a, b);
    }
  }

  /** Set exactly when the running count has reached the rank, to the value at that rank. */
  ghost predicate Settled(q: map<nat, real>, p: nat, s: seq<int>, cumulative: nat)
    requires s != [] && 0 < p <= 100
  {
    && (p in q <==> Target(|s|, p) <= cumulative)
    && (p in q ==> q[p] == Ms(At(s, p)))
  }

  predicate Tracked(q: map<nat, real>) {
    forall p :: p in q ==> p in PERCENTILES
  }

  /** One key settles every percentile whose rank falls in its block. */
  method Settle(q: map<nat, real>, value: int, cumulative: nat, count: nat, ghost before: nat, ghost s: seq<int>)
    returns (r: map<nat, real>)
    requires s != [] && |s| == count && before <= cumulative <= |s|
    requires forall k :: before <= k < cumulative ==> s[k] == value
    requires Tracked(q) && forall j :: 0 <= j < |PERCENTILES| ==> Settled(q, PERCENTILES[j], s, before)
    ensures Tracked(r) && forall j :: 0 <= j < |PERCENTILES| ==> Settled(r, PERCENTILES[j], s, cumulative)
  {
    r := q;
    for j := 0 to |PERCENTILES|
      invariant Tracked(r)
      invariant forall k :: 0 <= k < j ==> Settled(r, PERCENTILES[k], s, cumulative)
      invariant forall k :: j <= k < |PERCENTILES| ==> Settled(r, PERCENTILES[k], s, before)
    {
      r := SettleOne(r, j, value, cumulative, count, before, s);
    }
  }

  method SettleOne(q: map<nat, real>, j: nat, value: int, cumulative: nat, count: nat, ghost before: nat, ghost s: seq<int>)
    returns (r: map<nat, real>)
    requires s != [] && |s| == count && before <= cumulative <= |s| && j < |PERCENTILES|
    requires forall k :: before <= k < cumulative ==> s[k] == value
    requires Tracked(q) && Settled(q, PERCENTILES[j], s, before)
    ensures Tracked(r) && Settled(r, PERCENTILES[j], s, cumulative)
    ensures forall p :: p != PERCENTILES[j] ==> (p in r <==> p in q) && (p in q ==> r[p] == q[p])
  {
    r := q;
    var p := PERCENTILES[j];
    TargetInRange(count, p);
    if cumulative >= Target(count, p) && p !in r {
      r := r[p := Ms(value)];
    }
  }

  lemma AllSettled(q: map<nat, real>, s: seq<int>)
    requires s != [] && Ascending(s) && Tracked(q)
    requires forall j :: 0 <= j < |PERCENTILES| ==> Settled(q, PERCENTILES[j], s, |s|)
    ensures Distribution(|s|, q) == DistributionOf(s)
  {
    SortedSorts(s);
    SortedIsUnique(Sorted(s), s);
    var expected := DistributionOf(s).quantiles;
    forall p | p in PERCENTILES
      ensures p in q && p in expected && q[p] == expected[p]
    {
      SettledAt(q, s, p);
      QuantileAt(s, p);
    }
    AllTracked(q, expected);
  }

  lemma SettledAt(q: map<nat, real>, s: seq<int>, p: nat)
    requires s != [] && p in PERCENTILES
    requires forall j :: 0 <= j < |PERCENTILES| ==> Settled(q, PERCENTILES[j], s, |s|)
    ensures p in q && q[p] == Ms(At(s, p))
  {
    TargetInRange(|s|, p);
    var j :| 0 <= j < |PERCENTILES| && PERCENTILES[j] == p;
    assert Settled(q, PERCENTILES[j], s, |s|);
  }

  lemma AllTracked(q: map<nat, real>, expected: map<nat, real>)
    requires forall j :: 0 <= j < |PERCENTILES| ==> PERCENTILES[j] in q
    requires expected.Keys == {50, 95, 99, 100}
    requires forall p :: p in q ==> p in expected && q[p] == expected[p]
    ensures q == expected
  {
    assert 50 == PERCENTILES[0] && 95 == PERCENTILES[1] && 99 == PERCENTILES[2] && 100 == PERCENTILES[3];
  }

  /** The percentiles of any list the counter tallies, without sorting the list. */
  method CounterDistribution(counts: Counter<int>) returns (d: Distribution)
    requires Positive(counts)
    ensures forall values: seq<int> :: Tallies(counts, values) ==> d == DistributionOf(values)
  {
    var count := Total(counts);
    var keys := SortedKeys(counts.Keys);
    ghost var s := Expand(keys, counts);
    ExpandLength(keys, counts);
    ExpandAscends(keys, counts);
    ExpandTallies(keys, counts);
    forall values: seq<int> | Tallies(counts, values) {
      TalliedAlike(counts, s, values);
    }
    if count == 0 {
      return Empty;
    }
    d := Scan(keys, counts, count);
  }

  method Scan(keys: seq<int>, counts: Counter<int>, count: nat) returns (d: Distribution)
    requires Positive(counts) && forall i :: 0 <= i < |keys| ==> keys[i] in counts
    requires count == |Expand(keys, counts)| > 0 && Ascending(Expand(keys, counts))
    ensures d == DistributionOf(Expand(keys, counts))
  {
    ghost var s := Expand(keys, counts);
    var cumulative: nat, quantiles: map<nat, real> := 0, map[];
    forall j | 0 <= j < |PERCENTILES| {
      TargetInRange(count, PERCENTILES[j]);
    }
    for i := 0 to |keys|
      invariant cumulative == |Expand(keys[..i], counts)|
      invariant Tracked(quantiles)
      invariant forall j :: 0 <= j < |PERCENTILES| ==> Settled(quantiles, PERCENTILES[j], s, cumulative)
    {
      ExpandBlock(keys, counts, i);
      ghost var before := cumulative;
      cumulative := cumulative + counts[keys[i]];
      quantiles := Settle(quantiles, keys[i], cumulative, count, before, s);
    }
    assert keys[..|keys|] == keys;
    AllSettled(quantiles, s);
    d := Distribution(count, quantiles);
  }

  /** Percentiles do not depend on the order of the values. */
  lemma SamePercentiles(a: seq<int>, b: seq<int>)
    requires multiset(a) == multiset(b)
    ensures DistributionOf(a) == DistributionOf(b)
  {
    SortedSorts(a);
    SortedSorts(b);
    SortedIsUnique(Sorted(a), Sorted(b));
    SameLength(a, b);
  }

  /** Lists with the same counts have the same percentiles. */
  lemma TalliedAlike(counts: Counter<int>, a: seq<int>, b: seq<int>)
    requires Tallies(counts, a) && Tallies(counts, b)
    ensures DistributionOf(a) == DistributionOf(b)
  {
    forall v: int
      ensures multiset(a)[v] == multiset(b)[v]
    {
      assert Get(counts, v) == multiset(a)[v];
    }
    assert multiset(a) == multiset(b);
    SamePercentiles(a, b);
  }

  /** All four percentiles are present, and in order. */
  lemma PercentilesAscend(values: seq<int>)
    requires values != []
    ensures var q := DistributionOf(values).quantiles;
            q.Keys == {50, 95, 99, 100} && q[50] <= q[95] <= q[99] <= q[100]
  {
    var s := Sorted(values);
    SortedSorts(values);
    RanksAscend(s, 50, 95);
    RanksAscend(s, 95, 99);
    RanksAscend(s, 99, 100);
  }

  lemma RanksAscend(s: seq<int>, p: nat, q: nat)
    requires Ascending(s) && s != [] && 0 < p <= q <= 100
    ensures At(s, p) <= At(s, q)
  {
    TargetInRange(|s|, p);
    TargetInRange(|s|, q);
    Times(|s|, q, p);
    assert Target(|s|, p) <= Target(|s|, q);
    assert s[Target(|s|, p) - 1] <= s[Target(|s|, q) - 1];
  }
}
