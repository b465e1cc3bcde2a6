/**
 The slowest queries of a window: a stream of entries folded through a heap that never holds more than `K` of them.
 */
module WindowTails {
  import opened SlotTrace
  import opened TailSummary

  /** Entries compare by total and then by position; positions are unique within a window. */
  predicate Less(a: Entry, b: Entry) {
    a.total < b.total || (a.total == b.total && a.ordinal < b.ordinal)
  }

  predicate DistinctOrdinals(s: seq<Entry>) {
    forall i, j :: 0 <= i < j < |s| ==> s[i].ordinal != s[j].ordinal
  }

  ghost function Dropped(tail: seq<Entry>, all: seq<Entry>): multiset<Entry> {
    multiset(all) - multiset(tail)
  }

  /** The `K` greatest entries of `all`, in any order; all of them if there are fewer. */
  ghost predicate IsTail(tail: seq<Entry>, all: seq<Entry>, K: nat) {
    && multiset(tail) <= multiset(all) && |tail| == Min(|all|, K) && DistinctOrdinals(tail)
    && forall d, t :: d in Dropped(tail, all) && t in tail ==> Less(d, t)
  }

  /** Where the least entry is. */
  method FindLeast(s: seq<Entry>) returns (k: nat)
    requires s != [] && DistinctOrdinals(s)
    ensures k < |s| && forall j :: 0 <= j < |s| && j != k ==> Less(s[k], s[j])
  {
    k := 0;
    for i := 1 to |s|
      invariant k < i && forall j :: 0 <= j < i && j != k ==> Less(s[k], s[j])
    {
      if Less(s[i], s[k]) {
        k := i;
      }
    }
  }

  function Without(s: seq<Entry>, k: nat): (rest: seq<Entry>)
    requires k < |s|
    ensures |rest| == |s| - 1 && forall i :: 0 <= i < |rest| ==> rest[i] == s[if i < k then i else i + 1]
  {
    s[..k] + s[k + 1..]
  }

  lemma WithoutOne(s: seq<Entry>, k: nat)
    requires k < |s|
    ensures multiset(s) == multiset(Without(s, k)) + multiset{s[k]}
  {
    assert s == s[..k] + [s[k]] + s[k + 1..];
  }

  lemma WithoutLeast(s: seq<Entry>, k: nat, t: Entry)
    requires k < |s| && t in Without(s, k) && forall j :: 0 <= j < |s| && j != k ==> Less(s[k], s[j])
    ensures t in s && Less(s[k], t)
  {
    var i :| 0 <= i < |s| - 1 && Without(s, k)[i] == t;
    assert s[if i < k then i else i + 1] == t;
  }

  /** Removes the least entry. */
  method PopLeast(s: seq<Entry>) returns (rest: seq<Entry>, least: Entry)
    requires s != [] && DistinctOrdinals(s)
    ensures multiset(s) == multiset(rest) + multiset{least}
    ensures DistinctOrdinals(rest) && |rest| == |s| - 1
    ensures least in s && forall t :: t in rest ==> t in s && Less(least, t)
  {
    var k := FindLeast(s);
    rest, least := Without(s, k), s[k];
    WithoutOne(s, k);
    forall t | t in rest {
      WithoutLeast(s, k, t);
    }
  }

  lemma NothingDropped(tail: seq<Entry>, all: seq<Entry>, K: nat)
    requires IsTail(tail, all, K) && |tail| < K
    ensures Dropped(tail, all) == multiset{}
  {
    assert multiset(all) == multiset(tail) + Dropped(tail, all);
    assert |multiset(all)| == |all| && |multiset(tail)| == |tail|;
  }

  lemma PushKept(tail: seq<Entry>, all: seq<Entry>, e: Entry, K: nat)
    requires IsTail(tail, all, K) && |tail| < K && DistinctOrdinals(tail + [e])
    ensures IsTail(tail + [e], all + [e], K)
  {
    NothingDropped(tail, all, K);
    assert multiset(all + [e]) == multiset(all) + multiset{e};
    assert multiset(tail + [e]) == multiset(tail) + multiset{e};
    assert Dropped(tail + [e], all + [e]) == Dropped(tail, all);
  }

  lemma Replaced<T>(all: multiset<T>, tail: multiset<T>, e: T, rest: multiset<T>, least: T)
    requires tail <= all && tail + multiset{e} == rest + multiset{least}
    ensures rest <= all + multiset{e}
    ensures all + multiset{e} - rest == all - tail + multiset{least}
  {
    forall x
      ensures rest[x] <= (all + multiset{e})[x]
      ensures (all + multiset{e} - rest)[x] == (all - tail + multiset{least})[x]
    {
      assert (tail + multiset{e})[x] == (rest + multiset{least})[x];
    }
  }

  /** Whatever leaves the heap lies below whatever stays. */
  lemma PoppedIsBelow(tail: seq<Entry>, all: seq<Entry>, e: Entry, rest: seq<Entry>, least: Entry, d: Entry, t: Entry)
    requires forall d, t :: d in Dropped(tail, all) && t in tail ==> Less(d, t)
    requires least in tail + [e] && forall t :: t in rest ==> t in tail + [e] && Less(least, t)
    requires (d == least || d in Dropped(tail, all)) && t in rest
    ensures Less(d, t)
  {
    if d != least {
      assert t in tail || t == e;
      if t !in tail {
        assert least in tail || least == e;
      }
    }
  }

  lemma PushPopped(tail: seq<Entry>, all: seq<Entry>, e: Entry, rest: seq<Entry>, least: Entry, K: nat)
    requires IsTail(tail, all, K) && |tail| == K && DistinctOrdinals(rest) && |rest| == K
    requires multiset(tail + [e]) == multiset(rest) + multiset{least}
    requires least in tail + [e] && forall t :: t in rest ==> t in tail + [e] && Less(least, t)
    ensures IsTail(rest, all + [e], K)
  {
    assert multiset(all + [e]) == multiset(all) + multiset{e};
    assert multiset(tail + [e]) == multiset(tail) + multiset{e};
    Replaced(multiset(all), multiset(tail), e, multiset(rest), least);
    forall d, t | d in Dropped(rest, all + [e]) && t in rest
      ensures Less(d, t)
    {
      PoppedIsBelow(tail, all, e, rest, least, d, t);
    }
  }

  /** One step of the stream: push, and pop if more than `K` are held. */
  method Retain(tail: seq<Entry>, e: Entry, K: nat, ghost all: seq<Entry>) returns (r: seq<Entry>)
    requires IsTail(tail, all, K) && DistinctOrdinals(tail + [e])
    ensures IsTail(r, all + [e], K)
  {
    r := tail + [e];
    if |r| > K {
      var rest, least := PopLeast(r);
      PushPopped(tail, all, e, rest, least, K);
      r := rest;
    } else {
      PushKept(tail, all, e, K);
    }
  }

  lemma ExcessIsBelow(a: seq<Entry>, b: seq<Entry>, all: seq<Entry>, K: nat, x: Entry)
    requires multiset(a) <= multiset(all) && IsTail(b, all, K) && multiset(a)[x] > multiset(b)[x]
    ensures forall t :: t in b ==> Less(x, t)
  {
    assert x in Dropped(b, all);
  }

  /** Which entries are retained does not depend on how the heap arranged them. */
  lemma TailIsUnique(a: seq<Entry>, b: seq<Entry>, all: seq<Entry>, K: nat)
    requires IsTail(a, all, K) && IsTail(b, all, K)
    ensures multiset(a) == multiset(b)
  {
    if multiset(a) != multiset(b) {
      var x := Excess(a, b);
      var y := Excess(b, a);
      ExcessIsBelow(a, b, all, K, x);
      ExcessIsBelow(b, a, all, K, y);
    }
  }

  lemma NoExcess<T>(a: multiset<T>, b: multiset<T>)
    requires a - b == multiset{} && |a| == |b|
    ensures a == b
  {
    forall x
      ensures a[x] <= b[x]
    {
      assert (a - b)[x] == 0;
    }
    assert b == a + (b - a);
  }

  lemma Excess(a: seq<Entry>, b: seq<Entry>) returns (x: Entry)
    requires |a| == |b| && multiset(a) != multiset(b)
    ensures x in a && multiset(a)[x] > multiset(b)[x]
  {
    var more := multiset(a) - multiset(b);
    assert |multiset(a)| == |multiset(b)|;
    if more == multiset{} {
      NoExcess(multiset(a), multiset(b));
    }
    x :| x in more;
  }

  /** Every entry left out is below every entry kept, and exactly the surplus is left out. */
  lemma TailKeepsTheSlowest(tail: seq<Entry>, all: seq<Entry>, K: nat, d: Entry, t: Entry)
    requires IsTail(tail, all, K) && d in Dropped(tail, all) && t in tail
    ensures d.total <= t.total && |Dropped(tail, all)| == |all| - Min(|all|, K)
  {
    assert multiset(all) == multiset(tail) + Dropped(tail, all);
  }
}
