/**
 Latency histograms, recorded as all their buckets or as the nonzero ones only.
 */
module Histograms {
  import opened Results
  import opened MetricDeltas

  type Pair = (int, int)

  datatype Histogram =
    | AllBuckets(resolution: int, total: real, buckets: Json)
    | NonzeroBuckets(resolution: int, total: real, count: int, nonzero: seq<Pair>)

  const MAX_BUCKETS := 100_002

  /** Rising indices within the range, each with a positive count. */
  predicate WellFormed(count: int, pairs: seq<Pair>) {
    && (forall i, j :: 0 <= i < j < |pairs| ==> pairs[i].0 < pairs[j].0)
    && (forall i :: 0 <= i < |pairs| ==> 0 <= pairs[i].0 < count && pairs[i].1 > 0)
  }

  /** The count at one index: what its pair says, or nothing. */
  function ValueAt(pairs: seq<Pair>, index: int): int {
    if pairs == [] then 0
    else if pairs[|pairs| - 1].0 == index then pairs[|pairs| - 1].1
    else ValueAt(pairs[..|pairs| - 1], index)
  }

  function Decoded(count: nat, pairs: seq<Pair>): (buckets: seq<int>)
    ensures |buckets| == count
  {
    seq(count, i requires 0 <= i < count => ValueAt(pairs, i))
  }

  method DecodeSparse(count: int, pairs: seq<Pair>) returns (r: Result<seq<int>>)
    ensures r.Ok? <==> 2 <= count <= MAX_BUCKETS && WellFormed(count, pairs)
    ensures r.Ok? ==> r.value == Decoded(count, pairs)
  {
    if !(2 <= count <= MAX_BUCKETS) {
      return Err;
    }
    var buckets: seq<int> := seq(count, _ => 0);
    var previous := -1;
    for n := 0 to |pairs|
      invariant WellFormed(count, pairs[..n])
      invariant previous == if n == 0 then -1 else pairs[n - 1].0
      invariant buckets == Decoded(count, pairs[..n])
    {
      var (index, value) := pairs[n];
      if !(previous < index < count) || value <= 0 {
        return Err;
      }
      assert pairs[..n + 1][..n] == pairs[..n];
      buckets := buckets[index := value];
      previous := index;
    }
    assert pairs[..|pairs|] == pairs;
    r := Ok(buckets);
  }

  // ----- the sparse form is exact and canonical

  /** The nonzero entries, in order. */
  function Encoded(buckets: seq<int>): seq<Pair> {
    if buckets == [] then []
    else
      var n := |buckets| - 1;
      if buckets[n] == 0 then Encoded(buckets[..n]) else Encoded(buckets[..n]) + [(n, buckets[n])]
  }

  predicate Counts(buckets: seq<int>) {
    forall i :: 0 <= i < |buckets| ==> buckets[i] >= 0
  }

  lemma {:induction false} EncodedIsWellFormed(buckets: seq<int>)
    requires Counts(buckets)
    ensures WellFormed(|buckets|, Encoded(buckets))
    decreases |buckets|
  {
    if buckets != [] {
      EncodedIsWellFormed(buckets[..|buckets| - 1]);
    }
  }

  lemma {:induction false} EncodedNext(buckets: seq<int>, value: int)
    ensures Encoded(buckets + [value]) == if value == 0 then Encoded(buckets) else Encoded(buckets) + [(|buckets|, value)]
  {
    assert (buckets + [value])[..|buckets|] == buckets;
  }

  lemma {:induction false} ValueNext(pairs: seq<Pair>, pair: Pair, index: int)
    ensures ValueAt(pairs + [pair], index) == if pair.0 == index then pair.1 else ValueAt(pairs, index)
  {
    assert (pairs + [pair])[..|pairs|] == pairs;
  }

  lemma {:induction false} EncodedAt(buckets: seq<int>, index: nat)
    requires Counts(buckets) && index < |buckets|
    ensures ValueAt(Encoded(buckets), index) == buckets[index]
    decreases |buckets|
  {
    var n := |buckets| - 1;
    var shorter := buckets[..n];
    assert buckets == shorter + [buckets[n]];
    EncodedNext(shorter, buckets[n]);
    ValueNext(Encoded(shorter), (n, buckets[n]), index);
    if index < n {
      EncodedAt(shorter, index);
    } else {
      EncodedIsWellFormed(shorter);
      BeyondIsZero(Encoded(shorter), n);
    }
  }

  lemma {:induction false} BeyondIsZero(pairs: seq<Pair>, index: int)
    requires forall i :: 0 <= i < |pairs| ==> pairs[i].0 != index
    ensures ValueAt(pairs, index) == 0
    decreases |pairs|
  {
    if pairs != [] {
      BeyondIsZero(pairs[..|pairs| - 1], index);
    }
  }

  /** Recording the nonzero buckets loses nothing. */
  lemma {:induction false} RoundTrip(buckets: seq<int>)
    requires Counts(buckets)
    ensures WellFormed(|buckets|, Encoded(buckets)) && Decoded(|buckets|, Encoded(buckets)) == buckets
  {
    EncodedIsWellFormed(buckets);
    forall i | 0 <= i < |buckets| {
      EncodedAt(buckets, i);
    }
  }

  /** The pairs of all buckets but the last. */
  function Shorter(count: nat, pairs: seq<Pair>): seq<Pair> {
    if pairs != [] && pairs[|pairs| - 1].0 == count - 1 then pairs[..|pairs| - 1] else pairs
  }

  /** The last bucket holds the last pair's count if that pair is its own, and nothing otherwise. */
  lemma LastBucket(count: nat, pairs: seq<Pair>)
    requires count > 0 && WellFormed(count, pairs)
    ensures WellFormed(count - 1, Shorter(count, pairs)) && ValueAt(pairs, count - 1) >= 0
    ensures pairs == Shorter(count, pairs) +
                     if ValueAt(pairs, count - 1) == 0 then [] else [(count - 1, ValueAt(pairs, count - 1))]
  {
    if Shorter(count, pairs) == pairs {
      BeyondIsZero(pairs, count - 1);
    }
  }

  lemma DecodedSplits(count: nat, pairs: seq<Pair>)
    requires count > 0 && WellFormed(count, pairs)
    ensures Decoded(count, pairs) == Decoded(count - 1, Shorter(count, pairs)) + [ValueAt(pairs, count - 1)]
  {
  }

  lemma PairsNeedBuckets(count: nat, pairs: seq<Pair>)
    requires WellFormed(count, pairs) && pairs != []
    ensures count > 0
  {
    assert pairs[0].0 < count;
  }

  /** A dense array has one accepted sparse form. */
  lemma {:induction false} Canonical(count: nat, pairs: seq<Pair>)
    requires WellFormed(count, pairs)
    ensures Encoded(Decoded(count, pairs)) == pairs
    decreases count
  {
    if count > 0 {
      var shorter, last := Shorter(count, pairs), ValueAt(pairs, count - 1);
      LastBucket(count, pairs);
      DecodedSplits(count, pairs);
      Canonical(count - 1, shorter);
      EncodedNext(Decoded(count - 1, shorter), last);
      assert Encoded(Decoded(count, pairs)) == shorter + if last == 0 then [] else [(count - 1, last)];
    } else if pairs != [] {
      PairsNeedBuckets(count, pairs);
    }
  }

  // ----- differences, whichever form each snapshot used

  function Numbers(buckets: seq<int>): Json {
    List(seq(|buckets|, i requires 0 <= i < |buckets| => Num(buckets[i] as real)))
  }

  /** The buckets of either form. */
  ghost function BucketsOf(h: Histogram): Result<Json> {
    match h
    case AllBuckets(_, _, buckets) => Ok(buckets)
    case NonzeroBuckets(_, _, count, nonzero) =>
      if 2 <= count <= MAX_BUCKETS && WellFormed(count, nonzero) then Ok(Numbers(Decoded(count, nonzero))) else Err
  }

  method HistogramBuckets(h: Histogram) returns (r: Result<Json>)
    ensures r == BucketsOf(h)
  {
    match h
    case AllBuckets(_, _, buckets) =>
      r := Ok(buckets);
    case NonzeroBuckets(_, _, count, nonzero) =>
      var dense := DecodeSparse(count, nonzero);
      r := if dense.Ok? then Ok(Numbers(dense.value)) else Err;
  }

  datatype Delta = Delta(resolution: int, total: Difference, buckets: Difference)

  ghost function DeltaOf(before: Histogram, after: Histogram): Result<Delta> {
    if before.resolution != after.resolution then Err
    else
      var total :- Subtract(Num(before.total), Num(after.total));
      var first :- BucketsOf(before);
      var last :- BucketsOf(after);
      var buckets :- Subtract(first, last);
      Ok(Delta(after.resolution, total, buckets))
  }

  method HistogramDelta(before: Histogram, after: Histogram) returns (r: Result<Delta>)
    ensures r == DeltaOf(before, after)
  {
    if before.resolution != after.resolution {
      return Err;
    }
    var total :- Subtract(Num(before.total), Num(after.total));
    var first :- HistogramBuckets(before);
    var last :- HistogramBuckets(after);
    var buckets :- Subtract(first, last);
    r := Ok(Delta(after.resolution, total, buckets));
  }

  /** Buckets are a list of numbers: no field can be missing from one. */
  predicate Flat(j: Json) {
    j.List? && forall i :: 0 <= i < |j.items| ==> j.items[i].Num?
  }

  ghost predicate Recorded(h: Histogram) {
    BucketsOf(h).Ok? && Flat(BucketsOf(h).value)
  }

  lemma {:induction false} FlatIsBridged(a: Json, b: Json, c: Json)
    requires Flat(c) && Subtract(a, b).Ok? && Subtract(b, c).Ok?
    ensures Bridged(a, b, c) <==> b.List?
  {
    if b.List? {
      SubtractKind(a, b);
      SubtractKind(b, c);
    }
  }

  function PlusDelta(x: Delta, y: Delta): Delta {
    Delta(y.resolution, Plus(x.total, y.total), Plus(x.buckets, y.buckets))
  }

  /** Two successive differences of a histogram make up the whole one, exactly if the middle one lists its buckets. */
  lemma DeltasCompose(a: Histogram, b: Histogram, c: Histogram)
    requires DeltaOf(a, b).Ok? && DeltaOf(b, c).Ok? && Recorded(c)
    ensures DeltaOf(a, c) == Ok(PlusDelta(DeltaOf(a, b).value, DeltaOf(b, c).value)) <==> BucketsOf(b).value.List?
  {
    var x, y, z := BucketsOf(a).value, BucketsOf(b).value, BucketsOf(c).value;
    FlatIsBridged(x, y, z);
    Compose(x, y, z);
  }

  /** It does list them whenever the last one has any. */
  lemma ListedUnlessEmpty(b: Histogram, c: Histogram)
    requires DeltaOf(b, c).Ok? && Recorded(c) && BucketsOf(c).value.items != []
    ensures BucketsOf(b).value.List?
  {
    var y, z := BucketsOf(b).value, BucketsOf(c).value;
    SubtractKind(y, z);
    SubtractAt(y, z);
    assert Subtract(Elements(y).value[0], z.items[0]).Ok?;
    SubtractKind(Elements(y).value[0], z.items[0]);
  }

  /** The bucket lists agree in length and no bucket shrank; the difference is each bucket's growth. */
  lemma DeltaMeans(before: Histogram, after: Histogram)
    requires Recorded(before) && Recorded(after)
    ensures var a, b := BucketsOf(before).value.items, BucketsOf(after).value.items;
            && (DeltaOf(before, after).Ok? <==>
                  && before.resolution == after.resolution && before.total <= after.total
                  && |a| == |b| && forall i :: 0 <= i < |a| ==> a[i].n <= b[i].n)
            && (DeltaOf(before, after).Ok? ==>
                  var d := DeltaOf(before, after).value;
                  && d.total == Count(after.total - before.total) && d.buckets.Each? && |d.buckets.items| == |b|
                  && forall i :: 0 <= i < |b| ==> d.buckets.items[i] == Count(b[i].n - a[i].n))
  {
    var a, b := BucketsOf(before).value.items, BucketsOf(after).value.items;
    if |a| == |b| {
      forall i | 0 <= i < |a|
        ensures Subtract(a[i], b[i]) == if a[i].n <= b[i].n then Ok(Count(b[i].n - a[i].n)) else Err
      {
      }
    }
  }

  lemma {:induction false} SameBuckets(h: Histogram, buckets: seq<int>)
    requires h.NonzeroBuckets? && 2 <= |buckets| <= MAX_BUCKETS && Counts(buckets)
    requires h.count == |buckets| && h.nonzero == Encoded(buckets)
    ensures BucketsOf(h) == Ok(Numbers(buckets))
  {
    RoundTrip(buckets);
  }

  lemma SameDeltas(h: Histogram, g: Histogram, other: Histogram)
    requires h.resolution == g.resolution && h.total == g.total && BucketsOf(h) == BucketsOf(g)
    ensures DeltaOf(h, other) == DeltaOf(g, other) && DeltaOf(other, h) == DeltaOf(other, g)
  {
  }

  /** The form a snapshot was recorded in does not matter. */
  lemma {:induction false} FormIsIrrelevant(sparse: Histogram, buckets: seq<int>, other: Histogram)
    requires sparse.NonzeroBuckets? && 2 <= |buckets| <= MAX_BUCKETS && Counts(buckets)
    requires sparse.count == |buckets| && sparse.nonzero == Encoded(buckets)
    ensures var dense := AllBuckets(sparse.resolution, sparse.total, Numbers(buckets));
            DeltaOf(dense, other) == DeltaOf(sparse, other) && DeltaOf(other, dense) == DeltaOf(other, sparse)
  {
    SameBuckets(sparse, buckets);
    SameDeltas(AllBuckets(sparse.resolution, sparse.total, Numbers(buckets)), sparse, other);
  }
}
