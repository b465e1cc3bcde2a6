/**
 The three-node run's count of expected writes, and the acknowledged records its audits find.
 */
module WriteLedger {
  import opened Permutations
  import opened LoadPoints
  import Offers
  import Journal = Acknowledgements

  /** One offer a client took up: what it asked for, whether it was measured and whether it succeeded. */
  datatype Attempt = Attempt(index: nat, write: bool, measured: bool, ok: bool)

  /** The audit reads back exactly the records that carry a request and no error. */
  predicate Acked(a: Attempt) {
    a.write && a.ok
  }

  /** The indexes acknowledged among the first `n` attempts, in order. */
  function AckedUpto(attempts: seq<Attempt>, n: nat): seq<nat>
    requires n <= |attempts|
  {
    if n == 0 then []
    else if Acked(attempts[n - 1]) then AckedUpto(attempts, n - 1) + [attempts[n - 1].index]
    else AckedUpto(attempts, n - 1)
  }

  function AckedIndexes(attempts: seq<Attempt>): seq<nat> {
    AckedUpto(attempts, |attempts|)
  }

  /** The write counters after one attempt: a warm-up one counts with its error, a measured one by its success. */
  function Counted(w: Journal.Writes, a: Attempt): Journal.Writes {
    if !a.write then w
    else if a.measured then w.(successes := if a.ok then w.successes + 1 else w.successes)
    else w.(attempts := w.attempts + 1, errors := if a.ok then w.errors else w.errors + 1)
  }

  lemma CountedOne(w: Journal.Writes, a: Attempt)
    requires Journal.ValidCounters(w)
    ensures Journal.ValidCounters(Counted(w, a))
    ensures Journal.Promised(Counted(w, a)) == if Acked(a) then Journal.Promised(w) + 1 else Journal.Promised(w)
  {
  }

  /** How many of the first `n` attempts were writes, measured or not, that came out one way. */
  ghost function Writes(attempts: seq<Attempt>, n: nat, measured: bool, ok: bool): nat
    requires n <= |attempts|
  {
    if n == 0 then 0
    else
      var a := attempts[n - 1];
      Writes(attempts, n - 1, measured, ok) + if a.write && a.measured == measured && a.ok == ok then 1 else 0
  }

  /**
   The write counters of one point promise exactly its acknowledged writes: its measured successes, and its warm-up
   writes less those that failed.
   */
  method Tally(attempts: seq<Attempt>) returns (w: Journal.Writes)
    ensures Journal.Promised(w) == |AckedIndexes(attempts)| && Journal.ValidCounters(w)
    ensures w.successes == Writes(attempts, |attempts|, true, true) && w.errors == Writes(attempts, |attempts|, false, false)
    ensures w.attempts == w.errors + Writes(attempts, |attempts|, false, true)
  {
    w := Journal.Writes(0, 0, 0);
    for i := 0 to |attempts|
      invariant Journal.ValidCounters(w)
      invariant w.successes == Writes(attempts, i, true, true) && w.errors == Writes(attempts, i, false, false)
      invariant w.attempts == w.errors + Writes(attempts, i, false, true)
      invariant w.successes + w.attempts - w.errors == |AckedUpto(attempts, i)|
    {
      CountedOne(w, attempts[i]);
      w := Counted(w, attempts[i]);
    }
  }

  ghost function SumAcked(runs: seq<seq<Attempt>>): nat {
    if runs == [] then 0 else SumAcked(runs[..|runs| - 1]) + |AckedIndexes(runs[|runs| - 1])|
  }

  /** The expected count: the seeds, what each point's counters promise, and a write a Cell after a disaster. */
  method ExpectedWrites(cells: nat, runs: seq<seq<Attempt>>, recovered: bool) returns (expected: int)
    ensures expected == cells + SumAcked(runs) + if recovered then cells else 0
  {
    expected := cells;
    for i := 0 to |runs|
      invariant expected == cells + SumAcked(runs[..i])
    {
      var w := Tally(runs[i]);
      expected := expected + w.successes + w.attempts - w.errors;
      assert runs[..i + 1][..i] == runs[..i];
    }
    assert runs[..|runs|] == runs;
    if recovered {
      expected := expected + cells;
    }
  }

  // ----- the records the audit reads

  /** A client takes up each offered write at most once. */
  predicate Takes(attempts: seq<Attempt>, planned: nat) {
    && (forall i :: 0 <= i < |attempts| && attempts[i].write ==> attempts[i].index < planned)
    && (forall i, j :: 0 <= i < j < |attempts| && attempts[i].write && attempts[j].write ==>
          attempts[i].index != attempts[j].index)
  }

  function Shifted(base: int, indexes: seq<nat>): (ids: seq<int>)
    ensures |ids| == |indexes| && forall i :: 0 <= i < |ids| ==> ids[i] == base + indexes[i]
  {
    seq(|indexes|, i requires 0 <= i < |indexes| => base + indexes[i])
  }

  /** The ids of a point's acknowledged writes, in the order they were recorded. */
  function PointIds(cells: nat, point: Point, attempts: seq<Attempt>): seq<int> {
    Shifted(cells + point.offset, AckedIndexes(attempts))
  }

  function RunIds(cells: nat, points: seq<Point>, runs: seq<seq<Attempt>>): seq<int>
    requires |points| == |runs|
  {
    if points == [] then []
    else
      var n := |points| - 1;
      RunIds(cells, points[..n], runs[..n]) + PointIds(cells, points[n], runs[n])
  }

  /** Every record an audit reads: the seeds, the points, and the writes after a disaster. */
  function AuditedIds(cells: nat, points: seq<Point>, runs: seq<seq<Attempt>>, offset: nat, recovered: bool): seq<int>
    requires |points| == |runs|
  {
    Shifted(0, Offers.Range(cells)) + RunIds(cells, points, runs)
    + if recovered then Shifted(cells + offset, Offers.Range(cells)) else []
  }

  predicate Between(ids: seq<int>, low: int, high: int) {
    forall i :: 0 <= i < |ids| ==> low <= ids[i] < high
  }

  /** Ids from separate ranges stay distinct together. */
  lemma JoinDistinct(a: seq<int>, b: seq<int>, low: int, middle: int, high: int)
    requires Distinct(a) && Distinct(b) && Between(a, low, middle) && Between(b, middle, high) && low <= middle <= high
    ensures Distinct(a + b) && Between(a + b, low, high)
  {
  }

  ghost predicate Taken(attempts: seq<Attempt>, n: nat, index: nat)
    requires n <= |attempts|
  {
    exists k :: 0 <= k < n && attempts[k].write && attempts[k].index == index
  }

  lemma {:induction false} AckedOnce(attempts: seq<Attempt>, planned: nat, n: nat)
    requires Takes(attempts, planned) && n <= |attempts|
    ensures Distinct(AckedUpto(attempts, n))
    ensures forall i :: 0 <= i < |AckedUpto(attempts, n)| ==> AckedUpto(attempts, n)[i] < planned
    ensures forall i :: 0 <= i < |AckedUpto(attempts, n)| ==> Taken(attempts, n, AckedUpto(attempts, n)[i])
    decreases n
  {
    if n > 0 {
      AckedOnce(attempts, planned, n - 1);
      var before := AckedUpto(attempts, n - 1);
      forall i | 0 <= i < |before|
        ensures Taken(attempts, n, before[i])
        ensures Acked(attempts[n - 1]) ==> before[i] != attempts[n - 1].index
      {
        assert Taken(attempts, n - 1, before[i]);
        var k :| 0 <= k < n - 1 && attempts[k].write && attempts[k].index == before[i];
      }
    }
  }

  ghost predicate AllTake(points: seq<Point>, runs: seq<seq<Attempt>>) {
    |points| == |runs| && forall i :: 0 <= i < |points| ==> Takes(runs[i], points[i].planned)
  }

  lemma PointIdsOnce(cells: nat, point: Point, attempts: seq<Attempt>)
    requires Takes(attempts, point.planned)
    ensures Distinct(PointIds(cells, point, attempts))
    ensures Between(PointIds(cells, point, attempts), cells + point.offset, cells + point.offset + point.planned)
  {
    AckedOnce(attempts, point.planned, |attempts|);
  }

  lemma {:induction false} RunIdsOnce(cells: nat, points: seq<Point>, runs: seq<seq<Attempt>>, end: nat)
    requires cells > 0 && Laid(points, end, cells) && AllTake(points, runs)
    ensures Distinct(RunIds(cells, points, runs)) && Between(RunIds(cells, points, runs), cells, cells + end)
    ensures |RunIds(cells, points, runs)| == SumAcked(runs)
    decreases |points|
  {
    if points != [] {
      var n := |points| - 1;
      var p := points[n];
      LaidBefore(points, end, cells);
      RunIdsOnce(cells, points[..n], runs[..n], p.offset);
      PointIdsOnce(cells, p, runs[n]);
      JoinDistinct(RunIds(cells, points[..n], runs[..n]), PointIds(cells, p, runs[n]), cells, cells + p.offset, cells + end);
    }
  }

  lemma LaidBefore(points: seq<Point>, end: nat, cells: nat)
    requires cells > 0 && Laid(points, end, cells) && points != []
    ensures Laid(points[..|points| - 1], points[|points| - 1].offset, cells)
  {
  }

  /** The audit's count is the expected one, and it counts every acknowledged id once. */
  lemma {:induction false} AuditMeetsExpectation(cells: nat, points: seq<Point>, runs: seq<seq<Attempt>>, offset: nat, recovered: bool)
    requires cells > 0 && Laid(points, offset, cells) && AllTake(points, runs)
    ensures |AuditedIds(cells, points, runs, offset, recovered)| == cells + SumAcked(runs) + if recovered then cells else 0
    ensures Distinct(AuditedIds(cells, points, runs, offset, recovered))
  {
    var seeds, writes := Shifted(0, Offers.Range(cells)), RunIds(cells, points, runs);
    var recovery := if recovered then Shifted(cells + offset, Offers.Range(cells)) else [];
    RunIdsOnce(cells, points, runs, offset);
    JoinDistinct(seeds, writes, 0, cells, cells + offset);
    JoinDistinct(seeds + writes, recovery, 0, cells + offset, cells + offset + cells);
  }

  /** No more is ever expected than the run planned, and all of it exactly if every planned write was acknowledged. */
  lemma {:induction false} ExpectedWithinPlan(points: seq<Point>, runs: seq<seq<Attempt>>)
    requires AllTake(points, runs)
    ensures SumAcked(runs) <= SumPlanned(points)
    ensures SumAcked(runs) == SumPlanned(points) <==>
            forall i :: 0 <= i < |points| ==> |AckedIndexes(runs[i])| == points[i].planned
    decreases |points|
  {
    if points != [] {
      var n := |points| - 1;
      ExpectedWithinPlan(points[..n], runs[..n]);
      AckedOnce(runs[n], points[n].planned, |runs[n]|);
      Pigeonhole(AckedIndexes(runs[n]), points[n].planned);
    }
  }

  ghost function SumPlanned(points: seq<Point>): nat {
    if points == [] then 0 else SumPlanned(points[..|points| - 1]) + points[|points| - 1].planned
  }

  lemma {:induction false} Pigeonhole(indexes: seq<nat>, n: nat)
    requires Distinct(indexes) && forall i :: 0 <= i < |indexes| ==> indexes[i] < n
    ensures |indexes| <= n
    decreases n
  {
    assert indexes != [] ==> indexes[0] < n;
    if exists k :: 0 <= k < |indexes| && indexes[k] == n - 1 {
      var k :| 0 <= k < |indexes| && indexes[k] == n - 1;
      var rest := indexes[..k] + indexes[k + 1..];
      assert forall i :: 0 <= i < |rest| ==> rest[i] == indexes[if i < k then i else i + 1];
      Pigeonhole(rest, n - 1);
    } else if n > 0 {
      Pigeonhole(indexes, n - 1);
    }
  }
}
