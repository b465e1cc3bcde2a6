/**
 The three-node load run: which ids each load point may write, and which Cell and node an id belongs to.
 */
module LoadPoints {
  import Offers

  // ----- the offsets of successive points

  /** One load point: where its write ids start beyond the seeds, and how many it may use. */
  datatype Point = Point(offset: nat, planned: nat)

  /** Offsets are whole rounds of the Cells, and no point runs into the next or past the end. */
  predicate Laid(points: seq<Point>, end: nat, cells: nat)
    requires cells > 0
  {
    && end % cells == 0
    && (forall i :: 0 <= i < |points| ==> points[i].offset % cells == 0 && points[i].offset + points[i].planned <= end)
    && (forall i, j :: 0 <= i < j < |points| ==> points[i].offset + points[i].planned <= points[j].offset)
  }

  /** A point's ids rounded up to whole rounds. */
  function Rounded(planned: nat, cells: nat): (r: nat)
    requires cells > 0
    ensures planned <= r < planned + cells && r % cells == 0
  {
    RoundsUp(planned, cells);
    (planned + cells - 1) / cells * cells
  }

  lemma RoundsUp(planned: nat, cells: nat)
    requires cells > 0
    ensures var r := (planned + cells - 1) / cells * cells; planned <= r < planned + cells && r % cells == 0
  {
    var q := (planned + cells - 1) / cells;
    assert planned + cells - 1 == cells * q + (planned + cells - 1) % cells;
    Multiple(q, cells);
  }

  lemma Multiple(q: nat, c: nat)
    requires c > 0
    ensures q * c >= 0 && (q * c) % c == 0
  {
    Remainder(q, c, 0);
  }

  /** Whole rounds do not change a remainder. */
  lemma Remainder(q: int, c: int, r: int)
    requires 0 <= r < c
    ensures (q * c + r) % c == r
  {
    var x := q * c + r;
    var e := q - x / c;
    assert x == c * (x / c) + x % c;
    assert c * e == x % c - r;
    assert e >= 1 ==> c * e >= c;
    assert e <= -1 ==> c * e <= -c;
  }

  lemma RoundsAdd(a: nat, b: nat, c: nat)
    requires c > 0 && a % c == 0
    ensures (a + b) % c == b % c
  {
    assert a == c * (a / c) && b == c * (b / c) + b % c;
    assert a + b == (a / c + b / c) * c + b % c;
    Remainder(a / c + b / c, c, b % c);
  }

  /** How many writes a point of a sweep offers; a read point offers none. */
  function Planned(writes: bool, rate: nat, seconds: nat): nat {
    if writes then rate * seconds else 0
  }

  /** A point's plan is exactly the writes its schedule offers: no offered index lies beyond it, and none is missing. */
  lemma {:induction false} PlanIsTheSchedule(s: Offers.Schedule, writes: bool, rate: nat, jobs: seq<Offers.Job>, closed: bool)
    requires s.writeRate == (if writes then rate else 0) && Offers.Produced(jobs, s, closed)
    ensures var planned := Planned(writes, rate, s.warmup + s.seconds);
            && (forall i :: 0 <= i < |Offers.Indexes(jobs, true)| ==> Offers.Indexes(jobs, true)[i] == i < planned)
            && (!closed ==> |Offers.Indexes(jobs, true)| == planned)
  {
    assert Offers.Planned(s, true) == Planned(writes, rate, s.warmup + s.seconds);
    assert Offers.Indexes(jobs, true) <= Offers.Range(Offers.Planned(s, true));
  }

  /** A point starts less than a round after the one before it ended, and the first at the start. */
  predicate Packed(points: seq<Point>, end: nat, cells: nat) {
    && (points == [] ==> end == 0) && (points != [] ==> points[0].offset == 0)
    && (forall i :: 0 <= i < |points| - 1 ==> points[i + 1].offset < points[i].offset + points[i].planned + cells)
    && (points != [] ==> end < points[|points| - 1].offset + points[|points| - 1].planned + cells)
  }

  lemma PackedNext(points: seq<Point>, offset: nat, cells: nat, planned: nat)
    requires cells > 0 && Packed(points, offset, cells)
    ensures Packed(points + [Point(offset, planned)], offset + Rounded(planned, cells), cells)
  {
  }

  lemma LaidNext(points: seq<Point>, offset: nat, cells: nat, planned: nat)
    requires cells > 0 && Laid(points, offset, cells)
    ensures Laid(points + [Point(offset, planned)], offset + Rounded(planned, cells), cells)
  {
    RoundsAdd(offset, Rounded(planned, cells), cells);
  }

  method Sweep(before: seq<Point>, start: nat, cells: nat, rates: seq<nat>, writes: bool, seconds: nat)
    returns (points: seq<Point>, offset: nat)
    requires cells > 0 && Laid(before, start, cells) && Packed(before, start, cells)
    ensures Laid(points, offset, cells) && Packed(points, offset, cells)
    ensures Plans(points) == Plans(before) + SweepPlans(writes, rates, seconds)
  {
    points, offset := before, start;
    for i := 0 to |rates|
      invariant Laid(points, offset, cells) && Packed(points, offset, cells)
      invariant Plans(points) == Plans(before) + SweepPlans(writes, rates, seconds)[..i]
    {
      var planned := Planned(writes, rates[i], seconds);
      LaidNext(points, offset, cells, planned);
      PackedNext(points, offset, cells, planned);
      assert Plans(points + [Point(offset, planned)]) == Plans(points) + [planned];
      points, offset := points + [Point(offset, planned)], offset + Rounded(planned, cells);
    }
  }

  function Plans(points: seq<Point>): seq<nat> {
    seq(|points|, i requires 0 <= i < |points| => points[i].planned)
  }

  function SweepPlans(writes: bool, rates: seq<nat>, seconds: nat): seq<nat> {
    seq(|rates|, i requires 0 <= i < |rates| => Planned(writes, rates[i], seconds))
  }

  /** What the run offers: each repetition sweeps the write rates and then the read rates. */
  function RunPlans(repetitions: nat, writeRates: seq<nat>, readRates: seq<nat>, seconds: nat): seq<nat> {
    if repetitions == 0 then []
    else RunPlans(repetitions - 1, writeRates, readRates, seconds)
         + SweepPlans(true, writeRates, seconds) + SweepPlans(false, readRates, seconds)
  }

  method Execute(cells: nat, repetitions: nat, writeRates: seq<nat>, readRates: seq<nat>, seconds: nat)
    returns (points: seq<Point>, offset: nat)
    requires cells > 0
    ensures Laid(points, offset, cells) && Packed(points, offset, cells)
    ensures Plans(points) == RunPlans(repetitions, writeRates, readRates, seconds)
  {
    points, offset := [], 0;
    for repetition := 0 to repetitions
      invariant Laid(points, offset, cells) && Packed(points, offset, cells)
      invariant Plans(points) == RunPlans(repetition, writeRates, readRates, seconds)
    {
      points, offset := Sweep(points, offset, cells, writeRates, true, seconds);
      points, offset := Sweep(points, offset, cells, readRates, false, seconds);
    }
  }

  // ----- the ids themselves

  function WriteId(cells: nat, point: Point, index: nat): int {
    cells + index + point.offset
  }

  function RecoveryId(cells: nat, offset: nat, shard: nat): int {
    cells + offset + shard
  }

  /** The node an id is sent to. */
  function NodeOf(id: nat, cells: nat, nodes: nat): nat
    requires cells > 0 && nodes > 0
  {
    id % cells % nodes
  }

  /** Seeds, points and recovery never share an id. */
  lemma IdsAreDisjoint(points: seq<Point>, end: nat, cells: nat, p: nat, i: nat)
    requires cells > 0 && Laid(points, end, cells) && p < |points| && i < points[p].planned
    ensures WriteId(cells, points[p], i) >= cells
    ensures forall shard: nat :: shard < cells ==> WriteId(cells, points[p], i) < RecoveryId(cells, end, shard)
    ensures forall q: nat, j: nat :: q < |points| && j < points[q].planned && (q, j) != (p, i) ==>
              WriteId(cells, points[q], j) != WriteId(cells, points[p], i)
  {
    forall q: nat, j: nat | q < |points| && j < points[q].planned && (q, j) != (p, i)
      ensures WriteId(cells, points[q], j) != WriteId(cells, points[p], i)
    {
      if q < p {
        assert points[q].offset + points[q].planned <= points[p].offset;
      } else if p < q {
        assert points[p].offset + points[p].planned <= points[q].offset;
      }
    }
  }

  /** The driver's shard and the control tool's routing agree on every id. */
  lemma RoutingAgrees(points: seq<Point>, end: nat, cells: nat, nodes: nat, p: nat, index: nat)
    requires cells > 0 && nodes > 0 && Laid(points, end, cells) && p < |points|
    ensures WriteId(cells, points[p], index) % cells == index % cells
    ensures NodeOf(WriteId(cells, points[p], index), cells, nodes) == index % cells % nodes
  {
    RoundsAdd(cells, index + points[p].offset, cells) by { Remainder(1, cells, 0); }
    RoundsAdd(points[p].offset, index, cells);
  }

  // ----- recovery writes

  /** The Cells of one node: every `nodes`-th one from its own index. */
  function PerNode(cells: nat, node: nat, nodes: nat): nat
    requires nodes > 0
  {
    if node >= cells then 0 else (cells - node + nodes - 1) / nodes
  }

  ghost function SentTo(cells: nat, offset: nat, node: nat, nodes: nat, n: nat): nat
    requires cells > 0 && nodes > 0 && n <= cells
  {
    if n == 0 then 0
    else SentTo(cells, offset, node, nodes, n - 1)
         + if NodeOf(RecoveryId(cells, offset, n - 1), cells, nodes) == node then 1 else 0
  }

  lemma RecoveryShard(cells: nat, offset: nat, shard: nat)
    requires cells > 0 && offset % cells == 0 && shard < cells
    ensures RecoveryId(cells, offset, shard) % cells == shard
  {
    RoundsAdd(cells, offset + shard, cells) by { Remainder(1, cells, 0); }
    RoundsAdd(offset, shard, cells);
    Remainder(0, cells, shard);
  }

  /** After recovery each Cell is written exactly once. */
  lemma EachCellOnce(cells: nat, offset: nat, cell: nat)
    requires cells > 0 && offset % cells == 0 && cell < cells
    ensures RecoveryId(cells, offset, cell) % cells == cell
    ensures forall shard: nat :: shard < cells && RecoveryId(cells, offset, shard) % cells == cell ==> shard == cell
  {
    forall shard: nat | shard < cells
      ensures RecoveryId(cells, offset, shard) % cells == shard
    {
      RecoveryShard(cells, offset, shard);
    }
  }

  lemma PerNodeNext(n: nat, node: nat, nodes: nat)
    requires node < nodes
    ensures PerNode(n + 1, node, nodes) == PerNode(n, node, nodes) + if n % nodes == node then 1 else 0
  {
    var q, r := n / nodes, n % nodes;
    assert n == nodes * q + r;
    CeilingAt(n, node, nodes, q, r);
    if r + 1 < nodes {
      CeilingAt(n + 1, node, nodes, q, r + 1);
    } else {
      assert n + 1 == nodes * (q + 1) + 0;
      CeilingAt(n + 1, node, nodes, q + 1, 0);
    }
  }

  /** Among the first n Cells a node has one a whole round, and one more if the last round reached it. */
  lemma CeilingAt(n: nat, node: nat, nodes: nat, q: int, r: nat)
    requires node < nodes && 0 <= r < nodes && n == nodes * q + r && q >= 0
    ensures PerNode(n, node, nodes) == q + if node < r then 1 else 0
  {
    if node < n {
      var x := n - node + nodes - 1;
      if node < r {
        assert x == (q + 1) * nodes + (r - node - 1);
        DividesInto(x, nodes, q + 1, r - node - 1);
      } else {
        assert x == q * nodes + (r - node + nodes - 1);
        DividesInto(x, nodes, q, r - node + nodes - 1);
      }
    } else {
      assert q >= 1 ==> nodes * q >= nodes;
    }
  }

  lemma DividesInto(x: int, d: nat, q: int, r: nat)
    requires 0 <= r < d && x == q * d + r
    ensures x / d == q
  {
    Remainder(q, d, r);
    assert x == d * (x / d) + x % d;
    assert d * (x / d - q) == 0;
  }

  /** Each node receives exactly the Cells it was started with. */
  lemma {:induction false} NodesGetTheirShare(cells: nat, offset: nat, node: nat, nodes: nat, n: nat)
    requires cells > 0 && node < nodes && offset % cells == 0 && n <= cells
    ensures SentTo(cells, offset, node, nodes, n) == PerNode(n, node, nodes)
    decreases n
  {
    if n > 0 {
      NodesGetTheirShare(cells, offset, node, nodes, n - 1);
      RecoveryShard(cells, offset, n - 1);
      PerNodeNext(n - 1, node, nodes);
    }
  }
}
