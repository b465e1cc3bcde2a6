/**
 The whole read run: a warm-up, then one window a rate until the first that is not fully served.
 */
module ReadRamp {
  import opened Results
  import opened SlotTrace
  import opened TailSummary
  import opened ByteStreams
  import opened ReadRecords
  import opened ReadExports
  import opened ReadWindow
  import opened QueryPhases
  import QueryStream

  datatype WindowRow = WindowRow(id: int, phase: string, sample: Sample, raw: seq<Byte>, errors: seq<ErrorRow>)

  /** A Cell of the population, and the sequence it had reached. */
  datatype Cell = Cell(name: string, entity: int, sequence: int)

  /** The run's evidence beside its windows: the population, slot reservations, queries and exports. */
  datatype Evidence = Evidence(
    cells: seq<Cell>, slotRows: seq<Row>, queries: seq<Query>, workers: int, exports: seq<Export>, retained: nat)

  function Population(cells: seq<Cell>): set<string> {
    set c | c in cells :: c.name
  }

  function Arrivals(row: WindowRow): seq<Attempt> {
    DecodeAll(row.raw)
  }

  // ----- the seeds

  /** Sixty-four lower-case hexadecimal digits. */
  predicate IsDigest(text: string) {
    |text| == 64 && forall i :: 0 <= i < 64 ==> '0' <= text[i] <= '9' || 'a' <= text[i] <= 'f'
  }

  function VerifySeed(seed: Seed, cell: Cell, entity: int): Result<()> {
    if !(seed.entity == cell.entity == entity) then Err
    else if !(seed.minimum == cell.sequence > 0) then Err
    else if !(0 <= seed.key < 100_000 && seed.payload == 1024) then Err
    else if |seed.digest| != 2 * DIGEST || exists i :: 0 <= i < |seed.digest| && seed.digest[i] !in HEX then Err
    else Ok(())
  }

  /** One seed a Cell, in the order of the population: a kilobyte under a key, at the sequence the Cell had reached. */
  predicate SeedsOk(seeds: seq<Seed>, cells: seq<Cell>, count: int) {
    && |seeds| == count && |cells| == count
    && (forall i :: 0 <= i < count ==> seeds[i].entity == i && cells[i].entity == i)
    && (forall i :: 0 <= i < count ==> cells[i].sequence >= 1 && seeds[i].minimum == cells[i].sequence)
    && (forall i :: 0 <= i < count ==> 0 <= seeds[i].key <= 99_999 && seeds[i].payload == 1024 && IsDigest(seeds[i].digest))
  }

  lemma DigestAccepted(text: string)
    ensures IsDigest(text) <==> |text| == 2 * DIGEST && forall i :: 0 <= i < |text| ==> text[i] in HEX
  {
    forall c: char
      ensures c in HEX <==> '0' <= c <= '9' || 'a' <= c <= 'f'
    {
      HexDigits(c);
    }
  }

  lemma HexDigits(c: char)
    ensures c in HEX <==> '0' <= c <= '9' || 'a' <= c <= 'f'
  {
    assert HEX == ['0', '1', '2', '3', '4', '5', '6', '7', '8', '9', 'a', 'b', 'c', 'd', 'e', 'f'];
  }

  lemma SeedsAccepted(seeds: seq<Seed>, cells: seq<Cell>, count: int)
    ensures SeedsOk(seeds, cells, count) <==>
            && |seeds| == |cells| == count && forall i :: 0 <= i < |seeds| ==> VerifySeed(seeds[i], cells[i], i).Ok?
  {
    if |seeds| == |cells| == count {
      forall i | 0 <= i < count
        ensures VerifySeed(seeds[i], cells[i], i).Ok? <==>
                && seeds[i].entity == i && cells[i].entity == i && cells[i].sequence >= 1
                && seeds[i].minimum == cells[i].sequence && 0 <= seeds[i].key <= 99_999 && seeds[i].payload == 1024
                && IsDigest(seeds[i].digest)
      {
        DigestAccepted(seeds[i].digest);
      }
    }
  }

  predicate Planned(row: WindowRow, i: nat, plan: Plan, warmup: int)
    requires i <= |plan.rates|
  {
    row.id == i && (if i == 0 then row.phase == "warmup" && row.sample.rate == warmup
                    else row.phase == "measure" && row.sample.rate == plan.rates[i - 1])
  }

  predicate RampOk(rows: seq<WindowRow>, plan: Plan, warmup: int) {
    2 <= |rows| <= |plan.rates| + 1 && forall i :: 0 <= i < |rows| ==> Planned(rows[i], i, plan, warmup)
  }

  /** The planned windows: their ids, phases and rates. */
  function Expected(plan: Plan, warmup: int): (expected: seq<(int, string, int)>)
    ensures |expected| == |plan.rates| + 1
  {
    [(0, "warmup", warmup)] + seq(|plan.rates|, i requires 0 <= i < |plan.rates| => (i + 1, "measure", plan.rates[i]))
  }

  function Found(rows: seq<WindowRow>): (found: seq<(int, string, int)>)
    ensures |found| == |rows|
  {
    seq(|rows|, i requires 0 <= i < |rows| => (rows[i].id, rows[i].phase, rows[i].sample.rate))
  }

  lemma RampAccepted(rows: seq<WindowRow>, plan: Plan, warmup: int)
    requires |rows| <= |plan.rates| + 1
    ensures Found(rows) == Expected(plan, warmup)[..|rows|] <==>
            forall i :: 0 <= i < |rows| ==> Planned(rows[i], i, plan, warmup)
  {
    var expected := Expected(plan, warmup)[..|rows|];
    forall i | 0 <= i < |rows|
      ensures Found(rows)[i] == expected[i] <==> Planned(rows[i], i, plan, warmup)
    {
    }
  }

  ghost predicate RowOk(row: WindowRow, seeds: seq<Seed>, plan: Plan)
    requires |seeds| == plan.cells
  {
    FileOk(row.sample, row.raw, row.errors, seeds, plan)
  }

  ghost function AsWindow(row: WindowRow): QueryStream.Window {
    QueryStream.Window(row.sample.startAt, row.sample.endAt, CountOutcome(Arrivals(row), 1), CountOutcome(Arrivals(row), 2))
  }

  /** The window's recorded verdict. */
  predicate ServedRow(row: WindowRow) {
    row.sample.fullyServed == "true"
  }

  /** Every arrival of the window succeeded, and 99 percent of them in time. */
  ghost predicate Earned(row: WindowRow) {
    Arrivals(row) != [] && Served(Arrivals(row), row.sample)
  }

  lemma VerdictIsEarned(row: WindowRow, seeds: seq<Seed>, plan: Plan)
    requires |seeds| == plan.cells && RowOk(row, seeds, plan)
    ensures Earned(row) <==> ServedRow(row)
  {
  }

  /** What later checks use of a verified window. */
  datatype Point = Point(rate: int, served: bool, window: QueryStream.Window)

  ghost function AsPoint(row: WindowRow): Point {
    Point(row.sample.rate, ServedRow(row), AsWindow(row))
  }

  ghost function AsPoints(rows: seq<WindowRow>): (points: seq<Point>)
    ensures |points| == |rows|
  {
    seq(|rows|, i requires 0 <= i < |rows| => AsPoint(rows[i]))
  }

  function Windows(points: seq<Point>): seq<QueryStream.Window> {
    seq(|points|, i requires 0 <= i < |points| => points[i].window)
  }

  ghost predicate AllRowsOk(rows: seq<WindowRow>, seeds: seq<Seed>, plan: Plan)
    requires |seeds| == plan.cells
  {
    forall i :: 0 <= i < |rows| ==> RowOk(rows[i], seeds, plan)
  }

  ghost predicate EvidenceAgrees(points: seq<Point>, e: Evidence) {
    && QueryStream.Separated(Windows(points))
    && QueryStream.EvidenceOk(e.slotRows, e.queries, e.workers, Windows(points), Population(e.cells))
  }

  /** The ramp went on while points were served and stopped only at one that was not, or at the last rate. */
  predicate RampStops(points: seq<Point>, planned: nat)
    requires points != []
  {
    && (forall i :: 1 <= i < |points| - 1 ==> points[i].served)
    && (|points| == planned + 1 || !points[|points| - 1].served)
  }

  // ----- the exports

  function AsRequests(row: WindowRow): Requests {
    var s := row.sample;
    Requests(row.id, s.elapsed, s.exportRequests, s.exportAccepted, s.exportFailed, s.exportCompleted)
  }

  ghost predicate RowExports(row: WindowRow, exports: seq<Export>) {
    ExportsOk(AsRequests(row), OfWindow(exports, row.id))
  }

  /** No row names an unplanned window, and each window's rows are what it recorded. */
  ghost predicate ExportsAgree(rows: seq<WindowRow>, exports: seq<Export>) {
    && (forall i :: 0 <= i < |exports| ==> 0 <= exports[i].window < |rows|)
    && (forall i :: 0 <= i < |rows| ==> RowExports(rows[i], exports))
  }

  /** The report is of the row's own exports, which are what it recorded. */
  ghost predicate Exported(report: ExportReport, row: WindowRow, exports: seq<Export>) {
    RowExports(row, exports) && report.failed == row.sample.exportFailed
  }

  method VerifyRowExports(row: WindowRow, exports: seq<Export>) returns (r: Result<ExportReport>)
    ensures r.Ok? <==> RowExports(row, exports)
    ensures r.Ok? ==> Exported(r.value, row, exports)
  {
    r := VerifyExports(AsRequests(row), OfWindow(exports, row.id));
  }

  method VerifyAllExports(rows: seq<WindowRow>, exports: seq<Export>) returns (r: Result<seq<ExportReport>>)
    ensures r.Ok? <==> ExportsAgree(rows, exports)
    ensures r.Ok? ==> |r.value| == |rows| && forall i :: 0 <= i < |rows| ==> Exported(r.value[i], rows[i], exports)
  {
    if exists i :: 0 <= i < |exports| && !(0 <= exports[i].window < |rows|) {
      return Err;
    }
    var reports: seq<ExportReport> := [];
    while |reports| < |rows|
      invariant |reports| <= |rows|
      invariant forall k :: 0 <= k < |reports| ==> Exported(reports[k], rows[k], exports)
    {
      var report := VerifyRowExports(rows[|reports|], exports);
      if report.Err? {
        return Err;
      }
      reports := reports + [report.value];
    }
    assert forall k :: 0 <= k < |rows| ==> Exported(reports[k], rows[k], exports);
    r := Ok(reports);
  }

  ghost predicate RunOk(rows: seq<WindowRow>, seeds: seq<Seed>, plan: Plan, warmup: int, e: Evidence) {
    && SeedsOk(seeds, e.cells, plan.cells) && RampOk(rows, plan, warmup) && AllRowsOk(rows, seeds, plan)
    && ExportsAgree(rows, e.exports) && EvidenceAgrees(AsPoints(rows), e) && RampStops(AsPoints(rows), |plan.rates|)
  }

  /** The greatest rate served among the first `n` points after the warm-up, or 0. */
  ghost predicate IsHighest(highest: int, points: seq<Point>, n: nat)
    requires n <= |points|
  {
    && (forall i :: 1 <= i < n && points[i].served ==> points[i].rate <= highest)
    && (highest == 0 || exists i :: 1 <= i < n && points[i].served && points[i].rate == highest)
  }

  // ----- reading a run

  method VerifyRow(row: WindowRow, seeds: seq<Seed>, plan: Plan) returns (r: Result<Point>)
    requires |seeds| == plan.cells
    ensures r.Ok? <==> RowOk(row, seeds, plan)
    ensures r.Ok? ==> Describes(r.value, row) && r.value.rate > 0
  {
    var v :- VerifyWindow(row.sample, row.raw, row.errors, seeds, plan);
    var outcomes := v.tally.outcomes;
    r := Ok(Point(row.sample.rate, v.served,
                  QueryStream.Window(row.sample.startAt, row.sample.endAt, outcomes[1], outcomes[2])));
  }

  ghost predicate Describes(p: Point, row: WindowRow) {
    p == AsPoint(row)
  }

  lemma {:induction false} DescribedPoints(points: seq<Point>, rows: seq<WindowRow>)
    requires |points| == |rows| && forall i :: 0 <= i < |rows| ==> Describes(points[i], rows[i])
    ensures points == AsPoints(rows)
  {
    assert forall i :: 0 <= i < |rows| ==> Describes(points[i], rows[i]);
  }

  /** The point is the row's, and the row is verified. */
  ghost predicate Verified(p: Point, row: WindowRow, seeds: seq<Seed>, plan: Plan)
    requires |seeds| == plan.cells
  {
    Describes(p, row) && p.rate > 0 && RowOk(row, seeds, plan)
  }

  ghost predicate VerifiedUpto(points: seq<Point>, rows: seq<WindowRow>, seeds: seq<Seed>, plan: Plan)
    requires |seeds| == plan.cells
  {
    |points| <= |rows| && forall k :: 0 <= k < |points| ==> Verified(points[k], rows[k], seeds, plan)
  }

  lemma PointAdded(points: seq<Point>, p: Point, rows: seq<WindowRow>, seeds: seq<Seed>, plan: Plan)
    requires |seeds| == plan.cells && VerifiedUpto(points, rows, seeds, plan) && |points| < |rows|
    requires Verified(p, rows[|points|], seeds, plan)
    ensures VerifiedUpto(points + [p], rows, seeds, plan)
  {
    var longer := points + [p];
    forall k | 0 <= k < |longer|
      ensures Verified(longer[k], rows[k], seeds, plan)
    {
      assert longer[k] == if k < |points| then points[k] else p;
    }
  }

  method AddPoint(points: seq<Point>, rows: seq<WindowRow>, seeds: seq<Seed>, plan: Plan) returns (r: Result<seq<Point>>)
    requires |seeds| == plan.cells && VerifiedUpto(points, rows, seeds, plan) && |points| < |rows|
    ensures r.Err? ==> !AllRowsOk(rows, seeds, plan)
    ensures r.Ok? ==> |r.value| == |points| + 1 && VerifiedUpto(r.value, rows, seeds, plan)
  {
    var p := VerifyRow(rows[|points|], seeds, plan);
    if p.Err? {
      return Err;
    }
    PointAdded(points, p.value, rows, seeds, plan);
    r := Ok(points + [p.value]);
  }

  method VerifyRows(rows: seq<WindowRow>, seeds: seq<Seed>, plan: Plan) returns (r: Result<seq<Point>>)
    requires |seeds| == plan.cells
    ensures r.Err? ==> !AllRowsOk(rows, seeds, plan)
    ensures r.Ok? ==> |r.value| == |rows| && VerifiedUpto(r.value, rows, seeds, plan)
  {
    var points: seq<Point> := [];
    while |points| < |rows|
      invariant VerifiedUpto(points, rows, seeds, plan)
    {
      points :- AddPoint(points, rows, seeds, plan);
    }
    r := Ok(points);
  }

  lemma {:induction false} VerifiedRows(points: seq<Point>, rows: seq<WindowRow>, seeds: seq<Seed>, plan: Plan)
    requires |seeds| == plan.cells && VerifiedUpto(points, rows, seeds, plan) && |points| == |rows|
    ensures AllRowsOk(rows, seeds, plan) && points == AsPoints(rows)
    ensures forall i :: 0 <= i < |points| ==> points[i].rate > 0
  {
    forall i | 0 <= i < |rows|
      ensures RowOk(rows[i], seeds, plan) && Describes(points[i], rows[i]) && points[i].rate > 0
    {
      assert Verified(points[i], rows[i], seeds, plan);
    }
    DescribedPoints(points, rows);
  }

  method HighestServed(points: seq<Point>) returns (highest: int)
    requires points != [] && forall i :: 0 <= i < |points| ==> points[i].rate > 0
    ensures IsHighest(highest, points, |points|)
  {
    highest := 0;
    for i := 1 to |points|
      invariant IsHighest(highest, points, i)
    {
      if points[i].served {
        highest := Max(highest, points[i].rate);
      }
    }
  }

  /** The greatest rate served, the arrivals verified, and the reports of every window's queries and exports. */
  datatype RunReport = RunReport(highest: int, arrivals: int, queries: seq<QueryStream.Report>, exports: seq<ExportReport>)

  ghost predicate QueriesReported(reports: seq<QueryStream.Report>, points: seq<Point>, e: Evidence, names: seq<string>,
                                  actorNames: seq<string>) {
    && |reports| == |points| && AllVerify(e.slotRows, e.workers)
    && QueryStream.AllReport(reports, e.queries, Windows(points), SlotMap(e.slotRows, e.workers), e.retained, names, actorNames)
  }

  ghost function SumArrivals(rows: seq<WindowRow>): int {
    if rows == [] then 0 else SumArrivals(rows[..|rows| - 1]) + rows[|rows| - 1].sample.count
  }

  method TotalArrivals(rows: seq<WindowRow>) returns (total: int)
    ensures total == SumArrivals(rows)
  {
    total := 0;
    for i := 0 to |rows|
      invariant total == SumArrivals(rows[..i])
    {
      total := total + rows[i].sample.count;
      assert rows[..i + 1][..i] == rows[..i];
    }
    assert rows[..|rows|] == rows;
  }

  method VerifyOwnerReads(rows: seq<WindowRow>, seeds: seq<Seed>, plan: Plan, warmup: int, e: Evidence,
                          names: PhaseNames, actorNames: PhaseNames) returns (r: Result<RunReport>)
    ensures r.Ok? <==> RunOk(rows, seeds, plan, warmup, e)
    ensures r.Ok? ==> IsHighest(r.value.highest, AsPoints(rows), |rows|) && r.value.arrivals == SumArrivals(rows)
    ensures r.Ok? ==> QueriesReported(r.value.queries, AsPoints(rows), e, names, actorNames)
    ensures r.Ok? ==> |r.value.exports| == |rows|
                      && forall i :: 0 <= i < |rows| ==> Exported(r.value.exports[i], rows[i], e.exports)
  {
    var planned := CheckPlan(rows, seeds, plan, warmup, e.cells);
    if !planned {
      return Err;
    }
    var points :- VerifyRows(rows, seeds, plan);
    var exports :- VerifyAllExports(rows, e.exports);
    VerifiedRows(points, rows, seeds, plan);
    var reports :- VerifyEvidence(points, e, names, actorNames);
    if !RampStops(points, |plan.rates|) {
      return Err;
    }
    var highest := HighestServed(points);
    var arrivals := TotalArrivals(rows);
    r := Ok(RunReport(highest, arrivals, reports, exports));
  }

  method CheckPlan(rows: seq<WindowRow>, seeds: seq<Seed>, plan: Plan, warmup: int, cells: seq<Cell>) returns (ok: bool)
    ensures ok <==> SeedsOk(seeds, cells, plan.cells) && RampOk(rows, plan, warmup)
  {
    SeedsAccepted(seeds, cells, plan.cells);
    if !(|seeds| == |cells| == plan.cells) || exists i :: 0 <= i < |seeds| && VerifySeed(seeds[i], cells[i], i).Err? {
      return false;
    }
    if !(2 <= |rows| <= |plan.rates| + 1) {
      return false;
    }
    RampAccepted(rows, plan, warmup);
    ok := Found(rows) == Expected(plan, warmup)[..|rows|];
  }

  method VerifyEvidence(points: seq<Point>, e: Evidence, names: PhaseNames, actorNames: PhaseNames)
    returns (r: Result<seq<QueryStream.Report>>)
    ensures r.Ok? <==> EvidenceAgrees(points, e)
    ensures r.Ok? ==> QueriesReported(r.value, points, e, names, actorNames)
  {
    if !QueryStream.Separated(Windows(points)) {
      return Err;
    }
    r := QueryStream.VerifyQueries(e.slotRows, e.queries, e.workers, Windows(points), Population(e.cells), e.retained, names,
                                   actorNames);
  }

  // ----- what an accepted run shows

  predicate Rising(rates: seq<int>) {
    forall i, j :: 0 <= i < j < |rates| ==> rates[i] < rates[j]
  }

  /**
   Over rising rates the reported rate is a boundary: every rate up to it was measured and fully served, and the next
   one, if the plan has one, was measured and was not.
   */
  lemma HighestIsTheBoundary(rows: seq<WindowRow>, seeds: seq<Seed>, plan: Plan, warmup: int, highest: int)
    returns (k: nat)
    requires |seeds| == plan.cells && RampOk(rows, plan, warmup) && AllRowsOk(rows, seeds, plan)
    requires RampStops(AsPoints(rows), |plan.rates|)
    requires IsHighest(highest, AsPoints(rows), |rows|) && Rising(plan.rates)
    ensures k <= |plan.rates| && highest == if k == 0 then 0 else plan.rates[k - 1]
    ensures forall i :: 1 <= i <= k ==> i < |rows| && rows[i].sample.rate == plan.rates[i - 1] && Earned(rows[i])
    ensures k < |plan.rates| ==> |rows| == k + 2 && rows[k + 1].sample.rate == plan.rates[k] && !Earned(rows[k + 1])
  {
    k := BoundaryOf(rows, plan, warmup, highest);
    forall i | 0 <= i < |rows|
      ensures Earned(rows[i]) <==> ServedRow(rows[i])
    {
      VerdictIsEarned(rows[i], seeds, plan);
    }
  }

  lemma BoundaryOf(rows: seq<WindowRow>, plan: Plan, warmup: int, highest: int) returns (k: nat)
    requires RampOk(rows, plan, warmup) && RampStops(AsPoints(rows), |plan.rates|)
    requires IsHighest(highest, AsPoints(rows), |rows|) && Rising(plan.rates)
    ensures k <= |plan.rates| && highest == if k == 0 then 0 else plan.rates[k - 1]
    ensures forall i :: 1 <= i <= k ==> i < |rows| && rows[i].sample.rate == plan.rates[i - 1] && ServedRow(rows[i])
    ensures k < |plan.rates| ==> |rows| == k + 2 && rows[k + 1].sample.rate == plan.rates[k] && !ServedRow(rows[k + 1])
  {
    var points := AsPoints(rows);
    k := if points[|rows| - 1].served then |rows| - 1 else |rows| - 2;
    forall i | 1 <= i < |rows|
      ensures points[i].rate == rows[i].sample.rate == plan.rates[i - 1] && points[i].served == ServedRow(rows[i])
    {
      assert Planned(rows[i], i, plan, warmup);
    }
    HighestOf(points, plan.rates, highest, k);
  }

  lemma HighestOf(points: seq<Point>, rates: seq<int>, highest: int, k: nat)
    requires Rising(rates) && IsHighest(highest, points, |points|) && k < |points| <= |rates| + 1
    requires forall i :: 0 <= i < |rates| ==> rates[i] > 0
    requires forall i :: 1 <= i < |points| ==> points[i].rate == rates[i - 1] && (points[i].served <==> i <= k)
    ensures highest == if k == 0 then 0 else rates[k - 1]
  {
    if k > 0 {
      assert points[k].rate <= highest;
    }
    if highest != 0 {
      var i :| 1 <= i < |points| && points[i].served && points[i].rate == highest;
    }
  }

  lemma {:induction false} WindowOfRow(rows: seq<WindowRow>, seeds: seq<Seed>, plan: Plan, k: nat)
    requires |seeds| == plan.cells && AllRowsOk(rows, seeds, plan) && k < |rows|
    ensures var window := Windows(AsPoints(rows))[k];
            window.startAt == rows[k].sample.startAt <= rows[k].sample.endAt == window.endAt
  {
    assert RowOk(rows[k], seeds, plan);
  }

  /** A query of an accepted run is counted in the one window it fell in, and in no other. */
  lemma {:induction false} QueriesFallInOneWindow(rows: seq<WindowRow>, seeds: seq<Seed>, plan: Plan, at: int, w: nat)
    requires |seeds| == plan.cells && AllRowsOk(rows, seeds, plan)
    requires QueryStream.Separated(Windows(AsPoints(rows))) && w < |rows|
    ensures QueryStream.First(Windows(AsPoints(rows)), at, 0) == Some(w) <==>
            rows[w].sample.startAt <= at <= rows[w].sample.endAt
  {
    forall k | 0 <= k < |rows|
      ensures Windows(AsPoints(rows))[k].startAt <= Windows(AsPoints(rows))[k].endAt
    {
      WindowOfRow(rows, seeds, plan, k);
    }
    WindowOfRow(rows, seeds, plan, w);
    QueryStream.OneWindow(Windows(AsPoints(rows)), at, w);
  }

  ghost function AcceptedExports(rows: seq<WindowRow>): int {
    if rows == [] then 0 else AcceptedExports(rows[..|rows| - 1]) + rows[|rows| - 1].sample.exportAccepted
  }

  lemma {:induction false} ExportsSum(rows: seq<WindowRow>, exports: seq<Export>)
    requires forall i :: 0 <= i < |rows| ==> rows[i].id == i
    requires forall i :: 0 <= i < |rows| ==> RowExports(rows[i], exports)
    ensures TotalOf(exports, |rows|) == AcceptedExports(rows) + |rows|
    decreases |rows|
  {
    if rows != [] {
      var n := |rows| - 1;
      ExportsSum(rows[..n], exports);
      assert RowExports(rows[n], exports);
    }
  }

  /** What each window of an accepted run recorded of its exports, and the rows that go with it. */
  lemma {:induction false} WindowExports(rows: seq<WindowRow>, seeds: seq<Seed>, plan: Plan, warmup: int, e: Evidence, i: nat)
    requires RunOk(rows, seeds, plan, warmup, e) && i < |rows|
    ensures var s := rows[i].sample;
            && s.exportRequests == s.exportAccepted + s.exportFailed && s.exportCompleted == s.exportAccepted
            && 0 < s.exportRequests && (s.exportRequests - 1) * 1_000_000 < s.elapsed
            && |OfWindow(e.exports, i)| == s.exportAccepted + 1
  {
    assert Planned(rows[i], i, plan, warmup);
    assert RowExports(rows[i], e.exports);
  }

  /** The export rows of an accepted run are one for each request its windows recorded as accepted, and one a window. */
  lemma {:induction false} ExportsAccounted(rows: seq<WindowRow>, seeds: seq<Seed>, plan: Plan, warmup: int, e: Evidence)
    requires RunOk(rows, seeds, plan, warmup, e)
    ensures |e.exports| == AcceptedExports(rows) + |rows|
  {
    forall i | 0 <= i < |rows|
      ensures rows[i].id == i
    {
      assert Planned(rows[i], i, plan, warmup);
    }
    ExportsSum(rows, e.exports);
    DividedByWindow(e.exports, |rows|);
  }
}
