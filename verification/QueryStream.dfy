/**
 Replaying the query evidence of a run: binding each query to its slot and charging it to the window it fell in.
 */
module QueryStream {
  import opened Results
  import opened SlotTrace
  import opened SlotAudit
  import opened QueryPhases
  import opened TailSummary
  import opened WindowTails
  import opened Counters
  import opened Quantiles

  /** A timed window and the outcomes its client recorded. */
  datatype Window = Window(startAt: int, endAt: int, success: int, error: int)

  // ----- binding a query to its slot

  /** The query names a slot fit to have served it, or failed before it had one. */
  predicate Bindable(row: Query, slots: Slots, workers: int) {
    if row.job == 0 then row.succeeded == "false"
    else
      && row.job in slots && slots[row.job].kind == "Query"
      && (row.succeeded == "true" ==> slots[row.job].started.Some?)
      && workers > 0 && row.digest % workers == slots[row.job].shard
      && row.phases[1].Some? && slots[row.job].admissionUs <= row.phases[1].value
  }

  predicate RowOk(row: Query, slots: Slots, workers: int, population: set<string>) {
    VerifyQuery(row).Ok? && VerifyActor(row).Ok? && Bindable(row, slots, workers) && row.cell in population
  }

  /** No slot serves two queries. */
  predicate DistinctJobs(rows: seq<Query>) {
    forall i, j :: 0 <= i < j < |rows| && rows[i].job == rows[j].job ==> rows[i].job == 0
  }

  // ----- windows

  predicate Within(w: Window, at: int) {
    w.startAt <= at <= w.endAt
  }

  /** The first window holding the instant, from position `i` on. */
  function First(windows: seq<Window>, at: int, i: nat): (r: Option<nat>)
    requires i <= |windows|
    ensures r.Some? ==> i <= r.value < |windows| && Within(windows[r.value], at)
    ensures r.None? ==> forall j :: i <= j < |windows| ==> !Within(windows[j], at)
    decreases |windows| - i
  {
    if i == |windows| then None
    else if Within(windows[i], at) then Some(i)
    else First(windows, at, i + 1)
  }

  /** Windows follow one another with a gap. */
  predicate Separated(windows: seq<Window>) {
    forall i :: 0 <= i < |windows| - 1 ==> windows[i].endAt < windows[i + 1].startAt
  }

  lemma {:induction false} LaterStartsAfter(windows: seq<Window>, i: nat, j: nat)
    requires Separated(windows) && i < j < |windows|
    requires forall k :: 0 <= k < |windows| ==> windows[k].startAt <= windows[k].endAt
    ensures windows[i].endAt < windows[j].startAt
    decreases j - i
  {
    if i + 1 < j {
      LaterStartsAfter(windows, i, j - 1);
    }
  }

  /** With separated windows, an instant is charged to a window exactly if it falls within it. */
  lemma {:induction false} OneWindow(windows: seq<Window>, at: int, w: nat)
    requires Separated(windows) && w < |windows|
    requires forall k :: 0 <= k < |windows| ==> windows[k].startAt <= windows[k].endAt
    ensures First(windows, at, 0) == Some(w) <==> Within(windows[w], at)
  {
    var first := First(windows, at, 0);
    if Within(windows[w], at) {
      if first.value < w {
        LaterStartsAfter(windows, first.value, w);
      } else if w < first.value {
        LaterStartsAfter(windows, w, first.value);
      }
    }
  }

  /** The rows charged to one window, in order. */
  function Mine(rows: seq<Query>, windows: seq<Window>, w: nat): seq<Query> {
    if rows == [] then []
    else
      var before := Mine(rows[..|rows| - 1], windows, w);
      if First(windows, rows[|rows| - 1].at, 0) == Some(w) then before + [rows[|rows| - 1]] else before
  }

  lemma {:induction false} MineNext(rows: seq<Query>, row: Query, windows: seq<Window>, w: nat)
    ensures Mine(rows + [row], windows, w) ==
            if First(windows, row.at, 0) == Some(w) then Mine(rows, windows, w) + [row] else Mine(rows, windows, w)
  {
    assert (rows + [row])[..|rows|] == rows;
  }

  // ----- what is kept for one window

  /** Counts, enqueue states, the slowest entries, and a counter of the values of every column. */
  datatype Observed = Observed(count: nat, succeeded: nat, delivered: nat, states: Counter<string>,
                               tail: seq<Entry>, columns: seq<Counter<int>>)

  function Nothing(): Observed {
    Observed(0, 0, 0, map[], [], seq(COLUMNS, _ => map[]))
  }

  function ToEntry(row: Query, ordinal: nat): Entry {
    Entry(row.total, ordinal, row.job, row.phases, row.actor, row.state)
  }

  function Entries(mine: seq<Query>): seq<Entry> {
    seq(|mine|, i requires 0 <= i < |mine| => ToEntry(mine[i], i + 1))
  }

  ghost function Count(mine: seq<Query>, f: Query -> bool): nat {
    if mine == [] then 0 else Count(mine[..|mine| - 1], f) + if f(mine[|mine| - 1]) then 1 else 0
  }

  lemma {:induction false} CountNext(mine: seq<Query>, row: Query, f: Query -> bool)
    ensures Count(mine + [row], f) == Count(mine, f) + if f(row) then 1 else 0
  {
    assert (mine + [row])[..|mine|] == mine;
  }

  ghost function Succeeded(): Query -> bool { (row: Query) => row.succeeded == "true" }

  ghost function Delivered(): Query -> bool { (row: Query) => row.delivered == "true" }

  ghost function Enqueued(name: string): Query -> bool { (row: Query) => StateName(row.state) == name }

  /** The states a Cell may be in when a query is enqueued, in the order they are reported. */
  const STATES: seq<string> := ["Busy", "Inventory", "Queued", "Ready", "Renewal"]

  /** Five phases, the total, three actor phases, and the Cell wait once for each enqueue state. */
  const COLUMNS: nat := 14

  /** The time the query waited in its Cell, if it was enqueued in this state. */
  function WaitIn(row: Query, state: string): Option<int> {
    if row.state == state then row.actor[1] else None
  }

  function ValuesOf(row: Query): (values: seq<Option<int>>)
    ensures |values| == COLUMNS
  {
    row.phases + [Some(row.total)] + row.actor
    + [WaitIn(row, STATES[0]), WaitIn(row, STATES[1]), WaitIn(row, STATES[2]), WaitIn(row, STATES[3]), WaitIn(row, STATES[4])]
  }

  /** A verified query's Cell wait is counted under exactly one state. */
  lemma EachWaitOnce(row: Query) returns (k: nat)
    requires VerifyActor(row).Ok? && row.actor[1].Some?
    ensures k < |STATES| && WaitIn(row, STATES[k]) == row.actor[1]
    ensures forall j :: 0 <= j < |STATES| && j != k ==> WaitIn(row, STATES[j]) == None
  {
    k := if row.state == STATES[0] then 0 else if row.state == STATES[1] then 1
         else if row.state == STATES[2] then 2 else if row.state == STATES[3] then 3 else 4;
  }

  /** The reached values of one column, in order. */
  ghost function ColumnValues(mine: seq<Query>, p: nat): seq<int>
    requires p < COLUMNS
  {
    if mine == [] then []
    else
      var before, value := ColumnValues(mine[..|mine| - 1], p), ValuesOf(mine[|mine| - 1])[p];
      if value.Some? then before + [value.value] else before
  }

  lemma {:induction false} ColumnNext(mine: seq<Query>, row: Query, p: nat)
    requires p < COLUMNS
    ensures ColumnValues(mine + [row], p) ==
            if ValuesOf(row)[p].Some? then ColumnValues(mine, p) + [ValuesOf(row)[p].value] else ColumnValues(mine, p)
  {
    assert (mine + [row])[..|mine|] == mine;
  }

  ghost predicate ColumnsTallied(columns: seq<Counter<int>>, mine: seq<Query>) {
    |columns| == COLUMNS && forall p :: 0 <= p < |columns| ==>
      Positive(columns[p]) && Tallies(columns[p], ColumnValues(mine, p))
  }

  ghost predicate StateTallied(states: Counter<string>, mine: seq<Query>, name: string) {
    Get(states, name) == Count(mine, Enqueued(name))
  }

  ghost predicate StatesTallied(states: Counter<string>, mine: seq<Query>) {
    forall name: string :: StateTallied(states, mine, name)
  }

  lemma StateNext(states: Counter<string>, mine: seq<Query>, row: Query)
    requires StatesTallied(states, mine)
    ensures StatesTallied(Add(states, StateName(row.state), 1), mine + [row])
  {
    var next, longer := Add(states, StateName(row.state), 1), mine + [row];
    forall name: string
      ensures StateTallied(next, longer, name)
    {
      assert StateTallied(states, mine, name);
      CountNext(mine, row, Enqueued(name));
    }
  }

  /** What is kept accounts for exactly the window's own rows. */
  ghost predicate Accounts(o: Observed, mine: seq<Query>, K: nat) {
    && o.count == |mine| && o.succeeded == Count(mine, Succeeded()) && o.delivered == Count(mine, Delivered())
    && StatesTallied(o.states, mine) && IsTail(o.tail, Entries(mine), K) && ColumnsTallied(o.columns, mine)
  }

  lemma TallyOne(counts: Counter<int>, values: seq<int>, v: int)
    requires Positive(counts) && Tallies(counts, values)
    ensures Positive(Add(counts, v, 1)) && Tallies(Add(counts, v, 1), values + [v])
  {
    assert Get(counts, v) == multiset(values)[v];
    forall x: int
      ensures Get(Add(counts, v, 1), x) == multiset(values + [v])[x]
    {
      assert Get(counts, x) == multiset(values)[x];
    }
  }

  method CountColumns(columns: seq<Counter<int>>, row: Query, ghost mine: seq<Query>) returns (r: seq<Counter<int>>)
    requires ColumnsTallied(columns, mine)
    ensures ColumnsTallied(r, mine + [row])
  {
    var values := ValuesOf(row);
    r := columns;
    for p := 0 to |columns|
      invariant |r| == |columns|
      invariant forall k :: p <= k < |columns| ==> r[k] == columns[k]
      invariant forall k :: 0 <= k < p ==> Positive(r[k]) && Tallies(r[k], ColumnValues(mine + [row], k))
    {
      ColumnNext(mine, row, p);
      if values[p].Some? {
        TallyOne(columns[p], ColumnValues(mine, p), values[p].value);
        r := r[p := Add(r[p], values[p].value, 1)];
      }
    }
  }

  lemma NewOrdinal(o: Observed, mine: seq<Query>, row: Query, K: nat)
    requires Accounts(o, mine, K)
    ensures Entries(mine + [row]) == Entries(mine) + [ToEntry(row, |mine| + 1)]
    ensures DistinctOrdinals(o.tail + [ToEntry(row, |mine| + 1)])
  {
    forall i | 0 <= i < |o.tail|
      ensures o.tail[i].ordinal <= |mine|
    {
      assert o.tail[i] in multiset(o.tail) && o.tail[i] in multiset(Entries(mine));
    }
  }

  method Observe(o: Observed, row: Query, K: nat, ghost mine: seq<Query>) returns (r: Observed)
    requires Accounts(o, mine, K)
    ensures Accounts(r, mine + [row], K)
  {
    var count := o.count + 1;
    var succeeded := o.succeeded + if row.succeeded == "true" then 1 else 0;
    var delivered := o.delivered + if row.delivered == "true" then 1 else 0;
    CountNext(mine, row, Succeeded());
    CountNext(mine, row, Delivered());
    NewOrdinal(o, mine, row, K);
    var tail := Retain(o.tail, ToEntry(row, count), K, Entries(mine));
    StateNext(o.states, mine, row);
    var states := Add(o.states, StateName(row.state), 1);
    var columns := CountColumns(o.columns, row, mine);
    r := Observed(count, succeeded, delivered, states, tail, columns);
  }

  // ----- the whole stream

  /** The evidence of a window agrees with what its client recorded. */
  predicate CountsOk(w: Window, o: Observed) {
    && w.success <= o.count <= w.success + w.error
    && o.succeeded >= w.success && o.delivered == o.count
  }

  ghost predicate AllAccount(observed: seq<Observed>, rows: seq<Query>, windows: seq<Window>, K: nat) {
    |observed| == |windows| && forall w :: 0 <= w < |windows| ==> Accounts(observed[w], Mine(rows, windows, w), K)
  }

  lemma StartAccounts(windows: seq<Window>, K: nat)
    ensures AllAccount(seq(|windows|, _ => Nothing()), [], windows, K)
  {
    forall name: string
      ensures StateTallied(map[], [], name)
    {
    }
  }

  /** The slots taken by the first rows, none of them twice. */
  ghost predicate Bound(seen: set<int>, rows: seq<Query>) {
    && DistinctJobs(rows)
    && (forall k :: 0 <= k < |rows| && rows[k].job != 0 ==> rows[k].job in seen)
    && (forall id :: id in seen ==> exists k :: 0 <= k < |rows| && rows[k].job == id != 0)
  }

  lemma BindNext(seen: set<int>, rows: seq<Query>, row: Query)
    requires Bound(seen, rows) && (row.job == 0 || row.job !in seen)
    ensures Bound(if row.job == 0 then seen else seen + {row.job}, rows + [row])
  {
    var longer := rows + [row];
    assert forall k :: 0 <= k < |rows| ==> longer[k] == rows[k];
    assert longer[|rows|] == row;
    forall id | id in seen
      ensures exists k :: 0 <= k < |longer| && longer[k].job == id != 0
    {
      var k :| 0 <= k < |rows| && rows[k].job == id != 0;
      assert longer[k].job == id;
    }
  }

  lemma BoundTwice(seen: set<int>, rows: seq<Query>, i: nat)
    requires i < |rows| && Bound(seen, rows[..i]) && rows[i].job in seen
    ensures !DistinctJobs(rows)
  {
    var k :| 0 <= k < i && rows[..i][k].job == rows[i].job != 0;
    assert rows[k].job == rows[i].job;
  }

  /** What reading the first rows comes to: each is in order, binds a slot of its own, and is charged to its window. */
  ghost predicate ReadUpto(observed: seq<Observed>, seen: set<int>, rows: seq<Query>, n: nat, slots: Slots, workers: int,
                           windows: seq<Window>, population: set<string>, K: nat)
    requires n <= |rows|
  {
    && (forall k :: 0 <= k < n ==> RowOk(rows[k], slots, workers, population))
    && Bound(seen, rows[..n]) && AllAccount(observed, rows[..n], windows, K)
  }

  method ReadRow(observed: seq<Observed>, seen: set<int>, rows: seq<Query>, n: nat, slots: Slots, workers: int,
                 windows: seq<Window>, population: set<string>, K: nat) returns (r: Result<(seq<Observed>, set<int>)>)
    requires n < |rows| && ReadUpto(observed, seen, rows, n, slots, workers, windows, population, K)
    ensures r.Err? ==> !(AllRowsOk(rows, slots, workers, population) && DistinctJobs(rows))
    ensures r.Ok? ==> ReadUpto(r.value.0, r.value.1, rows, n + 1, slots, workers, windows, population, K)
  {
    var row := rows[n];
    if !RowOk(row, slots, workers, population) {
      return Err;
    }
    if row.job != 0 && row.job in seen {
      BoundTwice(seen, rows, n);
      return Err;
    }
    assert rows[..n + 1] == rows[..n] + [row];
    BindNext(seen, rows[..n], row);
    var charged := ChargeWindow(observed, row, rows[..n], windows, K);
    r := Ok((charged, if row.job == 0 then seen else seen + {row.job}));
  }

  /** Binds every row in order; refuses the stream at the first row that is wrong or reuses a slot. */
  method ReadQueries(rows: seq<Query>, slots: Slots, workers: int, windows: seq<Window>, population: set<string>, K: nat)
    returns (r: Result<seq<Observed>>)
    ensures r.Ok? <==> AllRowsOk(rows, slots, workers, population) && DistinctJobs(rows)
    ensures r.Ok? ==> AllAccount(r.value, rows, windows, K)
  {
    var seen: set<int> := {};
    var observed := seq(|windows|, _ => Nothing());
    StartAccounts(windows, K);
    for i := 0 to |rows|
      invariant ReadUpto(observed, seen, rows, i, slots, workers, windows, population, K)
    {
      var next := ReadRow(observed, seen, rows, i, slots, workers, windows, population, K);
      if next.Err? {
        return Err;
      }
      observed, seen := next.value.0, next.value.1;
    }
    assert rows[..|rows|] == rows;
    r := Ok(observed);
  }

  method ChargeWindow(observed: seq<Observed>, row: Query, ghost rows: seq<Query>, windows: seq<Window>, K: nat)
    returns (r: seq<Observed>)
    requires AllAccount(observed, rows, windows, K)
    ensures AllAccount(r, rows + [row], windows, K)
  {
    r := observed;
    var index := First(windows, row.at, 0);
    if index.Some? {
      assert Accounts(observed[index.value], Mine(rows, windows, index.value), K);
      var o := Observe(observed[index.value], row, K, Mine(rows, windows, index.value));
      r := r[index.value := o];
    }
    forall w | 0 <= w < |windows|
      ensures Accounts(r[w], Mine(rows + [row], windows, w), K)
    {
      MineNext(rows, row, windows, w);
      assert Accounts(observed[w], Mine(rows, windows, w), K);
    }
  }

  // ----- the report of each window

  datatype Report = Report(observed: Observed, columns: seq<Distribution>, slots: Summary)

  /** Percentiles of the window's own values, and totals over the slowest of its own queries. */
  ghost predicate Reports(r: Report, mine: seq<Query>, slots: Slots, K: nat, names: seq<string>, actorNames: seq<string>) {
    && Accounts(r.observed, mine, K)
    && |r.columns| == COLUMNS
    && (forall p :: 0 <= p < |r.columns| ==> r.columns[p] == DistributionOf(ColumnValues(mine, p)))
    && Summarizes(r.slots, r.observed.tail, slots, names, actorNames)
  }

  predicate AllRowsOk(rows: seq<Query>, slots: Slots, workers: int, population: set<string>) {
    forall i :: 0 <= i < |rows| ==> RowOk(rows[i], slots, workers, population)
  }

  lemma {:induction false} MineAreRows(rows: seq<Query>, windows: seq<Window>, w: nat, i: nat)
    requires i < |Mine(rows, windows, w)|
    ensures Mine(rows, windows, w)[i] in rows
    decreases |rows|
  {
    var n := |rows| - 1;
    if i < |Mine(rows[..n], windows, w)| {
      MineAreRows(rows[..n], windows, w, i);
    }
  }

  predicate TailsBound(observed: seq<Observed>, slots: Slots) {
    forall w :: 0 <= w < |observed| ==> AllBound(observed[w].tail, slots)
  }

  lemma TailsAreBound(observed: seq<Observed>, rows: seq<Query>, slots: Slots, workers: int, population: set<string>,
                      windows: seq<Window>, K: nat)
    requires AllRowsOk(rows, slots, workers, population) && AllAccount(observed, rows, windows, K)
    ensures TailsBound(observed, slots)
  {
    forall w | 0 <= w < |observed| {
      TailIsBound(observed[w], rows, slots, workers, population, windows, w, K);
    }
  }

  lemma TailEntryIsMine(o: Observed, mine: seq<Query>, K: nat, i: nat) returns (j: nat)
    requires Accounts(o, mine, K) && i < |o.tail|
    ensures j < |mine| && o.tail[i] == ToEntry(mine[j], j + 1)
  {
    var entries := Entries(mine);
    assert o.tail[i] in multiset(o.tail) && o.tail[i] in multiset(entries);
    j :| 0 <= j < |entries| && entries[j] == o.tail[i];
  }

  lemma {:induction false} TailIsBound(o: Observed, rows: seq<Query>, slots: Slots, workers: int, population: set<string>,
                    windows: seq<Window>, w: nat, K: nat)
    requires AllRowsOk(rows, slots, workers, population) && Accounts(o, Mine(rows, windows, w), K)
    ensures AllBound(o.tail, slots)
  {
    forall i | 0 <= i < |o.tail|
      ensures o.tail[i].job == 0 || o.tail[i].job in slots
    {
      var j := TailEntryIsMine(o, Mine(rows, windows, w), K, i);
      MineAreRows(rows, windows, w, j);
    }
  }

  method ColumnDistributions(columns: seq<Counter<int>>, ghost mine: seq<Query>) returns (r: seq<Distribution>)
    requires ColumnsTallied(columns, mine)
    ensures |r| == COLUMNS && forall p :: 0 <= p < |r| ==> r[p] == DistributionOf(ColumnValues(mine, p))
  {
    r := [];
    for p := 0 to |columns|
      invariant |r| == p
      invariant forall k :: 0 <= k < p ==> r[k] == DistributionOf(ColumnValues(mine, k))
    {
      var d := CounterDistribution(columns[p]);
      assert Tallies(columns[p], ColumnValues(mine, p));
      r := r + [d];
    }
  }

  method ReportWindow(o: Observed, audit: Audit, names: PhaseNames, actorNames: PhaseNames, ghost mine: seq<Query>,
                      ghost K: nat) returns (r: Report)
    requires Accounts(o, mine, K) && AllBound(o.tail, audit.slots)
    ensures Reports(r, mine, audit.slots, K, names, actorNames) && r.observed == o
  {
    var columns := ColumnDistributions(o.columns, mine);
    var summary := SummarizeTail(o.tail, audit, names, actorNames);
    r := Report(o, columns, summary);
  }

  /** What the evidence must satisfy, said of the rows and not of how they are read. */
  ghost predicate EvidenceOk(slotRows: seq<Row>, rows: seq<Query>, workers: int, windows: seq<Window>,
                             population: set<string>) {
    && Accepts(slotRows, workers)
    && AllRowsOk(rows, SlotMap(slotRows, workers), workers, population) && DistinctJobs(rows)
    && WindowsAgree(windows, rows)
  }

  ghost predicate WindowAgrees(w: Window, mine: seq<Query>) {
    && w.success <= |mine| <= w.success + w.error
    && Count(mine, Succeeded()) >= w.success && Count(mine, Delivered()) == |mine|
  }

  /** The window's evidence agrees with its client, and the report is the window's. */
  ghost predicate Passes(r: Report, rows: seq<Query>, windows: seq<Window>, w: nat, slots: Slots, K: nat,
                         names: seq<string>, actorNames: seq<string>)
    requires w < |windows|
  {
    WindowAgrees(windows[w], Mine(rows, windows, w)) && Reports(r, Mine(rows, windows, w), slots, K, names, actorNames)
  }

  method CheckWindow(w: nat, observed: seq<Observed>, audit: Audit, windows: seq<Window>, names: PhaseNames,
                     actorNames: PhaseNames, ghost rows: seq<Query>, ghost K: nat) returns (r: Result<Report>)
    requires TailsBound(observed, audit.slots) && AllAccount(observed, rows, windows, K) && w < |windows|
    ensures r.Err? ==> !WindowAgrees(windows[w], Mine(rows, windows, w))
    ensures r.Ok? ==> Passes(r.value, rows, windows, w, audit.slots, K, names, actorNames)
  {
    assert Accounts(observed[w], Mine(rows, windows, w), K);
    if !CountsOk(windows[w], observed[w]) {
      return Err;
    }
    var report := ReportWindow(observed[w], audit, names, actorNames, Mine(rows, windows, w), K);
    r := Ok(report);
  }

  ghost predicate WindowsAgree(windows: seq<Window>, rows: seq<Query>) {
    forall w :: 0 <= w < |windows| ==> WindowAgrees(windows[w], Mine(rows, windows, w))
  }

  ghost predicate AllReport(reports: seq<Report>, rows: seq<Query>, windows: seq<Window>, slots: Slots, K: nat,
                            names: seq<string>, actorNames: seq<string>) {
    |reports| <= |windows| && forall w :: 0 <= w < |reports| ==>
      Passes(reports[w], rows, windows, w, slots, K, names, actorNames)
  }

  lemma ReportAdded(reports: seq<Report>, r: Report, rows: seq<Query>, windows: seq<Window>, slots: Slots, K: nat,
                    names: seq<string>, actorNames: seq<string>)
    requires AllReport(reports, rows, windows, slots, K, names, actorNames) && |reports| < |windows|
    requires Passes(r, rows, windows, |reports|, slots, K, names, actorNames)
    ensures AllReport(reports + [r], rows, windows, slots, K, names, actorNames)
  {
    var longer := reports + [r];
    forall w | 0 <= w < |longer|
      ensures Passes(longer[w], rows, windows, w, slots, K, names, actorNames)
    {
      assert longer[w] == if w < |reports| then reports[w] else r;
    }
  }

  /** One more window: its report joins the others, or its evidence disagrees. */
  method AddReport(reports: seq<Report>, observed: seq<Observed>, audit: Audit, windows: seq<Window>, names: PhaseNames,
                   actorNames: PhaseNames, ghost rows: seq<Query>, ghost K: nat) returns (r: Result<seq<Report>>)
    requires TailsBound(observed, audit.slots) && AllAccount(observed, rows, windows, K) && |reports| < |windows|
    requires AllReport(reports, rows, windows, audit.slots, K, names, actorNames)
    ensures r.Err? ==> !WindowsAgree(windows, rows)
    ensures r.Ok? ==> |r.value| == |reports| + 1 && AllReport(r.value, rows, windows, audit.slots, K, names, actorNames)
  {
    var report := CheckWindow(|reports|, observed, audit, windows, names, actorNames, rows, K);
    if report.Err? {
      return Err;
    }
    ReportAdded(reports, report.value, rows, windows, audit.slots, K, names, actorNames);
    r := Ok(reports + [report.value]);
  }

  method ReportWindows(observed: seq<Observed>, audit: Audit, windows: seq<Window>, names: PhaseNames,
                       actorNames: PhaseNames, ghost rows: seq<Query>, ghost K: nat) returns (r: Result<seq<Report>>)
    requires TailsBound(observed, audit.slots) && AllAccount(observed, rows, windows, K)
    ensures r.Err? ==> !WindowsAgree(windows, rows)
    ensures r.Ok? ==> |r.value| == |windows| && AllReport(r.value, rows, windows, audit.slots, K, names, actorNames)
  {
    var reports: seq<Report> := [];
    while |reports| < |windows|
      invariant AllReport(reports, rows, windows, audit.slots, K, names, actorNames)
    {
      reports :- AddReport(reports, observed, audit, windows, names, actorNames, rows, K);
    }
    r := Ok(reports);
  }

  lemma ReportsAgree(reports: seq<Report>, rows: seq<Query>, windows: seq<Window>, slots: Slots, K: nat,
                     names: seq<string>, actorNames: seq<string>)
    requires AllReport(reports, rows, windows, slots, K, names, actorNames) && |reports| == |windows|
    ensures WindowsAgree(windows, rows)
  {
    forall w | 0 <= w < |windows|
      ensures WindowAgrees(windows[w], Mine(rows, windows, w))
    {
      assert Passes(reports[w], rows, windows, w, slots, K, names, actorNames);
    }
  }

  method VerifyQueries(slotRows: seq<Row>, rows: seq<Query>, workers: int, windows: seq<Window>, population: set<string>,
                       K: nat, names: PhaseNames, actorNames: PhaseNames) returns (r: Result<seq<Report>>)
    ensures r.Ok? <==> EvidenceOk(slotRows, rows, workers, windows, population)
    ensures r.Ok? ==> |r.value| == |windows|
                      && AllReport(r.value, rows, windows, SlotMap(slotRows, workers), K, names, actorNames)
  {
    var slots :- ReadSlots(slotRows, workers);
    AcceptedIsTrace(slotRows, workers);
    var timelines := SlotTimelines(slots, workers);
    var observed :- ReadQueries(rows, slots, workers, windows, population, K);
    TailsAreBound(observed, rows, slots, workers, population, windows, K);
    r := ReportWindows(observed, Audit(slots, timelines, workers), windows, names, actorNames, rows, K);
    if r.Ok? {
      ReportsAgree(r.value, rows, windows, slots, K, names, actorNames);
    }
  }
}
