/**
 What the report of a window says of the query rows that fell in it, and which slot rows a query may be bound to.
 */
module QueryReports {
  import opened Results
  import opened Counters
  import opened Quantiles
  import opened SlotTrace
  import opened SlotAudit
  import opened QueryPhases
  import opened TailSummary
  import opened QueryStream

  // ----- the columns

  /** The values some field of the rows holds, in order. */
  ghost function Present(mine: seq<Query>, field: Query -> Option<int>): seq<int> {
    if mine == [] then []
    else
      var before, value := Present(mine[..|mine| - 1], field), field(mine[|mine| - 1]);
      if value.Some? then before + [value.value] else before
  }

  ghost function Phase(p: nat): Query -> Option<int>
    requires p < 5
  {
    (row: Query) => row.phases[p]
  }

  ghost function Total(): Query -> Option<int> { (row: Query) => Some(row.total) }

  ghost function ActorPhase(k: nat): Query -> Option<int>
    requires k < 3
  {
    (row: Query) => row.actor[k]
  }

  /** The wait in the Cell of the rows enqueued in one state. */
  ghost function CellWait(state: string): Query -> Option<int> {
    (row: Query) => if row.state == state then row.actor[1] else None
  }

  lemma {:induction false} ColumnHolds(mine: seq<Query>, p: nat, field: Query -> Option<int>)
    requires p < COLUMNS && forall row: Query :: ValuesOf(row)[p] == field(row)
    ensures ColumnValues(mine, p) == Present(mine, field)
    decreases |mine|
  {
    if mine != [] {
      ColumnHolds(mine[..|mine| - 1], p, field);
    }
  }

  /** Five query phases, the total, three actor phases, and the Cell wait by state in alphabetical order. */
  lemma {:induction false} ColumnsAre(mine: seq<Query>)
    ensures forall p :: 0 <= p < 5 ==> ColumnValues(mine, p) == Present(mine, Phase(p))
    ensures ColumnValues(mine, 5) == Present(mine, Total())
    ensures forall k :: 0 <= k < 3 ==> ColumnValues(mine, 6 + k) == Present(mine, ActorPhase(k))
    ensures ColumnValues(mine, 9) == Present(mine, CellWait("Busy"))
    ensures ColumnValues(mine, 10) == Present(mine, CellWait("Inventory"))
    ensures ColumnValues(mine, 11) == Present(mine, CellWait("Queued"))
    ensures ColumnValues(mine, 12) == Present(mine, CellWait("Ready"))
    ensures ColumnValues(mine, 13) == Present(mine, CellWait("Renewal"))
  {
    forall p | 0 <= p < 5 ensures ColumnValues(mine, p) == Present(mine, Phase(p)) {
      ColumnHolds(mine, p, Phase(p));
    }
    ColumnHolds(mine, 5, Total());
    forall k | 0 <= k < 3 ensures ColumnValues(mine, 6 + k) == Present(mine, ActorPhase(k)) {
      ColumnHolds(mine, 6 + k, ActorPhase(k));
    }
    ColumnHolds(mine, 9, CellWait("Busy"));
    ColumnHolds(mine, 10, CellWait("Inventory"));
    ColumnHolds(mine, 11, CellWait("Queued"));
    ColumnHolds(mine, 12, CellWait("Ready"));
    ColumnHolds(mine, 13, CellWait("Renewal"));
  }

  /** Every reported distribution is of one field of the window's own rows. */
  lemma {:induction false} ReportedColumns(r: Report, mine: seq<Query>, slots: Slots, K: nat, names: seq<string>, actorNames: seq<string>)
    requires Reports(r, mine, slots, K, names, actorNames)
    ensures forall p :: 0 <= p < 5 ==> r.columns[p] == DistributionOf(Present(mine, Phase(p)))
    ensures r.columns[5] == DistributionOf(Present(mine, Total()))
    ensures forall k :: 0 <= k < 3 ==> r.columns[6 + k] == DistributionOf(Present(mine, ActorPhase(k)))
    ensures r.columns[9] == DistributionOf(Present(mine, CellWait("Busy")))
    ensures r.columns[10] == DistributionOf(Present(mine, CellWait("Inventory")))
    ensures r.columns[11] == DistributionOf(Present(mine, CellWait("Queued")))
    ensures r.columns[12] == DistributionOf(Present(mine, CellWait("Ready")))
    ensures r.columns[13] == DistributionOf(Present(mine, CellWait("Renewal")))
  {
    ColumnsAre(mine);
  }

  // ----- counts and states

  ghost function StateIs(state: string): Query -> bool { (row: Query) => row.state == state }

  lemma {:induction false} SameCounts(mine: seq<Query>, f: Query -> bool, g: Query -> bool)
    requires forall i :: 0 <= i < |mine| ==> f(mine[i]) == g(mine[i])
    ensures Count(mine, f) == Count(mine, g)
    decreases |mine|
  {
    if mine != [] {
      SameCounts(mine[..|mine| - 1], f, g);
    }
  }

  predicate KnownState(row: Query) {
    row.state in {"", "Busy", "Inventory", "Queued", "Ready", "Renewal"}
  }

  /** A verified row is in one of these. */
  lemma StateIsKnown(row: Query)
    requires VerifyActor(row).Ok?
    ensures KnownState(row)
  {
    ActorAccepted(row);
  }

  lemma AllStatesKnown(mine: seq<Query>)
    requires forall i :: 0 <= i < |mine| ==> VerifyActor(mine[i]).Ok?
    ensures forall i :: 0 <= i < |mine| ==> KnownState(mine[i])
  {
    forall i | 0 <= i < |mine|
      ensures KnownState(mine[i])
    {
      StateIsKnown(mine[i]);
    }
  }

  /** Of verified rows, those never enqueued are counted apart, and the others by the state they were enqueued in. */
  lemma {:induction false} ReportedStates(states: Counter<string>, mine: seq<Query>, name: string)
    requires StatesTallied(states, mine) && forall i :: 0 <= i < |mine| ==> VerifyActor(mine[i]).Ok?
    ensures name == "Unenqueued" ==> Get(states, name) == Count(mine, StateIs(""))
    ensures name != "Unenqueued" && name != "" ==> Get(states, name) == Count(mine, StateIs(name))
  {
    AllStatesKnown(mine);
    CountedByState(states, mine, name);
  }

  lemma {:induction false} CountedByState(states: Counter<string>, mine: seq<Query>, name: string)
    requires StatesTallied(states, mine) && forall i :: 0 <= i < |mine| ==> KnownState(mine[i])
    ensures name == "Unenqueued" ==> Get(states, name) == Count(mine, StateIs(""))
    ensures name != "Unenqueued" && name != "" ==> Get(states, name) == Count(mine, StateIs(name))
  {
    assert StateTallied(states, mine, name);
    if name == "Unenqueued" {
      SameCounts(mine, Enqueued(name), StateIs(""));
    } else if name != "" {
      SameCounts(mine, Enqueued(name), StateIs(name));
    }
  }

  /** A retained entry is a row of the window: its total, its place, its slot, its phases and its state. */
  lemma RetainedRow(o: Observed, mine: seq<Query>, K: nat, i: nat) returns (j: nat)
    requires Accounts(o, mine, K) && i < |o.tail|
    ensures j < |mine|
    ensures o.tail[i].total == mine[j].total && o.tail[i].ordinal == j + 1 && o.tail[i].job == mine[j].job
    ensures o.tail[i].values == mine[j].phases && o.tail[i].actor == mine[j].actor && o.tail[i].state == mine[j].state
  {
    j := TailEntryIsMine(o, mine, K, i);
  }

  // ----- the slot a query is bound to

  /** A recorded reservation that the query may have run in. */
  predicate MayServe(s: Row, row: Query, workers: int) {
    && s.id == row.job && s.kind == "Query" && workers > 0 && s.shard == row.digest % workers
    && (row.succeeded == "true" ==> s.started.Some?)
    && row.phases[1].Some? && s.acquired - s.requested < (row.phases[1].value + 1) * 1000
  }

  /** The query failed without a slot, or some row of the trace may have served it. */
  predicate Placed(row: Query, slotRows: seq<Row>, workers: int) {
    || (row.job == 0 && row.succeeded == "false")
    || exists i :: 0 <= i < |slotRows| && MayServe(slotRows[i], row, workers)
  }

  lemma {:induction false} BoundToARow(row: Query, slotRows: seq<Row>, workers: int)
    requires Accepts(slotRows, workers)
    ensures Bindable(row, SlotMap(slotRows, workers), workers) <==> Placed(row, slotRows, workers)
  {
    var slots := SlotMap(slotRows, workers);
    forall i | 0 <= i < |slotRows| && slotRows[i].id == row.job
      ensures row.job != 0 && row.job in slots && (Bindable(row, slots, workers) <==> MayServe(slotRows[i], row, workers))
    {
      BoundTo(row, slotRows, workers, i);
    }
  }

  lemma {:induction false} BoundTo(row: Query, slotRows: seq<Row>, workers: int, i: nat)
    requires Accepts(slotRows, workers) && i < |slotRows| && slotRows[i].id == row.job
    ensures var slots := SlotMap(slotRows, workers);
            row.job != 0 && row.job in slots && (Bindable(row, slots, workers) <==> MayServe(slotRows[i], row, workers))
  {
    SlotMapAt(slotRows, workers, i);
    RowAccepted(slotRows[i], workers);
  }

  /** A query of a seeded Cell whose phases add up and that has its place in the trace. */
  predicate Sound(row: Query, slotRows: seq<Row>, workers: int, population: set<string>) {
    row.cell in population && VerifyQuery(row).Ok? && VerifyActor(row).Ok? && Placed(row, slotRows, workers)
  }

  /** What the whole evidence must be, row by row: each query sound, no slot used twice, each window as its client counted. */
  lemma {:induction false} EvidenceMeans(slotRows: seq<Row>, rows: seq<Query>, workers: int, windows: seq<Window>, population: set<string>)
    ensures EvidenceOk(slotRows, rows, workers, windows, population) <==>
            && Accepts(slotRows, workers)
            && (forall i :: 0 <= i < |rows| ==> Sound(rows[i], slotRows, workers, population))
            && (forall i, j :: 0 <= i < j < |rows| && rows[i].job != 0 ==> rows[i].job != rows[j].job)
            && (forall w :: 0 <= w < |windows| ==>
                  var mine := Mine(rows, windows, w);
                  && windows[w].success <= |mine| && |mine| - windows[w].success <= windows[w].error
                  && windows[w].success <= Count(mine, Succeeded()) && Count(mine, Delivered()) == |mine|)
  {
    if Accepts(slotRows, workers) {
      forall i | 0 <= i < |rows|
        ensures RowOk(rows[i], SlotMap(slotRows, workers), workers, population) <==> Sound(rows[i], slotRows, workers, population)
      {
        BoundToARow(rows[i], slotRows, workers);
      }
      JobsMean(rows);
      WindowsMean(windows, rows);
    }
  }

  lemma JobsMean(rows: seq<Query>)
    ensures DistinctJobs(rows) <==> forall i, j :: 0 <= i < j < |rows| && rows[i].job != 0 ==> rows[i].job != rows[j].job
  {
  }

  lemma {:induction false} WindowsMean(windows: seq<Window>, rows: seq<Query>)
    ensures WindowsAgree(windows, rows) <==>
            forall w :: 0 <= w < |windows| ==>
              var mine := Mine(rows, windows, w);
              && windows[w].success <= |mine| && |mine| - windows[w].success <= windows[w].error
              && windows[w].success <= Count(mine, Succeeded()) && Count(mine, Delivered()) == |mine|
  {
  }
}
