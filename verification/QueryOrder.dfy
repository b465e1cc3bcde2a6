/**
 The query evidence is a collection of rows: acceptance, counts and percentiles do not depend on their order.
 */
module QueryOrder {
  import opened Results
  import opened Permutations
  import opened Counters
  import opened Quantiles
  import opened SlotTrace
  import opened QueryPhases
  import opened QueryStream

  ghost predicate Shuffled<T>(a: seq<T>, b: seq<T>) {
    multiset(a) == multiset(b)
  }

  // ----- one window's rows

  ghost function Charged(windows: seq<Window>, w: nat): Query -> bool {
    (row: Query) => First(windows, row.at, 0) == Some(w)
  }

  lemma {:induction false} MineGathered(rows: seq<Query>, windows: seq<Window>, w: nat)
    ensures multiset(Mine(rows, windows, w)) == Gather(rows, Those(Charged(windows, w)))
    decreases |rows|
  {
    if rows != [] {
      MineGathered(rows[..|rows| - 1], windows, w);
    }
  }

  /** Reordering the rows reorders those of each window. */
  lemma {:induction false} MineShuffled(rows: seq<Query>, shuffled: seq<Query>, windows: seq<Window>, w: nat)
    requires Shuffled(rows, shuffled)
    ensures Shuffled(Mine(rows, windows, w), Mine(shuffled, windows, w))
  {
    MineGathered(rows, windows, w);
    MineGathered(shuffled, windows, w);
    GatherPermuted(rows, shuffled, Those(Charged(windows, w)));
  }

  // ----- counts and columns

  lemma {:induction false} CountGathered(mine: seq<Query>, f: Query -> bool)
    ensures Count(mine, f) == |Gather(mine, Those(f))|
    decreases |mine|
  {
    if mine != [] {
      CountGathered(mine[..|mine| - 1], f);
    }
  }

  lemma {:induction false} SameCount(a: seq<Query>, b: seq<Query>, f: Query -> bool)
    requires Shuffled(a, b)
    ensures Count(a, f) == Count(b, f) && |a| == |b|
  {
    CountGathered(a, f);
    CountGathered(b, f);
    GatherPermuted(a, b, Those(f));
    assert |multiset(a)| == |a| && |multiset(b)| == |b|;
  }

  ghost function Cell(p: nat): Query -> multiset<int>
    requires p < COLUMNS
  {
    (row: Query) => if ValuesOf(row)[p].Some? then multiset{ValuesOf(row)[p].value} else multiset{}
  }

  lemma {:induction false} ColumnGathered(mine: seq<Query>, p: nat)
    requires p < COLUMNS
    ensures multiset(ColumnValues(mine, p)) == Gather(mine, Cell(p))
    decreases |mine|
  {
    if mine != [] {
      ColumnGathered(mine[..|mine| - 1], p);
    }
  }

  lemma {:induction false} SameColumn(a: seq<Query>, b: seq<Query>, p: nat)
    requires Shuffled(a, b) && p < COLUMNS
    ensures DistributionOf(ColumnValues(a, p)) == DistributionOf(ColumnValues(b, p))
  {
    ColumnGathered(a, p);
    ColumnGathered(b, p);
    GatherPermuted(a, b, Cell(p));
    SamePercentiles(ColumnValues(a, p), ColumnValues(b, p));
  }

  // ----- acceptance

  lemma SameJobs(rows: seq<Query>, shuffled: seq<Query>)
    requires Shuffled(rows, shuffled) && DistinctJobs(rows)
    ensures DistinctJobs(shuffled)
  {
    forall i, j | 0 <= i < j < |shuffled| && shuffled[i].job == shuffled[j].job
      ensures shuffled[i].job == 0
    {
      var x, y := ClashMoves(shuffled, rows, (row: Query) => row.job, i, j);
    }
  }

  lemma SameRowsOk(rows: seq<Query>, shuffled: seq<Query>, slots: Slots, workers: int, population: set<string>)
    requires Shuffled(rows, shuffled) && AllRowsOk(rows, slots, workers, population)
    ensures AllRowsOk(shuffled, slots, workers, population)
  {
    forall i | 0 <= i < |shuffled|
      ensures RowOk(shuffled[i], slots, workers, population)
    {
      assert shuffled[i] in multiset(rows);
      var j :| 0 <= j < |rows| && rows[j] == shuffled[i];
    }
  }

  lemma SameAgreement(windows: seq<Window>, rows: seq<Query>, shuffled: seq<Query>)
    requires Shuffled(rows, shuffled) && WindowsAgree(windows, rows)
    ensures WindowsAgree(windows, shuffled)
  {
    forall w | 0 <= w < |windows|
      ensures WindowAgrees(windows[w], Mine(shuffled, windows, w))
    {
      MineShuffled(rows, shuffled, windows, w);
      SameCount(Mine(rows, windows, w), Mine(shuffled, windows, w), Succeeded());
      SameCount(Mine(rows, windows, w), Mine(shuffled, windows, w), Delivered());
      assert WindowAgrees(windows[w], Mine(rows, windows, w));
    }
  }

  lemma StillOk(slotRows: seq<Row>, slotRows': seq<Row>, rows: seq<Query>, rows': seq<Query>, workers: int,
                windows: seq<Window>, population: set<string>)
    requires Shuffled(slotRows, slotRows') && Shuffled(rows, rows')
    requires EvidenceOk(slotRows, rows, workers, windows, population)
    ensures EvidenceOk(slotRows', rows', workers, windows, population)
  {
    OrderGrantsNothing(slotRows, slotRows', workers);
    SameRowsOk(rows, rows', SlotMap(slotRows, workers), workers, population);
    SameJobs(rows, rows');
    SameAgreement(windows, rows, rows');
  }

  /** Reordering the slot rows or the query rows changes no verdict. */
  lemma OrderIsIrrelevant(slotRows: seq<Row>, slotRows': seq<Row>, rows: seq<Query>, rows': seq<Query>, workers: int,
                          windows: seq<Window>, population: set<string>)
    requires Shuffled(slotRows, slotRows') && Shuffled(rows, rows')
    ensures EvidenceOk(slotRows, rows, workers, windows, population) <==>
            EvidenceOk(slotRows', rows', workers, windows, population)
  {
    if EvidenceOk(slotRows, rows, workers, windows, population) {
      StillOk(slotRows, slotRows', rows, rows', workers, windows, population);
    }
    if EvidenceOk(slotRows', rows', workers, windows, population) {
      StillOk(slotRows', slotRows, rows', rows, workers, windows, population);
    }
  }

  // ----- the reports

  /** The same counts, enqueue states and percentiles. */
  ghost predicate SameFigures(r: Report, r': Report) {
    && r.observed.count == r'.observed.count && r.observed.succeeded == r'.observed.succeeded
    && r.observed.delivered == r'.observed.delivered && r.columns == r'.columns
    && forall name: string :: Get(r.observed.states, name) == Get(r'.observed.states, name)
  }

  /** Two readings of one window in different orders report the same figures; the retained tails may differ in ties. */
  lemma {:induction false} ReportsAreSame(r: Report, r': Report, rows: seq<Query>, rows': seq<Query>, windows: seq<Window>, w: nat,
                       slots: Slots, K: nat, names: seq<string>, actorNames: seq<string>)
    requires Shuffled(rows, rows')
    requires Reports(r, Mine(rows, windows, w), slots, K, names, actorNames)
    requires Reports(r', Mine(rows', windows, w), slots, K, names, actorNames)
    ensures SameFigures(r, r')
  {
    var mine, mine' := Mine(rows, windows, w), Mine(rows', windows, w);
    MineShuffled(rows, rows', windows, w);
    SameCount(mine, mine', Succeeded());
    SameCount(mine, mine', Delivered());
    forall p | 0 <= p < COLUMNS
      ensures r.columns[p] == r'.columns[p]
    {
      SameColumn(mine, mine', p);
    }
    forall name: string
      ensures Get(r.observed.states, name) == Get(r'.observed.states, name)
    {
      SameCount(mine, mine', Enqueued(name));
      assert StateTallied(r.observed.states, mine, name) && StateTallied(r'.observed.states, mine', name);
    }
  }
}
