/**
 One query's phase timings: the five phases a query passes through and the three the actor's share splits into.
 */
module QueryPhases {
  import opened Results

  /** One query observation; an unreached phase is an empty field. */
  datatype Observation = Observation(
    job: int, cell: string, digest: nat, at: int, succeeded: string, delivered: string,
    total: int, phases: seq<Option<int>>, actor: seq<Option<int>>, state: string)

  /** The five query phases, of which the first is the actor's queue and the second worker admission. */
  const QUERY_PHASES: nat := 5

  const ACTOR_PHASES: nat := 3

  const ACTOR_STATES: set<string> := {"Ready", "Renewal", "Busy", "Inventory", "Queued"}

  type Query = q: Observation | |q.phases| == QUERY_PHASES && |q.actor| == ACTOR_PHASES
    witness Observation(0, "", 0, 0, "", "", 0, [None, None, None, None, None], [None, None, None], "")

  function Reached(values: seq<Option<int>>): (reached: seq<int>)
    ensures |reached| <= |values|
  {
    if values == [] then []
    else if values[0].Some? then [values[0].value] + Reached(values[1..])
    else Reached(values[1..])
  }

  /** The reached values, then nothing but unreached ones. */
  function Padded(reached: seq<int>, n: nat): seq<Option<int>>
    requires |reached| <= n
  {
    seq(n, i requires 0 <= i < n => if i < |reached| then Some(reached[i]) else None)
  }

  function Sum(values: seq<int>): int {
    if values == [] then 0 else values[0] + Sum(values[1..])
  }

  function ValueAt(values: seq<Option<int>>, i: nat): int {
    if i < |values| && values[i].Some? then values[i].value else 0
  }

  function SumOfReached(values: seq<Option<int>>): int {
    Sum(Reached(values))
  }

  predicate NonNegative(values: seq<int>) {
    forall i :: 0 <= i < |values| ==> values[i] >= 0
  }

  /** The five phases and the total, or a refusal. */
  function VerifyQuery(row: Query): Result<seq<Option<int>>> {
    var reached := Reached(row.phases);
    if row.phases != Padded(reached, QUERY_PHASES) then Err
    else if !(NonNegative(reached) && row.total >= Sum(reached)) then Err
    else if |reached| == QUERY_PHASES && row.total - Sum(reached) > 4 then Err
    else if row.succeeded !in {"true", "false"} || row.delivered !in {"true", "false"} then Err
    else if row.succeeded == "true" && |reached| != QUERY_PHASES then Err
    else Ok(row.phases + [Some(row.total)])
  }

  function VerifyActor(row: Query): Result<(seq<Option<int>>, string)> {
    var reached := Reached(row.actor);
    if row.actor != Padded(reached, ACTOR_PHASES) then Err
    else if !NonNegative(reached) then Err
    else if row.state != "" && row.state !in ACTOR_STATES then Err
    else if row.phases[0].Some? && !(|reached| == ACTOR_PHASES && row.state in ACTOR_STATES) then Err
    else if row.phases[0].Some? && !(0 <= row.phases[0].value - Sum(reached) <= 2) then Err
    else if row.phases[0].None? && !(row.actor[ACTOR_PHASES - 1].None? && Sum(reached) <= row.total) then Err
    else if row.state != "" && row.actor[0].None? then Err
    else if row.actor[1].Some? && row.state !in ACTOR_STATES then Err
    else Ok((row.actor, row.state))
  }

  // ----- shape of accepted phases

  predicate NoGap(values: seq<Option<int>>) {
    forall i, j :: 0 <= i < j < |values| && values[j].Some? ==> values[i].Some?
  }

  lemma {:induction false} ReachedNone(values: seq<Option<int>>)
    requires forall i :: 0 <= i < |values| ==> values[i].None?
    ensures Reached(values) == []
    decreases |values|
  {
    if values != [] {
      ReachedNone(values[1..]);
    }
  }

  /** Padding the reached values back gives the phases exactly if no phase was skipped. */
  lemma {:induction false} PaddedMeansNoGap(values: seq<Option<int>>)
    ensures values == Padded(Reached(values), |values|) <==> NoGap(values)
    decreases |values|
  {
    if values != [] {
      var rest := values[1..];
      PaddedMeansNoGap(rest);
      var padded := Padded(Reached(values), |values|);
      if values[0].Some? {
        assert padded == [values[0]] + Padded(Reached(rest), |rest|);
        assert values == [values[0]] + rest;
        assert padded[1..] == Padded(Reached(rest), |rest|);
        if NoGap(rest) {
          GapExtends(values);
        }
      } else if NoGap(values) {
        ReachedNone(values);
        assert values == padded;
      }
    }
  }

  lemma GapExtends(values: seq<Option<int>>)
    requires values != [] && values[0].Some? && NoGap(values[1..])
    ensures NoGap(values)
  {
    forall i, j | 0 <= i < j < |values| && values[j].Some?
      ensures values[i].Some?
    {
      if i > 0 {
        assert values[1..][j - 1].Some? && values[1..][i - 1] == values[i];
      }
    }
  }

  /** What the query check accepts: a prefix of phases that fits in the total and, when complete, fills it to 4 microseconds. */
  lemma QueryAccepted(row: Query)
    ensures VerifyQuery(row).Ok? <==>
            && NoGap(row.phases) && NonNegative(Reached(row.phases))
            && row.succeeded in {"true", "false"} && row.delivered in {"true", "false"}
            && 0 <= row.total - SumOfReached(row.phases)
            && (row.phases[QUERY_PHASES - 1].Some? ==> row.total - SumOfReached(row.phases) <= 4)
            && (row.succeeded == "true" ==> row.phases[QUERY_PHASES - 1].Some?)
    ensures VerifyQuery(row).Ok? ==> VerifyQuery(row).value == row.phases + [Some(row.total)]
  {
    PaddedMeansNoGap(row.phases);
    if NoGap(row.phases) {
      LastReached(row.phases);
    }
  }

  /**
   What the actor check accepts: a prefix of actor phases, enqueued in a known state by the time it is dispatched, that
   fills the actor's queue to 2 microseconds once the query started and fits in the total otherwise.
   */
  lemma ActorAccepted(row: Query)
    ensures VerifyActor(row).Ok? <==>
            && NoGap(row.actor) && NonNegative(Reached(row.actor))
            && row.state in {"", "Busy", "Inventory", "Queued", "Ready", "Renewal"}
            && (row.state != "" ==> row.actor[0].Some?) && (row.actor[1].Some? ==> row.state != "")
            && (match row.phases[0]
                case Some(queue) => row.actor[2].Some? && 0 <= queue - SumOfReached(row.actor) <= 2
                case None => row.actor[2].None? && SumOfReached(row.actor) <= row.total)
    ensures VerifyActor(row).Ok? ==> VerifyActor(row).value.0 == row.actor && VerifyActor(row).value.1 == row.state
  {
    PaddedMeansNoGap(row.actor);
    if NoGap(row.actor) {
      LastReached(row.actor);
    }
  }

  /** A gapless list is complete exactly if its last entry was reached. */
  lemma {:induction false} LastReached(values: seq<Option<int>>)
    requires values != [] && NoGap(values)
    ensures |Reached(values)| == |values| <==> values[|values| - 1].Some?
  {
    PaddedMeansNoGap(values);
    var n := |values|;
    assert values[n - 1] == Padded(Reached(values), n)[n - 1];
  }

  lemma {:induction false} FirstWithinSum(values: seq<int>)
    requires NonNegative(values)
    ensures 0 <= Sum(values) && (values != [] ==> values[0] <= Sum(values))
    decreases |values|
  {
    if values != [] {
      FirstWithinSum(values[1..]);
    }
  }

  /** However far a query got, its actor phases fit in its total. */
  lemma ActorWithinTotal(row: Query)
    requires VerifyQuery(row).Ok? && VerifyActor(row).Ok?
    ensures NoGap(row.actor) && 0 <= SumOfReached(row.actor) <= row.total
    ensures row.phases[0].Some? ==> row.actor[ACTOR_PHASES - 1].Some? && row.state in ACTOR_STATES
    ensures row.succeeded == "true" ==> row.actor[ACTOR_PHASES - 1].Some?
  {
    QueryAccepted(row);
    PaddedMeansNoGap(row.actor);
    LastReached(row.actor);
    FirstWithinSum(Reached(row.actor));
    FirstWithinSum(Reached(row.phases));
  }

  // ----- a successful query is partitioned to within 6 microseconds

  lemma SumOfFive(values: seq<Option<int>>)
    requires |values| == QUERY_PHASES && NoGap(values) && values[QUERY_PHASES - 1].Some?
    ensures SumOfReached(values) == ValueAt(values, 0) + ValueAt(values, 1) + ValueAt(values, 2)
                                    + ValueAt(values, 3) + ValueAt(values, 4)
  {
    assert values[0].Some? && values[1].Some? && values[2].Some? && values[3].Some?;
    var reached := [values[0].value, values[1].value, values[2].value, values[3].value, values[4].value];
    LastReached(values);
    PaddedMeansNoGap(values);
    assert Reached(values) == reached by {
      forall i | 0 <= i < QUERY_PHASES
        ensures Reached(values)[i] == reached[i]
      {
        assert values[i] == Padded(Reached(values), QUERY_PHASES)[i];
      }
    }
    SumSteps(reached);
  }

  lemma {:induction false} SumSteps(v: seq<int>)
    requires |v| == QUERY_PHASES
    ensures Sum(v) == v[0] + v[1] + v[2] + v[3] + v[4]
  {
    SumOfTriple(v[2..]);
    assert v[1..][1..] == v[2..];
    assert Sum(v) == v[0] + Sum(v[1..]) && Sum(v[1..]) == v[1] + Sum(v[2..]);
  }

  lemma {:induction false} SumOfTriple(v: seq<int>)
    requires |v| == ACTOR_PHASES
    ensures Sum(v) == v[0] + v[1] + v[2]
  {
    assert v[1..][1..] == v[2..] && v[2..][1..] == [];
    assert Sum(v[2..]) == v[2] + Sum([]);
    assert Sum(v[1..]) == v[1] + Sum(v[2..]);
  }

  lemma SumOfThree(values: seq<Option<int>>)
    requires |values| == ACTOR_PHASES && NoGap(values) && values[ACTOR_PHASES - 1].Some?
    ensures SumOfReached(values) == ValueAt(values, 0) + ValueAt(values, 1) + ValueAt(values, 2)
  {
    assert values[0].Some? && values[1].Some?;
    var reached := [values[0].value, values[1].value, values[2].value];
    LastReached(values);
    PaddedMeansNoGap(values);
    assert Reached(values) == reached by {
      forall i | 0 <= i < ACTOR_PHASES
        ensures Reached(values)[i] == reached[i]
      {
        assert values[i] == Padded(Reached(values), ACTOR_PHASES)[i];
      }
    }
    SumOfTriple(reached);
  }

  /** The part of the total that neither the actor's three phases nor the four other query phases account for. */
  function Residue(total: int, phases: seq<Option<int>>, actor: seq<Option<int>>): int {
    total - (ValueAt(actor, 0) + ValueAt(actor, 1) + ValueAt(actor, 2))
          - (ValueAt(phases, 1) + ValueAt(phases, 2) + ValueAt(phases, 3) + ValueAt(phases, 4))
  }

  lemma SuccessfulResidue(row: Query)
    requires VerifyQuery(row).Ok? && VerifyActor(row).Ok? && row.succeeded == "true"
    ensures 0 <= Residue(row.total, row.phases, row.actor) <= 6
  {
    QueryAccepted(row);
    SumOfFive(row.phases);
    PaddedMeansNoGap(row.actor);
    assert row.phases[0].Some?;
    LastReached(row.actor);
    SumOfThree(row.actor);
  }
}
