/**
 Replaying the raw arrivals of one timed read window against its schedule, its seeds and its recorded errors.
 */
module ReadWindow {
  import opened Results
  import opened Quantiles
  import opened Counters
  import opened ByteStreams
  import opened ReadRecords

  /** The parameters of the run: planned rates, seconds a window lasts, and Cells read in turn. */
  datatype PlanData = Plan(rates: seq<int>, seconds: int, cells: int, concurrency: int)

  type Plan = p: PlanData | p.seconds > 0 && p.cells > 0 && forall i :: 0 <= i < |p.rates| ==> p.rates[i] > 0
    witness Plan([], 1, 1, 1)

  /** The value written to a Cell before the run: the sequence it was written at, and its digest as text. */
  datatype Seed = Seed(entity: int, minimum: int, key: int, payload: int, digest: string)

  datatype ErrorRow = ErrorRow(arrival: int, text: string)

  /** The recorded sample of a window. */
  datatype Sample = Sample(
    rate: int, seconds: int, concurrency: int, count: int, elapsed: int, cpu: int, rss: int, memory: int,
    memoryPeak: int, activeCells: int, startAt: int, endAt: int, sqliteDescriptors: int, descriptors: int,
    exportRequests: int, exportAccepted: int, exportFailed: int, exportCompleted: int, fullyServed: string)

  datatype Delays = Delays(latency: int, generator: int, execution: int)

  function NoDigest(): seq<Byte> {
    seq(DIGEST, _ => 0)
  }

  function VerifyAttempt(a: Attempt, seed: Seed, arrival: int, rate: int, cells: int, elapsed: int): Result<Delays>
    requires rate > 0 && cells > 0
  {
    if !(a.index == arrival && a.entity == arrival % cells) then Err
    else if a.scheduled != arrival * 1_000_000 / rate then Err
    else if !(a.scheduled <= a.generated <= a.dispatched <= a.terminal <= elapsed) then Err
    else if !(a.minimum == seed.minimum > 0) then Err
    else if a.outcome !in {1, 2, 3} then Err
    else if a.outcome == 1 && !(a.observed == a.minimum && Hex(a.digest) == seed.digest) then Err
    else if a.outcome != 1 && !(a.observed == 0 && a.digest == NoDigest()) then Err
    else if a.outcome == 3 && a.terminal != a.dispatched then Err
    else Ok(Delays(a.terminal - a.scheduled, a.generated - a.scheduled, a.terminal - a.dispatched))
  }

  /** No value was read. */
  predicate Blank(a: Attempt) {
    a.observed == 0 && |a.digest| == 32 && forall i :: 0 <= i < 32 ==> a.digest[i] == 0
  }

  lemma Scheduled(scheduled: int, arrival: nat, rate: int)
    requires rate > 0
    ensures scheduled == arrival * 1_000_000 / rate <==> scheduled * rate <= arrival * 1_000_000 < (scheduled + 1) * rate
  {
    var x := arrival * 1_000_000;
    var q := x / rate;
    assert x == rate * q + x % rate && 0 <= x % rate < rate;
    Multiples(rate, q, scheduled - q);
    Multiples(rate, scheduled, 1);
  }

  lemma Multiples(r: int, q: int, e: int)
    requires r > 0
    ensures (q + e) * r == r * q + r * e
    ensures (e >= 1 ==> r * e >= r) && (e <= -1 ==> r * e <= -r)
  {
  }

  /** Exactly which attempts are accepted, and their three delays. */
  lemma AttemptAccepted(a: Attempt, seed: Seed, arrival: nat, rate: int, cells: int, elapsed: int)
    requires rate > 0 && cells > 0
    ensures VerifyAttempt(a, seed, arrival, rate, cells, elapsed).Ok? <==>
            && a.index == arrival && a.entity == arrival % cells
            && a.scheduled * rate <= arrival * 1_000_000 < (a.scheduled + 1) * rate
            && a.scheduled <= a.generated && a.generated <= a.dispatched && a.dispatched <= a.terminal && a.terminal <= elapsed
            && a.minimum == seed.minimum && seed.minimum >= 1
            && (|| (a.outcome == 1 && a.observed == seed.minimum && Hex(a.digest) == seed.digest)
                || (a.outcome == 2 && Blank(a))
                || (a.outcome == 3 && Blank(a) && a.terminal == a.dispatched))
    ensures VerifyAttempt(a, seed, arrival, rate, cells, elapsed).Ok? ==>
            var d := VerifyAttempt(a, seed, arrival, rate, cells, elapsed).value;
            && d.latency == a.terminal - a.scheduled && d.generator == a.generated - a.scheduled
            && d.execution == a.terminal - a.dispatched
  {
    Scheduled(a.scheduled, arrival, rate);
    assert a.digest == NoDigest() <==> |a.digest| == 32 && forall i :: 0 <= i < 32 ==> a.digest[i] == 0;
  }

  /** An accepted attempt started on schedule or later, and its waits fit in its latency; only a success shows a value. */
  lemma AttemptTimes(a: Attempt, seed: Seed, arrival: nat, rate: int, cells: int, elapsed: int)
    requires rate > 0 && cells > 0 && VerifyAttempt(a, seed, arrival, rate, cells, elapsed).Ok?
    ensures var d := VerifyAttempt(a, seed, arrival, rate, cells, elapsed).value;
            && 0 <= d.generator && 0 <= d.execution && d.generator + d.execution <= d.latency <= elapsed
            && a.scheduled * rate <= arrival * 1_000_000 < (a.scheduled + 1) * rate
            && (a.outcome == 3 ==> d.execution == 0)
            && (a.observed > 0 <==> a.outcome == 1)
  {
    Scheduled(a.scheduled, arrival, rate);
  }

  /** Two successes on one Cell show the same value, written at the same sequence. */
  lemma SuccessesAgree(a: Attempt, b: Attempt, seed: Seed, i: nat, j: nat, rate: int, cells: int, elapsed: int)
    requires rate > 0 && cells > 0 && a.outcome == b.outcome == 1
    requires VerifyAttempt(a, seed, i, rate, cells, elapsed).Ok? && VerifyAttempt(b, seed, j, rate, cells, elapsed).Ok?
    ensures a.digest == b.digest && a.observed == b.observed == seed.minimum
  {
    HexIsInjective(a.digest, b.digest);
  }

  // ----- what a window must satisfy

  /** The window ran as planned and no longer than it could, on at most eight cores and 16 GiB, with all Cells resident. */
  predicate SampleOk(s: Sample, plan: Plan) {
    && (exists i :: 0 <= i < |plan.rates| && plan.rates[i] == s.rate)
    && s.seconds == plan.seconds && s.concurrency == plan.concurrency && s.activeCells == plan.cells
    && s.count == s.rate * s.seconds && s.seconds * 1_000_000 <= s.elapsed
    && s.cpu >= 0 && s.cpu <= 8 * s.elapsed + 260_000
    && s.rss >= 1 && s.memory >= 1 && s.memory <= s.memoryPeak && s.memoryPeak <= 17_179_869_184
    && s.startAt >= 1 && s.startAt <= s.endAt
    && s.sqliteDescriptors >= 1 && s.sqliteDescriptors <= s.descriptors && s.descriptors <= 65_536
  }

  /** The checks of the recorded sample, one after another. */
  function CheckSample(s: Sample, plan: Plan): Result<()> {
    if !(s.rate in plan.rates && s.seconds == plan.seconds && s.concurrency == plan.concurrency) then Err
    else if s.count != s.rate * plan.seconds then Err
    else if s.elapsed < plan.seconds * 1_000_000 then Err
    else if !(0 <= s.cpu <= (s.elapsed + 20_000) * 8 + 100_000) then Err
    else if !(0 < s.rss) then Err
    else if !(0 < s.memory <= s.memoryPeak <= 16 * 0x4000_0000) then Err
    else if s.activeCells != plan.cells then Err
    else if !(0 < s.startAt <= s.endAt) then Err
    else if !(0 < s.sqliteDescriptors <= s.descriptors <= 65_536) then Err
    else Ok(())
  }

  lemma SampleAccepted(s: Sample, plan: Plan)
    ensures CheckSample(s, plan).Ok? <==> SampleOk(s, plan)
  {
  }

  predicate AttemptOk(attempts: seq<Attempt>, i: nat, seeds: seq<Seed>, s: Sample, plan: Plan)
    requires i < |attempts| && |seeds| == plan.cells && s.rate > 0
  {
    && VerifyAttempt(attempts[i], seeds[i % plan.cells], i, s.rate, plan.cells, s.elapsed).Ok?
    && (i > 0 ==> attempts[i].generated >= attempts[i - 1].generated && attempts[i].dispatched >= attempts[i - 1].dispatched)
  }

  /** One nonempty error per arrival that ended in an error, and none for any other. */
  predicate ErrorsMatch(errors: seq<ErrorRow>, attempts: seq<Attempt>) {
    && DistinctArrivals(errors)
    && (forall i :: 0 <= i < |errors| ==> errors[i].text != "" && 0 <= errors[i].arrival < |attempts|)
    && (forall i :: 0 <= i < |errors| && 0 <= errors[i].arrival < |attempts| ==> attempts[errors[i].arrival].outcome == 2)
    && (forall a :: 0 <= a < |attempts| && attempts[a].outcome == 2 ==> Recorded(errors, a))
  }

  predicate Recorded(errors: seq<ErrorRow>, arrival: int) {
    exists i :: 0 <= i < |errors| && errors[i].arrival == arrival
  }

  predicate ArrivalsOk(attempts: seq<Attempt>, seeds: seq<Seed>, s: Sample, plan: Plan)
    requires |seeds| == plan.cells && s.rate > 0
  {
    |attempts| == s.count && forall i :: 0 <= i < |attempts| ==> AttemptOk(attempts, i, seeds, s, plan)
  }

  function Latency(a: Attempt): int { a.terminal - a.scheduled }

  function Generator(a: Attempt): int { a.generated - a.scheduled }

  function Execution(a: Attempt): int { a.terminal - a.dispatched }

  function Map(attempts: seq<Attempt>, f: Attempt -> int): seq<int> {
    seq(|attempts|, i requires 0 <= i < |attempts| => f(attempts[i]))
  }

  ghost function CountOutcome(attempts: seq<Attempt>, outcome: int): nat {
    if attempts == [] then 0
    else CountOutcome(attempts[..|attempts| - 1], outcome) + if attempts[|attempts| - 1].outcome == outcome then 1 else 0
  }

  ghost function CountTimely(attempts: seq<Attempt>, seconds: int): nat {
    if attempts == [] then 0
    else
      var last := attempts[|attempts| - 1];
      CountTimely(attempts[..|attempts| - 1], seconds) +
      if last.outcome == 1 && last.terminal <= seconds * 1_000_000 then 1 else 0
  }

  predicate FullyServed(outcomes: map<int, int>, latency: real, generator: real, elapsed: int, exportFailed: int)
    requires outcomes.Keys == {1, 2, 3}
  {
    && outcomes[2] == outcomes[3] == 0 && latency <= 50_000.0
    && generator <= 5000.0 && elapsed <= 62_000_000 && exportFailed == 0
  }

  /** Every arrival succeeded, and at least 99 percent of them in time. */
  ghost predicate Served(attempts: seq<Attempt>, s: Sample)
    requires attempts != []
  {
    && (forall i :: 0 <= i < |attempts| ==> attempts[i].outcome == 1)
    && P99(Map(attempts, Latency)) <= 50.0 && P99(Map(attempts, Generator)) <= 5.0
    && s.elapsed <= 62_000_000 && s.exportFailed == 0
  }

  /** The 99th percentile of a nonempty list, in milliseconds. */
  function P99(values: seq<int>): real
    requires values != []
  {
    SortedSorts(values);
    QuantileAt(values, 99);
    DistributionOf(values).quantiles[99]
  }

  function Word(b: bool): string {
    if b then "true" else "false"
  }

  ghost predicate WindowOk(s: Sample, attempts: seq<Attempt>, errors: seq<ErrorRow>, seeds: seq<Seed>, plan: Plan)
    requires |seeds| == plan.cells
  {
    && SampleOk(s, plan) && ArrivalsOk(attempts, seeds, s, plan) && ErrorsMatch(errors, attempts)
    && attempts != [] && s.fullyServed == Word(Served(attempts, s))
  }

  // ----- counting outcomes

  lemma {:induction false} CountNext(attempts: seq<Attempt>, a: Attempt, outcome: int, seconds: int)
    ensures CountOutcome(attempts + [a], outcome) == CountOutcome(attempts, outcome) + if a.outcome == outcome then 1 else 0
    ensures CountTimely(attempts + [a], seconds) ==
            CountTimely(attempts, seconds) + if a.outcome == 1 && a.terminal <= seconds * 1_000_000 then 1 else 0
  {
    assert (attempts + [a])[..|attempts|] == attempts;
  }

  /** The three outcomes account for every arrival. */
  lemma {:induction false} OutcomesSum(attempts: seq<Attempt>)
    requires forall i :: 0 <= i < |attempts| ==> attempts[i].outcome in {1, 2, 3}
    ensures CountOutcome(attempts, 1) + CountOutcome(attempts, 2) + CountOutcome(attempts, 3) == |attempts|
    decreases |attempts|
  {
    if attempts != [] {
      OutcomesSum(attempts[..|attempts| - 1]);
    }
  }

  lemma {:induction false} NoneCounted(attempts: seq<Attempt>, outcome: int)
    ensures CountOutcome(attempts, outcome) == 0 <==> forall i :: 0 <= i < |attempts| ==> attempts[i].outcome != outcome
    decreases |attempts|
  {
    if attempts != [] {
      var n := |attempts| - 1;
      NoneCounted(attempts[..n], outcome);
      assert forall i :: 0 <= i < n ==> attempts[..n][i] == attempts[i];
    }
  }

  lemma {:induction false} ServedMeansCounts(attempts: seq<Attempt>, outcomes: map<int, int>, s: Sample)
    requires attempts != [] && forall i :: 0 <= i < |attempts| ==> attempts[i].outcome in {1, 2, 3}
    requires outcomes.Keys == {1, 2, 3} && outcomes[2] == CountOutcome(attempts, 2) && outcomes[3] == CountOutcome(attempts, 3)
    ensures FullyServed(outcomes, P99(Map(attempts, Latency)) * 1000.0, P99(Map(attempts, Generator)) * 1000.0, s.elapsed,
                        s.exportFailed)
            <==> Served(attempts, s)
  {
    NoneCounted(attempts, 2);
    NoneCounted(attempts, 3);
  }

  // ----- the errors, consumed as their arrivals are met

  function ErrorMap(errors: seq<ErrorRow>): (m: map<int, string>)
    ensures forall k :: k in m <==> Recorded(errors, k)
  {
    if errors == [] then map[]
    else
      var last := errors[|errors| - 1];
      ErrorMap(errors[..|errors| - 1])[last.arrival := last.text]
  }

  predicate DistinctArrivals(errors: seq<ErrorRow>) {
    forall i, j :: 0 <= i < j < |errors| ==> errors[i].arrival != errors[j].arrival
  }

  lemma DistinctNext(errors: seq<ErrorRow>, e: ErrorRow)
    ensures DistinctArrivals(errors + [e]) <==> DistinctArrivals(errors) && !Recorded(errors, e.arrival)
  {
    var longer := errors + [e];
    assert forall i :: 0 <= i < |errors| ==> longer[i] == errors[i];
    assert longer[|errors|] == e;
  }

  /** As many entries as rows exactly if no arrival is repeated. */
  lemma {:induction false} MapIsFull(errors: seq<ErrorRow>)
    ensures |ErrorMap(errors)| <= |errors|
    ensures |ErrorMap(errors)| == |errors| <==> DistinctArrivals(errors)
    decreases |errors|
  {
    if errors != [] {
      var n := |errors| - 1;
      var before := ErrorMap(errors[..n]);
      MapIsFull(errors[..n]);
      assert errors == errors[..n] + [errors[n]];
      DistinctNext(errors[..n], errors[n]);
      if errors[n].arrival in before {
        assert ErrorMap(errors).Keys == before.Keys;
      } else {
        assert ErrorMap(errors).Keys == before.Keys + {errors[n].arrival};
      }
    }
  }

  lemma {:induction false} MapHolds(errors: seq<ErrorRow>, i: nat)
    requires i < |errors| && DistinctArrivals(errors)
    ensures errors[i].arrival in ErrorMap(errors) && ErrorMap(errors)[errors[i].arrival] == errors[i].text
    decreases |errors|
  {
    assert Recorded(errors, errors[i].arrival);
    var n := |errors| - 1;
    if i < n {
      MapHolds(errors[..n], i);
    }
  }

  predicate ErrorsDistinct(errors: seq<ErrorRow>) {
    && DistinctArrivals(errors)
    && (forall i :: 0 <= i < |errors| ==> errors[i].text != "")
  }

  method ReadErrors(errors: seq<ErrorRow>) returns (r: Result<map<int, string>>)
    ensures r.Ok? <==> ErrorsDistinct(errors)
    ensures r.Ok? ==> r.value == ErrorMap(errors)
  {
    var m := ErrorMap(errors);
    MapIsFull(errors);
    if |m| != |errors| {
      return Err;
    }
    forall i | 0 <= i < |errors| {
      MapHolds(errors, i);
    }
    if exists k :: k in m && m[k] == "" {
      ghost var k :| k in m && m[k] == "";
      assert Recorded(errors, k);
      return Err;
    }
    r := Ok(m);
  }

  /** Of the recorded errors, those whose arrivals are still to come. */
  ghost predicate Remaining(left: map<int, string>, all: map<int, string>, i: int) {
    forall k :: k in left <==> k in all && !(0 <= k < i)
  }

  predicate ErrorAgrees(all: map<int, string>, attempts: seq<Attempt>, i: nat)
    requires i < |attempts|
  {
    i in all <==> attempts[i].outcome == 2
  }

  /** Every recorded error is consumed by the arrival it names, and every failed arrival consumes one. */
  predicate ErrorsConsumed(all: map<int, string>, attempts: seq<Attempt>) {
    && (forall i :: 0 <= i < |attempts| ==> ErrorAgrees(all, attempts, i))
    && (forall k :: k in all ==> 0 <= k < |attempts|)
  }

  lemma {:induction false} ConsumedMeansMatched(errors: seq<ErrorRow>, attempts: seq<Attempt>)
    requires ErrorsDistinct(errors)
    ensures ErrorsConsumed(ErrorMap(errors), attempts) <==> ErrorsMatch(errors, attempts)
  {
    var all := ErrorMap(errors);
    if ErrorsConsumed(all, attempts) {
      forall i | 0 <= i < |errors|
        ensures 0 <= errors[i].arrival < |attempts| && attempts[errors[i].arrival].outcome == 2
      {
        assert Recorded(errors, errors[i].arrival);
        assert ErrorAgrees(all, attempts, errors[i].arrival);
      }
      forall a | 0 <= a < |attempts| && attempts[a].outcome == 2
        ensures Recorded(errors, a)
      {
        assert ErrorAgrees(all, attempts, a);
      }
    }
    if ErrorsMatch(errors, attempts) {
      forall k | k in all
        ensures 0 <= k < |attempts| && attempts[k].outcome == 2
      {
        assert Recorded(errors, k);
      }
    }
  }

  datatype Tally = Tally(outcomes: map<int, int>, timely: int, latency: seq<int>, generator: seq<int>, execution: seq<int>)

  /** The running totals over the arrivals met so far. */
  ghost predicate Totals(t: Tally, attempts: seq<Attempt>, seconds: int) {
    && t.outcomes.Keys == {1, 2, 3}
    && (forall o :: o in t.outcomes ==> t.outcomes[o] == CountOutcome(attempts, o))
    && t.timely == CountTimely(attempts, seconds)
    && t.latency == Map(attempts, Latency) && t.generator == Map(attempts, Generator)
    && t.execution == Map(attempts, Execution)
  }

  function AddAttempt(t: Tally, a: Attempt, d: Delays, seconds: int): Tally
    requires a.outcome in t.outcomes
  {
    Tally(t.outcomes[a.outcome := t.outcomes[a.outcome] + 1],
          t.timely + (if a.outcome == 1 && a.terminal <= seconds * 1_000_000 then 1 else 0),
          t.latency + [d.latency], t.generator + [d.generator], t.execution + [d.execution])
  }

  lemma TotalsNext(t: Tally, attempts: seq<Attempt>, a: Attempt, d: Delays, seconds: int)
    requires Totals(t, attempts, seconds) && a.outcome in t.outcomes
    requires d == Delays(Latency(a), Generator(a), Execution(a))
    ensures Totals(AddAttempt(t, a, d, seconds), attempts + [a], seconds)
  {
    forall o: int {
      CountNext(attempts, a, o, seconds);
    }
  }

  /** The state of the replay: what was last generated and dispatched, the errors not yet met and the totals. */
  datatype Progress = Progress(generated: nat, dispatched: nat, errors: map<int, string>, tally: Tally)

  ghost predicate Replayed(p: Progress, attempts: seq<Attempt>, n: nat, all: map<int, string>, seconds: int)
    requires n <= |attempts|
  {
    && p.generated == (if n == 0 then 0 else attempts[n - 1].generated)
    && p.dispatched == (if n == 0 then 0 else attempts[n - 1].dispatched)
    && Remaining(p.errors, all, n) && Totals(p.tally, attempts[..n], seconds)
  }

  predicate ArrivalOk(attempts: seq<Attempt>, i: nat, all: map<int, string>, seeds: seq<Seed>, s: Sample, plan: Plan)
    requires i < |attempts| && |seeds| == plan.cells && s.rate > 0
  {
    AttemptOk(attempts, i, seeds, s, plan) && ErrorAgrees(all, attempts, i)
  }

  predicate ReplayOk(attempts: seq<Attempt>, all: map<int, string>, seeds: seq<Seed>, s: Sample, plan: Plan)
    requires |seeds| == plan.cells && s.rate > 0
  {
    && (forall i :: 0 <= i < |attempts| ==> ArrivalOk(attempts, i, all, seeds, s, plan))
    && (forall k :: k in all ==> 0 <= k < |attempts|)
  }

  method ReplayOne(p: Progress, attempts: seq<Attempt>, arrival: nat, ghost all: map<int, string>, seeds: seq<Seed>,
                   s: Sample, plan: Plan) returns (r: Result<Progress>)
    requires arrival < |attempts| && |seeds| == plan.cells && s.rate > 0
    requires Replayed(p, attempts, arrival, all, plan.seconds)
    ensures r.Ok? <==> ArrivalOk(attempts, arrival, all, seeds, s, plan)
    ensures r.Ok? ==> Replayed(r.value, attempts, arrival + 1, all, plan.seconds)
  {
    var a := attempts[arrival];
    var delays :- VerifyAttempt(a, seeds[arrival % plan.cells], arrival, s.rate, plan.cells, s.elapsed);
    if a.generated < p.generated || a.dispatched < p.dispatched {
      return Err;
    }
    if (arrival in p.errors) != (a.outcome == 2) {
      return Err;
    }
    var errors := if a.outcome == 2 then p.errors - {arrival} else p.errors;
    TotalsNext(p.tally, attempts[..arrival], a, delays, plan.seconds);
    assert attempts[..arrival + 1] == attempts[..arrival] + [a];
    r := Ok(Progress(a.generated, a.dispatched, errors, AddAttempt(p.tally, a, delays, plan.seconds)));
  }

  /** Stops at the first arrival that is wrong or whose error evidence disagrees with its outcome. */
  method Replay(attempts: seq<Attempt>, all: map<int, string>, seeds: seq<Seed>, s: Sample, plan: Plan)
    returns (r: Result<Tally>)
    requires |seeds| == plan.cells && s.rate > 0
    ensures r.Ok? <==> ReplayOk(attempts, all, seeds, s, plan)
    ensures r.Ok? ==> Totals(r.value, attempts, plan.seconds)
  {
    var p := Progress(0, 0, all, Tally(map[1 := 0, 2 := 0, 3 := 0], 0, [], [], []));
    for arrival := 0 to |attempts|
      invariant forall i :: 0 <= i < arrival ==> ArrivalOk(attempts, i, all, seeds, s, plan)
      invariant Replayed(p, attempts, arrival, all, plan.seconds)
    {
      p :- ReplayOne(p, attempts, arrival, all, seeds, s, plan);
    }
    assert attempts[..|attempts|] == attempts;
    if p.errors.Keys != {} {
      ghost var k := Member(p.errors.Keys);
      return Err;
    }
    r := Ok(p.tally);
  }

  // ----- the verdict

  datatype Verdict = Verdict(tally: Tally, served: bool, latency: Distribution, generator: Distribution, execution: Distribution)

  ghost predicate Judges(v: Verdict, s: Sample, attempts: seq<Attempt>, plan: Plan) {
    && attempts != [] && Totals(v.tally, attempts, plan.seconds) && v.served == Served(attempts, s)
    && v.latency == DistributionOf(Map(attempts, Latency)) && v.generator == DistributionOf(Map(attempts, Generator))
    && v.execution == DistributionOf(Map(attempts, Execution))
  }

  lemma {:induction false} ReplayedMeansOk(attempts: seq<Attempt>, errors: seq<ErrorRow>, seeds: seq<Seed>, s: Sample, plan: Plan)
    requires |seeds| == plan.cells && s.rate > 0 && ErrorsDistinct(errors) && |attempts| == s.count
    ensures ReplayOk(attempts, ErrorMap(errors), seeds, s, plan)
            <==> ArrivalsOk(attempts, seeds, s, plan) && ErrorsMatch(errors, attempts)
  {
    ConsumedMeansMatched(errors, attempts);
    if ArrivalsOk(attempts, seeds, s, plan) && ErrorsMatch(errors, attempts) {
      assert forall i :: 0 <= i < |attempts| ==> ErrorAgrees(ErrorMap(errors), attempts, i);
    }
    if ReplayOk(attempts, ErrorMap(errors), seeds, s, plan) {
      forall i | 0 <= i < |attempts|
        ensures AttemptOk(attempts, i, seeds, s, plan) && ErrorAgrees(ErrorMap(errors), attempts, i)
      {
        assert ArrivalOk(attempts, i, ErrorMap(errors), seeds, s, plan);
      }
    }
  }

  method Judge(s: Sample, t: Tally, ghost attempts: seq<Attempt>, ghost plan: Plan) returns (v: Verdict)
    requires attempts != [] && Totals(t, attempts, plan.seconds)
    requires forall i :: 0 <= i < |attempts| ==> attempts[i].outcome in {1, 2, 3}
    ensures Judges(v, s, attempts, plan)
  {
    var latency, generator := DistributionOf(t.latency), DistributionOf(t.generator);
    SortedSorts(t.latency);
    SortedSorts(t.generator);
    var served := FullyServed(t.outcomes, latency.quantiles[99] * 1000.0, generator.quantiles[99] * 1000.0, s.elapsed,
                              s.exportFailed);
    ServedMeansCounts(attempts, t.outcomes, s);
    v := Verdict(t, served, latency, generator, DistributionOf(t.execution));
  }

  lemma OutcomesKnown(attempts: seq<Attempt>, seeds: seq<Seed>, s: Sample, plan: Plan)
    requires |seeds| == plan.cells && s.rate > 0 && ArrivalsOk(attempts, seeds, s, plan)
    ensures forall i :: 0 <= i < |attempts| ==> attempts[i].outcome in {1, 2, 3}
  {
    forall i | 0 <= i < |attempts|
      ensures attempts[i].outcome in {1, 2, 3}
    {
      assert AttemptOk(attempts, i, seeds, s, plan);
    }
  }

  method VerifyArrivals(s: Sample, attempts: seq<Attempt>, errors: seq<ErrorRow>, seeds: seq<Seed>, plan: Plan)
    returns (r: Result<Verdict>)
    requires |seeds| == plan.cells
    ensures r.Ok? <==> WindowOk(s, attempts, errors, seeds, plan)
    ensures r.Ok? ==> Judges(r.value, s, attempts, plan)
  {
    SampleAccepted(s, plan);
    if CheckSample(s, plan).Err? || |attempts| != s.count {
      return Err;
    }
    var all := ReadErrors(errors);
    if all.Err? {
      return Err;
    }
    ReplayedMeansOk(attempts, errors, seeds, s, plan);
    var tally :- Replay(attempts, all.value, seeds, s, plan);
    OutcomesKnown(attempts, seeds, s, plan);
    assert |attempts| > 0 by { ManyArrivals(s.rate, plan.seconds); }
    var v := Judge(s, tally, attempts, plan);
    if s.fullyServed != Word(v.served) {
      return Err;
    }
    r := Ok(v);
  }

  /** The window's file is whole, and the arrivals it holds are as they must be. */
  ghost predicate FileOk(s: Sample, raw: seq<Byte>, errors: seq<ErrorRow>, seeds: seq<Seed>, plan: Plan)
    requires |seeds| == plan.cells
  {
    |raw| == s.count * RECORD && WindowOk(s, DecodeAll(raw), errors, seeds, plan)
  }

  method VerifyWindow(s: Sample, raw: seq<Byte>, errors: seq<ErrorRow>, seeds: seq<Seed>, plan: Plan)
    returns (r: Result<Verdict>)
    requires |seeds| == plan.cells
    ensures r.Ok? <==> FileOk(s, raw, errors, seeds, plan)
    ensures r.Ok? ==> Judges(r.value, s, DecodeAll(raw), plan)
  {
    if |raw| != s.count * RECORD {
      return Err;
    }
    ArrivalCount(raw, s.count);
    r := VerifyArrivals(s, DecodeAll(raw), errors, seeds, plan);
  }

  lemma ManyArrivals(rate: int, seconds: int)
    requires rate > 0 && seconds > 0
    ensures rate * seconds > 0
  {
  }

  // ----- what an accepted window shows

  ghost function CountCell(attempts: seq<Attempt>, cell: int): nat {
    if attempts == [] then 0
    else CountCell(attempts[..|attempts| - 1], cell) + if attempts[|attempts| - 1].entity == cell then 1 else 0
  }

  function Share(n: nat, cells: int, cell: int): int
    requires cells > 0
  {
    n / cells + if cell < n % cells then 1 else 0
  }

  lemma ShareNext(n: nat, cells: int, cell: int)
    requires cells > 0 && 0 <= cell < cells
    ensures Share(n + 1, cells, cell) == Share(n, cells, cell) + if n % cells == cell then 1 else 0
  {
    NextRound(n, cells);
  }

  /** Reading the Cells in turn gives each the whole rounds, and the first few one more. */
  lemma {:induction false} CellShare(attempts: seq<Attempt>, cells: int, cell: int)
    requires cells > 0 && 0 <= cell < cells
    requires forall i :: 0 <= i < |attempts| ==> attempts[i].entity == i % cells
    ensures CountCell(attempts, cell) == Share(|attempts|, cells, cell)
    decreases |attempts|
  {
    if attempts != [] {
      var n := |attempts| - 1;
      CellShare(attempts[..n], cells, cell);
      ShareNext(n, cells, cell);
    }
  }

  lemma NextRound(n: nat, cells: int)
    requires cells > 0
    ensures if n % cells == cells - 1 then (n + 1) / cells == n / cells + 1 && (n + 1) % cells == 0
            else (n + 1) / cells == n / cells && (n + 1) % cells == n % cells + 1
  {
    var q, r := n / cells, n % cells;
    assert n == cells * q + r;
    if r == cells - 1 {
      Quotient(n + 1, cells, q + 1, 0);
    } else {
      Quotient(n + 1, cells, q, r + 1);
    }
  }

  lemma Quotient(n: nat, d: int, q: int, r: int)
    requires d > 0 && 0 <= r < d && n == d * q + r
    ensures n / d == q && n % d == r
  {
    var e := q - n / d;
    assert d * e == n % d - r;
    assert e >= 1 ==> d * e >= d;
    assert e <= -1 ==> d * e <= -d;
  }

  lemma {:induction false} AcceptedWindow(s: Sample, attempts: seq<Attempt>, errors: seq<ErrorRow>, seeds: seq<Seed>, plan: Plan, v: Verdict)
    requires |seeds| == plan.cells && WindowOk(s, attempts, errors, seeds, plan) && Judges(v, s, attempts, plan)
    ensures forall a :: Recorded(errors, a) <==> 0 <= a < |attempts| && attempts[a].outcome == 2
    ensures v.tally.outcomes[1] + v.tally.outcomes[2] + v.tally.outcomes[3] == s.rate * s.seconds
    ensures v.tally.outcomes[2] == |errors|
    ensures forall c, d :: 0 <= c < plan.cells && 0 <= d < plan.cells ==>
              -1 <= CountCell(attempts, c) - CountCell(attempts, d) <= 1
    ensures v.served ==> v.tally.outcomes[1] == |attempts| && errors == []
  {
    OutcomesKnown(attempts, seeds, s, plan);
    OutcomesSum(attempts);
    ErrorsCounted(errors, attempts);
    forall i | 0 <= i < |attempts|
      ensures attempts[i].entity == i % plan.cells
    {
      assert AttemptOk(attempts, i, seeds, s, plan);
    }
    forall c | 0 <= c < plan.cells
      ensures 0 <= CountCell(attempts, c) - |attempts| / plan.cells <= 1
    {
      CellShare(attempts, plan.cells, c);
    }
    if v.served {
      NoneCounted(attempts, 2);
      NoneCounted(attempts, 3);
    }
  }

  /** How many arrivals took at most so long, by some measure. */
  ghost function Within(attempts: seq<Attempt>, f: Attempt -> int, limit: int): nat {
    Below(Map(attempts, f), limit + 1)
  }

  /**
   A window is served exactly if every arrival succeeded, 99 percent of them ended within 50 ms and were generated within
   5 ms of their schedule, it ended in time and no export failed.
   */
  lemma ServedInTime(attempts: seq<Attempt>, s: Sample)
    requires attempts != []
    ensures Served(attempts, s) <==>
            && (forall i :: 0 <= i < |attempts| ==> attempts[i].outcome == 1)
            && 99 * |attempts| <= 100 * Within(attempts, (a: Attempt) => a.terminal - a.scheduled, 50_000)
            && 99 * |attempts| <= 100 * Within(attempts, (a: Attempt) => a.generated - a.scheduled, 5000)
            && s.elapsed <= 62_000_000 && s.exportFailed == 0
  {
    MostInTime(attempts, Latency, (a: Attempt) => a.terminal - a.scheduled, 50_000);
    MostInTime(attempts, Generator, (a: Attempt) => a.generated - a.scheduled, 5000);
  }

  lemma {:induction false} MostInTime(attempts: seq<Attempt>, f: Attempt -> int, g: Attempt -> int, limit: int)
    requires attempts != [] && forall a :: f(a) == g(a)
    ensures P99(Map(attempts, f)) * 1000.0 <= limit as real <==> 99 * |attempts| <= 100 * Within(attempts, g, limit)
  {
    assert Map(attempts, f) == Map(attempts, g);
    WithinMeansMost(Map(attempts, f), 99, limit);
  }

  ghost function Failed(attempts: seq<Attempt>): set<int> {
    set a | 0 <= a < |attempts| && attempts[a].outcome == 2
  }

  lemma {:induction false} FailedCounted(attempts: seq<Attempt>)
    ensures |Failed(attempts)| == CountOutcome(attempts, 2)
    decreases |attempts|
  {
    if attempts != [] {
      var n := |attempts| - 1;
      FailedCounted(attempts[..n]);
      assert Failed(attempts) == Failed(attempts[..n]) + if attempts[n].outcome == 2 then {n} else {};
    }
  }

  lemma {:induction false} ErrorsCounted(errors: seq<ErrorRow>, attempts: seq<Attempt>)
    requires ErrorsMatch(errors, attempts)
    ensures |errors| == CountOutcome(attempts, 2)
  {
    MapIsFull(errors);
    FailedCounted(attempts);
    forall k
      ensures k in ErrorMap(errors) <==> k in Failed(attempts)
    {
      assert k in ErrorMap(errors) <==> Recorded(errors, k);
    }
    assert ErrorMap(errors).Keys == Failed(attempts);
  }
}
