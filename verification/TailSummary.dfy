/**
 Totals over the slowest queries of one window: phase times, enqueue states and the partition of every slot wait.
 */
module TailSummary {
  import opened Results
  import opened SlotTrace
  import opened SlotAudit
  import opened Counters
  import opened Permutations
  import Phases = QueryPhases

  /** One retained query: its total, its position in the window, its slot and its phases. */
  datatype Entry = Entry(
    total: int, ordinal: int, job: int, values: seq<Option<int>>, actor: seq<Option<int>>, state: string)

  // ----- sums over a tail

  ghost function SumOf(tail: seq<Entry>, f: Entry -> int): int {
    if tail == [] then 0 else SumOf(tail[..|tail| - 1], f) + f(tail[|tail| - 1])
  }

  lemma {:induction false} SumOfNext(tail: seq<Entry>, e: Entry, f: Entry -> int)
    ensures SumOf(tail + [e], f) == SumOf(tail, f) + f(e)
  {
    assert (tail + [e])[..|tail|] == tail;
  }

  ghost function TotalTime(): Entry -> int { (e: Entry) => e.total }

  ghost function PhaseTime(i: nat): Entry -> int { (e: Entry) => Phases.ValueAt(e.values, i) }

  ghost function ActorTime(i: nat): Entry -> int { (e: Entry) => Phases.ValueAt(e.actor, i) }

  ghost function InState(state: string): Entry -> int { (e: Entry) => if StateName(e.state) == state then 1 else 0 }

  ghost function QueueTime(state: string): Entry -> int {
    (e: Entry) => if e.state == state then Phases.ValueAt(e.actor, 1) else 0
  }

  ghost function IsBound(): Entry -> int { (e: Entry) => if e.job == 0 then 0 else 1 }

  /** The time a bound query waited for its slot. */
  ghost function WaitTime(slots: Slots): Entry -> int {
    (e: Entry) => if e.job in slots then slots[e.job].acquired - slots[e.job].requested else 0
  }

  /** The part of that wait a measure covers. */
  ghost function CoveredTime(slots: Slots, m: Measure): Entry -> int {
    (e: Entry) => if Dense(slots) && e.job in slots
                  then |Covered(LaneOf(slots, e.job), m, slots[e.job].requested, slots[e.job].acquired)| else 0
  }

  function StateName(state: string): string {
    if state == "" then "Unenqueued" else state
  }

  // ----- phases

  type PhaseNames = names: seq<string> | Distinct(names) && "total_us" !in names witness []

  /** Adds each reached value to the counter of its name. */
  method Update(c: Counter<string>, names: PhaseNames, values: seq<Option<int>>) returns (r: Counter<string>)
    ensures forall i :: 0 <= i < |names| ==> Get(r, names[i]) == Get(c, names[i]) + Phases.ValueAt(values, i)
    ensures forall k :: k !in names ==> Get(r, k) == Get(c, k)
  {
    r := c;
    for i := 0 to Min(|names|, |values|)
      invariant forall k :: 0 <= k < i ==> Get(r, names[k]) == Get(c, names[k]) + Phases.ValueAt(values, k)
      invariant forall k :: k !in names[..i] ==> Get(r, k) == Get(c, k)
    {
      assert names[i] !in names[..i];
      if values[i].Some? {
        r := Add(r, names[i], values[i].value);
      }
    }
  }

  ghost predicate PhasesOk(c: Counter<string>, names: seq<string>, done: seq<Entry>) {
    && (forall i :: 0 <= i < |names| ==> Get(c, names[i]) == SumOf(done, PhaseTime(i)))
    && Get(c, "total_us") == SumOf(done, TotalTime())
  }

  method AddPhases(c: Counter<string>, names: PhaseNames, e: Entry, ghost done: seq<Entry>)
    returns (r: Counter<string>)
    requires PhasesOk(c, names, done)
    ensures PhasesOk(r, names, done + [e])
  {
    r := Update(c, names, e.values);
    SumOfNext(done, e, TotalTime());
    forall i | 0 <= i < |names|
      ensures Get(r, names[i]) == SumOf(done + [e], PhaseTime(i))
    {
      SumOfNext(done, e, PhaseTime(i));
    }
    r := Add(r, "total_us", e.total);
  }

  ghost predicate ActorsOk(c: Counter<string>, names: seq<string>, done: seq<Entry>) {
    forall i :: 0 <= i < |names| ==> Get(c, names[i]) == SumOf(done, ActorTime(i))
  }

  method AddActors(c: Counter<string>, names: PhaseNames, e: Entry, ghost done: seq<Entry>)
    returns (r: Counter<string>)
    requires ActorsOk(c, names, done)
    ensures ActorsOk(r, names, done + [e])
  {
    r := Update(c, names, e.actor);
    forall i | 0 <= i < |names|
      ensures Get(r, names[i]) == SumOf(done + [e], ActorTime(i))
    {
      SumOfNext(done, e, ActorTime(i));
    }
  }

  // ----- enqueue states

  ghost predicate StatesOk(states: Counter<string>, waits: Counter<string>, done: seq<Entry>) {
    && (forall s: string :: Get(states, s) == SumOf(done, InState(s)))
    && (forall s: string :: Get(waits, s) == SumOf(done, QueueTime(s)))
    && Sum(states) == |done|
  }

  method AddState(states: Counter<string>, waits: Counter<string>, e: Entry, ghost done: seq<Entry>)
    returns (states': Counter<string>, waits': Counter<string>)
    requires StatesOk(states, waits, done)
    ensures StatesOk(states', waits', done + [e])
  {
    states' := Add(states, StateName(e.state), 1);
    waits' := waits;
    SumAdd(states, StateName(e.state), 1);
    forall s: string
      ensures Get(states', s) == SumOf(done + [e], InState(s))
    {
      SumOfNext(done, e, InState(s));
    }
    if 1 < |e.actor| && e.actor[1].Some? {
      waits' := Add(waits, e.state, e.actor[1].value);
    }
    forall s: string
      ensures Get(waits', s) == SumOf(done + [e], QueueTime(s))
    {
      SumOfNext(done, e, QueueTime(s));
    }
  }

  // ----- slot waits

  ghost predicate WaitsOk(totals: Counter<string>, holders: Counter<string>, slots: Slots, done: seq<Entry>) {
    && Get(totals, "admission_ns") == SumOf(done, WaitTime(slots))
    && Get(totals, "reserved_ns") == SumOf(done, CoveredTime(slots, Any))
    && Get(totals, "recorded_native_span_ns") == SumOf(done, CoveredTime(slots, Native))
    && Get(totals, "reserved_other_span_ns") == Get(totals, "reserved_ns") - Get(totals, "recorded_native_span_ns")
    && Get(totals, "no_recorded_holder_ns") == Get(totals, "admission_ns") - Get(totals, "reserved_ns")
    && (forall kind: string :: Get(holders, kind) == SumOf(done, CoveredTime(slots, OfKind(kind))))
    && Sum(holders) == Get(totals, "reserved_ns")
  }

  /** The five totals of one partition, added to the running ones. */
  function AddPart(totals: Counter<string>, p: Partition): Counter<string> {
    Add(Add(Add(Add(Add(totals, "admission_ns", p.admission), "reserved_ns", p.reserved),
                "recorded_native_span_ns", p.native), "reserved_other_span_ns", p.other),
        "no_recorded_holder_ns", p.unheld)
  }

  lemma AddPartGets(totals: Counter<string>, p: Partition)
    ensures var r := AddPart(totals, p);
            && Get(r, "admission_ns") == Get(totals, "admission_ns") + p.admission
            && Get(r, "reserved_ns") == Get(totals, "reserved_ns") + p.reserved
            && Get(r, "recorded_native_span_ns") == Get(totals, "recorded_native_span_ns") + p.native
            && Get(r, "reserved_other_span_ns") == Get(totals, "reserved_other_span_ns") + p.other
            && Get(r, "no_recorded_holder_ns") == Get(totals, "no_recorded_holder_ns") + p.unheld
  {
  }

  /** The timelines are those of the slots. */
  predicate TimelinesOf(timelines: seq<Timeline>, slots: Slots, workers: int)
    requires Dense(slots)
  {
    |timelines| == Max(0, workers) && forall shard :: 0 <= shard < |timelines| ==>
      IsTimeline(timelines[shard]) && timelines[shard].0 == Lane(slots, shard, |slots|)
  }

  datatype AuditData = Audit(slots: Slots, timelines: seq<Timeline>, workers: int)

  /** An accepted trace and the timelines built from it. */
  type Audit = a: AuditData | Trace(a.slots, a.workers) && TimelinesOf(a.timelines, a.slots, a.workers)
    witness Audit(map[], [], 0)

  lemma UnboundWaits(totals: Counter<string>, holders: Counter<string>, slots: Slots, done: seq<Entry>, e: Entry)
    requires WaitsOk(totals, holders, slots, done) && e.job !in slots
    ensures WaitsOk(totals, holders, slots, done + [e])
  {
    SumOfNext(done, e, WaitTime(slots));
    SumOfNext(done, e, CoveredTime(slots, Any));
    SumOfNext(done, e, CoveredTime(slots, Native));
    forall kind: string
      ensures SumOf(done + [e], CoveredTime(slots, OfKind(kind))) == SumOf(done, CoveredTime(slots, OfKind(kind)))
    {
      SumOfNext(done, e, CoveredTime(slots, OfKind(kind)));
    }
  }

  /** The partition of one entry's wait, in the terms the sums are in. */
  ghost predicate PartOf(p: Partition, slots: Slots, e: Entry) {
    && p.admission == WaitTime(slots)(e)
    && p.reserved == CoveredTime(slots, Any)(e) == Sum(p.holders)
    && p.native == CoveredTime(slots, Native)(e)
    && p.other == p.reserved - p.native && p.unheld == p.admission - p.reserved
    && forall kind: string :: Get(p.holders, kind) == CoveredTime(slots, OfKind(kind))(e)
  }

  lemma ExplainedPart(p: Partition, slots: Slots, e: Entry)
    requires Dense(slots) && e.job in slots && slots[e.job].requested <= slots[e.job].acquired
    requires Explains(p, slots, e.job)
    ensures PartOf(p, slots, e)
  {
    var begin, end := slots[e.job].requested, slots[e.job].acquired;
    Uncovered(LaneOf(slots, e.job), begin, end);
    forall kind: string
      ensures Get(p.holders, kind) == CoveredTime(slots, OfKind(kind))(e)
    {
      assert KindOk(p.holders, LaneOf(slots, e.job), kind, begin, end);
    }
  }

  lemma {:induction false} BoundWaits(totals: Counter<string>, holders: Counter<string>, holders': Counter<string>, p: Partition,
                   slots: Slots, done: seq<Entry>, e: Entry)
    requires WaitsOk(totals, holders, slots, done) && PartOf(p, slots, e)
    requires forall kind: string :: Get(holders', kind) == Get(holders, kind) + Get(p.holders, kind)
    requires Sum(holders') == Sum(holders) + Sum(p.holders)
    ensures WaitsOk(AddPart(totals, p), holders', slots, done + [e])
  {
    AddPartGets(totals, p);
    SumOfNext(done, e, WaitTime(slots));
    SumOfNext(done, e, CoveredTime(slots, Any));
    SumOfNext(done, e, CoveredTime(slots, Native));
    forall kind: string
      ensures Get(holders', kind) == SumOf(done + [e], CoveredTime(slots, OfKind(kind)))
    {
      SumOfNext(done, e, CoveredTime(slots, OfKind(kind)));
    }
  }

  datatype Summary = Summary(
    queries: nat, bound: int, phases: Counter<string>, actors: Counter<string>,
    states: Counter<string>, cellWaits: Counter<string>, totals: Counter<string>, holders: Counter<string>)

  /** Every total is the sum, over the whole tail, of what it counts. */
  ghost predicate Summarizes(s: Summary, tail: seq<Entry>, slots: Slots, names: seq<string>, actorNames: seq<string>) {
    && s.queries == |tail| && s.bound == SumOf(tail, IsBound())
    && PhasesOk(s.phases, names, tail) && ActorsOk(s.actors, actorNames, tail)
    && StatesOk(s.states, s.cellWaits, tail) && WaitsOk(s.totals, s.holders, slots, tail)
  }

  method AddWaits(totals: Counter<string>, holders: Counter<string>, audit: Audit, e: Entry, ghost done: seq<Entry>)
    returns (totals': Counter<string>, holders': Counter<string>)
    requires e.job in audit.slots && WaitsOk(totals, holders, audit.slots, done)
    ensures WaitsOk(totals', holders', audit.slots, done + [e])
  {
    var slots := audit.slots;
    assert WellFormed(slots[e.job], e.job, audit.workers);
    var part := AdmissionBreakdown(slots[e.job], audit.timelines);
    holders' := Merge(holders, part.holders);
    totals' := AddPart(totals, part);
    ExplainedPart(part, slots, e);
    BoundWaits(totals, holders, holders', part, slots, done, e);
  }

  method AddEntry(s: Summary, e: Entry, audit: Audit, names: PhaseNames, actorNames: PhaseNames, ghost done: seq<Entry>)
    returns (r: Summary)
    requires e.job == 0 || e.job in audit.slots
    requires Summarizes(s, done, audit.slots, names, actorNames)
    ensures Summarizes(r, done + [e], audit.slots, names, actorNames)
  {
    var phases := AddPhases(s.phases, names, e, done);
    var actors := AddActors(s.actors, actorNames, e, done);
    var states, cellWaits := AddState(s.states, s.cellWaits, e, done);
    var bound, totals, holders := s.bound, s.totals, s.holders;
    SumOfNext(done, e, IsBound());
    if e.job == 0 {
      UnboundWaits(totals, holders, audit.slots, done, e);
    } else {
      bound := bound + 1;
      totals, holders := AddWaits(totals, holders, audit, e, done);
    }
    r := Summary(s.queries + 1, bound, phases, actors, states, cellWaits, totals, holders);
  }

  predicate AllBound(tail: seq<Entry>, slots: Slots) {
    forall i :: 0 <= i < |tail| ==> tail[i].job == 0 || tail[i].job in slots
  }

  method SummarizeTail(tail: seq<Entry>, audit: Audit, names: PhaseNames, actorNames: PhaseNames) returns (s: Summary)
    requires AllBound(tail, audit.slots)
    ensures Summarizes(s, tail, audit.slots, names, actorNames)
  {
    s := Summary(0, 0, map[], map[], map[], map[], map[], map[]);
    NothingSummarized(s, audit.slots, names, actorNames);
    ghost var done: seq<Entry> := [];
    for i := 0 to |tail|
      invariant SummarizesFirst(s, done, i, tail, audit.slots, names, actorNames)
    {
      s, done := AddNext(s, i, tail, audit, names, actorNames, done);
    }
    assert done == tail;
  }

  /** The summary is of the first so many entries of the tail. */
  ghost predicate SummarizesFirst(s: Summary, done: seq<Entry>, n: nat, tail: seq<Entry>, slots: Slots, names: seq<string>,
                                  actorNames: seq<string>) {
    n == |done| && done <= tail && Summarizes(s, done, slots, names, actorNames)
  }

  method AddNext(s: Summary, i: nat, tail: seq<Entry>, audit: Audit, names: PhaseNames, actorNames: PhaseNames,
                 ghost done: seq<Entry>) returns (r: Summary, ghost done': seq<Entry>)
    requires i < |tail| && AllBound(tail, audit.slots)
    requires SummarizesFirst(s, done, i, tail, audit.slots, names, actorNames)
    ensures SummarizesFirst(r, done', i + 1, tail, audit.slots, names, actorNames)
  {
    var e := tail[i];
    PrefixNext(done, tail);
    done' := done + [e];
    r := AddEntry(s, e, audit, names, actorNames, done);
  }

  lemma PrefixNext(done: seq<Entry>, tail: seq<Entry>)
    requires done <= tail && |done| < |tail|
    ensures done + [tail[|done|]] <= tail
  {
  }

  lemma {:induction false} NothingSummarized(s: Summary, slots: Slots, names: seq<string>, actorNames: seq<string>)
    requires s == Summary(0, 0, map[], map[], map[], map[], map[], map[])
    ensures Summarizes(s, [], slots, names, actorNames)
  {
  }

  lemma {:induction false} SumOfOrdered(tail: seq<Entry>, f: Entry -> int, g: Entry -> int)
    requires forall i :: 0 <= i < |tail| ==> f(tail[i]) <= g(tail[i])
    ensures SumOf(tail, f) <= SumOf(tail, g)
    decreases |tail|
  {
    if tail != [] {
      SumOfOrdered(tail[..|tail| - 1], f, g);
    }
  }

  lemma EntryOrdered(slots: Slots, workers: int, e: Entry)
    requires Trace(slots, workers)
    ensures 0 <= CoveredTime(slots, Native)(e) <= CoveredTime(slots, Any)(e) <= WaitTime(slots)(e)
  {
    if e.job in slots {
      assert WellFormed(slots[e.job], e.job, workers);
      LaneIsOrdered(slots, workers, slots[e.job].shard, |slots|);
      CoverBounds(LaneOf(slots, e.job), slots[e.job].requested, slots[e.job].acquired);
    }
  }

  ghost function Zero(): Entry -> int { (e: Entry) => 0 }

  lemma {:induction false} SumOfZero(tail: seq<Entry>)
    ensures SumOf(tail, Zero()) == 0
    decreases |tail|
  {
    if tail != [] {
      SumOfZero(tail[..|tail| - 1]);
    }
  }

  /** The order the source asserts of each wait holds of the totals over any tail. */
  lemma TotalsOrdered(s: Summary, tail: seq<Entry>, slots: Slots, workers: int, names: seq<string>, actorNames: seq<string>)
    requires Trace(slots, workers) && Summarizes(s, tail, slots, names, actorNames)
    ensures 0 <= Get(s.totals, "recorded_native_span_ns") <= Get(s.totals, "reserved_ns") <= Get(s.totals, "admission_ns")
    ensures 0 <= Get(s.totals, "no_recorded_holder_ns") && 0 <= Get(s.totals, "reserved_other_span_ns")
  {
    forall i | 0 <= i < |tail|
      ensures Zero()(tail[i]) <= CoveredTime(slots, Native)(tail[i]) <= CoveredTime(slots, Any)(tail[i])
              <= WaitTime(slots)(tail[i])
    {
      EntryOrdered(slots, workers, tail[i]);
    }
    SumOfOrdered(tail, Zero(), CoveredTime(slots, Native));
    SumOfOrdered(tail, CoveredTime(slots, Native), CoveredTime(slots, Any));
    SumOfOrdered(tail, CoveredTime(slots, Any), WaitTime(slots));
    SumOfZero(tail);
  }

  // ----- a tail of successful queries

  ghost function ResidueOf(): Entry -> int {
    (e: Entry) => Phases.Residue(e.total, e.values, e.actor)
  }

  lemma {:induction false} SumOfBetween(tail: seq<Entry>, f: Entry -> int, low: int, high: int)
    requires forall i :: 0 <= i < |tail| ==> low <= f(tail[i]) <= high
    ensures low * |tail| <= SumOf(tail, f) <= high * |tail|
    decreases |tail|
  {
    if tail != [] {
      SumOfBetween(tail[..|tail| - 1], f, low, high);
      assert low <= f(tail[|tail| - 1]) <= high;
      Distribute(low, |tail|);
      Distribute(high, |tail|);
    }
  }

  lemma Distribute(x: int, n: int)
    ensures x * n == x * (n - 1) + x
  {
  }

  lemma {:induction false} ResidueSplits(tail: seq<Entry>)
    ensures SumOf(tail, ResidueOf()) ==
            SumOf(tail, TotalTime())
            - (SumOf(tail, ActorTime(0)) + SumOf(tail, ActorTime(1)) + SumOf(tail, ActorTime(2)))
            - (SumOf(tail, PhaseTime(1)) + SumOf(tail, PhaseTime(2)) + SumOf(tail, PhaseTime(3)) + SumOf(tail, PhaseTime(4)))
    decreases |tail|
  {
    if tail != [] {
      ResidueSplits(tail[..|tail| - 1]);
    }
  }

  /** The entry a verified query contributes. */
  predicate EntryOf(e: Entry, row: Phases.Query) {
    e.total == row.total && e.values == row.phases && e.actor == row.actor
  }

  /**
   Over any tail of successful verified queries, the total minus the actor's three phases and the other four
   query phases stays within 6 microseconds a query.
   */
  lemma AggregateResidue(s: Summary, tail: seq<Entry>, rows: seq<Phases.Query>, slots: Slots,
                         names: seq<string>, actorNames: seq<string>)
    requires Summarizes(s, tail, slots, names, actorNames)
    requires |names| == Phases.QUERY_PHASES && |actorNames| == Phases.ACTOR_PHASES && |rows| == |tail|
    requires forall i :: 0 <= i < |tail| ==>
               && EntryOf(tail[i], rows[i]) && rows[i].succeeded == "true"
               && Phases.VerifyQuery(rows[i]).Ok? && Phases.VerifyActor(rows[i]).Ok?
    ensures 0 <= Get(s.phases, "total_us")
                 - (Get(s.actors, actorNames[0]) + Get(s.actors, actorNames[1]) + Get(s.actors, actorNames[2]))
                 - (Get(s.phases, names[1]) + Get(s.phases, names[2]) + Get(s.phases, names[3]) + Get(s.phases, names[4]))
            <= 6 * s.queries
  {
    forall i | 0 <= i < |tail|
      ensures 0 <= ResidueOf()(tail[i]) <= 6
    {
      Phases.SuccessfulResidue(rows[i]);
    }
    SumOfBetween(tail, ResidueOf(), 0, 6);
    ResidueSplits(tail);
  }
}
