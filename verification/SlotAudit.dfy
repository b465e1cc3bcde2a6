/**
 Splitting each wait for a SQL slot into the time recorded holders account for and the time they do not.
 */
module SlotAudit {
  import opened SlotTrace
  import opened Counters

  // ----- accepted traces

  predicate WellFormed(slot: Slot, id: int, workers: int) {
    && slot.id == id && 0 <= slot.shard < workers
    && 0 <= slot.requested <= slot.acquired <= slot.released
    && (slot.started.Some? ==> slot.acquired <= slot.started.value <= slot.released)
  }

  /** What reading a trace establishes about its slots. */
  predicate Trace(slots: Slots, workers: int) {
    Chained(slots) && forall id :: id in slots ==> WellFormed(slots[id], id, workers)
  }

  lemma {:induction false} AcceptedIsTrace(rows: seq<Row>, workers: int)
    requires Accepts(rows, workers)
    ensures Trace(SlotMap(rows, workers), workers)
  {
    var slots := SlotMap(rows, workers);
    forall id | id in slots
      ensures WellFormed(slots[id], id, workers)
    {
      var i :| 0 <= i < |rows| && rows[i].id == id;
      SlotMapAt(rows, workers, i);
    }
  }

  /** The recorded admission of every slot of an accepted trace is the whole microseconds of its wait. */
  lemma {:induction false} AdmissionIsTheWait(rows: seq<Row>, workers: int, id: int)
    requires Accepts(rows, workers) && id in SlotMap(rows, workers)
    ensures var slot := SlotMap(rows, workers)[id];
            slot.admissionUs * 1000 <= slot.acquired - slot.requested < slot.admissionUs * 1000 + 1000
  {
    var i :| 0 <= i < |rows| && rows[i].id == id;
    SlotMapAt(rows, workers, i);
    RowAccepted(rows[i], workers);
  }

  // ----- following predecessors

  /** The ids met by following recorded predecessors back to the start of the shard. */
  function Ancestors(slots: Slots, id: int): seq<int>
    requires Chained(slots) && 1 <= id <= |slots|
    decreases id
  {
    assert Linked(slots, id);
    var previous := slots[id].previous;
    if previous == 0 then [] else [previous] + Ancestors(slots, previous)
  }

  /** The shard's ids up to `id`, greatest first. */
  function LowerOn(slots: Slots, shard: int, id: nat): seq<int>
    requires Dense(slots) && id <= |slots|
  {
    if id == 0 then []
    else if slots[id].shard == shard then [id] + LowerOn(slots, shard, id - 1)
    else LowerOn(slots, shard, id - 1)
  }

  lemma {:induction false} LowerStartsAtLatest(slots: Slots, shard: int, id: nat)
    requires Dense(slots) && id <= |slots|
    ensures var latest := LatestOn(slots, shard, id);
            LowerOn(slots, shard, id) == if latest == 0 then [] else [latest] + LowerOn(slots, shard, latest - 1)
    decreases id
  {
    if id > 0 && slots[id].shard != shard {
      LowerStartsAtLatest(slots, shard, id - 1);
    }
  }

  /** Following predecessors visits exactly the lower ids of the shard, in descending order. */
  lemma {:induction false} AncestorsAreLowerIds(slots: Slots, id: int)
    requires Chained(slots) && 1 <= id <= |slots|
    ensures Ancestors(slots, id) == LowerOn(slots, slots[id].shard, id - 1)
    decreases id
  {
    assert Linked(slots, id);
    LowerStartsAtLatest(slots, slots[id].shard, id - 1);
    var previous := slots[id].previous;
    if previous != 0 {
      AncestorsAreLowerIds(slots, previous);
    }
  }

  // ----- lanes

  /** The shard's slots up to `id`, in the order they were reserved. */
  function Lane(slots: Slots, shard: int, id: nat): seq<Slot>
    requires Dense(slots) && id <= |slots|
  {
    if id == 0 then []
    else if slots[id].shard == shard then Lane(slots, shard, id - 1) + [slots[id]]
    else Lane(slots, shard, id - 1)
  }

  lemma {:induction false} LaneHolds(slots: Slots, shard: int, id: nat, h: Slot)
    requires Dense(slots) && id <= |slots|
    ensures h in Lane(slots, shard, id) <==> exists i :: 1 <= i <= id && slots[i] == h && h.shard == shard
    decreases id
  {
    if id > 0 {
      LaneHolds(slots, shard, id - 1, h);
    }
  }

  predicate Sane(slot: Slot) {
    && slot.acquired <= slot.released
    && (slot.started.Some? ==> slot.acquired <= slot.started.value <= slot.released)
  }

  /** Reservations follow one another: each releases before the next is acquired. */
  predicate Ordered(lane: seq<Slot>) {
    && (forall i :: 0 <= i < |lane| ==> Sane(lane[i]))
    && (forall i, j :: 0 <= i < j < |lane| ==> lane[i].released <= lane[j].acquired && lane[i].id < lane[j].id)
  }

  lemma OrderedAppend(lane: seq<Slot>, slot: Slot)
    requires Ordered(lane) && Sane(slot)
    requires lane != [] ==> lane[|lane| - 1].released <= slot.acquired && lane[|lane| - 1].id < slot.id
    ensures Ordered(lane + [slot])
  {
    var longer := lane + [slot];
    var last := |lane| - 1;
    forall i | 0 <= i < |lane|
      ensures lane[i].released <= slot.acquired && lane[i].id < slot.id
    {
      assert Sane(lane[last]);
    }
  }

  lemma {:induction false} LaneEndsAtLatest(slots: Slots, shard: int, id: nat)
    requires Dense(slots) && id <= |slots|
    ensures var lane, latest := Lane(slots, shard, id), LatestOn(slots, shard, id);
            if latest == 0 then lane == [] else lane != [] && lane[|lane| - 1] == slots[latest]
    decreases id
  {
    if id > 0 && slots[id].shard != shard {
      LaneEndsAtLatest(slots, shard, id - 1);
    }
  }

  /** The chain of predecessors orders the whole lane. */
  lemma {:induction false} LaneIsOrdered(slots: Slots, workers: int, shard: int, id: nat)
    requires Trace(slots, workers) && id <= |slots|
    ensures Ordered(Lane(slots, shard, id))
    decreases id
  {
    if id > 0 {
      LaneIsOrdered(slots, workers, shard, id - 1);
      if slots[id].shard == shard {
        assert Linked(slots, id);
        LaneEndsAtLatest(slots, shard, id - 1);
        assert WellFormed(slots[id], id, workers);
        var latest := LatestOn(slots, shard, id - 1);
        assert latest != 0 ==> WellFormed(slots[latest], latest, workers);
        OrderedAppend(Lane(slots, shard, id - 1), slots[id]);
      }
    }
  }

  type Timeline = (seq<Slot>, seq<int>)

  /** One lane and its release times, which the search below runs over. */
  predicate IsTimeline(t: Timeline) {
    Ordered(t.0) && |t.1| == |t.0| && forall i :: 0 <= i < |t.0| ==> t.1[i] == t.0[i].released
  }

  method SlotTimelines(slots: Slots, workers: int) returns (timelines: seq<Timeline>)
    requires Trace(slots, workers)
    ensures |timelines| == Max(0, workers)
    ensures forall shard :: 0 <= shard < |timelines| ==>
              IsTimeline(timelines[shard]) && timelines[shard].0 == Lane(slots, shard, |slots|)
  {
    var lanes: seq<seq<Slot>> := seq(Max(0, workers), _ => []);
    for id := 1 to |slots| + 1
      invariant |lanes| == Max(0, workers)
      invariant forall shard :: 0 <= shard < |lanes| ==> lanes[shard] == Lane(slots, shard, id - 1)
    {
      var slot := slots[id];
      assert WellFormed(slot, id, workers);
      lanes := lanes[slot.shard := lanes[slot.shard] + [slot]];
    }
    timelines := [];
    for shard := 0 to |lanes|
      invariant |timelines| == shard
      invariant forall i :: 0 <= i < shard ==> timelines[i].0 == lanes[i] && IsTimeline(timelines[i])
    {
      LaneIsOrdered(slots, workers, shard, |slots|);
      var lane := lanes[shard];
      timelines := timelines + [(lane, seq(|lane|, i requires 0 <= i < |lane| => lane[i].released))];
    }
  }

  // ----- covered time

  /** The nanoseconds of a half-open interval. */
  ghost function Interval(from: int, to: int): (s: set<int>)
    ensures forall t :: t in s <==> from <= t < to
    ensures |s| == if from < to then to - from else 0
    decreases if from < to then to - from else 0
  {
    if to <= from then {} else Interval(from, to - 1) + {to - 1}
  }

  /** Which part of a reservation counts: all of it, all of it for one kind of work, or its native run. */
  datatype Measure = Any | OfKind(kind: string) | Native

  function SpanStart(h: Slot, m: Measure): int {
    if m.Native? && h.started.Some? then h.started.value else h.acquired
  }

  function SpanEnd(h: Slot, m: Measure): int {
    if (m.OfKind? && h.kind != m.kind) || (m.Native? && h.started.None?) then h.acquired else h.released
  }

  ghost predicate CoveredAt(lane: seq<Slot>, m: Measure, t: int) {
    exists i :: 0 <= i < |lane| && SpanStart(lane[i], m) <= t < SpanEnd(lane[i], m)
  }

  /** The nanoseconds of a wait during which some recorded reservation held the shard. */
  ghost function Covered(lane: seq<Slot>, m: Measure, begin: int, end: int): set<int> {
    set t | t in Interval(begin, end) && CoveredAt(lane, m, t)
  }

  /** The part of one reservation that falls within the wait. */
  function Clip(h: Slot, m: Measure, begin: int, end: int): int {
    Max(0, Min(end, SpanEnd(h, m)) - Max(begin, SpanStart(h, m)))
  }

  lemma CoveredAtNext(lane: seq<Slot>, h: Slot, m: Measure, t: int)
    ensures CoveredAt(lane + [h], m, t) <==> CoveredAt(lane, m, t) || SpanStart(h, m) <= t < SpanEnd(h, m)
  {
    var longer := lane + [h];
    assert longer[|lane|] == h;
    if CoveredAt(lane, m, t) {
      var i :| 0 <= i < |lane| && SpanStart(lane[i], m) <= t < SpanEnd(lane[i], m);
      assert longer[i] == lane[i];
    }
  }

  /** Earlier reservations have ended by the time a later one begins to count. */
  lemma EndsBefore(lane: seq<Slot>, i: nat, j: nat, m: Measure)
    requires Ordered(lane) && i < j < |lane|
    ensures SpanEnd(lane[i], m) <= lane[j].acquired <= SpanStart(lane[j], m)
  {
    assert Sane(lane[i]) && Sane(lane[j]);
  }

  /** The instants of the wait that one reservation accounts for. */
  ghost function Span(h: Slot, m: Measure, begin: int, end: int): set<int> {
    Interval(Max(begin, SpanStart(h, m)), Min(end, SpanEnd(h, m)))
  }

  lemma CoverSplits(lane: seq<Slot>, h: Slot, m: Measure, begin: int, end: int)
    ensures Covered(lane + [h], m, begin, end) == Covered(lane, m, begin, end) + Span(h, m, begin, end)
  {
    forall t
      ensures t in Covered(lane + [h], m, begin, end) <==>
              t in Covered(lane, m, begin, end) + Span(h, m, begin, end)
    {
      CoveredAtNext(lane, h, m, t);
    }
  }

  lemma CoverApart(lane: seq<Slot>, k: nat, m: Measure, begin: int, end: int)
    requires Ordered(lane) && k < |lane|
    ensures Covered(lane[..k], m, begin, end) !! Span(lane[k], m, begin, end)
  {
    forall i | 0 <= i < k
      ensures SpanEnd(lane[i], m) <= SpanStart(lane[k], m)
    {
      EndsBefore(lane, i, k, m);
    }
    forall t | t in Covered(lane[..k], m, begin, end)
      ensures t !in Span(lane[k], m, begin, end)
    {
      var i :| 0 <= i < k && SpanStart(lane[i], m) <= t < SpanEnd(lane[i], m);
    }
  }

  /** A reservation that follows the others adds exactly its clipped span. */
  lemma CoverNext(lane: seq<Slot>, k: nat, m: Measure, begin: int, end: int)
    requires Ordered(lane) && k < |lane|
    ensures |Covered(lane[..k + 1], m, begin, end)|
         == |Covered(lane[..k], m, begin, end)| + Clip(lane[k], m, begin, end)
  {
    assert lane[..k + 1] == lane[..k] + [lane[k]];
    CoverSplits(lane[..k], lane[k], m, begin, end);
    CoverApart(lane, k, m, begin, end);
  }

  /** Reservations released before the wait began account for none of it. */
  lemma CoverNone(lane: seq<Slot>, m: Measure, begin: int, end: int)
    requires Ordered(lane) && forall i :: 0 <= i < |lane| ==> lane[i].released <= begin
    ensures |Covered(lane, m, begin, end)| == 0
  {
    forall i | 0 <= i < |lane|
      ensures SpanEnd(lane[i], m) <= begin
    {
      assert Sane(lane[i]);
    }
    assert Covered(lane, m, begin, end) == {};
  }

  /** Reservations acquired once the wait was over account for none of it either. */
  lemma CoverRest(lane: seq<Slot>, k: nat, m: Measure, begin: int, end: int)
    requires Ordered(lane) && k <= |lane| && (k < |lane| ==> end <= lane[k].acquired)
    ensures Covered(lane, m, begin, end) == Covered(lane[..k], m, begin, end)
  {
    forall i | k <= i < |lane|
      ensures end <= SpanStart(lane[i], m)
    {
      assert Sane(lane[i]) && Sane(lane[k]);
    }
    forall t | begin <= t < end
      ensures CoveredAt(lane, m, t) <==> CoveredAt(lane[..k], m, t)
    {
      if CoveredAt(lane, m, t) {
        var i :| 0 <= i < |lane| && SpanStart(lane[i], m) <= t < SpanEnd(lane[i], m);
        assert lane[..k][i] == lane[i];
      }
    }
  }

  /** Native time is reserved time, and reserved time is time waited. */
  lemma CoverBounds(lane: seq<Slot>, begin: int, end: int)
    requires Ordered(lane) && begin <= end
    ensures |Covered(lane, Native, begin, end)| <= |Covered(lane, Any, begin, end)| <= end - begin
  {
    forall t | t in Covered(lane, Native, begin, end)
      ensures t in Covered(lane, Any, begin, end)
    {
      var i :| 0 <= i < |lane| && SpanStart(lane[i], Native) <= t < SpanEnd(lane[i], Native);
      assert Sane(lane[i]) && SpanStart(lane[i], Any) <= t < SpanEnd(lane[i], Any);
    }
    Subset(Covered(lane, Native, begin, end), Covered(lane, Any, begin, end));
    Subset(Covered(lane, Any, begin, end), Interval(begin, end));
  }

  lemma {:induction false} Subset(a: set<int>, b: set<int>)
    requires a <= b
    ensures |a| <= |b|
  {
    assert b == a + (b - a);
  }

  // ----- the breakdown of one wait

  datatype Partition = Partition(
    admission: int, reserved: int, native: int, other: int, unheld: int, holders: Counter<string>)

  /** The first position whose value exceeds `x`. */
  method BisectRight(a: seq<int>, x: int) returns (k: nat)
    requires forall i, j :: 0 <= i < j < |a| ==> a[i] <= a[j]
    ensures k <= |a|
    ensures forall i :: 0 <= i < k ==> a[i] <= x
    ensures forall i :: k <= i < |a| ==> x < a[i]
  {
    var low, high := 0, |a|;
    while low < high
      invariant 0 <= low <= high <= |a|
      invariant forall i :: 0 <= i < low ==> a[i] <= x
      invariant forall i :: high <= i < |a| ==> x < a[i]
    {
      var middle := (low + high) / 2;
      if x < a[middle] {
        high := middle;
      } else {
        low := middle + 1;
      }
    }
    k := low;
  }

  /** What is held by one kind of work is the covered time of that kind. */
  ghost predicate KindOk(held: Counter<string>, lane: seq<Slot>, kind: string, begin: int, end: int) {
    Get(held, kind) == |Covered(lane, OfKind(kind), begin, end)|
  }

  /** The counters agree with covered time over the first `k` reservations. */
  ghost predicate Tally(lane: seq<Slot>, k: nat, held: Counter<string>, native: int, begin: int, end: int)
    requires k <= |lane|
  {
    && Sum(held) == |Covered(lane[..k], Any, begin, end)|
    && native == |Covered(lane[..k], Native, begin, end)|
    && forall kind: string :: KindOk(held, lane[..k], kind, begin, end)
  }

  /** Each part of the result measures a set of instants of the wait. */
  ghost predicate Measures(p: Partition, lane: seq<Slot>, begin: int, end: int) {
    && p.admission == end - begin
    && p.reserved == |Covered(lane, Any, begin, end)|
    && p.native == |Covered(lane, Native, begin, end)|
    && p.other == p.reserved - p.native
    && p.unheld == |Interval(begin, end) - Covered(lane, Any, begin, end)|
    && (forall kind: string :: KindOk(p.holders, lane, kind, begin, end))
    && Sum(p.holders) == p.reserved
  }

  lemma TallyStart(lane: seq<Slot>, k: nat, begin: int, end: int)
    requires Ordered(lane) && k <= |lane| && forall i :: 0 <= i < k ==> lane[i].released <= begin
    ensures Tally(lane, k, map[], 0, begin, end)
  {
    CoverNone(lane[..k], Any, begin, end);
    CoverNone(lane[..k], Native, begin, end);
    forall kind: string
      ensures KindOk(map[], lane[..k], kind, begin, end)
    {
      CoverNone(lane[..k], OfKind(kind), begin, end);
    }
  }

  /** The reservation adds its whole clipped span to its own kind and nothing to the others. */
  lemma TallyKind(lane: seq<Slot>, k: nat, held: Counter<string>, kind: string, begin: int, end: int)
    requires Ordered(lane) && k < |lane|
    requires KindOk(held, lane[..k], kind, begin, end)
    ensures KindOk(Add(held, lane[k].kind, Clip(lane[k], Any, begin, end)), lane[..k + 1], kind, begin, end)
  {
    CoverNext(lane, k, OfKind(kind), begin, end);
  }

  lemma TallyNext(lane: seq<Slot>, k: nat, held: Counter<string>, native: int, begin: int, end: int)
    requires Ordered(lane) && k < |lane| && Tally(lane, k, held, native, begin, end)
    ensures Tally(lane, k + 1, Add(held, lane[k].kind, Clip(lane[k], Any, begin, end)),
                  native + Clip(lane[k], Native, begin, end), begin, end)
  {
    CoverNext(lane, k, Any, begin, end);
    CoverNext(lane, k, Native, begin, end);
    SumAdd(held, lane[k].kind, Clip(lane[k], Any, begin, end));
    var next, longer := Add(held, lane[k].kind, Clip(lane[k], Any, begin, end)), lane[..k + 1];
    forall kind: string
      ensures KindOk(next, longer, kind, begin, end)
    {
      assert KindOk(held, lane[..k], kind, begin, end);
      TallyKind(lane, k, held, kind, begin, end);
    }
  }

  /** What the loop body adds for a holder that overlaps the wait is the clipped span of each measure. */
  lemma Overlap(h: Slot, begin: int, end: int)
    requires Sane(h) && begin <= end && begin < h.released && h.acquired < end
    ensures Min(end, h.released) - Max(begin, h.acquired) == Clip(h, Any, begin, end)
    ensures (if h.started.Some? then Max(0, Min(end, h.released) - Max(Max(begin, h.acquired), h.started.value)) else 0)
         == Clip(h, Native, begin, end)
  {
  }

  lemma TallyEnd(lane: seq<Slot>, k: nat, held: Counter<string>, native: int, begin: int, end: int)
    requires Ordered(lane) && k <= |lane| && (k < |lane| ==> end <= lane[k].acquired)
    requires Tally(lane, k, held, native, begin, end)
    ensures Tally(lane, |lane|, held, native, begin, end)
  {
    assert lane[..|lane|] == lane;
    CoverRest(lane, k, Any, begin, end);
    CoverRest(lane, k, Native, begin, end);
    forall kind: string
      ensures KindOk(held, lane[..|lane|], kind, begin, end)
    {
      assert KindOk(held, lane[..k], kind, begin, end);
      CoverRest(lane, k, OfKind(kind), begin, end);
    }
  }

  /** A full tally is the measured partition, and its parts are ordered as the code asserts. */
  lemma {:induction false} TallyMeasures(lane: seq<Slot>, held: Counter<string>, native: int, begin: int, end: int)
    requires Ordered(lane) && begin <= end && Tally(lane, |lane|, held, native, begin, end)
    ensures 0 <= native <= Sum(held) <= end - begin
    ensures Measures(Partition(end - begin, Sum(held), native, Sum(held) - native, end - begin - Sum(held), held),
                     lane, begin, end)
  {
    assert lane[..|lane|] == lane;
    CoverBounds(lane, begin, end);
    Uncovered(lane, begin, end);
  }

  /** Covered and uncovered instants make up the wait. */
  lemma {:induction false} Uncovered(lane: seq<Slot>, begin: int, end: int)
    requires begin <= end
    ensures |Interval(begin, end) - Covered(lane, Any, begin, end)| == end - begin - |Covered(lane, Any, begin, end)|
  {
    var covered := Covered(lane, Any, begin, end);
    assert Interval(begin, end) == covered + (Interval(begin, end) - covered);
  }

  lemma ReleasesAscend(t: Timeline, i: nat, j: nat)
    requires IsTimeline(t) && i < j < |t.1|
    ensures t.1[i] <= t.1[j]
  {
    assert Sane(t.0[j]);
  }

  /** The clipped spans of a run of holders, by kind and natively. */
  function Charged(lane: seq<Slot>, start: nat, k: nat, begin: int, end: int): (Counter<string>, int)
    requires start <= k <= |lane|
  {
    if k == start then (map[], 0)
    else
      var (held, native) := Charged(lane, start, k - 1, begin, end);
      var h := lane[k - 1];
      (Add(held, h.kind, Clip(h, Any, begin, end)), native + Clip(h, Native, begin, end))
  }

  /** The clipped spans tally the reservations charged so far. */
  ghost predicate ChargedOk(lane: seq<Slot>, start: nat, k: nat, begin: int, end: int)
    requires start <= k <= |lane|
  {
    var charged := Charged(lane, start, k, begin, end);
    Tally(lane, k, charged.0, charged.1, begin, end)
  }

  lemma ChargedNext(lane: seq<Slot>, start: nat, k: nat, begin: int, end: int)
    requires Ordered(lane) && start < k <= |lane| && ChargedOk(lane, start, k - 1, begin, end)
    ensures ChargedOk(lane, start, k, begin, end)
  {
    var before := Charged(lane, start, k - 1, begin, end);
    TallyNext(lane, k - 1, before.0, before.1, begin, end);
  }

  lemma ChargedStart(lane: seq<Slot>, start: nat, begin: int, end: int)
    requires Ordered(lane) && start <= |lane| && forall i :: 0 <= i < start ==> lane[i].released <= begin
    ensures ChargedOk(lane, start, start, begin, end)
  {
    TallyStart(lane, start, begin, end);
  }

  lemma {:induction false} ChargedTallies(lane: seq<Slot>, start: nat, k: nat, begin: int, end: int)
    requires Ordered(lane) && start <= k <= |lane| && ChargedOk(lane, start, start, begin, end)
    ensures ChargedOk(lane, start, k, begin, end)
    decreases k
  {
    if start < k {
      ChargedTallies(lane, start, k - 1, begin, end);
      ChargedNext(lane, start, k, begin, end);
    }
  }

  /** What the loop body adds is what the next reservation is charged. */
  lemma ChargeStep(lane: seq<Slot>, start: nat, k: nat, begin: int, end: int)
    requires Ordered(lane) && start <= k < |lane| && begin <= end && begin < lane[k].released && lane[k].acquired < end
    ensures var h, before, after := lane[k], Charged(lane, start, k, begin, end), Charged(lane, start, k + 1, begin, end);
            var left, right := Max(begin, h.acquired), Min(end, h.released);
            && after.0 == Add(before.0, h.kind, right - left)
            && after.1 == before.1 + if h.started.Some? then Max(0, right - Max(left, h.started.value)) else 0
  {
    Overlap(lane[k], begin, end);
  }

  /** Everything before the start had been released, and everything from the stop on came too late. */
  lemma {:induction false} ChargeEnd(lane: seq<Slot>, start: nat, k: nat, begin: int, end: int)
    requires Ordered(lane) && start <= k <= |lane| && (k < |lane| ==> end <= lane[k].acquired)
    requires forall i :: 0 <= i < start ==> lane[i].released <= begin
    ensures var charged := Charged(lane, start, k, begin, end);
            Tally(lane, |lane|, charged.0, charged.1, begin, end)
  {
    ChargedStart(lane, start, begin, end);
    ChargedTallies(lane, start, k, begin, end);
    var charged := Charged(lane, start, k, begin, end);
    TallyEnd(lane, k, charged.0, charged.1, begin, end);
  }

  /** The search and the early stop lose nothing: the counters tally the whole lane. */
  method Charge(timeline: Timeline, begin: int, end: int) returns (held: Counter<string>, native: int)
    requires IsTimeline(timeline) && begin <= end
    ensures Tally(timeline.0, |timeline.0|, held, native, begin, end)
  {
    var (lane, releases) := timeline;
    forall i, j | 0 <= i < j < |releases| {
      ReleasesAscend(timeline, i, j);
    }
    held, native := map[], 0;
    var index := BisectRight(releases, begin);
    ghost var start := index;
    while index < |lane|
      invariant start <= index <= |lane|
      invariant held == Charged(lane, start, index, begin, end).0
      invariant native == Charged(lane, start, index, begin, end).1
    {
      var holder := lane[index];
      if holder.acquired >= end {
        break;
      }
      ChargeStep(lane, start, index, begin, end);
      var left, right := Max(begin, holder.acquired), Min(end, holder.released);
      held := Add(held, holder.kind, right - left);
      if holder.started.Some? {
        native := native + Max(0, right - Max(left, holder.started.value));
      }
      index := index + 1;
    }
    ChargeEnd(lane, start, index, begin, end);
  }

  method AdmissionBreakdown(slot: Slot, timelines: seq<Timeline>) returns (p: Partition)
    requires 0 <= slot.shard < |timelines| && IsTimeline(timelines[slot.shard])
    requires slot.requested <= slot.acquired
    ensures Measures(p, timelines[slot.shard].0, slot.requested, slot.acquired)
  {
    var begin, end := slot.requested, slot.acquired;
    var held, native := Charge(timelines[slot.shard], begin, end);
    TallyMeasures(timelines[slot.shard].0, held, native, begin, end);
    var reserved := Total(held);
    assert 0 <= native <= reserved <= end - begin;
    p := Partition(end - begin, reserved, native, reserved - native, end - begin - reserved, held);
  }

  // ----- what the parts mean on an accepted trace

  /** The whole lane of a slot's shard. */
  function LaneOf(slots: Slots, id: int): seq<Slot>
    requires Dense(slots) && 1 <= id <= |slots|
  {
    Lane(slots, slots[id].shard, |slots|)
  }

  /** The partition of the wait of one slot. */
  ghost predicate Explains(p: Partition, slots: Slots, id: int)
    requires Dense(slots) && 1 <= id <= |slots|
  {
    Measures(p, LaneOf(slots, id), slots[id].requested, slots[id].acquired)
  }

  /** An earlier slot of the same shard held the worker at this instant. */
  ghost predicate HeldEarlier(slots: Slots, id: int, t: int)
    requires Dense(slots) && 1 <= id <= |slots|
  {
    exists i :: 1 <= i < id && slots[i].shard == slots[id].shard && slots[i].acquired <= t < slots[i].released
  }

  ghost function HeldInstants(slots: Slots, id: int): set<int>
    requires Dense(slots) && 1 <= id <= |slots|
  {
    set t | t in Interval(slots[id].requested, slots[id].acquired) && HeldEarlier(slots, id, t)
  }

  /** Slots of one shard are ordered by id: the lower one releases before the higher one is acquired. */
  lemma OneShardIsOrdered(slots: Slots, workers: int, i: int, j: int)
    requires Trace(slots, workers) && 1 <= i < j <= |slots| && slots[i].shard == slots[j].shard
    ensures slots[i].released <= slots[j].acquired
  {
    var lane := Lane(slots, slots[j].shard, |slots|);
    LaneIsOrdered(slots, workers, slots[j].shard, |slots|);
    LaneHolds(slots, slots[j].shard, |slots|, slots[i]);
    LaneHolds(slots, slots[j].shard, |slots|, slots[j]);
    assert WellFormed(slots[i], i, workers) && WellFormed(slots[j], j, workers);
    var a :| 0 <= a < |lane| && lane[a] == slots[i];
    var b :| 0 <= b < |lane| && lane[b] == slots[j];
  }

  /** At an instant of the wait, some slot of the shard held the worker exactly if an earlier one did. */
  lemma HoldersAreEarlier(slots: Slots, workers: int, id: int, t: int)
    requires Trace(slots, workers) && 1 <= id <= |slots| && t < slots[id].acquired
    ensures CoveredAt(LaneOf(slots, id), Any, t) <==> HeldEarlier(slots, id, t)
  {
    var lane, shard := LaneOf(slots, id), slots[id].shard;
    assert WellFormed(slots[id], id, workers);
    if CoveredAt(lane, Any, t) {
      var a :| 0 <= a < |lane| && SpanStart(lane[a], Any) <= t < SpanEnd(lane[a], Any);
      LaneHolds(slots, shard, |slots|, lane[a]);
      var i :| 1 <= i <= |slots| && slots[i] == lane[a] && lane[a].shard == shard;
      if i > id {
        OneShardIsOrdered(slots, workers, id, i);
      }
    }
    if HeldEarlier(slots, id, t) {
      var i :| 1 <= i < id && slots[i].shard == shard && slots[i].acquired <= t < slots[i].released;
      LaneHolds(slots, shard, |slots|, slots[i]);
      var a :| 0 <= a < |lane| && lane[a] == slots[i];
      assert SpanStart(lane[a], Any) <= t < SpanEnd(lane[a], Any);
    }
  }

  /** Reserved time is the instants earlier slots of the shard held; no slot is charged with itself or a later one. */
  lemma ReservedIsHeldTime(slots: Slots, workers: int, id: int, p: Partition)
    requires Trace(slots, workers) && 1 <= id <= |slots| && Explains(p, slots, id)
    ensures p.reserved == |HeldInstants(slots, id)|
    ensures p.unheld == slots[id].acquired - slots[id].requested - |HeldInstants(slots, id)|
  {
    var begin, end := slots[id].requested, slots[id].acquired;
    var covered := Covered(LaneOf(slots, id), Any, begin, end);
    forall t | t in Interval(begin, end)
      ensures t in covered <==> t in HeldInstants(slots, id)
    {
      HoldersAreEarlier(slots, workers, id, t);
    }
    assert covered == HeldInstants(slots, id);
    assert WellFormed(slots[id], id, workers);
    assert Interval(begin, end) == covered + (Interval(begin, end) - covered);
  }

  /** Nothing held the shard from the predecessor's release on. */
  lemma HeldUpToPredecessor(slots: Slots, workers: int, id: int, t: int)
    requires Trace(slots, workers) && 1 <= id <= |slots| && HeldEarlier(slots, id, t)
    ensures slots[id].previous != 0
    ensures slots[id].previous in slots && t < slots[slots[id].previous].released
  {
    var shard := slots[id].shard;
    assert Linked(slots, id);
    var i :| 1 <= i < id && slots[i].shard == shard && slots[i].acquired <= t < slots[i].released;
    LatestIsGreatest(slots, shard, id - 1, i);
    var previous := slots[id].previous;
    assert WellFormed(slots[previous], previous, workers);
    if i < previous {
      OneShardIsOrdered(slots, workers, i, previous);
    }
  }

  lemma {:induction false} LatestIsGreatest(slots: Slots, shard: int, id: nat, i: int)
    requires Dense(slots) && 1 <= i <= id <= |slots| && slots[i].shard == shard
    ensures i <= LatestOn(slots, shard, id)
    decreases id
  {
    if slots[id].shard != shard {
      LatestIsGreatest(slots, shard, id - 1, i);
    }
  }

  /** The recorded wait after the last release is a lower bound on the unheld time. */
  lemma UnheldCoversAfterRelease(slots: Slots, workers: int, id: int, p: Partition)
    requires Trace(slots, workers) && 1 <= id <= |slots| && Explains(p, slots, id) && slots[id].previous != 0
    ensures slots[id].afterUs.Some? && slots[id].afterUs.value <= p.unheld / 1000
    ensures slots[id].previous in slots
    ensures slots[slots[id].previous].released <= slots[id].requested ==> p.reserved == 0
  {
    assert Linked(slots, id);
    assert WellFormed(slots[id], id, workers);
    var slot, previous := slots[id], slots[slots[id].previous];
    ReservedIsHeldTime(slots, workers, id, p);
    var bound := Interval(slot.requested, Min(previous.released, slot.acquired));
    forall t | t in HeldInstants(slots, id)
      ensures t in bound
    {
      HeldUpToPredecessor(slots, workers, id, t);
    }
    Subset(HeldInstants(slots, id), bound);
    assert slot.acquired - Max(previous.released, slot.requested) <= p.unheld;
  }

  /** A slot with no predecessor waited on no recorded holder at all. */
  lemma FirstOnShardIsUnheld(slots: Slots, workers: int, id: int, p: Partition)
    requires Trace(slots, workers) && 1 <= id <= |slots| && Explains(p, slots, id) && slots[id].previous == 0
    ensures p.reserved == 0 && p.unheld == p.admission
  {
    ReservedIsHeldTime(slots, workers, id, p);
    forall t
      ensures !HeldEarlier(slots, id, t)
    {
      if HeldEarlier(slots, id, t) {
        HeldUpToPredecessor(slots, workers, id, t);
      }
    }
    assert HeldInstants(slots, id) == {};
  }
}
