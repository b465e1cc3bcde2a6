/**
 The offered schedule of one load point: writes and reads are each due at a fixed rate, and every offer is made.
 */
module Offers {

  const SECOND: int := 1_000_000_000

  /** Offers a second of each kind, and how long the warm-up and the measurement last. */
  datatype Schedule = Schedule(writeRate: nat, readRate: nat, warmup: nat, seconds: nat)

  datatype Job = Write(index: nat) | Read(index: nat)

  /** What the queue made of an offer. */
  datatype Answer = Sent | Full | Closed

  function WarmEnd(s: Schedule): int { s.warmup * SECOND }

  function End(s: Schedule): int { (s.warmup + s.seconds) * SECOND }

  function Rate(s: Schedule, writes: bool): nat {
    if writes then s.writeRate else s.readRate
  }

  function Planned(s: Schedule, writes: bool): nat {
    Rate(s, writes) * (s.warmup + s.seconds)
  }

  /** When an offer is due, in nanoseconds from the start; a rate of zero offers nothing before the end. */
  function Due(index: nat, rate: nat, end: int): int {
    if rate == 0 then end else index * SECOND / rate
  }

  function DueAt(job: Job, s: Schedule): int {
    Due(job.index, Rate(s, job.Write?), End(s))
  }

  predicate Measured(job: Job, s: Schedule) {
    DueAt(job, s) >= WarmEnd(s)
  }

  function Indexes(jobs: seq<Job>, writes: bool): seq<nat> {
    if jobs == [] then []
    else
      var before, last := Indexes(jobs[..|jobs| - 1], writes), jobs[|jobs| - 1];
      if last.Write? == writes then before + [last.index] else before
  }

  function Range(n: nat): (r: seq<nat>)
    ensures |r| == n && forall i :: 0 <= i < n ==> r[i] == i
  {
    seq(n, i => i)
  }

  // ----- when offers are due

  /** An offer is due before some second exactly if its index is below the rate times the seconds. */
  lemma InsideWindow(index: nat, rate: nat, seconds: nat, end: int)
    requires rate == 0 ==> end >= seconds * SECOND
    ensures Due(index, rate, end) < seconds * SECOND <==> index < rate * seconds
  {
    if rate > 0 {
      var x, q := index * SECOND, index * SECOND / rate;
      assert x == rate * q + x % rate && 0 <= x % rate < rate;
      Below(x, rate, q, seconds * SECOND);
      Scaled(index, rate, seconds);
    }
  }

  lemma Below(x: int, rate: int, q: int, end: int)
    requires rate > 0 && rate * q <= x < rate * q + rate
    ensures q < end <==> x < rate * end
  {
    if q < end {
      Monotone(rate, q + 1, end);
    } else {
      Monotone(rate, end, q);
    }
  }

  lemma Monotone(c: int, a: int, b: int)
    requires c > 0 && a <= b
    ensures c * a <= c * b && c * (a + 1) == c * a + c && c * (a - 1) == c * a - c
  {
  }

  lemma Scaled(index: nat, rate: nat, seconds: nat)
    ensures index * SECOND < rate * (seconds * SECOND) <==> index < rate * seconds
  {
    assert rate * (seconds * SECOND) == (rate * seconds) * SECOND;
  }

  lemma {:induction false} DueAscends(i: nat, j: nat, rate: nat, end: int)
    requires i <= j
    ensures Due(i, rate, end) <= Due(j, rate, end)
  {
    if rate > 0 {
      assert i * SECOND <= j * SECOND;
      Ordered(i * SECOND, j * SECOND, rate);
    }
  }

  lemma Ordered(x: int, y: int, d: int)
    requires x <= y && d > 0
    ensures x / d <= y / d
  {
    var e := x / d - y / d;
    assert d * (x / d) <= x && y < d * (y / d) + d;
    assert e >= 1 ==> d * e >= d;
    assert d * e == d * (x / d) - d * (y / d);
  }

  lemma {:induction false} IndexesNext(jobs: seq<Job>, job: Job, writes: bool)
    ensures Indexes(jobs + [job], writes) ==
            if job.Write? == writes then Indexes(jobs, writes) + [job.index] else Indexes(jobs, writes)
  {
    assert (jobs + [job])[..|jobs|] == jobs;
  }

  // ----- the counters

  datatype Pair = Pair(write: nat, read: nat)

  function Of(p: Pair, writes: bool): nat {
    if writes then p.write else p.read
  }

  function Bump(p: Pair, writes: bool): Pair {
    if writes then p.(write := p.write + 1) else p.(read := p.read + 1)
  }

  datatype Arrivals = Arrivals(offered: Pair, dropped: Pair, warmupDropped: Pair)

  /** How many of the offers satisfy a condition on their position and themselves. */
  ghost function Tally(jobs: seq<Job>, f: (nat, Job) -> bool): nat {
    if jobs == [] then 0 else Tally(jobs[..|jobs| - 1], f) + if f(|jobs| - 1, jobs[|jobs| - 1]) then 1 else 0
  }

  lemma {:induction false} TallyNext(jobs: seq<Job>, job: Job, f: (nat, Job) -> bool)
    ensures Tally(jobs + [job], f) == Tally(jobs, f) + if f(|jobs|, job) then 1 else 0
  {
    assert (jobs + [job])[..|jobs|] == jobs;
  }

  ghost function Offers(s: Schedule, writes: bool): (nat, Job) -> bool {
    (i: nat, job: Job) => job.Write? == writes && Measured(job, s)
  }

  ghost function Answered(s: Schedule, writes: bool, measured: bool, sends: nat -> Answer, a: Answer): (nat, Job) -> bool {
    (i: nat, job: Job) => job.Write? == writes && Measured(job, s) == measured && sends(i) == a
  }

  /** Measured offers, and full queues met while measuring and while warming up. */
  ghost predicate CountsKind(c: Arrivals, jobs: seq<Job>, s: Schedule, sends: nat -> Answer, writes: bool) {
    && Of(c.offered, writes) == Tally(jobs, Offers(s, writes))
    && Of(c.dropped, writes) == Tally(jobs, Answered(s, writes, true, sends, Full))
    && Of(c.warmupDropped, writes) == Tally(jobs, Answered(s, writes, false, sends, Full))
  }

  function CountOffer(c: Arrivals, job: Job, s: Schedule, answer: Answer): Arrivals {
    var measured := Measured(job, s);
    var offered := if measured then Bump(c.offered, job.Write?) else c.offered;
    if answer != Full then c.(offered := offered)
    else if measured then c.(offered := offered, dropped := Bump(c.dropped, job.Write?))
    else c.(offered := offered, warmupDropped := Bump(c.warmupDropped, job.Write?))
  }

  lemma CountsNext(c: Arrivals, jobs: seq<Job>, job: Job, s: Schedule, sends: nat -> Answer, writes: bool)
    requires CountsKind(c, jobs, s, sends, writes)
    ensures CountsKind(CountOffer(c, job, s, sends(|jobs|)), jobs + [job], s, sends, writes)
  {
    TallyNext(jobs, job, Offers(s, writes));
    TallyNext(jobs, job, Answered(s, writes, true, sends, Full));
    TallyNext(jobs, job, Answered(s, writes, false, sends, Full));
  }

  // ----- making the offers

  predicate InOrder(jobs: seq<Job>, s: Schedule) {
    forall i, j :: 0 <= i < j < |jobs| ==> DueAt(jobs[i], s) <= DueAt(jobs[j], s)
  }

  /** Nothing offered so far is due after either of the next offers. */
  predicate DueBy(jobs: seq<Job>, s: Schedule, write: int, read: int) {
    forall i :: 0 <= i < |jobs| ==> DueAt(jobs[i], s) <= write && DueAt(jobs[i], s) <= read
  }

  predicate OpenUntil(sends: nat -> Answer, n: nat) {
    forall i: nat :: i < n ==> sends(i) != Closed
  }

  /** When the next offer of a kind is due. */
  function NextDue(s: Schedule, index: nat, writes: bool): int {
    Due(index, Rate(s, writes), End(s))
  }

  /** The next offer: the one due first, a write on a tie. */
  function NextJob(s: Schedule, w: nat, r: nat): (job: Job)
    ensures job == Write(w) || job == Read(r)
    ensures DueAt(job, s) <= NextDue(s, w, true) && DueAt(job, s) <= NextDue(s, r, false)
  {
    if NextDue(s, r, false) < NextDue(s, w, true) then Read(r) else Write(w)
  }

  ghost predicate Numbered(jobs: seq<Job>, w: nat, r: nat) {
    Indexes(jobs, true) == Range(w) && Indexes(jobs, false) == Range(r)
  }

  ghost predicate Scheduled(jobs: seq<Job>, w: nat, r: nat, s: Schedule) {
    InOrder(jobs, s) && DueBy(jobs, s, NextDue(s, w, true), NextDue(s, r, false))
  }

  ghost predicate Offering(jobs: seq<Job>, w: nat, r: nat, s: Schedule) {
    w <= Planned(s, true) && r <= Planned(s, false) && Numbered(jobs, w, r) && Scheduled(jobs, w, r, s)
  }

  function Counted(n: nat, counts: bool): nat {
    if counts then n + 1 else n
  }

  lemma {:induction false} NumberedNext(jobs: seq<Job>, w: nat, r: nat, job: Job)
    requires Numbered(jobs, w, r) && (job == Write(w) || job == Read(r))
    ensures Numbered(jobs + [job], Counted(w, job.Write?), Counted(r, job.Read?))
  {
    IndexesNext(jobs, job, true);
    IndexesNext(jobs, job, false);
  }

  lemma ScheduledNext(jobs: seq<Job>, w: nat, r: nat, s: Schedule)
    requires Scheduled(jobs, w, r, s)
    ensures var job := NextJob(s, w, r); Scheduled(jobs + [job], Counted(w, job.Write?), Counted(r, job.Read?), s)
  {
    var job := NextJob(s, w, r);
    var w', r' := Counted(w, job.Write?), Counted(r, job.Read?);
    DueAscends(w, w', s.writeRate, End(s));
    DueAscends(r, r', s.readRate, End(s));
    OrderNext(jobs, job, s, NextDue(s, w, true), NextDue(s, r, false), NextDue(s, w', true), NextDue(s, r', false));
  }

  lemma OrderNext(jobs: seq<Job>, job: Job, s: Schedule, write: int, read: int, write': int, read': int)
    requires InOrder(jobs, s) && DueBy(jobs, s, write, read)
    requires DueAt(job, s) == write || DueAt(job, s) == read
    requires DueAt(job, s) <= write <= write' && DueAt(job, s) <= read <= read'
    ensures InOrder(jobs + [job], s) && DueBy(jobs + [job], s, write', read')
  {
    var longer := jobs + [job];
    assert forall i :: 0 <= i < |jobs| ==> longer[i] == jobs[i];
    assert longer[|jobs|] == job;
  }

  lemma WithinPlan(index: nat, s: Schedule, writes: bool)
    ensures NextDue(s, index, writes) < End(s) <==> index < Planned(s, writes)
  {
    InsideWindow(index, Rate(s, writes), s.warmup + s.seconds, End(s));
  }

  lemma OfferingNext(jobs: seq<Job>, w: nat, r: nat, s: Schedule)
    requires Offering(jobs, w, r, s) && DueAt(NextJob(s, w, r), s) < End(s)
    ensures var job := NextJob(s, w, r); Offering(jobs + [job], Counted(w, job.Write?), Counted(r, job.Read?), s)
  {
    WithinPlan(w, s, true);
    WithinPlan(r, s, false);
    NumberedNext(jobs, w, r, NextJob(s, w, r));
    ScheduledNext(jobs, w, r, s);
  }

  lemma AllOffered(jobs: seq<Job>, w: nat, r: nat, s: Schedule)
    requires Offering(jobs, w, r, s) && DueAt(NextJob(s, w, r), s) >= End(s)
    ensures w == Planned(s, true) && r == Planned(s, false)
  {
    WithinPlan(w, s, true);
    WithinPlan(r, s, false);
  }

  /** The offers made, in order: all of both schedules unless the queue closed, and then up to the one that met it. */
  ghost predicate Produced(jobs: seq<Job>, s: Schedule, closed: bool) {
    && InOrder(jobs, s)
    && forall writes: bool ::
      if closed then Indexes(jobs, writes) <= Range(Planned(s, writes))
      else Indexes(jobs, writes) == Range(Planned(s, writes))
  }

  lemma OfferingProduced(jobs: seq<Job>, w: nat, r: nat, s: Schedule, closed: bool)
    requires Offering(jobs, w, r, s) && (closed || (w == Planned(s, true) && r == Planned(s, false)))
    ensures Produced(jobs, s, closed)
  {
  }

  method Produce(s: Schedule, sends: nat -> Answer) returns (jobs: seq<Job>, c: Arrivals, closed: bool)
    ensures Produced(jobs, s, closed)
    ensures CountsKind(c, jobs, s, sends, true) && CountsKind(c, jobs, s, sends, false)
    ensures closed ==> jobs != [] && sends(|jobs| - 1) == Closed && OpenUntil(sends, |jobs| - 1)
    ensures !closed ==> OpenUntil(sends, |jobs|)
  {
    var w: nat, r: nat := 0, 0;
    jobs, c, closed := [], Arrivals(Pair(0, 0), Pair(0, 0), Pair(0, 0)), false;
    while DueAt(NextJob(s, w, r), s) < End(s)
      invariant Offering(jobs, w, r, s) && |jobs| == w + r
      invariant CountsKind(c, jobs, s, sends, true) && CountsKind(c, jobs, s, sends, false)
      invariant OpenUntil(sends, |jobs|)
      decreases Planned(s, true) + Planned(s, false) - w - r
    {
      var job, answer := NextJob(s, w, r), sends(|jobs|);
      OfferingNext(jobs, w, r, s);
      CountsNext(c, jobs, job, s, sends, true);
      CountsNext(c, jobs, job, s, sends, false);
      c, jobs := CountOffer(c, job, s, answer), jobs + [job];
      w, r := Counted(w, job.Write?), Counted(r, job.Read?);
      if answer == Closed {
        OfferingProduced(jobs, w, r, s, true);
        closed := true;
        return;
      }
    }
    AllOffered(jobs, w, r, s);
    OfferingProduced(jobs, w, r, s, false);
  }

  // ----- what the counters show

  lemma AnswersSplit(i: nat, job: Job, s: Schedule, sends: nat -> Answer, writes: bool)
    ensures Offers(s, writes)(i, job) <==>
            Answered(s, writes, true, sends, Sent)(i, job) || Answered(s, writes, true, sends, Full)(i, job)
            || Answered(s, writes, true, sends, Closed)(i, job)
    ensures !(Answered(s, writes, true, sends, Sent)(i, job) && Answered(s, writes, true, sends, Full)(i, job))
    ensures !(Answered(s, writes, true, sends, Sent)(i, job) && Answered(s, writes, true, sends, Closed)(i, job))
    ensures !(Answered(s, writes, true, sends, Full)(i, job) && Answered(s, writes, true, sends, Closed)(i, job))
  {
    var answer := sends(i);
    assert answer.Sent? || answer.Full? || answer.Closed?;
  }

  /** Every measured offer was taken, met a full queue, or met the closed one. */
  lemma {:induction false} OffersConserved(jobs: seq<Job>, s: Schedule, sends: nat -> Answer, writes: bool)
    ensures Tally(jobs, Offers(s, writes)) ==
            Tally(jobs, Answered(s, writes, true, sends, Sent)) + Tally(jobs, Answered(s, writes, true, sends, Full))
            + Tally(jobs, Answered(s, writes, true, sends, Closed))
    decreases |jobs|
  {
    if jobs != [] {
      var n := |jobs| - 1;
      OffersConserved(jobs[..n], s, sends, writes);
      AnswersSplit(n, jobs[n], s, sends, writes);
    }
  }

  ghost function From(writes: bool, first: nat): (nat, Job) -> bool {
    (i: nat, job: Job) => job.Write? == writes && job.index >= first
  }

  lemma {:induction false} CountFrom(jobs: seq<Job>, writes: bool, first: nat, n: nat)
    requires Indexes(jobs, writes) == Range(n)
    ensures Tally(jobs, From(writes, first)) == if first <= n then n - first else 0
    decreases |jobs|
  {
    if jobs != [] {
      var before, last := jobs[..|jobs| - 1], jobs[|jobs| - 1];
      if last.Write? == writes {
        assert Indexes(jobs, writes)[n - 1] == last.index == n - 1;
        assert Indexes(before, writes) == Indexes(jobs, writes)[..n - 1];
        assert Range(n)[..n - 1] == Range(n - 1);
        CountFrom(before, writes, first, n - 1);
        assert From(writes, first)(|jobs| - 1, last) <==> n - 1 >= first;
      } else {
        CountFrom(before, writes, first, n);
      }
    }
  }

  lemma {:induction false} SameTally(jobs: seq<Job>, f: (nat, Job) -> bool, g: (nat, Job) -> bool)
    requires forall i: nat :: i < |jobs| ==> f(i, jobs[i]) == g(i, jobs[i])
    ensures Tally(jobs, f) == Tally(jobs, g)
    decreases |jobs|
  {
    if jobs != [] {
      SameTally(jobs[..|jobs| - 1], f, g);
    }
  }

  lemma MeasuredFrom(job: Job, s: Schedule)
    ensures Measured(job, s) <==> job.index >= Rate(s, job.Write?) * s.warmup
  {
    InsideWindow(job.index, Rate(s, job.Write?), s.warmup, End(s));
  }

  lemma {:induction false} OffersFrom(jobs: seq<Job>, s: Schedule, writes: bool, first: nat)
    requires first == Rate(s, writes) * s.warmup
    ensures Tally(jobs, Offers(s, writes)) == Tally(jobs, From(writes, first))
  {
    forall i: nat | i < |jobs|
      ensures Offers(s, writes)(i, jobs[i]) == From(writes, first)(i, jobs[i])
    {
      MeasuredFrom(jobs[i], s);
    }
    SameTally(jobs, Offers(s, writes), From(writes, first));
  }

  /** With the queue open throughout, a measurement generates exactly its rate times its seconds: none go unissued. */
  lemma NoneUnissued(jobs: seq<Job>, c: Arrivals, s: Schedule, sends: nat -> Answer, writes: bool)
    requires Produced(jobs, s, false) && CountsKind(c, jobs, s, sends, writes)
    ensures Of(c.offered, writes) == Rate(s, writes) * s.seconds
  {
    var first := Rate(s, writes) * s.warmup;
    OffersFrom(jobs, s, writes, first);
    CountFrom(jobs, writes, first, Planned(s, writes));
    Apart(Rate(s, writes), s.warmup, s.seconds);
  }

  lemma Apart(rate: nat, a: nat, b: nat)
    ensures rate * (a + b) == rate * a + rate * b && rate * a >= 0 && rate * b >= 0
  {
  }

  /** Never more than that, so what the plan leaves is exactly what a closed queue kept from being generated. */
  lemma NeverOverIssued(jobs: seq<Job>, c: Arrivals, s: Schedule, sends: nat -> Answer, writes: bool, closed: bool)
    requires Produced(jobs, s, closed) && CountsKind(c, jobs, s, sends, writes)
    ensures Of(c.offered, writes) <= Rate(s, writes) * s.seconds
  {
    var first, n := Rate(s, writes) * s.warmup, |Indexes(jobs, writes)|;
    assert Indexes(jobs, writes) == Range(n) && n <= Planned(s, writes);
    OffersFrom(jobs, s, writes, first);
    CountFrom(jobs, writes, first, n);
    Apart(Rate(s, writes), s.warmup, s.seconds);
  }
}
