/**
 The process-local guard of one published node-session lease.

 Time is one clock counted in nanoseconds. The wall clock is read in whole milliseconds, rounded down, so
 a guard is armed from two readings: the millisecond reading and the instant the deadline is added to.
 */
module NodeLease {
  import opened Results

  const NS_PER_MS := 1_000_000
  const MAX_NODE_LEASE_MS := 60_000

  function NowMs(t: int): int {
    t / NS_PER_MS
  }

  datatype Guard = Guard(deadline: int, fenced: bool)

  predicate Live(g: Guard, instant: int) {
    !g.fenced && instant < g.deadline
  }

  function LeaseRemaining(nowMs: int, expiresMs: int): Result<int> {
    if 1 <= expiresMs - nowMs <= MAX_NODE_LEASE_MS then Ok(expiresMs - nowMs) else Err
  }

  function Armed(instant: int, nowMs: int, expiresMs: int): Result<Guard> {
    var remaining :- LeaseRemaining(nowMs, expiresMs);
    Ok(Guard(instant + remaining * NS_PER_MS, false))
  }

  /** The guard after a renewal, and whether the renewal was accepted. */
  function Renewed(g: Guard, instant: int, nowMs: int, expiresMs: int): (Guard, bool) {
    match Armed(instant, nowMs, expiresMs)
    case Err => (g, false)
    case Ok(next) =>
      if !Live(g, instant) then (g.(fenced := true), false)
      else if next.deadline <= g.deadline then (g, false)
      else (next, true)
  }

  function CheckedAt(g: Guard, instant: int): Guard {
    if Live(g, instant) then g else g.(fenced := true)
  }

  /** The guard the source shares between dispatch, publication and renewal. */
  class NodeLeaseGuard {
    var deadline: int
    var fenced: bool

    function View(): (g: Guard)
      reads this
    {
      Guard(deadline, fenced)
    }

    constructor (deadline: int)
      ensures View() == Guard(deadline, false)
    {
      this.deadline := deadline;
      fenced := false;
    }

    static method Create(instant: int, nowMs: int, expiresMs: int) returns (r: Result<NodeLeaseGuard>)
      ensures r.Ok? <==> 1 <= expiresMs - nowMs <= MAX_NODE_LEASE_MS
      ensures r.Ok? ==> fresh(r.value) && Armed(instant, nowMs, expiresMs) == Ok(r.value.View())
    {
      var remaining := LeaseRemaining(nowMs, expiresMs);
      if remaining.Err? {
        return Err;
      }
      var guard := new NodeLeaseGuard(instant + remaining.value * NS_PER_MS);
      r := Ok(guard);
    }

    method Renew(instant: int, nowMs: int, expiresMs: int) returns (ok: bool)
      modifies this
      ensures (View(), ok) == Renewed(old(View()), instant, nowMs, expiresMs)
      ensures View() == Apply(old(View()), Renewal(instant, nowMs, expiresMs))
    {
      var remaining := LeaseRemaining(nowMs, expiresMs);
      if remaining.Err? {
        return false;
      }
      var next := instant + remaining.value * NS_PER_MS;
      if fenced || deadline <= instant {
        fenced := true;
        return false;
      }
      if next <= deadline {
        return false;
      }
      deadline := next;
      ok := true;
    }

    method Check(instant: int) returns (ok: bool)
      modifies this
      ensures ok <==> Live(old(View()), instant)
      ensures View() == CheckedAt(old(View()), instant) == Apply(old(View()), Operation.Check(instant))
    {
      if fenced || deadline <= instant {
        fenced := true;
        return false;
      }
      ok := true;
    }

    method Remaining(instant: int) returns (left: int)
      ensures 0 <= left
      ensures 0 < left <==> Live(View(), instant)
      ensures 0 < left ==> instant + left == deadline
    {
      left := if fenced || deadline <= instant then 0 else deadline - instant;
    }

    /** The watchdog wakes at what it took for the deadline, and fences only if that has come. */
    method Watch(instant: int)
      modifies this
      ensures View() == Apply(old(View()), Watchdog(instant))
    {
      if instant >= deadline {
        fenced := true;
      }
    }

    method Fence()
      modifies this
      ensures View() == old(View()).(fenced := true)
      ensures forall instant :: View() == Apply(old(View()), Operation.Fence(instant))
    {
      fenced := true;
    }
  }

  // ----- what every sequence of guard operations keeps

  datatype Operation =
    | Renewal(instant: int, nowMs: int, expiresMs: int)
    | Check(instant: int)
    | Watchdog(instant: int)
    | Fence(instant: int)

  function Apply(g: Guard, op: Operation): Guard {
    match op
    case Renewal(instant, nowMs, expiresMs) => Renewed(g, instant, nowMs, expiresMs).0
    case Check(instant) => CheckedAt(g, instant)
    case Watchdog(instant) => if g.deadline <= instant then g.(fenced := true) else g
    case Fence(_) => g.(fenced := true)
  }

  function ApplyAll(g: Guard, ops: seq<Operation>): Guard
    decreases |ops|
  {
    if ops == [] then g else ApplyAll(Apply(g, ops[0]), ops[1..])
  }

  /** The watchdog changes no verdict at that instant or later; it only records a guard that has lapsed. */
  lemma WatchdogOnlyRecords(g: Guard, instant: int, later: int)
    requires instant <= later
    ensures Live(Apply(g, Watchdog(instant)), later) <==> Live(g, later)
    ensures Apply(g, Watchdog(instant)).fenced <==> !Live(g, instant)
  {
  }

  /** Expiry is terminal: whatever is attempted later, a guard that has lapsed never passes again. */
  lemma {:induction false} ExpiryIsTerminal(g: Guard, ops: seq<Operation>, lapsed: int, later: int)
    requires !Live(g, lapsed) && lapsed <= later
    requires forall i :: 0 <= i < |ops| ==> lapsed <= ops[i].instant
    ensures !Live(ApplyAll(g, ops), later)
    decreases |ops|
  {
    if ops != [] {
      ExpiryIsTerminal(Apply(g, ops[0]), ops[1..], lapsed, later);
    }
  }

  /** While it is unfenced a guard's deadline only moves forward. */
  lemma {:induction false} DeadlineNeverRecedes(g: Guard, ops: seq<Operation>)
    ensures !ApplyAll(g, ops).fenced ==> !g.fenced && g.deadline <= ApplyAll(g, ops).deadline
    decreases |ops|
  {
    if ops != [] {
      DeadlineNeverRecedes(Apply(g, ops[0]), ops[1..]);
    }
  }

  // ----- how far a guard may outlive the lease it was armed from

  /**
   A guard armed from a wall-clock reading taken at `readAt` outlives the advertised expiry by exactly the
   time between that reading, rounded down to a millisecond, and the instant it is armed. It stays
   within the expiry if and only if that time is zero.
   */
  lemma GuardOverhang(readAt: int, instant: int, expiresMs: int)
    requires readAt <= instant
    requires Armed(instant, NowMs(readAt), expiresMs).Ok?
    ensures var overhang := Armed(instant, NowMs(readAt), expiresMs).value.deadline - expiresMs * NS_PER_MS;
            && overhang == instant - NowMs(readAt) * NS_PER_MS
            && instant - readAt <= overhang < instant - readAt + NS_PER_MS
            && (overhang <= 0 <==> instant == NowMs(readAt) * NS_PER_MS)
  {
  }

  /** A guard read half a millisecond into its second and armed at once still passes at the expiry. */
  lemma GuardOutlivesItsLease()
    ensures var readAt := 1_000_500_000; var expiresMs := 31_000;
            && Armed(readAt, NowMs(readAt), expiresMs).Ok?
            && Live(Armed(readAt, NowMs(readAt), expiresMs).value, expiresMs * NS_PER_MS)
  {
  }
}
