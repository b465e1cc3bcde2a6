/**
 What the fleet can still do: exactly when a Cell can be served anew, and that every protocol step has its use.
 */
module FleetProgress {
  import opened Results
  import opened CellControl
  import opened FleetProtocol
  import opened FleetSafety
  import opened FleetOvertake
  import Lease = NodeLease

  /** Some run leads from one state to the other. */
  ghost predicate LeadsTo(f: Fleet, g: Fleet) {
    exists steps: seq<Step> :: CanRun(f, steps) && After(f, steps) == g
  }

  lemma Arrives(f: Fleet, g: Fleet, s: SessionId)
    requires Leads(f, g, s)
    ensures LeadsTo(f, g)
  {
    var steps: seq<Step> :| CanRun(f, steps) && Rests(steps, s) && After(f, steps) == g;
  }

  // ----- every owner has started, and every started session has sent its first record

  ghost predicate Announced(f: Fleet, s: SessionId) {
    exists r: Record :: PutRecord(s, 0, r) in f.sent
  }

  predicate OwnerKnown(f: Fleet, c: Control) {
    c.owner.Some? ==> c.owner.value.session in f.nodes
  }

  predicate VersionKnown(f: Fleet, c: CellId, k: nat) {
    k < |Versions(f, c)| ==> OwnerKnown(f, Versions(f, c)[k].value)
  }

  predicate MessageKnown(f: Fleet, m: Message) {
    m.PutControl? ==> OwnerKnown(f, m.written.value)
  }

  ghost predicate Enrolled(f: Fleet) {
    && 0 !in f.nodes
    && (forall s :: s in f.nodes ==> Announced(f, s))
    && (forall m :: m in f.sent ==> MessageKnown(f, m))
    && (forall c: CellId, k: nat :: VersionKnown(f, c, k))
  }

  /** What a step may change of that. */
  ghost predicate Known(f: Fleet, e: Effect) {
    match e
    case Commit(_, written) => OwnerKnown(f, written.value)
    case Local(s, _) => s in f.nodes
    case Post(m) => MessageKnown(f, m)
    case LocalPost(s, _, m) => MessageKnown(f, m) && (s in f.nodes || (s != 0 && m.PutRecord? && m.session == s && m.version == 0))
    case _ => true
  }

  lemma StillAnnounced(f: Fleet, g: Fleet, s: SessionId)
    requires Announced(f, s) && f.sent <= g.sent
    ensures Announced(g, s)
  {
    var r: Record :| PutRecord(s, 0, r) in f.sent;
    assert PutRecord(s, 0, r) in g.sent;
  }

  lemma EffectKeepsEnrolled(f: Fleet, e: Effect)
    requires Enrolled(f) && Known(f, e)
    ensures Enrolled(Apply(f, e))
  {
    var g := Apply(f, e);
    forall s | s in g.nodes
      ensures Announced(g, s)
    {
      if s in f.nodes {
        StillAnnounced(f, g, s);
      } else {
        assert e.LocalPost? && e.message == PutRecord(s, 0, e.message.record);
      }
    }
    forall c: CellId, k: nat
      ensures VersionKnown(g, c, k)
    {
      assert VersionKnown(f, c, k);
    }
    forall m | m in g.sent
      ensures MessageKnown(g, m)
    {
      assert m in f.sent ==> MessageKnown(f, m);
    }
  }

  lemma CellStepIsKnown(f: Fleet, s: SessionId, c: CellId, action: CellAction)
    requires Enrolled(f) && CellEnabled(f, s, c, action)
    ensures Known(f, CellEffect(f, s, c, action))
  {
    match action
    case SendOwnerWrite(_, _) => assert VersionKnown(f, c, f.nodes[s].actors[c].observed - 1);
    case SendAttach(version, _) => assert VersionKnown(f, c, version - 1);
    case _ =>
  }

  lemma StepIsKnown(f: Fleet, step: Step)
    requires Enrolled(f) && Enabled(f, step)
    ensures Known(f, EffectOf(f, step))
  {
    match step
    case DeliverControl(c, written) => assert MessageKnown(f, PutControl(c, |Versions(f, c)|, written));
    case OnCell(s, c, action) => CellStepIsKnown(f, s, c, action);
    case _ =>
  }

  lemma {:induction false} RunKeepsEnrolled(f: Fleet, steps: seq<Step>)
    requires Enrolled(f) && CanRun(f, steps)
    ensures Enrolled(After(f, steps))
    decreases |steps|
  {
    if steps != [] {
      StepIsKnown(f, steps[0]);
      EffectKeepsEnrolled(f, EffectOf(f, steps[0]));
      RunKeepsEnrolled(Next(f, steps[0]), steps[1..]);
    }
  }

  lemma ReachableEnrolled(f: Fleet)
    requires Reachable(f)
    ensures Enrolled(f)
  {
    var start: Fleet, steps: seq<Step> :| Start(start) && CanRun(start, steps) && After(start, steps) == f;
    RunKeepsEnrolled(start, steps);
  }

  // ----- released records

  /** A Cell is released only once it has a root, and with no tail left to publish. */
  lemma {:induction false} IdleIsWhole(h: seq<Control>, j: nat)
    requires History(h) && j < |h| && h[0].owner.Some? && h[j].state == Idle
    ensures h[j].root.Some? && h[j].recovery.None? && h[j].owner.None?
    decreases j
  {
    if j > 0 {
      assert Steps(h[j - 1], h[j]);
      if h[j - 1].state == Idle {
        IdleIsWhole(h, j - 1);
      }
    }
  }

  /** What is known of a Cell's current record. */
  lemma CurrentRecord(f: Fleet, c: CellId)
    requires Reachable(f) && Versions(f, c) != []
    ensures var current := Last(Versions(f, c)).value;
            && Valid(current) && current.cell == c && OwnerKnown(f, current)
            && (current.state == Idle ==> current.root.Some? && current.recovery.None? && current.owner.None?)
  {
    ReachableInv(f);
    ReachableEnrolled(f);
    HistoryOfInv(f, c);
    var h := Values(f, c);
    var n := |h| - 1;
    assert VersionOk(f, c, 0) && VersionOk(f, c, n) && VersionKnown(f, c, n);
    Counters(h, 0, n);
    if h[n].state == Idle {
      IdleIsWhole(h, n);
    }
  }

  // ----- serving a Cell anew

  /** Some run ends with a session that had not started serving the Cell, in a later epoch. */
  ghost predicate CanBeServedAnew(f: Fleet, c: CellId)
    requires Versions(f, c) != []
  {
    exists g: Fleet, n: SessionId ::
      && LeadsTo(f, g) && n !in f.nodes && Serves(g, n, c)
      && g.nodes[n].actors[c].epoch > Last(Versions(f, c)).value.epoch
  }

  lemma LeadsToGrows(f: Fleet, g: Fleet, c: CellId)
    requires Reachable(f) && LeadsTo(f, g)
    ensures Inv(g) && Versions(f, c) <= Versions(g, c)
  {
    var steps: seq<Step> :| CanRun(f, steps) && After(f, steps) == g;
    ReachableInv(f);
    RunKeepsInv(f, steps);
  }

  lemma ServedAnewMeansRoom(f: Fleet, c: CellId)
    requires Reachable(f) && Versions(f, c) != [] && CanBeServedAnew(f, c)
    ensures Last(Versions(f, c)).value.state != Tombstoned && Headroom(Last(Versions(f, c)).value)
  {
    var g: Fleet, n: SessionId :|
      && LeadsTo(f, g) && n !in f.nodes && Serves(g, n, c)
      && g.nodes[n].actors[c].epoch > Last(Versions(f, c)).value.epoch;
    LeadsToGrows(f, g, c);
    var i := |Versions(f, c)| - 1;
    assert Versions(g, c)[i] == Versions(f, c)[i];
    NewcomerIsBeyond(g, n, c, i);
    NeverAfterTombstone(g, n, c, i);
  }

  lemma NeverAfterTombstone(g: Fleet, n: SessionId, c: CellId, i: nat)
    requires Inv(g) && Serves(g, n, c) && i < |Versions(g, c)|
    requires Versions(g, c)[i].value.epoch < g.nodes[n].actors[c].epoch
    ensures Versions(g, c)[i].value.state != Tombstoned
  {
    HistoryOfInv(g, c);
    var h, b := Values(g, c), g.nodes[n].actors[c];
    assert ActorInv(g, n, c, b);
    if h[i].state == Tombstoned {
      if i < b.observed {
        TombstoneIsFinal(h, i, b.observed - 1);
      } else {
        OneOwnerPerEpoch(h, b.observed - 1, i);
      }
    }
  }

  /** A fresh session takes over a released Cell: nobody's lease has to run out. */
  lemma TakeIdle(f: Fleet, g: Fleet, s: SessionId, n: SessionId, c: CellId) returns (g': Fleet, current: Control)
    requires Leads(f, g, s) && Ready(g, n) && Versions(g, c) != []
    requires var idle := Last(Versions(g, c)).value;
             Valid(idle) && idle.state == Idle && idle.root.Some? && Headroom(idle)
    ensures Leads(f, g', s) && Opened(g', n, c, current) && g'.now == g.now
    ensures forall t :: t != n && t in g.nodes ==> t in g'.nodes && g'.nodes[t] == g.nodes[t]
    ensures TakeoverOf(Last(Versions(g, c)).value, SelfOwner(n)) == Ok(current)
  {
    EndpointIsValid();
    current := TakeoverOf(Last(Versions(g, c)).value, SelfOwner(n)).value;
    var g1 := PutThrough(f, g, s, n, c, SendTakeover(|Versions(g, c)|), Written(current, n));
    g' := Open(f, g1, s, n, c, current);
  }

  /** A started session's record is there, or can be. */
  lemma Advertise(f: Fleet, s: SessionId) returns (g: Fleet)
    requires Reachable(f) && s in f.nodes
    ensures Leads(f, g, s) && Records(g, s) != [] && g.nodes == f.nodes && g.authority == f.authority
  {
    LeadsSelf(f, s);
    g := f;
    if Records(f, s) == [] {
      ReachableEnrolled(f);
      assert Announced(f, s);
      var r: Record :| PutRecord(s, 0, r) in f.sent;
      LeadsOn(f, f, s, DeliverRecord(s, r));
      g := Next(f, DeliverRecord(s, r));
    }
  }

  /** Time passes until the record's lease is over. */
  lemma Expire(f: Fleet, g: Fleet, s: SessionId) returns (g': Fleet)
    requires Leads(f, g, s) && Records(g, s) != []
    ensures Leads(f, g', s) && g'.nodes == g.nodes && g'.authority == g.authority && g'.directory == g.directory
    ensures LastExpiryMs(g', s) * Lease.NS_PER_MS <= g'.now
  {
    var expiry := LastExpiryMs(g, s) * Lease.NS_PER_MS;
    var t := if g.now <= expiry then expiry else g.now;
    LeadsOn(f, g, s, Tick(t));
    g' := Next(g, Tick(t));
  }

  lemma OwnedCanBeServedAnew(f: Fleet, c: CellId) returns (g: Fleet, n: SessionId)
    requires Reachable(f) && Versions(f, c) != [] && Last(Versions(f, c)).value.owner.Some?
    requires Headroom(Last(Versions(f, c)).value)
    ensures LeadsTo(f, g) && n !in f.nodes && Serves(g, n, c)
    ensures g.nodes[n].actors[c].epoch == Last(Versions(f, c)).value.epoch + 1
  {
    CurrentRecord(f, c);
    var s := Last(Versions(f, c)).value.owner.value.session;
    g := Advertise(f, s);
    g := Expire(f, g, s);
    g, n := Prepare(f, g, s);
    var current;
    g, current := TakeCell(f, g, s, n, c);
    g := Serve(f, g, s, n, c, current);
    Arrives(f, g, s);
  }

  /** A fresh session with a live guard, while nothing else changes. */
  lemma Newcomer(f: Fleet, g: Fleet) returns (g': Fleet, n: SessionId)
    requires Leads(f, g, 0)
    ensures n !in g.nodes && n != 0 && Leads(f, g', 0) && Ready(g', n) && g'.authority == g.authority && g'.now == g.now
  {
    n := FreshSession(g.nodes.Keys + g.directory.Keys);
    g' := Enroll(f, g, 0, n);
  }

  lemma IdleCanBeServedAnew(f: Fleet, c: CellId) returns (g: Fleet, n: SessionId)
    requires Reachable(f) && Versions(f, c) != [] && Last(Versions(f, c)).value.state == Idle
    requires Headroom(Last(Versions(f, c)).value)
    ensures LeadsTo(f, g) && n !in f.nodes && Serves(g, n, c) && g.now == f.now
    ensures g.nodes[n].actors[c].epoch == Last(Versions(f, c)).value.epoch + 1
  {
    CurrentRecord(f, c);
    LeadsSelf(f, 0);
    g, n := Newcomer(f, f);
    var current;
    g, current := TakeIdle(f, g, 0, n, c);
    g := Serve(f, g, 0, n, c, current);
    Arrives(f, g, 0);
  }

  /**
   The exact condition. A Cell that exists can be served by a session yet to start if and only if it is not retired and
   its record's counters have room; and then it is served in the next epoch.
   */
  lemma ServableIff(f: Fleet, c: CellId)
    requires Reachable(f) && Versions(f, c) != []
    ensures CanBeServedAnew(f, c) <==>
            Last(Versions(f, c)).value.state != Tombstoned && Headroom(Last(Versions(f, c)).value)
  {
    var current := Last(Versions(f, c)).value;
    CurrentRecord(f, c);
    if CanBeServedAnew(f, c) {
      ServedAnewMeansRoom(f, c);
    } else if current.state != Tombstoned && Headroom(current) {
      if current.state == Idle {
        var g, n := IdleCanBeServedAnew(f, c);
      } else {
        var g, n := OwnedCanBeServedAnew(f, c);
      }
    }
  }

  lemma NewCellCanBeServed(f: Fleet, c: CellId) returns (g: Fleet, n: SessionId)
    requires Reachable(f) && Versions(f, c) == []
    ensures LeadsTo(f, g) && n !in f.nodes && Serves(g, n, c) && g.nodes[n].actors[c].epoch == 1
  {
    LeadsSelf(f, 0);
    g, n := Newcomer(f, f);
    var current;
    g, current := Provision(f, g, n, c);
    g := ServeUnpublished(f, g, 0, n, c, current);
    Arrives(f, g, 0);
  }

  // ----- what the owner of a Cell can do

  /** The session's actor has seen the current version, which still names it in the actor's epoch. */
  predicate Current(f: Fleet, s: SessionId, c: CellId) {
    && s in f.nodes && c in f.nodes[s].actors && Versions(f, c) != []
    && f.nodes[s].actors[c].observed == |Versions(f, c)|
    && OwnedBy(Last(Versions(f, c)).value, s)
    && Last(Versions(f, c)).value.epoch == f.nodes[s].actors[c].epoch
  }

  /** Every transition that leaves the Cell with its owner can be written by that owner. */
  lemma OwnerCanWrite(f: Fleet, s: SessionId, c: CellId, next: Control, t: Transition) returns (g: Fleet)
    requires Current(f, s, c) && ValidTransition(Last(Versions(f, c)).value, next, t)
    requires t.Renew? || t.Activate? || t.Publish? || t.Migrate? || t.PublishRecovery? || t.BindBundle?
    ensures LeadsTo(f, g) && Versions(g, c) == Versions(f, c) + [Written(next, s)] && g.now == f.now
  {
    LeadsSelf(f, 0);
    g := PutThrough(f, f, 0, s, c, SendOwnerWrite(next, t), Written(next, s));
    Arrives(f, g, 0);
  }

  /** A published Cell with no tail to recover can be given up: the record then names nobody. */
  lemma OwnerCanRelease(f: Fleet, s: SessionId, c: CellId) returns (g: Fleet)
    requires Reachable(f) && Current(f, s, c)
    requires var current := Last(Versions(f, c)).value;
             current.root.Some? && current.recovery.None? && current.revision < U64_MAX && current.progress < U64_MAX
    ensures LeadsTo(f, g) && g.now == f.now && |Versions(g, c)| == |Versions(f, c)| + 1
    ensures s in g.nodes && c !in g.nodes[s].actors
    ensures var before, after := Last(Versions(f, c)).value, Last(Versions(g, c)).value;
            && after.state == Idle && after.owner.None? && after.epoch == before.epoch && after.root == before.root
            && after.revision == before.revision + 1 && after.progress == before.progress + 1 && after.recovery.None?
  {
    CurrentRecord(f, c);
    LeadsSelf(f, 0);
    var k := |Versions(f, c)|;
    var idle := ReleaseOf(Last(Versions(f, c)).value).value;
    LeadsOn(f, f, 0, OnCell(s, c, SendRelease(k)));
    var g1 := Next(f, OnCell(s, c, SendRelease(k)));
    LeadsOn(f, g1, 0, DeliverControl(c, Written(idle, s)));
    g := Next(g1, DeliverControl(c, Written(idle, s)));
    Arrives(f, g, 0);
  }

  lemma LeadsToTransitive(f: Fleet, g: Fleet, h: Fleet)
    requires LeadsTo(f, g) && LeadsTo(g, h)
    ensures LeadsTo(f, h)
  {
    var first: seq<Step> :| CanRun(f, first) && After(f, first) == g;
    var second: seq<Step> :| CanRun(g, second) && After(g, second) == h;
    RunsCompose(f, first, second);
  }

  lemma StillReachable(f: Fleet, g: Fleet)
    requires Reachable(f) && LeadsTo(f, g)
    ensures Reachable(g)
  {
    var steps: seq<Step> :| CanRun(f, steps) && After(f, steps) == g;
    ReachableExtends(f, steps);
  }

  /** Handing a Cell over by releasing it takes three versions and no time: nobody waits for a lease. */
  lemma HandOver(f: Fleet, s: SessionId, c: CellId) returns (g: Fleet, n: SessionId)
    requires Reachable(f) && Current(f, s, c)
    requires var current := Last(Versions(f, c)).value;
             && current.root.Some? && current.recovery.None? && current.epoch < U64_MAX
             && current.revision + 3 <= U64_MAX && current.progress + 3 <= U64_MAX
    ensures LeadsTo(f, g) && g.now == f.now && n != s && Serves(g, n, c)
    ensures g.nodes[n].actors[c].epoch == f.nodes[s].actors[c].epoch + 1
  {
    var g1 := OwnerCanRelease(f, s, c);
    StillReachable(f, g1);
    g, n := IdleCanBeServedAnew(g1, c);
    LeadsToTransitive(f, g1, g);
  }

  /** A recovered tail that continues the root of a Cell can be pinned to it. */
  lemma TailCanBePinned(f: Fleet, s: SessionId, c: CellId, tail: Overlay) returns (g: Fleet)
    requires Reachable(f) && s in f.nodes && Versions(f, c) != []
    requires var current := Last(Versions(f, c)).value;
             && OwnedBy(current, tail.leader) && current.recovery.None? && current.root == Some(tail.predecessor)
             && ValidOverlay(tail) && current.revision < U64_MAX && current.progress < U64_MAX
             && (current.binding.Some? ==> current.binding.value.epoch == tail.logEpoch)
    ensures LeadsTo(f, g) && |Versions(g, c)| == |Versions(f, c)| + 1
    ensures Last(Versions(g, c)).value.recovery == Some(tail) && Last(Versions(g, c)).value.root == Some(tail.predecessor)
  {
    CurrentRecord(f, c);
    LeadsSelf(f, 0);
    var pinned := AttachOf(Last(Versions(f, c)).value, tail).value;
    g := PutThrough(f, f, 0, s, c, SendAttach(|Versions(f, c)|, tail), Written(pinned, s));
    Arrives(f, g, 0);
  }

  // ----- what a session can do about its own record, and others about an old one

  /** A live session whose clock has moved since its last refresh can have its whole lease again. */
  lemma LiveSessionCanRenew(f: Fleet, s: SessionId) returns (g: Fleet)
    requires Reachable(f) && GuardPasses(f, s) && Records(f, s) != [] && Last(Records(f, s)).Advertised?
    requires Last(Records(f, s)).issuedMs < Lease.NowMs(f.now) && LastExpiryMs(f, s) < Lease.NowMs(f.now) + LEASE_MS
    requires f.nodes[s].guard.value.deadline < f.now + LEASE_MS * Lease.NS_PER_MS
    ensures LeadsTo(f, g) && g.now == f.now && GuardPasses(g, s)
    ensures g.nodes[s].guard.value.deadline == f.now + LEASE_MS * Lease.NS_PER_MS
    ensures Records(g, s) != [] && Last(Records(g, s)).Advertised? && LastExpiryMs(g, s) == Lease.NowMs(f.now) + LEASE_MS
  {
    ReachableEnrolled(f);
    LeadsSelf(f, 0);
    var k, ms := |Records(f, s)|, Lease.NowMs(f.now);
    var refreshed := Advertised(Last(Records(f, s)).generation + 1, ms, ms + LEASE_MS);
    LeadsOn(f, f, 0, Member(s, SendRefresh(k, f.now)));
    g := Next(f, Member(s, SendRefresh(k, f.now)));
    LeadsOn(f, g, 0, DeliverRecord(s, refreshed));
    g := Next(g, DeliverRecord(s, refreshed));
    assert Records(g, s) == Records(f, s) + [refreshed];
    LeadsOn(f, g, 0, Member(s, RenewGuard(k + 1, f.now)));
    g := Next(g, Member(s, RenewGuard(k + 1, f.now)));
    Arrives(f, g, 0);
  }

  /** A session can stop itself at once. */
  lemma SessionCanFence(f: Fleet, s: SessionId) returns (g: Fleet)
    requires Reachable(f) && GuardPasses(f, s)
    ensures LeadsTo(f, g) && g.now == f.now && Lapsed(g, s)
  {
    ReachableEnrolled(f);
    LeadsSelf(f, 0);
    LeadsOn(f, f, 0, Member(s, FenceGuard));
    g := Next(f, Member(s, FenceGuard));
    Arrives(f, g, 0);
  }

  /** A tombstone nobody claims, or whose claim has run out, can be claimed by any live session. */
  lemma TombstoneCanBeClaimed(f: Fleet, s: SessionId, n: SessionId) returns (g: Fleet)
    requires s != n && n != 0 && n in f.nodes && LiveRecord(f, n, Lease.NowMs(f.now))
    requires Records(f, s) != [] && Last(Records(f, s)).Retired?
    requires Last(Records(f, s)).claimant.None? || Last(Records(f, s)).claimUntilMs <= Lease.NowMs(f.now)
    ensures LeadsTo(f, g) && g.now == f.now && |Records(g, s)| == |Records(f, s)| + 1
    ensures var before, after := Last(Records(f, s)), Last(Records(g, s));
            && after.Retired? && after.claimant == Some(n) && after.claimUntilMs == Lease.NowMs(f.now) + CLAIM_LIFETIME_MS
            && after.expiresMs == before.expiresMs && after.retiredMs == before.retiredMs
  {
    LeadsSelf(f, 0);
    var claim := Member(n, SendClaim(s, |Records(f, s)|, f.now));
    LeadsOn(f, f, 0, claim);
    g := Next(f, claim);
    var tombstone := MemberEffect(f, n, claim.member).message.record;
    LeadsOn(f, g, 0, DeliverRecord(s, tombstone));
    g := Next(g, DeliverRecord(s, tombstone));
    assert Records(g, s) == Records(f, s) + [tombstone];
    Arrives(f, g, 0);
  }

  /** A session closes the Cells it has one by one. */
  lemma {:induction false} CloseAll(f: Fleet, g: Fleet, s: SessionId) returns (g': Fleet)
    requires Leads(f, g, 0) && s != 0 && s in g.nodes && g.nodes[s].draining
    ensures Leads(f, g', 0) && Drained(g', s) && g'.now == g.now && g'.directory == g.directory
    decreases |g.nodes[s].actors|
  {
    g' := g;
    if g.nodes[s].actors.Keys != {} {
      var c :| c in g.nodes[s].actors;
      LeadsOn(f, g, 0, OnCell(s, c, CloseActor));
      g' := Next(g, OnCell(s, c, CloseActor));
      assert g'.nodes[s].actors.Keys == g.nodes[s].actors.Keys - {c};
      assert |g'.nodes[s].actors.Keys| < |g.nodes[s].actors.Keys|;
      g' := CloseAll(f, g', s);
    }
  }

  /** Any session can drain and withdraw its record at once, without waiting for its lease. */
  lemma SessionCanWithdraw(f: Fleet, s: SessionId) returns (g: Fleet)
    requires Reachable(f) && s in f.nodes && Records(f, s) != [] && Last(Records(f, s)).Advertised?
    ensures LeadsTo(f, g) && g.now == f.now && Drained(g, s)
    ensures |Records(g, s)| == |Records(f, s)| + 1 && Last(Records(g, s)).Retired?
  {
    ReachableEnrolled(f);
    LeadsSelf(f, 0);
    LeadsOn(f, f, 0, Member(s, BeginDrain));
    g := Next(f, Member(s, BeginDrain));
    g := CloseAll(f, g, s);
    var k := |Records(g, s)|;
    var tombstone := Retired(LastExpiryMs(g, s), Lease.NowMs(g.now), None, 0);
    LeadsOn(f, g, 0, Member(s, SendWithdrawal(k, g.now)));
    g := Next(g, Member(s, SendWithdrawal(k, g.now)));
    LeadsOn(f, g, 0, DeliverRecord(s, tombstone));
    g := Next(g, DeliverRecord(s, tombstone));
    assert Records(g, s) == Records(f, s) + [tombstone];
    Arrives(f, g, 0);
  }

  /** A record whose lease ended more than the retention ago can be collected by any session. */
  lemma StaleCanBeCollected(f: Fleet, s: SessionId, target: SessionId) returns (g: Fleet)
    requires Records(f, target) != [] && Last(Records(f, target)).Advertised? && s != 0
    requires LastExpiryMs(f, target) + STALE_RETENTION_MS <= Lease.NowMs(f.now)
    ensures LeadsTo(f, g) && g.now == f.now
    ensures |Records(g, target)| == |Records(f, target)| + 1 && Last(Records(g, target)).Retired?
  {
    LeadsSelf(f, 0);
    var k := |Records(f, target)|;
    var tombstone := Retired(LastExpiryMs(f, target), Lease.NowMs(f.now), None, 0);
    LeadsOn(f, f, 0, Member(s, SendStale(target, k, f.now)));
    g := Next(f, Member(s, SendStale(target, k, f.now)));
    LeadsOn(f, g, 0, DeliverRecord(target, tombstone));
    g := Next(g, DeliverRecord(target, tombstone));
    assert Records(g, target) == Records(f, target) + [tombstone];
    Arrives(f, g, 0);
  }
}
