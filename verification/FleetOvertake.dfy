/**
 Exactly when a serving session can be overtaken while its own guard still passes.
 */
module FleetOvertake {
  import opened Results
  import opened CellControl
  import opened FleetProtocol
  import opened FleetSafety
  import Lease = NodeLease

  /** The session renews its guard nowhere in the run. */
  predicate Rests(steps: seq<Step>, s: SessionId) {
    forall i :: 0 <= i < |steps| ==> !(steps[i].Member? && steps[i].s == s && steps[i].member.RenewGuard?)
  }

  /** A run in which the session does not renew leads from one state to the other. */
  ghost predicate Leads(f: Fleet, g: Fleet, s: SessionId) {
    exists steps: seq<Step> :: CanRun(f, steps) && Rests(steps, s) && After(f, steps) == g
  }

  /** Both serve the Cell, the session still in the epoch it had. */
  predicate OvertakenIn(f: Fleet, g: Fleet, s: SessionId, newer: SessionId, c: CellId) {
    && Serves(f, s, c) && Overlap(g, s, newer, c)
    && g.nodes[s].actors[c].epoch == f.nodes[s].actors[c].epoch
  }

  /** Some run in which the session does not renew ends with another live session serving the Cell too. */
  ghost predicate CanBeOvertaken(f: Fleet, s: SessionId, c: CellId) {
    exists g: Fleet, newer: SessionId :: Leads(f, g, s) && OvertakenIn(f, g, s, newer, c)
  }

  /** The session serves the Cell and the control record still names it in that epoch. */
  predicate Holds(f: Fleet, s: SessionId, c: CellId) {
    && Serves(f, s, c) && Versions(f, c) != []
    && OwnedBy(Last(Versions(f, c)).value, s)
    && Last(Versions(f, c)).value.epoch == f.nodes[s].actors[c].epoch
  }

  /** The record's 64-bit counters can move as far as a takeover needs. */
  predicate Headroom(c: Control) {
    && c.revision + ToServe(c) <= U64_MAX && c.progress + ToServe(c) <= U64_MAX
    && c.epoch + 1 <= U64_MAX
  }

  // ----- a resting guard

  lemma RestingStep(f: Fleet, step: Step, s: SessionId)
    requires Enabled(f, step) && s in f.nodes && f.nodes[s].guard.Some? && Rests([step], s)
    ensures s in Next(f, step).nodes && Next(f, step).nodes[s].guard.Some?
    ensures Next(f, step).nodes[s].guard.value.deadline == f.nodes[s].guard.value.deadline
  {
    assert [step][0] == step;
  }

  lemma {:induction false} RestingGuard(f: Fleet, steps: seq<Step>, s: SessionId)
    requires CanRun(f, steps) && s in f.nodes && f.nodes[s].guard.Some? && Rests(steps, s)
    ensures s in After(f, steps).nodes && After(f, steps).nodes[s].guard.Some?
    ensures After(f, steps).nodes[s].guard.value.deadline == f.nodes[s].guard.value.deadline
    decreases |steps|
  {
    if steps != [] {
      RestingStep(f, steps[0], s);
      RestingGuard(Next(f, steps[0]), steps[1..], s);
    }
  }

  lemma {:induction false} ExpiryAfter(f: Fleet, steps: seq<Step>, s: SessionId)
    requires Inv(f) && CanRun(f, steps) && Records(f, s) != []
    ensures Records(After(f, steps), s) != []
    ensures LastExpiryMs(f, s) <= LastExpiryMs(After(f, steps), s)
  {
    RunKeepsInv(f, steps);
    var g := After(f, steps);
    assert Records(f, s) <= Records(g, s);
    ExpiriesAdvance(g, s, |Records(f, s)| - 1, |Records(g, s)| - 1);
  }

  lemma {:induction false} OvertakenBy(f: Fleet, steps: seq<Step>, s: SessionId, newer: SessionId, c: CellId)
    requires Reachable(f) && Serves(f, s, c) && CanRun(f, steps) && Rests(steps, s)
    requires Overlap(After(f, steps), s, newer, c)
    ensures Records(f, s) != [] && LastExpiryMs(f, s) * Lease.NS_PER_MS < f.nodes[s].guard.value.deadline
  {
    ReachableInv(f);
    assert NodeInv(f, s, f.nodes[s]);
    ExpiryAfter(f, steps, s);
    RestingGuard(f, steps, s);
    ReachableExtends(f, steps);
    OverlapOnlyPastTheLease(After(f, steps), s, newer, c);
  }

  lemma OvertakenMeansOverhanging(f: Fleet, s: SessionId, c: CellId)
    requires Reachable(f) && Serves(f, s, c) && CanBeOvertaken(f, s, c)
    ensures Records(f, s) != [] && LastExpiryMs(f, s) * Lease.NS_PER_MS < f.nodes[s].guard.value.deadline
  {
    var g: Fleet, newer: SessionId :| Leads(f, g, s) && OvertakenIn(f, g, s, newer, c);
    var steps: seq<Step> :| CanRun(f, steps) && Rests(steps, s) && After(f, steps) == g;
    OvertakenBy(f, steps, s, newer, c);
  }

  /** The newcomer's serving version lies beyond the current one by at least what a takeover needs. */
  lemma NewcomerIsBeyond(g: Fleet, newer: SessionId, c: CellId, i: nat)
    requires Inv(g) && Serves(g, newer, c) && i < |Versions(g, c)|
    requires Versions(g, c)[i].value.epoch < g.nodes[newer].actors[c].epoch
    ensures Headroom(Versions(g, c)[i].value)
  {
    var h, b := Values(g, c), g.nodes[newer].actors[c];
    assert ActorInv(g, newer, c, b);
    var k :| 0 <= k < b.observed <= |Versions(g, c)| && Versions(g, c)[k].value.state == Serving
             && Versions(g, c)[k].value.epoch == b.epoch;
    HistoryOfInv(g, c);
    if k <= i {
      OneOwnerPerEpoch(h, k, i);
    } else {
      TakeoverTakes(h, i, k);
      Counters(h, i, k);
    }
  }

  lemma OvertakenMeansHeadroom(f: Fleet, s: SessionId, c: CellId)
    requires Reachable(f) && Holds(f, s, c) && CanBeOvertaken(f, s, c)
    ensures Headroom(Last(Versions(f, c)).value)
  {
    var g: Fleet, newer: SessionId :| Leads(f, g, s) && OvertakenIn(f, g, s, newer, c);
    LeadsGrows(f, g, s, c);
    var i := |Versions(f, c)| - 1;
    assert Versions(g, c)[i] == Versions(f, c)[i];
    NewcomerIsBeyond(g, newer, c, i);
  }

  lemma LeadsGrows(f: Fleet, g: Fleet, s: SessionId, c: CellId)
    requires Reachable(f) && Leads(f, g, s)
    ensures Inv(g) && Versions(f, c) <= Versions(g, c)
  {
    var steps: seq<Step> :| CanRun(f, steps) && Rests(steps, s) && After(f, steps) == g;
    ReachableInv(f);
    RunKeepsInv(f, steps);
  }

  // ----- building the run that overtakes

  lemma FreshSession(used: set<SessionId>) returns (n: SessionId)
    ensures n != 0 && n !in used
  {
    if used == {} {
      n := 1;
    } else {
      n := Greatest(used);
      n := n + 1;
    }
  }

  lemma Greatest(used: set<SessionId>) returns (m: SessionId)
    requires used != {}
    ensures m in used && forall x :: x in used ==> x <= m
    decreases |used|
  {
    m :| m in used;
    if used != {m} {
      var rest := used - {m};
      assert rest != {};
      var r := Greatest(rest);
      if m < r {
        m := r;
      }
      assert forall x :: x in used ==> x == m || x in rest || x <= m;
    }
  }

  lemma LeadsSelf(f: Fleet, s: SessionId)
    ensures Leads(f, f, s)
  {
    var none: seq<Step> := [];
    assert CanRun(f, none) && Rests(none, s) && After(f, none) == f;
  }

  lemma LeadsOn(f: Fleet, g: Fleet, s: SessionId, step: Step)
    requires Leads(f, g, s) && Enabled(g, step)
    requires step.Member? ==> step.s != s
    ensures Leads(f, Next(g, step), s)
  {
    var steps: seq<Step> :| CanRun(f, steps) && Rests(steps, s) && After(f, steps) == g;
    var one := [step];
    assert CanRun(Next(g, step), one[1..]);
    assert After(Next(g, step), one[1..]) == Next(g, step);
    RunsCompose(f, steps, one);
    assert Rests(steps + one, s);
  }

  /** A started node with an armed guard, no Cells and a live record. */
  predicate Ready(g: Fleet, n: SessionId) {
    && GuardPasses(g, n) && !g.nodes[n].draining
    && g.nodes[n].actors == map[] && g.nodes[n].released == {}
    && LiveRecord(g, n, Lease.NowMs(g.now))
  }

  /** The clock and the overtaken session's process, if it has started, are as they were. */
  predicate Spared(f: Fleet, g: Fleet, s: SessionId) {
    g.now == f.now && (s in f.nodes ==> s in g.nodes && g.nodes[s] == f.nodes[s])
  }

  /** So is every control record. */
  predicate Undisturbed(f: Fleet, g: Fleet, s: SessionId) {
    g.authority == f.authority && Spared(f, g, s)
  }

  /** The node has started and its record is live; its guard is not armed yet. */
  predicate Started(g: Fleet, n: SessionId, ms: int) {
    && n in g.nodes && g.nodes[n].guard.None? && !g.nodes[n].draining
    && g.nodes[n].actors == map[] && g.nodes[n].released == {}
    && Records(g, n) == [Advertised(1, ms, ms + LEASE_MS)]
  }

  lemma StartUp(f: Fleet, g: Fleet, s: SessionId, n: SessionId) returns (g': Fleet)
    requires Leads(f, g, s) && s != n && n != 0 && n !in g.nodes && n !in g.directory
    ensures Leads(f, g', s) && Undisturbed(g, g', s) && Started(g', n, Lease.NowMs(g.now))
    ensures Records(g', s) == Records(g, s)
  {
    var ms := Lease.NowMs(g.now);
    var advertisement := Advertised(1, ms, ms + LEASE_MS);
    var start, deliver := Member(n, StartNode(g.now)), DeliverRecord(n, advertisement);
    LeadsOn(f, g, s, start);
    var g1 := Next(g, start);
    LeadsOn(f, g1, s, deliver);
    g' := Next(g1, deliver);
    assert Records(g', n) == [advertisement];
  }

  lemma Enroll(f: Fleet, g: Fleet, s: SessionId, n: SessionId) returns (g': Fleet)
    requires Leads(f, g, s) && s != n && n != 0 && n !in g.nodes && n !in g.directory
    ensures Leads(f, g', s) && Undisturbed(g, g', s) && Ready(g', n)
    ensures g'.nodes[n].guard.value.deadline == g.now + LEASE_MS * Lease.NS_PER_MS
    ensures LastExpiryMs(g', n) == Lease.NowMs(g.now) + LEASE_MS
    ensures Records(g', s) == Records(g, s)
  {
    var g1 := StartUp(f, g, s, n);
    var arm := Member(n, ArmGuard(g.now));
    LeadsOn(f, g1, s, arm);
    g' := Next(g1, arm);
    assert Records(g', n) == Records(g1, n) && Records(g', n)[0].Advertised?;
  }

  lemma Claim(f: Fleet, g: Fleet, s: SessionId, n: SessionId) returns (g': Fleet)
    requires Leads(f, g, s) && s in g.nodes && s != n && Ready(g, n)
    requires Records(g, s) != [] && LastExpiryMs(g, s) * Lease.NS_PER_MS <= g.now
    ensures Leads(f, g', s) && Undisturbed(g, g', s) && Ready(g', n)
    ensures Records(g', s) != [] && Last(Records(g', s)).Retired?
  {
    if Last(Records(g, s)).Retired? {
      return g;
    }
    var claim := Member(n, SendClaim(s, |Records(g, s)|, g.now));
    LeadsOn(f, g, s, claim);
    var g1 := Next(g, claim);
    var tombstone := MemberEffect(g, n, claim.member).message.record;
    LeadsOn(f, g1, s, DeliverRecord(s, tombstone));
    g' := Next(g1, DeliverRecord(s, tombstone));
    assert Records(g', s) == Records(g, s) + [tombstone];
    StillLive(g, g', n);
  }

  lemma StillLive(g: Fleet, g': Fleet, n: SessionId)
    requires LiveRecord(g, n, Lease.NowMs(g.now)) && Records(g', n) == Records(g, n) && g'.now == g.now
    ensures LiveRecord(g', n, Lease.NowMs(g'.now))
  {
    var v :| 0 <= v < |Records(g, n)| && Records(g, n)[v].Advertised? && Lease.NowMs(g.now) < Records(g, n)[v].expiresMs;
    assert Records(g', n)[v] == Records(g, n)[v];
  }

  lemma Prove(f: Fleet, g: Fleet, s: SessionId, n: SessionId) returns (g': Fleet)
    requires Leads(f, g, s) && s in g.nodes && s != n && Ready(g, n)
    requires Records(g, s) != [] && Last(Records(g, s)).Retired?
    ensures Leads(f, g', s) && Undisturbed(g, g', s) && Ready(g', n)
    ensures s in g'.nodes[n].proofs
  {
    var proof := Member(n, TakeProof(s, g.now));
    assert Records(g, s)[|Records(g, s)| - 1].Retired?;
    LeadsOn(f, g, s, proof);
    g' := Next(g, proof);
    StillLive(g, g', n);
  }

  lemma Prepare(f: Fleet, g: Fleet, s: SessionId) returns (g': Fleet, n: SessionId)
    requires Leads(f, g, s) && s in g.nodes
    requires Records(g, s) != [] && LastExpiryMs(g, s) * Lease.NS_PER_MS <= g.now
    ensures s != n && n !in g.nodes && Leads(f, g', s) && Undisturbed(g, g', s) && Ready(g', n)
    ensures s in g'.nodes[n].proofs
  {
    n := FreshSession(g.nodes.Keys + g.directory.Keys);
    g' := Enroll(f, g, s, n);
    g' := Claim(f, g', s, n);
    g' := Prove(f, g', s, n);
  }

  /** The node has an actor on the Cell that has seen its current version, which names the node. */
  predicate Opened(g: Fleet, n: SessionId, c: CellId, current: Control) {
    && GuardPasses(g, n) && !g.nodes[n].draining && c in g.nodes[n].actors
    && Seen(Versions(g, c), g.nodes[n].actors[c].observed)
    && g.nodes[n].actors[c].observed == |Versions(g, c)|
    && Last(Versions(g, c)).value == current
    && OwnedBy(current, n) && current.epoch == g.nodes[n].actors[c].epoch
  }

  lemma EndpointIsValid()
    ensures ValidEndpoint(ENDPOINT)
  {
  }

  /** A control write is sent and applied at once; only the authority and the writes in flight change. */
  lemma PutThrough(f: Fleet, g: Fleet, s: SessionId, n: SessionId, c: CellId, action: CellAction, written: Written)
    returns (g': Fleet)
    requires Leads(f, g, s) && CellEnabled(g, n, c, action)
    requires CellEffect(g, n, c, action) == Post(PutControl(c, |Versions(g, c)|, written))
    ensures Leads(f, g', s) && Versions(g', c) == Versions(g, c) + [written]
    ensures g'.now == g.now && g'.nodes == g.nodes && g'.directory == g.directory
  {
    LeadsOn(f, g, s, OnCell(n, c, action));
    var g1 := Next(g, OnCell(n, c, action));
    LeadsOn(f, g1, s, DeliverControl(c, written));
    g' := Next(g1, DeliverControl(c, written));
  }

  lemma TakeCell(f: Fleet, g: Fleet, s: SessionId, n: SessionId, c: CellId) returns (g': Fleet, current: Control)
    requires Leads(f, g, s) && s in g.nodes && s != n && Ready(g, n) && s in g.nodes[n].proofs
    requires Versions(g, c) != [] && OwnedBy(Last(Versions(g, c)).value, s)
    requires Valid(Last(Versions(g, c)).value) && Headroom(Last(Versions(g, c)).value)
    ensures Leads(f, g', s) && Spared(g, g', s) && Opened(g', n, c, current)
    ensures TakeoverOf(Last(Versions(g, c)).value, SelfOwner(n)) == Ok(current)
  {
    EndpointIsValid();
    var k := |Versions(g, c)|;
    current := TakeoverOf(Last(Versions(g, c)).value, SelfOwner(n)).value;
    var g1 := PutThrough(f, g, s, n, c, SendTakeover(k), Written(current, n));
    g' := Open(f, g1, s, n, c, current);
  }

  lemma Open(f: Fleet, g: Fleet, s: SessionId, n: SessionId, c: CellId, current: Control) returns (g': Fleet)
    requires Leads(f, g, s) && GuardPasses(g, n) && !g.nodes[n].draining
    requires g.nodes[n].actors == map[] && g.nodes[n].released == {}
    requires Versions(g, c) != [] && Last(Versions(g, c)).value == current
    requires OwnedBy(current, n) && current.state == Recovering
    ensures Leads(f, g', s) && Opened(g', n, c, current) && g'.nodes[n].guard == g.nodes[n].guard
    ensures g'.now == g.now && g'.directory == g.directory && g'.nodes == g.nodes[n := g'.nodes[n]]
  {
    var open := OnCell(n, c, OpenActor(|Versions(g, c)|));
    LeadsOn(f, g, s, open);
    g' := Next(g, open);
  }

  /** The newcomer's actor writes the next version and adopts it. */
  lemma Write(f: Fleet, g: Fleet, s: SessionId, n: SessionId, c: CellId, current: Control, next: Control, t: Transition)
    returns (g': Fleet)
    requires Leads(f, g, s) && s != n && Opened(g, n, c, current)
    requires OwnerTransition(t) && ValidTransition(current, next, t)
    ensures Leads(f, g', s) && Spared(g, g', s) && Opened(g', n, c, next)
    ensures g'.nodes[n].guard == g.nodes[n].guard && g'.directory == g.directory
  {
    var k := |Versions(g, c)|;
    var g1 := PutThrough(f, g, s, n, c, SendOwnerWrite(next, t), Written(next, n));
    LeadsOn(f, g1, s, OnCell(n, c, Adopt(k + 1)));
    g' := Next(g1, OnCell(n, c, Adopt(k + 1)));
  }

  lemma Serve(f: Fleet, g: Fleet, s: SessionId, n: SessionId, c: CellId, current: Control) returns (g': Fleet)
    requires Leads(f, g, s) && s != n && Opened(g, n, c, current)
    requires Valid(current) && current.state == Recovering
    requires current.revision + ToServe(current) - 1 <= U64_MAX && current.progress + ToServe(current) - 1 <= U64_MAX
    ensures Leads(f, g', s) && Spared(g, g', s) && Serves(g', n, c)
    ensures g'.nodes[n].actors[c].epoch == current.epoch
  {
    if current.root.None? {
      g' := ServeUnpublished(f, g, s, n, c, current);
      return;
    }
    g' := g;
    var latest := current;
    if current.recovery.Some? {
      var o := current.recovery.value;
      latest := current.(revision := current.revision + 1, progress := current.progress + 1, recovery := None,
                         root := Some(RootRef(0, o.finalTxid, o.finalChecksum, o.finalCommitSequence)));
      g' := Write(f, g', s, n, c, current, latest, PublishRecovery);
    }
    var active := latest.(revision := latest.revision + 1, progress := latest.progress + 1, state := Serving);
    g' := Write(f, g', s, n, c, latest, active, Activate);
    g' := Begin(f, g', s, n, c, active);
  }

  /** A Cell that never had a root serves once its first one is published. */
  lemma ServeUnpublished(f: Fleet, g: Fleet, s: SessionId, n: SessionId, c: CellId, current: Control) returns (g': Fleet)
    requires Leads(f, g, s) && s != n && Opened(g, n, c, current)
    requires Valid(current) && current.state == Recovering && current.root.None?
    requires current.revision + 1 <= U64_MAX && current.progress + 1 <= U64_MAX
    ensures Leads(f, g', s) && Spared(g, g', s) && Serves(g', n, c)
    ensures g'.nodes[n].actors[c].epoch == current.epoch
  {
    var published := current.(revision := current.revision + 1, progress := current.progress + 1, state := Serving,
                              root := Some(RootRef(1, 1, CHECKSUM_FLAG, 0)));
    g' := Write(f, g, s, n, c, current, published, Publish);
    g' := Begin(f, g', s, n, c, published);
  }

  /** The newcomer's actor, having seen a serving version, admits work. */
  lemma Begin(f: Fleet, g: Fleet, s: SessionId, n: SessionId, c: CellId, current: Control) returns (g': Fleet)
    requires Leads(f, g, s) && Opened(g, n, c, current) && current.state == Serving
    ensures Leads(f, g', s) && Serves(g', n, c) && g'.nodes[n].actors[c].epoch == current.epoch
    ensures g'.nodes[n].guard == g.nodes[n].guard && g'.nodes == g.nodes[n := g'.nodes[n]]
    ensures g'.now == g.now && g'.directory == g.directory && g'.authority == g.authority
  {
    LeadsOn(f, g, s, OnCell(n, c, Admit));
    g' := Next(g, OnCell(n, c, Admit));
  }

  lemma CurrentIsPublished(f: Fleet, s: SessionId, c: CellId)
    requires Inv(f) && Holds(f, s, c)
    ensures Valid(Last(Versions(f, c)).value) && Last(Versions(f, c)).value.root.Some?
  {
    var a := f.nodes[s].actors[c];
    assert ActorInv(f, s, c, a);
    var h := Values(f, c);
    var k :| 0 <= k < a.observed <= |h| && Versions(f, c)[k].value.state == Serving
             && Versions(f, c)[k].value.epoch == a.epoch;
    ServingHasRoot(f, c, k);
    HistoryOfInv(f, c);
    RootsNeverRegress(h, k, |h| - 1);
    Counters(h, k, |h| - 1);
  }

  lemma OverhangingCanBeOvertaken(f: Fleet, s: SessionId, c: CellId)
    requires Reachable(f) && Holds(f, s, c) && Headroom(Last(Versions(f, c)).value)
    requires Records(f, s) != [] && LastExpiryMs(f, s) * Lease.NS_PER_MS < f.nodes[s].guard.value.deadline
    ensures CanBeOvertaken(f, s, c)
  {
    ReachableInv(f);
    CurrentIsPublished(f, s, c);
    LeadsSelf(f, s);
    var expiry := LastExpiryMs(f, s) * Lease.NS_PER_MS;
    var t := if f.now <= expiry then expiry else f.now;
    LeadsOn(f, f, s, Tick(t));
    var g := Next(f, Tick(t));
    var g3, n := Prepare(f, g, s);
    assert Versions(g3, c) == Versions(f, c);
    var g4, current := TakeCell(f, g3, s, n, c);
    var g5 := Serve(f, g4, s, n, c, current);
    assert g5.nodes[s] == f.nodes[s] && g5.now == t;
    assert OvertakenIn(f, g5, s, n, c);
  }

  /**
   The exact condition. A session that holds a Cell and does not renew can be overtaken while its own guard
   still passes if and only if that guard's deadline lies beyond the expiry its record advertises and the
   control record's counters have room for a takeover.
   */
  lemma OvertakenIffOverhanging(f: Fleet, s: SessionId, c: CellId)
    requires Reachable(f) && Holds(f, s, c)
    ensures Records(f, s) != []
    ensures CanBeOvertaken(f, s, c) <==>
            && LastExpiryMs(f, s) * Lease.NS_PER_MS < f.nodes[s].guard.value.deadline
            && Headroom(Last(Versions(f, c)).value)
  {
    ReachableInv(f);
    assert NodeInv(f, s, f.nodes[s]);
    if CanBeOvertaken(f, s, c) {
      OvertakenMeansOverhanging(f, s, c);
      OvertakenMeansHeadroom(f, s, c);
    } else if LastExpiryMs(f, s) * Lease.NS_PER_MS < f.nodes[s].guard.value.deadline
              && Headroom(Last(Versions(f, c)).value) {
      OverhangingCanBeOvertaken(f, s, c);
    }
  }

  // ----- a run that ends with two live owners

  lemma Provision(f: Fleet, g: Fleet, n: SessionId, c: CellId) returns (g': Fleet, current: Control)
    requires Leads(f, g, 0) && n != 0 && Ready(g, n) && Versions(g, c) == []
    ensures Leads(f, g', 0) && Opened(g', n, c, current)
    ensures g'.now == g.now && g'.nodes[n].guard == g.nodes[n].guard && g'.directory == g.directory
    ensures Initial(c, 1, SelfOwner(n), 1, 1) == Ok(current)
  {
    EndpointIsValid();
    current := Initial(c, 1, SelfOwner(n), 1, 1).value;
    var g1 := PutThrough(f, g, 0, n, c, SendCreate(1, 1, 1), Written(current, n));
    g' := Open(f, g1, 0, n, c, current);
  }

  /** A node whose guard was armed half a millisecond after its wall-clock reading, serving Cell 7. */
  lemma OverhangingOwner() returns (f: Fleet)
    ensures Reachable(f) && Holds(f, 1, 7) && Headroom(Last(Versions(f, 7)).value)
    ensures Records(f, 1) != [] && LastExpiryMs(f, 1) * Lease.NS_PER_MS < f.nodes[1].guard.value.deadline
  {
    var start := Fleet(Lease.NS_PER_MS / 2, map[], map[], map[], {});
    LeadsSelf(start, 0);
    f := Enroll(start, start, 0, 1);
    var initial;
    f, initial := Provision(start, f, 1, 7);
    var root := RootRef(1, 1, CHECKSUM_FLAG, 0);
    var published := initial.(revision := 2, progress := 2, state := Serving, root := Some(root));
    f := Write(start, f, 0, 1, 7, initial, published, Publish);
    f := Begin(start, f, 0, 1, 7, published);
    ReachedFrom(start, f, 0);
  }

  /** Exclusive service fails: half a millisecond of overhang already lets two live sessions serve one Cell. */
  lemma TwoLiveOwners()
    ensures exists f: Fleet, s: SessionId, t: SessionId, c: CellId ::
              Reachable(f) && s != t && Serves(f, s, c) && Serves(f, t, c)
  {
    var f := OverhangingOwner();
    OverhangingCanBeOvertaken(f, 1, 7);
    var g: Fleet, newer: SessionId :| Leads(f, g, 1) && OvertakenIn(f, g, 1, newer, 7);
    ReachedFrom(f, g, 1);
    assert Serves(g, 1, 7) && Serves(g, newer, 7);
  }

  lemma ReachedFrom(f: Fleet, g: Fleet, s: SessionId)
    requires Leads(f, g, s) && (Start(f) || Reachable(f))
    ensures Reachable(g)
  {
    var steps: seq<Step> :| CanRun(f, steps) && Rests(steps, s) && After(f, steps) == g;
    if Reachable(f) {
      ReachableExtends(f, steps);
    }
  }
}
