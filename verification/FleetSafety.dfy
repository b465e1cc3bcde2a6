/**
 What every run of the fleet keeps, and when two live sessions can serve one Cell.
 */
module FleetSafety {
  import opened CellControl
  import opened FleetProtocol
  import Lease = NodeLease

  // ----- facts that never become false

  /** Time passes, histories extend, a drained node stays drained and a released epoch stays released. */
  ghost predicate Grows(f: Fleet, f': Fleet) {
    && f.now <= f'.now
    && (forall s: SessionId :: Records(f, s) <= Records(f', s))
    && (forall c: CellId :: Versions(f, c) <= Versions(f', c))
    && (forall s: SessionId :: Drained(f, s) ==> Drained(f', s))
    && (forall s: SessionId, c: CellId, e: int :: HasReleased(f, s, c, e) ==> HasReleased(f', s, c, e))
  }

  /** Why a record may follow its predecessor: only an expired or drained session is ever retired. */
  ghost predicate RecordStep(f: Fleet, s: SessionId, version: nat, r: Record) {
    && version <= |Records(f, s)|
    && (r.Advertised? ==> r.expiresMs == r.issuedMs + LEASE_MS)
    && if version == 0 then r.Advertised? && r.generation == 1
       else
         var previous := Records(f, s)[version - 1];
         && (r.Advertised? ==>
               previous.Advertised? && previous.generation + 1 == r.generation && previous.issuedMs < r.issuedMs
               && previous.expiresMs < r.expiresMs)
         && (r.Retired? ==> r.expiresMs == previous.expiresMs)
         && (r.Retired? && previous.Advertised? ==>
               previous.expiresMs * Lease.NS_PER_MS <= f.now || Drained(f, s))
         && (r.Retired? && previous.Retired? ==>
               r.claimant.Some? && (previous.claimant.Some? ==> previous.claimUntilMs <= r.claimUntilMs - CLAIM_LIFETIME_MS))
  }

  /** The owner this record names has been retired or has given the epoch up. */
  ghost predicate MayLose(f: Fleet, c: Control) {
    c.owner.Some? ==>
      SeenRetired(f, c.owner.value.session) || HasReleased(f, c.owner.value.session, c.cell, c.epoch)
  }

  /** Why a control version may follow its predecessor. */
  ghost predicate ControlStep(f: Fleet, c: CellId, version: nat, w: Written) {
    && version <= |Versions(f, c)|
    && w.value.cell == c
    && if version == 0 then Valid(w.value) && OwnedBy(w.value, w.writer) && w.value.root.None?
       else
         var previous := Versions(f, c)[version - 1].value;
         && Steps(previous, w.value)
         && (w.value.owner != previous.owner || w.value.epoch != previous.epoch ==> MayLose(f, previous))
         && (w.value.root != previous.root ==> OwnedBy(previous, w.writer) && OwnedBy(w.value, w.writer))
  }

  ghost predicate Justified(f: Fleet, m: Message) {
    match m
    case PutRecord(s, version, r) => RecordStep(f, s, version, r)
    case PutControl(c, version, w) => ControlStep(f, c, version, w)
  }

  /** The actor has seen a version its own session owns in its epoch, and a serving one of that epoch if it serves. */
  ghost predicate ActorInv(f: Fleet, s: SessionId, c: CellId, a: Actor) {
    && Seen(Versions(f, c), a.observed)
    && OwnedBy(Versions(f, c)[a.observed - 1].value, s)
    && Versions(f, c)[a.observed - 1].value.epoch == a.epoch
    && (a.serving ==> ServedBy(Versions(f, c), a.observed, a.epoch))
  }

  /** By this version the Cell had been serving in the epoch. */
  ghost predicate ServedBy(h: seq<Written>, version: nat, epoch: int) {
    exists k :: 0 <= k < version <= |h| && h[k].value.state == Serving && h[k].value.epoch == epoch
  }

  ghost predicate WasAdvertised(f: Fleet, s: SessionId, expiresMs: int) {
    exists v :: 0 <= v < |Records(f, s)| && Records(f, s)[v].Advertised? && Records(f, s)[v].expiresMs == expiresMs
  }

  ghost predicate NodeInv(f: Fleet, s: SessionId, n: Node) {
    && (n.guard.Some? ==> WasAdvertised(f, s, n.armedMs))
    && (forall c :: c in n.actors ==> ActorInv(f, s, c, n.actors[c]) && (c, n.actors[c].epoch) !in n.released)
    && (forall p :: p in n.proofs ==> SeenRetired(f, p))
  }

  ghost predicate RecordOk(f: Fleet, s: SessionId, v: nat) {
    v < |Records(f, s)| ==> RecordStep(f, s, v, Records(f, s)[v])
  }

  ghost predicate VersionOk(f: Fleet, c: CellId, k: nat) {
    k < |Versions(f, c)| ==> ControlStep(f, c, k, Versions(f, c)[k])
  }

  ghost predicate Inv(f: Fleet) {
    && (forall m :: m in f.sent ==> Justified(f, m))
    && (forall s: SessionId, v: nat :: RecordOk(f, s, v))
    && (forall c: CellId, k: nat :: VersionOk(f, c, k))
    && (forall s :: s in f.nodes ==> NodeInv(f, s, f.nodes[s]))
  }

  // ----- the invariant is kept

  lemma RetiredGrows(f: Fleet, f': Fleet, s: SessionId)
    requires Grows(f, f') && SeenRetired(f, s)
    ensures SeenRetired(f', s)
  {
    var v :| 0 <= v < |Records(f, s)| && Records(f, s)[v].Retired?;
    assert Records(f, s) <= Records(f', s);
    assert Records(f', s)[v].Retired?;
  }

  lemma JustifiedGrows(f: Fleet, f': Fleet, m: Message)
    requires Grows(f, f') && Justified(f, m)
    ensures Justified(f', m)
  {
    match m
    case PutRecord(s, version, r) =>
      assert Records(f, s) <= Records(f', s);
    case PutControl(c, version, w) =>
      assert Versions(f, c) <= Versions(f', c);
      if version > 0 {
        var previous := Versions(f, c)[version - 1].value;
        if MayLose(f, previous) && previous.owner.Some? && SeenRetired(f, previous.owner.value.session) {
          RetiredGrows(f, f', previous.owner.value.session);
        }
      }
  }

  lemma NodeInvGrows(f: Fleet, f': Fleet, s: SessionId, n: Node)
    requires Grows(f, f') && NodeInv(f, s, n)
    ensures NodeInv(f', s, n)
  {
    assert Records(f, s) <= Records(f', s);
    if n.guard.Some? {
      var v :| 0 <= v < |Records(f, s)| && Records(f, s)[v].Advertised? && Records(f, s)[v].expiresMs == n.armedMs;
      assert Records(f', s)[v] == Records(f, s)[v];
    }
    forall c | c in n.actors
      ensures ActorInv(f', s, c, n.actors[c])
    {
      assert ActorInv(f, s, c, n.actors[c]);
      assert Versions(f, c) <= Versions(f', c);
      var a := n.actors[c];
      if a.serving {
        var h, h' := Versions(f, c), Versions(f', c);
        var k :| 0 <= k < a.observed <= |h| && h[k].value.state == Serving && h[k].value.epoch == a.epoch;
        assert h'[k] == h[k];
      }
    }
    forall p | p in n.proofs
      ensures SeenRetired(f', p)
    {
      RetiredGrows(f, f', p);
    }
  }

  /** A process keeps its released epochs and, once drained, stays drained. */
  ghost predicate NodeGrows(f: Fleet, s: SessionId, n: Node) {
    s in f.nodes ==> f.nodes[s].released <= n.released && (Drained(f, s) ==> n.draining && n.actors == map[])
  }

  /** An effect that is justified in the state it is applied to. */
  ghost predicate Sound(f: Fleet, e: Effect) {
    match e
    case Advance(now) => f.now <= now
    case Store(s, record) => RecordStep(f, s, |Records(f, s)|, record)
    case Commit(c, written) => ControlStep(f, c, |Versions(f, c)|, written)
    case Local(s, node) => NodeGrows(f, s, node) && NodeInv(f, s, node)
    case Post(message) => Justified(f, message)
    case LocalPost(s, node, message) =>
      NodeGrows(f, s, node) && NodeInv(f, s, node) && Justified(SetNode(f, s, node), message)
  }

  lemma EffectGrows(f: Fleet, e: Effect)
    requires Sound(f, e)
    ensures Grows(f, Apply(f, e))
  {
  }

  lemma SentKept(f: Fleet, e: Effect, m: Message)
    requires Inv(f) && Sound(f, e) && Grows(f, Apply(f, e))
    requires m in Apply(f, e).sent
    ensures Justified(Apply(f, e), m)
  {
    var f' := Apply(f, e);
    if m in f.sent || e.Post? {
      JustifiedGrows(f, f', m);
    } else {
      JustifiedGrows(SetNode(f, e.s, e.node), f', m);
    }
  }

  lemma RecordsKept(f: Fleet, e: Effect, s: SessionId, v: nat)
    requires Inv(f) && Sound(f, e) && Grows(f, Apply(f, e))
    ensures RecordOk(Apply(f, e), s, v)
  {
    var f' := Apply(f, e);
    assert RecordOk(f, s, v);
    if v < |Records(f', s)| {
      JustifiedGrows(f, f', PutRecord(s, v, Records(f', s)[v]));
    }
  }

  lemma VersionsKept(f: Fleet, e: Effect, c: CellId, k: nat)
    requires Inv(f) && Sound(f, e) && Grows(f, Apply(f, e))
    ensures VersionOk(Apply(f, e), c, k)
  {
    var f' := Apply(f, e);
    assert VersionOk(f, c, k);
    if k < |Versions(f', c)| {
      JustifiedGrows(f, f', PutControl(c, k, Versions(f', c)[k]));
    }
  }

  lemma EffectKeepsInv(f: Fleet, e: Effect)
    requires Inv(f) && Sound(f, e)
    ensures Inv(Apply(f, e))
  {
    var f' := Apply(f, e);
    EffectGrows(f, e);
    forall m | m in f'.sent
      ensures Justified(f', m)
    {
      SentKept(f, e, m);
    }
    forall s: SessionId, v: nat
      ensures RecordOk(f', s, v)
    {
      RecordsKept(f, e, s, v);
    }
    forall c: CellId, k: nat
      ensures VersionOk(f', c, k)
    {
      VersionsKept(f, e, c, k);
    }
    forall s | s in f'.nodes
      ensures NodeInv(f', s, f'.nodes[s])
    {
      NodeInvGrows(f, f', s, f'.nodes[s]);
    }
  }

  lemma RecordSendIsSound(f: Fleet, s: SessionId, action: MemberAction)
    requires Inv(f) && MemberEnabled(f, s, action) && !MemberEffect(f, s, action).Local?
    ensures Sound(f, MemberEffect(f, s, action))
  {
  }

  lemma GuardStepIsSound(f: Fleet, s: SessionId, action: MemberAction)
    requires Inv(f) && MemberEnabled(f, s, action) && MemberEffect(f, s, action).Local?
    ensures Sound(f, MemberEffect(f, s, action))
  {
  }

  lemma ActorStepIsSound(f: Fleet, s: SessionId, c: CellId, action: CellAction)
    requires Inv(f) && CellEnabled(f, s, c, action) && (action.OpenActor? || action.CloseActor?)
    ensures Sound(f, CellEffect(f, s, c, action))
  {
  }

  /** A node whose actor on one Cell is replaced by another with the same epoch keeps its invariant. */
  lemma ActorReplaced(f: Fleet, s: SessionId, c: CellId, a: Actor)
    requires s in f.nodes && NodeInv(f, s, f.nodes[s]) && c in f.nodes[s].actors
    requires ActorInv(f, s, c, a) && a.epoch == f.nodes[s].actors[c].epoch
    ensures var n := f.nodes[s].(actors := f.nodes[s].actors[c := a]); NodeInv(f, s, n) && NodeGrows(f, s, n)
  {
  }

  lemma AdoptIsSound(f: Fleet, s: SessionId, c: CellId, action: CellAction)
    requires Inv(f) && CellEnabled(f, s, c, action) && action.Adopt?
    ensures Sound(f, CellEffect(f, s, c, action))
  {
    var a, h := f.nodes[s].actors[c], Versions(f, c);
    assert ActorInv(f, s, c, a);
    if a.serving {
      var k :| 0 <= k < a.observed <= |h| && h[k].value.state == Serving && h[k].value.epoch == a.epoch;
      assert 0 <= k < action.version;
    }
    ActorReplaced(f, s, c, a.(observed := action.version));
  }

  lemma AdmitIsSound(f: Fleet, s: SessionId, c: CellId)
    requires Inv(f) && CellEnabled(f, s, c, Admit)
    ensures Sound(f, CellEffect(f, s, c, Admit))
  {
    var a, h := f.nodes[s].actors[c], Versions(f, c);
    assert ActorInv(f, s, c, a);
    assert h[a.observed - 1].value.state == Serving && h[a.observed - 1].value.epoch == a.epoch;
    ActorReplaced(f, s, c, a.(serving := true));
  }

  lemma ServingHasRoot(f: Fleet, c: CellId, k: nat)
    requires Inv(f) && k < |Versions(f, c)| && Versions(f, c)[k].value.state == Serving
    ensures Versions(f, c)[k].value.root.Some?
  {
    assert VersionOk(f, c, k);
  }

  lemma TakeoverIsSound(f: Fleet, s: SessionId, c: CellId, action: CellAction)
    requires Inv(f) && CellEnabled(f, s, c, action) && action.SendTakeover?
    ensures Sound(f, CellEffect(f, s, c, action))
  {
    assert VersionOk(f, c, action.version - 1);
    assert ValidTransition(Versions(f, c)[action.version - 1].value, CellEffect(f, s, c, action).message.written.value,
                           Takeover);
  }

  lemma AttachIsSound(f: Fleet, s: SessionId, c: CellId, action: CellAction)
    requires Inv(f) && CellEnabled(f, s, c, action) && action.SendAttach?
    ensures Sound(f, CellEffect(f, s, c, action))
  {
    assert VersionOk(f, c, action.version - 1);
    assert ValidTransition(Versions(f, c)[action.version - 1].value, CellEffect(f, s, c, action).message.written.value,
                           AttachRecovery);
  }

  /** Giving an epoch up closes the actor that opened it. */
  lemma ReleaseCloses(f: Fleet, s: SessionId, c: CellId, epoch: int)
    requires s in f.nodes && NodeInv(f, s, f.nodes[s])
    ensures var n := f.nodes[s].(released := f.nodes[s].released + {(c, epoch)},
                                 actors := Without(f.nodes[s].actors, c, epoch));
            NodeInv(f, s, n) && NodeGrows(f, s, n)
  {
  }

  lemma ReleaseIsSound(f: Fleet, s: SessionId, c: CellId, action: CellAction)
    requires Inv(f) && CellEnabled(f, s, c, action) && action.SendRelease?
    ensures Sound(f, CellEffect(f, s, c, action))
  {
    assert VersionOk(f, c, action.version - 1);
    var observed := Versions(f, c)[action.version - 1].value;
    ReleaseCloses(f, s, c, observed.epoch);
    assert ValidTransition(observed, CellEffect(f, s, c, action).message.written.value, Release);
  }

  lemma OwnerWriteIsSound(f: Fleet, s: SessionId, c: CellId, action: CellAction)
    requires Inv(f) && CellEnabled(f, s, c, action) && action.SendOwnerWrite?
    ensures Sound(f, CellEffect(f, s, c, action))
  {
    var a := f.nodes[s].actors[c];
    assert ActorInv(f, s, c, a);
    assert VersionOk(f, c, a.observed - 1);
  }

  lemma StepIsSound(f: Fleet, step: Step)
    requires Inv(f) && Enabled(f, step)
    ensures Sound(f, EffectOf(f, step))
  {
    match step
    case Member(s, action) =>
      if MemberEffect(f, s, action).Local? {
        GuardStepIsSound(f, s, action);
      } else {
        RecordSendIsSound(f, s, action);
      }
    case OnCell(s, c, action) =>
      match action {
        case SendTakeover(_) => TakeoverIsSound(f, s, c, action);
        case SendAttach(_, _) => AttachIsSound(f, s, c, action);
        case SendOwnerWrite(_, _) => OwnerWriteIsSound(f, s, c, action);
        case SendRelease(_) => ReleaseIsSound(f, s, c, action);
        case SendCreate(_, _, _) =>
        case Adopt(_) => AdoptIsSound(f, s, c, action);
        case Admit => AdmitIsSound(f, s, c);
        case _ => ActorStepIsSound(f, s, c, action);
      }
    case _ =>
  }

  /** The invariant holds at every state of every run, and every state extends the ones before it. */
  lemma {:induction false} RunKeepsInv(f: Fleet, steps: seq<Step>)
    requires Inv(f) && CanRun(f, steps)
    ensures Inv(After(f, steps)) && Grows(f, After(f, steps))
    decreases |steps|
  {
    if steps != [] {
      StepIsSound(f, steps[0]);
      EffectKeepsInv(f, EffectOf(f, steps[0]));
      EffectGrows(f, EffectOf(f, steps[0]));
      RunKeepsInv(Next(f, steps[0]), steps[1..]);
      GrowsTransitive(f, Next(f, steps[0]), After(f, steps));
    }
  }

  lemma GrowsTransitive(f: Fleet, g: Fleet, h: Fleet)
    requires Grows(f, g) && Grows(g, h)
    ensures Grows(f, h)
  {
  }

  lemma ReachableInv(f: Fleet)
    requires Reachable(f)
    ensures Inv(f)
  {
    var start: Fleet, steps: seq<Step> :| Start(start) && CanRun(start, steps) && After(start, steps) == f;
    RunKeepsInv(start, steps);
  }

  /** A session's advertisements are numbered from one, each issued after the last for a whole lease, until its tombstone. */
  lemma {:induction false} AdvertisementsAdvance(f: Fleet, s: SessionId, v: nat)
    requires Reachable(f) && v < |Records(f, s)| && Records(f, s)[v].Advertised?
    ensures var r := Records(f, s);
            && r[v].generation == v + 1 && r[v].expiresMs == r[v].issuedMs + LEASE_MS
            && forall u :: 0 <= u < v ==> r[u].Advertised? && r[u].issuedMs < r[v].issuedMs
    decreases v
  {
    ReachableInv(f);
    assert RecordOk(f, s, v);
    if v > 0 {
      AdvertisementsAdvance(f, s, v - 1);
    }
  }

  /** A tombstone is claimed by one session at a time: a claim that replaces another was made after that had run out. */
  lemma ClaimsDoNotOverlap(f: Fleet, s: SessionId, v: nat)
    requires Reachable(f) && v + 1 < |Records(f, s)| && Records(f, s)[v].Retired?
    ensures var before, after := Records(f, s)[v], Records(f, s)[v + 1];
            && after.Retired? && after.claimant.Some? && after.expiresMs == before.expiresMs
            && (before.claimant.Some? ==> before.claimUntilMs + CLAIM_LIFETIME_MS <= after.claimUntilMs)
  {
    ReachableInv(f);
    assert RecordOk(f, s, v + 1);
  }

  /** The session's guard was armed and no longer passes. */
  predicate Lapsed(f: Fleet, s: SessionId) {
    s in f.nodes && f.nodes[s].guard.Some? && !GuardPasses(f, s)
  }

  lemma LapsedStep(f: Fleet, step: Step, s: SessionId)
    requires Enabled(f, step) && Lapsed(f, s)
    ensures Lapsed(Next(f, step), s)
  {
  }

  /** Once a session's guard has lapsed it never serves again, whatever anybody does. */
  lemma {:induction false} LapsedForGood(f: Fleet, steps: seq<Step>, s: SessionId)
    requires CanRun(f, steps) && Lapsed(f, s)
    ensures Lapsed(After(f, steps), s)
    decreases |steps|
  {
    if steps != [] {
      LapsedStep(f, steps[0], s);
      LapsedForGood(Next(f, steps[0]), steps[1..], s);
    }
  }

  // ----- the store's histories

  /** In every reachable state a Cell's control record has moved only through valid transitions. */
  lemma ControlHistory(f: Fleet, c: CellId)
    requires Reachable(f)
    ensures History(Values(f, c))
  {
    ReachableInv(f);
    HistoryOfInv(f, c);
  }

  /**
   Nobody but the owner moves a root: at every version that changed it, the session that wrote the version
   owned the Cell before and after. A superseded owner's write, however late, changes nothing.
   */
  lemma RootsMoveOnlyUnderTheirOwner(f: Fleet, c: CellId, k: nat)
    requires Reachable(f) && 0 < k < |Versions(f, c)|
    requires Versions(f, c)[k].value.root != Versions(f, c)[k - 1].value.root
    ensures OwnedBy(Versions(f, c)[k - 1].value, Versions(f, c)[k].writer)
    ensures OwnedBy(Versions(f, c)[k].value, Versions(f, c)[k].writer)
    ensures Versions(f, c)[k].value.epoch == Versions(f, c)[k - 1].value.epoch
  {
    ReachableInv(f);
    assert VersionOk(f, c, k);
  }

  /** An acknowledged root is never lost: whatever runs next, the current root is not behind it. */
  lemma {:induction false} AcknowledgedRootsSurvive(f: Fleet, steps: seq<Step>, c: CellId, k: nat)
    requires Reachable(f) && CanRun(f, steps) && k < |Versions(f, c)|
    ensures var h := Values(After(f, steps), c);
            && k < |h| && h[k] == Values(f, c)[k]
            && RootLeq(h[k].root, Last(h).root)
  {
    ReachableInv(f);
    RunKeepsInv(f, steps);
    ReachableExtends(f, steps);
    var g := After(f, steps);
    assert Versions(f, c) <= Versions(g, c);
    ControlHistory(g, c);
    RootsNeverRegress(Values(g, c), k, |Values(g, c)| - 1);
  }

  lemma {:induction false} ReachableExtends(f: Fleet, steps: seq<Step>)
    requires Reachable(f) && CanRun(f, steps)
    ensures Reachable(After(f, steps))
  {
    var start: Fleet, before: seq<Step> :| Start(start) && CanRun(start, before) && After(start, before) == f;
    RunsCompose(start, before, steps);
  }

  lemma {:induction false} RunsCompose(f: Fleet, first: seq<Step>, second: seq<Step>)
    requires CanRun(f, first) && CanRun(After(f, first), second)
    ensures CanRun(f, first + second)
    ensures After(f, first + second) == After(After(f, first), second)
    decreases |first|
  {
    if first == [] {
      assert first + second == second;
    } else {
      assert (first + second)[1..] == first[1..] + second;
      RunsCompose(Next(f, first[0]), first[1..], second);
    }
  }

  // ----- who may serve a Cell

  /** The session admits work on the Cell: its actor is open and its lease guard passes now. */
  predicate Serves(f: Fleet, s: SessionId, c: CellId) {
    GuardPasses(f, s) && c in f.nodes[s].actors && f.nodes[s].actors[c].serving
  }

  /** Two live sessions admit work on one Cell; `older` is the one whose epoch was superseded. */
  predicate Overlap(f: Fleet, older: SessionId, newer: SessionId, c: CellId) {
    && older != newer && Serves(f, older, c) && Serves(f, newer, c)
    && f.nodes[older].actors[c].epoch < f.nodes[newer].actors[c].epoch
  }

  /** The expiry the session's record last advertised; a tombstone keeps it. */
  function LastExpiryMs(f: Fleet, s: SessionId): int
    requires Records(f, s) != []
  {
    Last(Records(f, s)).expiresMs
  }

  lemma {:induction false} ExpiriesAdvance(f: Fleet, s: SessionId, u: nat, v: nat)
    requires Inv(f) && u <= v < |Records(f, s)|
    ensures Records(f, s)[u].expiresMs <= Records(f, s)[v].expiresMs
    ensures Records(f, s)[u].Retired? ==> Records(f, s)[v].Retired?
    decreases v
  {
    if u < v {
      ExpiriesAdvance(f, s, u, v - 1);
      assert RecordOk(f, s, v);
    }
  }

  lemma {:induction false} RetiredMeansExpired(f: Fleet, s: SessionId, v: nat)
    requires Inv(f) && v < |Records(f, s)| && Records(f, s)[v].Retired?
    ensures Records(f, s)[v].expiresMs * Lease.NS_PER_MS <= f.now || Drained(f, s)
    decreases v
  {
    assert RecordOk(f, s, v);
    if Records(f, s)[v - 1].Retired? {
      RetiredMeansExpired(f, s, v - 1);
    }
  }

  /** An owner keeps its epoch until its session is retired or it gives the epoch up. */
  lemma {:induction false} OwnershipPersists(f: Fleet, c: CellId, i: nat, j: nat)
    requires Inv(f) && i <= j < |Versions(f, c)|
    ensures var a, b := Versions(f, c)[i].value, Versions(f, c)[j].value;
            (b.owner == a.owner && b.epoch == a.epoch) || MayLose(f, a)
    decreases j
  {
    if i < j {
      OwnershipPersists(f, c, i, j - 1);
      assert VersionOk(f, c, j);
      assert VersionOk(f, c, j - 1);
      assert VersionOk(f, c, i);
    }
  }

  lemma HistoryOfInv(f: Fleet, c: CellId)
    requires Inv(f)
    ensures History(Values(f, c))
  {
    var h := Values(f, c);
    assert VersionOk(f, c, 0);
    forall i | 0 < i < |h|
      ensures Steps(h[i - 1], h[i])
    {
      assert VersionOk(f, c, i);
    }
  }

  /** Two sessions serving one Cell opened it in different epochs, so one of them was superseded. */
  lemma EpochsDiffer(f: Fleet, s: SessionId, t: SessionId, c: CellId)
    requires Inv(f) && s != t && Serves(f, s, c) && Serves(f, t, c)
    ensures Overlap(f, s, t, c) || Overlap(f, t, s, c)
  {
    var a, b := f.nodes[s].actors[c], f.nodes[t].actors[c];
    assert ActorInv(f, s, c, a) && ActorInv(f, t, c, b);
    HistoryOfInv(f, c);
    if a.observed <= b.observed {
      OneOwnerPerEpoch(Values(f, c), a.observed - 1, b.observed - 1);
    } else {
      OneOwnerPerEpoch(Values(f, c), b.observed - 1, a.observed - 1);
    }
  }

  lemma SupersededEarlier(f: Fleet, older: SessionId, newer: SessionId, c: CellId)
    requires Inv(f) && Overlap(f, older, newer, c)
    ensures ActorInv(f, older, c, f.nodes[older].actors[c]) && ActorInv(f, newer, c, f.nodes[newer].actors[c])
    ensures f.nodes[older].actors[c].observed < f.nodes[newer].actors[c].observed
  {
    var a, b := f.nodes[older].actors[c], f.nodes[newer].actors[c];
    assert ActorInv(f, older, c, a) && ActorInv(f, newer, c, b);
    HistoryOfInv(f, c);
    if b.observed <= a.observed {
      OneOwnerPerEpoch(Values(f, c), b.observed - 1, a.observed - 1);
    }
  }

  lemma SupersededIsRetired(f: Fleet, older: SessionId, newer: SessionId, c: CellId)
    requires Inv(f) && Overlap(f, older, newer, c)
    ensures SeenRetired(f, older)
  {
    SupersededEarlier(f, older, newer, c);
    var a, b := f.nodes[older].actors[c], f.nodes[newer].actors[c];
    OwnershipPersists(f, c, a.observed - 1, b.observed - 1);
    assert VersionOk(f, c, a.observed - 1);
  }

  /**
   In every reachable state, two live sessions serve one Cell only while the superseded one's guard
   outlives the lease its own record last advertised.
   */
  lemma OverlapOnlyPastTheLease(f: Fleet, older: SessionId, newer: SessionId, c: CellId)
    requires Reachable(f) && Overlap(f, older, newer, c)
    ensures Records(f, older) != []
    ensures f.nodes[older].armedMs <= LastExpiryMs(f, older)
    ensures LastExpiryMs(f, older) * Lease.NS_PER_MS <= f.now < f.nodes[older].guard.value.deadline
  {
    ReachableInv(f);
    SupersededIsRetired(f, older, newer, c);
    var r := Records(f, older);
    var v :| 0 <= v < |r| && r[v].Retired?;
    ExpiriesAdvance(f, older, v, |r| - 1);
    RetiredMeansExpired(f, older, |r| - 1);
    assert NodeInv(f, older, f.nodes[older]);
    var u :| 0 <= u < |r| && r[u].Advertised? && r[u].expiresMs == f.nodes[older].armedMs;
    ExpiriesAdvance(f, older, u, |r| - 1);
  }

  // ----- runs whose guards are armed without delay

  /** A guard is armed or renewed at the very millisecond its wall-clock reading names. */
  predicate Prompt(f: Fleet, step: Step) {
    step.Member? && (step.member.ArmGuard? || step.member.RenewGuard?) ==>
      f.now == Lease.NowMs(step.member.readAt) * Lease.NS_PER_MS
  }

  predicate PromptRun(f: Fleet, steps: seq<Step>)
    requires CanRun(f, steps)
    decreases |steps|
  {
    steps == [] || (Prompt(f, steps[0]) && PromptRun(Next(f, steps[0]), steps[1..]))
  }

  predicate WithinLease(n: Node) {
    n.guard.Some? ==> n.guard.value.deadline <= n.armedMs * Lease.NS_PER_MS
  }

  predicate GuardsWithinLease(f: Fleet) {
    forall s :: s in f.nodes ==> WithinLease(f.nodes[s])
  }

  lemma {:induction false} PromptGuardsStayWithinLease(f: Fleet, steps: seq<Step>)
    requires GuardsWithinLease(f) && CanRun(f, steps) && PromptRun(f, steps)
    ensures GuardsWithinLease(After(f, steps))
    decreases |steps|
  {
    if steps != [] {
      PromptStepStaysWithinLease(f, steps[0]);
      PromptGuardsStayWithinLease(Next(f, steps[0]), steps[1..]);
    }
  }

  predicate LeavesWithinLease(e: Effect) {
    e.Local? || e.LocalPost? ==> WithinLease(e.node)
  }

  lemma EffectStays(f: Fleet, e: Effect)
    requires GuardsWithinLease(f) && LeavesWithinLease(e)
    ensures GuardsWithinLease(Apply(f, e))
  {
  }

  lemma PromptMemberStays(f: Fleet, s: SessionId, action: MemberAction)
    requires GuardsWithinLease(f) && MemberEnabled(f, s, action) && Prompt(f, Member(s, action))
    ensures LeavesWithinLease(MemberEffect(f, s, action))
  {
  }

  lemma CellStepStays(f: Fleet, s: SessionId, c: CellId, action: CellAction)
    requires GuardsWithinLease(f) && CellEnabled(f, s, c, action)
    ensures LeavesWithinLease(CellEffect(f, s, c, action))
  {
  }

  lemma PromptStepStaysWithinLease(f: Fleet, step: Step)
    requires GuardsWithinLease(f) && Enabled(f, step) && Prompt(f, step)
    ensures GuardsWithinLease(Next(f, step))
  {
    match step {
      case Member(s, action) => PromptMemberStays(f, s, action);
      case OnCell(s, c, action) => CellStepStays(f, s, c, action);
      case _ =>
    }
    EffectStays(f, EffectOf(f, step));
  }

  /**
   In any reachable state, of two sessions serving one Cell at least one has a guard that outlives the expiry
   it was armed from.
   */
  lemma OneServerWithinLease(f: Fleet, s: SessionId, t: SessionId, c: CellId)
    requires Reachable(f) && s != t && Serves(f, s, c) && Serves(f, t, c)
    ensures !(WithinLease(f.nodes[s]) && WithinLease(f.nodes[t]))
  {
    ReachableInv(f);
    EpochsDiffer(f, s, t, c);
    if Overlap(f, s, t, c) {
      OverlapOnlyPastTheLease(f, s, t, c);
    } else {
      OverlapOnlyPastTheLease(f, t, s, c);
    }
  }

  /** If every guard is armed without delay, no two live sessions ever serve one Cell. */
  lemma {:induction false} ExclusiveWhenPrompt(start: Fleet, steps: seq<Step>, s: SessionId, t: SessionId, c: CellId)
    requires Start(start) && CanRun(start, steps) && PromptRun(start, steps)
    requires Serves(After(start, steps), s, c) && Serves(After(start, steps), t, c)
    ensures s == t
  {
    var f := After(start, steps);
    assert Reachable(f);
    PromptGuardsStayWithinLease(start, steps);
    if s != t {
      OneServerWithinLease(f, s, t, c);
    }
  }
}
