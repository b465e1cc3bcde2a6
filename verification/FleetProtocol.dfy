/**
 Nodes acquiring, serving and losing Cells through one object store.

 The store holds two kinds of object: a directory record per boot session and a control record per Cell.
 Every write names the version it replaces and is applied only while that version is current; it may be
 applied long after it was sent, or never. A reader may act on any version it once saw. One object's
 versions are a sequence, and version n+1 is the write that named version n.
 */
module FleetProtocol {
  import opened Results
  import opened CellControl
  import Lease = NodeLease

  const LEASE_MS := 30_000
  const STALE_RETENTION_MS := 330_000
  const CLAIM_LIFETIME_MS := 30_000
  const ENDPOINT := "https://cookbook.local"

  /** A session's directory record: a signed advertisement or, for ever after, its tombstone. */
  datatype Record =
    | Advertised(generation: nat, issuedMs: int, expiresMs: int)
    | Retired(expiresMs: int, retiredMs: int, claimant: Option<SessionId>, claimUntilMs: int)

  /** One accepted control version and the session that wrote it. */
  datatype Written = Written(value: Control, writer: SessionId)

  /** A conditional write in flight: the version it replaces and the value it would install. */
  datatype Message =
    | PutRecord(session: SessionId, version: nat, record: Record)
    | PutControl(cell: CellId, version: nat, written: Written)

  /** A Cell's local actor: the epoch it opened, whether it admits work, the versions it has seen. */
  datatype Actor = Actor(epoch: int, serving: bool, observed: nat)

  /** One process. `armedMs` is the advertised expiry its guard was last armed from. */
  datatype Node = Node(
    guard: Option<Lease.Guard>, armedMs: int, draining: bool,
    actors: map<CellId, Actor>, released: set<(CellId, int)>, proofs: set<SessionId>)

  datatype Fleet = Fleet(
    now: int,
    nodes: map<SessionId, Node>,
    directory: map<SessionId, seq<Record>>,
    authority: map<CellId, seq<Written>>,
    sent: set<Message>)

  function Records(f: Fleet, s: SessionId): seq<Record> {
    if s in f.directory then f.directory[s] else []
  }

  function Versions(f: Fleet, c: CellId): seq<Written> {
    if c in f.authority then f.authority[c] else []
  }

  /** Every control value the Cell's record has held, oldest first. */
  function Values(f: Fleet, c: CellId): (h: seq<Control>)
    ensures |h| == |Versions(f, c)|
    ensures forall i :: 0 <= i < |h| ==> h[i] == Versions(f, c)[i].value
  {
    seq(|Versions(f, c)|, i requires 0 <= i < |Versions(f, c)| => Versions(f, c)[i].value)
  }

  function Last<T>(s: seq<T>): T
    requires s != []
  {
    s[|s| - 1]
  }

  /** The node has stopped admitting Cells and closed every one it had. */
  predicate Drained(f: Fleet, s: SessionId) {
    s in f.nodes && f.nodes[s].draining && f.nodes[s].actors == map[]
  }

  predicate HasReleased(f: Fleet, s: SessionId, c: CellId, epoch: int) {
    s in f.nodes && (c, epoch) in f.nodes[s].released
  }

  /** The session's lease guard passes now. */
  predicate GuardPasses(f: Fleet, s: SessionId) {
    s in f.nodes && f.nodes[s].guard.Some? && Lease.Live(f.nodes[s].guard.value, f.now)
  }

  /** Some load of the session's own record found it advertised and unexpired. */
  predicate LiveRecord(f: Fleet, s: SessionId, nowMs: int) {
    exists v :: 0 <= v < |Records(f, s)| && Records(f, s)[v].Advertised? && nowMs < Records(f, s)[v].expiresMs
  }

  /** Some load of the session's record found its tombstone. */
  predicate SeenRetired(f: Fleet, s: SessionId) {
    exists v :: 0 <= v < |Records(f, s)| && Records(f, s)[v].Retired?
  }

  predicate OwnedBy(c: Control, s: SessionId) {
    c.owner.Some? && c.owner.value.session == s
  }

  /** How an opening node continues from the control record it observed. */
  datatype Route = Bootstrap | AcquireIdle | TakeOver(previous: SessionId) | Refused

  function RouteFor(c: Control, s: SessionId): Route {
    if OwnedBy(c, s) then Bootstrap
    else if c.state == Idle then AcquireIdle
    else if c.owner.None? then Refused
    else TakeOver(c.owner.value.session)
  }

  /** The transitions a Cell's own actor writes; none of them moves the Cell. */
  predicate OwnerTransition(t: Transition) {
    t == Renew || t == Activate || t == Publish || t == Migrate || t == PublishRecovery || t == BindBundle
  }

  /** What one process does about its own session and the sessions of others. */
  datatype MemberAction =
    | StartNode(readAt: int)
    | ArmGuard(readAt: int)
    | SendRefresh(version: nat, readAt: int)
    | RenewGuard(version: nat, readAt: int)
    | FenceGuard
    | BeginDrain
    | SendWithdrawal(version: nat, readAt: int)
    | SendClaim(target: SessionId, version: nat, readAt: int)
    | SendStale(target: SessionId, version: nat, readAt: int)
    | TakeProof(target: SessionId, readAt: int)

  /** What one process does about one Cell. */
  datatype CellAction =
    | SendCreate(incarnation: nat, code: Digest, schema: U32)
    | SendTakeover(version: nat)
    | OpenActor(version: nat)
    | SendOwnerWrite(next: Control, transition: Transition)
    | Adopt(version: nat)
    | Admit
    | SendRelease(version: nat)
    | CloseActor
    | SendAttach(version: nat, overlay: Overlay)

  datatype Step =
    | Tick(now: int)
    | DeliverRecord(session: SessionId, record: Record)
    | DeliverControl(cell: CellId, written: Written)
    | Member(s: SessionId, member: MemberAction)
    | OnCell(s: SessionId, cell: CellId, action: CellAction)

  function SelfOwner(s: SessionId): Owner {
    Owner(s, ENDPOINT)
  }

  predicate Seen<T>(history: seq<T>, version: nat) {
    0 < version <= |history|
  }

  predicate SeesAdvertisement(f: Fleet, s: SessionId, version: nat) {
    Seen(Records(f, s), version) && Records(f, s)[version - 1].Advertised?
  }

  predicate MemberEnabled(f: Fleet, s: SessionId, action: MemberAction) {
    match action
    case StartNode(readAt) => s != 0 && s !in f.nodes && readAt <= f.now
    case ArmGuard(readAt) =>
      && s in f.nodes && f.nodes[s].guard.None? && readAt <= f.now && SeesAdvertisement(f, s, 1)
      && Lease.Armed(f.now, Lease.NowMs(readAt), Records(f, s)[0].expiresMs).Ok?
    case SendRefresh(version, readAt) =>
      && s in f.nodes && f.nodes[s].guard.Some? && readAt <= f.now && SeesAdvertisement(f, s, version)
      && Records(f, s)[version - 1].issuedMs < Lease.NowMs(readAt)
      && Records(f, s)[version - 1].expiresMs < Lease.NowMs(readAt) + LEASE_MS
    case RenewGuard(version, readAt) =>
      s in f.nodes && f.nodes[s].guard.Some? && readAt <= f.now && SeesAdvertisement(f, s, version)
    case FenceGuard => s in f.nodes && f.nodes[s].guard.Some?
    case BeginDrain => s in f.nodes
    case SendWithdrawal(version, readAt) =>
      Drained(f, s) && readAt <= f.now && SeesAdvertisement(f, s, version)
    case SendClaim(target, version, readAt) =>
      && s in f.nodes && s != target && readAt <= f.now && LiveRecord(f, s, Lease.NowMs(readAt))
      && Seen(Records(f, target), version)
      && (match Records(f, target)[version - 1]
          case Advertised(_, _, expiresMs) => expiresMs <= Lease.NowMs(readAt)
          case Retired(_, _, claimant, claimUntilMs) => claimant.None? || claimUntilMs <= Lease.NowMs(readAt))
    case SendStale(target, version, readAt) =>
      && readAt <= f.now && SeesAdvertisement(f, target, version)
      && Records(f, target)[version - 1].expiresMs <= Lease.NowMs(readAt) - STALE_RETENTION_MS
    case TakeProof(target, readAt) =>
      && s in f.nodes && s != target && readAt <= f.now && LiveRecord(f, s, Lease.NowMs(readAt))
      && SeenRetired(f, target)
  }

  predicate CellEnabled(f: Fleet, s: SessionId, c: CellId, action: CellAction) {
    match action
    case SendCreate(incarnation, code, schema) =>
      s in f.nodes && Initial(c, incarnation, SelfOwner(s), code, schema).Ok?
    case SendTakeover(version) =>
      && s in f.nodes && Seen(Versions(f, c), version)
      && TakeoverOf(Versions(f, c)[version - 1].value, SelfOwner(s)).Ok?
      && (match RouteFor(Versions(f, c)[version - 1].value, s)
          case AcquireIdle => Versions(f, c)[version - 1].value.root.Some?
          case TakeOver(previous) => previous in f.nodes[s].proofs
          case _ => false)
    case OpenActor(version) =>
      && s in f.nodes && !f.nodes[s].draining && c !in f.nodes[s].actors && Seen(Versions(f, c), version)
      && (var observed := Versions(f, c)[version - 1].value;
          OwnedBy(observed, s) && observed.state == Recovering
          && (c, observed.epoch as int) !in f.nodes[s].released)
    case SendOwnerWrite(next, transition) =>
      && s in f.nodes && c in f.nodes[s].actors && OwnerTransition(transition)
      && Seen(Versions(f, c), f.nodes[s].actors[c].observed)
      && ValidTransition(Versions(f, c)[f.nodes[s].actors[c].observed - 1].value, next, transition)
    case Adopt(version) =>
      && s in f.nodes && c in f.nodes[s].actors && f.nodes[s].actors[c].observed <= version
      && Seen(Versions(f, c), version)
      && OwnedBy(Versions(f, c)[version - 1].value, s)
      && Versions(f, c)[version - 1].value.epoch == f.nodes[s].actors[c].epoch
    case Admit =>
      && s in f.nodes && c in f.nodes[s].actors && !f.nodes[s].draining && GuardPasses(f, s)
      && Seen(Versions(f, c), f.nodes[s].actors[c].observed)
      && Versions(f, c)[f.nodes[s].actors[c].observed - 1].value.state == Serving
    case SendRelease(version) =>
      && s in f.nodes && Seen(Versions(f, c), version)
      && OwnedBy(Versions(f, c)[version - 1].value, s) && ReleaseOf(Versions(f, c)[version - 1].value).Ok?
    case CloseActor => s in f.nodes && c in f.nodes[s].actors
    case SendAttach(version, overlay) =>
      Seen(Versions(f, c), version) && AttachOf(Versions(f, c)[version - 1].value, overlay).Ok?
  }

  predicate Enabled(f: Fleet, step: Step) {
    match step
    case Tick(now) => f.now <= now
    case DeliverRecord(s, record) => PutRecord(s, |Records(f, s)|, record) in f.sent
    case DeliverControl(c, written) => PutControl(c, |Versions(f, c)|, written) in f.sent
    case Member(s, action) => MemberEnabled(f, s, action)
    case OnCell(s, c, action) => CellEnabled(f, s, c, action)
  }

  /** What a step changes: the clock, one stored object, one process, or the writes in flight. */
  datatype Effect =
    | Advance(now: int)
    | Store(session: SessionId, record: Record)
    | Commit(cell: CellId, written: Written)
    | Local(s: SessionId, node: Node)
    | Post(message: Message)
    | LocalPost(s: SessionId, node: Node, message: Message)

  function SetNode(f: Fleet, s: SessionId, n: Node): Fleet {
    f.(nodes := f.nodes[s := n])
  }

  function Send(f: Fleet, m: Message): Fleet {
    f.(sent := f.sent + {m})
  }

  function Apply(f: Fleet, e: Effect): Fleet {
    match e
    case Advance(now) => f.(now := now)
    case Store(s, record) => f.(directory := f.directory[s := Records(f, s) + [record]])
    case Commit(c, written) => f.(authority := f.authority[c := Versions(f, c) + [written]])
    case Local(s, node) => SetNode(f, s, node)
    case Post(message) => Send(f, message)
    case LocalPost(s, node, message) => Send(SetNode(f, s, node), message)
  }

  function MemberEffect(f: Fleet, s: SessionId, action: MemberAction): Effect
    requires MemberEnabled(f, s, action)
  {
    match action
    case StartNode(readAt) =>
      var ms := Lease.NowMs(readAt);
      LocalPost(s, Node(None, 0, false, map[], {}, {}), PutRecord(s, 0, Advertised(1, ms, ms + LEASE_MS)))
    case ArmGuard(readAt) =>
      var expiresMs := Records(f, s)[0].expiresMs;
      var guard := Lease.Armed(f.now, Lease.NowMs(readAt), expiresMs).value;
      Local(s, f.nodes[s].(guard := Some(guard), armedMs := expiresMs))
    case SendRefresh(version, readAt) =>
      var ms := Lease.NowMs(readAt);
      var generation := Records(f, s)[version - 1].generation + 1;
      Post(PutRecord(s, version, Advertised(generation, ms, ms + LEASE_MS)))
    case RenewGuard(version, readAt) =>
      var expiresMs := Records(f, s)[version - 1].expiresMs;
      var (guard, ok) := Lease.Renewed(f.nodes[s].guard.value, f.now, Lease.NowMs(readAt), expiresMs);
      Local(s, f.nodes[s].(guard := Some(guard), armedMs := if ok then expiresMs else f.nodes[s].armedMs))
    case FenceGuard => Local(s, f.nodes[s].(guard := Some(f.nodes[s].guard.value.(fenced := true))))
    case BeginDrain => Local(s, f.nodes[s].(draining := true))
    case SendWithdrawal(version, readAt) =>
      Post(PutRecord(s, version, Retired(Records(f, s)[version - 1].expiresMs, Lease.NowMs(readAt), None, 0)))
    case SendClaim(target, version, readAt) =>
      var ms := Lease.NowMs(readAt);
      var observed := Records(f, target)[version - 1];
      var retiredMs := if observed.Retired? then observed.retiredMs else ms;
      Post(PutRecord(target, version, Retired(observed.expiresMs, retiredMs, Some(s), ms + CLAIM_LIFETIME_MS)))
    case SendStale(target, version, readAt) =>
      var expiresMs := Records(f, target)[version - 1].expiresMs;
      Post(PutRecord(target, version, Retired(expiresMs, Lease.NowMs(readAt), None, 0)))
    case TakeProof(target, _) => Local(s, f.nodes[s].(proofs := f.nodes[s].proofs + {target}))
  }

  function CellEffect(f: Fleet, s: SessionId, c: CellId, action: CellAction): Effect
    requires CellEnabled(f, s, c, action)
  {
    match action
    case SendCreate(incarnation, code, schema) =>
      Post(PutControl(c, 0, Written(Initial(c, incarnation, SelfOwner(s), code, schema).value, s)))
    case SendTakeover(version) =>
      Post(PutControl(c, version, Written(TakeoverOf(Versions(f, c)[version - 1].value, SelfOwner(s)).value, s)))
    case OpenActor(version) =>
      var actor := Actor(Versions(f, c)[version - 1].value.epoch, false, version);
      Local(s, f.nodes[s].(actors := f.nodes[s].actors[c := actor]))
    case SendOwnerWrite(next, _) => Post(PutControl(c, f.nodes[s].actors[c].observed, Written(next, s)))
    case Adopt(version) =>
      Local(s, f.nodes[s].(actors := f.nodes[s].actors[c := f.nodes[s].actors[c].(observed := version)]))
    case Admit =>
      Local(s, f.nodes[s].(actors := f.nodes[s].actors[c := f.nodes[s].actors[c].(serving := true)]))
    case SendRelease(version) =>
      var observed := Versions(f, c)[version - 1].value;
      var closed := f.nodes[s].(released := f.nodes[s].released + {(c, observed.epoch as int)},
                                actors := Without(f.nodes[s].actors, c, observed.epoch));
      LocalPost(s, closed, PutControl(c, version, Written(ReleaseOf(observed).value, s)))
    case CloseActor => Local(s, f.nodes[s].(actors := f.nodes[s].actors - {c}))
    case SendAttach(version, overlay) =>
      Post(PutControl(c, version, Written(AttachOf(Versions(f, c)[version - 1].value, overlay).value, s)))
  }

  function EffectOf(f: Fleet, step: Step): Effect
    requires Enabled(f, step)
  {
    match step
    case Tick(now) => Advance(now)
    case DeliverRecord(s, record) => Store(s, record)
    case DeliverControl(c, written) => Commit(c, written)
    case Member(s, action) => MemberEffect(f, s, action)
    case OnCell(s, c, action) => CellEffect(f, s, c, action)
  }

  function Next(f: Fleet, step: Step): Fleet
    requires Enabled(f, step)
  {
    Apply(f, EffectOf(f, step))
  }

  /** The actors without the one that opened this Cell in this epoch. */
  function Without(actors: map<CellId, Actor>, c: CellId, epoch: int): map<CellId, Actor> {
    if c in actors && actors[c].epoch == epoch then actors - {c} else actors
  }

  // ----- runs

  predicate CanRun(f: Fleet, steps: seq<Step>)
    decreases |steps|
  {
    steps == [] || (Enabled(f, steps[0]) && CanRun(Next(f, steps[0]), steps[1..]))
  }

  function After(f: Fleet, steps: seq<Step>): Fleet
    requires CanRun(f, steps)
    decreases |steps|
  {
    if steps == [] then f else After(Next(f, steps[0]), steps[1..])
  }

  predicate Start(f: Fleet) {
    f.nodes == map[] && f.directory == map[] && f.authority == map[] && f.sent == {}
  }

  ghost predicate Reachable(f: Fleet) {
    exists start: Fleet, steps: seq<Step> :: Start(start) && CanRun(start, steps) && After(start, steps) == f
  }
}
