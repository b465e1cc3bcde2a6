/**
 The control record that is the authority for one Cell's owner and published root, the predicate every
 named transition must pass before its conditional write, and what any history of such writes keeps.
 */
module CellControl {
  import opened Results

  const U64_MAX := 0xFFFF_FFFF_FFFF_FFFF
  const U32_MAX := 0xFFFF_FFFF
  const I64_MAX := 0x7FFF_FFFF_FFFF_FFFF
  /** The top bit an LTX encoder sets in every checksum it writes. */
  const CHECKSUM_FLAG := 0x8000_0000_0000_0000
  const MAX_ENDPOINT := 512

  type U64 = x: int | 0 <= x <= U64_MAX witness 0
  type U32 = x: int | 0 <= x <= U32_MAX witness 0

  /** Fixed-width identities; zero stands for the all-zero byte string. */
  type SessionId = nat
  type CellId = nat
  type Digest = nat

  datatype RootRef = RootRef(digest: Digest, txid: U64, checksum: U64, commitSequence: U64)

  datatype Owner = Owner(session: SessionId, endpoint: string)

  datatype Binding = Binding(session: SessionId, epoch: U64, digest: Digest)

  datatype Overlay = Overlay(
    leader: SessionId, logEpoch: U64, manifest: Digest, firstSequence: U64, lastSequence: U64,
    predecessor: RootRef, finalTxid: U64, finalChecksum: U64, finalCommitSequence: U64)

  datatype State = Recovering | Serving | Idle | Tombstoned

  datatype Control = Control(
    cell: CellId, incarnation: nat, epoch: U64, revision: U64, progress: U64, state: State,
    owner: Option<Owner>, root: Option<RootRef>, recovery: Option<Overlay>, binding: Option<Binding>,
    code: Digest, schema: U32, nextDueMs: Option<int>)

  datatype Transition =
    | BindBundle | Renew | Activate | Publish | Migrate | Release
    | AttachRecovery | PublishRecovery | Takeover | Tombstone

  /** An uploaded root proposal: the root it continues, its schema and the root it materializes. */
  datatype Prepared = Prepared(predecessor: Option<RootRef>, schema: U32, root: RootRef)

  // ----- record validity

  predicate ValidOverlay(o: Overlay) {
    && o.leader != 0 && o.manifest != 0 && o.logEpoch != 0
    && 0 < o.firstSequence <= o.lastSequence
    && o.predecessor.txid < o.finalTxid
    && CHECKSUM_FLAG <= o.finalChecksum
    && o.predecessor.commitSequence < o.finalCommitSequence <= I64_MAX
  }

  predicate IsControlChar(c: char) {
    c < ' ' || '\U{7F}' <= c <= '\U{9F}'
  }

  predicate ValidEndpoint(endpoint: string) {
    0 < |endpoint| <= MAX_ENDPOINT && forall i :: 0 <= i < |endpoint| ==> !IsControlChar(endpoint[i])
  }

  predicate ValidRoot(r: RootRef) {
    r.txid != 0 && CHECKSUM_FLAG <= r.checksum && r.commitSequence <= I64_MAX
  }

  predicate ValidBinding(c: Control, b: Binding) {
    && b.epoch != 0 && b.session != 0 && b.digest != 0
    && c.state == Serving
    && (c.recovery.Some? ==> c.recovery.value.leader == b.session && c.recovery.value.logEpoch == b.epoch)
    && c.owner.Some? && c.owner.value.session == b.session
  }

  predicate Valid(c: Control) {
    && c.epoch != 0 && c.revision != 0 && c.schema != 0
    && (c.nextDueMs.Some? ==> 0 <= c.nextDueMs.value)
    && (c.binding.Some? ==> ValidBinding(c, c.binding.value))
    && (c.owner.Some? ==> ValidEndpoint(c.owner.value.endpoint))
    && (c.root.Some? ==> ValidRoot(c.root.value))
    && (c.recovery.Some? ==> ValidOverlay(c.recovery.value) && c.root == Some(c.recovery.value.predecessor))
    && match c.state
       case Recovering => c.owner.Some?
       case Serving => c.owner.Some? && c.root.Some?
       case Idle => c.owner.None?
       case Tombstoned => c.owner.None?
  }

  /** The top bit of a 64-bit word is set. */
  predicate TopBit(x: U64) {
    x / 0x8000_0000_0000_0000 == 1
  }

  predicate Printable(endpoint: string) {
    forall i :: 0 <= i < |endpoint| ==> 32 <= endpoint[i] as int <= 126 || 160 <= endpoint[i] as int
  }

  /** A tail that starts at the root and ends strictly later, by a named leader's log. */
  predicate ExtendsRoot(root: Option<RootRef>, o: Overlay) {
    && root == Some(o.predecessor) && o.predecessor.txid + 1 <= o.finalTxid
    && o.predecessor.commitSequence + 1 <= o.finalCommitSequence && !TopBit(o.finalCommitSequence) && TopBit(o.finalChecksum)
    && o.leader >= 1 && o.manifest >= 1 && o.logEpoch >= 1 && 1 <= o.firstSequence && o.firstSequence <= o.lastSequence
  }

  /** Exactly which records are valid: who owns one, and what its root, tail and bundle say of one another. */
  lemma RecordAccepted(c: Control)
    ensures Valid(c) <==>
            && c.epoch >= 1 && c.revision >= 1 && c.schema >= 1 && (c.nextDueMs.Some? ==> c.nextDueMs.value >= 0)
            && (c.owner.Some? <==> c.state == Recovering || c.state == Serving)
            && (c.owner.Some? ==> 1 <= |c.owner.value.endpoint| <= 512 && Printable(c.owner.value.endpoint))
            && (c.state == Serving ==> c.root.Some?)
            && (c.root.Some? ==> c.root.value.txid >= 1 && TopBit(c.root.value.checksum) && !TopBit(c.root.value.commitSequence))
            && (c.recovery.Some? ==> ExtendsRoot(c.root, c.recovery.value))
            && (c.binding.Some? ==>
                  var b := c.binding.value;
                  && c.state == Serving && c.owner.value.session == b.session && b.session >= 1 && b.epoch >= 1 && b.digest >= 1
                  && (c.recovery.Some? ==> b.session == c.recovery.value.leader && b.epoch == c.recovery.value.logEpoch))
  {
  }

  // ----- transitions

  /** A published root may stand still or advance; the same transaction keeps its checksum and sequence. */
  predicate RootSuccessor(previous: Option<RootRef>, next: Option<RootRef>) {
    && next.Some?
    && (previous.Some? ==>
          && previous.value.txid <= next.value.txid
          && previous.value.commitSequence <= next.value.commitSequence
          && (previous.value.txid == next.value.txid ==>
                next.value.checksum == previous.value.checksum
                && next.value.commitSequence == previous.value.commitSequence))
  }

  predicate MigrationVersion(code: Digest, schema: U32, nextCode: Digest, nextSchema: U32) {
    schema + 1 == nextSchema || (schema == nextSchema && code != nextCode)
  }

  /** The fields every transition except a publication or a migration leaves alone. */
  predicate SameContent(c: Control, n: Control) {
    c.root == n.root && c.code == n.code && c.schema == n.schema && c.nextDueMs == n.nextDueMs
  }

  predicate ValidTransition(c: Control, n: Control, t: Transition) {
    && Valid(c) && Valid(n)
    && c.cell == n.cell && c.incarnation == n.incarnation
    && c.revision + 1 == n.revision && c.progress + 1 == n.progress
    && (t != BindBundle && t != Release && t != Takeover && t != Tombstone ==> c.binding == n.binding)
    && match t
       case BindBundle =>
         && c.state == Serving && c.binding.None? && n.binding.Some?
         && n == c.(revision := n.revision, progress := n.progress, binding := n.binding)
       case Renew =>
         && c.epoch == n.epoch && c.state == n.state && c.owner == n.owner
         && c.recovery == n.recovery && SameContent(c, n)
       case Activate =>
         && c.state == Recovering && n.state == Serving
         && c.epoch == n.epoch && c.owner == n.owner
         && c.root.Some? && c.recovery.None? && n.recovery.None? && SameContent(c, n)
       case Publish =>
         && (c.state == Recovering || c.state == Serving) && n.state == Serving
         && c.epoch == n.epoch && c.owner == n.owner
         && c.recovery.None? && n.recovery.None?
         && c.code == n.code && c.schema == n.schema
         && RootSuccessor(c.root, n.root)
       case Migrate =>
         && c.binding.None?
         && (c.state == Recovering || c.state == Serving) && n.state == Serving
         && c.epoch == n.epoch && c.owner == n.owner
         && c.recovery.None? && n.recovery.None?
         && n.code != 0 && MigrationVersion(c.code, c.schema, n.code, n.schema)
         && RootSuccessor(c.root, n.root)
       case Release =>
         && (c.state == Recovering || c.state == Serving) && n.state == Idle
         && n.binding.None? && n.owner.None? && n.root.Some?
         && c.recovery.None? && n.recovery.None?
         && c.epoch == n.epoch && SameContent(c, n)
       case AttachRecovery =>
         && n.recovery.Some?
         && c.state != Tombstoned && c.recovery.None?
         && c.epoch == n.epoch && c.state == n.state && c.owner == n.owner
         && c.owner.Some? && c.owner.value.session == n.recovery.value.leader
         && c.root == Some(n.recovery.value.predecessor) && SameContent(c, n)
       case PublishRecovery =>
         && c.recovery.Some?
         && (c.state == Recovering || (c.state == Serving && c.binding.Some?))
         && n.state == c.state && n.recovery.None?
         && c.epoch == n.epoch && c.owner == n.owner
         && c.root == Some(c.recovery.value.predecessor)
         && n.root.Some?
         && n.root.value.txid == c.recovery.value.finalTxid
         && n.root.value.checksum == c.recovery.value.finalChecksum
         && n.root.value.commitSequence == c.recovery.value.finalCommitSequence
         && c.code == n.code && c.schema == n.schema
       case Takeover =>
         && c.state != Tombstoned && n.state == Recovering
         && n.binding.None? && n.owner.Some? && c.owner != n.owner
         && c.epoch + 1 == n.epoch
         && c.recovery == n.recovery && SameContent(c, n)
       case Tombstone =>
         && c.state != Tombstoned && n.state == Tombstoned
         && n.binding.None? && n.owner.None?
         && c.epoch + 1 == n.epoch
         && c.recovery.None? && n.recovery.None? && SameContent(c, n)
  }

  // ----- the builders of successor records

  function Initial(cell: CellId, incarnation: nat, owner: Owner, code: Digest, schema: U32): Result<Control> {
    var c := Control(cell, incarnation, 1, 1, 1, Recovering, Some(owner), None, None, None, code, schema, None);
    if Valid(c) then Ok(c) else Err
  }

  /** The record with its revision and progress each one further, unless a counter would overflow. */
  function Bumped(c: Control): Result<Control> {
    if c.revision == U64_MAX || c.progress == U64_MAX then Err
    else Ok(c.(revision := c.revision + 1, progress := c.progress + 1))
  }

  function Checked(c: Control, n: Control, t: Transition): Result<Control> {
    if ValidTransition(c, n, t) then Ok(n) else Err
  }

  function RenewOf(c: Control): Result<Control> {
    var n :- Bumped(c);
    Checked(c, n, Renew)
  }

  function ActivateOf(c: Control): Result<Control> {
    var n :- Bumped(c);
    Checked(c, n.(state := Serving), Activate)
  }

  function TakeoverOf(c: Control, owner: Owner): Result<Control> {
    if c.epoch == U64_MAX then Err
    else
      var n :- Bumped(c);
      Checked(c, n.(binding := None, epoch := c.epoch + 1, state := Recovering, owner := Some(owner)), Takeover)
  }

  function AttachOf(c: Control, overlay: Overlay): Result<Control> {
    var n :- Bumped(c);
    Checked(c, n.(recovery := Some(overlay)), AttachRecovery)
  }

  function PublishRecoveryOf(c: Control, p: Prepared, nextDueMs: Option<int>): Result<Control> {
    if c.recovery.None? then Err
    else
      var o := c.recovery.value;
      if p.predecessor != Some(o.predecessor) || p.schema != c.schema || p.root.txid != o.finalTxid
         || p.root.checksum != o.finalChecksum || p.root.commitSequence != o.finalCommitSequence then Err
      else
        var n :- Bumped(c);
        Checked(c, n.(root := Some(p.root), recovery := None, nextDueMs := nextDueMs), PublishRecovery)
  }

  function PublishOf(c: Control, p: Prepared, nextDueMs: Option<int>): Result<Control> {
    if p.predecessor != c.root || p.schema != c.schema then Err
    else
      var n :- Bumped(c);
      Checked(c, n.(state := Serving, root := Some(p.root), nextDueMs := nextDueMs), Publish)
  }

  function MigrateOf(c: Control, p: Prepared, nextDueMs: Option<int>, code: Digest, schema: U32): Result<Control> {
    if p.predecessor != c.root || p.schema != schema || code == 0
       || !MigrationVersion(c.code, c.schema, code, schema) then Err
    else
      var n :- Bumped(c);
      Checked(c, n.(state := Serving, root := Some(p.root), code := code, schema := schema, nextDueMs := nextDueMs),
              Migrate)
  }

  function ReleaseOf(c: Control): Result<Control> {
    var n :- Bumped(c);
    Checked(c, n.(binding := None, state := Idle, owner := None), Release)
  }

  /**
   Each builder yields the sole successor its transition admits: a record passes the transition's
   predicate exactly when the builder returns that record.
   */
  lemma SoleSuccessor(c: Control, n: Control)
    ensures ValidTransition(c, n, Renew) <==> RenewOf(c) == Ok(n)
    ensures ValidTransition(c, n, Activate) <==> ActivateOf(c) == Ok(n)
    ensures ValidTransition(c, n, Release) <==> ReleaseOf(c) == Ok(n)
  {
  }

  /** The same for the transitions that take a new owner or a recovered tail. */
  lemma SoleSuccessorFor(c: Control, n: Control, owner: Owner, overlay: Overlay)
    ensures ValidTransition(c, n, Takeover) && n.owner == Some(owner) <==> TakeoverOf(c, owner) == Ok(n)
    ensures ValidTransition(c, n, AttachRecovery) && n.recovery == Some(overlay) <==> AttachOf(c, overlay) == Ok(n)
  {
  }

  /** The same for the transitions that publish an uploaded root continuing the record. */
  lemma SolePublication(c: Control, n: Control, p: Prepared, due: Option<int>)
    requires p.predecessor == c.root
    ensures p.schema == c.schema ==>
              (ValidTransition(c, n, Publish) && n.root == Some(p.root) && n.nextDueMs == due
               <==> PublishOf(c, p, due) == Ok(n))
    ensures p.schema == c.schema ==>
              (ValidTransition(c, n, PublishRecovery) && n.root == Some(p.root) && n.nextDueMs == due
               <==> PublishRecoveryOf(c, p, due) == Ok(n))
    ensures p.schema == n.schema ==>
              (ValidTransition(c, n, Migrate) && n.root == Some(p.root) && n.nextDueMs == due
               <==> MigrateOf(c, p, due, n.code, n.schema) == Ok(n))
  {
  }

  // ----- when each builder succeeds, said of the current record alone

  predicate Room(c: Control) {
    c.revision + 1 <= U64_MAX && c.progress + 1 <= U64_MAX
  }

  /** Somebody owns the Cell, and no recovered tail waits to be published. */
  predicate Owned(c: Control) {
    (c.state == Recovering || c.state == Serving) && c.recovery == None
  }

  /** A first record is owned, unpublished, and at the start of every counter. */
  lemma InitialAccepted(cell: CellId, incarnation: nat, owner: Owner, code: Digest, schema: U32)
    ensures var r := Initial(cell, incarnation, owner, code, schema);
            && (r.Ok? <==> schema >= 1 && ValidEndpoint(owner.endpoint))
            && (r.Ok? ==>
                  && r.value.epoch == r.value.revision == r.value.progress == 1 && r.value.state == Recovering
                  && r.value.owner == Some(owner) && r.value.root == None && r.value.recovery == None && r.value.binding == None
                  && r.value.cell == cell && r.value.incarnation == incarnation && r.value.code == code
                  && r.value.schema == schema && r.value.nextDueMs == None)
  {
  }

  lemma RenewalsAccepted(c: Control)
    ensures RenewOf(c).Ok? <==> Valid(c) && Room(c)
    ensures ActivateOf(c).Ok? <==> Valid(c) && Room(c) && Owned(c) && c.state == Recovering && c.root.Some?
    ensures ReleaseOf(c).Ok? <==> Valid(c) && Room(c) && Owned(c) && c.root.Some?
  {
  }

  lemma TakeoversAccepted(c: Control, owner: Owner)
    ensures TakeoverOf(c, owner).Ok? <==>
            && Valid(c) && Room(c) && c.epoch + 1 <= U64_MAX && c.state != Tombstoned
            && c.owner != Some(owner) && ValidEndpoint(owner.endpoint)
  {
  }

  lemma TailsAccepted(c: Control, tail: Overlay)
    ensures AttachOf(c, tail).Ok? <==>
            && Valid(c) && Room(c) && Owned(c) && c.owner.value.session == tail.leader
            && ValidOverlay(tail) && c.root == Some(tail.predecessor)
            && (c.binding.Some? ==> c.binding.value.epoch == tail.logEpoch)
  {
  }

  /** An uploaded root that is no earlier than the current one, and the same where it is no later. */
  predicate Continues(c: Control, root: RootRef) {
    && root.txid > 0 && root.checksum >= CHECKSUM_FLAG && root.commitSequence <= I64_MAX
    && (c.root.Some? ==>
          && c.root.value.txid <= root.txid && c.root.value.commitSequence <= root.commitSequence
          && (c.root.value.txid < root.txid
              || (c.root.value.checksum == root.checksum && c.root.value.commitSequence == root.commitSequence)))
  }

  predicate Due(at: Option<int>) {
    at.None? || at.value >= 0
  }

  lemma PublicationsAccepted(c: Control, p: Prepared, at: Option<int>)
    ensures PublishOf(c, p, at).Ok? <==>
            && Valid(c) && Room(c) && Owned(c) && p.predecessor == c.root && p.schema == c.schema
            && Continues(c, p.root) && Due(at)
    ensures PublishRecoveryOf(c, p, at).Ok? <==>
            && Valid(c) && Room(c) && c.recovery.Some? && (c.state == Recovering || c.binding.Some?)
            && p.predecessor == c.root && p.schema == c.schema && Due(at)
            && p.root.txid == c.recovery.value.finalTxid && p.root.checksum == c.recovery.value.finalChecksum
            && p.root.commitSequence == c.recovery.value.finalCommitSequence
  {
  }

  /** A migration goes one schema on, or changes the code within one. */
  lemma MigrationsAccepted(c: Control, p: Prepared, at: Option<int>, code: Digest, schema: U32)
    ensures MigrateOf(c, p, at, code, schema).Ok? <==>
            && Valid(c) && Room(c) && Owned(c) && c.binding.None? && p.predecessor == c.root && p.schema == schema
            && Continues(c, p.root) && Due(at) && code > 0
            && (schema - c.schema == 1 || (schema == c.schema && code != c.code))
  {
  }

  /** A bundle is bound once, to a serving record, and a Cell is retired once; neither changes what is published. */
  lemma BindingsAccepted(c: Control, n: Control)
    ensures ValidTransition(c, n, BindBundle) <==>
            && Valid(c) && Valid(n) && Room(c) && c.state == Serving && c.binding == None && n.binding != None
            && n == c.(revision := c.revision + 1, progress := c.progress + 1, binding := n.binding)
    ensures ValidTransition(c, n, Tombstone) <==>
            && Valid(c) && Room(c) && c.epoch + 1 <= U64_MAX && c.state != Tombstoned && c.recovery == None
            && n == c.(revision := c.revision + 1, progress := c.progress + 1, epoch := c.epoch + 1, state := Tombstoned,
                       owner := None, binding := None)
  {
  }

  // ----- histories

  ghost predicate Steps(c: Control, n: Control) {
    exists t: Transition :: ValidTransition(c, n, t)
  }

  /** The versions one control object has held: a valid record and then transitions only. */
  ghost predicate History(h: seq<Control>) {
    && (h != [] ==> Valid(h[0]))
    && forall i :: 0 < i < |h| ==> Steps(h[i - 1], h[i])
  }

  /** `later` is not behind `earlier`: no published transaction or command is lost between them. */
  predicate RootLeq(earlier: Option<RootRef>, later: Option<RootRef>) {
    earlier.Some? ==>
      && later.Some? && earlier.value.txid <= later.value.txid
      && earlier.value.commitSequence <= later.value.commitSequence
      && (earlier.value.txid == later.value.txid ==>
            earlier.value.checksum == later.value.checksum && earlier.value.commitSequence == later.value.commitSequence)
  }

  /** The published root already contains everything a recovered tail reaches. */
  predicate Covers(root: Option<RootRef>, o: Overlay) {
    root.Some? && o.finalTxid <= root.value.txid && o.finalCommitSequence <= root.value.commitSequence
  }

  lemma {:induction false} Counters(h: seq<Control>, i: nat, j: nat)
    requires History(h) && i <= j < |h|
    ensures h[j].cell == h[i].cell && h[j].incarnation == h[i].incarnation
    ensures h[j].revision - h[i].revision == h[j].progress - h[i].progress == j - i
    ensures Valid(h[j])
    decreases j
  {
    if i < j {
      Counters(h, i, j - 1);
      assert Steps(h[j - 1], h[j]);
    } else if 0 < j {
      Counters(h, 0, j - 1);
      assert Steps(h[j - 1], h[j]);
    }
  }

  /** An epoch has one owner: within an epoch the owner stands until it leaves, and never returns. */
  lemma {:induction false} OneOwnerPerEpoch(h: seq<Control>, i: nat, j: nat)
    requires History(h) && i <= j < |h|
    ensures h[i].epoch <= h[j].epoch
    ensures h[i].epoch == h[j].epoch ==> h[j].owner == h[i].owner || h[j].owner.None?
    decreases j
  {
    if i < j {
      OneOwnerPerEpoch(h, i, j - 1);
      assert Steps(h[j - 1], h[j]);
    }
  }

  /** How many versions a takeover needs before the newcomer serves: a pinned tail has to be published first. */
  function ToServe(c: Control): nat {
    if c.recovery.Some? then 3 else 2
  }

  /** No later epoch serves sooner than that. */
  lemma TakeoverTakes(h: seq<Control>, i: nat, j: nat)
    requires History(h) && i < j < |h| && h[i].epoch < h[j].epoch && h[j].state == Serving
    ensures ToServe(h[i]) <= j - i
  {
    assert Steps(h[i], h[i + 1]);
    if j == i + 2 {
      assert Steps(h[i + 1], h[i + 2]);
    }
  }

  /** No history moves the published root backward. */
  lemma {:induction false} RootsNeverRegress(h: seq<Control>, i: nat, j: nat)
    requires History(h) && i <= j < |h|
    ensures RootLeq(h[i].root, h[j].root)
    decreases j
  {
    if i < j {
      RootsNeverRegress(h, i, j - 1);
      assert Steps(h[j - 1], h[j]);
    }
  }

  /** The schema never falls, and rises by at most one a version; new code or schema comes with its owner serving it. */
  lemma {:induction false} SchemasAdvance(h: seq<Control>, i: nat, j: nat)
    requires History(h) && i <= j < |h|
    ensures 0 <= h[j].schema - h[i].schema <= j - i
    ensures j == i + 1 && (h[j].schema != h[i].schema || h[j].code != h[i].code) ==>
            h[j].state == Serving && h[j].owner == h[i].owner && h[j].epoch == h[i].epoch && h[j].root.Some?
    decreases j
  {
    if i < j {
      SchemasAdvance(h, i, j - 1);
      assert Steps(h[j - 1], h[j]);
    }
  }

  /**
   A pinned recovery tail is never dropped: it stays pinned until a published root contains it, and no
   later owner serves the Cell before that.
   */
  lemma {:induction false} TailNeverDropped(h: seq<Control>, i: nat, j: nat)
    requires History(h) && i <= j < |h|
    requires h[i].recovery.Some?
    ensures Covers(h[j].root, h[i].recovery.value)
            || (h[j].recovery == h[i].recovery && (h[j].epoch == h[i].epoch || h[j].state == Recovering))
    ensures h[i].epoch < h[j].epoch && h[j].state == Serving ==> Covers(h[j].root, h[i].recovery.value)
    decreases j
  {
    if i < j {
      TailNeverDropped(h, i, j - 1);
      RootsNeverRegress(h, j - 1, j);
      assert Steps(h[j - 1], h[j]);
    }
  }

  /** A retired Cell stays retired. */
  lemma {:induction false} TombstoneIsFinal(h: seq<Control>, i: nat, j: nat)
    requires History(h) && i <= j < |h|
    requires h[i].state == Tombstoned
    ensures h[j].state == Tombstoned && h[j].epoch == h[i].epoch && h[j].root == h[i].root
    decreases j
  {
    if i < j {
      TombstoneIsFinal(h, i, j - 1);
      assert Steps(h[j - 1], h[j]);
    }
  }

  /** What the publisher accepts as its own record when a conditional write's reply was lost. */
  predicate SameOrPureRenewal(c: Control, previous: Control) {
    && previous.revision <= c.revision && previous.progress <= c.progress
    && c.revision - previous.revision == c.progress - previous.progress
    && c.(revision := previous.revision, progress := previous.progress) == previous
  }

  predicate MovedBy(c: Control, previous: Control, k: nat) {
    && previous.revision + k <= U64_MAX && previous.progress + k <= U64_MAX
    && c == previous.(revision := previous.revision + k, progress := previous.progress + k)
  }

  /** Only the two counters differ, and they moved together. */
  lemma PureRenewalMeans(c: Control, previous: Control)
    ensures SameOrPureRenewal(c, previous) <==> exists k: nat :: MovedBy(c, previous, k)
  {
    if SameOrPureRenewal(c, previous) {
      assert MovedBy(c, previous, c.revision - previous.revision);
    }
  }

  /** Adopting such a record is sound: nobody else owned the Cell at any version in between. */
  lemma {:induction false} RenewalMeansStillOwned(h: seq<Control>, i: nat, k: nat, j: nat)
    requires History(h) && i <= k <= j < |h|
    requires SameOrPureRenewal(h[j], h[i]) && h[i].owner.Some?
    ensures h[k].owner == h[i].owner && h[k].epoch == h[i].epoch
  {
    OneOwnerPerEpoch(h, i, k);
    OneOwnerPerEpoch(h, k, j);
  }
}
