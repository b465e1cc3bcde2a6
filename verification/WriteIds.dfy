/**
 Order ids issued by the closed-loop write driver: each worker walks its own arithmetic progression.
 */
module WriteIds {
  import opened Permutations

  /** The writes one phase may record over all its workers. */
  const LEDGER: nat := 100_000

  datatype Worker = Worker(next: int, replies: nat, live: bool)

  datatype Load = Load(first: int, workers: seq<Worker>, issued: seq<int>)

  /** A worker's next request, whose outcome is either known or uncertain. */
  datatype Event = Request(worker: nat, certain: bool)

  function Begin(first: int, concurrency: nat): Load {
    Load(first, seq(concurrency, i => Worker(first + i, 0, true)), [])
  }

  /** Before the deadline, a worker asks again while its share of the ledger lasts. */
  predicate Enabled(l: Load, e: Event) {
    e.worker < |l.workers| && l.workers[e.worker].live && l.workers[e.worker].replies < LEDGER / |l.workers|
  }

  /** The id is issued; an uncertain outcome ends the worker, a known one moves it on by the number of workers. */
  function Apply(l: Load, e: Event): Load
    requires Enabled(l, e)
  {
    var w := l.workers[e.worker];
    var after := Worker(if e.certain then w.next + |l.workers| else w.next, w.replies + 1, e.certain);
    l.(workers := l.workers[e.worker := after], issued := l.issued + [w.next])
  }

  /** Any interleaving of the workers. */
  predicate CanRun(l: Load, events: seq<Event>)
    decreases |events|
  {
    events == [] || (Enabled(l, events[0]) && CanRun(Apply(l, events[0]), events[1..]))
  }

  function After(l: Load, events: seq<Event>): Load
    requires CanRun(l, events)
    decreases |events|
  {
    if events == [] then l else After(Apply(l, events[0]), events[1..])
  }

  // ----- what every run keeps

  /** The id belongs to some worker's progression, among the requests that worker has made. */
  predicate Accounted(l: Load, id: int)
    requires l.workers != []
  {
    var d := id - l.first;
    d >= 0 && d / |l.workers| < l.workers[d % |l.workers|].replies
  }

  predicate WorkerOk(l: Load, i: nat)
    requires i < |l.workers|
  {
    var w := l.workers[i];
    w.replies <= LEDGER / |l.workers| && (w.live ==> w.next == l.first + i + w.replies * |l.workers|)
  }

  function Replies(workers: seq<Worker>): nat {
    if workers == [] then 0 else Replies(workers[..|workers| - 1]) + workers[|workers| - 1].replies
  }

  predicate Inv(l: Load) {
    && l.workers != []
    && (forall i :: 0 <= i < |l.workers| ==> WorkerOk(l, i))
    && (forall i :: 0 <= i < |l.issued| ==> Accounted(l, l.issued[i]))
    && Distinct(l.issued) && |l.issued| == Replies(l.workers)
  }

  lemma Decompose(d: int, c: int, w: int, k: int)
    requires c > 0 && 0 <= w < c && d == w + k * c
    ensures d / c == k && d % c == w
  {
    var e := k - d / c;
    assert c * e == d % c - w by { assert d == c * (d / c) + d % c; assert c * e == c * k - c * (d / c); }
    assert e >= 1 ==> c * e >= c;
    assert e <= -1 ==> c * e <= -c;
  }

  lemma {:induction false} OneMoreReply(workers: seq<Worker>, i: nat, w: Worker)
    requires i < |workers| && w.replies == workers[i].replies + 1
    ensures Replies(workers[i := w]) == Replies(workers) + 1
    decreases |workers|
  {
    var n := |workers| - 1;
    if i < n {
      OneMoreReply(workers[..n], i, w);
      assert workers[i := w][..n] == workers[..n][i := w];
    } else {
      assert workers[i := w][..n] == workers[..n];
    }
  }

  lemma StillAccounted(l: Load, e: Event, id: int)
    requires l.workers != [] && Enabled(l, e) && Accounted(l, id)
    ensures Accounted(Apply(l, e), id)
  {
  }

  lemma NewId(l: Load, e: Event)
    requires Inv(l) && Enabled(l, e)
    ensures var id := l.workers[e.worker].next; !Accounted(l, id) && Accounted(Apply(l, e), id)
  {
    var c, w := |l.workers|, l.workers[e.worker];
    assert WorkerOk(l, e.worker);
    Decompose(w.next - l.first, c, e.worker, w.replies);
    assert w.replies * c >= 0;
  }

  lemma StillOk(l: Load, e: Event, i: nat)
    requires Inv(l) && Enabled(l, e) && i < |l.workers|
    ensures WorkerOk(Apply(l, e), i)
  {
    assert WorkerOk(l, i);
    var w, c := l.workers[i], |l.workers|;
    assert (w.replies + 1) * c == w.replies * c + c;
  }

  lemma StepKeepsInv(l: Load, e: Event)
    requires Inv(l) && Enabled(l, e)
    ensures Inv(Apply(l, e))
  {
    var l' := Apply(l, e);
    var id := l.workers[e.worker].next;
    NewId(l, e);
    forall i | 0 <= i < |l.workers| {
      StillOk(l, e, i);
    }
    forall i | 0 <= i < |l.issued|
      ensures Accounted(l', l'.issued[i]) && l'.issued[i] != id
    {
      StillAccounted(l, e, l.issued[i]);
    }
    OneMoreReply(l.workers, e.worker, l'.workers[e.worker]);
  }

  lemma {:induction false} NoReplies(workers: seq<Worker>)
    requires forall i :: 0 <= i < |workers| ==> workers[i].replies == 0
    ensures Replies(workers) == 0
    decreases |workers|
  {
    if workers != [] {
      NoReplies(workers[..|workers| - 1]);
    }
  }

  lemma {:induction false} RunKeepsInv(l: Load, events: seq<Event>)
    requires Inv(l) && CanRun(l, events)
    ensures Inv(After(l, events)) && After(l, events).first == l.first
    ensures |After(l, events).workers| == |l.workers|
    decreases |events|
  {
    if events != [] {
      StepKeepsInv(l, events[0]);
      RunKeepsInv(Apply(l, events[0]), events[1..]);
    }
  }

  lemma {:induction false} BoundedReplies(workers: seq<Worker>, most: nat)
    requires forall i :: 0 <= i < |workers| ==> workers[i].replies <= most
    ensures Replies(workers) <= |workers| * most
    decreases |workers|
  {
    if workers != [] {
      var n := |workers| - 1;
      BoundedReplies(workers[..n], most);
      assert |workers| * most == n * most + most;
    }
  }

  /** However the workers interleave, no id is issued twice, none precedes the first, and the ledger is not exceeded. */
  lemma {:induction false} IdsAreFresh(first: int, concurrency: nat, events: seq<Event>)
    requires concurrency > 0 && CanRun(Begin(first, concurrency), events)
    ensures var issued := After(Begin(first, concurrency), events).issued;
            && Distinct(issued) && |issued| <= LEDGER
            && forall i :: 0 <= i < |issued| ==> first <= issued[i]
  {
    var l := Begin(first, concurrency);
    NoReplies(l.workers);
    RunKeepsInv(l, events);
    var done := After(l, events);
    forall i | 0 <= i < |done.workers|
      ensures done.workers[i].replies <= LEDGER / concurrency
    {
      assert WorkerOk(done, i);
    }
    BoundedReplies(done.workers, LEDGER / concurrency);
    Share(concurrency);
    assert forall i :: 0 <= i < |done.issued| ==> Accounted(done, done.issued[i]);
  }

  lemma Share(concurrency: nat)
    requires concurrency > 0
    ensures concurrency * (LEDGER / concurrency) <= LEDGER
  {
  }

  /** The id the measured phase starts from. */
  function NextFirst(warm: seq<int>): (first: int)
    requires warm != []
    ensures forall i :: 0 <= i < |warm| ==> warm[i] < first
    ensures first - 1 in warm
  {
    if |warm| == 1 then warm[0] + 1
    else
      var rest := NextFirst(warm[..|warm| - 1]);
      assert warm == warm[..|warm| - 1] + [warm[|warm| - 1]];
      if warm[|warm| - 1] + 1 > rest then warm[|warm| - 1] + 1 else rest
  }

  /** Warm-up and measured ids never meet: every measured id exceeds every warm-up id. */
  lemma {:induction false} PhasesAreApart(first: int, concurrency: nat, warm: seq<Event>, measured: seq<Event>)
    requires concurrency > 0 && CanRun(Begin(first, concurrency), warm)
    requires After(Begin(first, concurrency), warm).issued != []
    requires CanRun(Begin(NextFirst(After(Begin(first, concurrency), warm).issued), concurrency), measured)
    ensures var before := After(Begin(first, concurrency), warm).issued;
            var later := After(Begin(NextFirst(before), concurrency), measured).issued;
            && (forall i, j :: 0 <= i < |before| && 0 <= j < |later| ==> before[i] < later[j])
            && Distinct(before + later)
  {
    var before := After(Begin(first, concurrency), warm).issued;
    IdsAreFresh(first, concurrency, warm);
    IdsAreFresh(NextFirst(before), concurrency, measured);
  }

  // ----- the whole ledger can be used

  /** How many of the first `m` requests, made in turn, were worker `i`'s. */
  function Rounds(m: nat, c: nat, i: nat): nat
    requires c > 0
  {
    m / c + if i < m % c then 1 else 0
  }

  predicate WorkerInTurn(w: Worker, first: int, c: nat, i: nat, rounds: nat) {
    w.live && w.replies == rounds && w.next == first + i + rounds * c
  }

  /** The workers have made `m` requests in turn, all answered, and issued that many ids without a gap. */
  ghost predicate InTurn(l: Load, first: int, c: nat, m: nat)
    requires c > 0
  {
    && l.first == first && |l.workers| == c && l.issued == seq(m, i => first + i)
    && forall i :: 0 <= i < c ==> WorkerInTurn(l.workers[i], first, c, i, Rounds(m, c, i))
  }

  lemma NextTurn(m: nat, c: nat)
    requires c > 0
    ensures m == c * (m / c) + m % c && 0 <= m % c < c
    ensures if m % c == c - 1 then (m + 1) / c == m / c + 1 && (m + 1) % c == 0
            else (m + 1) / c == m / c && (m + 1) % c == m % c + 1
  {
    var q, r := m / c, m % c;
    assert m == c * q + r;
    if r == c - 1 {
      assert m + 1 == 0 + (q + 1) * c;
      Decompose(m + 1, c, 0, q + 1);
    } else {
      assert m + 1 == (r + 1) + q * c;
      Decompose(m + 1, c, r + 1, q);
    }
  }

  lemma RoundsNext(m: nat, c: nat, i: nat)
    requires 0 <= i < c
    ensures Rounds(m + 1, c, i) == Rounds(m, c, i) + if i == m % c then 1 else 0
    ensures i == m % c ==> Rounds(m, c, i) == m / c && i + Rounds(m, c, i) * c == m
  {
    NextTurn(m, c);
  }

  lemma AnotherRound(w: Worker, first: int, c: nat, i: nat, rounds: nat)
    requires WorkerInTurn(w, first, c, i, rounds)
    ensures WorkerInTurn(Worker(w.next + c, w.replies + 1, true), first, c, i, rounds + 1)
  {
    assert (rounds + 1) * c == rounds * c + c;
  }

  lemma TurnTaken(l: Load, first: int, c: nat, m: nat, t: nat, i: nat)
    requires c > 0 && InTurn(l, first, c, m) && t == m % c && i < c && Enabled(l, Request(t, true))
    ensures WorkerInTurn(Apply(l, Request(t, true)).workers[i], first, c, i, Rounds(m + 1, c, i))
  {
    RoundsNext(m, c, i);
    var rounds := Rounds(m, c, i);
    assert WorkerInTurn(l.workers[i], first, c, i, rounds);
    if i == t {
      AnotherRound(l.workers[i], first, c, i, rounds);
    }
  }

  lemma TurnStep(l: Load, first: int, c: nat, m: nat, t: nat)
    requires c > 0 && InTurn(l, first, c, m) && m / c < LEDGER / c && t == m % c
    ensures Enabled(l, Request(t, true)) && InTurn(Apply(l, Request(t, true)), first, c, m + 1)
  {
    NextTurn(m, c);
    RoundsNext(m, c, t);
    assert WorkerInTurn(l.workers[t], first, c, t, Rounds(m, c, t));
    var l' := Apply(l, Request(t, true));
    forall i | 0 <= i < c
      ensures WorkerInTurn(l'.workers[i], first, c, i, Rounds(m + 1, c, i))
    {
      TurnTaken(l, first, c, m, t, i);
    }
    assert l'.issued == seq(m, i => first + i) + [first + m] == seq(m + 1, i => first + i);
  }

  lemma {:induction false} RunNext(l: Load, events: seq<Event>, e: Event)
    requires CanRun(l, events) && Enabled(After(l, events), e)
    ensures CanRun(l, events + [e]) && After(l, events + [e]) == Apply(After(l, events), e)
    decreases |events|
  {
    if events == [] {
      assert events + [e] == [e] && [e][1..] == [];
    } else {
      assert (events + [e])[0] == events[0] && (events + [e])[1..] == events[1..] + [e];
      RunNext(Apply(l, events[0]), events[1..], e);
    }
  }

  lemma ShareLasts(m: nat, c: nat, share: nat)
    requires c > 0 && m < c * share
    ensures m / c < share
  {
    var q := m / c;
    assert q >= share ==> c * q >= c * share;
  }

  /** Some run issues every id from the first on, without a gap, up to the workers' whole shares of the ledger. */
  lemma {:induction false} LedgerCanBeUsed(first: int, concurrency: nat, m: nat) returns (events: seq<Event>)
    requires concurrency > 0 && m <= concurrency * (LEDGER / concurrency)
    ensures CanRun(Begin(first, concurrency), events)
    ensures InTurn(After(Begin(first, concurrency), events), first, concurrency, m)
    decreases m
  {
    events := [];
    if m > 0 {
      events := LedgerCanBeUsed(first, concurrency, m - 1);
      ShareLasts(m - 1, concurrency, LEDGER / concurrency);
      var turn := (m - 1) % concurrency;
      TurnStep(After(Begin(first, concurrency), events), first, concurrency, m - 1, turn);
      RunNext(Begin(first, concurrency), events, Request(turn, true));
      events := events + [Request(turn, true)];
    }
  }
}
