/**
 Observing a process by its output lines: events are read until the evidence is complete, then the rest is drained.
 */
module Framing {
  import opened Results
  import opened ByteStreams

  const RETURN: Byte := 13

  // ----- lines

  function Line(b: seq<Byte>): seq<Byte> {
    b[..Cut(b)]
  }

  function Next(b: seq<Byte>): (rest: seq<Byte>)
    requires HasLine(b)
    ensures |rest| < |b|
  {
    b[Cut(b) + 1..]
  }

  /** The lines that a newline has ended. */
  function FullLines(b: seq<Byte>): seq<seq<Byte>>
    decreases |b|
  {
    if HasLine(b) then [Line(b)] + FullLines(Next(b)) else []
  }

  /** What follows the first `k` lines. */
  function Beyond(b: seq<Byte>, k: nat): seq<Byte>
    requires k <= |FullLines(b)|
    decreases |b|
  {
    if k == 0 then b else Beyond(Next(b), k - 1)
  }

  lemma {:induction false} CutAppends(a: seq<Byte>, b: seq<Byte>)
    requires Cut(a) < |a|
    ensures Cut(a + b) == Cut(a)
    decreases |a|
  {
    assert (a + b)[0] == a[0];
    if a[0] != NEWLINE {
      assert (a + b)[1..] == a[1..] + b;
      CutAppends(a[1..], b);
    }
  }

  lemma FirstLineAppends(a: seq<Byte>, b: seq<Byte>)
    requires HasLine(a)
    ensures HasLine(a + b) && Line(a + b) == Line(a) && Next(a + b) == Next(a) + b
  {
    CutAppends(a, b);
  }

  /** What follows the last newline. */
  function Unfinished(b: seq<Byte>): seq<Byte> {
    Beyond(b, |FullLines(b)|)
  }

  /** More bytes only add lines: those already ended stay as they are. */
  lemma {:induction false} LinesAppend(a: seq<Byte>, b: seq<Byte>)
    ensures FullLines(a + b) == FullLines(a) + FullLines(Unfinished(a) + b)
    decreases |a|
  {
    if HasLine(a) {
      FirstLineAppends(a, b);
      LinesAppend(Next(a), b);
      assert Unfinished(a) == Unfinished(Next(a));
    }
  }

  lemma {:induction false} BeyondAppends(a: seq<Byte>, b: seq<Byte>, k: nat)
    requires k <= |FullLines(a)|
    ensures k <= |FullLines(a + b)| && Beyond(a + b, k) == Beyond(a, k) + b
    decreases k
  {
    if k > 0 {
      FirstLineAppends(a, b);
      BeyondAppends(Next(a), b, k - 1);
    }
  }

  // ----- the nonblank pieces the drain yields

  predicate Break(x: Byte) {
    x == NEWLINE || x == RETURN
  }

  function BreakAt(b: seq<Byte>): (n: nat)
    ensures n <= |b| && (forall i :: 0 <= i < n ==> !Break(b[i])) && (n < |b| ==> Break(b[n]))
  {
    if b == [] || Break(b[0]) then 0 else 1 + BreakAt(b[1..])
  }

  /** The stretches between line breaks, blank ones left out. */
  function Pieces(b: seq<Byte>): seq<seq<Byte>> {
    if b == [] then []
    else
      var n := BreakAt(b);
      var rest := if n == |b| then [] else Pieces(b[n + 1..]);
      if n == 0 then rest else [b[..n]] + rest
  }

  predicate AllBreaks(b: seq<Byte>) {
    forall i :: 0 <= i < |b| ==> b[i] == NEWLINE || b[i] == RETURN
  }

  /** A nonempty stretch without line breaks. */
  predicate Solid(b: seq<Byte>) {
    b != [] && NEWLINE !in b && RETURN !in b
  }

  /** Gaps and pieces in turn. */
  function Weave(gaps: seq<seq<Byte>>, pieces: seq<seq<Byte>>): seq<Byte>
    requires |gaps| == |pieces| + 1
  {
    if pieces == [] then gaps[0] else gaps[0] + pieces[0] + Weave(gaps[1..], pieces[1..])
  }

  /** The bytes are the pieces, kept apart by line breaks and nothing else. */
  predicate Divides(b: seq<Byte>, gaps: seq<seq<Byte>>, pieces: seq<seq<Byte>>) {
    && |gaps| == |pieces| + 1 && Weave(gaps, pieces) == b
    && (forall i :: 0 <= i < |gaps| ==> AllBreaks(gaps[i]))
    && (forall i :: 0 < i < |pieces| ==> gaps[i] != [])
    && (forall i :: 0 <= i < |pieces| ==> Solid(pieces[i]))
  }

  /** Every byte that is no line break is in one piece, in order, and a piece ends only where a line does. */
  lemma {:induction false} PiecesDivide(b: seq<Byte>) returns (gaps: seq<seq<Byte>>)
    ensures Divides(b, gaps, Pieces(b))
    decreases |b|
  {
    if b == [] {
      gaps := [[]];
    } else {
      var n := BreakAt(b);
      HeadIsSolid(b);
      UnfoldPieces(b, n);
      if n == |b| {
        gaps := [[], []];
        OnePieceDivides(b);
      } else {
        var rest := PiecesDivide(b[n + 1..]);
        gaps := JoinGap(b, Pieces(b), b[..n], b[n], b[n + 1..], rest, Pieces(b[n + 1..]));
      }
    }
  }

  lemma {:induction false} UnfoldPieces(b: seq<Byte>, n: nat)
    requires b != [] && n == BreakAt(b)
    ensures n == |b| ==> b[..n] == b && Pieces(b) == [b]
    ensures n < |b| ==> b == b[..n] + [b[n]] + b[n + 1..]
    ensures n < |b| ==> Pieces(b) == if b[..n] == [] then Pieces(b[n + 1..]) else [b[..n]] + Pieces(b[n + 1..])
  {
    if n == |b| {
      assert b[..n] == b;
    }
  }

  lemma {:induction false} HeadIsSolid(b: seq<Byte>)
    ensures BreakAt(b) > 0 ==> Solid(b[..BreakAt(b)])
  {
  }

  lemma OnePieceDivides(b: seq<Byte>)
    requires Solid(b)
    ensures Divides(b, [[], []], [b])
  {
    var gaps: seq<seq<Byte>> := [[], []];
    assert gaps[1..] == [[]] && [b][1..] == [];
    assert Weave(gaps, [b]) == [] + b + Weave([[]], []);
  }

  lemma JoinGap(whole: seq<Byte>, all: seq<seq<Byte>>, piece: seq<Byte>, end: Byte, b: seq<Byte>, rest: seq<seq<Byte>>,
                pieces: seq<seq<Byte>>) returns (gaps: seq<seq<Byte>>)
    requires Divides(b, rest, pieces) && Break(end) && (piece != [] ==> Solid(piece))
    requires whole == piece + [end] + b && all == if piece == [] then pieces else [piece] + pieces
    ensures Divides(whole, gaps, all)
  {
    gaps := [[end] + rest[0]] + rest[1..];
    WidenDivides(end, b, rest, pieces);
    if piece == [] {
      assert piece + [end] + b == [end] + b;
    } else {
      PieceDivides(piece, [end] + b, gaps, pieces);
      gaps := [[]] + gaps;
      assert piece + [end] + b == piece + ([end] + b);
    }
  }

  lemma WidenDivides(end: Byte, b: seq<Byte>, rest: seq<seq<Byte>>, pieces: seq<seq<Byte>>)
    requires Divides(b, rest, pieces) && Break(end)
    ensures Divides([end] + b, [[end] + rest[0]] + rest[1..], pieces)
  {
    var wider := [[end] + rest[0]] + rest[1..];
    WidenFirst(end, rest, pieces);
    assert forall i :: 1 <= i < |rest| ==> wider[i] == rest[i];
    assert AllBreaks(rest[0]) && AllBreaks(wider[0]);
  }

  lemma PieceDivides(piece: seq<Byte>, b: seq<Byte>, rest: seq<seq<Byte>>, pieces: seq<seq<Byte>>)
    requires Divides(b, rest, pieces) && rest[0] != [] && Solid(piece)
    ensures Divides(piece + b, [[]] + rest, [piece] + pieces)
  {
    var gaps, all := [[]] + rest, [piece] + pieces;
    assert gaps[1..] == rest && all[1..] == pieces;
    assert Weave(gaps, all) == [] + piece + Weave(rest, pieces);
    assert forall i :: 0 < i < |gaps| ==> gaps[i] == rest[i - 1];
    assert forall i :: 0 < i < |all| ==> all[i] == pieces[i - 1];
  }

  lemma {:induction false} WidenFirst(end: Byte, rest: seq<seq<Byte>>, pieces: seq<seq<Byte>>)
    requires |rest| == |pieces| + 1
    ensures Weave([[end] + rest[0]] + rest[1..], pieces) == [end] + Weave(rest, pieces)
  {
    var wider := [[end] + rest[0]] + rest[1..];
    assert wider[0] == [end] + rest[0] && wider[1..] == rest[1..];
    if pieces != [] {
      assert ([end] + rest[0]) + pieces[0] + Weave(rest[1..], pieces[1..])
          == [end] + (rest[0] + pieces[0] + Weave(rest[1..], pieces[1..]));
    }
  }

  lemma {:induction false} BreakIs(b: seq<Byte>, n: nat)
    requires n < |b| && Break(b[n]) && forall i :: 0 <= i < n ==> !Break(b[i])
    ensures BreakAt(b) == n
    decreases n
  {
    if n > 0 {
      BreakIs(b[1..], n - 1);
    }
  }

  /** No carriage return. */
  predicate Plain(b: seq<Byte>) {
    forall i :: 0 <= i < |b| ==> b[i] != RETURN
  }

  lemma {:induction false} LineBreaksThere(b: seq<Byte>)
    requires HasLine(b) && Plain(Line(b))
    ensures BreakAt(b) == Cut(b)
  {
    var n := Cut(b);
    CutFinds(b);
    forall i | 0 <= i < n
      ensures !Break(b[i])
    {
      assert b[i] == Line(b)[i] && b[i] in b[..n];
    }
    BreakIs(b, n);
  }

  /** A first line without carriage returns is the first piece. */
  lemma {:induction false} FirstPiece(b: seq<Byte>)
    requires HasLine(b) && Plain(Line(b))
    ensures Pieces(b) == (if Line(b) == [] then [] else [Line(b)]) + Pieces(Next(b))
  {
    LineBreaksThere(b);
    CutPieces(b);
    if Cut(b) == 0 {
      assert [] + Pieces(Next(b)) == Pieces(Next(b));
    }
  }

  lemma {:induction false} CutPieces(b: seq<Byte>)
    requires HasLine(b) && BreakAt(b) == Cut(b)
    ensures Pieces(b) == if Cut(b) == 0 then Pieces(Next(b)) else [Line(b)] + Pieces(Next(b))
  {
    UnfoldPieces(b, Cut(b));
  }

  // ----- events

  /** Parses every line, or none of them. */
  function ParseAll<E>(lines: seq<seq<Byte>>, parse: seq<Byte> -> Option<E>): Result<seq<E>> {
    if lines == [] then Ok([])
    else if parse(lines[0]).None? then Err
    else
      var rest :- ParseAll(lines[1..], parse);
      Ok([parse(lines[0]).value] + rest)
  }

  datatype Scanned<E> = Waiting(events: seq<E>) | Malformed | Complete(events: seq<E>, used: nat)

  /** Takes lines one by one until the events are complete. */
  function Scan<E>(lines: seq<seq<Byte>>, events: seq<E>, used: nat, complete: seq<E> -> bool,
                   parse: seq<Byte> -> Option<E>): Scanned<E> {
    if lines == [] then Waiting(events)
    else if parse(lines[0]).None? then Malformed
    else
      var events' := events + [parse(lines[0]).value];
      if complete(events') then Complete(events', used + 1) else Scan(lines[1..], events', used + 1, complete, parse)
  }

  lemma {:induction false} ScanUses<E>(lines: seq<seq<Byte>>, events: seq<E>, used: nat, complete: seq<E> -> bool,
                                       parse: seq<Byte> -> Option<E>)
    requires Scan(lines, events, used, complete, parse).Complete?
    ensures used < Scan(lines, events, used, complete, parse).used <= used + |lines|
    decreases |lines|
  {
    var events' := events + [parse(lines[0]).value];
    if !complete(events') {
      ScanUses(lines[1..], events', used + 1, complete, parse);
    }
  }

  /** Lines that arrive later do not change a scan that has ended, and continue one that has not. */
  lemma {:induction false} ScanContinues<E>(a: seq<seq<Byte>>, b: seq<seq<Byte>>, events: seq<E>, used: nat,
                                            complete: seq<E> -> bool, parse: seq<Byte> -> Option<E>)
    ensures Scan(a + b, events, used, complete, parse) ==
            var first := Scan(a, events, used, complete, parse);
            if first.Waiting? then Scan(b, first.events, used + |a|, complete, parse) else first
    decreases |a|
  {
    if a == [] {
      assert a + b == b;
    } else {
      assert (a + b)[1..] == a[1..] + b;
      if parse(a[0]).Some? {
        ScanContinues(a[1..], b, events + [parse(a[0]).value], used + 1, complete, parse);
      }
    }
  }

  /** The events so far and those of the drained remainder. */
  function Drained<E>(events: seq<E>, remainder: seq<Byte>, parse: seq<Byte> -> Option<E>, exitCode: int): Result<seq<E>> {
    var rest :- ParseAll(Pieces(remainder), parse);
    if exitCode != 0 then Err else Ok(events + rest)
  }

  /** What observing comes to: `head` arrived in time, `tail` is drained after the process was told to stop. */
  function Observed<E>(head: seq<Byte>, tail: seq<Byte>, complete: seq<E> -> bool, parse: seq<Byte> -> Option<E>,
                       exitCode: int): Result<seq<E>> {
    match Scan(FullLines(head), [], 0, complete, parse)
    case Complete(events, used) =>
      ScanUses(FullLines(head), [], 0, complete, parse);
      Drained(events, Beyond(head, used) + tail, parse, exitCode)
    case _ => Err
  }

  // ----- observing

  /** Splits off the lines the buffer holds, stopping as soon as the events are complete. */
  method TakeLines<E>(buffer: seq<Byte>, before: seq<E>, complete: seq<E> -> bool, parse: seq<Byte> -> Option<E>,
                      ghost used: nat) returns (r: Result<bool>, buffered: seq<Byte>, events: seq<E>)
    ensures match Scan(FullLines(buffer), before, used, complete, parse)
            case Malformed => r.Err?
            case Waiting(after) => r == Ok(false) && events == after && FullLines(buffered) == []
                                   && buffered == Unfinished(buffer)
            case Complete(after, n) => r == Ok(true) && events == after && used <= n <= used + |FullLines(buffer)|
                                       && buffered == Beyond(buffer, n - used)
  {
    buffered, events := buffer, before;
    ghost var k := 0;
    while HasLine(buffered)
      invariant Scanning(buffer, before, used, buffered, events, k, complete, parse)
      decreases |buffered|
    {
      ScanStep(buffer, before, used, buffered, events, k, complete, parse);
      var event := parse(Line(buffered));
      if event.None? {
        return Err, buffered, events;
      }
      buffered := Next(buffered);
      events := events + [event.value];
      k := k + 1;
      if complete(events) {
        return Ok(true), buffered, events;
      }
    }
    r := Ok(false);
  }

  /** After `k` lines the scan of what is left comes to the same as the scan of the whole buffer. */
  ghost predicate Scanning<E>(buffer: seq<Byte>, before: seq<E>, used: nat, buffered: seq<Byte>, events: seq<E>, k: nat,
                              complete: seq<E> -> bool, parse: seq<Byte> -> Option<E>) {
    && k <= |FullLines(buffer)| && buffered == Beyond(buffer, k) && |FullLines(buffered)| == |FullLines(buffer)| - k
    && Scan(FullLines(buffer), before, used, complete, parse) == Scan(FullLines(buffered), events, used + k, complete, parse)
  }

  lemma {:induction false} ScanStep<E>(buffer: seq<Byte>, before: seq<E>, used: nat, buffered: seq<Byte>, events: seq<E>, k: nat,
                    complete: seq<E> -> bool, parse: seq<Byte> -> Option<E>)
    requires Scanning(buffer, before, used, buffered, events, k, complete, parse) && HasLine(buffered)
    ensures k < |FullLines(buffer)| && Next(buffered) == Beyond(buffer, k + 1)
    ensures parse(Line(buffered)).None? ==> Scan(FullLines(buffer), before, used, complete, parse) == Malformed
    ensures parse(Line(buffered)).Some? ==>
              var events' := events + [parse(Line(buffered)).value];
              if complete(events') then Scan(FullLines(buffer), before, used, complete, parse) == Complete(events', used + k + 1)
              else Scanning(buffer, before, used, Next(buffered), events', k + 1, complete, parse)
  {
    BeyondNext(buffer, k);
    ScanNext(buffered, events, used + k, complete, parse);
  }

  lemma ScanNext<E>(b: seq<Byte>, events: seq<E>, used: nat, complete: seq<E> -> bool, parse: seq<Byte> -> Option<E>)
    requires HasLine(b)
    ensures Scan(FullLines(b), events, used, complete, parse) ==
            if parse(Line(b)).None? then Malformed
            else
              var events' := events + [parse(Line(b)).value];
              if complete(events') then Complete(events', used + 1)
              else Scan(FullLines(Next(b)), events', used + 1, complete, parse)
  {
    assert FullLines(b)[0] == Line(b) && FullLines(b)[1..] == FullLines(Next(b));
  }

  lemma {:induction false} BeyondNext(b: seq<Byte>, k: nat)
    requires k <= |FullLines(b)| && HasLine(Beyond(b, k))
    ensures k < |FullLines(b)| && Beyond(b, k + 1) == Next(Beyond(b, k))
    decreases k
  {
    if k > 0 {
      BeyondNext(Next(b), k - 1);
    }
  }

  lemma {:induction false} ScanJoined<E>(lines: seq<seq<Byte>>, a: seq<seq<Byte>>, b: seq<seq<Byte>>, events: seq<E>,
                      complete: seq<E> -> bool, parse: seq<Byte> -> Option<E>)
    requires a + b == lines && Scan(a, [], 0, complete, parse) == Waiting(events)
    ensures Scan(lines, [], 0, complete, parse) == Scan(b, events, |a|, complete, parse) && |lines| == |a| + |b|
  {
    ScanContinues(a, b, [], 0, complete, parse);
  }

  /** A chunk that holds no complete evidence leaves its unfinished line for the next. */
  lemma {:induction false} ChunkWaits<E>(head: seq<Byte>, chunk: seq<Byte>, buffered: seq<Byte>, events: seq<E>, complete: seq<E> -> bool,
                      parse: seq<Byte> -> Option<E>)
    requires Scan(FullLines(head), [], 0, complete, parse) == Waiting(events)
    requires buffered == Unfinished(head)
    ensures Scan(FullLines(head + chunk), [], 0, complete, parse)
         == Scan(FullLines(buffered + chunk), events, |FullLines(head)|, complete, parse)
    ensures |FullLines(head + chunk)| == |FullLines(head)| + |FullLines(buffered + chunk)|
  {
    LinesAppend(head, chunk);
    ScanJoined(FullLines(head + chunk), FullLines(head), FullLines(buffered + chunk), events, complete, parse);
  }

  lemma {:induction false} BeyondSplits(head: seq<Byte>, chunk: seq<Byte>, n: nat, k: nat)
    requires n == |FullLines(head)| && k <= |FullLines(Unfinished(head) + chunk)|
    ensures n + k <= |FullLines(head + chunk)| && Beyond(head + chunk, n + k) == Beyond(Unfinished(head) + chunk, k)
    decreases n
  {
    if n > 0 {
      FirstLineAppends(head, chunk);
      assert Unfinished(head) == Unfinished(Next(head));
      BeyondSplits(Next(head), chunk, n - 1, k);
    }
  }

  /** Bytes that arrive after the scan has ended change nothing but what is drained. */
  lemma {:induction false} LaterBytes<E>(head: seq<Byte>, more: seq<Byte>, complete: seq<E> -> bool, parse: seq<Byte> -> Option<E>)
    requires !Scan(FullLines(head), [], 0, complete, parse).Waiting?
    ensures Scan(FullLines(head + more), [], 0, complete, parse) == Scan(FullLines(head), [], 0, complete, parse)
  {
    LinesAppend(head, more);
    ScanContinues(FullLines(head), FullLines(Unfinished(head) + more), [], 0, complete, parse);
  }

  /** The evidence is complete, and the buffer holds what was read beyond it. */
  ghost predicate Reached<E>(head: seq<Byte>, buffered: seq<Byte>, events: seq<E>, complete: seq<E> -> bool,
                             parse: seq<Byte> -> Option<E>) {
    var scanned := Scan(FullLines(head), [], 0, complete, parse);
    && scanned.Complete? && scanned.events == events && scanned.used <= |FullLines(head)|
    && buffered == Beyond(head, scanned.used)
  }

  lemma ReachedThen<E>(head: seq<Byte>, buffered: seq<Byte>, events: seq<E>, more: seq<Byte>, complete: seq<E> -> bool,
                       parse: seq<Byte> -> Option<E>)
    requires Reached(head, buffered, events, complete, parse)
    ensures Reached(head + more, buffered + more, events, complete, parse)
  {
    LaterBytes(head, more, complete, parse);
    BeyondAppends(head, more, Scan(FullLines(head), [], 0, complete, parse).used);
  }

  lemma ReachedObserves<E>(head: seq<Byte>, buffered: seq<Byte>, events: seq<E>, tail: seq<Byte>,
                           complete: seq<E> -> bool, parse: seq<Byte> -> Option<E>, exitCode: int)
    requires Reached(head, buffered, events, complete, parse)
    ensures Observed(head, tail, complete, parse, exitCode) == Drained(events, buffered + tail, parse, exitCode)
  {
  }

  lemma DrainAfter<E>(head: seq<Byte>, buffered: seq<Byte>, events: seq<E>, more: seq<Byte>, tail: seq<Byte>,
                      complete: seq<E> -> bool, parse: seq<Byte> -> Option<E>, exitCode: int)
    requires Reached(head, buffered, events, complete, parse)
    ensures Observed(head, more + tail, complete, parse, exitCode) == Observed(head + more, tail, complete, parse, exitCode)
  {
    ReachedThen(head, buffered, events, more, complete, parse);
    ReachedObserves(head, buffered, events, more + tail, complete, parse, exitCode);
    ReachedObserves(head + more, buffered + more, events, tail, complete, parse, exitCode);
    assert buffered + (more + tail) == buffered + more + tail;
  }

  /** Once the scan has ended, it does not matter how much of the rest was read before the drain. */
  lemma {:induction false} DrainJoins<E>(head: seq<Byte>, more: seq<Byte>, tail: seq<Byte>, complete: seq<E> -> bool,
                      parse: seq<Byte> -> Option<E>, exitCode: int)
    requires !Scan(FullLines(head), [], 0, complete, parse).Waiting?
    ensures Observed(head, more + tail, complete, parse, exitCode) == Observed(head + more, tail, complete, parse, exitCode)
  {
    var scanned := Scan(FullLines(head), [], 0, complete, parse);
    if scanned.Complete? {
      ScanUses(FullLines(head), [], 0, complete, parse);
      DrainAfter(head, Beyond(head, scanned.used), scanned.events, more, tail, complete, parse, exitCode);
    } else {
      LaterBytes(head, more, complete, parse);
    }
  }

  /** The evidence is still incomplete, and the buffer holds the unfinished line. */
  ghost predicate Pending<E>(head: seq<Byte>, buffered: seq<Byte>, events: seq<E>, complete: seq<E> -> bool,
                             parse: seq<Byte> -> Option<E>) {
    Scan(FullLines(head), [], 0, complete, parse) == Waiting(events) && buffered == Unfinished(head)
  }

  method TakeChunk<E>(before: seq<Byte>, chunk: seq<Byte>, seen: seq<E>, complete: seq<E> -> bool,
                      parse: seq<Byte> -> Option<E>, ghost head: seq<Byte>)
    returns (r: Result<bool>, buffered: seq<Byte>, events: seq<E>)
    requires Pending(head, before, seen, complete, parse)
    ensures r.Err? ==> Scan(FullLines(head + chunk), [], 0, complete, parse).Malformed?
    ensures r.Ok? && !r.value ==> Pending(head + chunk, buffered, events, complete, parse)
    ensures r.Ok? && r.value ==> Reached(head + chunk, buffered, events, complete, parse)
  {
    ghost var n := |FullLines(head)|;
    ChunkWaits(head, chunk, before, seen, complete, parse);
    r, buffered, events := TakeLines(before + chunk, seen, complete, parse, n);
    ghost var scanned := Scan(FullLines(head + chunk), [], 0, complete, parse);
    if r == Ok(false) {
      BeyondSplits(head, chunk, n, |FullLines(before + chunk)|);
    } else if r == Ok(true) {
      BeyondSplits(head, chunk, n, scanned.used - n);
    }
  }

  /** The chunks read so far, of which the last one completed the evidence. */
  ghost predicate StopsAt<E>(chunks: seq<seq<Byte>>, read: nat, complete: seq<E> -> bool, parse: seq<Byte> -> Option<E>) {
    && 0 < read <= |chunks|
    && Scan(FullLines(Concat(chunks[..read])), [], 0, complete, parse).Complete?
    && Scan(FullLines(Concat(chunks[..read - 1])), [], 0, complete, parse).Waiting?
  }

  lemma ChunkAdds(chunks: seq<seq<Byte>>, n: nat)
    requires n < |chunks|
    ensures Concat(chunks[..n + 1]) == Concat(chunks[..n]) + chunks[n]
  {
    assert chunks[..n + 1] == chunks[..n] + [chunks[n]] && Concat([chunks[n]]) == chunks[n];
    ConcatJoin(chunks[..n], [chunks[n]]);
  }

  lemma {:induction false} ChunksSplit(chunks: seq<seq<Byte>>, n: nat)
    requires n <= |chunks|
    ensures Concat(chunks) == Concat(chunks[..n]) + Concat(chunks[n..])
  {
    assert chunks == chunks[..n] + chunks[n..];
    ConcatJoin(chunks[..n], chunks[n..]);
  }

  method Until<E>(chunks: seq<seq<Byte>>, tail: seq<Byte>, complete: seq<E> -> bool, parse: seq<Byte> -> Option<E>,
                  exitCode: int) returns (r: Result<seq<E>>, read: nat)
    ensures r == Observed(Concat(chunks), tail, complete, parse, exitCode)
    ensures r.Ok? ==> StopsAt(chunks, read, complete, parse)
  {
    var buffered: seq<Byte>, events: seq<E> := [], [];
    read := 0;
    while read < |chunks|
      invariant read <= |chunks| && Pending(Concat(chunks[..read]), buffered, events, complete, parse)
    {
      ghost var head := Concat(chunks[..read]) + chunks[read];
      var taken: Result<bool>;
      taken, buffered, events := TakeChunk(buffered, chunks[read], events, complete, parse, Concat(chunks[..read]));
      ChunkAdds(chunks, read);
      read := read + 1;
      ChunksSplit(chunks, read);
      if taken.Err? {
        DrainJoins(head, Concat(chunks[read..]), tail, complete, parse, exitCode);
        return Err, read;
      }
      if taken.value {
        var unread := Concat(chunks[read..]) + tail;
        DrainJoins(head, Concat(chunks[read..]), tail, complete, parse, exitCode);
        ReachedObserves(head, buffered, events, unread, complete, parse, exitCode);
        return Drained(events, buffered + unread, parse, exitCode), read;
      }
    }
    assert chunks[..|chunks|] == chunks;
    r := Err;
  }

  // ----- what an observation shows

  /** How the output was cut, and where reading gave way to draining, does not show in the events. */
  lemma {:induction false} ChunkingIsInvisible<E>(head: seq<Byte>, tail: seq<Byte>, head': seq<Byte>, tail': seq<Byte>,
                               complete: seq<E> -> bool, parse: seq<Byte> -> Option<E>, exitCode: int)
    requires head + tail == head' + tail'
    requires !Scan(FullLines(head), [], 0, complete, parse).Waiting?
    requires !Scan(FullLines(head'), [], 0, complete, parse).Waiting?
    ensures Observed(head, tail, complete, parse, exitCode) == Observed(head', tail', complete, parse, exitCode)
  {
    if |head| <= |head'| {
      var more := LongerHead(head, tail, head', tail');
      DrainJoins(head, more, tail', complete, parse, exitCode);
    } else {
      var more := LongerHead(head', tail', head, tail);
      DrainJoins(head', more, tail, complete, parse, exitCode);
    }
  }

  /** Of two ways to cut one stream, the longer head begins with the shorter. */
  lemma LongerHead(head: seq<Byte>, tail: seq<Byte>, head': seq<Byte>, tail': seq<Byte>) returns (more: seq<Byte>)
    requires head + tail == head' + tail' && |head| <= |head'|
    ensures head' == head + more && tail == more + tail'
  {
    more := head'[|head|..];
    assert head' == (head' + tail')[..|head'|] && head == (head + tail)[..|head|];
    assert tail == (head + tail)[|head|..] && more + tail' == (head' + tail')[|head|..];
  }

  lemma {:induction false} ParseBoth<E>(a: seq<seq<Byte>>, b: seq<seq<Byte>>, parse: seq<Byte> -> Option<E>)
    requires ParseAll(a, parse).Ok? && ParseAll(b, parse).Ok?
    ensures ParseAll(a + b, parse) == Ok(ParseAll(a, parse).value + ParseAll(b, parse).value)
    decreases |a|
  {
    if a == [] {
      assert a + b == b;
      assert ParseAll(a, parse).value + ParseAll(b, parse).value == ParseAll(b, parse).value;
    } else {
      assert (a + b)[0] == a[0] && (a + b)[1..] == a[1..] + b;
      ParseBoth(a[1..], b, parse);
      var first, x, y := [parse(a[0]).value], ParseAll(a[1..], parse).value, ParseAll(b, parse).value;
      assert first + (x + y) == first + x + y;
    }
  }

  /** The scan's events are its lines, in order; the last one completed them and no earlier one did. */
  lemma {:induction false} ScanEvents<E>(lines: seq<seq<Byte>>, events: seq<E>, used: nat, complete: seq<E> -> bool,
                                         parse: seq<Byte> -> Option<E>, k: nat)
    requires Scan(lines, events, used, complete, parse).Complete?
    requires k == Scan(lines, events, used, complete, parse).used - used
    ensures 0 < k <= |lines| && ParseAll(lines[..k], parse).Ok? && |ParseAll(lines[..k], parse).value| == k
    ensures var parsed := ParseAll(lines[..k], parse).value;
            && Scan(lines, events, used, complete, parse).events == events + parsed && complete(events + parsed)
            && forall i :: 1 <= i < k ==> !complete(events + parsed[..i])
    decreases |lines|
  {
    var events' := events + [parse(lines[0]).value];
    ScanUses(lines, events, used, complete, parse);
    assert lines[..k][1..] == lines[1..][..k - 1];
    if complete(events') {
      assert lines[..1] == [lines[0]] && lines[..1][1..] == [];
    } else {
      ScanEvents(lines[1..], events', used + 1, complete, parse, k - 1);
      var rest := ParseAll(lines[1..][..k - 1], parse).value;
      var parsed := ParseAll(lines[..k], parse).value;
      assert parsed == [parse(lines[0]).value] + rest;
      assert events + parsed == events' + rest;
      forall i | 1 <= i < k
        ensures !complete(events + parsed[..i])
      {
        assert events + parsed[..i] == events' + rest[..i - 1];
      }
    }
  }

  predicate NoneBlank(lines: seq<seq<Byte>>) {
    lines == [] || (lines[0] != [] && NoneBlank(lines[1..]))
  }

  lemma {:induction false} ParsedAreNonblank<E>(lines: seq<seq<Byte>>, parse: seq<Byte> -> Option<E>)
    requires parse([]).None? && ParseAll(lines, parse).Ok?
    ensures NoneBlank(lines)
    decreases |lines|
  {
    if lines != [] {
      ParsedAreNonblank(lines[1..], parse);
    }
  }

  /** The first `k` lines are nonblank and without carriage returns. */
  predicate Clean(b: seq<Byte>, k: nat)
    requires k <= |FullLines(b)|
    decreases |b|
  {
    k == 0 || (Line(b) != [] && Plain(Line(b)) && Clean(Next(b), k - 1))
  }

  function Taken(b: seq<Byte>, k: nat): seq<seq<Byte>>
    requires k <= |FullLines(b)|
    decreases |b|
  {
    if k == 0 then [] else [Line(b)] + Taken(Next(b), k - 1)
  }

  lemma {:induction false} TakenAreLines(b: seq<Byte>, k: nat)
    requires k <= |FullLines(b)|
    ensures Taken(b, k) == FullLines(b)[..k]
    decreases |b|
  {
    if k > 0 {
      TakenAreLines(Next(b), k - 1);
      assert FullLines(b)[..k] == [Line(b)] + FullLines(Next(b))[..k - 1];
    }
  }

  lemma {:induction false} CleanTaken(b: seq<Byte>, k: nat)
    requires Plain(b) && k <= |FullLines(b)| && NoneBlank(Taken(b, k))
    ensures Clean(b, k)
    decreases |b|
  {
    if k > 0 {
      assert Taken(b, k)[0] == Line(b) && Taken(b, k)[1..] == Taken(Next(b), k - 1);
      CleanTaken(Next(b), k - 1);
    }
  }

  lemma {:induction false} LineIsPiece(b: seq<Byte>, tail: seq<Byte>)
    requires HasLine(b) && Line(b) != [] && Plain(Line(b))
    ensures Pieces(b + tail) == [Line(b)] + Pieces(Next(b) + tail)
  {
    FirstLineAppends(b, tail);
    FirstPiece(b + tail);
  }

  /** The first `k` lines before other pieces. */
  function Prepend(b: seq<Byte>, k: nat, rest: seq<seq<Byte>>): seq<seq<Byte>>
    requires k <= |FullLines(b)|
    decreases |b|
  {
    if k == 0 then rest else [Line(b)] + Prepend(Next(b), k - 1, rest)
  }

  lemma {:induction false} PrependTaken(b: seq<Byte>, k: nat, rest: seq<seq<Byte>>)
    requires k <= |FullLines(b)|
    ensures Prepend(b, k, rest) == Taken(b, k) + rest
    decreases |b|
  {
    if k > 0 {
      PrependTaken(Next(b), k - 1, rest);
      JoinFirst(Line(b), Taken(Next(b), k - 1), rest);
    }
  }

  lemma JoinFirst(line: seq<Byte>, lines: seq<seq<Byte>>, rest: seq<seq<Byte>>)
    ensures [line] + (lines + rest) == [line] + lines + rest
  {
  }

  /** Cutting off clean lines cuts off as many pieces. */
  lemma {:induction false} LinesArePieces(b: seq<Byte>, tail: seq<Byte>, k: nat)
    requires k <= |FullLines(b)| && Clean(b, k)
    ensures Pieces(b + tail) == Prepend(b, k, Pieces(Beyond(b, k) + tail))
    decreases k
  {
    if k > 0 {
      var rest := Pieces(Beyond(b, k) + tail);
      assert Beyond(b, k) == Beyond(Next(b), k - 1);
      LinesArePieces(Next(b), tail, k - 1);
      assert Pieces(Next(b) + tail) == Prepend(Next(b), k - 1, rest);
      LineIsPiece(b, tail);
    }
  }

  /** On output without carriage returns, success returns every nonblank line once and in order. */
  lemma {:induction false} EveryLineOnce<E>(head: seq<Byte>, tail: seq<Byte>, complete: seq<E> -> bool, parse: seq<Byte> -> Option<E>,
                         exitCode: int)
    requires Plain(head) && parse([]).None?
    requires Observed(head, tail, complete, parse, exitCode).Ok?
    ensures Observed(head, tail, complete, parse, exitCode) == ParseAll(Pieces(head + tail), parse)
  {
    var lines := FullLines(head);
    var k := Scan(lines, [], 0, complete, parse).used;
    ScanEvents(lines, [], 0, complete, parse, k);
    LinesThenPieces(head, tail, k, parse);
    ParseBoth(lines[..k], Pieces(Beyond(head, k) + tail), parse);
    assert [] + ParseAll(lines[..k], parse).value == ParseAll(lines[..k], parse).value;
  }

  /** Lines that were parsed are the first pieces of the whole output. */
  lemma {:induction false} LinesThenPieces<E>(head: seq<Byte>, tail: seq<Byte>, k: nat, parse: seq<Byte> -> Option<E>)
    requires Plain(head) && parse([]).None? && k <= |FullLines(head)| && ParseAll(FullLines(head)[..k], parse).Ok?
    ensures Pieces(head + tail) == FullLines(head)[..k] + Pieces(Beyond(head, k) + tail)
  {
    ParsedAreNonblank(FullLines(head)[..k], parse);
    TakenAreLines(head, k);
    CleanTaken(head, k);
    LinesArePieces(head, tail, k);
    PrependTaken(head, k, Pieces(Beyond(head, k) + tail));
  }

  /** The first so many lines all parse, and make up complete evidence. */
  ghost predicate CompleteAt<E>(lines: seq<seq<Byte>>, events: seq<E>, k: nat, complete: seq<E> -> bool,
                                parse: seq<Byte> -> Option<E>) {
    0 < k <= |lines| && ParseAll(lines[..k], parse).Ok? && complete(events + ParseAll(lines[..k], parse).value)
  }

  lemma {:induction false} ScanStops<E>(lines: seq<seq<Byte>>, events: seq<E>, used: nat, complete: seq<E> -> bool,
                                        parse: seq<Byte> -> Option<E>, k: nat)
    requires CompleteAt(lines, events, k, complete, parse)
    ensures Scan(lines, events, used, complete, parse).Complete?
    decreases |lines|
  {
    assert lines[..k][0] == lines[0] && lines[..k][1..] == lines[1..][..k - 1];
    var events' := events + [parse(lines[0]).value];
    var rest := ParseAll(lines[1..][..k - 1], parse).value;
    assert events + ([parse(lines[0]).value] + rest) == events' + rest;
    assert k == 1 ==> events' + rest == events';
    if !complete(events') {
      ScanStops(lines[1..], events', used + 1, complete, parse, k - 1);
    }
  }

  lemma {:induction false} ParseRest<E>(a: seq<seq<Byte>>, b: seq<seq<Byte>>, parse: seq<Byte> -> Option<E>)
    requires ParseAll(a, parse).Ok?
    ensures ParseAll(a + b, parse).Ok? <==> ParseAll(b, parse).Ok?
    decreases |a|
  {
    if a == [] {
      assert a + b == b;
    } else {
      assert (a + b)[0] == a[0] && (a + b)[1..] == a[1..] + b;
      ParseRest(a[1..], b, parse);
    }
  }

  /** On such output, observing succeeds exactly if the process ends well, its lines come to complete evidence, and every one parses. */
  lemma {:induction false} SuccessMeans<E>(head: seq<Byte>, tail: seq<Byte>, complete: seq<E> -> bool,
                                           parse: seq<Byte> -> Option<E>, exitCode: int)
    requires Plain(head) && parse([]).None?
    ensures Observed(head, tail, complete, parse, exitCode).Ok? <==>
            && exitCode == 0 && ParseAll(Pieces(head + tail), parse).Ok?
            && exists k :: CompleteAt(FullLines(head), [], k, complete, parse)
  {
    var lines := FullLines(head);
    var scanned := Scan(lines, [], 0, complete, parse);
    if scanned.Complete? {
      ScanEvents(lines, [], 0, complete, parse, scanned.used);
      assert CompleteAt(lines, [], scanned.used, complete, parse);
      LinesThenPieces(head, tail, scanned.used, parse);
      ParseRest(lines[..scanned.used], Pieces(Beyond(head, scanned.used) + tail), parse);
    } else if k :| CompleteAt(lines, [], k, complete, parse) {
      ScanStops(lines, [], 0, complete, parse, k);
    }
  }
}
