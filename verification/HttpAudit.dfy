/**
 The recovery audit: acknowledged records are read from a stream and checked by a bounded number of concurrent tasks.
 */
module HttpAudit {
  import opened Results
  import opened ByteStreams

  // ----- framing

  const MAX_OBSERVATION_BYTES: nat := 64 * 1024

  /** The length of the first line, its newline included. */
  function LineLength(bytes: seq<Byte>): (n: nat)
    ensures n <= |bytes| && (bytes != [] ==> n > 0)
  {
    if HasLine(bytes) then Cut(bytes) + 1 else |bytes|
  }

  function Lines(bytes: seq<Byte>): seq<seq<Byte>> {
    if bytes == [] then [] else [bytes[..LineLength(bytes)]] + Lines(bytes[LineLength(bytes)..])
  }

  /** A line ends at its only newline, or without one at the end of the stream. */
  predicate IsLine(line: seq<Byte>) {
    line != [] && forall i :: 0 <= i < |line| - 1 ==> line[i] != NEWLINE
  }

  predicate Terminated(line: seq<Byte>) {
    line != [] && line[|line| - 1] == NEWLINE
  }

  lemma FirstIsLine(bytes: seq<Byte>)
    requires bytes != []
    ensures IsLine(bytes[..LineLength(bytes)])
    ensures LineLength(bytes) < |bytes| ==> bytes[LineLength(bytes) - 1] == NEWLINE
  {
    CutFinds(bytes);
    forall i | 0 <= i < Cut(bytes)
      ensures bytes[i] != NEWLINE
    {
      assert bytes[..Cut(bytes)][i] == bytes[i];
    }
  }

  /** The lines are the stream, cut after each newline. */
  lemma {:induction false} LinesPartition(bytes: seq<Byte>)
    ensures Concat(Lines(bytes)) == bytes
    ensures forall i :: 0 <= i < |Lines(bytes)| ==> IsLine(Lines(bytes)[i])
    ensures forall i :: 0 <= i < |Lines(bytes)| - 1 ==> Terminated(Lines(bytes)[i])
    decreases |bytes|
  {
    if bytes != [] {
      var n := LineLength(bytes);
      FirstIsLine(bytes);
      LinesPartition(bytes[n..]);
      assert bytes == bytes[..n] + bytes[n..];
      assert Lines(bytes)[1..] == Lines(bytes[n..]);
      if n == |bytes| {
        assert Lines(bytes[n..]) == [];
      }
    }
  }

  // ----- reading records

  datatype Order = Order(id: int, totalCents: int, value: string)

  datatype Receipt = Receipt(cell: string, incarnation: string, sequence: nat)

  /** An acknowledged write, and whether it carries its original request. */
  datatype Observation = Observation(output: Order, receipt: Receipt, hasRequest: bool)

  /** The record on one line, if the line is short enough, parses, and carries its original request. */
  function Record(line: seq<Byte>, parse: seq<Byte> -> Option<Observation>): Option<Observation> {
    if |line| > MAX_OBSERVATION_BYTES then None
    else if parse(line).Some? && parse(line).value.hasRequest then parse(line)
    else None
  }

  /** The records up to the first line that is not one. */
  function Records(lines: seq<seq<Byte>>, parse: seq<Byte> -> Option<Observation>): seq<Observation> {
    if lines == [] || Record(lines[0], parse).None? then []
    else [Record(lines[0], parse).value] + Records(lines[1..], parse)
  }

  predicate AllRecords(lines: seq<seq<Byte>>, parse: seq<Byte> -> Option<Observation>) {
    forall i :: 0 <= i < |lines| ==> Record(lines[i], parse).Some?
  }

  /** Nothing is skipped: the records are as many as the lines exactly if every line is one. */
  lemma {:induction false} RecordsAreLines(lines: seq<seq<Byte>>, parse: seq<Byte> -> Option<Observation>)
    ensures |Records(lines, parse)| <= |lines|
    ensures |Records(lines, parse)| == |lines| <==> AllRecords(lines, parse)
    ensures forall i :: 0 <= i < |Records(lines, parse)| ==> Record(lines[i], parse) == Some(Records(lines, parse)[i])
    ensures |Records(lines, parse)| < |lines| ==> Record(lines[|Records(lines, parse)|], parse).None?
    decreases |lines|
  {
    if lines != [] {
      RecordsAreLines(lines[1..], parse);
      assert forall i :: 1 <= i < |lines| ==> lines[i] == lines[1..][i - 1];
    }
  }

  class Reader {
    const data: seq<Byte>
    var pos: nat

    ghost predicate Valid()
      reads this
    {
      pos <= |data|
    }

    constructor (bytes: seq<Byte>)
      ensures Valid() && data == bytes && pos == 0
    {
      data, pos := bytes, 0;
    }

    /** Takes bytes up to and including a newline, and never more than `limit`. */
    method ReadUntilNewline(limit: nat) returns (bytes: seq<Byte>)
      requires Valid()
      modifies this
      ensures Valid() && pos == old(pos) + |bytes|
      ensures bytes == data[old(pos)..][..if LineLength(data[old(pos)..]) <= limit then LineLength(data[old(pos)..]) else limit]
    {
      ghost var start, rest := pos, data[pos..];
      bytes := [];
      while pos < |data| && |bytes| < limit
        invariant Valid() && pos == start + |bytes| && |bytes| <= limit
        invariant bytes == rest[..|bytes|]
        invariant LineLength(rest) == |bytes| + LineLength(rest[|bytes|..])
      {
        var b := data[pos];
        assert rest[|bytes|..][0] == b && rest[|bytes|..][1..] == rest[|bytes| + 1..];
        bytes := bytes + [b];
        pos := pos + 1;
        if b == NEWLINE {
          return;
        }
      }
    }

    /** The next record, nothing at the end of the stream, or a refusal. */
    method ReadObservation(parse: seq<Byte> -> Option<Observation>) returns (r: Result<Option<Observation>>)
      requires Valid()
      modifies this
      ensures Valid()
      ensures var rest := old(data[pos..]);
              if rest == [] then r == Ok(None)
              else
                var n := LineLength(rest);
                var record := Record(rest[..n], parse);
                if record.None? then r.Err? else r == Ok(record) && data[pos..] == rest[n..]
    {
      ghost var rest := data[pos..];
      var bytes := ReadUntilNewline(MAX_OBSERVATION_BYTES + 1);
      if |bytes| == 0 {
        return Ok(None);
      }
      if |bytes| > MAX_OBSERVATION_BYTES {
        return Err;
      }
      assert bytes == rest[..LineLength(rest)];
      var observation := parse(bytes);
      if observation.None? || !observation.value.hasRequest {
        return Err;
      }
      assert data[pos..] == rest[LineLength(rest)..];
      r := Ok(observation);
    }
  }

  /** The records so far, and those still in the rest of the stream, are all of them. */
  ghost predicate ReadSoFar(records: seq<Observation>, rest: seq<Byte>, lines: seq<seq<Byte>>,
                            parse: seq<Byte> -> Option<Observation>) {
    && Records(lines, parse) == records + Records(Lines(rest), parse)
    && (AllRecords(lines, parse) <==> AllRecords(Lines(rest), parse))
  }

  lemma {:induction false} ReadNext(records: seq<Observation>, rest: seq<Byte>, lines: seq<seq<Byte>>,
                                    parse: seq<Byte> -> Option<Observation>)
    requires ReadSoFar(records, rest, lines, parse) && rest != []
    ensures var n := LineLength(rest);
            var record := Record(rest[..n], parse);
            if record.None? then Records(lines, parse) == records && !AllRecords(lines, parse)
            else ReadSoFar(records + [record.value], rest[n..], lines, parse)
  {
    StepRecords(rest, parse);
    var record := Record(rest[..LineLength(rest)], parse);
    if record.Some? {
      Regroup(records, record.value, Records(Lines(rest[LineLength(rest)..]), parse));
    }
  }

  lemma Regroup(a: seq<Observation>, b: Observation, c: seq<Observation>)
    ensures a + ([b] + c) == (a + [b]) + c
  {
  }

  lemma {:induction false} ReadDone(records: seq<Observation>, lines: seq<seq<Byte>>, parse: seq<Byte> -> Option<Observation>)
    requires ReadSoFar(records, [], lines, parse)
    ensures Records(lines, parse) == records && AllRecords(lines, parse)
  {
  }

  /** Reads until the end or the first refusal; what was read before a refusal has already been handed on. */
  method ReadAll(bytes: seq<Byte>, parse: seq<Byte> -> Option<Observation>) returns (ok: bool, records: seq<Observation>)
    ensures records == Records(Lines(bytes), parse)
    ensures ok <==> AllRecords(Lines(bytes), parse)
  {
    var reader := new Reader(bytes);
    records := [];
    ghost var lines := Lines(bytes);
    assert bytes[0..] == bytes;
    while true
      invariant reader.Valid() && reader.data == bytes
      invariant ReadSoFar(records, bytes[reader.pos..], lines, parse)
      decreases |bytes| - reader.pos
    {
      ghost var rest := bytes[reader.pos..];
      var next := reader.ReadObservation(parse);
      if rest != [] {
        ReadNext(records, rest, lines, parse);
      } else {
        ReadDone(records, lines, parse);
      }
      if next.Err? {
        return false, records;
      }
      if next.value.None? {
        return true, records;
      }
      records := records + [next.value.value];
    }
  }

  lemma {:induction false} StepRecords(rest: seq<Byte>, parse: seq<Byte> -> Option<Observation>)
    ensures rest != [] ==>
            var n := LineLength(rest);
            var record := Record(rest[..n], parse);
            && n > 0 && Lines(rest) == [rest[..n]] + Lines(rest[n..])
            && (record.None? ==> Records(Lines(rest), parse) == [] && !AllRecords(Lines(rest), parse))
            && (record.Some? ==>
                  && Records(Lines(rest), parse) == [record.value] + Records(Lines(rest[n..]), parse)
                  && (AllRecords(Lines(rest), parse) <==> AllRecords(Lines(rest[n..]), parse)))
  {
    if rest != [] {
      var n := LineLength(rest);
      var tail := Lines(rest[n..]);
      assert Lines(rest)[0] == rest[..n] && Lines(rest)[1..] == tail;
      assert forall i :: 0 <= i < |tail| ==> Lines(rest)[i + 1] == tail[i];
    }
  }

  // ----- bounded concurrent checking

  const IN_FLIGHT: nat := 128

  const KEPT_ERRORS: nat := 4

  /** The row read back. */
  datatype Row = Refused(error: string) | Shown(output: Order, receipt: Receipt)

  /** What a repeated request returns; a field that is absent or of another shape is None. */
  datatype Retry = Rejected(error: string)
                 | Stored(output: Option<Order>, cell: Option<string>, sequence: Option<nat>, incarnation: Option<string>)

  datatype Replies = Replies(row: Row, retry: Retry)

  datatype Fault = Transport(error: string) | RowDiffers(id: int) | RetryDiffers(id: int)

  /** What one task's exchange with the server came to. */
  datatype Outcome = Passed(changed: bool) | Failed(error: Fault)

  /** One task: read the row, then repeat the request; a cold restart may have changed the incarnation. */
  function Exchange(expected: Observation, replies: Replies, cold: bool): Outcome {
    match replies.row
    case Refused(error) => Failed(Transport(error))
    case Shown(output, receipt) =>
      if output != expected.output || receipt.cell != expected.receipt.cell
         || receipt.sequence < expected.receipt.sequence
         || (!cold && receipt.incarnation != expected.receipt.incarnation)
      then Failed(RowDiffers(expected.output.id))
      else
        match replies.retry
        case Rejected(error) => Failed(Transport(error))
        case Stored(output, cell, sequence, incarnation) =>
          if output != Some(expected.output) || cell != Some(expected.receipt.cell)
             || sequence != Some(expected.receipt.sequence)
             || (!cold && incarnation != Some(expected.receipt.incarnation))
          then Failed(RetryDiffers(expected.output.id))
          else Passed(receipt.incarnation != expected.receipt.incarnation)
  }

  /** The server still has the write: the row shows it no earlier than acknowledged, and a retry repeats its receipt. */
  predicate Recovered(expected: Observation, replies: Replies, cold: bool) {
    && replies.row.Shown? && replies.retry.Stored?
    && replies.row.output == expected.output && replies.retry.output == Some(expected.output)
    && replies.row.receipt.cell == expected.receipt.cell && replies.retry.cell == Some(expected.receipt.cell)
    && replies.retry.sequence == Some(expected.receipt.sequence)
    && expected.receipt.sequence <= replies.row.receipt.sequence
    && (cold || (replies.retry.incarnation == Some(expected.receipt.incarnation)
                 && replies.row.receipt.incarnation == expected.receipt.incarnation))
  }

  /** The write is recovered, in another incarnation. */
  predicate Moved(expected: Observation, replies: Replies, cold: bool) {
    Recovered(expected, replies, cold) && replies.row.receipt.incarnation != expected.receipt.incarnation
  }

  datatype Counts = Counts(checked: nat, retries: nat, errors: nat, changed: nat, first: seq<Fault>)

  function CountsOf(o: Outcome): Counts {
    match o
    case Passed(changed) => Counts(1, 1, 0, if changed then 1 else 0, [])
    case Failed(error) => Counts(1, 0, 1, 0, [error])
  }

  class Totals {
    var checked: nat
    var retries: nat
    var errors: nat
    var changed: nat
    var first: seq<Fault>

    constructor ()
      ensures Value() == Counts(0, 0, 0, 0, [])
    {
      checked, retries, errors, changed, first := 0, 0, 0, 0, [];
    }

    function Value(): Counts
      reads this
    {
      Counts(checked, retries, errors, changed, first)
    }

    /** Adds the counts and keeps errors only up to the bound. */
    method Merge(c: Counts)
      modifies this
      ensures checked == old(checked) + c.checked && retries == old(retries) + c.retries
      ensures errors == old(errors) + c.errors && changed == old(changed) + c.changed
      ensures old(first) <= first && first[|old(first)|..] <= c.first
      ensures |first| == |old(first)| + Least(|c.first|, Room(|old(first)|))
    {
      checked, retries := checked + c.checked, retries + c.retries;
      errors, changed := errors + c.errors, changed + c.changed;
      first := first + c.first[..Least(|c.first|, Room(|first|))];
    }
  }

  function Least(a: nat, b: nat): nat {
    if a < b then a else b
  }

  /** How many more errors may be kept. */
  function Room(kept: nat): nat {
    if kept < KEPT_ERRORS then KEPT_ERRORS - kept else 0
  }

  function Upto(n: nat): (s: set<nat>)
    ensures forall i: nat :: i in s <==> i < n
    ensures |s| == n
  {
    if n == 0 then {} else Upto(n - 1) + {n - 1}
  }

  ghost function Failing(done: set<nat>, outcomes: seq<Outcome>): set<nat> {
    set i | i in done && i < |outcomes| && outcomes[i].Failed?
  }

  ghost function Changing(done: set<nat>, outcomes: seq<Outcome>): set<nat> {
    set i | i in done && i < |outcomes| && outcomes[i].Passed? && outcomes[i].changed
  }

  /** Some joined task failed with this error. */
  ghost predicate IsKept(error: Fault, done: set<nat>, outcomes: seq<Outcome>) {
    exists k :: k in Failing(done, outcomes) && outcomes[k].error == error
  }

  /** Every kept error was some joined task's. */
  ghost predicate Kept(first: seq<Fault>, done: set<nat>, outcomes: seq<Outcome>) {
    forall i :: 0 <= i < |first| ==> IsKept(first[i], done, outcomes)
  }

  /** The totals account for exactly the joined tasks, whichever those are and however they were ordered. */
  ghost predicate AccountsFor(c: Counts, done: set<nat>, outcomes: seq<Outcome>) {
    && c.checked == |done| == c.retries + c.errors
    && c.errors == |Failing(done, outcomes)| && c.changed == |Changing(done, outcomes)|
    && |c.first| == Least(KEPT_ERRORS, c.errors) && Kept(c.first, done, outcomes)
  }

  lemma JoinedOne(done: set<nat>, k: nat, outcomes: seq<Outcome>)
    requires k !in done && k < |outcomes|
    ensures Failing(done + {k}, outcomes) == Failing(done, outcomes) + if outcomes[k].Failed? then {k} else {}
    ensures Changing(done + {k}, outcomes) ==
            Changing(done, outcomes) + if outcomes[k].Passed? && outcomes[k].changed then {k} else {}
  {
  }

  lemma StillKept(error: Fault, done: set<nat>, k: nat, outcomes: seq<Outcome>)
    requires k !in done && k < |outcomes| && IsKept(error, done, outcomes)
    ensures IsKept(error, done + {k}, outcomes)
  {
    var j :| j in Failing(done, outcomes) && outcomes[j].error == error;
    assert j in Failing(done + {k}, outcomes);
  }

  lemma KeptOne(first: seq<Fault>, first': seq<Fault>, done: set<nat>, k: nat, outcomes: seq<Outcome>)
    requires k !in done && k < |outcomes| && Kept(first, done, outcomes)
    requires first <= first' && first'[|first|..] <= CountsOf(outcomes[k]).first
    ensures Kept(first', done + {k}, outcomes)
  {
    forall i | 0 <= i < |first'|
      ensures IsKept(first'[i], done + {k}, outcomes)
    {
      if i < |first| {
        assert first'[i] == first[i];
        StillKept(first[i], done, k, outcomes);
      } else {
        assert first'[|first|..][i - |first|] == first'[i];
        assert k in Failing(done + {k}, outcomes);
      }
    }
  }

  method JoinNext(totals: Totals, inFlight: set<nat>, outcomes: seq<Outcome>, ghost done: set<nat>) returns (k: nat)
    requires inFlight != {} && inFlight !! done && forall i :: i in inFlight ==> i < |outcomes|
    requires AccountsFor(totals.Value(), done, outcomes)
    modifies totals
    ensures k in inFlight && AccountsFor(totals.Value(), done + {k}, outcomes)
  {
    k :| k in inFlight;
    ghost var before := totals.first;
    totals.Merge(CountsOf(outcomes[k]));
    JoinedOne(done, k, outcomes);
    KeptOne(before, totals.first, done, k, outcomes);
  }

  /** Every record handed on is in flight or joined, and never too many are in flight. */
  ghost predicate Tracked(inFlight: set<nat>, done: set<nat>, n: nat) {
    inFlight !! done && |inFlight| <= IN_FLIGHT && forall i :: i in inFlight + done <==> i in Upto(n)
  }

  lemma SpawnTracked(inFlight: set<nat>, done: set<nat>, n: nat)
    requires Tracked(inFlight, done, n) && |inFlight| < IN_FLIGHT
    ensures Tracked(inFlight + {n}, done, n + 1)
  {
    assert n !in inFlight + done;
    forall i: nat
      ensures i in inFlight + {n} + done <==> i in Upto(n + 1)
    {
      assert i in inFlight + done <==> i in Upto(n);
    }
  }

  lemma JoinTracked(inFlight: set<nat>, done: set<nat>, n: nat, k: nat)
    requires Tracked(inFlight, done, n) && k in inFlight
    ensures Tracked(inFlight - {k}, done + {k}, n) && |inFlight - {k}| == |inFlight| - 1
  {
  }

  /** One received record: wait for a task if too many are in flight, then start another. */
  method Receive(totals: Totals, inFlight: set<nat>, n: nat, outcomes: seq<Outcome>, ghost done: set<nat>)
    returns (inFlight': set<nat>, ghost done': set<nat>)
    requires n < |outcomes| && Tracked(inFlight, done, n) && AccountsFor(totals.Value(), done, outcomes)
    modifies totals
    ensures Tracked(inFlight', done', n + 1) && AccountsFor(totals.Value(), done', outcomes)
  {
    inFlight', done' := inFlight, done;
    if |inFlight'| >= IN_FLIGHT {
      assert forall i :: i in inFlight ==> i in inFlight + done && i < n;
      var k := JoinNext(totals, inFlight', outcomes, done');
      JoinTracked(inFlight', done', n, k);
      inFlight', done' := inFlight' - {k}, done' + {k};
    }
    SpawnTracked(inFlight', done', n);
    inFlight' := inFlight' + {n};
  }

  /** Tasks join in any order; the bound on tasks in flight and the totals hold for all of them. */
  method CheckAll(outcomes: seq<Outcome>) returns (c: Counts)
    ensures AccountsFor(c, Upto(|outcomes|), outcomes)
  {
    var totals := new Totals();
    var inFlight: set<nat> := {};
    ghost var done: set<nat> := {};
    assert Failing(done, outcomes) == {} && Changing(done, outcomes) == {};
    for i := 0 to |outcomes|
      invariant Tracked(inFlight, done, i)
      invariant fresh(totals) && AccountsFor(totals.Value(), done, outcomes)
    {
      inFlight, done := Receive(totals, inFlight, i, outcomes, done);
    }
    done := Drain(totals, inFlight, outcomes, done);
    c := totals.Value();
  }

  method Drain(totals: Totals, running: set<nat>, outcomes: seq<Outcome>, ghost joined: set<nat>)
    returns (ghost done: set<nat>)
    requires Tracked(running, joined, |outcomes|) && AccountsFor(totals.Value(), joined, outcomes)
    modifies totals
    ensures done == Upto(|outcomes|) && AccountsFor(totals.Value(), done, outcomes)
  {
    var inFlight: set<nat> := running;
    done := joined;
    while inFlight != {}
      invariant Tracked(inFlight, done, |outcomes|) && AccountsFor(totals.Value(), done, outcomes)
      decreases |inFlight|
    {
      assert forall i :: i in inFlight ==> i in inFlight + done && i < |outcomes|;
      var k := JoinNext(totals, inFlight, outcomes, done);
      JoinTracked(inFlight, done, |outcomes|, k);
      inFlight, done := inFlight - {k}, done + {k};
    }
    assert forall i :: i in done <==> i in inFlight + done;
  }

  /** The whole audit, given the server's replies to each record in the order they were read. */
  method Audit(bytes: seq<Byte>, parse: seq<Byte> -> Option<Observation>, replies: (nat, Observation) -> Replies, cold: bool)
    returns (passed: bool, c: Counts)
    ensures var records := Records(Lines(bytes), parse);
            && AccountsFor(c, Upto(|records|), Outcomes(records, replies, cold))
            && (passed <==> AllRecords(Lines(bytes), parse) && bytes != []
                            && forall i :: 0 <= i < |records| ==> Recovered(records[i], replies(i, records[i]), cold))
  {
    var ok, records := ReadAll(bytes, parse);
    var outcomes := Outcomes(records, replies, cold);
    c := CheckAll(outcomes);
    passed := ok && c.checked != 0 && c.errors == 0;
    RecordsAreLines(Lines(bytes), parse);
    NoneFailing(outcomes);
  }

  function Outcomes(records: seq<Observation>, replies: (nat, Observation) -> Replies, cold: bool): (r: seq<Outcome>)
    ensures |r| == |records|
    ensures forall i :: 0 <= i < |r| ==> (r[i].Passed? <==> Recovered(records[i], replies(i, records[i]), cold))
    ensures forall i :: 0 <= i < |r| && r[i].Passed? ==> (r[i].changed <==> Moved(records[i], replies(i, records[i]), cold))
  {
    seq(|records|, i requires 0 <= i < |records| => Exchange(records[i], replies(i, records[i]), cold))
  }

  ghost function Moves(records: seq<Observation>, replies: (nat, Observation) -> Replies, cold: bool): set<nat> {
    set i: nat | i < |records| && Moved(records[i], replies(i, records[i]), cold)
  }

  lemma {:induction false} ChangingAreMoves(records: seq<Observation>, replies: (nat, Observation) -> Replies, cold: bool, i: nat)
    ensures i in Changing(Upto(|records|), Outcomes(records, replies, cold)) <==> i in Moves(records, replies, cold)
  {
    var outcomes := Outcomes(records, replies, cold);
    if i < |records| {
      assert i in Upto(|records|);
      assert outcomes[i].Passed? && outcomes[i].changed <==> Moved(records[i], replies(i, records[i]), cold);
    }
  }

  lemma {:induction false} ChangingIsMoves(records: seq<Observation>, replies: (nat, Observation) -> Replies, cold: bool)
    ensures Changing(Upto(|records|), Outcomes(records, replies, cold)) == Moves(records, replies, cold)
  {
    var changing, moves := Changing(Upto(|records|), Outcomes(records, replies, cold)), Moves(records, replies, cold);
    forall i: nat
      ensures i in changing <==> i in moves
    {
      ChangingAreMoves(records, replies, cold, i);
    }
  }

  lemma WarmStays(records: seq<Observation>, replies: (nat, Observation) -> Replies)
    ensures Moves(records, replies, false) == {}
  {
  }

  /** The recovered writes that changed incarnation are counted, and only a cold restart can have any. */
  lemma {:induction false} ChangedAreMoves(records: seq<Observation>, replies: (nat, Observation) -> Replies, cold: bool, c: Counts)
    requires AccountsFor(c, Upto(|records|), Outcomes(records, replies, cold))
    ensures c.changed == |Moves(records, replies, cold)|
    ensures !cold ==> c.changed == 0
  {
    ChangingIsMoves(records, replies, cold);
    WarmStays(records, replies);
  }

  /** A kept difference names a write that was not recovered. */
  lemma KeptNamesALoss(records: seq<Observation>, replies: (nat, Observation) -> Replies, cold: bool, c: Counts, i: nat)
    returns (k: nat)
    requires AccountsFor(c, Upto(|records|), Outcomes(records, replies, cold)) && i < |c.first|
    ensures k < |records| && !Recovered(records[k], replies(k, records[k]), cold)
    ensures !c.first[i].Transport? ==> c.first[i].id == records[k].output.id
  {
    var outcomes := Outcomes(records, replies, cold);
    assert IsKept(c.first[i], Upto(|records|), outcomes);
    k :| k in Failing(Upto(|records|), outcomes) && outcomes[k].error == c.first[i];
    assert outcomes[k] == Exchange(records[k], replies(k, records[k]), cold);
  }

  lemma {:induction false} NoneFailing(outcomes: seq<Outcome>)
    ensures |Failing(Upto(|outcomes|), outcomes)| == 0 <==> forall i :: 0 <= i < |outcomes| ==> outcomes[i].Passed?
  {
    var failing := Failing(Upto(|outcomes|), outcomes);
    if |failing| == 0 {
      forall i | 0 <= i < |outcomes|
        ensures outcomes[i].Passed?
      {
        assert i !in failing;
      }
    }
    if forall i :: 0 <= i < |outcomes| ==> outcomes[i].Passed? {
      assert failing == {};
    }
  }

  /** The counts depend on the outcomes alone; only which errors are shown depends on the order. */
  lemma {:induction false} OrderIsInvisible(a: Counts, b: Counts, outcomes: seq<Outcome>)
    requires AccountsFor(a, Upto(|outcomes|), outcomes) && AccountsFor(b, Upto(|outcomes|), outcomes)
    ensures a.(first := []) == b.(first := []) && |a.first| == |b.first| && a.checked == |outcomes|
  {
  }
}
