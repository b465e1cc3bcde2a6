/**
 The journal of acknowledged writes: every id once, and as many as the clients counted.
 */
module Acknowledgements {
  import opened Results
  import opened Counters

  /** A field of a recorded line: not there, of the wrong type, or usable. */
  datatype Field<T> = Absent | Malformed | Given(value: T)

  /** One client line; it acknowledges a write when it carries no error but a response and a request. */
  datatype Line = Line(failed: bool, id: Field<int>, request: Field<int>)

  datatype Ack = Ack(id: int, request: int)

  /** The files of one phase and the acknowledgements its counters promise. */
  datatype Group = Group(files: seq<seq<Line>>, expected: int)

  predicate Acknowledged(line: Line) {
    !line.failed && !line.id.Absent? && !line.request.Absent?
  }

  predicate Sound(line: Line) {
    line.id.Given? && line.request.Given?
  }

  predicate AllSound(lines: seq<Line>) {
    forall i :: 0 <= i < |lines| && Acknowledged(lines[i]) ==> Sound(lines[i])
  }

  /** The acknowledgements of a run of lines, in order. */
  function AcksOf(lines: seq<Line>): seq<Ack> {
    if lines == [] then []
    else
      var before, last := AcksOf(lines[..|lines| - 1]), lines[|lines| - 1];
      if Acknowledged(last) && Sound(last) then before + [Ack(last.id.value, last.request.value)] else before
  }

  lemma {:induction false} AcksNext(lines: seq<Line>, line: Line)
    ensures AcksOf(lines + [line]) ==
            if Acknowledged(line) && Sound(line) then AcksOf(lines) + [Ack(line.id.value, line.request.value)]
            else AcksOf(lines)
  {
    assert (lines + [line])[..|lines|] == lines;
  }

  predicate DistinctIds(acks: seq<Ack>) {
    forall i, j :: 0 <= i < j < |acks| ==> acks[i].id != acks[j].id
  }

  lemma PrefixDistinct(a: seq<Ack>, b: seq<Ack>)
    requires DistinctIds(a + b)
    ensures DistinctIds(a)
  {
    assert forall i :: 0 <= i < |a| ==> (a + b)[i] == a[i];
  }

  function Ids(acks: seq<Ack>): set<int> {
    set i | 0 <= i < |acks| :: acks[i].id
  }

  // ----- the journal

  class Journal {
    var count: int
    var seen: set<int>
    var output: seq<Ack>

    ghost predicate Valid()
      reads this
    {
      count == |output| && seen == Ids(output) && DistinctIds(output)
    }

    constructor ()
      ensures Valid() && output == []
    {
      count, seen, output := 0, {}, [];
    }

    /** Refuses a malformed acknowledgement and an id already journalled; otherwise writes it once. */
    method Append(line: Line) returns (ok: bool)
      requires Valid()
      modifies this
      ensures Valid()
      ensures ok <==> Sound(line) && line.id.value !in old(seen)
      ensures output == if ok then old(output) + [Ack(line.id.value, line.request.value)] else old(output)
    {
      if !Sound(line) || line.id.value in seen {
        return false;
      }
      IdsNext(output, Ack(line.id.value, line.request.value));
      seen := seen + {line.id.value};
      output := output + [Ack(line.id.value, line.request.value)];
      count := count + 1;
      ok := true;
    }

    /** Journals one file; it succeeds exactly if the file's acknowledgements are sound and new. */
    method AppendFile(lines: seq<Line>) returns (ok: bool)
      requires Valid()
      modifies this
      ensures Valid()
      ensures ok <==> AllSound(lines) && DistinctIds(old(output) + AcksOf(lines))
      ensures ok ==> output == old(output) + AcksOf(lines)
    {
      ghost var start := output;
      for i := 0 to |lines|
        invariant Valid() && AllSound(lines[..i])
        invariant output == start + AcksOf(lines[..i])
      {
        ok := AppendLine(lines, i, start);
        if !ok {
          return;
        }
      }
      assert lines[..|lines|] == lines;
      ok := true;
    }

    /** Journals one more line if it acknowledges a write; a refusal spoils the whole file. */
    method AppendLine(lines: seq<Line>, i: nat, ghost start: seq<Ack>) returns (ok: bool)
      requires Valid() && i < |lines| && AllSound(lines[..i]) && output == start + AcksOf(lines[..i])
      modifies this
      ensures Valid()
      ensures ok ==> AllSound(lines[..i + 1]) && output == start + AcksOf(lines[..i + 1])
      ensures !ok ==> !(AllSound(lines) && DistinctIds(start + AcksOf(lines)))
    {
      assert lines[..i + 1] == lines[..i] + [lines[i]];
      AcksNext(lines[..i], lines[i]);
      ok := true;
      if Acknowledged(lines[i]) {
        Journalled(start, lines, i);
        ok := Append(lines[i]);
      }
    }

    /** Journals the files of one phase, and checks how many acknowledgements they held. */
    method AppendGroup(group: Group) returns (ok: bool)
      requires Valid()
      modifies this
      ensures Valid()
      ensures ok <==> AllSound(LinesOf(group.files)) && DistinctIds(old(output) + AcksOf(LinesOf(group.files)))
                      && |AcksOf(LinesOf(group.files))| == group.expected
      ensures ok ==> output == old(output) + AcksOf(LinesOf(group.files))
    {
      ghost var start := output;
      var before := count;
      for i := 0 to |group.files|
        invariant Valid() && AllSound(LinesOf(group.files[..i]))
        invariant output == start + AcksOf(LinesOf(group.files[..i]))
      {
        ChunkJoins(start, group.files, i);
        ChunkStops(start, group.files, i);
        var appended := AppendFile(group.files[i]);
        if !appended {
          return false;
        }
      }
      assert group.files[..|group.files|] == group.files;
      ok := count - before == group.expected;
    }

    /** Journals one more group; a refusal spoils the whole journal. */
    method AppendNext(groups: seq<Group>, n: nat, ghost start: seq<Ack>) returns (ok: bool)
      requires Valid() && n < |groups| && Journalling(output, start, groups, n)
      modifies this
      ensures Valid()
      ensures ok ==> Journalling(output, start, groups, n + 1)
      ensures !ok ==> !Journalable(start, groups)
    {
      GroupStep(output, start, groups, n);
      ok := AppendGroup(groups[n]);
    }
  }

  lemma SeenTwice(acks: seq<Ack>, ack: Ack)
    requires ack.id in Ids(acks)
    ensures !DistinctIds(acks + [ack])
  {
    var i :| 0 <= i < |acks| && acks[i].id == ack.id;
    assert (acks + [ack])[i].id == (acks + [ack])[|acks|].id;
  }

  lemma IdsNext(acks: seq<Ack>, ack: Ack)
    ensures Ids(acks + [ack]) == Ids(acks) + {ack.id}
  {
    assert forall i :: 0 <= i < |acks| ==> (acks + [ack])[i] == acks[i];
    assert (acks + [ack])[|acks|] == ack;
  }

  /** What journalling one more acknowledged line would make of the journal, and why it may be refused. */
  lemma {:induction false} Journalled(start: seq<Ack>, lines: seq<Line>, i: nat)
    requires i < |lines| && Acknowledged(lines[i])
    ensures Sound(lines[i]) ==> var ack := Ack(lines[i].id.value, lines[i].request.value);
            && start + AcksOf(lines[..i + 1]) == start + AcksOf(lines[..i]) + [ack]
            && (ack.id in Ids(start + AcksOf(lines[..i])) ==> !DistinctIds(start + AcksOf(lines)))
  {
    if Sound(lines[i]) {
      var ack := Ack(lines[i].id.value, lines[i].request.value);
      assert lines[..i + 1] == lines[..i] + [lines[i]];
      AcksNext(lines[..i], lines[i]);
      var before := start + AcksOf(lines[..i]);
      assert start + AcksOf(lines[..i + 1]) == before + [ack];
      if ack.id in Ids(before) {
        SeenTwice(before, ack);
        Unjournalable(start, lines, i + 1);
      }
    }
  }

  lemma SplitPrefix(start: seq<Ack>, a: seq<Ack>, b: seq<Ack>)
    ensures DistinctIds(start + (a + b)) ==> DistinctIds(start + a)
  {
    assert start + (a + b) == start + a + b;
    if DistinctIds(start + (a + b)) {
      PrefixDistinct(start + a, b);
    }
  }

  /** Lines after a repeated id do not make up for it. */
  lemma {:induction false} Unjournalable(start: seq<Ack>, lines: seq<Line>, n: nat)
    requires n <= |lines| && !DistinctIds(start + AcksOf(lines[..n]))
    ensures !DistinctIds(start + AcksOf(lines))
  {
    assert lines == lines[..n] + lines[n..];
    AcksOfBoth(lines[..n], lines[n..]);
    SplitPrefix(start, AcksOf(lines[..n]), AcksOf(lines[n..]));
  }

  // ----- files and groups as one run of lines

  function LinesOf(files: seq<seq<Line>>): seq<Line> {
    if files == [] then [] else files[0] + LinesOf(files[1..])
  }

  lemma {:induction false} LinesJoin(a: seq<seq<Line>>, b: seq<seq<Line>>)
    ensures LinesOf(a + b) == LinesOf(a) + LinesOf(b)
    decreases |a|
  {
    if a == [] {
      assert a + b == b;
    } else {
      assert (a + b)[0] == a[0] && (a + b)[1..] == a[1..] + b;
      LinesJoin(a[1..], b);
    }
  }

  /** One more chunk of lines: what it adds to the lines and to the journal. */
  lemma ChunkJoins(start: seq<Ack>, chunks: seq<seq<Line>>, i: nat)
    requires i < |chunks|
    ensures var done := LinesOf(chunks[..i]);
            && LinesOf(chunks[..i + 1]) == done + chunks[i]
            && start + AcksOf(done + chunks[i]) == start + AcksOf(done) + AcksOf(chunks[i])
            && (AllSound(done + chunks[i]) <==> AllSound(done) && AllSound(chunks[i]))
  {
    assert chunks[..i + 1] == chunks[..i] + [chunks[i]];
    LinesJoin(chunks[..i], [chunks[i]]);
    assert LinesOf([chunks[i]]) == chunks[i];
    AcksOfBoth(LinesOf(chunks[..i]), chunks[i]);
    SoundParts(LinesOf(chunks[..i]), chunks[i]);
  }

  lemma {:induction false} LinesSplit(chunks: seq<seq<Line>>, n: nat)
    requires n <= |chunks|
    ensures LinesOf(chunks) == LinesOf(chunks[..n]) + LinesOf(chunks[n..])
  {
    assert chunks == chunks[..n] + chunks[n..];
    LinesJoin(chunks[..n], chunks[n..]);
  }

  lemma {:induction false} PrefixJournal(start: seq<Ack>, a: seq<Line>, b: seq<Line>)
    ensures AllSound(a + b) ==> AllSound(a)
    ensures DistinctIds(start + AcksOf(a + b)) ==> DistinctIds(start + AcksOf(a))
  {
    SoundParts(a, b);
    AcksOfBoth(a, b);
    SplitPrefix(start, AcksOf(a), AcksOf(b));
  }

  /** A chunk that is unsound or repeats an id spoils the whole. */
  lemma {:induction false} ChunkStops(start: seq<Ack>, chunks: seq<seq<Line>>, i: nat)
    requires i < |chunks|
    ensures AllSound(LinesOf(chunks)) ==> AllSound(chunks[i])
    ensures DistinctIds(start + AcksOf(LinesOf(chunks))) ==>
            DistinctIds(start + AcksOf(LinesOf(chunks[..i])) + AcksOf(chunks[i]))
  {
    LinesSplit(chunks, i + 1);
    PrefixJournal(start, LinesOf(chunks[..i + 1]), LinesOf(chunks[i + 1..]));
    ChunkJoins(start, chunks, i);
  }

  lemma {:induction false} AcksOfBoth(a: seq<Line>, b: seq<Line>)
    ensures AcksOf(a + b) == AcksOf(a) + AcksOf(b)
    decreases |b|
  {
    if b == [] {
      assert a + b == a;
    } else {
      var n := |b| - 1;
      AcksOfBoth(a, b[..n]);
      assert a + b == a + b[..n] + [b[n]];
      AcksNext(a + b[..n], b[n]);
    }
  }

  lemma SoundParts(a: seq<Line>, b: seq<Line>)
    ensures AllSound(a + b) <==> AllSound(a) && AllSound(b)
  {
    assert forall i :: 0 <= i < |a| ==> (a + b)[i] == a[i];
    assert forall i :: 0 <= i < |b| ==> (a + b)[|a| + i] == b[i];
    if AllSound(a) && AllSound(b) {
      forall i | 0 <= i < |a + b| && Acknowledged((a + b)[i])
        ensures Sound((a + b)[i])
      {
        assert (a + b)[i] == if i < |a| then a[i] else b[i - |a|];
      }
    }
  }

  // ----- the whole journal

  /** The lines of each group, one after another. */
  function GroupLines(groups: seq<Group>): (chunks: seq<seq<Line>>)
    ensures |chunks| == |groups| && forall i :: 0 <= i < |groups| ==> chunks[i] == LinesOf(groups[i].files)
  {
    seq(|groups|, i requires 0 <= i < |groups| => LinesOf(groups[i].files))
  }

  function AllLines(groups: seq<Group>): seq<Line> {
    LinesOf(GroupLines(groups))
  }

  predicate Counted(group: Group) {
    |AcksOf(LinesOf(group.files))| == group.expected
  }

  predicate AllCounted(groups: seq<Group>) {
    forall i :: 0 <= i < |groups| ==> Counted(groups[i])
  }

  function JournalOf(extra: Line, groups: seq<Group>): seq<Ack>
    requires Sound(extra)
  {
    [Ack(extra.id.value, extra.request.value)] + AcksOf(AllLines(groups))
  }

  /** When the journal can be written: sound acknowledgements, each id once, each phase as many as it counted. */
  predicate Collectable(extra: Line, groups: seq<Group>) {
    Sound(extra) && AllSound(AllLines(groups)) && DistinctIds(JournalOf(extra, groups)) && AllCounted(groups)
  }

  /** The first `n` groups have been journalled. */
  ghost predicate Journalling(output: seq<Ack>, start: seq<Ack>, groups: seq<Group>, n: nat)
    requires n <= |groups|
  {
    var lines := LinesOf(GroupLines(groups)[..n]);
    AllSound(lines) && output == start + AcksOf(lines) && forall k :: 0 <= k < n ==> Counted(groups[k])
  }

  /** What one more group comes to, and what its refusal says about the whole. */
  lemma GroupStep(output: seq<Ack>, start: seq<Ack>, groups: seq<Group>, n: nat)
    requires n < |groups| && Journalling(output, start, groups, n)
    ensures var lines := LinesOf(groups[n].files);
            && (AllSound(lines) && Counted(groups[n]) ==> Journalling(output + AcksOf(lines), start, groups, n + 1))
            && (AllSound(AllLines(groups)) ==> AllSound(lines))
            && (DistinctIds(start + AcksOf(AllLines(groups))) ==> DistinctIds(output + AcksOf(lines)))
  {
    var chunks := GroupLines(groups);
    ChunkJoins(start, chunks, n);
    ChunkStops(start, chunks, n);
  }

  /** When the groups can all be journalled after `start`. */
  predicate Journalable(start: seq<Ack>, groups: seq<Group>) {
    AllSound(AllLines(groups)) && DistinctIds(start + AcksOf(AllLines(groups))) && AllCounted(groups)
  }

  lemma AllJournalled(output: seq<Ack>, start: seq<Ack>, groups: seq<Group>)
    requires Journalling(output, start, groups, |groups|) && DistinctIds(output)
    ensures Journalable(start, groups) && output == start + AcksOf(AllLines(groups))
  {
    assert GroupLines(groups)[..|groups|] == GroupLines(groups);
  }

  lemma NothingJournalled(start: seq<Ack>, groups: seq<Group>)
    ensures Journalling(start, start, groups, 0)
  {
    assert GroupLines(groups)[..0] == [];
    assert start + AcksOf([]) == start;
  }

  method Collect(extra: Line, groups: seq<Group>) returns (r: Result<int>, output: seq<Ack>)
    ensures r.Ok? <==> Collectable(extra, groups)
    ensures r.Ok? ==> output == JournalOf(extra, groups) && r.value == |output|
  {
    var journal := new Journal();
    var ok := journal.Append(extra);
    if !ok {
      return Err, journal.output;
    }
    ghost var start := journal.output;
    assert start == [Ack(extra.id.value, extra.request.value)];
    NothingJournalled(start, groups);
    for i := 0 to |groups|
      invariant journal.Valid() && Journalling(journal.output, start, groups, i)
    {
      ok := journal.AppendNext(groups, i, start);
      if !ok {
        return Err, journal.output;
      }
    }
    AllJournalled(journal.output, start, groups);
    r, output := Ok(journal.count), journal.output;
  }

  // ----- what a written journal holds

  /** A client line without an error that names this id and this request. */
  predicate Shows(line: Line, a: Ack) {
    line.failed == false && line.id == Given(a.id) && line.request == Given(a.request)
  }

  lemma {:induction false} AcksHold(lines: seq<Line>, a: Ack)
    ensures a in AcksOf(lines) <==> exists line :: line in lines && Shows(line, a)
    decreases |lines|
  {
    if lines != [] {
      var n := |lines| - 1;
      var before, last := lines[..n], lines[n];
      AcksHold(before, a);
      assert lines == before + [last];
      assert a in AcksOf(lines) <==> a in AcksOf(before) || Shows(last, a);
      assert forall line :: line in lines <==> line in before || line == last;
    }
  }

  /** Some file of some group has the line. */
  ghost predicate Recorded(groups: seq<Group>, line: Line) {
    exists g, k :: 0 <= g < |groups| && 0 <= k < |groups[g].files| && line in groups[g].files[k]
  }

  lemma {:induction false} LineInChunks(chunks: seq<seq<Line>>, line: Line)
    ensures line in LinesOf(chunks) <==> exists k :: 0 <= k < |chunks| && line in chunks[k]
    decreases |chunks|
  {
    if chunks != [] {
      LineInChunks(chunks[1..], line);
      assert forall k :: 0 < k < |chunks| ==> chunks[k] == chunks[1..][k - 1];
    }
  }

  lemma LineIsRecorded(groups: seq<Group>, line: Line)
    ensures line in AllLines(groups) <==> Recorded(groups, line)
  {
    LineInChunks(GroupLines(groups), line);
    forall g | 0 <= g < |groups|
      ensures line in GroupLines(groups)[g] <==> exists k :: 0 <= k < |groups[g].files| && line in groups[g].files[k]
    {
      LineInChunks(groups[g].files, line);
    }
  }

  /** An acknowledgement is journalled exactly if it is the contract's or some client line shows it. */
  lemma JournalHolds(extra: Line, groups: seq<Group>, a: Ack)
    requires Collectable(extra, groups)
    ensures a in JournalOf(extra, groups) <==>
            || (extra.id == Given(a.id) && extra.request == Given(a.request))
            || exists line :: Recorded(groups, line) && Shows(line, a)
  {
    AcksHold(AllLines(groups), a);
    forall line: Line {
      LineIsRecorded(groups, line);
    }
  }

  /** No line that acknowledges a write was passed over: each has an id and a request of the right type. */
  lemma NonePassedOver(extra: Line, groups: seq<Group>, line: Line)
    requires Collectable(extra, groups) && Recorded(groups, line)
    requires !line.failed && line.id != Absent && line.request != Absent
    ensures line.id.Given? && line.request.Given?
  {
    LineIsRecorded(groups, line);
    var i :| 0 <= i < |AllLines(groups)| && AllLines(groups)[i] == line;
  }

  // ----- the count the report expects

  datatype Writes = Writes(successes: int, attempts: int, errors: int)

  function Promised(w: Writes): int {
    w.successes + w.attempts - w.errors
  }

  predicate ValidCounters(w: Writes) {
    0 <= w.errors <= w.attempts && w.successes >= 0
  }

  ghost function SumPromised(phases: seq<Writes>): int {
    if phases == [] then 0 else SumPromised(phases[..|phases| - 1]) + Promised(phases[|phases| - 1])
  }

  /** The recorded phases: every timed write, then overload and recovery where they ran. */
  function Phases(writes: seq<Writes>, overload: Option<Writes>, recovery: Option<Writes>): seq<Writes> {
    writes + (if overload.Some? then [overload.value] else []) + (if recovery.Some? then [recovery.value] else [])
  }

  /** Errors are among the attempts, and successes were counted. */
  ghost predicate Countable(w: Writes) {
    0 <= w.errors && w.errors <= w.attempts && 0 <= w.successes
  }

  /** What a phase promises if it ran. */
  ghost function IfRun(phase: Option<Writes>): int {
    match phase
    case None => 0
    case Some(w) => w.successes + (w.attempts - w.errors)
  }

  lemma {:induction false} SumPromisedNext(phases: seq<Writes>, w: Writes)
    ensures SumPromised(phases + [w]) == SumPromised(phases) + w.successes + w.attempts - w.errors
  {
    assert (phases + [w])[..|phases|] == phases;
  }

  lemma {:induction false} RecordedPhases(writes: seq<Writes>, overload: Option<Writes>, recovery: Option<Writes>)
    ensures SumPromised(Phases(writes, overload, recovery)) == SumPromised(writes) + IfRun(overload) + IfRun(recovery)
  {
    var both := writes + if overload.Some? then [overload.value] else [];
    if overload.Some? {
      SumPromisedNext(writes, overload.value);
    } else {
      assert both == writes;
    }
    if recovery.Some? {
      SumPromisedNext(both, recovery.value);
    } else {
      assert Phases(writes, overload, recovery) == both;
    }
  }

  lemma RecordedCountable(writes: seq<Writes>, overload: Option<Writes>, recovery: Option<Writes>)
    ensures (forall i :: 0 <= i < |Phases(writes, overload, recovery)| ==> ValidCounters(Phases(writes, overload, recovery)[i]))
            <==>
            && (forall i :: 0 <= i < |writes| ==> Countable(writes[i]))
            && (overload.Some? ==> Countable(overload.value)) && (recovery.Some? ==> Countable(recovery.value))
  {
    var phases, n := Phases(writes, overload, recovery), |writes|;
    assert forall i :: 0 <= i < n ==> phases[i] == writes[i];
    assert overload.Some? ==> phases[n] == overload.value;
    assert recovery.Some? ==> phases[|phases| - 1] == recovery.value;
  }

  method ExpectedAcknowledgements(cells: int, writes: seq<Writes>, overload: Option<Writes>, recovery: Option<Writes>)
    returns (r: Result<int>)
    ensures r.Ok? <==>
            && (forall i :: 0 <= i < |writes| ==> Countable(writes[i]))
            && (overload.Some? ==> Countable(overload.value)) && (recovery.Some? ==> Countable(recovery.value))
    ensures r.Ok? ==> r.value == cells + 1 + SumPromised(writes) + IfRun(overload) + IfRun(recovery)
  {
    var phases := Phases(writes, overload, recovery);
    RecordedPhases(writes, overload, recovery);
    RecordedCountable(writes, overload, recovery);
    var total := cells + 1;
    for i := 0 to |phases|
      invariant forall k :: 0 <= k < i ==> ValidCounters(phases[k])
      invariant total == cells + 1 + SumPromised(phases[..i])
    {
      if !ValidCounters(phases[i]) {
        return Err;
      }
      total := total + Promised(phases[i]);
      assert phases[..i + 1][..i] == phases[..i];
    }
    assert phases[..|phases|] == phases;
    r := Ok(total);
  }

  // ----- the two counts agree

  /** One directory a recorded phase, in whatever order the directories are listed. */
  predicate OneDirectoryAPhase(groups: seq<Group>, cells: int, listed: seq<Writes>, phases: seq<Writes>) {
    && |groups| == |listed| + 1 && groups[0].expected == cells && multiset(listed) == multiset(phases)
    && forall i :: 0 <= i < |listed| ==> groups[i + 1].expected == Promised(listed[i])
  }

  ghost function SumExpected(groups: seq<Group>): int {
    if groups == [] then 0 else SumExpected(groups[..|groups| - 1]) + groups[|groups| - 1].expected
  }

  lemma {:induction false} JournalLength(groups: seq<Group>)
    requires AllCounted(groups)
    ensures |AcksOf(AllLines(groups))| == SumExpected(groups)
    decreases |groups|
  {
    if groups != [] {
      var n := |groups| - 1;
      JournalLength(groups[..n]);
      var chunks := GroupLines(groups);
      assert GroupLines(groups[..n]) == chunks[..n] && chunks[..n + 1] == chunks;
      ChunkJoins([], chunks, n);
      assert Counted(groups[n]);
      assert [] + AcksOf(chunks[n]) == AcksOf(chunks[n]);
    }
  }

  lemma {:induction false} ExpectedByPhase(groups: seq<Group>, listed: seq<Writes>)
    requires |groups| == |listed| + 1 && forall i :: 0 <= i < |listed| ==> groups[i + 1].expected == Promised(listed[i])
    ensures SumExpected(groups) == groups[0].expected + SumPromised(listed)
    decreases |listed|
  {
    var n := |listed| - 1;
    if listed == [] {
      assert groups[..0] == [];
    } else {
      ExpectedByPhase(groups[..n + 1], listed[..n]);
    }
  }

  lemma {:induction false} TakeOut(phases: seq<Writes>, i: nat)
    requires i < |phases|
    ensures SumPromised(phases) == SumPromised(phases[..i] + phases[i + 1..]) + Promised(phases[i])
    decreases |phases|
  {
    var n := |phases| - 1;
    if i < n {
      TakeOut(phases[..n], i);
      var without := phases[..i] + phases[i + 1..];
      assert without[..n - 1] == phases[..n][..i] + phases[..n][i + 1..];
    } else {
      assert phases[..i] + phases[i + 1..] == phases[..n];
    }
  }

  lemma WithoutOne(a: seq<Writes>, b: seq<Writes>, i: nat)
    requires a != [] && i < |b| && b[i] == a[|a| - 1] && multiset(a) == multiset(b)
    ensures multiset(a[..|a| - 1]) == multiset(b[..i] + b[i + 1..])
  {
    assert a == a[..|a| - 1] + [a[|a| - 1]] && b == b[..i] + [b[i]] + b[i + 1..];
    Cancel(multiset(a[..|a| - 1]), multiset(b[..i] + b[i + 1..]), b[i]);
  }

  lemma {:induction false} SumIgnoresOrder(a: seq<Writes>, b: seq<Writes>)
    requires multiset(a) == multiset(b)
    ensures SumPromised(a) == SumPromised(b)
    decreases |a|
  {
    if a == [] {
      assert |multiset(b)| == |b| == 0;
    } else {
      assert a[|a| - 1] in multiset(b);
      var i :| 0 <= i < |b| && b[i] == a[|a| - 1];
      WithoutOne(a, b, i);
      SumIgnoresOrder(a[..|a| - 1], b[..i] + b[i + 1..]);
      TakeOut(b, i);
    }
  }

  /** The journal holds every acknowledged id once, and as many as the report independently expects. */
  lemma {:induction false} JournalMeetsReport(extra: Line, groups: seq<Group>, cells: int, listed: seq<Writes>, phases: seq<Writes>)
    requires Collectable(extra, groups) && OneDirectoryAPhase(groups, cells, listed, phases)
    ensures |JournalOf(extra, groups)| == cells + 1 + SumPromised(phases)
    ensures |Ids(JournalOf(extra, groups))| == |JournalOf(extra, groups)|
  {
    JournalLength(groups);
    ExpectedByPhase(groups, listed);
    SumIgnoresOrder(listed, phases);
    DistinctSize(JournalOf(extra, groups));
  }

  lemma {:induction false} DistinctSize(acks: seq<Ack>)
    requires DistinctIds(acks)
    ensures |Ids(acks)| == |acks|
    decreases |acks|
  {
    if acks != [] {
      var n := |acks| - 1;
      DistinctSize(acks[..n]);
      assert acks == acks[..n] + [acks[n]];
      IdsNext(acks[..n], acks[n]);
    }
  }
}
