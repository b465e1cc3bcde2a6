/**
 The trace of SQL slot reservations: which rows are accepted, and the order an accepted trace has.
 */
module SlotTrace {
  import opened Results
  import opened Permutations

  const KINDS: set<string> := {"Query", "Command", "Migration", "Effect", "HydrationPrepare",
                               "HydrationInstall", "Inventory", "Resolve", "Snapshot", "Control"}

  /** One released reservation as recorded; an absent duration or start is an empty field. */
  datatype Row = Row(
    id: int, previous: int, shard: int, kind: string,
    requested: int, acquired: int, started: Option<int>, released: int,
    admissionUs: int, heldUs: int, afterUs: Option<int>, handoffUs: Option<int>, nativeUs: Option<int>)

  datatype Slot = Slot(
    id: int, previous: int, shard: int, kind: string,
    requested: int, acquired: int, started: Option<int>, released: int,
    admissionUs: int, afterUs: Option<int>)

  function VerifySlot(row: Row, workers: int): Result<Slot> {
    if !(row.id > 0 && 0 <= row.previous < row.id && 0 <= row.shard < workers) then Err
    else if row.kind !in KINDS then Err
    else if !(0 <= row.requested <= row.acquired <= row.released) then Err
    else if row.admissionUs != (row.acquired - row.requested) / 1000 then Err
    else if row.heldUs != (row.released - row.acquired) / 1000 then Err
    else if row.previous == 0 && row.afterUs.Some? then Err
    else if row.previous != 0 && !(row.afterUs.Some? && 0 <= row.afterUs.value <= row.admissionUs) then Err
    else if row.started.None? && !(row.handoffUs.None? && row.nativeUs.None?) then Err
    else if row.started.Some? && !(
              && row.acquired <= row.started.value <= row.released
              && row.handoffUs == Some((row.started.value - row.acquired) / 1000)
              && row.nativeUs == Some((row.released - row.started.value) / 1000)) then Err
    else if row.kind == "Snapshot" && row.started.Some? then Err
    else Ok(Slot(row.id, row.previous, row.shard, row.kind, row.requested, row.acquired, row.started, row.released,
                 row.admissionUs, row.afterUs))
  }

  /** Recorded durations are whole microseconds of their spans, so the two parts of a run miss the whole by at most one. */
  lemma RecordedDurations(row: Row, workers: int)
    requires VerifySlot(row, workers).Ok?
    ensures row.admissionUs * 1000 <= row.acquired - row.requested < row.admissionUs * 1000 + 1000
    ensures row.started.Some? ==> row.handoffUs.Some? && row.nativeUs.Some?
                                  && 0 <= row.heldUs - (row.handoffUs.value + row.nativeUs.value) <= 1
    ensures row.afterUs.Some? <==> row.previous != 0
    ensures row.afterUs.Some? ==> row.afterUs.value * 1000 <= row.acquired - row.requested
  {
    assert row.afterUs.Some? ==> row.afterUs.value <= (row.acquired - row.requested) / 1000;
  }

  /** The whole microseconds of a span of nanoseconds. */
  predicate Micros(us: int, ns: int) {
    us * 1000 <= ns < us * 1000 + 1000
  }

  /** A predecessor comes with a wait since its release, which is no longer than the whole wait. */
  predicate WaitRecorded(row: Row) {
    && (row.afterUs.Some? <==> row.previous > 0)
    && (row.afterUs.Some? ==> 0 <= row.afterUs.value && row.afterUs.value * 1000 <= row.acquired - row.requested)
  }

  /** Native work lies within the reservation, in two recorded parts; a snapshot and a job that never started have none. */
  predicate WorkRecorded(row: Row) {
    match row.started
    case None => row.handoffUs == None && row.nativeUs == None
    case Some(at) =>
      && row.kind != "Snapshot" && row.acquired <= at <= row.released
      && row.handoffUs.Some? && Micros(row.handoffUs.value, at - row.acquired)
      && row.nativeUs.Some? && Micros(row.nativeUs.value, row.released - at)
  }

  /** Exactly which rows are accepted, and what is kept of them. */
  lemma RowAccepted(row: Row, workers: int)
    ensures VerifySlot(row, workers).Ok? <==>
            && 1 <= row.id && 0 <= row.previous <= row.id - 1 && 0 <= row.shard <= workers - 1
            && row.kind in ["Control", "Snapshot", "Resolve", "Inventory", "HydrationInstall", "HydrationPrepare",
                            "Effect", "Migration", "Command", "Query"]
            && 0 <= row.requested && row.requested <= row.acquired && row.acquired <= row.released
            && Micros(row.admissionUs, row.acquired - row.requested) && Micros(row.heldUs, row.released - row.acquired)
            && WaitRecorded(row) && WorkRecorded(row)
    ensures VerifySlot(row, workers).Ok? ==>
            var slot := VerifySlot(row, workers).value;
            && slot.id == row.id && slot.previous == row.previous && slot.shard == row.shard && slot.kind == row.kind
            && slot.requested == row.requested && slot.acquired == row.acquired && slot.released == row.released
            && slot.started == row.started && slot.admissionUs == row.admissionUs && slot.afterUs == row.afterUs
  {
    MicrosOf(row.admissionUs, row.acquired - row.requested);
    MicrosOf(row.heldUs, row.released - row.acquired);
    if row.started.Some? {
      StartMicros(row, row.started.value);
    }
  }

  lemma MicrosOf(us: int, ns: int)
    ensures Micros(us, ns) <==> us == ns / 1000
  {
  }

  lemma StartMicros(row: Row, at: int)
    ensures row.handoffUs.Some? ==> (Micros(row.handoffUs.value, at - row.acquired) <==> row.handoffUs.value == (at - row.acquired) / 1000)
    ensures row.nativeUs.Some? ==> (Micros(row.nativeUs.value, row.released - at) <==> row.nativeUs.value == (row.released - at) / 1000)
  {
  }

  type Slots = map<int, Slot>

  function Max(a: int, b: int): int {
    if a < b then b else a
  }

  function Min(a: int, b: int): int {
    if a < b then a else b
  }

  function Upto(n: nat): (ids: set<int>)
    ensures forall i :: i in ids <==> 1 <= i <= n
  {
    if n == 0 then {} else Upto(n - 1) + {n}
  }

  /** Ids are exactly 1 to the number of slots. */
  predicate Dense(slots: Slots) {
    slots.Keys == Upto(|slots|)
  }

  /** The greatest id up to `id` on this shard, or 0. */
  function LatestOn(slots: Slots, shard: int, id: nat): (latest: int)
    requires Dense(slots) && id <= |slots|
    ensures 0 <= latest <= id
    ensures latest != 0 ==> slots[latest].shard == shard
  {
    if id == 0 then 0
    else if slots[id].shard == shard then id
    else LatestOn(slots, shard, id - 1)
  }

  /** The slot's recorded predecessor is the latest on its shard, had released it, and the wait since matches. */
  predicate Linked(slots: Slots, id: int)
    requires Dense(slots) && 1 <= id <= |slots|
  {
    var slot := slots[id];
    && slot.previous == LatestOn(slots, slot.shard, id - 1)
    && (slot.previous != 0 ==>
          var previous := slots[slot.previous];
          && previous.released <= slot.acquired
          && slot.afterUs == Some((slot.acquired - Max(previous.released, slot.requested)) / 1000))
  }

  predicate Chained(slots: Slots) {
    Dense(slots) && forall id :: 1 <= id <= |slots| ==> Linked(slots, id)
  }

  // ----- reading a trace

  predicate AllVerify(rows: seq<Row>, workers: int) {
    forall i :: 0 <= i < |rows| ==> VerifySlot(rows[i], workers).Ok?
  }

  predicate DistinctIds(rows: seq<Row>) {
    forall i, j :: 0 <= i < j < |rows| ==> rows[i].id != rows[j].id
  }

  function SlotMap(rows: seq<Row>, workers: int): (slots: Slots)
    requires AllVerify(rows, workers)
    ensures slots.Keys == set i | 0 <= i < |rows| :: rows[i].id
  {
    if rows == [] then map[]
    else
      var last := rows[|rows| - 1];
      SlotMap(rows[..|rows| - 1], workers)[last.id := VerifySlot(last, workers).value]
  }

  /** What makes a trace acceptable, without regard to the order of its rows. */
  predicate Accepts(rows: seq<Row>, workers: int) {
    AllVerify(rows, workers) && DistinctIds(rows) && Chained(SlotMap(rows, workers))
  }

  method CollectSlots(rows: seq<Row>, workers: int) returns (r: Result<Slots>)
    ensures r.Ok? <==> AllVerify(rows, workers) && DistinctIds(rows)
    ensures r.Ok? ==> r.value == SlotMap(rows, workers)
  {
    var slots: Slots := map[];
    for i := 0 to |rows|
      invariant AllVerify(rows[..i], workers) && DistinctIds(rows[..i])
      invariant slots == SlotMap(rows[..i], workers)
    {
      var slot := VerifySlot(rows[i], workers);
      if slot.Err? {
        return Err;
      }
      if slot.value.id in slots {
        return Err;
      }
      assert rows[..i + 1][..i] == rows[..i];
      slots := slots[slot.value.id := slot.value];
    }
    assert rows[..|rows|] == rows;
    r := Ok(slots);
  }

  function Latest(latest: map<int, int>, shard: int): int {
    if shard in latest then latest[shard] else 0
  }

  /** The running table holds each shard's latest id up to `id`. */
  ghost predicate Tracks(slots: Slots, latest: map<int, int>, id: nat)
    requires Dense(slots) && id <= |slots|
  {
    forall shard: int :: LatestOn(slots, shard, id) == Latest(latest, shard)
  }

  lemma TrackNext(slots: Slots, latest: map<int, int>, id: int)
    requires Dense(slots) && 1 <= id <= |slots| && Tracks(slots, latest, id - 1)
    ensures Tracks(slots, latest[slots[id].shard := id], id)
  {
    forall shard: int
      ensures LatestOn(slots, shard, id) == Latest(latest[slots[id].shard := id], shard)
    {
      assert LatestOn(slots, shard, id - 1) == Latest(latest, shard);
    }
  }

  method CheckChain(slots: Slots) returns (ok: bool)
    ensures ok <==> Chained(slots)
  {
    if slots.Keys != Upto(|slots|) {
      return false;
    }
    var latest: map<int, int> := map[];
    for id := 1 to |slots| + 1
      invariant forall k :: 1 <= k < id ==> Linked(slots, k)
      invariant Tracks(slots, latest, id - 1)
    {
      var slot := slots[id];
      assert LatestOn(slots, slot.shard, id - 1) == Latest(latest, slot.shard);
      if slot.previous != Latest(latest, slot.shard) {
        assert !Linked(slots, id);
        return false;
      }
      TrackNext(slots, latest, id);
      latest := latest[slot.shard := id];
      if slot.previous != 0 {
        var previous := slots[slot.previous];
        if previous.released > slot.acquired {
          assert !Linked(slots, id);
          return false;
        }
        if slot.afterUs != Some((slot.acquired - Max(previous.released, slot.requested)) / 1000) {
          assert !Linked(slots, id);
          return false;
        }
      }
      assert Linked(slots, id);
    }
    ok := true;
  }

  method ReadSlots(rows: seq<Row>, workers: int) returns (r: Result<Slots>)
    ensures r.Ok? <==> Accepts(rows, workers)
    ensures r.Ok? ==> r.value == SlotMap(rows, workers)
  {
    r := CollectSlots(rows, workers);
    if r.Ok? {
      var ok := CheckChain(r.value);
      if !ok {
        return Err;
      }
    }
  }

  /** Each entry is the reading of the one row with that id. */
  lemma {:induction false} SlotMapAt(rows: seq<Row>, workers: int, i: nat)
    requires AllVerify(rows, workers) && DistinctIds(rows) && i < |rows|
    ensures rows[i].id in SlotMap(rows, workers)
    ensures SlotMap(rows, workers)[rows[i].id] == VerifySlot(rows[i], workers).value
    decreases |rows|
  {
    var n := |rows| - 1;
    if i < n {
      SlotMapAt(rows[..n], workers, i);
    }
  }

  /** Distinct ids survive any reordering of the rows. */
  lemma DistinctSurvives(rows: seq<Row>, shuffled: seq<Row>)
    requires multiset(rows) == multiset(shuffled) && DistinctIds(rows)
    ensures DistinctIds(shuffled)
  {
    forall i, j | 0 <= i < j < |shuffled|
      ensures shuffled[i].id != shuffled[j].id
    {
      if shuffled[i].id == shuffled[j].id {
        var x, y := ClashMoves(shuffled, rows, (row: Row) => row.id, i, j);
      }
    }
  }

  /** Acceptance and the resulting slots do not depend on the order of the rows. */
  lemma {:induction false} OrderGrantsNothing(rows: seq<Row>, shuffled: seq<Row>, workers: int)
    requires multiset(rows) == multiset(shuffled)
    ensures Accepts(rows, workers) <==> Accepts(shuffled, workers)
    ensures Accepts(rows, workers) ==> SlotMap(rows, workers) == SlotMap(shuffled, workers)
  {
    if AllVerify(rows, workers) && DistinctIds(rows) {
      SameSlots(rows, shuffled, workers);
    } else if AllVerify(shuffled, workers) && DistinctIds(shuffled) {
      SameSlots(shuffled, rows, workers);
    }
  }

  lemma {:induction false} SameSlots(rows: seq<Row>, shuffled: seq<Row>, workers: int)
    requires multiset(rows) == multiset(shuffled)
    requires AllVerify(rows, workers) && DistinctIds(rows)
    ensures AllVerify(shuffled, workers) && DistinctIds(shuffled)
    ensures SlotMap(rows, workers) == SlotMap(shuffled, workers)
  {
    DistinctSurvives(rows, shuffled);
    forall i | 0 <= i < |shuffled|
      ensures VerifySlot(shuffled[i], workers).Ok?
      ensures shuffled[i] in rows
    {
      assert shuffled[i] in multiset(rows);
    }
    forall id | id in SlotMap(rows, workers)
      ensures id in SlotMap(shuffled, workers)
      ensures SlotMap(shuffled, workers)[id] == SlotMap(rows, workers)[id]
    {
      var i :| 0 <= i < |rows| && rows[i].id == id;
      assert rows[i] in multiset(shuffled);
      var j :| 0 <= j < |shuffled| && shuffled[j] == rows[i];
      SlotMapAt(rows, workers, i);
      SlotMapAt(shuffled, workers, j);
    }
  }
}
