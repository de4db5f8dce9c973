/** The retry loops of the lane updates as they run on a store object, with other writers let in
    between every read and its compare-and-swap. */
module LaneCallExecution {
  import opened Wrappers
  import opened Records
  import opened StateStore
  import opened LaneCalls

  /** Writes other runners land on lanes, oldest first. */
  type Batch = seq<(LaneId, LaneRecord)>

  function Applied(doc: Doc, batch: Batch): Doc {
    if batch == [] then doc
    else WriteLane(Applied(doc, batch[..|batch| - 1]), batch[|batch| - 1].0, batch[|batch| - 1].1)
  }

  predicate Touches(batch: Batch, lane: LaneId) {
    exists i :: 0 <= i < |batch| && batch[i].0 == lane
  }

  function BatchAt(rivals: seq<Batch>, attempt: nat): Batch {
    if attempt < |rivals| then rivals[attempt] else []
  }

  /** What an update decides from one read of its lane. */
  type Planner = Read<LaneRecord> -> Plan

  function PlannerOf(call: LaneCall): Planner {
    (read: Read<LaneRecord>) => PlanCall(read, call)
  }

  /** What an update does from its n-th attempt on, when `rivals[i]` lands during attempt i. */
  function Retry(doc: Doc, lane: LaneId, planner: Planner, limit: nat, rivals: seq<Batch>, attempt: nat)
    : (Doc, Result<Status, StoreError>)
    requires attempt < limit
    decreases limit - attempt
  {
    match planner(ReadLane(doc, lane))
    case Answer(status) => (doc, Ok(status))
    case Raise(e) => (doc, Err(e))
    case Write(expected, record, onSuccess) =>
      var during := Applied(doc, BatchAt(rivals, attempt));
      match LaneSwapError(during, lane, expected, record)
      case None => (WriteLane(during, lane, record), Ok(onSuccess))
      case Some(e) =>
        if e == VersionConflict && attempt + 1 < limit then Retry(during, lane, planner, limit, rivals, attempt + 1)
        else (during, Err(e))
  }

  function CallOutcome(doc: Doc, call: LaneCall, rivals: seq<Batch>): (Doc, Result<Status, StoreError>) {
    Retry(doc, call.laneId, PlannerOf(call), MaxAttempts(call), rivals, 0)
  }

  ghost predicate AllParse(doc: Doc) {
    forall l :: l in doc.lanes ==> doc.lanes[l].record.Some?
  }

  ghost predicate ProperBatch(batch: Batch) {
    forall i :: 0 <= i < |batch| ==> batch[i].1.laneId == batch[i].0
  }

  /** Lets the other writers of this round act on the store. */
  method LetOthersWrite(store: DeterministicStateStore, batch: Batch)
    requires store.Valid() && ProperBatch(batch) && (batch == [] || AllParse(store.Contents()))
    modifies store
    ensures store.Valid() && (AllParse(old(store.Contents())) ==> AllParse(store.Contents()))
    ensures store.Contents() == Applied(old(store.Contents()), batch)
  {
    for i := 0 to |batch|
      invariant store.Valid() && (AllParse(old(store.Contents())) ==> AllParse(store.Contents()))
      invariant store.Contents() == Applied(old(store.Contents()), batch[..i])
    {
      var (lane, record) := batch[i];
      var version := 0;
      if lane in store.workstreams { version := store.workstreams[lane].version; }
      var _ := store.CompareAndSwapWorkstream(lane, version, record);
      assert batch[..i + 1][..i] == batch[..i];
    }
    assert batch[..|batch|] == batch;
  }

  /** One compare-and-swap, with the other writers of this round ahead of it. */
  method SwapAmongOthers(store: DeterministicStateStore, lane: LaneId, expected: nat, record: LaneRecord, batch: Batch)
    returns (error: Option<StoreError>)
    requires store.Valid() && ProperBatch(batch) && (batch == [] || AllParse(store.Contents()))
    modifies store
    ensures store.Valid() && (AllParse(old(store.Contents())) ==> AllParse(store.Contents()))
    ensures
      var during := Applied(old(store.Contents()), batch);
      && error == LaneSwapError(during, lane, expected, record)
      && store.Contents() == if error.None? then WriteLane(during, lane, record) else during
  {
    LetOthersWrite(store, batch);
    var saved := store.CompareAndSwapWorkstream(lane, expected, record);
    error := if saved.Ok? then None else Some(saved.error);
  }

  /** Read, plan, swap; re-read after a version conflict, at most `limit` times. */
  method RetryLoop(store: DeterministicStateStore, lane: LaneId, planner: Planner, limit: nat, rivals: seq<Batch>)
    returns (result: Result<Status, StoreError>)
    requires store.Valid() && (rivals == [] || AllParse(store.Contents())) && limit > 0
    requires forall i :: 0 <= i < |rivals| ==> ProperBatch(rivals[i])
    modifies store
    ensures store.Valid() && (AllParse(old(store.Contents())) ==> AllParse(store.Contents()))
    ensures Retry(old(store.Contents()), lane, planner, limit, rivals, 0) == (store.Contents(), result)
  {
    var attempt := 0;
    while true
      invariant attempt < limit
      invariant store.Valid() && (AllParse(old(store.Contents())) ==> AllParse(store.Contents()))
      invariant Retry(old(store.Contents()), lane, planner, limit, rivals, 0)
             == Retry(store.Contents(), lane, planner, limit, rivals, attempt)
      decreases limit - attempt
    {
      var read := store.ReadWorkstream(lane);
      match planner(read) {
        case Answer(status) => return Ok(status);
        case Raise(e) => return Err(e);
        case Write(expected, record, onSuccess) =>
          var error := SwapAmongOthers(store, lane, expected, record, BatchAt(rivals, attempt));
          if error.None? { return Ok(onSuccess); }
          if error.value != VersionConflict || attempt + 1 >= limit { return Err(error.value); }
      }
      attempt := attempt + 1;
    }
  }

  /** One lane update, with the other writers that land during each of its attempts. */
  method RunCall(store: DeterministicStateStore, call: LaneCall, rivals: seq<Batch>)
    returns (result: Result<Status, StoreError>)
    requires store.Valid() && (rivals == [] || AllParse(store.Contents()))
    requires forall i :: 0 <= i < |rivals| ==> ProperBatch(rivals[i])
    modifies store
    ensures store.Valid() && (AllParse(old(store.Contents())) ==> AllParse(store.Contents()))
    ensures CallOutcome(old(store.Contents()), call, rivals) == (store.Contents(), result)
  {
    result := RetryLoop(store, call.laneId, PlannerOf(call), MaxAttempts(call), rivals);
  }

  // ---------------------------------------------------------------------------
  // What the loop guarantees
  // ---------------------------------------------------------------------------

  lemma {:induction false} AppliedVersion(doc: Doc, batch: Batch, lane: LaneId)
    ensures LaneVersion(Applied(doc, batch), lane) >= LaneVersion(doc, lane)
    ensures LaneVersion(Applied(doc, batch), lane) == LaneVersion(doc, lane) <==> !Touches(batch, lane)
    ensures !Touches(batch, lane) ==> ReadLane(Applied(doc, batch), lane) == ReadLane(doc, lane)
    ensures Applied(doc, batch).operations == doc.operations
  {
    if batch != [] {
      var init, last := batch[..|batch| - 1], batch[|batch| - 1];
      AppliedVersion(doc, init, lane);
      assert batch == init + [last];
      if last.0 == lane {
        assert batch[|batch| - 1].0 == lane;
      }
      if i :| 0 <= i < |init| && init[i].0 == lane {
        assert batch[i].0 == lane;
      }
    }
  }

  /** The rivals of attempts a, a+1, ... up to but not including b, one after the other. */
  function RivalsBetween(doc: Doc, rivals: seq<Batch>, a: nat, b: nat): Doc
    requires a <= b
    decreases b - a
  {
    if a == b then doc else RivalsBetween(Applied(doc, BatchAt(rivals, a)), rivals, a + 1, b)
  }

  /** The update ended the way its plan on `before` says, without interference. */
  ghost predicate EndsAsPlanned(before: Doc, lane: LaneId, planner: Planner, after: Doc, result: Result<Status, StoreError>) {
    match planner(ReadLane(before, lane))
    case Answer(status) => result == Ok(status) && after == before
    case Raise(e) => result == Err(e) && after == before
    case Write(_, record, onSuccess) => result == Ok(onSuccess) && after == WriteLane(before, lane, record)
  }

  /** A plan to write names the version it was read at and the lane it was read from. */
  ghost predicate WritesAtReadVersion(planner: Planner, lane: LaneId) {
    forall doc :: planner(ReadLane(doc, lane)).Write? ==>
      && planner(ReadLane(doc, lane)).expected == LaneVersion(doc, lane)
      && planner(ReadLane(doc, lane)).record.laneId == lane
      && !ReadLane(doc, lane).Corrupt?
  }

  lemma CallsWriteAtReadVersion(call: LaneCall)
    ensures WritesAtReadVersion(PlannerOf(call), call.laneId)
  {
  }

  /** A write that lands is the write planned on the document as its rivals left it, so nothing a
      rival wrote is lost; the update gives up on a conflict only when a rival beat it to the lane
      in every attempt, and then only the rivals' writes are seen. */
  lemma {:induction false} RetryLosesNothing(doc: Doc, lane: LaneId, planner: Planner, limit: nat,
                                             rivals: seq<Batch>, attempt: nat)
    returns (last: nat)
    requires attempt < limit && WritesAtReadVersion(planner, lane)
    ensures attempt <= last <= limit
    ensures
      var (after, result) := Retry(doc, lane, planner, limit, rivals, attempt);
      var before := RivalsBetween(doc, rivals, attempt, last);
      || EndsAsPlanned(before, lane, planner, after, result)
      || (&& last == limit && after == before && result == Err(VersionConflict)
          && forall i :: attempt <= i < limit ==> Touches(BatchAt(rivals, i), lane))
    decreases limit - attempt
  {
    var batch := BatchAt(rivals, attempt);
    var during := Applied(doc, batch);
    AppliedVersion(doc, batch, lane);
    assert RivalsBetween(doc, rivals, attempt, attempt + 1) == during;
    if !planner(ReadLane(doc, lane)).Write? {
      last := attempt;
    } else if Touches(batch, lane) && attempt + 1 < limit {
      last := RetryLosesNothing(during, lane, planner, limit, rivals, attempt + 1);
    } else {
      last := attempt + 1;
    }
  }

  /** An update nobody interferes with ends as planned. */
  lemma AloneEndsAsPlanned(doc: Doc, call: LaneCall)
    ensures EndsAsPlanned(doc, call.laneId, PlannerOf(call), CallOutcome(doc, call, []).0, CallOutcome(doc, call, []).1)
  {
    CallsWriteAtReadVersion(call);
    assert Applied(doc, []) == doc;
  }
}
