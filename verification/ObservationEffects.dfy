/** The observation the runtime uses: it remembers an unresolved transition, observes, and puts the
    transition back. When the mark survives, when it comes back too late, and which mark it forgets. */
module ObservationEffects {
  import opened Wrappers
  import opened Records
  import opened StateStore
  import opened LaneCalls
  import opened LaneCallExecution
  import opened ControlSystem
  import opened ControlInvariants

  // ---------------------------------------------------------------------------
  // The marks of a lane over runs
  // ---------------------------------------------------------------------------

  /** What may change the pending mark of a lane. */
  predicate PendingMoves(runner: Runner, was: Evidence, now: Evidence) {
    now.pending != was.pending ==>
      runner.Writer? &&
      match runner.call
      case PersistPending(_, t) => now.pending == Some(t)
      case ClearPending(_, key) => now.pending == None && was.pending.Some? && was.pending.value.transitionKey == key
      case ObserveLane(_, _, _, _, _) => now.pending == None
      case RestoreObserved(_, t, _) => now.pending == Some(t)
      case _ => false
  }

  /** What may change the pending mark of a first generation. */
  predicate PendingInitialMoves(runner: Runner, was: Evidence, now: Evidence) {
    now.pendingInitial != was.pendingInitial ==>
      runner.Writer? &&
      match runner.call
      case PersistPendingInitial(_, t) => now.pendingInitial == Some(t)
      case BindInitial(_, _, _, _) => now.pendingInitial == None
      case ObserveLane(_, _, _, _, _) => now.pendingInitial == None
      case _ => false
  }

  lemma MarksOfMove(doc: Doc, runner: Runner)
    requires WellStored(doc) && Fresh(doc, runner) && RunnerFits(runner)
    ensures
      var change := MoveOf(doc, runner).change;
      change.LaneWrite? ==>
        && PendingMoves(runner, EvidenceAt(doc, change.lane), change.record.evidence)
        && PendingInitialMoves(runner, EvidenceAt(doc, change.lane), change.record.evidence)
  {
    var change := MoveOf(doc, runner).change;
    if change.LaneWrite? {
      if runner.Writer? { MarksOfWriter(doc, runner); } else { assert change.record.evidence == EvidenceAt(doc, change.lane); }
    }
  }

  lemma MarksOfWriter(doc: Doc, runner: Runner)
    requires WellStored(doc) && Fresh(doc, runner) && runner.Writer? && MoveOf(doc, runner).change.LaneWrite?
    ensures
      var change := MoveOf(doc, runner).change;
      && PendingMoves(runner, EvidenceAt(doc, change.lane), change.record.evidence)
      && PendingInitialMoves(runner, EvidenceAt(doc, change.lane), change.record.evidence)
  {
    var read := ReadLane(doc, runner.call.laneId);
    assert read.Found? ==> read.record.evidence == EvidenceAt(doc, runner.call.laneId);
  }

  lemma MarksMoved(s: System, id: RunnerId, move: Move, lane: LaneId)
    requires id in s.slots && WellStored(s.doc) && ProperChange(move.change)
    requires move.change.LaneWrite? ==>
      && PendingMoves(s.slots[id].runner, EvidenceAt(s.doc, move.change.lane), move.change.record.evidence)
      && PendingInitialMoves(s.slots[id].runner, EvidenceAt(s.doc, move.change.lane), move.change.record.evidence)
    ensures PendingMoves(s.slots[id].runner, EvidenceAt(s.doc, lane), EvidenceAt(Moved(s, id, move).doc, lane))
    ensures PendingInitialMoves(s.slots[id].runner, EvidenceAt(s.doc, lane), EvidenceAt(Moved(s, id, move).doc, lane))
  {
  }

  /** In every run a pending transition disappears by being cleared under its own key, replaced or
      observed away, and returns by being persisted or restored; the pending mark of a first generation
      is set by persisting it and by nothing else: what an observation drops of it is never restored. */
  lemma MarksMoveOnlyBy(run: seq<Action>, action: Action, lane: LaneId)
    requires Legal(run) && Enabled(After(run), action)
    ensures
      var was, now := EvidenceAt(After(run).doc, lane), EvidenceAt(Perform(After(run), action).doc, lane);
      if action.Step? then
        && PendingMoves(After(run).slots[action.id].runner, was, now)
        && PendingInitialMoves(After(run).slots[action.id].runner, was, now)
      else now == was
  {
    AlwaysSound(run);
    var s := After(run);
    if action.Step? {
      MoveIsFresh(s.doc, s.slots[action.id].runner);
      MarksOfMove(s.doc, s.slots[action.id].runner);
      MarksMoved(s, action.id, MoveOf(s.doc, s.slots[action.id].runner), lane);
    }
  }

  // ---------------------------------------------------------------------------
  // The observation with its restoration
  // ---------------------------------------------------------------------------

  /** The writes of others: between the first read and the observation, during its swap, before the
      first attempt to restore, and during each attempt. */
  datatype Interference = Interference(before: Batch, during: Batch, between: Batch, restoring: seq<Batch>)

  datatype ObserverEnd = ObservationRaised | ObservedOnly | CrashedBetween | EffectsPreserved | RestoreRaised

  function RestoreCall(lane: LaneRecord): LaneCall
    requires lane.evidence.pending.Some?
  {
    RestoreObserved(lane.laneId, lane.evidence.pending.value, lane.unknownWrite)
  }

  /** Read, observe, restore; `crash` stops the runner between the two writes. */
  function ObservePreserving(doc: Doc, call: LaneCall, others: Interference, crash: bool): (Doc, ObserverEnd)
    requires call.ObserveLane?
  {
    var read := ReadLane(doc, call.laneId);
    var (observed, result) := CallOutcome(Applied(doc, others.before), call, [others.during]);
    if result.Err? then (observed, ObservationRaised)
    else if !read.Found? || read.record.evidence.pending.None? then (observed, ObservedOnly)
    else if crash then (observed, CrashedBetween)
    else
      var (restored, saved) := CallOutcome(Applied(observed, others.between), RestoreCall(read.record), others.restoring);
      (restored, if saved.Ok? then EffectsPreserved else RestoreRaised)
  }

  /** Every write of the batch to the lane is of that lane and keeps the pending mark it finds. */
  predicate KeepsPending(doc: Doc, batch: Batch, lane: LaneId) {
    batch == [] ||
    (var init, last := batch[..|batch| - 1], batch[|batch| - 1];
     && KeepsPending(doc, init, lane)
     && (last.0 == lane ==> last.1.laneId == lane && last.1.evidence.pending == EvidenceAt(Applied(doc, init), lane).pending))
  }

  predicate RestoringKeepsPending(doc: Doc, restoring: seq<Batch>, attempt: nat, lane: LaneId)
    decreases 3 - attempt
  {
    attempt >= 3 ||
    (&& KeepsPending(doc, BatchAt(restoring, attempt), lane)
     && RestoringKeepsPending(Applied(doc, BatchAt(restoring, attempt)), restoring, attempt + 1, lane))
  }

  /** The others write what they like to the lane but keep its pending mark as they find it. */
  predicate OthersKeepPending(doc: Doc, call: LaneCall, others: Interference)
    requires call.ObserveLane?
  {
    var before := Applied(doc, others.before);
    var observed := CallOutcome(before, call, [others.during]).0;
    && KeepsPending(doc, others.before, call.laneId)
    && KeepsPending(before, others.during, call.laneId)
    && KeepsPending(observed, others.between, call.laneId)
    && RestoringKeepsPending(Applied(observed, others.between), others.restoring, 0, call.laneId)
  }

  lemma {:induction false} KeptPending(doc: Doc, batch: Batch, lane: LaneId)
    requires KeepsPending(doc, batch, lane) && ReadLane(doc, lane).Found?
    ensures ReadLane(Applied(doc, batch), lane).Found?
    ensures EvidenceAt(Applied(doc, batch), lane).pending == EvidenceAt(doc, lane).pending
  {
    if batch != [] {
      KeptPending(doc, batch[..|batch| - 1], lane);
    }
  }

  /** Some attempt to restore finds nobody on the lane. */
  predicate LeftAlone(restoring: seq<Batch>, attempt: nat, lane: LaneId) {
    exists i :: attempt <= i < 3 && !Touches(BatchAt(restoring, i), lane)
  }

  /** The restoration lands exactly when one of its three attempts is left alone. */
  lemma {:induction false} RestoreLandsExactlyWhen(doc: Doc, call: LaneCall, restoring: seq<Batch>, attempt: nat)
    requires call.RestoreObserved? && attempt < 3 && ReadLane(doc, call.laneId).Found?
    requires RestoringKeepsPending(doc, restoring, attempt, call.laneId)
    ensures
      var (after, result) := Retry(doc, call.laneId, PlannerOf(call), 3, restoring, attempt);
      && (result.Ok? <==> LeftAlone(restoring, attempt, call.laneId))
      && EvidenceAt(after, call.laneId).pending ==
           if result.Ok? then Some(call.remembered) else EvidenceAt(doc, call.laneId).pending
    decreases 3 - attempt
  {
    var lane, batch := call.laneId, BatchAt(restoring, attempt);
    var during := Applied(doc, batch);
    AppliedVersion(doc, batch, lane);
    KeptPending(doc, batch, lane);
    if Touches(batch, lane) && attempt + 1 < 3 {
      RestoreLandsExactlyWhen(during, call, restoring, attempt + 1);
      LeftAloneLater(restoring, attempt, lane);
    }
  }

  lemma LeftAloneLater(restoring: seq<Batch>, attempt: nat, lane: LaneId)
    requires attempt < 3 && Touches(BatchAt(restoring, attempt), lane)
    ensures LeftAlone(restoring, attempt, lane) <==> LeftAlone(restoring, attempt + 1, lane)
  {
  }

  lemma ObservationLandsExactlyWhen(doc: Doc, call: LaneCall, during: Batch)
    requires call.ObserveLane? && ReadLane(doc, call.laneId).Found? && KeepsPending(doc, during, call.laneId)
    ensures
      var (after, result) := CallOutcome(doc, call, [during]);
      && (result.Ok? <==> !Touches(during, call.laneId))
      && ReadLane(after, call.laneId).Found?
      && EvidenceAt(after, call.laneId).pending == if result.Ok? then None else EvidenceAt(doc, call.laneId).pending
  {
    AppliedVersion(doc, during, call.laneId);
    KeptPending(doc, during, call.laneId);
    assert BatchAt([during], 0) == during;
  }

  /** A pending transition survives an observation exactly when the observation lost its own swap, or
      the runner did not crash between its two writes and one of the three attempts to restore was left
      alone. */
  lemma PendingSurvivesExactlyWhen(doc: Doc, call: LaneCall, others: Interference, crash: bool)
    requires call.ObserveLane? && ReadLane(doc, call.laneId).Found? && EvidenceAt(doc, call.laneId).pending.Some?
    requires OthersKeepPending(doc, call, others)
    ensures EvidenceAt(ObservePreserving(doc, call, others, crash).0, call.laneId).pending == EvidenceAt(doc, call.laneId).pending
       <==> Touches(others.during, call.laneId) || (!crash && LeftAlone(others.restoring, 0, call.laneId))
  {
    var lane, read := call.laneId, ReadLane(doc, call.laneId);
    var before := Applied(doc, others.before);
    KeptPending(doc, others.before, lane);
    ObservationLandsExactlyWhen(before, call, others.during);
    var (observed, result) := CallOutcome(before, call, [others.during]);
    if result.Ok? && !crash {
      KeptPending(observed, others.between, lane);
      RestoreLandsExactlyWhen(Applied(observed, others.between), RestoreCall(read.record), others.restoring, 0);
    }
  }

  // ---------------------------------------------------------------------------
  // What restoring overwrites
  // ---------------------------------------------------------------------------

  /** Whatever others wrote in the meantime: a restoration that succeeds puts back the transition and
      the UNKNOWN mark that were read at first, even if both were resolved since. */
  lemma {:induction false} RestoreOverwrites(doc: Doc, call: LaneCall, limit: nat, restoring: seq<Batch>, attempt: nat)
    requires call.RestoreObserved? && attempt < limit
    requires Retry(doc, call.laneId, PlannerOf(call), limit, restoring, attempt).1.Ok?
    ensures
      var after := Retry(doc, call.laneId, PlannerOf(call), limit, restoring, attempt).0;
      && ReadLane(after, call.laneId).Found?
      && EvidenceAt(after, call.laneId).pending == Some(call.remembered)
      && (call.unknown.Some? ==> ReadLane(after, call.laneId).record.unknownWrite == call.unknown)
    decreases limit - attempt
  {
    var during := Applied(doc, BatchAt(restoring, attempt));
    var plan := PlannerOf(call)(ReadLane(doc, call.laneId));
    assert plan.Write?;
    if LaneSwapError(during, call.laneId, plan.expected, plan.record).Some? {
      RestoreOverwrites(during, call, limit, restoring, attempt + 1);
    }
  }

  lemma PreservingRestoresWhatItRead(doc: Doc, call: LaneCall, others: Interference, crash: bool)
    requires call.ObserveLane? && ObservePreserving(doc, call, others, crash).1.EffectsPreserved?
    ensures
      var after, was := ObservePreserving(doc, call, others, crash).0, ReadLane(doc, call.laneId);
      && was.Found? && was.record.evidence.pending.Some?
      && ReadLane(after, call.laneId).Found?
      && EvidenceAt(after, call.laneId).pending == was.record.evidence.pending
      && (was.record.unknownWrite.Some? ==> ReadLane(after, call.laneId).record.unknownWrite == was.record.unknownWrite)
  {
    var read := ReadLane(doc, call.laneId);
    var observed := CallOutcome(Applied(doc, others.before), call, [others.during]).0;
    assert read.record.laneId == call.laneId;
    RestoreOverwrites(Applied(observed, others.between), RestoreCall(read.record), 3, others.restoring, 0);
  }

  // ---------------------------------------------------------------------------
  // On a store object
  // ---------------------------------------------------------------------------

  method ObservePreservingEffects(store: DeterministicStateStore, call: LaneCall, others: Interference, crash: bool)
    returns (end: ObserverEnd)
    requires store.Valid() && AllParse(store.Contents()) && call.ObserveLane?
    requires ProperBatch(others.before) && ProperBatch(others.during) && ProperBatch(others.between)
    requires forall i :: 0 <= i < |others.restoring| ==> ProperBatch(others.restoring[i])
    modifies store
    ensures store.Valid()
    ensures (store.Contents(), end) == ObservePreserving(old(store.Contents()), call, others, crash)
  {
    var read := store.ReadWorkstream(call.laneId);
    LetOthersWrite(store, others.before);
    var observed := RunCall(store, call, [others.during]);
    if observed.Err? { return ObservationRaised; }
    if !read.Found? || read.record.evidence.pending.None? { return ObservedOnly; }
    if crash { return CrashedBetween; }
    LetOthersWrite(store, others.between);
    var saved := RunCall(store, RestoreCall(read.record), others.restoring);
    end := if saved.Ok? then EffectsPreserved else RestoreRaised;
  }
}
