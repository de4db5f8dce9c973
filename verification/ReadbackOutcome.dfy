/** What becomes of an operation and its lane when its outcome is recorded, and how an operation can
    change its state over runs. */
module ReadbackOutcome {
  import opened Wrappers
  import opened Records
  import opened StateStore
  import opened ClaimProtocol
  import opened ClaimExecution
  import opened ControlSystem
  import opened ControlInvariants
  import opened AtMostOnce

  // ---------------------------------------------------------------------------
  // A resolution left alone
  // ---------------------------------------------------------------------------

  /** The outcome of the operation is open. */
  predicate Ambiguous(op: OperationRecord) {
    op.state == InFlight || op.state == Unknown
  }

  /** The lane record but for what a resolution may change. */
  predicate ResolvedOnly(now: LaneRecord, was: LaneRecord) {
    now == was.(receipt := now.receipt, unknownWrite := now.unknownWrite, lease := now.lease, actionInFlight := now.actionInFlight)
  }

  /** The operation says what was observed, and nothing else of it changes. */
  predicate SaysObserved(now: OperationRecord, was: OperationRecord, observed: Option<bool>, evidence: Facts) {
    && (now.state == Confirmed <==> observed == Some(true))
    && (now.state == ReconciledNotObserved <==> observed == Some(false))
    && (now.state == Unknown <==> observed == None)
    && (now.reconciliationRequired <==> observed == None)
    && now.readback == Some(Readback(observed, evidence))
    && now.receipt.state == now.state && now.receipt.postCondition == now.readback
    && now == was.(state := now.state, reconciliationRequired := now.reconciliationRequired, readback := now.readback,
                   receipt := was.receipt.(state := now.receipt.state, postCondition := now.receipt.postCondition))
  }

  /** The lane is marked UNKNOWN exactly while nothing definite was observed; a definite answer frees a
      lease taken for this operation and no other. */
  predicate LaneSaysObserved(now: LaneRecord, was: LaneRecord, key: OperationKey, observed: Option<bool>) {
    var frees := observed.Some? && was.lease.Some? && was.lease.value.operationKey == key;
    && (now.unknownWrite == Some(key) <==> observed == None)
    && (now.unknownWrite == None <==> observed.Some?)
    && (now.lease == None <==> was.lease == None || frees)
    && (!frees ==> now.lease == was.lease && now.actionInFlight == was.actionInFlight)
    && (frees ==> now.actionInFlight == None)
    && ResolvedOnly(now, was)
  }

  /** A readback of an ambiguous operation of a readable lane. */
  lemma ReadbackSaysObserved(doc: Doc, lane: LaneId, key: OperationKey, observed: Option<bool>, evidence: Facts)
    requires ReadOperation(doc, key).Found? && Ambiguous(ReadOperation(doc, key).record)
    requires ReadOperation(doc, key).record.laneId == lane && ReadLane(doc, lane).Found?
    ensures
      var (after, end) := RunResolve(doc, lane, key, ReadBack(observed, evidence), ResolveStart);
      && end.Resolved? && ReadOperation(after, key).Found? && ReadLane(after, lane).Found?
      && end.operation == ReadOperation(after, key).record
      && SaysObserved(ReadOperation(after, key).record, ReadOperation(doc, key).record, observed, evidence)
      && LaneSaysObserved(ReadLane(after, lane).record, ReadLane(doc, lane).record, key, observed)
      && ReadLane(after, lane).record.receipt == Some(ReadOperation(after, key).record.receipt)
      && OthersUntouched(doc, after, lane, key)
  {
    ResolveAlone(doc, lane, key, ReadBack(observed, evidence));
    ResolvedSaysObserved(ReadOperation(doc, key).record, observed, evidence);
  }

  lemma ResolvedSaysObserved(op: OperationRecord, observed: Option<bool>, evidence: Facts)
    requires Ambiguous(op)
    ensures ResolveOperation(op, ReadBack(observed, evidence)).Ok?
    ensures SaysObserved(ResolveOperation(op, ReadBack(observed, evidence)).value, op, observed, evidence)
  {
    if observed.Some? {
      assert observed == Some(true) || !observed.value;
      assert observed == Some(false) || observed.value;
    }
  }

  /** Recording UNKNOWN, whatever state the operation is in. */
  lemma UnknownIsRecorded(doc: Doc, lane: LaneId, key: OperationKey, result: Facts)
    requires ReadOperation(doc, key).Found? && ReadOperation(doc, key).record.laneId == lane && ReadLane(doc, lane).Found?
    ensures
      var (after, end) := RunResolve(doc, lane, key, RecordUnknown(result), ResolveStart);
      && end.Resolved? && ReadOperation(after, key).Found? && ReadLane(after, lane).Found?
      && OthersUntouched(doc, after, lane, key)
      && var (was, op, before, r) := (ReadOperation(doc, key).record, ReadOperation(after, key).record,
                                      ReadLane(doc, lane).record, ReadLane(after, lane).record);
         && op.state == Unknown && op.reconciliationRequired && op.receipt.state == Unknown
         && op == was.(state := Unknown, reconciliationRequired := true,
                       receipt := was.receipt.(state := Unknown, facts := op.receipt.facts))
         && (forall f :: f in op.receipt.facts <==> f in was.receipt.facts || f in result)
         && (forall f :: f in op.receipt.facts ==>
               op.receipt.facts[f] == if f in result then result[f] else was.receipt.facts[f])
         && r == before.(unknownWrite := Some(key), receipt := Some(op.receipt))
  {
    ResolveAlone(doc, lane, key, RecordUnknown(result));
  }

  /** When a resolution goes through: on the lane's own operation, which must be ambiguous for a
      readback, and a readable lane. Where it is refused for the operation it changes nothing; where the
      lane cannot be read the operation is saved all the same. */
  lemma ResolutionGoesThroughExactlyWhen(doc: Doc, lane: LaneId, key: OperationKey, resolution: Resolution)
    ensures
      var (after, end) := RunResolve(doc, lane, key, resolution, ResolveStart);
      var read := ReadOperation(doc, key);
      var own := read.Found? && read.record.laneId == lane && (resolution.ReadBack? ==> Ambiguous(read.record));
      && (end.Resolved? <==> own && ReadLane(doc, lane).Found?)
      && (!end.Resolved? ==> end.ResolveFailed?)
      && (!own ==> after == doc)
      && (own && !ReadLane(doc, lane).Found? ==> after.lanes == doc.lanes && OperationVersion(after, key) == OperationVersion(doc, key) + 1)
  {
    var step := StepResolve(doc, lane, key, resolution, ResolveStart);
    assert RunResolve(doc, lane, key, resolution, ResolveStart) == RunResolve(doc, lane, key, resolution, step.pc);
    if step.pc.OperationSaving? {
      if ReadLane(doc, lane).Found? {
        ResolveAlone(doc, lane, key, resolution);
      } else {
        var saved := WriteOperation(doc, key, step.pc.operation);
        var step1 := StepResolve(doc, lane, key, resolution, step.pc);
        assert RunResolve(doc, lane, key, resolution, step.pc) == RunResolve(saved, lane, key, resolution, step1.pc);
        assert ReadLane(saved, lane) == ReadLane(doc, lane);
        var step2 := StepResolve(saved, lane, key, resolution, step1.pc);
        assert RunResolve(saved, lane, key, resolution, step1.pc) == RunResolve(saved, lane, key, resolution, step2.pc);
      }
    }
  }

  // ---------------------------------------------------------------------------
  // The states of an operation over runs
  // ---------------------------------------------------------------------------

  function StateOf(doc: Doc, key: OperationKey): Option<OperationState> {
    match ReadOperation(doc, key)
    case Found(_, op) => Some(op.state)
    case _ => None
  }

  /** What may move an operation from one state to another. */
  predicate StateMoves(runner: Runner, key: OperationKey, was: Option<OperationState>, now: Option<OperationState>) {
    was != now ==>
      match now
      case Some(InFlight) =>
        runner.Claimer? && runner.request.operationKey == key && (was == None || was == Some(ReconciledNotObserved))
      case Some(Confirmed) => ReadsBack(runner, key, Some(true)) && (was == Some(InFlight) || was == Some(OperationState.Unknown))
      case Some(ReconciledNotObserved) =>
        ReadsBack(runner, key, Some(false)) && (was == Some(InFlight) || was == Some(OperationState.Unknown))
      case Some(Unknown) => was.Some? && (RecordsUnknown(runner, key) || (ReadsBack(runner, key, None) && was == Some(InFlight)))
      case _ => false
  }

  predicate ReadsBack(runner: Runner, key: OperationKey, observed: Option<bool>) {
    runner.Resolver? && runner.key == key && runner.resolution.ReadBack? && runner.resolution.observed == observed
  }

  predicate RecordsUnknown(runner: Runner, key: OperationKey) {
    runner.Resolver? && runner.key == key && runner.resolution.RecordUnknown?
  }

  /** What a resolver saves is its resolution of the operation as it is stored now. */
  lemma SavedIsResolved(doc: Doc, lane: LaneId, key: OperationKey, resolution: Resolution, pc: ResolvePc)
    requires WellStored(doc) && ResolveFresh(doc, lane, key, resolution, pc)
    requires StepResolve(doc, lane, key, resolution, pc).change.OperationWrite?
    ensures
      var (change, read) := (StepResolve(doc, lane, key, resolution, pc).change, ReadOperation(doc, key));
      && change.key == key && read.Found?
      && ResolveOperation(read.record, resolution) == Ok(change.operation)
  {
  }

  lemma ResolvedState(op: OperationRecord, resolution: Resolution)
    requires ResolveOperation(op, resolution).Ok?
    ensures
      var now := ResolveOperation(op, resolution).value.state;
      match resolution
      case RecordUnknown(_) => now == Unknown
      case ReadBack(observed, _) =>
        && Ambiguous(op)
        && now == match observed
                  case Some(true) => Confirmed
                  case Some(false) => ReconciledNotObserved
                  case None => Unknown
  {
  }

  lemma StateOfMove(doc: Doc, runner: Runner, key: OperationKey)
    requires WellStored(doc) && Fresh(doc, runner) && RunnerFits(runner)
    requires runner.Claimer? ==> ClaimCleared(runner.request, runner.claim)
    ensures StateMoves(runner, key, StateOf(doc, key), StateOf(Apply(doc, MoveOf(doc, runner).change), key))
  {
    var change := MoveOf(doc, runner).change;
    if !change.OperationWrite? {
      assert ReadOperation(Apply(doc, change), key) == ReadOperation(doc, key);
    } else if runner.Resolver? {
      SavedIsResolved(doc, runner.laneId, runner.key, runner.resolution, runner.resolve);
      ResolvedState(ReadOperation(doc, runner.key).record, runner.resolution);
    } else {
      MoveIsWellMoved(doc, runner);
      StateOfClaim(doc, runner, key);
    }
  }

  lemma StateOfClaim(doc: Doc, runner: Runner, key: OperationKey)
    requires WellStored(doc) && RunnerFits(runner) && !runner.Resolver? && WellMoved(doc, runner, MoveOf(doc, runner))
    requires MoveOf(doc, runner).change.OperationWrite?
    ensures StateMoves(runner, key, StateOf(doc, key), StateOf(Apply(doc, MoveOf(doc, runner).change), key))
  {
  }

  /** In every run an operation becomes CONFIRMED only by a readback that observed it, "not observed"
      only by one that did not, and either only from an open state; it becomes IN_FLIGHT only by a claim
      of it while it is absent or not observed, and UNKNOWN only by being recorded so. */
  lemma OperationStateMoves(run: seq<Action>, action: Action, key: OperationKey)
    requires Legal(run) && Enabled(After(run), action)
    ensures
      var (was, now) := (StateOf(After(run).doc, key), StateOf(Perform(After(run), action).doc, key));
      if action.Step? then StateMoves(After(run).slots[action.id].runner, key, was, now) else was == now
  {
    AlwaysClaimsSafe(run);
    if action.Step? {
      StateOfMove(After(run).doc, After(run).slots[action.id].runner, key);
    }
  }
}
