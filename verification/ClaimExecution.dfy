/** `claim_operation`, `record_unknown_write` and `record_authoritative_readback` as they run on a
    store object; run without interference they are the protocol's steps taken in a row. */
module ClaimExecution {
  import opened Wrappers
  import opened Records
  import opened StateStore
  import opened Authority
  import opened ClaimProtocol

  function Remaining(pc: ClaimPc): nat {
    match pc
    case Start => 10
    case LaneChecked(_) => 9
    case Authorized(_, _, _) => 8
    case Leased(_, _, _, _) => 7
    case Consuming(_, _, _, _, _, _, _) => 6
    case Persisting(_, _, _, _, _) => 5
    case Persisted(_, _, _, _) => 4
    case Linking(_, _, _, _, _) => 3
    case ReleaseReading(_, _) => 2
    case Releasing(_, _, _, _) => 1
    case Done(_) => 0
  }

  lemma StepAdvances(doc: Doc, req: ClaimRequest, pc: ClaimPc)
    requires PcFits(req, pc) && !pc.Done?
    ensures PcFits(req, StepClaim(doc, req, pc).pc)
    ensures Remaining(StepClaim(doc, req, pc).pc) < Remaining(pc)
  {
  }

  /** A claimant left alone from some point of the protocol. */
  function RunClaim(doc: Doc, req: ClaimRequest, pc: ClaimPc): (Doc, ClaimDecision)
    requires PcFits(req, pc)
    decreases Remaining(pc)
  {
    if pc.Done? then (doc, pc.decision)
    else
      StepAdvances(doc, req, pc);
      var step := StepClaim(doc, req, pc);
      RunClaim(Apply(doc, step.change), req, step.pc)
  }

  /** Gives the lease back without reporting a failure to do so. */
  method ReleaseQuietly(store: DeterministicStateStore, req: ClaimRequest, leaseId: LeaseId, ghost reason: ClaimDenial)
    requires store.Valid()
    modifies store
    ensures store.Valid()
    ensures RunClaim(old(store.Contents()), req, ReleaseReading(leaseId, reason)) == (store.Contents(), Denied(reason))
  {
    ghost var doc := store.Contents();
    ghost var step := StepClaim(doc, req, ReleaseReading(leaseId, reason));
    assert RunClaim(doc, req, ReleaseReading(leaseId, reason)) == RunClaim(doc, req, step.pc);
    if step.pc.Releasing? {
      ghost var step1 := StepClaim(doc, req, step.pc);
      assert RunClaim(doc, req, step.pc) == RunClaim(Apply(doc, step1.change), req, step1.pc);
    }
    var _ := store.ReleaseLease(req.laneId, leaseId);
  }

  /** Draws one effect from the grant that authorised the claim, under the owned lease. */
  method ConsumeCanary(store: DeterministicStateStore, req: ClaimRequest, ghost pc: ClaimPc,
                       event: string, leaseId: LeaseId) returns (drawn: Option<nat>)
    requires store.Valid() && req.effect.Some?
    requires pc.Leased? && pc.event == event && pc.leaseId == leaseId
    modifies store
    ensures store.Valid()
    ensures
      RunClaim(old(store.Contents()), req, pc) ==
      RunClaim(store.Contents(), req,
               if drawn.Some? then Persisting(pc.lane, pc.existing, event, leaseId, drawn)
               else ReleaseReading(leaseId, CanaryGrantConsumptionFailed))
  {
    ghost var doc := store.Contents();
    ghost var step := StepClaim(doc, req, pc);
    assert RunClaim(doc, req, pc) == RunClaim(doc, req, step.pc);
    var read := store.ReadWorkstream(req.laneId);
    if !read.Found? { return None; }
    var record := read.record;
    if record.lease.None? || record.lease.value.id != leaseId { return None; }
    var matched := MatchingGrants(record.grants, req.effect.value, Some(event));
    if |matched| != 1 || record.grants[matched[0]].Consumed() { return None; }
    var saved := store.CompareAndSwapWorkstream(req.laneId, read.version, Draw(record, matched[0], req.operationKey));
    if saved.Err? { return None; }
    drawn := Some(matched[0]);
  }

  /** Fail closed: lane, effect, idempotency and authority, then the lease, then durable IN_FLIGHT. */
  method ClaimOperation(store: DeterministicStateStore, req: ClaimRequest) returns (decision: ClaimDecision)
    requires store.Valid()
    modifies store
    ensures store.Valid()
    ensures RunClaim(old(store.Contents()), req, Start) == (store.Contents(), decision)
  {
    ghost var doc := store.Contents();
    ghost var step := StepClaim(doc, req, Start);
    assert RunClaim(doc, req, Start) == RunClaim(doc, req, step.pc);
    var ws := store.ReadWorkstream(req.laneId);
    if !ws.Found? { return Denied(ShadowStateUnavailable); }
    var record := ws.record;
    if record.mode == Shadow { return Denied(ShadowModeActive); }
    if req.effect.None? { return Denied(EffectIdentityRequired); }
    var effect := req.effect.value;
    if !EffectMatchesRecord(record, effect) || effect.laneId != req.laneId {
      return Denied(EffectIdentityLaneMismatch);
    }
    if req.action != effect.action || req.operationKey != EffectOperationKey(effect) {
      return Denied(EffectIdentityMismatch);
    }

    ghost var step2 := StepClaim(doc, req, LaneChecked(record));
    assert RunClaim(doc, req, Start) == RunClaim(doc, req, step2.pc);
    var existing := store.ReadOperationRecord(req.operationKey);
    if existing.Corrupt? { return Denied(CorruptOperationState); }
    var verdict := EvaluateIdempotency(req.operationKey, req.requestDigest, ExistingRecords(existing));
    if !verdict.SafeToExecute() { return Denied(NotIdempotent(verdict)); }
    var authority := Authorize(req, record);
    if authority.NotAllowed? { return Denied(AuthorityDenied(authority.denial)); }
    var event := authority.authorityEventId;

    ghost var step3 := StepClaim(doc, req, Authorized(record, existing, event));
    assert RunClaim(doc, req, Start) == RunClaim(Apply(doc, step3.change), req, step3.pc);
    var acquired := store.AcquireLease(req.laneId, req.owner, req.operationKey, req.ttl, req.now);
    if acquired.Err? {
      return Denied(if acquired.error == InvalidTtl then TtlRaised else LeaseConflictOrStateUnavailable);
    }
    var leaseId := acquired.value.0.id;

    var drawn := None;
    if record.mode == Canary {
      drawn := ConsumeCanary(store, req, Leased(record, existing, event, leaseId), event, leaseId);
      if drawn.None? {
        ReleaseQuietly(store, req, leaseId, CanaryGrantConsumptionFailed);
        return Denied(CanaryGrantConsumptionFailed);
      }
    }

    var pc := Persisting(record, existing, event, leaseId, drawn);
    assert RunClaim(doc, req, Start) == RunClaim(store.Contents(), req, pc);
    decision := PersistAndLink(store, req, pc);
  }

  /** The durable IN_FLIGHT record, then its receipt on the lane. */
  method PersistAndLink(store: DeterministicStateStore, req: ClaimRequest, pc: ClaimPc) returns (decision: ClaimDecision)
    requires store.Valid() && pc.Persisting?
    modifies store
    ensures store.Valid()
    ensures RunClaim(old(store.Contents()), req, pc) == (store.Contents(), decision)
  {
    ghost var doc := store.Contents();
    ghost var step := StepClaim(doc, req, pc);
    assert RunClaim(doc, req, pc) == RunClaim(Apply(doc, step.change), req, step.pc);
    var op := InFlightRecord(req, pc);
    var saved := store.CompareAndSwapOperation(req.operationKey, ExpectedVersion(pc.existing), op);
    if saved.Err? {
      ReleaseQuietly(store, req, pc.leaseId, OperationClaimRace);
      return Denied(OperationClaimRace);
    }

    ghost var doc1 := store.Contents();
    ghost var step1 := StepClaim(doc1, req, step.pc);
    assert RunClaim(doc1, req, step.pc) == RunClaim(doc1, req, step1.pc);
    var after := store.ReadWorkstream(req.laneId);
    if after.Found? {
      ghost var step2 := StepClaim(doc1, req, step1.pc);
      assert RunClaim(doc1, req, step1.pc) == RunClaim(Apply(doc1, step2.change), req, step2.pc);
      var runtime := after.record.(operationKey := Some(req.operationKey), receipt := Some(op.receipt));
      var linked := store.CompareAndSwapWorkstream(req.laneId, after.version, runtime);
      if linked.Err? { return ClaimedReconcileWorkstreamRequired(saved.value, pc.leaseId); }
    }
    decision := Claimed(saved.value, pc.leaseId, pc.drawn);
  }

  // ---------------------------------------------------------------------------
  // Resolving an operation
  // ---------------------------------------------------------------------------

  function ResolveRemaining(pc: ResolvePc): nat {
    match pc
    case ResolveStart => 4
    case OperationSaving(_, _) => 3
    case OperationSaved(_) => 2
    case LaneSaving(_, _, _) => 1
    case _ => 0
  }

  /** A resolver left alone from some point on. */
  function RunResolve(doc: Doc, lane: LaneId, key: OperationKey, resolution: Resolution, pc: ResolvePc): (Doc, ResolvePc)
    decreases ResolveRemaining(pc)
  {
    if pc.Resolved? || pc.ResolveFailed? then (doc, pc)
    else
      var step := StepResolve(doc, lane, key, resolution, pc);
      RunResolve(Apply(doc, step.change), lane, key, resolution, step.pc)
  }

  /** A lone resolution of a stored operation on a stored lane ends in the two writes it plans. */
  lemma ResolveAlone(doc: Doc, lane: LaneId, key: OperationKey, resolution: Resolution)
    requires ReadOperation(doc, key).Found? && ReadLane(doc, lane).Found?
    requires ReadOperation(doc, key).record.laneId == lane
    ensures
      var resolved := ResolveOperation(ReadOperation(doc, key).record, resolution);
      var (after, pc) := RunResolve(doc, lane, key, resolution, ResolveStart);
      if resolved.Err? then after == doc && pc.ResolveFailed?
      else
        && pc == Resolved(resolved.value)
        && after == WriteLane(WriteOperation(doc, key, resolved.value), lane,
                              ResolveLane(ReadLane(doc, lane).record, key, resolved.value, resolution))
  {
    var step := StepResolve(doc, lane, key, resolution, ResolveStart);
    assert RunResolve(doc, lane, key, resolution, ResolveStart) == RunResolve(doc, lane, key, resolution, step.pc);
    if step.pc.OperationSaving? {
      var saved := WriteOperation(doc, key, step.pc.operation);
      var step1 := StepResolve(doc, lane, key, resolution, step.pc);
      assert RunResolve(doc, lane, key, resolution, step.pc) == RunResolve(saved, lane, key, resolution, step1.pc);
      var step2 := StepResolve(saved, lane, key, resolution, step1.pc);
      assert RunResolve(saved, lane, key, resolution, step1.pc) == RunResolve(saved, lane, key, resolution, step2.pc);
      assert ReadLane(saved, lane) == ReadLane(doc, lane);
      var step3 := StepResolve(saved, lane, key, resolution, step2.pc);
      assert RunResolve(saved, lane, key, resolution, step2.pc)
          == RunResolve(Apply(saved, step3.change), lane, key, resolution, step3.pc);
    }
  }

  function ResolveResult(pc: ResolvePc): Result<OperationRecord, StoreError> {
    match pc
    case Resolved(op) => Ok(op)
    case ResolveFailed(e) => Err(e)
    case _ => Err(Unavailable)
  }

  /** Saves the resolved operation, then its consequences for the lane. */
  method SaveResolution(store: DeterministicStateStore, lane: LaneId, key: OperationKey, resolution: Resolution,
                        version: nat, op: OperationRecord)
    returns (saved: Result<OperationRecord, StoreError>)
    requires store.Valid()
    modifies store
    ensures store.Valid()
    ensures
      var (doc, pc) := RunResolve(old(store.Contents()), lane, key, resolution, OperationSaving(version, op));
      store.Contents() == doc && saved == ResolveResult(pc)
  {
    ghost var doc0 := store.Contents();
    ghost var step := StepResolve(doc0, lane, key, resolution, OperationSaving(version, op));
    assert RunResolve(doc0, lane, key, resolution, OperationSaving(version, op))
        == RunResolve(Apply(doc0, step.change), lane, key, resolution, step.pc);
    var first := store.CompareAndSwapOperation(key, version, op);
    if first.Err? { return Err(first.error); }
    ghost var doc1 := store.Contents();
    ghost var step1 := StepResolve(doc1, lane, key, resolution, OperationSaved(op));
    assert RunResolve(doc1, lane, key, resolution, OperationSaved(op)) == RunResolve(doc1, lane, key, resolution, step1.pc);
    var ws := store.ReadWorkstream(lane);
    if !ws.Found? { return Err(Unavailable); }
    ghost var step2 := StepResolve(doc1, lane, key, resolution, step1.pc);
    assert RunResolve(doc1, lane, key, resolution, step1.pc)
        == RunResolve(Apply(doc1, step2.change), lane, key, resolution, step2.pc);
    var second := store.CompareAndSwapWorkstream(lane, ws.version, ResolveLane(ws.record, key, op, resolution));
    match second
    case Ok(_) => saved := Ok(op);
    case Err(e) => saved := Err(e);
  }

  method RecordUnknownWrite(store: DeterministicStateStore, lane: LaneId, key: OperationKey, result: Facts)
    returns (saved: Result<OperationRecord, StoreError>)
    requires store.Valid()
    modifies store
    ensures store.Valid()
    ensures
      var (doc, pc) := RunResolve(old(store.Contents()), lane, key, RecordUnknown(result), ResolveStart);
      store.Contents() == doc && saved == ResolveResult(pc)
  {
    ghost var doc := store.Contents();
    ghost var step := StepResolve(doc, lane, key, RecordUnknown(result), ResolveStart);
    assert RunResolve(doc, lane, key, RecordUnknown(result), ResolveStart)
        == RunResolve(doc, lane, key, RecordUnknown(result), step.pc);
    var read := store.ReadOperationRecord(key);
    if !read.Found? { return Err(Unavailable); }
    var op := read.record;
    if op.laneId != lane { return Err(Refused); }
    op := op.(state := Unknown, reconciliationRequired := true,
              receipt := op.receipt.(state := Unknown, facts := op.receipt.facts + result));
    saved := SaveResolution(store, lane, key, RecordUnknown(result), read.version, op);
  }

  /** Resolves an ambiguous operation only from authoritative post-state. */
  method RecordAuthoritativeReadback(store: DeterministicStateStore, lane: LaneId, key: OperationKey,
                                     observed: Option<bool>, evidence: Facts)
    returns (saved: Result<OperationRecord, StoreError>)
    requires store.Valid()
    modifies store
    ensures store.Valid()
    ensures
      var (doc, pc) := RunResolve(old(store.Contents()), lane, key, ReadBack(observed, evidence), ResolveStart);
      store.Contents() == doc && saved == ResolveResult(pc)
  {
    ghost var doc := store.Contents();
    ghost var step := StepResolve(doc, lane, key, ReadBack(observed, evidence), ResolveStart);
    assert RunResolve(doc, lane, key, ReadBack(observed, evidence), ResolveStart)
        == RunResolve(doc, lane, key, ReadBack(observed, evidence), step.pc);
    var read := store.ReadOperationRecord(key);
    if !read.Found? { return Err(Unavailable); }
    var op := read.record;
    if op.laneId != lane { return Err(Refused); }
    if op.state != InFlight && op.state != Unknown { return Err(Refused); }
    var readback := Readback(observed, evidence);
    var state := if observed == Some(true) then Confirmed
                 else if observed == Some(false) then ReconciledNotObserved else Unknown;
    op := op.(state := state, reconciliationRequired := observed.None?, readback := Some(readback),
              receipt := op.receipt.(state := state, postCondition := Some(readback)));
    saved := SaveResolution(store, lane, key, ReadBack(observed, evidence), read.version, op);
  }
}
