/** `claim_operation` and the two ways an operation is resolved afterwards, cut at every store
    call: between two steps of one runner any other runner may act on the document. */
module ClaimProtocol {
  import opened Wrappers
  import opened Records
  import opened StateStore
  import opened Authority

  /** What one atomic store call writes. */
  datatype Change =
    | NoChange
    | LaneWrite(lane: LaneId, record: LaneRecord)
    | OperationWrite(key: OperationKey, operation: OperationRecord)

  function Apply(doc: Doc, change: Change): Doc {
    match change
    case NoChange => doc
    case LaneWrite(lane, record) => WriteLane(doc, lane, record)
    case OperationWrite(key, op) => WriteOperation(doc, key, op)
  }

  // ---------------------------------------------------------------------------
  // Claiming
  // ---------------------------------------------------------------------------

  datatype ClaimRequest = ClaimRequest(
    laneId: LaneId, owner: string, operationKey: OperationKey, action: string,
    requestDigest: string, ttl: int, facts: Facts, effect: Option<EffectIdentity>,
    authorization: Option<MutationAuthorization>, observedStart: Facts,
    canaryEvent: Option<string>, now: int)

  datatype ClaimDenial =
    | ShadowStateUnavailable
    | ShadowModeActive
    | EffectIdentityRequired
    | EffectIdentityLaneMismatch
    | EffectIdentityMismatch
    | CorruptOperationState
    | NotIdempotent(verdict: Idempotency)
    | AuthorityDenied(denial: AuthorityDenial)
    | LeaseConflictOrStateUnavailable
    | CanaryGrantConsumptionFailed
    | OperationClaimRace
    | TtlRaised

  datatype ClaimDecision =
    | Claimed(operationVersion: nat, leaseId: LeaseId, drawn: Option<nat>)
    | ClaimedReconcileWorkstreamRequired(operationVersion: nat, leaseId: LeaseId)
    | Denied(reason: ClaimDenial)

  /** Where a claimant stands; each value carries the local variables still alive there. */
  datatype ClaimPc =
    | Start
    | LaneChecked(lane: LaneRecord)
    | Authorized(lane: LaneRecord, existing: Read<OperationRecord>, event: string)
    | Leased(lane: LaneRecord, existing: Read<OperationRecord>, event: string, leaseId: LeaseId)
    | Consuming(lane: LaneRecord, existing: Read<OperationRecord>, event: string, leaseId: LeaseId,
                version: nat, index: nat, updated: LaneRecord)
    | Persisting(lane: LaneRecord, existing: Read<OperationRecord>, event: string, leaseId: LeaseId,
                 drawn: Option<nat>)
    | ReleaseReading(leaseId: LeaseId, reason: ClaimDenial)
    | Releasing(leaseId: LeaseId, reason: ClaimDenial, version: nat, updated: LaneRecord)
    | Persisted(leaseId: LeaseId, operationVersion: nat, receipt: Receipt, drawn: Option<nat>)
    | Linking(leaseId: LeaseId, operationVersion: nat, drawn: Option<nat>, version: nat, updated: LaneRecord)
    | Done(decision: ClaimDecision)

  /** One step: the write, the next point, and the lease it granted or gave back. */
  datatype ClaimStep = ClaimStep(change: Change, pc: ClaimPc)

  function Deny(reason: ClaimDenial): ClaimStep {
    ClaimStep(NoChange, Done(Denied(reason)))
  }

  function CheckLane(doc: Doc, req: ClaimRequest): ClaimStep {
    match ReadLane(doc, req.laneId)
    case Missing => Deny(ShadowStateUnavailable)
    case Corrupt => Deny(ShadowStateUnavailable)
    case Found(_, record) =>
      if record.mode == Shadow then Deny(ShadowModeActive)
      else if req.effect.None? then Deny(EffectIdentityRequired)
      else if !EffectMatchesRecord(record, req.effect.value) || req.effect.value.laneId != req.laneId then
        Deny(EffectIdentityLaneMismatch)
      else if req.action != req.effect.value.action
           || req.operationKey != EffectOperationKey(req.effect.value) then
        Deny(EffectIdentityMismatch)
      else ClaimStep(NoChange, LaneChecked(record))
  }

  function Authorize(req: ClaimRequest, record: LaneRecord): AuthorityVerdict
    requires req.effect.Some? && record.mode != Shadow
  {
    if record.mode == Canary then
      EvaluateCanaryGrant(record, req.effect.value, req.observedStart, req.canaryEvent, req.now)
    else
      EvaluateActiveAutoSafeAuthority(record, req.effect.value, req.authorization, req.now)
  }

  function ExistingRecords(existing: Read<OperationRecord>): seq<OperationRecord> {
    if existing.Found? then [existing.record] else []
  }

  function CheckOperation(doc: Doc, req: ClaimRequest, record: LaneRecord): ClaimStep
    requires req.effect.Some? && record.mode != Shadow
  {
    var existing := ReadOperation(doc, req.operationKey);
    if existing.Corrupt? then Deny(CorruptOperationState)
    else
      var verdict := EvaluateIdempotency(req.operationKey, req.requestDigest, ExistingRecords(existing));
      if !verdict.SafeToExecute() then Deny(NotIdempotent(verdict))
      else match Authorize(req, record)
        case NotAllowed(denial) => Deny(AuthorityDenied(denial))
        case Allowed(event) => ClaimStep(NoChange, Authorized(record, existing, event))
  }

  function TakeLease(doc: Doc, req: ClaimRequest, pc: ClaimPc): ClaimStep
    requires pc.Authorized?
  {
    match LeaseError(doc, req.laneId, req.ttl, req.now)
    case Some(e) => Deny(if e == InvalidTtl then TtlRaised else LeaseConflictOrStateUnavailable)
    case None =>
      var lease := NewLease(doc, req.laneId, req.owner, req.operationKey, req.ttl, req.now);
      ClaimStep(LaneWrite(req.laneId, WithLease(ReadLane(doc, req.laneId).record, lease)),
                if pc.lane.mode == Canary then Leased(pc.lane, pc.existing, pc.event, lease.id)
                else Persisting(pc.lane, pc.existing, pc.event, lease.id, None))
  }

  /** The record with one more effect drawn from the grant at a position. */
  function Draw(record: LaneRecord, index: nat, key: OperationKey): LaneRecord
    requires index < |record.grants|
  {
    var grant := record.grants[index];
    record.(grants := record.grants[index := grant.(consumedCount := grant.consumedCount + 1,
                                                    consumedKeys := grant.consumedKeys + [key])])
  }

  function FindGrant(doc: Doc, req: ClaimRequest, pc: ClaimPc): ClaimStep
    requires pc.Leased? && req.effect.Some?
  {
    var failed := ClaimStep(NoChange, ReleaseReading(pc.leaseId, CanaryGrantConsumptionFailed));
    match ReadLane(doc, req.laneId)
    case Missing => failed
    case Corrupt => failed
    case Found(version, record) =>
      var matched := MatchingGrants(record.grants, req.effect.value, Some(pc.event));
      if record.lease.None? || record.lease.value.id != pc.leaseId then failed
      else if |matched| != 1 || record.grants[matched[0]].Consumed() then failed
      else ClaimStep(NoChange, Consuming(pc.lane, pc.existing, pc.event, pc.leaseId, version,
                                         matched[0], Draw(record, matched[0], req.operationKey)))
  }

  function ConsumeGrant(doc: Doc, req: ClaimRequest, pc: ClaimPc): ClaimStep
    requires pc.Consuming?
  {
    if LaneSwapError(doc, req.laneId, pc.version, pc.updated).Some? then
      ClaimStep(NoChange, ReleaseReading(pc.leaseId, CanaryGrantConsumptionFailed))
    else
      ClaimStep(LaneWrite(req.laneId, pc.updated),
                Persisting(pc.lane, pc.existing, pc.event, pc.leaseId, Some(pc.index)))
  }

  function InFlightReceipt(req: ClaimRequest): Receipt {
    Receipt(req.operationKey, InFlight, req.facts, None)
  }

  /** The IN_FLIGHT record: a retry keeps the stored request digest and counts the attempt. */
  function InFlightRecord(req: ClaimRequest, pc: ClaimPc): OperationRecord
    requires pc.Persisting?
  {
    match pc.existing
    case Found(_, op) =>
      op.(state := InFlight, owner := req.owner, attempt := op.attempt + 1,
          reconciliationRequired := false, receipt := InFlightReceipt(req))
    case _ =>
      OperationRecord(req.operationKey, req.laneId, pc.lane.workstreamId, req.action, req.requestDigest,
                      InFlight, req.owner, 1, false, InFlightReceipt(req), None)
  }

  function ExpectedVersion(existing: Read<OperationRecord>): nat {
    if existing.Found? then existing.version else 0
  }

  function PersistInFlight(doc: Doc, req: ClaimRequest, pc: ClaimPc): ClaimStep
    requires pc.Persisting?
  {
    var op := InFlightRecord(req, pc);
    var expected := ExpectedVersion(pc.existing);
    if OperationSwapError(doc, req.operationKey, expected, op).Some? then
      ClaimStep(NoChange, ReleaseReading(pc.leaseId, OperationClaimRace))
    else
      ClaimStep(OperationWrite(req.operationKey, op),
                Persisted(pc.leaseId, expected + 1, op.receipt, pc.drawn))
  }

  function ReadForRelease(doc: Doc, req: ClaimRequest, pc: ClaimPc): ClaimStep
    requires pc.ReleaseReading?
  {
    match ReadLane(doc, req.laneId)
    case Missing => Deny(pc.reason)
    case Corrupt => Deny(pc.reason)
    case Found(version, record) =>
      if record.lease.None? || record.lease.value.id != pc.leaseId then Deny(pc.reason)
      else ClaimStep(NoChange, Releasing(pc.leaseId, pc.reason, version, WithoutLease(record)))
  }

  function Release(doc: Doc, req: ClaimRequest, pc: ClaimPc): ClaimStep
    requires pc.Releasing?
  {
    if LaneSwapError(doc, req.laneId, pc.version, pc.updated).Some? then Deny(pc.reason)
    else ClaimStep(LaneWrite(req.laneId, pc.updated), Done(Denied(pc.reason)))
  }

  function ReadForLink(doc: Doc, req: ClaimRequest, pc: ClaimPc): ClaimStep
    requires pc.Persisted?
  {
    var claimed := ClaimStep(NoChange, Done(Claimed(pc.operationVersion, pc.leaseId, pc.drawn)));
    match ReadLane(doc, req.laneId)
    case Missing => claimed
    case Corrupt => claimed
    case Found(version, record) =>
      ClaimStep(NoChange, Linking(pc.leaseId, pc.operationVersion, pc.drawn, version,
                                  record.(operationKey := Some(req.operationKey), receipt := Some(pc.receipt))))
  }

  function Link(doc: Doc, req: ClaimRequest, pc: ClaimPc): ClaimStep
    requires pc.Linking?
  {
    if LaneSwapError(doc, req.laneId, pc.version, pc.updated).Some? then
      ClaimStep(NoChange, Done(ClaimedReconcileWorkstreamRequired(pc.operationVersion, pc.leaseId)))
    else
      ClaimStep(LaneWrite(req.laneId, pc.updated), Done(Claimed(pc.operationVersion, pc.leaseId, pc.drawn)))
  }

  /** The locals a claimant carries are the ones its request was checked with. */
  predicate PcFits(req: ClaimRequest, pc: ClaimPc) {
    match pc
    case LaneChecked(lane) => req.effect.Some? && lane.mode != Shadow
    case Authorized(_, _, _) => req.effect.Some?
    case Leased(_, _, _, _) => req.effect.Some?
    case Consuming(_, _, _, _, _, _, _) => req.effect.Some?
    case _ => true
  }

  function StepClaim(doc: Doc, req: ClaimRequest, pc: ClaimPc): ClaimStep
    requires PcFits(req, pc)
  {
    match pc
    case Start => CheckLane(doc, req)
    case LaneChecked(lane) => CheckOperation(doc, req, lane)
    case Authorized(_, _, _) => TakeLease(doc, req, pc)
    case Leased(_, _, _, _) => FindGrant(doc, req, pc)
    case Consuming(_, _, _, _, _, _, _) => ConsumeGrant(doc, req, pc)
    case Persisting(_, _, _, _, _) => PersistInFlight(doc, req, pc)
    case ReleaseReading(_, _) => ReadForRelease(doc, req, pc)
    case Releasing(_, _, _, _) => Release(doc, req, pc)
    case Persisted(_, _, _, _) => ReadForLink(doc, req, pc)
    case Linking(_, _, _, _, _) => Link(doc, req, pc)
    case Done(_) => ClaimStep(NoChange, pc)
  }

  // ---------------------------------------------------------------------------
  // Resolving: an UNKNOWN record or an authoritative readback
  // ---------------------------------------------------------------------------

  datatype Resolution =
    | RecordUnknown(result: Facts)
    | ReadBack(observed: Option<bool>, evidence: Facts)

  datatype ResolvePc =
    | ResolveStart
    | OperationSaving(version: nat, operation: OperationRecord)
    | OperationSaved(operation: OperationRecord)
    | LaneSaving(operation: OperationRecord, version: nat, updated: LaneRecord)
    | Resolved(operation: OperationRecord)
    | ResolveFailed(error: StoreError)

  datatype ResolveStep = ResolveStep(change: Change, pc: ResolvePc)

  /** Recording UNKNOWN has no state guard; a readback needs an ambiguous operation. */
  function ResolveOperation(op: OperationRecord, resolution: Resolution): Result<OperationRecord, StoreError> {
    match resolution
    case RecordUnknown(result) =>
      Ok(op.(state := Unknown, reconciliationRequired := true,
             receipt := op.receipt.(state := Unknown, facts := op.receipt.facts + result)))
    case ReadBack(observed, evidence) =>
      if op.state != InFlight && op.state != Unknown then Err(Refused)
      else
        var readback := Readback(observed, evidence);
        var state := if observed == Some(true) then Confirmed
                     else if observed == Some(false) then ReconciledNotObserved else Unknown;
        Ok(op.(state := state, reconciliationRequired := observed.None?, readback := Some(readback),
               receipt := op.receipt.(state := state, postCondition := Some(readback))))
  }

  /** The lease is cleared by operation key, whoever holds it. */
  predicate ClearsLease(record: LaneRecord, key: OperationKey, resolution: Resolution) {
    && resolution.ReadBack? && resolution.observed.Some?
    && record.lease.Some? && record.lease.value.operationKey == key
  }

  function ResolveLane(record: LaneRecord, key: OperationKey, op: OperationRecord, resolution: Resolution): LaneRecord {
    var linked := record.(receipt := Some(op.receipt));
    if resolution.RecordUnknown? || resolution.observed.None? then linked.(unknownWrite := Some(key))
    else if ClearsLease(record, key, resolution) then WithoutLease(linked.(unknownWrite := None))
    else linked.(unknownWrite := None)
  }

  function StepResolve(doc: Doc, lane: LaneId, key: OperationKey, resolution: Resolution, pc: ResolvePc): ResolveStep {
    match pc
    case ResolveStart =>
      (match ReadOperation(doc, key)
       case Missing => ResolveStep(NoChange, ResolveFailed(Unavailable))
       case Corrupt => ResolveStep(NoChange, ResolveFailed(Unavailable))
       case Found(version, op) =>
         if op.laneId != lane then ResolveStep(NoChange, ResolveFailed(Refused))
         else match ResolveOperation(op, resolution)
           case Err(e) => ResolveStep(NoChange, ResolveFailed(e))
           case Ok(updated) => ResolveStep(NoChange, OperationSaving(version, updated)))
    case OperationSaving(version, op) =>
      (match OperationSwapError(doc, key, version, op)
       case Some(e) => ResolveStep(NoChange, ResolveFailed(e))
       case None => ResolveStep(OperationWrite(key, op), OperationSaved(op)))
    case OperationSaved(op) =>
      (match ReadLane(doc, lane)
       case Missing => ResolveStep(NoChange, ResolveFailed(Unavailable))
       case Corrupt => ResolveStep(NoChange, ResolveFailed(Unavailable))
       case Found(version, record) =>
         ResolveStep(NoChange, LaneSaving(op, version, ResolveLane(record, key, op, resolution))))
    case LaneSaving(op, version, updated) =>
      (match LaneSwapError(doc, lane, version, updated)
       case Some(e) => ResolveStep(NoChange, ResolveFailed(e))
       case None => ResolveStep(LaneWrite(lane, updated), Resolved(op)))
    case Resolved(_) => ResolveStep(NoChange, pc)
    case ResolveFailed(_) => ResolveStep(NoChange, pc)
  }
}
