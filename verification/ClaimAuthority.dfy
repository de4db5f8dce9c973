/** On what authority an operation is claimed: the condition under which a claim is granted, in terms of
    the stored records and the request alone, and the authority behind every claim of every run. */
module ClaimAuthority {
  import opened Wrappers
  import opened Records
  import opened StateStore
  import opened Authority
  import opened ClaimProtocol
  import opened ClaimExecution
  import opened ControlSystem

  // ---------------------------------------------------------------------------
  // Authority
  // ---------------------------------------------------------------------------

  /** The grant was issued for exactly this effect, by the named event if one is named. */
  predicate IssuedFor(g: CanaryGrant, e: EffectIdentity, event: Option<string>) {
    && g.laneId == e.laneId && g.project == e.project && g.route == e.route && g.workstreamId == e.workstreamId
    && g.effectType == e.action && g.target == e.target
    && (event == None || event == Some(g.authorityEventId))
  }

  /** At `now` the grant is valid, an effect is left in it, and the start it expects was observed. */
  predicate Usable(g: CanaryGrant, observed: Facts, now: int) {
    && g.issuedAt <= now < g.expiresAt && g.consumedCount < g.maximumEffectCount
    && match g.expectedStart
       case None => true
       case Some(expected) => forall k | k in expected :: k in observed && observed[k] == expected[k]
  }

  /** One grant, and only one, was issued for the effect, and it is usable. */
  ghost predicate OneGrantAllows(grants: seq<CanaryGrant>, e: EffectIdentity, event: Option<string>, observed: Facts, now: int, i: nat) {
    && i < |grants| && IssuedFor(grants[i], e, event) && Usable(grants[i], observed, now)
    && forall j :: 0 <= j < |grants| && IssuedFor(grants[j], e, event) ==> j == i
  }

  /** The authorization is for this effect, has all its proofs, and has not expired. */
  predicate AuthorizationAllows(authorization: Option<MutationAuthorization>, e: EffectIdentity, now: int) {
    match authorization
    case None => false
    case Some(a) =>
      && a.effect == e && a.projectPolicyAuthorized && a.exactBindingProven && a.evidenceVerified
      && (a.expiresAt == None || now < a.expiresAt.value)
  }

  /** The request names an effect of this lane, and its action and key are the effect's. */
  predicate NamesEffectOf(r: LaneRecord, req: ClaimRequest) {
    && req.effect.Some?
    && var e := req.effect.value;
       && e.laneId == req.laneId == r.laneId && e.project == r.project && e.route == r.route && e.workstreamId == r.workstreamId
       && req.action == e.action && req.operationKey == OperationKey(e)
  }

  /** The lane is open for the effect of the request. */
  ghost predicate Authorizes(r: LaneRecord, req: ClaimRequest) {
    && NamesEffectOf(r, req)
    && match r.mode
       case Shadow => false
       case Canary => exists i: nat :: OneGrantAllows(r.grants, req.effect.value, req.canaryEvent, req.observedStart, req.now, i)
       case ActiveAutoSafe => AuthorizationAllows(req.authorization, req.effect.value, req.now)
  }

  /** The operation was never started, or it was read back as not observed and is asked for with the
      same digest. */
  predicate Executable(doc: Doc, key: OperationKey, digest: string) {
    key in doc.operations ==>
      match doc.operations[key].record
      case None => false
      case Some(op) => op.key == key && op.state == ReconciledNotObserved && op.requestDigest == digest && op.readback.Some?
  }

  /** Nobody holds the lane. */
  predicate LeaseIsFree(r: LaneRecord, now: int) {
    r.lease == None || r.lease.value.expiresAt <= now
  }

  /** When a claim that is left alone is granted. */
  ghost predicate MayClaim(doc: Doc, req: ClaimRequest) {
    && req.laneId in doc.lanes && doc.lanes[req.laneId].record.Some?
    && var r := doc.lanes[req.laneId].record.value;
       && r.laneId == req.laneId && Authorizes(r, req) && Executable(doc, req.operationKey, req.requestDigest)
       && LeaseIsFree(r, req.now) && req.ttl > 0
  }

  // ---------------------------------------------------------------------------
  // The evaluations
  // ---------------------------------------------------------------------------

  lemma MatchingIsIssued(g: CanaryGrant, e: EffectIdentity, event: Option<string>)
    ensures GrantMatches(g, e, event) <==> IssuedFor(g, e, event)
  {
  }

  predicate Increasing(s: seq<nat>) {
    forall a, b :: 0 <= a < b < |s| ==> s[a] < s[b]
  }

  lemma {:induction false} MatchingGrantsIncrease(grants: seq<CanaryGrant>, e: EffectIdentity, event: Option<string>)
    ensures Increasing(MatchingGrants(grants, e, event))
  {
    if grants != [] {
      var n := |grants| - 1;
      var before := MatchingGrants(grants[..n], e, event);
      MatchingGrantsIncrease(grants[..n], e, event);
      assert forall a :: 0 <= a < |before| ==> before[a] < n;
    }
  }

  lemma {:induction false} MatchingGrantsMembers(grants: seq<CanaryGrant>, e: EffectIdentity, event: Option<string>, i: nat)
    requires i < |grants|
    ensures i in MatchingGrants(grants, e, event) <==> IssuedFor(grants[i], e, event)
  {
    var n := |grants| - 1;
    if i < n {
      MatchingGrantsMembers(grants[..n], e, event, i);
    } else {
      MatchingIsIssued(grants[n], e, event);
    }
  }

  /** The matching positions are those of the grants issued for the effect, each once. */
  lemma MatchingGrantsExactly(grants: seq<CanaryGrant>, e: EffectIdentity, event: Option<string>)
    ensures
      var found := MatchingGrants(grants, e, event);
      && (forall i :: 0 <= i < |grants| ==> (i in found <==> IssuedFor(grants[i], e, event)))
      && Increasing(found) && (forall a :: 0 <= a < |found| ==> found[a] < |grants|)
  {
    MatchingGrantsIncrease(grants, e, event);
    forall i | 0 <= i < |grants| ensures i in MatchingGrants(grants, e, event) <==> IssuedFor(grants[i], e, event) {
      MatchingGrantsMembers(grants, e, event, i);
    }
  }

  /** One position is found exactly when one grant was issued for the effect. */
  lemma OneIsFoundExactlyWhen(grants: seq<CanaryGrant>, e: EffectIdentity, event: Option<string>, i: nat)
    requires i < |grants|
    ensures MatchingGrants(grants, e, event) == [i] <==>
      IssuedFor(grants[i], e, event) && forall j :: 0 <= j < |grants| && IssuedFor(grants[j], e, event) ==> j == i
  {
    var found := MatchingGrants(grants, e, event);
    MatchingGrantsExactly(grants, e, event);
    if IssuedFor(grants[i], e, event) && forall j :: 0 <= j < |grants| && IssuedFor(grants[j], e, event) ==> j == i {
      assert i in found;
      assert forall a :: 0 <= a < |found| ==> found[a] in found;
      OnlyMember(found, i);
    }
    assert found == [i] ==> i in found;
  }

  lemma OnlyMember(s: seq<nat>, i: nat)
    requires Increasing(s) && s != [] && forall a :: 0 <= a < |s| ==> s[a] == i
    ensures s == [i]
  {
    var last := |s| - 1;
    assert s[0] == i == s[last];
  }

  lemma GrantIsEvaluatedExactly(r: LaneRecord, e: EffectIdentity, observed: Facts, event: Option<string>, now: int)
    requires e.laneId == r.laneId && e.project == r.project && e.route == r.route && e.workstreamId == r.workstreamId
    ensures EvaluateCanaryGrant(r, e, observed, event, now).Allowed? <==>
      exists i: nat :: OneGrantAllows(r.grants, e, event, observed, now, i)
    ensures forall i: nat :: OneGrantAllows(r.grants, e, event, observed, now, i) ==>
      MatchingGrants(r.grants, e, event) == [i]
      && EvaluateCanaryGrant(r, e, observed, event, now) == Allowed(r.grants[i].authorityEventId)
  {
    var found := MatchingGrants(r.grants, e, event);
    forall i: nat | OneGrantAllows(r.grants, e, event, observed, now, i)
      ensures found == [i] && EvaluateCanaryGrant(r, e, observed, event, now) == Allowed(r.grants[i].authorityEventId)
    {
      OneIsFoundExactlyWhen(r.grants, e, event, i);
    }
    if EvaluateCanaryGrant(r, e, observed, event, now).Allowed? {
      assert found == [found[0]];
      OneIsFoundExactlyWhen(r.grants, e, event, found[0]);
      assert OneGrantAllows(r.grants, e, event, observed, now, found[0]);
    }
  }

  lemma AuthorizationIsEvaluatedExactly(r: LaneRecord, e: EffectIdentity, authorization: Option<MutationAuthorization>, now: int)
    requires e.laneId == r.laneId && e.project == r.project && e.route == r.route && e.workstreamId == r.workstreamId
    ensures EvaluateActiveAutoSafeAuthority(r, e, authorization, now).Allowed? <==> AuthorizationAllows(authorization, e, now)
  {
  }

  /** Authority is given exactly where the lane authorizes the request. */
  lemma AuthorityIsGivenExactly(r: LaneRecord, req: ClaimRequest)
    requires NamesEffectOf(r, req) && r.mode != Shadow
    ensures Authorize(req, r).Allowed? <==> Authorizes(r, req)
  {
    if r.mode == Canary {
      GrantIsEvaluatedExactly(r, req.effect.value, req.observedStart, req.canaryEvent, req.now);
    } else {
      AuthorizationIsEvaluatedExactly(r, req.effect.value, req.authorization, req.now);
    }
  }

  lemma OperationIsCheckedExactly(doc: Doc, key: OperationKey, digest: string)
    ensures
      var existing := ReadOperation(doc, key);
      !existing.Corrupt? && EvaluateIdempotency(key, digest, ExistingRecords(existing)).SafeToExecute()
      <==> Executable(doc, key, digest)
  {
    var existing := ReadOperation(doc, key);
    if existing.Found? {
      assert ExistingRecords(existing)[0].key == key;
    }
  }

  // ---------------------------------------------------------------------------
  // A claim left alone
  // ---------------------------------------------------------------------------

  /** The lane record once the claim took its lease. */
  predicate HoldsLease(r: LaneRecord, was: LaneRecord, req: ClaimRequest) {
    && r.lease.Some?
    && r == was.(lease := r.lease, actionInFlight := Some(req.operationKey), operationKey := Some(req.operationKey))
    && r.lease.value.owner == req.owner && r.lease.value.operationKey == req.operationKey
    && r.lease.value.acquiredAt == req.now && r.lease.value.expiresAt == req.now + req.ttl
  }

  /** The grants with one more effect drawn from one of them, for the operation. */
  predicate DrawnOnce(was: seq<CanaryGrant>, now: seq<CanaryGrant>, i: nat, key: OperationKey) {
    && i < |was| == |now|
    && now[i] == was[i].(consumedCount := was[i].consumedCount + 1, consumedKeys := was[i].consumedKeys + [key])
    && forall j :: 0 <= j < |was| && j != i ==> now[j] == was[j]
  }

  /** The stored operation is in flight for the request; a retry counts an attempt. */
  predicate StartedFor(op: OperationRecord, was: Read<OperationRecord>, req: ClaimRequest, workstreamId: string) {
    && op.key == req.operationKey && op.state == InFlight && op.owner == req.owner && !op.reconciliationRequired
    && op.receipt == Receipt(req.operationKey, InFlight, req.facts, None)
    && op.requestDigest == req.requestDigest
    && match was
       case Found(_, before) =>
         && op.attempt == before.attempt + 1 && op.laneId == before.laneId && op.workstreamId == before.workstreamId
         && op.action == before.action && op.readback == before.readback
       case _ =>
         op.attempt == 1 && op.laneId == req.laneId && op.workstreamId == workstreamId && op.action == req.action && op.readback == None
  }

  /** What a granted claim leaves behind. */
  ghost predicate Granted(doc: Doc, after: Doc, req: ClaimRequest) {
    && req.effect.Some?
    && ReadLane(doc, req.laneId).Found? && ReadLane(after, req.laneId).Found? && ReadOperation(after, req.operationKey).Found?
    && var (was, r) := (ReadLane(doc, req.laneId).record, ReadLane(after, req.laneId).record);
       var op := ReadOperation(after, req.operationKey).record;
       && HoldsLease(r.(receipt := was.receipt, grants := was.grants), was, req)
       && r.receipt == Some(op.receipt)
       && StartedFor(op, ReadOperation(doc, req.operationKey), req, was.workstreamId)
       && (if was.mode == Canary then
             exists i: nat ::
               && OneGrantAllows(was.grants, req.effect.value, req.canaryEvent, req.observedStart, req.now, i)
               && DrawnOnce(was.grants, r.grants, i, req.operationKey)
           else r.grants == was.grants)
       && OthersUntouched(doc, after, req.laneId, req.operationKey)
  }

  /** The last two steps: the operation is persisted and linked to the lane. */
  lemma PersistingIsGranted(doc: Doc, req: ClaimRequest, pc: ClaimPc)
    requires pc.Persisting? && pc.existing == ReadOperation(doc, req.operationKey) && !pc.existing.Corrupt?
    requires pc.existing.Found? ==> pc.existing.record.requestDigest == req.requestDigest
    requires req.operationKey in doc.operations ==> pc.existing.Found?
    requires ReadLane(doc, req.laneId).Found?
    ensures
      var (after, decision) := RunClaim(doc, req, pc);
      && decision.Claimed? && decision.drawn == pc.drawn
      && ReadLane(after, req.laneId).Found? && ReadOperation(after, req.operationKey).Found?
      && var op := ReadOperation(after, req.operationKey).record;
         && ReadLane(after, req.laneId).record
            == ReadLane(doc, req.laneId).record.(operationKey := Some(req.operationKey), receipt := Some(op.receipt))
         && StartedFor(op, ReadOperation(doc, req.operationKey), req, pc.lane.workstreamId)
         && OthersUntouched(doc, after, req.laneId, req.operationKey)
  {
    var step := StepClaim(doc, req, pc);
    var saved := Apply(doc, step.change);
    assert step.change.OperationWrite?;
    assert RunClaim(doc, req, pc) == RunClaim(saved, req, step.pc);
    assert ReadLane(saved, req.laneId) == ReadLane(doc, req.laneId);
    var step1 := StepClaim(saved, req, step.pc);
    assert RunClaim(saved, req, step.pc) == RunClaim(saved, req, step1.pc);
    var step2 := StepClaim(saved, req, step1.pc);
    assert RunClaim(saved, req, step1.pc) == RunClaim(Apply(saved, step2.change), req, step2.pc);
  }

  /** On a CANARY lane the one grant that allows the claim is drawn from under the lease. */
  lemma LeasedDraws(doc: Doc, req: ClaimRequest, pc: ClaimPc, i: nat)
    requires pc.Leased? && req.effect.Some? && ReadLane(doc, req.laneId).Found?
    requires ReadLane(doc, req.laneId).record.lease.Some? && ReadLane(doc, req.laneId).record.lease.value.id == pc.leaseId
    requires OneGrantAllows(ReadLane(doc, req.laneId).record.grants, req.effect.value, Some(pc.event), req.observedStart, req.now, i)
    ensures
      var r := ReadLane(doc, req.laneId).record;
      var drawn := WriteLane(doc, req.laneId, Draw(r, i, req.operationKey));
      RunClaim(doc, req, pc) == RunClaim(drawn, req, Persisting(pc.lane, pc.existing, pc.event, pc.leaseId, Some(i)))
  {
    var r := ReadLane(doc, req.laneId).record;
    OneIsFoundExactlyWhen(r.grants, req.effect.value, Some(pc.event), i);
    var step := StepClaim(doc, req, pc);
    assert RunClaim(doc, req, pc) == RunClaim(doc, req, step.pc);
    var step1 := StepClaim(doc, req, step.pc);
    assert RunClaim(doc, req, step.pc) == RunClaim(Apply(doc, step1.change), req, step1.pc);
  }

  /** The only grant for an effect and an event is the only one for the effect and its own event. */
  lemma SameGrantByItsEvent(grants: seq<CanaryGrant>, e: EffectIdentity, event: Option<string>, observed: Facts, now: int, i: nat)
    requires OneGrantAllows(grants, e, event, observed, now, i)
    ensures OneGrantAllows(grants, e, Some(grants[i].authorityEventId), observed, now, i)
  {
    forall j | 0 <= j < |grants| && IssuedFor(grants[j], e, Some(grants[i].authorityEventId)) ensures j == i {
      assert IssuedFor(grants[j], e, event);
    }
  }

  /** An authorised claimant that finds the lease free takes it. */
  lemma LeaseIsTaken(doc: Doc, req: ClaimRequest, pc: ClaimPc) returns (leased: Doc, next: ClaimPc)
    requires pc.Authorized? && req.effect.Some? && ReadLane(doc, req.laneId).Found?
    requires LeaseIsFree(ReadLane(doc, req.laneId).record, req.now) && req.ttl > 0
    ensures PcFits(req, next) && RunClaim(doc, req, pc) == RunClaim(leased, req, next)
    ensures leased.operations == doc.operations && ReadLane(leased, req.laneId).Found?
    ensures HoldsLease(ReadLane(leased, req.laneId).record, ReadLane(doc, req.laneId).record, req)
    ensures OthersUntouched(doc, leased, req.laneId, req.operationKey)
    ensures
      var leaseId := ReadLane(leased, req.laneId).record.lease.value.id;
      next == if pc.lane.mode == Canary then Leased(pc.lane, pc.existing, pc.event, leaseId)
              else Persisting(pc.lane, pc.existing, pc.event, leaseId, None)
  {
    var step := StepClaim(doc, req, pc);
    assert step.change.LaneWrite?;
    leased, next := Apply(doc, step.change), step.pc;
  }

  /** What the document looks like right before the operation is persisted. */
  ghost predicate ReadyToPersist(doc: Doc, ready: Doc, req: ClaimRequest) {
    && req.effect.Some? && ready.operations == doc.operations
    && ReadLane(doc, req.laneId).Found? && ReadLane(ready, req.laneId).Found?
    && OthersUntouched(doc, ready, req.laneId, req.operationKey)
    && var (was, r) := (ReadLane(doc, req.laneId).record, ReadLane(ready, req.laneId).record);
       && HoldsLease(r.(grants := was.grants), was, req)
       && if was.mode == Canary then
            exists i: nat ::
              && OneGrantAllows(was.grants, req.effect.value, req.canaryEvent, req.observedStart, req.now, i)
              && DrawnOnce(was.grants, r.grants, i, req.operationKey)
          else r.grants == was.grants
  }

  lemma ReadyIsGranted(doc: Doc, ready: Doc, req: ClaimRequest, pc: ClaimPc)
    requires ReadyToPersist(doc, ready, req) && Executable(doc, req.operationKey, req.requestDigest)
    requires pc.Persisting? && pc.existing == ReadOperation(doc, req.operationKey) && pc.lane == ReadLane(doc, req.laneId).record
    ensures RunClaim(ready, req, pc).1.Claimed? && Granted(doc, RunClaim(ready, req, pc).0, req)
  {
    assert ReadOperation(ready, req.operationKey) == ReadOperation(doc, req.operationKey);
    PersistingIsGranted(ready, req, pc);
    OthersStayUntouched(doc, ready, RunClaim(ready, req, pc).0, req.laneId, req.operationKey);
  }

  lemma OthersStayUntouched(a: Doc, b: Doc, c: Doc, lane: LaneId, key: OperationKey)
    requires OthersUntouched(a, b, lane, key) && OthersUntouched(b, c, lane, key)
    ensures OthersUntouched(a, c, lane, key)
  {
  }

  /** An authorised claimant that finds the lease free is granted its claim. */
  lemma LeaseIsGranted(doc: Doc, req: ClaimRequest, pc: ClaimPc)
    requires pc.Authorized? && req.effect.Some? && pc.existing == ReadOperation(doc, req.operationKey)
    requires Executable(doc, req.operationKey, req.requestDigest)
    requires ReadLane(doc, req.laneId).Found? && pc.lane == ReadLane(doc, req.laneId).record && pc.lane.mode != Shadow
    requires Authorizes(pc.lane, req) && Authorize(req, pc.lane) == Allowed(pc.event)
    requires LeaseIsFree(pc.lane, req.now) && req.ttl > 0
    ensures RunClaim(doc, req, pc).1.Claimed? && Granted(doc, RunClaim(doc, req, pc).0, req)
  {
    var leased, next := LeaseIsTaken(doc, req, pc);
    if pc.lane.mode == Canary {
      CanaryIsReady(doc, leased, req, pc, next);
    } else {
      assert ReadyToPersist(doc, leased, req);
      ReadyIsGranted(doc, leased, req, next);
    }
  }

  lemma DrawIsReady(doc: Doc, leased: Doc, req: ClaimRequest, i: nat)
    requires req.effect.Some? && ReadLane(doc, req.laneId).Found? && ReadLane(doc, req.laneId).record.mode == Canary
    requires OneGrantAllows(ReadLane(doc, req.laneId).record.grants, req.effect.value, req.canaryEvent, req.observedStart, req.now, i)
    requires leased.operations == doc.operations && ReadLane(leased, req.laneId).Found?
    requires HoldsLease(ReadLane(leased, req.laneId).record, ReadLane(doc, req.laneId).record, req)
    requires OthersUntouched(doc, leased, req.laneId, req.operationKey)
    ensures ReadyToPersist(doc, WriteLane(leased, req.laneId, Draw(ReadLane(leased, req.laneId).record, i, req.operationKey)), req)
  {
    var r := ReadLane(doc, req.laneId).record;
    var drawn := WriteLane(leased, req.laneId, Draw(ReadLane(leased, req.laneId).record, i, req.operationKey));
    assert DrawnOnce(r.grants, ReadLane(drawn, req.laneId).record.grants, i, req.operationKey);
    OthersStayUntouched(doc, leased, drawn, req.laneId, req.operationKey);
  }

  lemma CanaryIsReady(doc: Doc, leased: Doc, req: ClaimRequest, pc: ClaimPc, next: ClaimPc)
    requires pc.Authorized? && req.effect.Some? && pc.existing == ReadOperation(doc, req.operationKey)
    requires Executable(doc, req.operationKey, req.requestDigest)
    requires ReadLane(doc, req.laneId).Found? && pc.lane == ReadLane(doc, req.laneId).record && pc.lane.mode == Canary
    requires Authorizes(pc.lane, req) && Authorize(req, pc.lane) == Allowed(pc.event)
    requires leased.operations == doc.operations && ReadLane(leased, req.laneId).Found?
    requires HoldsLease(ReadLane(leased, req.laneId).record, pc.lane, req)
    requires OthersUntouched(doc, leased, req.laneId, req.operationKey)
    requires next == Leased(pc.lane, pc.existing, pc.event, ReadLane(leased, req.laneId).record.lease.value.id)
    ensures RunClaim(leased, req, next).1.Claimed? && Granted(doc, RunClaim(leased, req, next).0, req)
  {
    var r := pc.lane;
    var i: nat :| OneGrantAllows(r.grants, req.effect.value, req.canaryEvent, req.observedStart, req.now, i);
    GrantIsEvaluatedExactly(r, req.effect.value, req.observedStart, req.canaryEvent, req.now);
    SameGrantByItsEvent(r.grants, req.effect.value, req.canaryEvent, req.observedStart, req.now, i);
    LeasedDraws(leased, req, next, i);
    var drawn := WriteLane(leased, req.laneId, Draw(ReadLane(leased, req.laneId).record, i, req.operationKey));
    DrawIsReady(doc, leased, req, i);
    ReadyIsGranted(doc, drawn, req, Persisting(r, pc.existing, pc.event, next.leaseId, Some(i)));
  }

  lemma LeaseIsRefused(doc: Doc, req: ClaimRequest, pc: ClaimPc)
    requires pc.Authorized? && req.effect.Some? && ReadLane(doc, req.laneId).Found?
    requires !LeaseIsFree(ReadLane(doc, req.laneId).record, req.now) || req.ttl <= 0
    ensures RunClaim(doc, req, pc).1.Denied? && RunClaim(doc, req, pc).0 == doc
  {
    var step := StepClaim(doc, req, pc);
    assert RunClaim(doc, req, pc) == RunClaim(doc, req, step.pc);
  }

  /** A claim that is left alone is granted exactly when the lane authorizes it, its operation may be
      executed and the lease is free; every other claim is denied and changes nothing. */
  lemma LoneClaimIsGrantedExactlyWhen(doc: Doc, req: ClaimRequest)
    ensures
      var (after, decision) := RunClaim(doc, req, Start);
      if MayClaim(doc, req) then decision.Claimed? && Granted(doc, after, req) else decision.Denied? && after == doc
  {
    var step := StepClaim(doc, req, Start);
    assert RunClaim(doc, req, Start) == RunClaim(doc, req, step.pc);
    if step.pc.LaneChecked? {
      var r := step.pc.lane;
      var step1 := StepClaim(doc, req, step.pc);
      assert RunClaim(doc, req, step.pc) == RunClaim(doc, req, step1.pc);
      OperationIsCheckedExactly(doc, req.operationKey, req.requestDigest);
      AuthorityIsGivenExactly(r, req);
      if step1.pc.Authorized? {
        if LeaseIsFree(r, req.now) && req.ttl > 0 {
          LeaseIsGranted(doc, req, step1.pc);
        } else {
          LeaseIsRefused(doc, req, step1.pc);
        }
      }
    }
  }

  // ---------------------------------------------------------------------------
  // Why a claim is denied
  // ---------------------------------------------------------------------------

  /** The denial on a CANARY lane names what is wrong with the grants issued for the effect. */
  lemma GrantDenialNamesCause(r: LaneRecord, e: EffectIdentity, observed: Facts, event: Option<string>, now: int)
    requires e.laneId == r.laneId && e.project == r.project && e.route == r.route && e.workstreamId == r.workstreamId
    ensures
      var verdict := EvaluateCanaryGrant(r, e, observed, event, now);
      && (verdict == NotAllowed(CanaryGrantNotFound) <==>
            forall j :: 0 <= j < |r.grants| ==> !IssuedFor(r.grants[j], e, event))
      && (verdict == NotAllowed(CanaryGrantAmbiguous) <==>
            exists i, j :: 0 <= i < j < |r.grants| && IssuedFor(r.grants[i], e, event) && IssuedFor(r.grants[j], e, event))
      && (forall i: nat :: i < |r.grants| && MatchingGrants(r.grants, e, event) == [i] ==>
            verdict == DenialOf(r.grants[i], observed, now))
  {
    var found := MatchingGrants(r.grants, e, event);
    MatchingGrantsExactly(r.grants, e, event);
    assert |found| == 0 <==> found == [];
    if found == [] {
      assert forall j :: 0 <= j < |r.grants| ==> j !in found;
    } else if |found| == 1 {
      assert found == [found[0]];
      OneGrantIsJudged(r, e, observed, event, now, found[0]);
    } else {
      assert found[0] in found && found[1] in found && found[0] < found[1];
    }
  }

  lemma OneGrantIsJudged(r: LaneRecord, e: EffectIdentity, observed: Facts, event: Option<string>, now: int, i: nat)
    requires e.laneId == r.laneId && e.project == r.project && e.route == r.route && e.workstreamId == r.workstreamId
    requires i < |r.grants| && MatchingGrants(r.grants, e, event) == [i]
    ensures EvaluateCanaryGrant(r, e, observed, event, now) == DenialOf(r.grants[i], observed, now)
    ensures EvaluateCanaryGrant(r, e, observed, event, now) !in
      {NotAllowed(CanaryGrantNotFound), NotAllowed(CanaryGrantAmbiguous)}
    ensures IssuedFor(r.grants[i], e, event) && forall j :: 0 <= j < |r.grants| && IssuedFor(r.grants[j], e, event) ==> j == i
  {
    OneIsFoundExactlyWhen(r.grants, e, event, i);
  }

  /** In this order: not yet valid, expired, used up, started elsewhere. */
  function DenialOf(g: CanaryGrant, observed: Facts, now: int): AuthorityVerdict {
    if g.issuedAt > now then NotAllowed(CanaryGrantNotYetValid)
    else if g.expiresAt <= now then NotAllowed(CanaryGrantExpired)
    else if g.maximumEffectCount <= g.consumedCount then NotAllowed(CanaryGrantConsumed)
    else if !Usable(g, observed, now) then NotAllowed(CanaryExpectedStartMismatch)
    else Allowed(g.authorityEventId)
  }

  lemma CheckLaneDenies(doc: Doc, req: ClaimRequest)
    ensures
      match ReadLane(doc, req.laneId)
      case Found(_, r) =>
        if r.mode == Shadow then CheckLane(doc, req) == Deny(ShadowModeActive)
        else if req.effect == None then CheckLane(doc, req) == Deny(EffectIdentityRequired)
        else if !NamesEffectOf(r, OfItsOwnEffect(req)) then CheckLane(doc, req) == Deny(EffectIdentityLaneMismatch)
        else if !NamesEffectOf(r, req) then CheckLane(doc, req) == Deny(EffectIdentityMismatch)
        else CheckLane(doc, req) == ClaimStep(NoChange, LaneChecked(r))
      case _ => CheckLane(doc, req) == Deny(ShadowStateUnavailable)
  {
  }

  /** The request with the action and the key its effect has. */
  function OfItsOwnEffect(req: ClaimRequest): ClaimRequest
    requires req.effect.Some?
  {
    req.(action := req.effect.value.action, operationKey := OperationKey(req.effect.value))
  }

  lemma CheckOperationDenies(doc: Doc, req: ClaimRequest, r: LaneRecord)
    requires NamesEffectOf(r, req) && r.mode != Shadow
    ensures
      var (read, step) := (ReadOperation(doc, req.operationKey), CheckOperation(doc, req, r));
      if read.Corrupt? then step == Deny(CorruptOperationState)
      else if !Executable(doc, req.operationKey, req.requestDigest) then
        read.Found? && step == Deny(NotIdempotent(ReplayVerdict(read.record, req.requestDigest)))
      else if !Authorizes(r, req) then step.change == NoChange && AuthorityIsDenied(step.pc)
      else step.pc.Authorized? && step.change == NoChange
  {
    OperationIsCheckedExactly(doc, req.operationKey, req.requestDigest);
    AuthorityIsGivenExactly(r, req);
    var read := ReadOperation(doc, req.operationKey);
    if read.Found? && !Executable(doc, req.operationKey, req.requestDigest) {
      ReplayIsJudged(read.record, req.operationKey, req.requestDigest);
    }
  }

  predicate AuthorityIsDenied(pc: ClaimPc) {
    pc.Done? && pc.decision.Denied? && pc.decision.reason.AuthorityDenied?
  }

  lemma TakeLeaseDenies(doc: Doc, req: ClaimRequest, pc: ClaimPc)
    requires pc.Authorized? && ReadLane(doc, req.laneId).Found?
    requires !LeaseIsFree(ReadLane(doc, req.laneId).record, req.now) || req.ttl <= 0
    ensures TakeLease(doc, req, pc) == Deny(if req.ttl <= 0 then TtlRaised else LeaseConflictOrStateUnavailable)
  {
  }

  /** What a lone claim that is not granted answers: the first failure in the order of the checks. */
  lemma LoneDenialNamesFirstFailure(doc: Doc, req: ClaimRequest)
    requires !MayClaim(doc, req)
    ensures
      var decision := RunClaim(doc, req, Start).1;
      match ReadLane(doc, req.laneId)
      case Found(_, r) =>
        if r.mode == Shadow then decision == Denied(ShadowModeActive)
        else if req.effect == None then decision == Denied(EffectIdentityRequired)
        else if !NamesEffectOf(r, OfItsOwnEffect(req)) then decision == Denied(EffectIdentityLaneMismatch)
        else if !NamesEffectOf(r, req) then decision == Denied(EffectIdentityMismatch)
        else if ReadOperation(doc, req.operationKey).Corrupt? then decision == Denied(CorruptOperationState)
        else if !Executable(doc, req.operationKey, req.requestDigest) then
          ReadOperation(doc, req.operationKey).Found?
          && decision == Denied(NotIdempotent(ReplayVerdict(ReadOperation(doc, req.operationKey).record, req.requestDigest)))
        else if !Authorizes(r, req) then AuthorityIsDenied(Done(decision))
        else decision == Denied(if req.ttl <= 0 then TtlRaised else LeaseConflictOrStateUnavailable)
      case _ => decision == Denied(ShadowStateUnavailable)
  {
    CheckLaneDenies(doc, req);
    var step := StepClaim(doc, req, Start);
    assert RunClaim(doc, req, Start) == RunClaim(doc, req, step.pc);
    if step.pc.LaneChecked? {
      CheckOperationDenies(doc, req, step.pc.lane);
      var step1 := StepClaim(doc, req, step.pc);
      assert RunClaim(doc, req, step.pc) == RunClaim(doc, req, step1.pc);
      if step1.pc.Authorized? {
        TakeLeaseDenies(doc, req, step1.pc);
        var step2 := StepClaim(doc, req, step1.pc);
        assert RunClaim(doc, req, step1.pc) == RunClaim(doc, req, step2.pc);
      }
    }
  }

  /** Why a stored operation is not executed again: another request has its key, it is confirmed, its
      outcome is open, or it ended otherwise. */
  function ReplayVerdict(op: OperationRecord, digest: string): Idempotency {
    if op.requestDigest != digest then OperationIdCollision
    else match op.state
      case Confirmed => IdempotentReplayConfirmed
      case Planned | InFlight | Unknown => ReconcileRequired
      case Rejected | Cancelled => TerminalReplayRejected
      case ReconciledNotObserved => ReadbackConfirmedNotObserved(false)
  }

  lemma ReplayIsJudged(op: OperationRecord, key: OperationKey, digest: string)
    requires op.key == key && !(op.requestDigest == digest && op.state == ReconciledNotObserved && op.readback.Some?)
    ensures EvaluateIdempotency(key, digest, [op]) == ReplayVerdict(op, digest)
  {
    assert [op][|[op]| - 1] == op;
  }

  // ---------------------------------------------------------------------------
  // Every claim of every run
  // ---------------------------------------------------------------------------

  /** The claimant is past the check of its authority. */
  predicate PastAuthority(pc: ClaimPc) {
    match pc
    case Start | LaneChecked(_) | ReleaseReading(_, _) | Releasing(_, _, _, _) => false
    case Done(decision) => !decision.Denied?
    case _ => true
  }

  /** At some moment of the run the lane authorized the request. */
  ghost predicate AuthorizedAt(run: seq<Action>, n: nat, req: ClaimRequest)
    requires Legal(run)
  {
    && n <= |run| && Legal(run[..n])
    && ReadLane(After(run[..n]).doc, req.laneId).Found?
    && Authorizes(ReadLane(After(run[..n]).doc, req.laneId).record, req)
  }

  lemma LaneCheckIsRead(doc: Doc, req: ClaimRequest)
    requires CheckLane(doc, req).pc.LaneChecked?
    ensures ReadLane(doc, req.laneId).Found? && CheckLane(doc, req).pc.lane == ReadLane(doc, req.laneId).record
    ensures NamesEffectOf(CheckLane(doc, req).pc.lane, req) && CheckLane(doc, req).pc.lane.mode != Shadow
  {
  }

  /** The lane a claimant carries was read at some moment of the run. */
  lemma {:induction false} CheckedLaneWasRead(run: seq<Action>, id: RunnerId) returns (n: nat)
    requires Legal(run) && id in After(run).slots && After(run).slots[id].runner.Claimer?
    requires After(run).slots[id].runner.claim.LaneChecked?
    ensures n <= |run| && Legal(run[..n])
    ensures
      var (req, lane) := (After(run).slots[id].runner.request, After(run).slots[id].runner.claim.lane);
      && ReadLane(After(run[..n]).doc, req.laneId).Found? && ReadLane(After(run[..n]).doc, req.laneId).record == lane
      && NamesEffectOf(lane, req) && lane.mode != Shadow
  {
    var init, last := run[..|run| - 1], run[|run| - 1];
    LaneIsCheckedOnce(init, last, id);
    if After(init).slots[id].runner.claim.LaneChecked? {
      n := CheckedLaneWasRead(init, id);
    } else {
      n := |init|;
      LaneCheckIsRead(After(init).doc, After(run).slots[id].runner.request);
      assert init[..n] == init;
    }
    assert init[..n] == run[..n];
  }

  lemma OnlyStartChecksLane(doc: Doc, req: ClaimRequest, pc: ClaimPc)
    requires PcFits(req, pc) && StepClaim(doc, req, pc).pc.LaneChecked?
    ensures pc.Start? && StepClaim(doc, req, pc) == CheckLane(doc, req)
  {
  }

  lemma LaneIsCheckedOnce(init: seq<Action>, last: Action, id: RunnerId)
    requires Legal(init) && Enabled(After(init), last)
    requires id in Perform(After(init), last).slots && Perform(After(init), last).slots[id].runner.Claimer?
    requires Perform(After(init), last).slots[id].runner.claim.LaneChecked?
    ensures id in After(init).slots && After(init).slots[id].runner.Claimer?
    ensures
      var (was, now) := (After(init).slots[id].runner, Perform(After(init), last).slots[id].runner);
      && was.request == now.request
      && (was.claim == now.claim || (was.claim.Start? && CheckLane(After(init).doc, was.request).pc == now.claim))
  {
    if last.Step? && last.id == id {
      var runner := After(init).slots[id].runner;
      if runner.Claimer? { OnlyStartChecksLane(After(init).doc, runner.request, runner.claim); }
    }
  }

  /** Whoever is past the check was authorized by the lane as it was at some moment of the run. */
  lemma {:induction false} ClaimantWasAuthorized(run: seq<Action>, id: RunnerId) returns (n: nat)
    requires Legal(run) && id in After(run).slots && After(run).slots[id].runner.Claimer?
    requires PastAuthority(After(run).slots[id].runner.claim)
    ensures AuthorizedAt(run, n, After(run).slots[id].runner.request)
  {
    var init, last := run[..|run| - 1], run[|run| - 1];
    var req := After(run).slots[id].runner.request;
    PastAuthorityIsPassedOnce(init, last, id);
    if PastAuthority(After(init).slots[id].runner.claim) {
      n := ClaimantWasAuthorized(init, id);
    } else {
      n := CheckedLaneWasRead(init, id);
      AuthorityIsGivenExactly(After(init).slots[id].runner.claim.lane, req);
    }
    assert init[..n] == run[..n];
  }

  /** A claimant gets past the check by its own check, and stays there. */
  lemma PastAuthorityIsPassedOnce(init: seq<Action>, last: Action, id: RunnerId)
    requires Legal(init) && Enabled(After(init), last)
    requires id in Perform(After(init), last).slots && Perform(After(init), last).slots[id].runner.Claimer?
    requires PastAuthority(Perform(After(init), last).slots[id].runner.claim)
    ensures id in After(init).slots && After(init).slots[id].runner.Claimer?
    ensures
      var (was, now) := (After(init).slots[id].runner, Perform(After(init), last).slots[id].runner);
      && was.request == now.request
      && (PastAuthority(was.claim)
          || (was.claim.LaneChecked? && PcFits(was.request, was.claim) && Authorize(was.request, was.claim.lane).Allowed?))
  {
    if last.Step? && last.id == id {
      var runner := After(init).slots[id].runner;
      if runner.Claimer? { AuthorityComesFirst(After(init).doc, runner.request, runner.claim); }
    }
  }

  lemma AuthorityComesFirst(doc: Doc, req: ClaimRequest, pc: ClaimPc)
    requires PcFits(req, pc) && PastAuthority(StepClaim(doc, req, pc).pc)
    ensures PastAuthority(pc) || (pc.LaneChecked? && Authorize(req, pc.lane).Allowed?)
  {
  }

  /** Every runner told CLAIMED had, at its own time, the authority of the lane as it was at some moment
      of the run. */
  lemma ClaimsWereAuthorized(run: seq<Action>, id: RunnerId) returns (n: nat)
    requires Legal(run) && id in After(run).slots && IsClaimed(After(run).slots[id].runner)
    ensures AuthorizedAt(run, n, After(run).slots[id].runner.request)
  {
    n := ClaimantWasAuthorized(run, id);
  }
}
