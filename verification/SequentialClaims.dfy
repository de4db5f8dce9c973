/** Runners that are left alone: their runs are runs of the control system, a second claim is
    refused, and what it takes to make a confirmed operation claimable again. */
module SequentialClaims {
  import opened Wrappers
  import opened Records
  import opened StateStore
  import opened Authority
  import opened ClaimProtocol
  import opened ControlSystem
  import opened ClaimExecution

  /** What the store object computes for a lone claimant is what some legal run reaches. */
  lemma {:induction false} LoneClaimIsARun(run: seq<Action>, id: RunnerId) returns (longer: seq<Action>)
    requires Legal(run) && id in After(run).slots && After(run).slots[id].alive
    requires After(run).slots[id].runner.Claimer?
    requires RunnerFits(After(run).slots[id].runner)
    ensures Legal(longer) && run <= longer && id in After(longer).slots
    ensures
      var runner := After(run).slots[id].runner;
      var (doc, decision) := RunClaim(After(run).doc, runner.request, runner.claim);
      After(longer).doc == doc
      && After(longer).slots[id].runner == Claimer(runner.request, Done(decision), runner.wrote)
    decreases Remaining(After(run).slots[id].runner.claim)
  {
    var s := After(run);
    var runner := s.slots[id].runner;
    if runner.claim.Done? {
      longer := run;
    } else {
      var next := run + [Step(id)];
      assert next[..|next| - 1] == run;
      assert After(next) == Perform(s, Step(id));
      StepAdvances(s.doc, runner.request, runner.claim);
      longer := LoneClaimIsARun(next, id);
    }
  }

  ghost predicate InState(doc: Doc, key: OperationKey, state: OperationState) {
    key in doc.operations && doc.operations[key].record.Some? && doc.operations[key].record.value.state == state
  }

  predicate PersistedBy(pc: ClaimPc) {
    pc.Persisted? || pc.Linking? || (pc.Done? && !pc.decision.Denied?)
  }

  lemma {:induction false} ClaimedLeavesInFlight(doc: Doc, req: ClaimRequest, pc: ClaimPc)
    requires PcFits(req, pc) && (PersistedBy(pc) ==> InState(doc, req.operationKey, InFlight))
    requires RunClaim(doc, req, pc).1.Claimed?
    ensures InState(RunClaim(doc, req, pc).0, req.operationKey, InFlight)
    decreases Remaining(pc)
  {
    if !pc.Done? {
      StepAdvances(doc, req, pc);
      var step := StepClaim(doc, req, pc);
      ClaimedLeavesInFlight(Apply(doc, step.change), req, step.pc);
    }
  }

  /** An operation in flight denies every claim of it, whatever the claim carries. */
  lemma InFlightDeniesClaims(doc: Doc, req: ClaimRequest)
    requires InState(doc, req.operationKey, InFlight)
    ensures RunClaim(doc, req, Start).1.Denied? && RunClaim(doc, req, Start).0 == doc
  {
    var step := CheckLane(doc, req);
    assert RunClaim(doc, req, Start) == RunClaim(doc, req, step.pc);
    if step.pc.LaneChecked? {
      InFlightIsNotClaimable(doc, req.operationKey, req.requestDigest);
      var step1 := CheckOperation(doc, req, step.pc.lane);
      assert step1.pc.Done?;
      assert RunClaim(doc, req, step.pc) == RunClaim(doc, req, step1.pc);
    }
  }

  lemma InFlightIsNotClaimable(doc: Doc, key: OperationKey, digest: string)
    requires InState(doc, key, InFlight)
    ensures !Claimable(doc, key, digest)
  {
  }

  /** After a granted claim every further claim of the operation is denied and writes nothing. */
  lemma SecondClaimIsRefused(doc: Doc, first: ClaimRequest, second: ClaimRequest)
    requires RunClaim(doc, first, Start).1.Claimed?
    requires second.operationKey == first.operationKey
    ensures
      var after := RunClaim(doc, first, Start).0;
      RunClaim(after, second, Start).1.Denied? && RunClaim(after, second, Start).0 == after
  {
    ClaimedLeavesInFlight(doc, first, Start);
    InFlightDeniesClaims(RunClaim(doc, first, Start).0, second);
  }

  /** Whether an operation may be executed again with a digest. */
  predicate Claimable(doc: Doc, key: OperationKey, digest: string) {
    var existing := ReadOperation(doc, key);
    !existing.Corrupt? && EvaluateIdempotency(key, digest, ExistingRecords(existing)).SafeToExecute()
  }

  /** The operation and its lane can be read, and the lane is the operation's own. */
  predicate Resolvable(doc: Doc, key: OperationKey) {
    ReadOperation(doc, key).Found? && ReadLane(doc, ReadOperation(doc, key).record.laneId).Found?
  }

  function AfterResolution(doc: Doc, key: OperationKey, resolution: Resolution): Doc
    requires Resolvable(doc, key)
  {
    RunResolve(doc, ReadOperation(doc, key).record.laneId, key, resolution, ResolveStart).0
  }

  /** A "not observed" readback opens an operation to another claim exactly when it was ambiguous;
      every other operation stays as claimable as it was. */
  lemma NotObservedReopensExactlyAmbiguous(doc: Doc, key: OperationKey, evidence: Facts)
    requires Resolvable(doc, key)
    ensures
      var op := ReadOperation(doc, key).record;
      var after := AfterResolution(doc, key, ReadBack(Some(false), evidence));
      && Resolvable(after, key)
      && (Claimable(after, key, op.requestDigest) <==>
            op.state == InFlight || op.state == Unknown || Claimable(doc, key, op.requestDigest))
  {
    ResolveAlone(doc, ReadOperation(doc, key).record.laneId, key, ReadBack(Some(false), evidence));
  }

  /** Recording UNKNOWN succeeds in every state, CONFIRMED included. */
  lemma UnknownIsRecordedInEveryState(doc: Doc, key: OperationKey, result: Facts)
    requires Resolvable(doc, key)
    ensures
      var op := ReadOperation(doc, key).record;
      var after := AfterResolution(doc, key, RecordUnknown(result));
      && Resolvable(after, key)
      && InState(after, key, Unknown)
      && ReadOperation(after, key).record.requestDigest == op.requestDigest
  {
    ResolveAlone(doc, ReadOperation(doc, key).record.laneId, key, RecordUnknown(result));
  }

  /** CONFIRMED is not absorbing: recording UNKNOWN has no state guard, and a later "not observed"
      readback makes the confirmed operation claimable with the same digest. */
  lemma ConfirmedIsNotAbsorbing(doc: Doc, key: OperationKey, result: Facts, evidence: Facts)
    requires Resolvable(doc, key) && InState(doc, key, Confirmed)
    ensures
      var digest := ReadOperation(doc, key).record.requestDigest;
      var unknown := AfterResolution(doc, key, RecordUnknown(result));
      && !Claimable(doc, key, digest)
      && Resolvable(unknown, key)
      && Claimable(AfterResolution(unknown, key, ReadBack(Some(false), evidence)), key, digest)
  {
    UnknownIsRecordedInEveryState(doc, key, result);
    NotObservedReopensExactlyAmbiguous(AfterResolution(doc, key, RecordUnknown(result)), key, evidence);
  }
}
