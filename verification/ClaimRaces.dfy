/** What a claimant does once it holds a lease, whatever others write in between: it draws on a grant only
    under its own lease, gives the lease back when it is denied, and says CLAIMED only of a linked lane. */
module ClaimRaces {
  import opened Wrappers
  import opened Records
  import opened StateStore
  import opened Authority
  import opened ClaimProtocol
  import opened ControlSystem
  import opened ControlInvariants
  import opened ClaimAuthority

  predicate PastLease(pc: ClaimPc) {
    pc.Leased? || pc.Consuming? || pc.Persisting? || pc.ReleaseReading? || pc.Releasing? || pc.Persisted? || pc.Linking?
  }

  /** The lane is held under this lease. */
  predicate HeldUnder(doc: Doc, lane: LaneId, id: LeaseId) {
    ReadLane(doc, lane).Found? && ReadLane(doc, lane).record.lease.Some? && ReadLane(doc, lane).record.lease.value.id == id
  }

  /** The lane was written since the claimant read it. */
  predicate Overtaken(doc: Doc, lane: LaneId, pc: ClaimPc) {
    (pc.Consuming? || pc.Releasing? || pc.Linking?) && pc.version != LaneVersion(doc, lane)
  }

  /** One effect is drawn from the only grant issued for the claimant's effect by the event that authorized
      it, and that grant was not used up. */
  ghost predicate DrawsFromOnly(was: seq<CanaryGrant>, now: seq<CanaryGrant>, i: nat, req: ClaimRequest, event: string) {
    && DrawnOnce(was, now, i, req.operationKey) && was[i].consumedCount < was[i].maximumEffectCount
    && req.effect.Some? && IssuedFor(was[i], req.effect.value, Some(event))
    && forall j :: 0 <= j < |was| && IssuedFor(was[j], req.effect.value, Some(event)) ==> j == i
  }

  /** The grants of the lane change only by such a draw, under the claimant's lease. */
  ghost predicate DrawsUnderLease(doc: Doc, after: Doc, req: ClaimRequest, pc: ClaimPc)
    requires PastLease(pc)
  {
    ReadLane(doc, req.laneId).Found? && ReadLane(after, req.laneId).Found?
    && ReadLane(after, req.laneId).record.grants != ReadLane(doc, req.laneId).record.grants ==>
      && pc.Consuming? && HeldUnder(doc, req.laneId, pc.leaseId)
      && exists i: nat ::
           DrawsFromOnly(ReadLane(doc, req.laneId).record.grants, ReadLane(after, req.laneId).record.grants, i, req, pc.event)
  }

  /** How a claimant that took a lease comes to its end. */
  ghost predicate EndsSo(doc: Doc, after: Doc, req: ClaimRequest, pc: ClaimPc, decision: ClaimDecision)
    requires PastLease(pc)
  {
    var lane := req.laneId;
    match decision
    case Denied(reason) =>
      && (pc.ReleaseReading? || pc.Releasing?) && reason == pc.reason
      && (HeldUnder(after, lane, pc.leaseId) ==> Overtaken(doc, lane, pc))
      && (if HeldUnder(doc, lane, pc.leaseId) && !Overtaken(doc, lane, pc)
          then ReadLane(after, lane).Found?
               && ReadLane(after, lane).record == WithoutLease(ReadLane(doc, lane).record)
          else after == doc)
    case Claimed(_, leaseId, _) =>
      && leaseId == pc.leaseId
      && (ReadLane(after, lane).Found? ==>
            ReadLane(after, lane).record.operationKey == Some(req.operationKey) && ReadLane(after, lane).record.receipt.Some?)
    case ClaimedReconcileWorkstreamRequired(_, leaseId) => leaseId == pc.leaseId && Overtaken(doc, lane, pc) && after == doc
  }

  /** One step of a claimant past its lease. */
  ghost predicate MovesSo(doc: Doc, after: Doc, req: ClaimRequest, pc: ClaimPc, next: ClaimPc) {
    && PastLease(pc) && DrawsUnderLease(doc, after, req, pc)
    && (if next.Done? then EndsSo(doc, after, req, pc, next.decision) else PastLease(next) && next.leaseId == pc.leaseId)
    && (next.ReleaseReading? ==> next.reason == if pc.Persisting? then OperationClaimRace else CanaryGrantConsumptionFailed)
    && (next.Releasing? ==> pc.ReleaseReading? && next.reason == pc.reason)
    && (pc.Persisting? ==>
          (next.Persisted? <==> ExpectedVersion(pc.existing) == OperationVersion(doc, req.operationKey))
          && (!next.Persisted? ==> next == ReleaseReading(pc.leaseId, OperationClaimRace) && after == doc))
  }

  lemma ReadingMovesSo(doc: Doc, req: ClaimRequest, pc: ClaimPc)
    requires WellStored(doc) && PcFits(req, pc) && ClaimFresh(doc, req, pc)
    requires pc.Leased? || pc.ReleaseReading? || pc.Persisted?
    ensures var step := StepClaim(doc, req, pc); MovesSo(doc, Apply(doc, step.change), req, pc, step.pc)
  {
  }

  lemma PersistingMovesSo(doc: Doc, req: ClaimRequest, pc: ClaimPc)
    requires WellStored(doc) && PcFits(req, pc) && ClaimFresh(doc, req, pc) && pc.Persisting?
    ensures var step := StepClaim(doc, req, pc); MovesSo(doc, Apply(doc, step.change), req, pc, step.pc)
  {
  }

  lemma WritingMovesSo(doc: Doc, req: ClaimRequest, pc: ClaimPc)
    requires WellStored(doc) && PcFits(req, pc) && ClaimFresh(doc, req, pc) && (pc.Releasing? || pc.Linking?)
    ensures var step := StepClaim(doc, req, pc); MovesSo(doc, Apply(doc, step.change), req, pc, step.pc)
  {
  }

  /** What was found is drawn. */
  lemma FoundIsDrawn(doc: Doc, req: ClaimRequest, pc: ClaimPc)
    requires ClaimFresh(doc, req, pc) && pc.Consuming? && pc.version == LaneVersion(doc, req.laneId)
    ensures req.effect.Some? && HeldUnder(doc, req.laneId, pc.leaseId)
    ensures
      var grants := ReadLane(doc, req.laneId).record.grants;
      && DrawnOnce(grants, pc.updated.grants, pc.index, req.operationKey)
      && grants[pc.index].consumedCount < grants[pc.index].maximumEffectCount
      && MatchingGrants(grants, req.effect.value, Some(pc.event)) == [pc.index]
  {
    var grants := ReadLane(doc, req.laneId).record.grants;
    var matched := MatchingGrants(grants, req.effect.value, Some(pc.event));
    assert matched == [matched[0]];
  }

  lemma DrawingMovesSo(doc: Doc, req: ClaimRequest, pc: ClaimPc)
    requires WellStored(doc) && PcFits(req, pc) && ClaimFresh(doc, req, pc) && pc.Consuming?
    ensures var step := StepClaim(doc, req, pc); MovesSo(doc, Apply(doc, step.change), req, pc, step.pc)
  {
    if StepClaim(doc, req, pc).change.LaneWrite? {
      FoundIsDrawn(doc, req, pc);
      OneIsFoundExactlyWhen(ReadLane(doc, req.laneId).record.grants, req.effect.value, Some(pc.event), pc.index);
      assert DrawsFromOnly(ReadLane(doc, req.laneId).record.grants, pc.updated.grants, pc.index, req, pc.event);
    }
  }

  /** In every run every step of a claimant that took a lease is of this kind. */
  lemma ClaimantsMoveSo(run: seq<Action>, id: RunnerId)
    requires Legal(run) && Enabled(After(run), Step(id))
    requires After(run).slots[id].runner.Claimer? && PastLease(After(run).slots[id].runner.claim)
    ensures
      var s, t := After(run), Perform(After(run), Step(id));
      MovesSo(s.doc, t.doc, s.slots[id].runner.request, s.slots[id].runner.claim, t.slots[id].runner.claim)
  {
    var doc, req, pc := After(run).doc, After(run).slots[id].runner.request, After(run).slots[id].runner.claim;
    AlwaysSound(run);
    assert Fresh(doc, After(run).slots[id].runner);
    if pc.Leased? || pc.ReleaseReading? || pc.Persisted? {
      ReadingMovesSo(doc, req, pc);
    } else if pc.Persisting? {
      PersistingMovesSo(doc, req, pc);
    } else if pc.Consuming? {
      DrawingMovesSo(doc, req, pc);
    } else {
      WritingMovesSo(doc, req, pc);
    }
  }
}
