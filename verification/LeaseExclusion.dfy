/** Lane leases under interference: who may end a lease, and what a later lease implies. */
module LeaseExclusion {
  import opened Wrappers
  import opened Records
  import opened StateStore
  import opened ClaimProtocol
  import opened ControlSystem
  import opened ControlInvariants

  /** The lease a claimant believes to hold. */
  function HeldLease(pc: ClaimPc): Option<LeaseId> {
    match pc
    case Leased(_, _, _, leaseId) => Some(leaseId)
    case Consuming(_, _, _, leaseId, _, _, _) => Some(leaseId)
    case Persisting(_, _, _, leaseId, _) => Some(leaseId)
    case ReleaseReading(leaseId, _) => Some(leaseId)
    case Releasing(leaseId, _, _, _) => Some(leaseId)
    case Persisted(leaseId, _, _, _) => Some(leaseId)
    case Linking(leaseId, _, _, _, _) => Some(leaseId)
    case Done(Claimed(_, leaseId, _)) => Some(leaseId)
    case Done(ClaimedReconcileWorkstreamRequired(_, leaseId)) => Some(leaseId)
    case _ => None
  }

  predicate TakesLease(before: Runner, change: Change) {
    before.Claimer? && before.claim.Authorized? && change.LaneWrite?
  }

  /** A release by the claimant that was granted this very lease. */
  predicate ReleasesOwn(before: Runner, lease: Lease) {
    before.Claimer? && before.claim.Releasing? && before.claim.leaseId == lease.id
  }

  /** A definite readback of the operation the lease was taken for. */
  predicate ReadsBack(before: Runner, lease: Lease) {
    && before.Resolver? && before.resolve.LaneSaving?
    && before.resolution.ReadBack? && before.resolution.observed.Some?
    && before.key == lease.operationKey
  }

  /** What one move may do to the lease of the lane it writes. */
  ghost predicate LeaseMove(doc: Doc, before: Runner, move: Move) {
    && (before.Claimer? ==>
          && move.runner.Claimer? && move.runner.request == before.request
          && if TakesLease(before, move.change) then
               && move.change.record.lease.Some?
               && HeldLease(move.runner.claim) == Some(move.change.record.lease.value.id)
               && move.change.lane == before.request.laneId
             else
               HeldLease(move.runner.claim).Some? ==> HeldLease(move.runner.claim) == HeldLease(before.claim))
    && (!before.Claimer? ==> !move.runner.Claimer?)
    && (move.change.LaneWrite? ==>
          var lane, was, now := move.change.lane, LaneLease(doc, move.change.lane), move.change.record.lease;
          if TakesLease(before, move.change) then
            && now == Some(NewLease(doc, lane, before.request.owner, before.request.operationKey,
                                    before.request.ttl, before.request.now))
            && (was.Some? ==> before.request.now >= was.value.expiresAt)
          else
            now == was || (now.None? && was.Some? && (ReleasesOwn(before, was.value) || ReadsBack(before, was.value))))
  }

  lemma ClaimLeaseMove(doc: Doc, req: ClaimRequest, pc: ClaimPc, wrote: bool)
    requires WellStored(doc) && PcFits(req, pc) && ClaimFresh(doc, req, pc)
    ensures LeaseMove(doc, Claimer(req, pc, wrote), MoveOf(doc, Claimer(req, pc, wrote)))
  {
  }

  lemma ResolveLeaseMove(doc: Doc, runner: Runner)
    requires WellStored(doc) && Fresh(doc, runner) && runner.Resolver?
    ensures LeaseMove(doc, runner, MoveOf(doc, runner))
  {
  }

  lemma WriterLeaseMove(doc: Doc, runner: Runner)
    requires WellStored(doc) && Fresh(doc, runner) && runner.Writer?
    ensures LeaseMove(doc, runner, MoveOf(doc, runner))
  {
  }

  lemma MoveIsLeaseMove(doc: Doc, runner: Runner)
    requires WellStored(doc) && Fresh(doc, runner) && RunnerFits(runner)
    ensures LeaseMove(doc, runner, MoveOf(doc, runner))
  {
    match runner
    case Claimer(req, pc, wrote) => ClaimLeaseMove(doc, req, pc, wrote);
    case Resolver(_, _, _, _) => ResolveLeaseMove(doc, runner);
    case Writer(_, _) => WriterLeaseMove(doc, runner);
  }

  // ---------------------------------------------------------------------------
  // The lease history
  // ---------------------------------------------------------------------------

  /** The lease was over when the next one was granted. */
  predicate EndedBefore(freed: set<LeaseId>, earlier: Lease, later: Lease) {
    later.acquiredAt >= earlier.expiresAt || earlier.id in freed
  }

  ghost predicate LaneLog(doc: Doc, h: History, lane: LaneId) {
    var log := LeasesOf(h.leases, lane);
    && (forall i :: 0 <= i < |log| ==> log[i].lease.id.laneId == lane && log[i].lease.id.version <= LaneVersion(doc, lane))
    && (forall i, j :: 0 <= i < j < |log| ==> log[i].lease.id.version < log[j].lease.id.version)
    && (forall i :: 0 <= i < |log| - 1 ==> EndedBefore(h.freed, log[i].lease, log[i + 1].lease))
    && (match LaneLease(doc, lane)
        case Some(lease) => |log| > 0 && log[|log| - 1].lease == lease
        case None => |log| > 0 ==> log[|log| - 1].lease.id in h.freed)
  }

  ghost predicate GrantedTo(h: History, lane: LaneId, id: RunnerId, leaseId: LeaseId) {
    exists i :: 0 <= i < |LeasesOf(h.leases, lane)|
             && LeasesOf(h.leases, lane)[i].holder == id && LeasesOf(h.leases, lane)[i].lease.id == leaseId
  }

  ghost predicate HoldersKnown(s: System) {
    forall id :: id in s.slots && s.slots[id].runner.Claimer? && HeldLease(s.slots[id].runner.claim).Some? ==>
      GrantedTo(s.history, s.slots[id].runner.request.laneId, id, HeldLease(s.slots[id].runner.claim).value)
  }

  ghost predicate LeasesSafe(s: System) {
    && Sound(s)
    && (forall lane :: LaneLog(s.doc, s.history, lane))
    && HoldersKnown(s)
  }

  lemma LaneLogTaken(s: System, id: RunnerId, move: Move, lane: LaneId)
    requires id in s.slots && LeaseMove(s.doc, s.slots[id].runner, move) && LaneLog(s.doc, s.history, lane)
    requires TakesLease(s.slots[id].runner, move.change) && move.change.lane == lane
    ensures LaneLog(Moved(s, id, move).doc, Moved(s, id, move).history, lane)
  {
    var t := Moved(s, id, move);
    var log := LeasesOf(s.history.leases, lane);
    var lease := move.change.record.lease.value;
    assert LeasesOf(t.history.leases, lane) == log + [LeaseGrant(id, lease)];
    assert t.history.freed == s.history.freed;
    assert LaneLease(t.doc, lane) == Some(lease);
    assert lease.id.version == LaneVersion(s.doc, lane) + 1 == LaneVersion(t.doc, lane);
    assert |log| > 0 ==> EndedBefore(t.history.freed, log[|log| - 1].lease, lease);
  }

  lemma LaneLogUntaken(s: System, id: RunnerId, move: Move, lane: LaneId)
    requires id in s.slots && LeaseMove(s.doc, s.slots[id].runner, move) && LaneLog(s.doc, s.history, lane)
    requires !(TakesLease(s.slots[id].runner, move.change) && move.change.lane == lane)
    ensures LaneLog(Moved(s, id, move).doc, Moved(s, id, move).history, lane)
  {
    var t := Moved(s, id, move);
    assert LeasesOf(t.history.leases, lane) == LeasesOf(s.history.leases, lane);
    assert s.history.freed <= t.history.freed;
    if move.change.LaneWrite? && move.change.lane == lane {
      assert LaneLease(t.doc, lane) == move.change.record.lease;
    } else {
      assert LaneLease(t.doc, lane) == LaneLease(s.doc, lane);
      assert LaneVersion(t.doc, lane) == LaneVersion(s.doc, lane);
    }
  }

  lemma GrantsAreKept(s: System, id: RunnerId, move: Move, lane: LaneId, holder: RunnerId, leaseId: LeaseId)
    requires id in s.slots && GrantedTo(s.history, lane, holder, leaseId)
    ensures GrantedTo(Moved(s, id, move).history, lane, holder, leaseId)
  {
    var before, after := LeasesOf(s.history.leases, lane), LeasesOf(Moved(s, id, move).history.leases, lane);
    var i :| 0 <= i < |before| && before[i].holder == holder && before[i].lease.id == leaseId;
    assert after[i] == before[i];
  }

  lemma HoldersKnownMoved(s: System, id: RunnerId, move: Move)
    requires id in s.slots && LeaseMove(s.doc, s.slots[id].runner, move) && HoldersKnown(s)
    ensures HoldersKnown(Moved(s, id, move))
  {
    var t := Moved(s, id, move);
    forall j | j in t.slots && t.slots[j].runner.Claimer? && HeldLease(t.slots[j].runner.claim).Some?
      ensures GrantedTo(t.history, t.slots[j].runner.request.laneId, j, HeldLease(t.slots[j].runner.claim).value)
    {
      var lane, held := t.slots[j].runner.request.laneId, HeldLease(t.slots[j].runner.claim).value;
      if j == id && TakesLease(s.slots[id].runner, move.change) {
        var log := LeasesOf(s.history.leases, lane);
        assert LeasesOf(t.history.leases, lane)[|log|] == LeaseGrant(id, move.change.record.lease.value);
      } else {
        assert s.slots[j].runner.Claimer? && HeldLease(s.slots[j].runner.claim) == Some(held);
        GrantsAreKept(s, id, move, lane, j, held);
      }
    }
  }

  lemma LeasesSafeKept(s: System, action: Action)
    requires LeasesSafe(s) && Enabled(s, action)
    ensures LeasesSafe(Perform(s, action))
  {
    SoundKept(s, action);
    var t := Perform(s, action);
    if action.Step? {
      var move := MoveOf(s.doc, s.slots[action.id].runner);
      MoveIsLeaseMove(s.doc, s.slots[action.id].runner);
      HoldersKnownMoved(s, action.id, move);
      forall lane ensures LaneLog(t.doc, t.history, lane) {
        if TakesLease(s.slots[action.id].runner, move.change) && move.change.lane == lane {
          LaneLogTaken(s, action.id, move, lane);
        } else {
          LaneLogUntaken(s, action.id, move, lane);
        }
      }
    } else {
      LeasesIdle(s, action);
    }
  }

  lemma LeasesIdle(s: System, action: Action)
    requires LeasesSafe(s) && Enabled(s, action) && !action.Step?
    ensures HoldersKnown(Perform(s, action))
    ensures forall lane :: LaneLog(Perform(s, action).doc, Perform(s, action).history, lane)
  {
    var t := Perform(s, action);
    assert t.history.leases == s.history.leases && t.history.freed == s.history.freed;
    forall lane ensures LaneLog(t.doc, t.history, lane) {
      assert LaneLog(s.doc, s.history, lane);
    }
    forall j | j in t.slots && t.slots[j].runner.Claimer? && HeldLease(t.slots[j].runner.claim).Some?
      ensures GrantedTo(t.history, t.slots[j].runner.request.laneId, j, HeldLease(t.slots[j].runner.claim).value)
    {
      assert GrantedTo(s.history, t.slots[j].runner.request.laneId, j, HeldLease(t.slots[j].runner.claim).value);
    }
  }

  lemma {:induction false} AlwaysLeasesSafe(run: seq<Action>)
    requires Legal(run)
    ensures LeasesSafe(After(run))
  {
    if run != [] {
      AlwaysLeasesSafe(run[..|run| - 1]);
      LeasesSafeKept(After(run[..|run| - 1]), run[|run| - 1]);
    }
  }

  // ---------------------------------------------------------------------------
  // The theorems
  // ---------------------------------------------------------------------------

  /** The only three ways a held lease ends: another claimant takes it at or after its expiry,
      its own holder releases it by id, or its operation is definitely read back. */
  lemma LeaseEndsForCause(run: seq<Action>, action: Action, lane: LaneId)
    requires Legal(run) && Enabled(After(run), action)
    requires LaneLease(After(run).doc, lane).Some?
    requires LaneLease(Perform(After(run), action).doc, lane) != LaneLease(After(run).doc, lane)
    ensures
      var s, was := After(run), LaneLease(After(run).doc, lane).value;
      && action.Step?
      && var runner := s.slots[action.id].runner;
         || (&& runner.Claimer? && runner.claim.Authorized? && runner.request.laneId == lane
             && runner.request.now >= was.expiresAt)
         || (ReleasesOwn(runner, was) && GrantedTo(s.history, lane, action.id, was.id))
         || ReadsBack(runner, was)
  {
    AlwaysLeasesSafe(run);
    var s := After(run);
    if action.Step? {
      MoveIsLeaseMove(s.doc, s.slots[action.id].runner);
    }
  }

  /** A lease was granted to one runner only, so a release never names another runner's lease. */
  lemma LeaseHasOneHolder(run: seq<Action>, lane: LaneId, leaseId: LeaseId, a: RunnerId, b: RunnerId)
    requires Legal(run)
    requires GrantedTo(After(run).history, lane, a, leaseId) && GrantedTo(After(run).history, lane, b, leaseId)
    ensures a == b
  {
    AlwaysLeasesSafe(run);
    var log := LeasesOf(After(run).history.leases, lane);
    assert LaneLog(After(run).doc, After(run).history, lane);
    var i :| 0 <= i < |log| && log[i].holder == a && log[i].lease.id == leaseId;
    var j :| 0 <= j < |log| && log[j].holder == b && log[j].lease.id == leaseId;
    assert i == j;
  }

  /** Lease ids on a lane are pairwise distinct; each lease had expired or been freed when the
      next one was granted; and with acquisition times that never go back, when any later one was. */
  lemma LaterLeaseImpliesEnd(run: seq<Action>, lane: LaneId, i: nat, j: nat)
    requires Legal(run)
    requires i < j < |LeasesOf(After(run).history.leases, lane)|
    ensures
      var log, freed := LeasesOf(After(run).history.leases, lane), After(run).history.freed;
      && log[i].lease.id != log[j].lease.id
      && EndedBefore(freed, log[i].lease, log[i + 1].lease)
      && ((forall m :: i < m < j ==> log[m].lease.acquiredAt <= log[m + 1].lease.acquiredAt) ==>
            EndedBefore(freed, log[i].lease, log[j].lease))
  {
    AlwaysLeasesSafe(run);
    var log, freed := LeasesOf(After(run).history.leases, lane), After(run).history.freed;
    assert LaneLog(After(run).doc, After(run).history, lane);
    assert log[i].lease.id.version < log[j].lease.id.version;
    if forall m :: i < m < j ==> log[m].lease.acquiredAt <= log[m + 1].lease.acquiredAt {
      TimesAreMonotone(log, i + 1, j);
    }
  }

  lemma {:induction false} TimesAreMonotone(log: seq<LeaseGrant>, i: nat, j: nat)
    requires i <= j < |log|
    requires forall m :: i <= m < j ==> log[m].lease.acquiredAt <= log[m + 1].lease.acquiredAt
    ensures log[i].lease.acquiredAt <= log[j].lease.acquiredAt
  {
    if i < j {
      TimesAreMonotone(log, i, j - 1);
      assert log[j - 1].lease.acquiredAt <= log[j - 1 + 1].lease.acquiredAt;
    }
  }
}
