/** The invariant under every other one: a runner whose snapshot still has the current version
    would compute the same write if it read the document again now. */
module ControlInvariants {
  import opened Records
  import opened StateStore
  import opened ClaimProtocol
  import opened LaneCalls
  import opened ControlSystem

  /** Stored entries parse, name their own key and carry a positive version. */
  ghost predicate WellStored(doc: Doc) {
    && (forall l :: l in doc.lanes ==>
          doc.lanes[l].version >= 1 && doc.lanes[l].record.Some? && doc.lanes[l].record.value.laneId == l)
    && (forall k :: k in doc.operations ==>
          doc.operations[k].version >= 1 && doc.operations[k].record.Some? && doc.operations[k].record.value.key == k)
  }

  predicate ProperChange(change: Change) {
    match change
    case NoChange => true
    case LaneWrite(lane, record) => record.laneId == lane
    case OperationWrite(key, op) => op.key == key
  }

  /** `snapshot` is what a read returned; if its version is current, a read returns it again. */
  ghost predicate OperationSnapshotFresh(doc: Doc, key: OperationKey, snapshot: Read<OperationRecord>) {
    && !snapshot.Corrupt?
    && ExpectedVersion(snapshot) <= OperationVersion(doc, key)
    && (ExpectedVersion(snapshot) == OperationVersion(doc, key) ==> ReadOperation(doc, key) == snapshot)
  }

  ghost predicate ClaimFresh(doc: Doc, req: ClaimRequest, pc: ClaimPc) {
    match pc
    case Authorized(_, existing, _) => OperationSnapshotFresh(doc, req.operationKey, existing)
    case Leased(_, existing, _, _) => OperationSnapshotFresh(doc, req.operationKey, existing)
    case Persisting(_, existing, _, _, _) => OperationSnapshotFresh(doc, req.operationKey, existing)
    case Consuming(lane, existing, event, leaseId, version, _, _) =>
      && req.effect.Some?
      && OperationSnapshotFresh(doc, req.operationKey, existing)
      && version <= LaneVersion(doc, req.laneId)
      && (version == LaneVersion(doc, req.laneId) ==>
            FindGrant(doc, req, Leased(lane, existing, event, leaseId)).pc == pc)
    case Releasing(leaseId, reason, version, _) =>
      && version <= LaneVersion(doc, req.laneId)
      && (version == LaneVersion(doc, req.laneId) ==>
            ReadForRelease(doc, req, ReleaseReading(leaseId, reason)).pc == pc)
    case Linking(leaseId, operationVersion, drawn, version, updated) =>
      && version <= LaneVersion(doc, req.laneId)
      && updated.receipt.Some?
      && (version == LaneVersion(doc, req.laneId) ==>
            ReadForLink(doc, req, Persisted(leaseId, operationVersion, updated.receipt.value, drawn)).pc == pc)
    case _ => true
  }

  ghost predicate ResolveFresh(doc: Doc, lane: LaneId, key: OperationKey, resolution: Resolution, pc: ResolvePc) {
    match pc
    case OperationSaving(version, _) =>
      && version <= OperationVersion(doc, key)
      && (version == OperationVersion(doc, key) ==> StepResolve(doc, lane, key, resolution, ResolveStart).pc == pc)
    case LaneSaving(op, version, _) =>
      && version <= LaneVersion(doc, lane)
      && (version == LaneVersion(doc, lane) ==> StepResolve(doc, lane, key, resolution, OperationSaved(op)).pc == pc)
    case _ => true
  }

  ghost predicate WriterFresh(doc: Doc, call: LaneCall, pc: WriterPc) {
    match pc
    case Swapping(_, expected, record, onSuccess) =>
      && expected <= LaneVersion(doc, call.laneId)
      && (expected == LaneVersion(doc, call.laneId) ==>
            PlanCall(ReadLane(doc, call.laneId), call) == Write(expected, record, onSuccess))
    case _ => true
  }

  ghost predicate Fresh(doc: Doc, runner: Runner) {
    match runner
    case Claimer(req, pc, _) => ClaimFresh(doc, req, pc)
    case Resolver(lane, key, resolution, pc) => ResolveFresh(doc, lane, key, resolution, pc)
    case Writer(call, pc) => WriterFresh(doc, call, pc)
  }

  ghost predicate Sound(s: System) {
    && WellStored(s.doc)
    && RevisionCounts(s.doc)
    && forall id :: id in s.slots ==> Fresh(s.doc, s.slots[id].runner) && RunnerFits(s.slots[id].runner)
  }

  /** A write to what the snapshot was taken of makes it stale; any other write leaves it as it is. */
  lemma ClaimFreshUnderLaneWrite(doc: Doc, lane: LaneId, record: LaneRecord, req: ClaimRequest, pc: ClaimPc)
    requires ClaimFresh(doc, req, pc)
    ensures ClaimFresh(WriteLane(doc, lane, record), req, pc)
  {
    assert ReadOperation(WriteLane(doc, lane, record), req.operationKey) == ReadOperation(doc, req.operationKey);
  }

  lemma ClaimFreshUnderOperationWrite(doc: Doc, key: OperationKey, op: OperationRecord, req: ClaimRequest, pc: ClaimPc)
    requires ClaimFresh(doc, req, pc)
    ensures ClaimFresh(WriteOperation(doc, key, op), req, pc)
  {
    assert ReadLane(WriteOperation(doc, key, op), req.laneId) == ReadLane(doc, req.laneId);
  }

  lemma FreshUnderChange(doc: Doc, change: Change, runner: Runner)
    requires WellStored(doc) && ProperChange(change)
    requires Fresh(doc, runner)
    ensures Fresh(Apply(doc, change), runner)
  {
    match runner
    case Claimer(req, pc, _) =>
      match change {
        case NoChange =>
        case LaneWrite(lane, record) => ClaimFreshUnderLaneWrite(doc, lane, record, req, pc);
        case OperationWrite(key, op) => ClaimFreshUnderOperationWrite(doc, key, op, req, pc);
      }
    case Resolver(_, _, _, _) =>
    case Writer(_, _) =>
  }

  lemma ChangeKeepsStore(doc: Doc, change: Change)
    requires WellStored(doc) && ProperChange(change)
    ensures WellStored(Apply(doc, change))
  {
  }

  lemma ChangeKeepsRevision(doc: Doc, change: Change)
    requires RevisionCounts(doc)
    ensures RevisionCounts(Apply(doc, change))
  {
    match change
    case NoChange =>
    case LaneWrite(lane, record) => LaneWriteKeepsRevision(doc, lane, record);
    case OperationWrite(key, op) => OperationWriteKeepsRevision(doc, key, op);
  }

  lemma ClaimReadIsFresh(doc: Doc, req: ClaimRequest, pc: ClaimPc)
    requires WellStored(doc) && PcFits(req, pc) && ClaimFresh(doc, req, pc)
    requires !pc.Authorized? && !pc.Consuming? && !pc.Persisting?
    ensures
      var step := StepClaim(doc, req, pc);
      ProperChange(step.change) && PcFits(req, step.pc) && ClaimFresh(Apply(doc, step.change), req, step.pc)
  {
  }

  lemma ClaimWriteIsFresh(doc: Doc, req: ClaimRequest, pc: ClaimPc)
    requires WellStored(doc) && PcFits(req, pc) && ClaimFresh(doc, req, pc)
    requires pc.Authorized? || pc.Consuming? || pc.Persisting?
    ensures
      var step := StepClaim(doc, req, pc);
      ProperChange(step.change) && PcFits(req, step.pc) && ClaimFresh(Apply(doc, step.change), req, step.pc)
  {
    var step := StepClaim(doc, req, pc);
    assert ProperChange(step.change);
    if !pc.Persisting? {
      assert !step.change.OperationWrite?;
      assert ReadOperation(Apply(doc, step.change), req.operationKey) == ReadOperation(doc, req.operationKey);
    }
  }

  lemma ClaimMoveIsFresh(doc: Doc, req: ClaimRequest, pc: ClaimPc)
    requires WellStored(doc) && PcFits(req, pc) && ClaimFresh(doc, req, pc)
    ensures
      var step := StepClaim(doc, req, pc);
      ProperChange(step.change) && PcFits(req, step.pc) && ClaimFresh(Apply(doc, step.change), req, step.pc)
  {
    if pc.Authorized? || pc.Consuming? || pc.Persisting? {
      ClaimWriteIsFresh(doc, req, pc);
    } else {
      ClaimReadIsFresh(doc, req, pc);
    }
  }

  lemma ResolveMoveIsFresh(doc: Doc, lane: LaneId, key: OperationKey, resolution: Resolution, pc: ResolvePc)
    requires WellStored(doc) && ResolveFresh(doc, lane, key, resolution, pc)
    ensures
      var step := StepResolve(doc, lane, key, resolution, pc);
      ProperChange(step.change) && ResolveFresh(Apply(doc, step.change), lane, key, resolution, step.pc)
  {
  }

  lemma WriterMoveIsFresh(doc: Doc, call: LaneCall, pc: WriterPc)
    requires WellStored(doc) && WriterFresh(doc, call, pc)
    ensures
      var (change, next) := StepWriter(doc, call, pc);
      ProperChange(change) && WriterFresh(Apply(doc, change), call, next)
  {
  }

  /** A runner's own move leaves it with a fresh snapshot and a well-formed write. */
  lemma MoveIsFresh(doc: Doc, runner: Runner)
    requires WellStored(doc) && Fresh(doc, runner) && RunnerFits(runner)
    ensures ProperChange(MoveOf(doc, runner).change)
    ensures Fresh(Apply(doc, MoveOf(doc, runner).change), MoveOf(doc, runner).runner)
    ensures RunnerFits(MoveOf(doc, runner).runner)
  {
    match runner
    case Claimer(req, pc, _) => ClaimMoveIsFresh(doc, req, pc);
    case Resolver(lane, key, resolution, pc) => ResolveMoveIsFresh(doc, lane, key, resolution, pc);
    case Writer(call, pc) => WriterMoveIsFresh(doc, call, pc);
  }

  lemma SoundKept(s: System, action: Action)
    requires Sound(s) && Enabled(s, action)
    ensures Sound(Perform(s, action))
  {
    if action.Step? {
      var runner := s.slots[action.id].runner;
      var change := MoveOf(s.doc, runner).change;
      MoveIsFresh(s.doc, runner);
      ChangeKeepsStore(s.doc, change);
      ChangeKeepsRevision(s.doc, change);
      forall id | id in s.slots ensures Fresh(Apply(s.doc, change), s.slots[id].runner) {
        FreshUnderChange(s.doc, change, s.slots[id].runner);
      }
    }
  }

  lemma {:induction false} AlwaysSound(run: seq<Action>)
    requires Legal(run)
    ensures Sound(After(run))
  {
    if run != [] {
      AlwaysSound(run[..|run| - 1]);
      SoundKept(After(run[..|run| - 1]), run[|run| - 1]);
    }
  }

  // ---------------------------------------------------------------------------
  // No lost update
  // ---------------------------------------------------------------------------

  ghost predicate OnlyLaneMoved(before: Doc, after: Doc, lane: LaneId) {
    && lane in after.lanes && after.lanes == before.lanes[lane := after.lanes[lane]]
    && after.operations == before.operations
    && LaneVersion(after, lane) == LaneVersion(before, lane) + 1
  }

  ghost predicate OnlyOperationMoved(before: Doc, after: Doc, key: OperationKey) {
    && key in after.operations && after.operations == before.operations[key := after.operations[key]]
    && after.lanes == before.lanes
    && OperationVersion(after, key) == OperationVersion(before, key) + 1
  }

  /** At most one entry changed, and its version rose by one. */
  ghost predicate OneWrite(before: Doc, after: Doc) {
    || after == before
    || (exists lane :: OnlyLaneMoved(before, after, lane))
    || (exists key :: OnlyOperationMoved(before, after, key))
  }

  lemma ActionIsOneWrite(s: System, action: Action)
    requires Enabled(s, action)
    ensures OneWrite(s.doc, Perform(s, action).doc)
  {
    if action.Step? {
      var change := MoveOf(s.doc, s.slots[action.id].runner).change;
      match change {
        case NoChange =>
        case LaneWrite(lane, record) => assert OnlyLaneMoved(s.doc, Apply(s.doc, change), lane);
        case OperationWrite(key, op) => assert OnlyOperationMoved(s.doc, Apply(s.doc, change), key);
      }
    }
  }

  /** Every action of a run writes at most one entry, one version further, and the revision counter
      is the sum of all versions before and after. */
  lemma EveryActionIsOneWrite(run: seq<Action>)
    requires Legal(run) && run != []
    ensures
      var before := After(run[..|run| - 1]).doc;
      var after := After(run).doc;
      OneWrite(before, after) && RevisionCounts(before) && RevisionCounts(after)
  {
    AlwaysSound(run[..|run| - 1]);
    AlwaysSound(run);
    ActionIsOneWrite(After(run[..|run| - 1]), run[|run| - 1]);
  }

  /** A version names its contents: between two moments of a run versions never fall, and an entry
      at the same version is the same entry. */
  ghost predicate NoRewrite(before: Doc, after: Doc) {
    && (forall lane :: LaneVersion(before, lane) <= LaneVersion(after, lane))
    && (forall key :: OperationVersion(before, key) <= OperationVersion(after, key))
    && (forall lane :: LaneVersion(before, lane) == LaneVersion(after, lane) ==> ReadLane(before, lane) == ReadLane(after, lane))
    && (forall key :: OperationVersion(before, key) == OperationVersion(after, key) ==>
          ReadOperation(before, key) == ReadOperation(after, key))
  }

  lemma OneWriteIsNoRewrite(before: Doc, after: Doc)
    requires OneWrite(before, after)
    ensures NoRewrite(before, after)
  {
  }

  lemma {:induction false} VersionNamesContents(run: seq<Action>, n: nat)
    requires Legal(run) && n <= |run|
    ensures Legal(run[..n]) && NoRewrite(After(run[..n]).doc, After(run).doc)
  {
    if n == |run| {
      assert run[..n] == run;
    } else {
      var earlier := run[..|run| - 1];
      VersionNamesContents(earlier, n);
      assert earlier[..n] == run[..n];
      EveryActionIsOneWrite(run);
      OneWriteIsNoRewrite(After(earlier).doc, After(run).doc);
    }
  }
}
