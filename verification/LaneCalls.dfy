/** The lane updates built on read, edit and compare-and-swap: the pending mark, the two
    generation binders, the confirmed-generation counter and the activation switch. */
module LaneCalls {
  import opened Wrappers
  import opened Records
  import opened StateStore
  import opened PassiveObservation

  const ACCOUNTING_WINDOW: nat := 512

  datatype LaneCall =
    | AuthorizeLane(laneId: LaneId)
    | RestoreShadow(laneId: LaneId)
    | PersistPending(laneId: LaneId, transition: PendingTransition)
    | ClearPending(laneId: LaneId, transitionKey: TransitionKey)
    | BindGeneration(laneId: LaneId, project: string, route: string, workstreamId: string,
                     generation: nat, fingerprint: Fingerprint, transitionKey: TransitionKey)
    | EnsureInitial(laneId: LaneId, project: string, route: string, workstreamId: string)
    | PersistPendingInitial(laneId: LaneId, transition: PendingTransition)
    | BindInitial(laneId: LaneId, fingerprint: Fingerprint, transitionKey: TransitionKey,
                  taskSpecDigest: string)
    | AccountGeneration(laneId: LaneId, project: string, route: string,
                        operationKey: OperationKey, transitionKey: TransitionKey)
    | ObserveLane(laneId: LaneId, project: string, route: string, workstreamId: string, observation: Observation)
    | RestoreObserved(laneId: LaneId, remembered: PendingTransition, unknown: Option<OperationKey>)
    | OtherEdit(laneId: LaneId, proposal: LaneRecord)

  /** How often a call re-reads the lane before it gives up on a version conflict. */
  function MaxAttempts(call: LaneCall): nat {
    if call.AuthorizeLane? || call.ObserveLane? || call.OtherEdit? then 1 else 3
  }

  datatype Status =
    | LaneAuthorized
    | AlreadyShadow
    | ShadowRestored
    | IdempotentPendingTransition
    | PendingTransitionPersisted
    | NothingPending
    | PendingCleared
    | IdempotentBindingPresent
    | GenerationBindingPersisted
    | InitialLaneReady
    | GenerationAlreadyAccounted(count: nat)
    | GenerationAccounted(count: nat)
    | LaneObserved
    | ObservedRestored
    | LaneEdited

  /** What a call decides from one read: answer, raise, or try to write. */
  datatype Plan =
    | Answer(status: Status)
    | Raise(error: StoreError)
    | Write(expected: nat, record: LaneRecord, onSuccess: Status)

  function FreshLane(laneId: LaneId, project: string, route: string, workstreamId: string): LaneRecord {
    LaneRecord(laneId, project, route, workstreamId, Shadow, None, None, None, None, None, [], NO_EVIDENCE)
  }

  function PlanAuthorize(read: Read<LaneRecord>): Plan {
    match read
    case Found(v, r) => Write(v, r.(mode := ActiveAutoSafe), LaneAuthorized)
    case _ => Raise(Unavailable)
  }

  function PlanRestore(read: Read<LaneRecord>): Plan {
    match read
    case Found(v, r) => if r.mode == Shadow then Answer(AlreadyShadow) else Write(v, r.(mode := Shadow), ShadowRestored)
    case _ => Raise(Unavailable)
  }

  function PlanPersistPending(read: Read<LaneRecord>, t: PendingTransition): Plan {
    if t.transitionKey == "" || t.nextGeneration < 1 then Raise(Refused)
    else match read
      case Found(v, r) =>
        if r.evidence.pending.Some? && r.evidence.pending.value.transitionKey == t.transitionKey then
          Answer(IdempotentPendingTransition)
        else if r.evidence.pending.Some? && (r.unknownWrite.Some? || r.actionInFlight.Some?) then
          Raise(VersionConflict)
        else
          Write(v, r.(mode := Shadow, evidence := r.evidence.(pending := Some(t))), PendingTransitionPersisted)
      case _ => Raise(Unavailable)
  }

  function PlanClearPending(read: Read<LaneRecord>, key: TransitionKey): Plan {
    match read
    case Found(v, r) =>
      if r.evidence.pending.None? then Answer(NothingPending)
      else if r.evidence.pending.value.transitionKey != key then Raise(VersionConflict)
      else Write(v, r.(evidence := r.evidence.(pending := None)), PendingCleared)
    case _ => Raise(Unavailable)
  }

  function Bound(r: LaneRecord, generation: nat, fp: Fingerprint, key: TransitionKey): LaneRecord {
    r.(mode := Shadow, unknownWrite := None,
       evidence := r.evidence.(generation := generation, fingerprint := Some(fp),
                               previousFingerprint := r.evidence.fingerprint, transitionKey := Some(key)))
  }

  function PlanBind(read: Read<LaneRecord>, call: LaneCall): Plan
    requires call.BindGeneration?
  {
    if call.generation < 1 || call.transitionKey == "" then Raise(Refused)
    else if read.Corrupt? then Raise(Unavailable)
    else
      var record := if read.Found? then read.record
                    else FreshLane(call.laneId, call.project, call.route, call.workstreamId);
      var expected := if read.Found? then read.version else 0;
      var e := record.evidence;
      if e.generation > call.generation then Raise(VersionConflict)
      else if e.generation == call.generation && e.fingerprint.Some? then
        if e.fingerprint.value != call.fingerprint
           || (e.transitionKey.Some? && e.transitionKey.value != call.transitionKey)
        then Raise(VersionConflict)
        else Answer(IdempotentBindingPresent)
      else if e.generation != 0 && call.generation != e.generation + 1 then Raise(VersionConflict)
      else Write(expected, Bound(record, call.generation, call.fingerprint, call.transitionKey),
                 GenerationBindingPersisted)
  }

  function PlanEnsureInitial(read: Read<LaneRecord>, call: LaneCall): Plan
    requires call.EnsureInitial?
  {
    match read
    case Found(_, _) => Answer(InitialLaneReady)
    case Corrupt => Raise(Unavailable)
    case Missing => Write(0, FreshLane(call.laneId, call.project, call.route, call.workstreamId), InitialLaneReady)
  }

  function PlanPersistPendingInitial(read: Read<LaneRecord>, t: PendingTransition): Plan {
    if t.transitionKey == "" then Raise(Refused)
    else match read
      case Found(v, r) =>
        if r.evidence.pendingInitial.Some? && r.evidence.pendingInitial.value.transitionKey == t.transitionKey then
          Answer(IdempotentPendingTransition)
        else if r.evidence.pendingInitial.Some? && (r.unknownWrite.Some? || r.actionInFlight.Some?) then
          Raise(VersionConflict)
        else
          Write(v, r.(mode := Shadow, evidence := r.evidence.(pendingInitial := Some(t))), PendingTransitionPersisted)
      case _ => Raise(Unavailable)
  }

  function PlanBindInitial(read: Read<LaneRecord>, call: LaneCall): Plan
    requires call.BindInitial?
  {
    match read
    case Found(v, r) =>
      var e := r.evidence;
      if e.generation == 1 && e.fingerprint.Some? then
        if e.fingerprint.value == call.fingerprint && e.initialTransitionKey == Some(call.transitionKey)
        then Answer(IdempotentBindingPresent)
        else Raise(VersionConflict)
      else if e.generation != 0 || e.fingerprint.Some? then Raise(VersionConflict)
      else
        Write(v, r.(mode := Shadow, unknownWrite := None,
                    evidence := e.(generation := 1, fingerprint := Some(call.fingerprint),
                                   previousFingerprint := None,
                                   transitionKey := Some(call.transitionKey),
                                   initialTransitionKey := Some(call.transitionKey),
                                   taskSpecDigest := Some(call.taskSpecDigest),
                                   pendingInitial := None)),
              GenerationBindingPersisted)
    case _ => Raise(Unavailable)
  }

  /** The newest `ACCOUNTING_WINDOW` entries of a list with one more entry. */
  function Windowed<T>(items: seq<T>, item: T): (r: seq<T>) {
    var extended := items + [item];
    if |extended| <= ACCOUNTING_WINDOW then extended else extended[|extended| - ACCOUNTING_WINDOW..]
  }

  predicate AlreadyAccounted(a: Accounting, op: OperationKey, transition: TransitionKey) {
    op in a.operations || transition in a.transitions
  }

  function Counted(a: Accounting, op: OperationKey, transition: TransitionKey): Accounting {
    Accounting(a.count + 1, Windowed(a.operations, op), Windowed(a.transitions, transition))
  }

  function PlanAccount(read: Read<LaneRecord>, call: LaneCall): Plan
    requires call.AccountGeneration?
  {
    if call.transitionKey == "" then Raise(Refused)
    else if read.Corrupt? then Raise(Unavailable)
    else
      var record := if read.Found? then read.record
                    else FreshLane(call.laneId, call.project, call.route, BUDGET_WORKSTREAM);
      var expected := if read.Found? then read.version else 0;
      var a := record.evidence.accounting;
      if AlreadyAccounted(a, call.operationKey, call.transitionKey) then Answer(GenerationAlreadyAccounted(a.count))
      else
        Write(expected,
              record.(mode := Shadow,
                      evidence := record.evidence.(accounting := Counted(a, call.operationKey, call.transitionKey))),
              GenerationAccounted(a.count + 1))
  }

  /** A passive observation rebinds the lane by what matching made of the provider's listing, rebuilds
      its evidence and touches nothing but the mode besides. */
  function PlanObserve(read: Read<LaneRecord>, call: LaneCall): Plan
    requires call.ObserveLane?
  {
    if read.Corrupt? then Raise(Unavailable)
    else
      var record := if read.Found? then read.record
                    else FreshLane(call.laneId, call.project, call.route, call.workstreamId);
      Write(if read.Found? then read.version else 0, Observe(record, call.observation), LaneObserved)
  }

  /** After an observation: puts back the pending transition, and the UNKNOWN mark if there was one,
      that the lane had before. */
  function PlanRestoreObserved(read: Read<LaneRecord>, call: LaneCall): Plan
    requires call.RestoreObserved?
  {
    match read
    case Found(v, r) =>
      Write(v, r.(mode := Shadow, evidence := r.evidence.(pending := Some(call.remembered)),
                  unknownWrite := if call.unknown.Some? then call.unknown else r.unknownWrite), ObservedRestored)
    case _ => Raise(Unavailable)
  }

  /** Every other writer of a lane re-serialises the record it read: it never touches the lease,
      the grants already issued or the generation evidence; it may issue further grants. */
  predicate PreservesProtectedFields(before: LaneRecord, after: LaneRecord) {
    && after.laneId == before.laneId
    && after.lease == before.lease
    && after.evidence == before.evidence
    && |before.grants| <= |after.grants|
    && after.grants[..|before.grants|] == before.grants
    && (forall i :: |before.grants| <= i < |after.grants| ==> after.grants[i].Balanced())
  }

  function PlanOther(read: Read<LaneRecord>, call: LaneCall): Plan
    requires call.OtherEdit?
  {
    match read
    case Corrupt => Raise(Unavailable)
    case Found(v, r) =>
      if PreservesProtectedFields(r, call.proposal) then Write(v, call.proposal, LaneEdited) else Raise(Refused)
    case Missing =>
      var created := FreshLane(call.laneId, call.proposal.project, call.proposal.route, call.proposal.workstreamId);
      if PreservesProtectedFields(created, call.proposal) then Write(0, call.proposal, LaneEdited) else Raise(Refused)
  }

  function PlanCall(read: Read<LaneRecord>, call: LaneCall): Plan {
    match call
    case AuthorizeLane(_) => PlanAuthorize(read)
    case RestoreShadow(_) => PlanRestore(read)
    case PersistPending(_, t) => PlanPersistPending(read, t)
    case ClearPending(_, key) => PlanClearPending(read, key)
    case BindGeneration(_, _, _, _, _, _, _) => PlanBind(read, call)
    case EnsureInitial(_, _, _, _) => PlanEnsureInitial(read, call)
    case PersistPendingInitial(_, t) => PlanPersistPendingInitial(read, t)
    case BindInitial(_, _, _, _) => PlanBindInitial(read, call)
    case AccountGeneration(_, _, _, _, _) => PlanAccount(read, call)
    case ObserveLane(_, _, _, _, _) => PlanObserve(read, call)
    case RestoreObserved(_, _, _) => PlanRestoreObserved(read, call)
    case OtherEdit(_, _) => PlanOther(read, call)
  }
}
