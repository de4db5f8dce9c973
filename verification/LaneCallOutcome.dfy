/** What an undisturbed lane update answers and leaves behind, in terms of the record it found; and that
    asking for the same once more changes nothing. */
module LaneCallOutcome {
  import opened Wrappers
  import opened Records
  import opened StateStore
  import opened PassiveObservation
  import opened LaneCalls
  import opened LaneCallExecution

  // ---------------------------------------------------------------------------
  // What is asked
  // ---------------------------------------------------------------------------

  /** The call lacks a key or a generation it needs. */
  predicate Malformed(call: LaneCall) {
    match call
    case PersistPending(_, t) => |t.transitionKey| == 0 || t.nextGeneration == 0
    case PersistPendingInitial(_, t) => |t.transitionKey| == 0
    case BindGeneration(_, _, _, _, generation, _, key) => |key| == 0 || generation == 0
    case AccountGeneration(_, _, _, _, key) => |key| == 0
    case _ => false
  }

  /** The call makes a lane that is not there. */
  predicate MakesLane(call: LaneCall) {
    call.BindGeneration? || call.EnsureInitial? || call.AccountGeneration? || call.ObserveLane? || call.OtherEdit?
  }

  /** The lane as the call finds it: the one stored, or an empty one in SHADOW under its names. */
  function FoundBy(call: LaneCall, read: Read<LaneRecord>): LaneRecord
    requires read.Found? || (read.Missing? && MakesLane(call))
  {
    if read.Found? then read.record
    else
      match call
      case AccountGeneration(lane, project, route, _, _) =>
        LaneRecord(lane, project, route, BUDGET_WORKSTREAM, Shadow, None, None, None, None, None, [], NO_EVIDENCE)
      case OtherEdit(lane, p) =>
        LaneRecord(lane, p.project, p.route, p.workstreamId, Shadow, None, None, None, None, None, [], NO_EVIDENCE)
      case _ => LaneRecord(call.laneId, call.project, call.route, call.workstreamId, Shadow, None, None, None, None, None, [], NO_EVIDENCE)
  }

  predicate PendsFor(pending: Option<PendingTransition>, t: PendingTransition) {
    pending.Some? && pending.value.transitionKey == t.transitionKey
  }

  /** The record already is what the call asks for. */
  predicate IsAsAsked(call: LaneCall, r: LaneRecord) {
    var e := r.evidence;
    match call
    case RestoreShadow(_) => r.mode == Shadow
    case PersistPending(_, t) => PendsFor(e.pending, t)
    case ClearPending(_, _) => e.pending == None
    case BindGeneration(_, _, _, _, generation, fp, key) =>
      e.generation == generation && e.fingerprint == Some(fp) && e.transitionKey in {None, Some(key)}
    case EnsureInitial(_, _, _, _) => true
    case PersistPendingInitial(_, t) => PendsFor(e.pendingInitial, t)
    case BindInitial(_, fp, key, _) => e.generation == 1 && e.fingerprint == Some(fp) && e.initialTransitionKey == Some(key)
    case AccountGeneration(_, _, _, op, key) => op in e.accounting.operations || key in e.accounting.transitions
    case _ => false
  }

  /** Another transition may be persisted: none is pending, or nothing of the lane is unresolved. */
  predicate MayPend(pending: Option<PendingTransition>, r: LaneRecord) {
    pending == None || (r.unknownWrite == None && r.actionInFlight == None)
  }

  /** The record may become what the call asks for. */
  predicate MayBecome(call: LaneCall, r: LaneRecord) {
    var e := r.evidence;
    match call
    case PersistPending(_, _) => MayPend(e.pending, r)
    case ClearPending(_, key) => e.pending.Some? && e.pending.value.transitionKey == key
    case BindGeneration(_, _, _, _, generation, _, _) => e.generation == 0 || generation == e.generation + 1
    case PersistPendingInitial(_, _) => MayPend(e.pendingInitial, r)
    case BindInitial(_, _, _, _) => e.generation == 0 && e.fingerprint == None
    case OtherEdit(_, proposal) => PreservesProtectedFields(r, proposal)
    case _ => true
  }

  predicate Readable(call: LaneCall, read: Read<LaneRecord>) {
    read.Found? || (read.Missing? && MakesLane(call))
  }

  /** When a call is answered with success. */
  predicate MayRun(call: LaneCall, read: Read<LaneRecord>) {
    && !Malformed(call) && Readable(call, read)
    && (IsAsAsked(call, FoundBy(call, read)) || MayBecome(call, FoundBy(call, read)))
  }

  // ---------------------------------------------------------------------------
  // What is left behind
  // ---------------------------------------------------------------------------

  /** The list with one more entry, of which the newest 512 are kept. */
  predicate KeepsNewest<T(==)>(now: seq<T>, was: seq<T>, item: T) {
    && now != [] && now[|now| - 1] == item && |now| == (if |was| < 512 then |was| + 1 else 512)
    && forall i :: 0 <= i < |now| - 1 ==> now[i] == was[|was| + 1 - |now| + i]
  }

  /** What the call made of the record; everything it does not name stays. */
  predicate Made(call: LaneCall, was: LaneRecord, now: LaneRecord) {
    var (e, f) := (was.evidence, now.evidence);
    match call
    case AuthorizeLane(_) => now == was.(mode := ActiveAutoSafe)
    case RestoreShadow(_) => now == was.(mode := Shadow)
    case PersistPending(_, t) => f == e.(pending := Some(t)) && now == was.(mode := Shadow, evidence := f)
    case ClearPending(_, _) => f == e.(pending := None) && now == was.(evidence := f)
    case BindGeneration(_, _, _, _, generation, fp, key) =>
      && f.generation == generation && f.fingerprint == Some(fp) && f.previousFingerprint == e.fingerprint
      && f.transitionKey == Some(key) && now == was.(mode := Shadow, unknownWrite := None, evidence := f)
      && f == e.(generation := f.generation, fingerprint := f.fingerprint, previousFingerprint := f.previousFingerprint,
                 transitionKey := f.transitionKey)
    case EnsureInitial(_, _, _, _) => now == was
    case PersistPendingInitial(_, t) => f == e.(pendingInitial := Some(t)) && now == was.(mode := Shadow, evidence := f)
    case BindInitial(_, fp, key, digest) =>
      && f.generation == 1 && f.fingerprint == Some(fp) && f.previousFingerprint == None
      && f.transitionKey == f.initialTransitionKey == Some(key) && f.taskSpecDigest == Some(digest) && f.pendingInitial == None
      && now == was.(mode := Shadow, unknownWrite := None, evidence := f)
      && f == Evidence(f.generation, f.fingerprint, f.previousFingerprint, f.transitionKey, f.initialTransitionKey,
                       f.taskSpecDigest, e.pending, f.pendingInitial, e.accounting, e.reason, e.known)
    case AccountGeneration(_, _, _, op, key) =>
      && f.accounting.count == e.accounting.count + 1 && KeepsNewest(f.accounting.operations, e.accounting.operations, op)
      && KeepsNewest(f.accounting.transitions, e.accounting.transitions, key)
      && f == e.(accounting := f.accounting) && now == was.(mode := Shadow, evidence := f)
    case ObserveLane(_, _, _, _, o) => ObservedAs(was, o, f) && now == was.(mode := Shadow, evidence := f)
    case RestoreObserved(_, remembered, unknown) =>
      && f == e.(pending := Some(remembered))
      && now == was.(mode := Shadow, unknownWrite := if unknown == None then was.unknownWrite else unknown, evidence := f)
    case OtherEdit(_, proposal) => now == proposal
  }

  /** What is said about a call that is not answered with success. */
  function RefusalOf(call: LaneCall, read: Read<LaneRecord>): StoreError {
    if Malformed(call) then Refused
    else if !Readable(call, read) then Unavailable
    else if call.OtherEdit? then Refused
    else VersionConflict
  }

  /** Only this lane was written, once. */
  ghost predicate WroteLane(doc: Doc, after: Doc, lane: LaneId) {
    && (forall l :: l != lane ==> (l in after.lanes <==> l in doc.lanes))
    && (forall l :: l != lane && l in doc.lanes ==> after.lanes[l] == doc.lanes[l])
    && after.operations == doc.operations && LaneVersion(after, lane) == LaneVersion(doc, lane) + 1
  }

  // ---------------------------------------------------------------------------
  // The theorems
  // ---------------------------------------------------------------------------

  lemma PlanAnswers(read: Read<LaneRecord>, call: LaneCall)
    ensures PlanCall(read, call).Raise? <==> !MayRun(call, read)
    ensures PlanCall(read, call).Answer? <==> MayRun(call, read) && read.Found? && IsAsAsked(call, read.record)
  {
  }

  lemma PlanRefuses(read: Read<LaneRecord>, call: LaneCall)
    requires PlanCall(read, call).Raise?
    ensures PlanCall(read, call).error == RefusalOf(call, read)
  {
    PlanAnswers(read, call);
  }

  lemma BinderMakes(read: Read<LaneRecord>, call: LaneCall)
    requires PlanCall(read, call).Write? && (call.BindGeneration? || call.BindInitial?)
    ensures Readable(call, read) && Made(call, FoundBy(call, read), PlanCall(read, call).record)
  {
  }

  lemma WindowKeepsNewest<T>(items: seq<T>, item: T)
    ensures KeepsNewest(Windowed(items, item), items, item)
  {
    var extended := items + [item];
    if |extended| > ACCOUNTING_WINDOW {
      var now := Windowed(items, item);
      assert forall i :: 0 <= i < |now| ==> now[i] == extended[|extended| - |now| + i];
    }
  }

  lemma AccountMakes(read: Read<LaneRecord>, call: LaneCall)
    requires PlanCall(read, call).Write? && call.AccountGeneration?
    ensures Readable(call, read) && Made(call, FoundBy(call, read), PlanCall(read, call).record)
  {
    var was := FoundBy(call, read).evidence.accounting;
    WindowKeepsNewest(was.operations, call.operationKey);
    WindowKeepsNewest(was.transitions, call.transitionKey);
    assert PlanCall(read, call).record.evidence.accounting == Counted(was, call.operationKey, call.transitionKey);
  }

  lemma PlanMakes(read: Read<LaneRecord>, call: LaneCall)
    requires PlanCall(read, call).Write?
    ensures Readable(call, read) && Made(call, FoundBy(call, read), PlanCall(read, call).record)
  {
    if call.BindGeneration? || call.BindInitial? {
      BinderMakes(read, call);
    } else if call.AccountGeneration? {
      AccountMakes(read, call);
    } else if call.ObserveLane? {
      ObservationRebindsExactly(FoundBy(call, read), call.observation);
    }
  }

  lemma WriteLands(doc: Doc, call: LaneCall)
    requires PlanCall(ReadLane(doc, call.laneId), call).Write?
    ensures
      var after := CallOutcome(doc, call, []).0;
      && WroteLane(doc, after, call.laneId) && ReadLane(after, call.laneId).Found?
      && ReadLane(after, call.laneId).record == PlanCall(ReadLane(doc, call.laneId), call).record
  {
    AloneEndsAsPlanned(doc, call);
    CallsWriteAtReadVersion(call);
  }

  /** An undisturbed call succeeds exactly when it is well formed, its lane is readable or made by it, and
      the record is as asked already or may become so. A record that was as asked is left alone; any other
      is made so in one write. A refused call changes nothing. */
  lemma CallEndsExactly(doc: Doc, call: LaneCall)
    ensures
      var (read, (after, result)) := (ReadLane(doc, call.laneId), CallOutcome(doc, call, []));
      && (if MayRun(call, read) then result.Ok? else result == Err(RefusalOf(call, read)))
      && (if !MayRun(call, read) || (read.Found? && IsAsAsked(call, read.record)) then after == doc
          else && WroteLane(doc, after, call.laneId) && ReadLane(after, call.laneId).Found?
               && Made(call, FoundBy(call, read), ReadLane(after, call.laneId).record))
  {
    var read := ReadLane(doc, call.laneId);
    PlanAnswers(read, call);
    if PlanCall(read, call).Raise? { PlanRefuses(read, call); }
    if PlanCall(read, call).Write? {
      PlanMakes(read, call);
      WriteLands(doc, call);
    }
    AloneEndsAsPlanned(doc, call);
  }

  /** Whoever asks again for what was granted is granted it, and nothing changes. */
  lemma AskedAgainChangesNothing(doc: Doc, call: LaneCall)
    requires CallOutcome(doc, call, []).1.Ok?
    requires !call.AuthorizeLane? && !call.ObserveLane? && !call.RestoreObserved? && !call.OtherEdit?
    ensures
      var after := CallOutcome(doc, call, []).0;
      CallOutcome(after, call, []).0 == after && CallOutcome(after, call, []).1.Ok?
  {
    var after := CallOutcome(doc, call, []).0;
    CallEndsExactly(doc, call);
    CallEndsExactly(after, call);
  }
}
