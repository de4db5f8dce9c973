/** What moves the marks of a lane over runs: its mode, its UNKNOWN mark, its pending transitions and its
    lease fields. */
module LaneMarks {
  import opened Wrappers
  import opened Records
  import opened StateStore
  import opened ClaimProtocol
  import opened LaneCalls
  import opened ControlSystem
  import opened ControlInvariants

  /** What the lane says, a missing one included. */
  datatype Marks = Marks(mode: ActivationMode, unknown: Option<OperationKey>, inFlight: Option<OperationKey>,
                         pending: Option<PendingTransition>, pendingInitial: Option<PendingTransition>)

  function MarksOf(doc: Doc, lane: LaneId): Marks {
    match ReadLane(doc, lane)
    case Found(_, r) => RecordMarks(r)
    case _ => Marks(Shadow, None, None, None, None)
  }

  function RecordMarks(r: LaneRecord): Marks {
    Marks(r.mode, r.unknownWrite, r.actionInFlight, r.evidence.pending, r.evidence.pendingInitial)
  }

  /** A lane leaves SHADOW only by being authorized or by another writer's edit; a restoration, a
      persisted mark, a binding and an observation leave it in SHADOW. */
  predicate ModeMoves(runner: Runner, was: Marks, now: Marks) {
    && (now.mode != was.mode && now.mode != Shadow ==>
          runner.Writer? && (runner.call.AuthorizeLane? || runner.call.OtherEdit?))
    && (runner.Writer? && runner.call.AuthorizeLane? ==> now.mode == ActiveAutoSafe)
    && (runner.Writer? && ClosesLane(runner.call) ==> now.mode == Shadow)
  }

  predicate ClosesLane(call: LaneCall) {
    || call.RestoreShadow? || call.PersistPending? || call.PersistPendingInitial?
    || call.BindGeneration? || call.BindInitial? || call.ObserveLane? || call.RestoreObserved?
  }

  /** The UNKNOWN mark is set for an operation by recording it UNKNOWN, by an indefinite readback of it, or
      put back after an observation; it is cleared by a definite readback or by a binding. */
  predicate UnknownMoves(runner: Runner, was: Marks, now: Marks) {
    now.unknown != was.unknown ==>
      match runner
      case Resolver(_, key, resolution, _) =>
        now.unknown == if resolution.RecordUnknown? || resolution.observed == None then Some(key) else None
      case Writer(call, _) =>
        || call.OtherEdit?
        || ((call.BindGeneration? || call.BindInitial?) && now.unknown == None)
        || (call.RestoreObserved? && now.unknown == call.unknown)
      case Claimer(_, _, _) => false
  }

  /** Persisting replaces a pending transition by another one only while nothing of the lane is unresolved. */
  predicate PendingIsReplaced(runner: Runner, was: Marks, now: Marks) {
    && (runner.Writer? && runner.call.PersistPending? && was.pending.Some? && now.pending != was.pending ==>
          was.unknown == None && was.inFlight == None
          && runner.call.transition.transitionKey != was.pending.value.transitionKey)
    && (runner.Writer? && runner.call.PersistPendingInitial? && was.pendingInitial.Some? && now.pendingInitial != was.pendingInitial ==>
          was.unknown == None && was.inFlight == None
          && runner.call.transition.transitionKey != was.pendingInitial.value.transitionKey)
  }

  predicate MarksMove(runner: Runner, was: Marks, now: Marks) {
    ModeMoves(runner, was, now) && UnknownMoves(runner, was, now) && PendingIsReplaced(runner, was, now)
  }

  lemma WriterMarks(doc: Doc, call: LaneCall)
    requires PlanCall(ReadLane(doc, call.laneId), call).Write? && !ReadLane(doc, call.laneId).Corrupt?
    ensures MarksMove(Writer(call, Reading(0)), MarksOf(doc, call.laneId), RecordMarks(PlanCall(ReadLane(doc, call.laneId), call).record))
  {
  }

  lemma ResolverMarks(r: LaneRecord, key: OperationKey, op: OperationRecord, resolution: Resolution, lane: LaneId, pc: ResolvePc)
    ensures MarksMove(Resolver(lane, key, resolution, pc), RecordMarks(r), RecordMarks(ResolveLane(r, key, op, resolution)))
  {
  }

  lemma MarksOfMove(doc: Doc, runner: Runner)
    requires WellStored(doc) && Fresh(doc, runner) && RunnerFits(runner)
    requires MoveOf(doc, runner).change.LaneWrite?
    ensures
      var change := MoveOf(doc, runner).change;
      MarksMove(runner, MarksOf(doc, change.lane), RecordMarks(change.record))
  {
    match runner
    case Writer(call, pc) => WriterMarks(doc, call);
    case Resolver(lane, key, resolution, pc) =>
      ResolverMarks(ReadLane(doc, lane).record, key, pc.operation, resolution, lane, pc);
    case Claimer(_, _, _) => ClaimMarks(doc, runner);
  }

  lemma ClaimMarks(doc: Doc, runner: Runner)
    requires WellStored(doc) && Fresh(doc, runner) && RunnerFits(runner) && runner.Claimer?
    requires MoveOf(doc, runner).change.LaneWrite?
    ensures
      var change := MoveOf(doc, runner).change;
      MarksMove(runner, MarksOf(doc, change.lane), RecordMarks(change.record))
  {
  }

  /** The lane an action writes, if it writes one. */
  function WritesLane(s: System, action: Action): Option<LaneId>
    requires Enabled(s, action)
  {
    if action.Step? then
      match MoveOf(s.doc, s.slots[action.id].runner).change
      case LaneWrite(lane, _) => Some(lane)
      case _ => None
    else None
  }

  lemma ChangeMovesMarks(doc: Doc, change: Change, lane: LaneId)
    requires ProperChange(change)
    ensures MarksOf(Apply(doc, change), lane) ==
      if change.LaneWrite? && change.lane == lane then RecordMarks(change.record) else MarksOf(doc, lane)
  {
  }

  /** In every run the marks of a lane move in these ways only. */
  lemma MarksMoveOnlySo(run: seq<Action>, action: Action, lane: LaneId)
    requires Legal(run) && Enabled(After(run), action)
    ensures
      var s, t := After(run), Perform(After(run), action);
      if WritesLane(s, action) == Some(lane) then MarksMove(s.slots[action.id].runner, MarksOf(s.doc, lane), MarksOf(t.doc, lane))
      else MarksOf(t.doc, lane) == MarksOf(s.doc, lane)
  {
    AlwaysSound(run);
    if action.Step? {
      StepMovesMarks(After(run), action.id, lane);
    }
  }

  lemma StepMovesMarks(s: System, id: RunnerId, lane: LaneId)
    requires Sound(s) && Enabled(s, Step(id))
    ensures
      var t := Perform(s, Step(id));
      if WritesLane(s, Step(id)) == Some(lane) then MarksMove(s.slots[id].runner, MarksOf(s.doc, lane), MarksOf(t.doc, lane))
      else MarksOf(t.doc, lane) == MarksOf(s.doc, lane)
  {
    var runner := s.slots[id].runner;
    var change := MoveOf(s.doc, runner).change;
    MoveIsFresh(s.doc, runner);
    ChangeMovesMarks(s.doc, change, lane);
    if change.LaneWrite? { MarksOfMove(s.doc, runner); }
  }
}
