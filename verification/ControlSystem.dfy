/** Every run of the control plane: any number of runners, each cut at its store calls, taking
    steps in any order, with crashes at any point. */
module ControlSystem {
  import opened Wrappers
  import opened Records
  import opened StateStore
  import opened ClaimProtocol
  import opened LaneCalls

  type RunnerId = nat

  datatype WriterPc =
    | Reading(attempt: nat)
    | Swapping(attempt: nat, expected: nat, record: LaneRecord, onSuccess: Status)
    | Finished(status: Status)
    | Failed(error: StoreError)

  /** A runner executes one call of one of the three kinds. */
  datatype Runner =
    | Claimer(request: ClaimRequest, claim: ClaimPc, wrote: bool)
    | Resolver(laneId: LaneId, key: OperationKey, resolution: Resolution, resolve: ResolvePc)
    | Writer(call: LaneCall, writer: WriterPc)

  /** A runner before its first step. */
  predicate Initial(runner: Runner) {
    match runner
    case Claimer(_, pc, wrote) => pc == Start && !wrote
    case Resolver(_, _, _, pc) => pc == ResolveStart
    case Writer(_, pc) => pc == Reading(0)
  }

  datatype Slot = Slot(runner: Runner, alive: bool)

  /** For each subject, the runners that did something to it. */
  type Ledger<!K> = map<K, set<RunnerId>>

  function At<K>(ledger: Ledger<K>, k: K): set<RunnerId> {
    if k in ledger then ledger[k] else {}
  }

  function Add<K>(ledger: Ledger<K>, k: K, id: RunnerId): Ledger<K> {
    ledger[k := At(ledger, k) + {id}]
  }

  type GrantRef = (LaneId, nat)

  datatype LeaseGrant = LeaseGrant(holder: RunnerId, lease: Lease)

  /** What has happened so far; the protocol never reads it. */
  datatype History = History(
    inFlight: Ledger<OperationKey>,      // persisted an IN_FLIGHT record
    claimed: Ledger<OperationKey>,       // were told CLAIMED
    written: Ledger<OperationKey>,       // performed the provider write
    notObserved: Ledger<OperationKey>,   // persisted an observed=False readback
    drawn: Ledger<GrantRef>,             // drew an effect from a canary grant
    canaryClaims: Ledger<GrantRef>,      // were told CLAIMED on the strength of a grant
    leases: map<LaneId, seq<LeaseGrant>>, // leases granted on a lane, oldest first
    freed: set<LeaseId>)                 // leases cleared by their own holder or by a readback

  datatype System = System(doc: Doc, slots: map<RunnerId, Slot>, history: History)

  const INITIAL := System(EMPTY_DOC, map[], History(map[], map[], map[], map[], map[], map[], map[], {}))

  datatype Action =
    | Spawn(id: RunnerId, runner: Runner)
    | Step(id: RunnerId)
    | ProviderWrite(id: RunnerId)
    | Crash(id: RunnerId)

  predicate Enabled(s: System, action: Action) {
    match action
    case Spawn(id, runner) => id !in s.slots && Initial(runner)
    case Step(id) => id in s.slots && s.slots[id].alive && RunnerFits(s.slots[id].runner)
    case ProviderWrite(id) =>
      && id in s.slots && s.slots[id].alive
      && s.slots[id].runner.Claimer? && MayWrite(s.slots[id].runner)
    case Crash(id) => id in s.slots
  }

  predicate RunnerFits(runner: Runner) {
    runner.Claimer? ==> PcFits(runner.request, runner.claim)
  }

  /** Only a CLAIMED decision allows the provider write, and one runner writes once. */
  predicate MayWrite(runner: Runner)
    requires runner.Claimer?
  {
    runner.claim.Done? && runner.claim.decision.Claimed? && !runner.wrote
  }

  // ---------------------------------------------------------------------------
  // One step of one runner
  // ---------------------------------------------------------------------------

  datatype Move = Move(change: Change, runner: Runner)

  function StepWriter(doc: Doc, call: LaneCall, pc: WriterPc): (Change, WriterPc) {
    match pc
    case Reading(attempt) =>
      (match PlanCall(ReadLane(doc, call.laneId), call)
       case Answer(status) => (NoChange, Finished(status))
       case Raise(e) => (NoChange, Failed(e))
       case Write(expected, record, onSuccess) => (NoChange, Swapping(attempt, expected, record, onSuccess)))
    case Swapping(attempt, expected, record, onSuccess) =>
      (match LaneSwapError(doc, call.laneId, expected, record)
       case None => (LaneWrite(call.laneId, record), Finished(onSuccess))
       case Some(e) =>
         if e == VersionConflict && attempt + 1 < MaxAttempts(call) then (NoChange, Reading(attempt + 1))
         else (NoChange, Failed(e)))
    case _ => (NoChange, pc)
  }

  function MoveOf(doc: Doc, runner: Runner): Move
    requires RunnerFits(runner)
  {
    match runner
    case Claimer(req, pc, wrote) =>
      var step := StepClaim(doc, req, pc);
      Move(step.change, Claimer(req, step.pc, wrote))
    case Resolver(lane, key, resolution, pc) =>
      var step := StepResolve(doc, lane, key, resolution, pc);
      Move(step.change, Resolver(lane, key, resolution, step.pc))
    case Writer(call, pc) =>
      var (change, next) := StepWriter(doc, call, pc);
      Move(change, Writer(call, next))
  }

  // ---------------------------------------------------------------------------
  // What a move adds to the history
  // ---------------------------------------------------------------------------

  function InFlightAfter(h: Ledger<OperationKey>, id: RunnerId, before: Runner, move: Move): Ledger<OperationKey> {
    if before.Claimer? && move.change.OperationWrite? then Add(h, move.change.key, id) else h
  }

  function ClaimedAfter(h: Ledger<OperationKey>, id: RunnerId, before: Runner, move: Move): Ledger<OperationKey> {
    if before.Claimer? && IsClaimed(move.runner) && !IsClaimed(before) then Add(h, before.request.operationKey, id) else h
  }

  predicate IsClaimed(runner: Runner) {
    runner.Claimer? && runner.claim.Done? && runner.claim.decision.Claimed?
  }

  function NotObservedAfter(h: Ledger<OperationKey>, id: RunnerId, before: Runner, move: Move): Ledger<OperationKey> {
    if before.Resolver? && move.change.OperationWrite? && before.resolution.ReadBack?
       && before.resolution.observed == Some(false)
    then Add(h, before.key, id) else h
  }

  function DrawnAfter(h: Ledger<GrantRef>, id: RunnerId, before: Runner, move: Move): Ledger<GrantRef> {
    if before.Claimer? && before.claim.Consuming? && move.change.LaneWrite?
    then Add(h, (before.request.laneId, before.claim.index), id) else h
  }

  function CanaryClaimsAfter(h: Ledger<GrantRef>, id: RunnerId, before: Runner, move: Move): Ledger<GrantRef> {
    if before.Claimer? && IsClaimed(move.runner) && !IsClaimed(before) && move.runner.claim.decision.drawn.Some?
    then Add(h, (before.request.laneId, move.runner.claim.decision.drawn.value), id) else h
  }

  function LeasesOf(leases: map<LaneId, seq<LeaseGrant>>, lane: LaneId): seq<LeaseGrant> {
    if lane in leases then leases[lane] else []
  }

  function LeasesAfter(h: map<LaneId, seq<LeaseGrant>>, id: RunnerId, before: Runner, move: Move): map<LaneId, seq<LeaseGrant>> {
    if before.Claimer? && before.claim.Authorized? && move.change.LaneWrite? && move.change.record.lease.Some?
    then h[move.change.lane := LeasesOf(h, move.change.lane) + [LeaseGrant(id, move.change.record.lease.value)]]
    else h
  }

  function LaneLease(doc: Doc, lane: LaneId): Option<Lease> {
    if lane in doc.lanes && doc.lanes[lane].record.Some? then doc.lanes[lane].record.value.lease else None
  }

  function FreedAfter(h: set<LeaseId>, doc: Doc, move: Move): set<LeaseId> {
    if move.change.LaneWrite? && LaneLease(doc, move.change.lane).Some? && move.change.record.lease.None?
    then h + {LaneLease(doc, move.change.lane).value.id} else h
  }

  function HistoryAfter(h: History, doc: Doc, id: RunnerId, before: Runner, move: Move): History {
    History(
      InFlightAfter(h.inFlight, id, before, move),
      ClaimedAfter(h.claimed, id, before, move),
      h.written,
      NotObservedAfter(h.notObserved, id, before, move),
      DrawnAfter(h.drawn, id, before, move),
      CanaryClaimsAfter(h.canaryClaims, id, before, move),
      LeasesAfter(h.leases, id, before, move),
      FreedAfter(h.freed, doc, move))
  }

  /** The system once a runner has made a move. */
  function Moved(s: System, id: RunnerId, move: Move): System
    requires id in s.slots
  {
    System(Apply(s.doc, move.change),
           s.slots[id := Slot(move.runner, true)],
           HistoryAfter(s.history, s.doc, id, s.slots[id].runner, move))
  }

  function Perform(s: System, action: Action): System
    requires Enabled(s, action)
  {
    match action
    case Spawn(id, runner) => s.(slots := s.slots[id := Slot(runner, true)])
    case Step(id) =>
      Moved(s, id, MoveOf(s.doc, s.slots[id].runner))
    case ProviderWrite(id) =>
      var runner := s.slots[id].runner;
      s.(slots := s.slots[id := Slot(runner.(wrote := true), true)],
         history := s.history.(written := Add(s.history.written, runner.request.operationKey, id)))
    case Crash(id) => s.(slots := s.slots[id := s.slots[id].(alive := false)])
  }

  // ---------------------------------------------------------------------------
  // Runs
  // ---------------------------------------------------------------------------

  /** The actions can be taken one after the other from the initial system. */
  ghost predicate Legal(run: seq<Action>)
    decreases |run|, 0
  {
    run == [] || (Legal(run[..|run| - 1]) && Enabled(After(run[..|run| - 1]), run[|run| - 1]))
  }

  /** The system a legal run leads to. */
  ghost function After(run: seq<Action>): System
    requires Legal(run)
    decreases |run|, 1
  {
    if run == [] then INITIAL
    else Perform(After(run[..|run| - 1]), run[|run| - 1])
  }
}
