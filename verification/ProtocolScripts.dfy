/** The functions of the generation protocol as programs of runners: what each of them spawns, in which
    order, and that in every interleaving of them a session is created at most once per generation. */
module ProtocolScripts {
  import opened Wrappers
  import opened Text
  import opened Records
  import opened StateStore
  import opened ClaimProtocol
  import opened LaneCalls
  import opened ControlSystem
  import opened AtMostOnce
  import opened EffectKeys
  import opened Identity
  import opened GenerationProtocol
  import opened InitialRecovery

  // ---------------------------------------------------------------------------
  // Programs
  // ---------------------------------------------------------------------------

  /** What is left of a function: run a lane update or a resolution to its end and go on by how it
      ended; claim; write to the provider on the strength of the claim; look at the store first. */
  datatype Program =
    | End
    | Run(runner: Runner, done: Program, failed: Program)
    | Claim(request: ClaimRequest, claimed: Program, replayed: Program, denied: Program)
    | WriteProvider(rest: Program)
    | Look(question: Question)

  /** What a program decides from one look at the store. */
  datatype Question =
    | UnknownGeneration(l: Lineage, inventory: seq<Session>)
    | UnknownInitial(l: Lineage, inventory: seq<Session>)
    | StaleInitial(l: Lineage, caller: StaleCaller, inventory: seq<Session>)
    | BeforeObserving(call: LaneCall)

  /** What the provider answers to a create or a message. */
  datatype ProviderAnswer = Delivered(name: string) | NotClear

  function Update(call: LaneCall): Runner {
    Writer(call, Reading(0))
  }

  function Resolving(lane: LaneId, key: OperationKey, resolution: Resolution): Runner {
    Resolver(lane, key, resolution, ResolveStart)
  }

  /** Whether it can be recorded or not, only the cleanup follows. */
  function RecordingUnknown(lane: LaneId, key: OperationKey, cleanup: Program): Program {
    Run(Resolving(lane, key, RecordUnknown(map[])), cleanup, cleanup)
  }

  /** The lane is closed whatever happened; an error there ends the function. */
  function Closing(lane: LaneId, rest: Program): Program {
    Run(Update(RestoreShadow(lane)), rest, End)
  }

  function Confirming(lane: LaneId, key: OperationKey, done: Program, failed: Program): Program {
    Run(Resolving(lane, key, ReadBack(Some(true), map[])), done, failed)
  }

  function HandingOff(l: Lineage, t: PendingTransition, fp: Fingerprint, key: OperationKey): Program {
    var failed := RecordingUnknown(l.laneId, key, End);
    Run(Update(BindCall(l, t, fp)), Run(Update(AccountCall(l, t, key)), Run(Update(ClearCall(l, t)), End, failed), failed), failed)
  }

  function HandingOffInitial(l: Lineage, t: PendingTransition, fp: Fingerprint, key: OperationKey, rest: Program): Program {
    var failed := RecordingUnknown(l.laneId, key, rest);
    Run(Update(BindInitialCall(l, t, fp)), Run(Update(AccountCall(l, t, key)), rest, failed), failed)
  }

  /** `execute_binding_safe_generation` around `create_next_lineage_generation`. A replay of a confirmed
      creation carries no fingerprint, so it is recorded as UNKNOWN. */
  function CreatingNext(l: Lineage, t: PendingTransition, request: ClaimRequest, answer: ProviderAnswer): Program {
    var lane, key := l.laneId, request.operationKey;
    var written := match answer
      case NotClear => RecordingUnknown(lane, key, Closing(lane, End))
      case Delivered(name) =>
        Confirming(lane, key, Closing(lane, HandingOff(l, t, SessionFingerprint(name), key)), Closing(lane, End));
    Run(Update(PersistPending(lane, t)),
        Run(Update(AuthorizeLane(lane)),
            Claim(request, WriteProvider(written), Closing(lane, RecordingUnknown(lane, key, End)), Closing(lane, End)),
            End),
        End)
  }

  /** `execute_initial_lineage_generation`. */
  function CreatingInitial(l: Lineage, t: PendingTransition, request: ClaimRequest, answer: ProviderAnswer): Program {
    var lane, key := l.laneId, request.operationKey;
    var written := match answer
      case NotClear => RecordingUnknown(lane, key, Closing(lane, End))
      case Delivered(name) =>
        Confirming(lane, key, HandingOffInitial(l, t, SessionFingerprint(Strip(name)), key, Closing(lane, End)), Closing(lane, End));
    Run(Update(EnsureInitial(lane, l.project, l.route, l.workstreamId)),
        Run(Update(PersistPendingInitial(lane, t)),
            Run(Update(AuthorizeLane(lane)),
                Claim(request, WriteProvider(written), Closing(lane, End), Closing(lane, End)),
                End),
            End),
        End)
  }

  /** `send_same_lineage_message`. */
  function Sending(lane: LaneId, request: ClaimRequest, answer: ProviderAnswer): Program {
    var key := request.operationKey;
    var written := match answer
      case NotClear => RecordingUnknown(lane, key, Closing(lane, End))
      case Delivered(_) => Confirming(lane, key, Closing(lane, End), Closing(lane, End));
    Run(Update(AuthorizeLane(lane)), Claim(request, WriteProvider(written), Closing(lane, End), Closing(lane, End)), End)
  }

  /** Adopting the one matching session of a listing. */
  function Adopting(l: Lineage, t: PendingTransition, key: OperationKey, inventory: seq<Session>, initial: bool): Program {
    var matches := MatchesOf(inventory, t);
    if |matches| != 1 then End
    else if initial then
      Confirming(l.laneId, key, HandingOffInitial(l, t, SessionFingerprint(Strip(matches[0].name)), key, End), End)
    else Confirming(l.laneId, key, HandingOff(l, t, SessionFingerprint(matches[0].name), key), End)
  }

  function Answered(doc: Doc, question: Question): Program {
    match question
    case UnknownGeneration(l, inventory) =>
      (match PendingState(doc, l.laneId)
       case Some((key, t)) => Adopting(l, t, key, inventory, false)
       case None => End)
    case UnknownInitial(l, inventory) =>
      (match PendingInitialState(doc, l.laneId)
       case Some((key, t)) => Adopting(l, t, key, inventory, true)
       case None => End)
    case StaleInitial(l, caller, inventory) =>
      (match StaleOperation(doc, l)
       case Some(op) =>
         if RecordedTransition(op, caller).None? || StillLeased(doc, l.laneId, op.key, caller.now) || !caller.authorized then End
         else Adopting(l, RecordedTransition(op, caller).value, op.key, inventory, true)
       case None => End)
    case BeforeObserving(call) =>
      (match ReadLane(doc, call.laneId)
       case Found(_, r) =>
         if r.evidence.pending.Some? then
           Run(Update(call), Run(Update(RestoreObserved(r.laneId, r.evidence.pending.value, r.unknownWrite)), End, End), End)
         else Run(Update(call), End, End)
       case _ => Run(Update(call), End, End))
  }

  /** The lanes of a lineage. */
  function LanesOf(name: LineageName): Lineage {
    var budget := CanonicalLaneId(Some(name.project), Some(name.route), Some(BUDGET_WORKSTREAM));
    Lineage(LaneOf(name), if budget.Ok? then budget.value else "", name.project, name.route, WorkstreamIdOf(name))
  }

  /** What a create is asked with besides the generation it creates. */
  datatype Details = Details(requestDigest: string, authorityEventId: string, now: int)

  function Authorization(key: OperationKey, d: Details): MutationAuthorization {
    MutationAuthorization(key.effect, d.authorityEventId, true, true, true, Some(d.now + 600))
  }

  /** The claim of a next generation. */
  function NextRequest(g: NextGeneration, d: Details): ClaimRequest {
    ClaimRequest(LaneOf(g.lineage), "ues-lineage-lifecycle", NextKey(g), NEXT_ACTION, d.requestDigest, 180,
                 map["generation" := Decimal(g.generation), "predecessor_session_fingerprint" := g.predecessor,
                     "source_fingerprint" := g.source, "starting_branch" := g.branch],
                 Some(NextKey(g).effect), Some(Authorization(NextKey(g), d)),
                 map["generation" := Decimal(if g.generation > 0 then g.generation - 1 else 0)], None, d.now)
  }

  /** The claim of a first generation. */
  function FirstRequest(g: FirstGeneration, taskSpecDigest: string, d: Details): ClaimRequest {
    ClaimRequest(LaneOf(g.lineage), "ues-initial-lineage-lifecycle", FirstKey(g), INITIAL_ACTION, d.requestDigest, 180,
                 map["creation_kind" := "INITIAL_LOGICAL_LINEAGE", "generation" := "1", "source_fingerprint" := g.source,
                     "starting_branch" := g.branch, "task_spec_digest" := taskSpecDigest,
                     "transition_key" := g.transitionKey],
                 Some(FirstKey(g).effect), Some(Authorization(FirstKey(g), d)),
                 map["generation" := "0", "session_fingerprint" := "NONE"], None, d.now)
  }

  /** What the claim of a first generation leaves in the receipt is what a stale reconciliation reads. */
  lemma FirstRequestIsRecorded(g: FirstGeneration, taskSpecDigest: string, d: Details)
    ensures CreationReceiptOf(FirstRequest(g, taskSpecDigest, d).facts) ==
      CreationReceipt(g.transitionKey, g.branch, taskSpecDigest, g.source, "INITIAL_LOGICAL_LINEAGE", "1")
  {
    assert |"creation_kind"| == 13 && |"generation"| == 10 && |"source_fingerprint"| == 18
           && |"starting_branch"| == 15 && |"task_spec_digest"| == 16 && |"transition_key"| == 14;
  }

  /** The functions of the protocol. */
  datatype Script =
    | CreateNext(next: NextGeneration, t: PendingTransition, details: Details, answer: ProviderAnswer)
    | CreateInitial(first: FirstGeneration, t: PendingTransition, details: Details, answer: ProviderAnswer)
    | SendMessage(lane: LaneId, request: ClaimRequest, answer: ProviderAnswer)
    | ReconcileFromStore(question: Question)

  function ProgramOf(script: Script): Program {
    match script
    case CreateNext(g, t, d, answer) => CreatingNext(LanesOf(g.lineage), t, NextRequest(g, d), answer)
    case CreateInitial(g, t, d, answer) =>
      CreatingInitial(LanesOf(g.lineage), t, FirstRequest(g, t.taskSpecDigest, d), answer)
    case SendMessage(lane, request, answer) => Sending(lane, request, answer)
    case ReconcileFromStore(question) => Look(question)
  }

  // ---------------------------------------------------------------------------
  // Running programs
  // ---------------------------------------------------------------------------

  type ScriptId = nat

  /** A script that runs: what is left of it, and the runner at work for it. */
  datatype Live = Live(script: Script, program: Program, child: Option<RunnerId>, alive: bool)

  /** What a script claims, if it claims at all. */
  function RequestOf(script: Script): Option<ClaimRequest> {
    match script
    case CreateNext(g, _, d, _) => Some(NextRequest(g, d))
    case CreateInitial(g, t, d, _) => Some(FirstRequest(g, t.taskSpecDigest, d))
    case SendMessage(_, request, _) => Some(request)
    case ReconcileFromStore(_) => None
  }

  datatype ScriptedSystem = ScriptedSystem(base: System, scripts: map<ScriptId, Live>)

  datatype ScriptAction =
    | Launch(sid: ScriptId, script: Script)
    | Begin(sid: ScriptId, rid: RunnerId)
    | Move(sid: ScriptId)
    | Advance(sid: ScriptId)
    | CallProvider(sid: ScriptId)
    | Answer(sid: ScriptId)
    | Kill(sid: ScriptId)
    | Outside(action: Action)

  predicate Spawns(program: Program) {
    program.Run? || program.Claim?
  }

  function ChildOf(program: Program): Runner
    requires Spawns(program)
  {
    if program.Run? then program.runner else Claimer(program.request, Start, false)
  }

  /** The runner has come to its end, well or badly. */
  predicate Over(runner: Runner) {
    match runner
    case Claimer(_, pc, _) => pc.Done?
    case Resolver(_, _, _, pc) => pc.Resolved? || pc.ResolveFailed?
    case Writer(_, pc) => pc.Finished? || pc.Failed?
  }

  /** How the program goes on when its runner is over. */
  function Continue(program: Program, runner: Runner): Program
    requires Spawns(program) && Over(runner)
  {
    match program
    case Run(_, done, failed) =>
      if (runner.Resolver? && runner.resolve.Resolved?) || (runner.Writer? && runner.writer.Finished?) then done else failed
    case Claim(_, claimed, replayed, denied) =>
      if !runner.Claimer? then denied
      else (match runner.claim.decision
            case Claimed(_, _, _) => claimed
            case Denied(NotIdempotent(IdempotentReplayConfirmed)) => replayed
            case _ => denied)
    case _ => End
  }

  /** The base action a script action takes, if any. */
  function BaseOf(s: ScriptedSystem, a: ScriptAction): Option<Action> {
    match a
    case Begin(sid, rid) =>
      if sid in s.scripts && Spawns(s.scripts[sid].program) then Some(Spawn(rid, ChildOf(s.scripts[sid].program))) else None
    case Move(sid) =>
      if sid in s.scripts && s.scripts[sid].child.Some? then Some(Step(s.scripts[sid].child.value)) else None
    case CallProvider(sid) =>
      if sid in s.scripts && s.scripts[sid].child.Some? then Some(ProviderWrite(s.scripts[sid].child.value)) else None
    case Kill(sid) =>
      if sid in s.scripts && s.scripts[sid].child.Some? then Some(Crash(s.scripts[sid].child.value)) else None
    case Outside(action) => Some(action)
    case _ => None
  }

  /** Whatever else runs on the store, it does not record that a session creation was not observed. */
  predicate HarmlessToCreations(action: Action) {
    action.Spawn? && action.runner.Resolver? && CreatesSession(action.runner.key) ==>
      !RecordsNotObserved(action.runner, action.runner.key)
  }

  ghost predicate ScriptEnabled(s: ScriptedSystem, a: ScriptAction) {
    && (BaseOf(s, a).Some? ==> Enabled(s.base, BaseOf(s, a).value))
    && match a
       case Launch(sid, _) => sid !in s.scripts
       case Begin(sid, _) => Running(s, sid) && Spawns(s.scripts[sid].program) && s.scripts[sid].child.None?
       case Move(sid) => Running(s, sid) && s.scripts[sid].child.Some?
       case Advance(sid) =>
         && Running(s, sid) && Spawns(s.scripts[sid].program) && s.scripts[sid].child.Some?
         && s.scripts[sid].child.value in s.base.slots && Over(s.base.slots[s.scripts[sid].child.value].runner)
       case CallProvider(sid) => Running(s, sid) && s.scripts[sid].program.WriteProvider? && s.scripts[sid].child.Some?
       case Answer(sid) => Running(s, sid) && s.scripts[sid].program.Look?
       case Kill(sid) => sid in s.scripts
       case Outside(action) => HarmlessToCreations(action)
  }

  predicate Running(s: ScriptedSystem, sid: ScriptId) {
    sid in s.scripts && s.scripts[sid].alive
  }

  function LiveAfter(s: ScriptedSystem, a: ScriptAction): map<ScriptId, Live>
    requires ScriptEnabled(s, a)
  {
    match a
    case Launch(sid, script) => s.scripts[sid := Live(script, ProgramOf(script), None, true)]
    case Begin(sid, rid) => s.scripts[sid := s.scripts[sid].(child := Some(rid))]
    case Advance(sid) =>
      var live := s.scripts[sid];
      var rest := Continue(live.program, s.base.slots[live.child.value].runner);
      s.scripts[sid := live.(program := rest, child := if rest.WriteProvider? then live.child else None)]
    case CallProvider(sid) => s.scripts[sid := s.scripts[sid].(program := s.scripts[sid].program.rest, child := None)]
    case Answer(sid) => s.scripts[sid := s.scripts[sid].(program := Answered(s.base.doc, s.scripts[sid].program.question), child := None)]
    case Kill(sid) => s.scripts[sid := s.scripts[sid].(alive := false)]
    case _ => s.scripts
  }

  function PerformScript(s: ScriptedSystem, a: ScriptAction): ScriptedSystem
    requires ScriptEnabled(s, a)
  {
    ScriptedSystem(if BaseOf(s, a).Some? then Perform(s.base, BaseOf(s, a).value) else s.base, LiveAfter(s, a))
  }

  ghost predicate LegalScripts(run: seq<ScriptAction>)
    decreases |run|, 0
  {
    run == [] || (LegalScripts(run[..|run| - 1]) && ScriptEnabled(AfterScripts(run[..|run| - 1]), run[|run| - 1]))
  }

  ghost function AfterScripts(run: seq<ScriptAction>): ScriptedSystem
    requires LegalScripts(run)
    decreases |run|, 1
  {
    if run == [] then ScriptedSystem(INITIAL, map[]) else PerformScript(AfterScripts(run[..|run| - 1]), run[|run| - 1])
  }

  /** The base actions of a scripted run. */
  ghost function BaseRun(run: seq<ScriptAction>): seq<Action>
    requires LegalScripts(run)
  {
    if run == [] then []
    else
      var before, base := BaseRun(run[..|run| - 1]), BaseOf(AfterScripts(run[..|run| - 1]), run[|run| - 1]);
      if base.Some? then before + [base.value] else before
  }

  /** A scripted run is a run of the control system. */
  lemma {:induction false} ScriptedRunIsLegal(run: seq<ScriptAction>)
    requires LegalScripts(run)
    ensures Legal(BaseRun(run)) && After(BaseRun(run)) == AfterScripts(run).base
  {
    if run != [] {
      var init, last := run[..|run| - 1], run[|run| - 1];
      ScriptedRunIsLegal(init);
      var base := BaseOf(AfterScripts(init), last);
      if base.Some? {
        var longer := BaseRun(init) + [base.value];
        assert longer[..|longer| - 1] == BaseRun(init);
      }
    }
  }

  // ---------------------------------------------------------------------------
  // No script records that a creation was not observed
  // ---------------------------------------------------------------------------

  /** The runner reads nothing back but what was observed. */
  predicate Observing(runner: Runner) {
    runner.Resolver? && runner.resolution.ReadBack? ==> runner.resolution.observed == Some(true)
  }

  /** A program of a script: it claims nothing but the script's request, reads back nothing but what was
      observed, and writes to the provider only right after its claim was granted. */
  predicate Honest(program: Program, request: Option<ClaimRequest>) {
    match program
    case End => true
    case Run(runner, done, failed) =>
      && Observing(runner) && !done.WriteProvider? && !failed.WriteProvider?
      && Honest(done, request) && Honest(failed, request)
    case Claim(r, claimed, replayed, denied) =>
      && request == Some(r) && !replayed.WriteProvider? && !denied.WriteProvider?
      && Honest(claimed, request) && Honest(replayed, request) && Honest(denied, request)
    case WriteProvider(rest) => !rest.WriteProvider? && Honest(rest, request)
    case Look(_) => true
  }

  lemma PiecesAreHonest(lane: LaneId, key: OperationKey, rest: Program, other: Program, q: Option<ClaimRequest>)
    requires Honest(rest, q) && Honest(other, q) && !rest.WriteProvider? && !other.WriteProvider?
    ensures Honest(RecordingUnknown(lane, key, rest), q) && Honest(Closing(lane, rest), q)
    ensures Honest(Confirming(lane, key, rest, other), q)
  {
  }

  lemma HandOffsAreHonest(l: Lineage, t: PendingTransition, fp: Fingerprint, key: OperationKey, rest: Program, q: Option<ClaimRequest>)
    requires Honest(rest, q) && !rest.WriteProvider?
    ensures Honest(HandingOff(l, t, fp, key), q) && Honest(HandingOffInitial(l, t, fp, key, rest), q)
  {
    PiecesAreHonest(l.laneId, key, End, End, q);
    PiecesAreHonest(l.laneId, key, rest, rest, q);
    var failed, failedInitial := RecordingUnknown(l.laneId, key, End), RecordingUnknown(l.laneId, key, rest);
    assert Honest(Run(Update(ClearCall(l, t)), End, failed), q);
    assert Honest(Run(Update(AccountCall(l, t, key)), Run(Update(ClearCall(l, t)), End, failed), failed), q);
    assert Honest(Run(Update(AccountCall(l, t, key)), rest, failedInitial), q);
  }

  lemma NextIsHonest(l: Lineage, t: PendingTransition, request: ClaimRequest, answer: ProviderAnswer)
    ensures Honest(CreatingNext(l, t, request, answer), Some(request))
  {
    var lane, key := l.laneId, request.operationKey;
    PiecesAreHonest(lane, key, End, End, Some(request));
    PiecesAreHonest(lane, key, Closing(lane, End), Closing(lane, End), Some(request));
    PiecesAreHonest(lane, key, RecordingUnknown(lane, key, End), End, Some(request));
    if answer.Delivered? {
      var handing := HandingOff(l, t, SessionFingerprint(answer.name), key);
      HandOffsAreHonest(l, t, SessionFingerprint(answer.name), key, End, Some(request));
      PiecesAreHonest(lane, key, handing, End, Some(request));
      PiecesAreHonest(lane, key, Closing(lane, handing), Closing(lane, End), Some(request));
    }
    var claim := CreatingNext(l, t, request, answer).done.done;
    assert Honest(claim.claimed, Some(request));
    assert Honest(claim, Some(request));
    assert Honest(Run(Update(AuthorizeLane(lane)), claim, End), Some(request));
  }

  lemma InitialIsHonest(l: Lineage, t: PendingTransition, request: ClaimRequest, answer: ProviderAnswer)
    ensures Honest(CreatingInitial(l, t, request, answer), Some(request))
  {
    var lane, key := l.laneId, request.operationKey;
    PiecesAreHonest(lane, key, End, End, Some(request));
    PiecesAreHonest(lane, key, Closing(lane, End), Closing(lane, End), Some(request));
    if answer.Delivered? {
      var fp := SessionFingerprint(Strip(answer.name));
      HandOffsAreHonest(l, t, fp, key, Closing(lane, End), Some(request));
      PiecesAreHonest(lane, key, HandingOffInitial(l, t, fp, key, Closing(lane, End)), Closing(lane, End), Some(request));
    }
    var claim := CreatingInitial(l, t, request, answer).done.done.done;
    assert Honest(claim.claimed, Some(request));
    assert Honest(claim, Some(request));
    assert Honest(Run(Update(AuthorizeLane(lane)), claim, End), Some(request));
    assert Honest(CreatingInitial(l, t, request, answer).done, Some(request));
  }

  lemma SendingIsHonest(lane: LaneId, request: ClaimRequest, answer: ProviderAnswer)
    ensures Honest(Sending(lane, request, answer), Some(request))
  {
    PiecesAreHonest(lane, request.operationKey, End, End, Some(request));
    PiecesAreHonest(lane, request.operationKey, Closing(lane, End), Closing(lane, End), Some(request));
    var claim := Sending(lane, request, answer).done;
    assert Honest(claim.claimed, Some(request));
    assert Honest(claim, Some(request));
  }

  lemma AdoptingIsHonest(l: Lineage, t: PendingTransition, key: OperationKey, inventory: seq<Session>, initial: bool, q: Option<ClaimRequest>)
    ensures Honest(Adopting(l, t, key, inventory, initial), q)
  {
    if |MatchesOf(inventory, t)| == 1 {
      var name := MatchesOf(inventory, t)[0].name;
      var fp := SessionFingerprint(if initial then Strip(name) else name);
      HandOffsAreHonest(l, t, fp, key, End, q);
      PiecesAreHonest(l.laneId, key, if initial then HandingOffInitial(l, t, fp, key, End) else HandingOff(l, t, fp, key), End, q);
    }
  }

  lemma AnswersAreHonest(doc: Doc, question: Question, q: Option<ClaimRequest>)
    ensures Honest(Answered(doc, question), q)
  {
    match question
    case UnknownGeneration(l, inventory) =>
      if PendingState(doc, l.laneId).Some? {
        AdoptingIsHonest(l, PendingState(doc, l.laneId).value.1, PendingState(doc, l.laneId).value.0, inventory, false, q);
      }
    case UnknownInitial(l, inventory) =>
      if PendingInitialState(doc, l.laneId).Some? {
        AdoptingIsHonest(l, PendingInitialState(doc, l.laneId).value.1, PendingInitialState(doc, l.laneId).value.0, inventory, true, q);
      }
    case StaleInitial(l, caller, inventory) =>
      if StaleOperation(doc, l).Some? && RecordedTransition(StaleOperation(doc, l).value, caller).Some? {
        var op := StaleOperation(doc, l).value;
        AdoptingIsHonest(l, RecordedTransition(op, caller).value, op.key, inventory, true, q);
      }
    case BeforeObserving(call) => ObservingIsHonest(doc, call, q);
  }

  lemma ObservingIsHonest(doc: Doc, call: LaneCall, q: Option<ClaimRequest>)
    ensures Honest(Answered(doc, BeforeObserving(call)), q)
  {
    var program := Answered(doc, BeforeObserving(call));
    assert Honest(program.done, q);
  }

  lemma ScriptsAreHonest(script: Script)
    ensures Honest(ProgramOf(script), RequestOf(script)) && !ProgramOf(script).WriteProvider?
  {
    match script
    case CreateNext(g, t, d, answer) => NextIsHonest(LanesOf(g.lineage), t, NextRequest(g, d), answer);
    case CreateInitial(g, t, d, answer) =>
      InitialIsHonest(LanesOf(g.lineage), t, FirstRequest(g, t.taskSpecDigest, d), answer);
    case SendMessage(lane, request, answer) => SendingIsHonest(lane, request, answer);
    case ReconcileFromStore(_) =>
  }

  predicate HonestLive(live: Live) {
    Honest(live.program, RequestOf(live.script))
  }

  ghost predicate AllHonest(s: ScriptedSystem) {
    forall sid :: sid in s.scripts ==> HonestLive(s.scripts[sid])
  }

  lemma {:induction false} AlwaysHonest(run: seq<ScriptAction>)
    requires LegalScripts(run)
    ensures AllHonest(AfterScripts(run))
  {
    if run != [] {
      var init, last := run[..|run| - 1], run[|run| - 1];
      AlwaysHonest(init);
      HonestKept(AfterScripts(init), last);
    }
  }

  /** The script an action is about. */
  function Subject(a: ScriptAction): Option<ScriptId> {
    match a
    case Outside(_) => None
    case _ => Some(a.sid)
  }

  lemma OthersAreLeftAlone(s: ScriptedSystem, a: ScriptAction, sid: ScriptId)
    requires ScriptEnabled(s, a) && Subject(a) != Some(sid)
    ensures sid in LiveAfter(s, a) <==> sid in s.scripts
    ensures sid in s.scripts ==> LiveAfter(s, a)[sid] == s.scripts[sid]
  {
  }

  lemma SubjectStaysHonest(s: ScriptedSystem, a: ScriptAction, sid: ScriptId)
    requires AllHonest(s) && ScriptEnabled(s, a) && Subject(a) == Some(sid) && sid in LiveAfter(s, a)
    ensures HonestLive(LiveAfter(s, a)[sid])
  {
    match a
    case Launch(_, script) => ScriptsAreHonest(script);
    case Answer(_) => AnswersAreHonest(s.base.doc, s.scripts[sid].program.question, RequestOf(s.scripts[sid].script));
    case Advance(_) =>
      ContinuesHonestly(s.scripts[sid].program, s.base.slots[s.scripts[sid].child.value].runner, RequestOf(s.scripts[sid].script));
    case _ =>
  }

  lemma HonestKept(s: ScriptedSystem, a: ScriptAction)
    requires AllHonest(s) && ScriptEnabled(s, a)
    ensures AllHonest(PerformScript(s, a))
  {
    forall sid | sid in LiveAfter(s, a) ensures HonestLive(LiveAfter(s, a)[sid]) {
      if Subject(a) == Some(sid) {
        SubjectStaysHonest(s, a, sid);
      } else {
        OthersAreLeftAlone(s, a, sid);
      }
    }
  }

  lemma ContinuesHonestly(program: Program, runner: Runner, q: Option<ClaimRequest>)
    requires Honest(program, q) && Spawns(program) && Over(runner)
    ensures Honest(Continue(program, runner), q)
    ensures Continue(program, runner).WriteProvider? ==> program.Claim? && runner.Claimer?
  {
  }

  /** What a script action spawns does not record that a creation was not observed. */
  lemma SpawnedIsObserving(s: ScriptedSystem, a: ScriptAction, k: OperationKey)
    requires AllHonest(s) && ScriptEnabled(s, a) && CreatesSession(k)
    requires BaseOf(s, a).Some? && BaseOf(s, a).value.Spawn?
    ensures !RecordsNotObserved(BaseOf(s, a).value.runner, k)
  {
    if a.Begin? {
      ChildIsObserving(s.scripts[a.sid], k);
    }
  }

  lemma ChildIsObserving(live: Live, k: OperationKey)
    requires HonestLive(live) && Spawns(live.program)
    ensures !RecordsNotObserved(ChildOf(live.program), k)
  {
  }

  /** In every interleaving of the scripts, with anything harmless besides, nobody records that a
      session creation was not observed. */
  lemma {:induction false} ScriptsNeverRecordNotObserved(run: seq<ScriptAction>, k: OperationKey)
    requires LegalScripts(run) && CreatesSession(k)
    ensures NeverRecordsNotObserved(BaseRun(run), k)
  {
    if run != [] {
      var init, last := run[..|run| - 1], run[|run| - 1];
      ScriptsNeverRecordNotObserved(init, k);
      AlwaysHonest(init);
      if BaseOf(AfterScripts(init), last).Some? && BaseOf(AfterScripts(init), last).value.Spawn? {
        SpawnedIsObserving(AfterScripts(init), last, k);
      }
    }
  }
}
