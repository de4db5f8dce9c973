/** What the functions of the generation protocol do once the provider was called, in every run: they
    record the outcome, close the lane and hand the session off, in that order. */
module ScriptOutcomes {
  import opened Wrappers
  import opened Text
  import opened Records
  import opened StateStore
  import opened Authority
  import opened ClaimProtocol
  import opened LaneCalls
  import opened ControlSystem
  import opened ControlInvariants
  import opened ReadbackOutcome
  import opened LaneMarks
  import opened EffectKeys
  import opened GenerationProtocol
  import opened ProtocolScripts
  import opened ScriptTraces

  // ---------------------------------------------------------------------------
  // Deeds
  // ---------------------------------------------------------------------------

  /** A lane update, run to its end. */
  predicate IsUpdate(e: Deed, call: LaneCall) {
    e.Ran? && e.runner.Writer? && e.runner.call == call && (e.runner.writer.Finished? || e.runner.writer.Failed?)
  }

  /** A resolution of the operation, run to its end. */
  predicate IsResolution(e: Deed, lane: LaneId, key: OperationKey, resolution: Resolution) {
    && e.Ran? && e.runner.Resolver? && e.runner.laneId == lane && e.runner.key == key && e.runner.resolution == resolution
    && (e.runner.resolve.Resolved? || e.runner.resolve.ResolveFailed?)
  }

  /** A claim of the request, decided. */
  predicate IsClaim(e: Deed, request: ClaimRequest) {
    e.Ran? && e.runner.Claimer? && e.runner.request == request && e.runner.claim.Done?
  }

  predicate WentWell(e: Deed) {
    e.Ran? && match e.runner
              case Writer(_, pc) => pc.Finished?
              case Resolver(_, _, _, pc) => pc.Resolved?
              case Claimer(_, pc, _) => pc.Done? && pc.decision.Claimed?
  }

  lemma RunFirst(program: Program, trace: seq<Deed>)
    requires Completes(program, trace) && program.Run?
    ensures trace != [] && trace[0].Ran? && SameTask(trace[0].runner, program.runner) && Over(trace[0].runner)
    ensures !trace[0].runner.Claimer? ==> Completes(if WentWell(trace[0]) then program.done else program.failed, trace[1..])
  {
    CompletesStep(program, trace);
  }

  lemma ClaimFirst(program: Program, trace: seq<Deed>)
    requires Completes(program, trace) && program.Claim?
    ensures trace != [] && IsClaim(trace[0], program.request)
    ensures
      var next := if WentWell(trace[0]) then program.claimed
                  else if Replays(trace[0]) then program.replayed else program.denied;
      Completes(next, trace[1..])
  {
    CompletesStep(program, trace);
  }

  /** The claim was denied because the operation is confirmed. */
  predicate Replays(e: Deed)
    requires e.Ran? && e.runner.Claimer? && e.runner.claim.Done?
  {
    e.runner.claim.decision == Denied(NotIdempotent(IdempotentReplayConfirmed))
  }

  lemma CallFirst(program: Program, trace: seq<Deed>)
    requires Completes(program, trace) && program.WriteProvider?
    ensures trace != [] && trace[0] == Called && Completes(program.rest, trace[1..])
  {
    CompletesStep(program, trace);
  }

  // ---------------------------------------------------------------------------
  // Pieces
  // ---------------------------------------------------------------------------

  /** The lane is closed, and that is all. */
  predicate ClosedOnly(trace: seq<Deed>, lane: LaneId) {
    |trace| == 1 && IsUpdate(trace[0], RestoreShadow(lane))
  }

  /** What a hand-off ends with: nothing, or closing the lane. */
  predicate EndsWith(trace: seq<Deed>, lane: LaneId, closing: bool) {
    if closing then ClosedOnly(trace, lane) else trace == []
  }

  /** The updates in order, as long as they go well; the first that does not is followed by recording
      UNKNOWN instead of the others. */
  predicate HandedOff(trace: seq<Deed>, calls: seq<LaneCall>, lane: LaneId, key: OperationKey, closing: bool) {
    if calls == [] then EndsWith(trace, lane, closing)
    else
      && trace != [] && IsUpdate(trace[0], calls[0])
      && if WentWell(trace[0]) then HandedOff(trace[1..], calls[1..], lane, key, closing)
         else |trace| > 1 && IsResolution(trace[1], lane, key, RecordUnknown(map[])) && EndsWith(trace[2..], lane, closing)
  }

  /** Bind the generation to the session, count it, clear its pending mark. */
  function NextCalls(l: Lineage, t: PendingTransition, session: string, key: OperationKey): seq<LaneCall> {
    [BindGeneration(l.laneId, l.project, l.route, l.workstreamId, t.nextGeneration, SessionFingerprint(session), t.transitionKey),
     AccountGeneration(l.budgetLane, l.project, l.route, key, t.transitionKey),
     ClearPending(l.laneId, t.transitionKey)]
  }

  /** Bind the first generation to the session, which clears its pending mark, and count it. */
  function FirstCalls(l: Lineage, t: PendingTransition, session: string, key: OperationKey): seq<LaneCall> {
    [BindInitial(l.laneId, SessionFingerprint(session), t.transitionKey, t.taskSpecDigest),
     AccountGeneration(l.budgetLane, l.project, l.route, key, t.transitionKey)]
  }

  lemma ClosingEnds(lane: LaneId, rest: Program, trace: seq<Deed>)
    requires Completes(Closing(lane, rest), trace)
    ensures trace != [] && IsUpdate(trace[0], RestoreShadow(lane))
    ensures if WentWell(trace[0]) then Completes(rest, trace[1..]) else trace[1..] == []
  {
    RunFirst(Closing(lane, rest), trace);
    CompletesStep(if WentWell(trace[0]) then rest else End, trace[1..]);
  }

  lemma UnknownEnds(lane: LaneId, key: OperationKey, cleanup: Program, trace: seq<Deed>)
    requires Completes(RecordingUnknown(lane, key, cleanup), trace)
    ensures trace != [] && IsResolution(trace[0], lane, key, RecordUnknown(map[])) && Completes(cleanup, trace[1..])
  {
    RunFirst(RecordingUnknown(lane, key, cleanup), trace);
  }

  lemma ConfirmingEnds(lane: LaneId, key: OperationKey, done: Program, failed: Program, trace: seq<Deed>)
    requires Completes(Confirming(lane, key, done, failed), trace)
    ensures trace != [] && IsResolution(trace[0], lane, key, ReadBack(Some(true), map[]))
    ensures Completes(if WentWell(trace[0]) then done else failed, trace[1..])
  {
    RunFirst(Confirming(lane, key, done, failed), trace);
  }

  /** The end of a hand-off: nothing, or closing. */
  predicate TailOf(rest: Program, lane: LaneId, closing: bool) {
    rest == if closing then Closing(lane, End) else End
  }

  lemma TailEnds(rest: Program, lane: LaneId, closing: bool, trace: seq<Deed>)
    requires TailOf(rest, lane, closing) && Completes(rest, trace)
    ensures EndsWith(trace, lane, closing)
  {
    if closing { ClosingEnds(lane, End, trace); }
    CompletesStep(rest, trace);
    if closing { CompletesStep(End, trace[1..]); }
  }

  lemma UpdateEnds(call: LaneCall, done: Program, failed: Program, trace: seq<Deed>)
    requires Completes(Run(Update(call), done, failed), trace)
    ensures trace != [] && IsUpdate(trace[0], call)
    ensures Completes(if WentWell(trace[0]) then done else failed, trace[1..])
  {
    RunFirst(Run(Update(call), done, failed), trace);
  }

  /** A hand-off of some updates, UNKNOWN recorded when one fails, and a tail. */
  function HandOffOf(calls: seq<LaneCall>, lane: LaneId, key: OperationKey, rest: Program): Program {
    if calls == [] then rest
    else Run(Update(calls[0]), HandOffOf(calls[1..], lane, key, rest), RecordingUnknown(lane, key, rest))
  }

  lemma {:induction false} HandOffEnds(calls: seq<LaneCall>, lane: LaneId, key: OperationKey, rest: Program, closing: bool,
                                       trace: seq<Deed>)
    requires TailOf(rest, lane, closing) && Completes(HandOffOf(calls, lane, key, rest), trace)
    ensures HandedOff(trace, calls, lane, key, closing)
  {
    if calls == [] {
      TailEnds(rest, lane, closing, trace);
    } else {
      UpdateEnds(calls[0], HandOffOf(calls[1..], lane, key, rest), RecordingUnknown(lane, key, rest), trace);
      if WentWell(trace[0]) {
        HandOffEnds(calls[1..], lane, key, rest, closing, trace[1..]);
      } else {
        UnknownEnds(lane, key, rest, trace[1..]);
        TailEnds(rest, lane, closing, trace[1..][1..]);
        assert trace[1..][1..] == trace[2..];
      }
    }
  }

  lemma HandOffUnfolds(call: LaneCall, calls: seq<LaneCall>, lane: LaneId, key: OperationKey, rest: Program)
    ensures HandOffOf([call] + calls, lane, key, rest)
         == Run(Update(call), HandOffOf(calls, lane, key, rest), RecordingUnknown(lane, key, rest))
  {
    assert ([call] + calls)[1..] == calls;
  }

  lemma NextHandOffIs(l: Lineage, t: PendingTransition, session: string, key: OperationKey)
    ensures HandingOff(l, t, SessionFingerprint(session), key) == HandOffOf(NextCalls(l, t, session, key), l.laneId, key, End)
  {
    var calls := NextCalls(l, t, session, key);
    assert calls == [calls[0]] + ([calls[1]] + ([calls[2]] + []));
    HandOffUnfolds(calls[0], [calls[1]] + ([calls[2]] + []), l.laneId, key, End);
    HandOffUnfolds(calls[1], [calls[2]] + [], l.laneId, key, End);
    HandOffUnfolds(calls[2], [], l.laneId, key, End);
  }

  lemma FirstHandOffIs(l: Lineage, t: PendingTransition, session: string, key: OperationKey, rest: Program)
    ensures HandingOffInitial(l, t, SessionFingerprint(session), key, rest)
         == HandOffOf(FirstCalls(l, t, session, key), l.laneId, key, rest)
  {
    var calls := FirstCalls(l, t, session, key);
    assert calls == [calls[0]] + ([calls[1]] + []);
    HandOffUnfolds(calls[0], [calls[1]] + [], l.laneId, key, rest);
    HandOffUnfolds(calls[1], [], l.laneId, key, rest);
  }

  // ---------------------------------------------------------------------------
  // After the provider was called
  // ---------------------------------------------------------------------------

  /** Without a clear answer UNKNOWN is recorded and the lane closed. */
  predicate RecordedUnknown(after: seq<Deed>, lane: LaneId, key: OperationKey) {
    && |after| == 2 && IsResolution(after[0], lane, key, RecordUnknown(map[])) && IsUpdate(after[1], RestoreShadow(lane))
  }

  /** What follows the call of a create of a later generation. */
  predicate NextAfterCall(after: seq<Deed>, l: Lineage, t: PendingTransition, key: OperationKey, answer: ProviderAnswer) {
    match answer
    case NotClear => RecordedUnknown(after, l.laneId, key)
    case Delivered(session) =>
      && |after| >= 2 && IsResolution(after[0], l.laneId, key, ReadBack(Some(true), map[]))
      && IsUpdate(after[1], RestoreShadow(l.laneId))
      && if WentWell(after[0]) && WentWell(after[1]) then HandedOff(after[2..], NextCalls(l, t, session, key), l.laneId, key, false)
         else |after| == 2
  }

  /** What follows the call of a first create. */
  predicate FirstAfterCall(after: seq<Deed>, l: Lineage, t: PendingTransition, key: OperationKey, answer: ProviderAnswer) {
    match answer
    case NotClear => RecordedUnknown(after, l.laneId, key)
    case Delivered(session) =>
      && after != [] && IsResolution(after[0], l.laneId, key, ReadBack(Some(true), map[]))
      && if WentWell(after[0]) then HandedOff(after[1..], FirstCalls(l, t, Strip(session), key), l.laneId, key, true)
         else ClosedOnly(after[1..], l.laneId)
  }

  /** What follows the call of a message. */
  predicate MessageAfterCall(after: seq<Deed>, lane: LaneId, key: OperationKey, answer: ProviderAnswer) {
    match answer
    case NotClear => RecordedUnknown(after, lane, key)
    case Delivered(_) =>
      |after| == 2 && IsResolution(after[0], lane, key, ReadBack(Some(true), map[])) && IsUpdate(after[1], RestoreShadow(lane))
  }

  lemma UnknownThenClosed(lane: LaneId, key: OperationKey, after: seq<Deed>)
    requires Completes(RecordingUnknown(lane, key, Closing(lane, End)), after)
    ensures RecordedUnknown(after, lane, key)
  {
    UnknownEnds(lane, key, Closing(lane, End), after);
    TailEnds(Closing(lane, End), lane, true, after[1..]);
  }

  /** What a create of a later generation does after its provider call. */
  function NextWritten(l: Lineage, t: PendingTransition, key: OperationKey, answer: ProviderAnswer): Program {
    match answer
    case NotClear => RecordingUnknown(l.laneId, key, Closing(l.laneId, End))
    case Delivered(name) =>
      Confirming(l.laneId, key, Closing(l.laneId, HandingOff(l, t, SessionFingerprint(name), key)), Closing(l.laneId, End))
  }

  lemma NextWrittenEnds(l: Lineage, t: PendingTransition, key: OperationKey, answer: ProviderAnswer, after: seq<Deed>)
    requires Completes(NextWritten(l, t, key, answer), after)
    ensures NextAfterCall(after, l, t, key, answer)
  {
    match answer
    case NotClear => UnknownThenClosed(l.laneId, key, after);
    case Delivered(session) =>
      var handing := HandingOff(l, t, SessionFingerprint(session), key);
      ConfirmingEnds(l.laneId, key, Closing(l.laneId, handing), Closing(l.laneId, End), after);
      var rest := after[1..];
      ClosingEnds(l.laneId, if WentWell(after[0]) then handing else End, rest);
      assert rest[1..] == after[2..];
      if WentWell(after[0]) && WentWell(after[1]) {
        NextHandOffIs(l, t, session, key);
        HandOffEnds(NextCalls(l, t, session, key), l.laneId, key, End, false, after[2..]);
      } else if WentWell(after[1]) {
        CompletesStep(End, after[2..]);
      }
  }

  lemma FirstWrittenEnds(l: Lineage, t: PendingTransition, key: OperationKey, answer: ProviderAnswer, after: seq<Deed>)
    requires Completes(FirstWritten(l, t, key, answer), after)
    ensures FirstAfterCall(after, l, t, key, answer)
  {
    match answer
    case NotClear => UnknownThenClosed(l.laneId, key, after);
    case Delivered(session) =>
      var handing := HandingOffInitial(l, t, SessionFingerprint(Strip(session)), key, Closing(l.laneId, End));
      ConfirmingEnds(l.laneId, key, handing, Closing(l.laneId, End), after);
      if WentWell(after[0]) {
        FirstHandOffIs(l, t, Strip(session), key, Closing(l.laneId, End));
        HandOffEnds(FirstCalls(l, t, Strip(session), key), l.laneId, key, Closing(l.laneId, End), true, after[1..]);
      } else {
        TailEnds(Closing(l.laneId, End), l.laneId, true, after[1..]);
      }
  }

  function FirstWritten(l: Lineage, t: PendingTransition, key: OperationKey, answer: ProviderAnswer): Program {
    match answer
    case NotClear => RecordingUnknown(l.laneId, key, Closing(l.laneId, End))
    case Delivered(name) =>
      Confirming(l.laneId, key, HandingOffInitial(l, t, SessionFingerprint(Strip(name)), key, Closing(l.laneId, End)),
                 Closing(l.laneId, End))
  }

  lemma MessageWrittenEnds(lane: LaneId, key: OperationKey, answer: ProviderAnswer, after: seq<Deed>)
    requires Completes(MessageWritten(lane, key, answer), after)
    ensures MessageAfterCall(after, lane, key, answer)
  {
    if answer.NotClear? {
      UnknownThenClosed(lane, key, after);
    } else {
      ConfirmingEnds(lane, key, Closing(lane, End), Closing(lane, End), after);
      TailEnds(Closing(lane, End), lane, true, after[1..]);
    }
  }

  function MessageWritten(lane: LaneId, key: OperationKey, answer: ProviderAnswer): Program {
    match answer
    case NotClear => RecordingUnknown(lane, key, Closing(lane, End))
    case Delivered(_) => Confirming(lane, key, Closing(lane, End), Closing(lane, End))
  }

  // ---------------------------------------------------------------------------
  // Whole scripts
  // ---------------------------------------------------------------------------

  /** The updates went well one after the other. */
  predicate Prepared(trace: seq<Deed>, calls: seq<LaneCall>) {
    |trace| == |calls| && forall i :: 0 <= i < |calls| ==> IsUpdate(trace[i], calls[i]) && WentWell(trace[i])
  }

  /** Prepare, claim, and go on by the decision. */
  function PreparedClaim(calls: seq<LaneCall>, claim: Program): Program {
    if calls == [] then claim else Run(Update(calls[0]), PreparedClaim(calls[1..], claim), End)
  }

  /** A script that called the provider prepared its lane, was told CLAIMED, and called. */
  lemma {:induction false} CalledWasClaimed(calls: seq<LaneCall>, claim: Program, trace: seq<Deed>)
    requires claim.Claim? && claim.claimed.WriteProvider? && NeverCalls(claim.replayed) && NeverCalls(claim.denied)
    requires Completes(PreparedClaim(calls, claim), trace) && Called in trace
    ensures |trace| > |calls| + 1 && Prepared(trace[..|calls|], calls)
    ensures IsClaim(trace[|calls|], claim.request) && WentWell(trace[|calls|]) && trace[|calls| + 1] == Called
    ensures Completes(claim.claimed.rest, trace[|calls| + 2..])
  {
    if calls == [] {
      ClaimFirst(claim, trace);
      var rest := trace[1..];
      assert trace == [trace[0]] + rest;
      if WentWell(trace[0]) {
        CallFirst(claim.claimed, rest);
        assert rest[1..] == trace[2..];
      } else {
        NoCallWithout(if Replays(trace[0]) then claim.replayed else claim.denied, rest);
      }
    } else {
      UpdateEnds(calls[0], PreparedClaim(calls[1..], claim), End, trace);
      var rest, n := trace[1..], |calls|;
      assert trace == [trace[0]] + rest;
      if WentWell(trace[0]) {
        CalledWasClaimed(calls[1..], claim, rest);
        assert rest[n - 1 + 2..] == trace[n + 2..];
        assert forall i :: 1 <= i < n ==> trace[..n][i] == rest[..n - 1][i - 1] && calls[i] == calls[1..][i - 1];
      } else {
        CompletesStep(End, rest);
      }
    }
  }

  /** The program has no provider call in it. */
  predicate NeverCalls(program: Program) {
    match program
    case End => true
    case Run(_, done, failed) => NeverCalls(done) && NeverCalls(failed)
    case Claim(_, claimed, replayed, denied) => NeverCalls(claimed) && NeverCalls(replayed) && NeverCalls(denied)
    case WriteProvider(_) => false
    case Look(_) => false
  }

  lemma {:induction false} NoCallWithout(program: Program, trace: seq<Deed>)
    requires Completes(program, trace) && NeverCalls(program)
    ensures Called !in trace
    decreases |trace|
  {
    if trace != [] {
      CompletesStep(program, trace);
      NoCallWithout(Passed(program, trace[0]), trace[1..]);
      assert trace == [trace[0]] + trace[1..];
    }
  }

  lemma PreparedUnfolds(call: LaneCall, calls: seq<LaneCall>, claim: Program)
    ensures PreparedClaim([call] + calls, claim) == Run(Update(call), PreparedClaim(calls, claim), End)
  {
    assert ([call] + calls)[1..] == calls;
  }

  lemma PreparedTwice(first: LaneCall, second: LaneCall, claim: Program)
    ensures PreparedClaim([first, second], claim) == Run(Update(first), Run(Update(second), claim, End), End)
  {
    assert [first, second] == [first] + ([second] + []);
    PreparedUnfolds(first, [second] + [], claim);
    PreparedUnfolds(second, [], claim);
  }

  lemma PreparedThrice(first: LaneCall, second: LaneCall, third: LaneCall, claim: Program)
    ensures PreparedClaim([first, second, third], claim)
         == Run(Update(first), Run(Update(second), Run(Update(third), claim, End), End), End)
  {
    assert [first, second, third] == [first] + [second, third];
    PreparedUnfolds(first, [second, third], claim);
    PreparedTwice(second, third, claim);
  }

  function NextClaim(l: Lineage, t: PendingTransition, request: ClaimRequest, answer: ProviderAnswer): Program {
    var lane, key := l.laneId, request.operationKey;
    Claim(request, WriteProvider(NextWritten(l, t, key, answer)), Closing(lane, RecordingUnknown(lane, key, End)), Closing(lane, End))
  }

  lemma NextIsPrepared(l: Lineage, t: PendingTransition, request: ClaimRequest, answer: ProviderAnswer)
    ensures CreatingNext(l, t, request, answer)
         == PreparedClaim([PersistPending(l.laneId, t), AuthorizeLane(l.laneId)], NextClaim(l, t, request, answer))
  {
    PreparedTwice(PersistPending(l.laneId, t), AuthorizeLane(l.laneId), NextClaim(l, t, request, answer));
  }

  function FirstClaim(l: Lineage, t: PendingTransition, request: ClaimRequest, answer: ProviderAnswer): Program {
    Claim(request, WriteProvider(FirstWritten(l, t, request.operationKey, answer)), Closing(l.laneId, End), Closing(l.laneId, End))
  }

  lemma FirstIsPrepared(l: Lineage, t: PendingTransition, request: ClaimRequest, answer: ProviderAnswer)
    ensures CreatingInitial(l, t, request, answer)
         == PreparedClaim([EnsureInitial(l.laneId, l.project, l.route, l.workstreamId), PersistPendingInitial(l.laneId, t),
                           AuthorizeLane(l.laneId)], FirstClaim(l, t, request, answer))
  {
    PreparedThrice(EnsureInitial(l.laneId, l.project, l.route, l.workstreamId), PersistPendingInitial(l.laneId, t),
                   AuthorizeLane(l.laneId), FirstClaim(l, t, request, answer));
  }

  function MessageClaim(lane: LaneId, request: ClaimRequest, answer: ProviderAnswer): Program {
    Claim(request, WriteProvider(MessageWritten(lane, request.operationKey, answer)), Closing(lane, End), Closing(lane, End))
  }

  lemma MessageIsPrepared(lane: LaneId, request: ClaimRequest, answer: ProviderAnswer)
    ensures Sending(lane, request, answer) == PreparedClaim([AuthorizeLane(lane)], MessageClaim(lane, request, answer))
  {
    assert [AuthorizeLane(lane)] == [AuthorizeLane(lane)] + [];
    PreparedUnfolds(AuthorizeLane(lane), [], MessageClaim(lane, request, answer));
  }

  // ---------------------------------------------------------------------------
  // What the runs of a script leave in the store
  // ---------------------------------------------------------------------------

  /** The resolver has saved its operation. */
  predicate HasSavedOperation(pc: ResolvePc) {
    pc.OperationSaved? || pc.LaneSaving? || pc.Resolved?
  }

  function OutcomeOf(resolution: Resolution): OperationState {
    match resolution
    case RecordUnknown(_) => OperationState.Unknown
    case ReadBack(observed, _) =>
      match observed
      case Some(true) => Confirmed
      case Some(false) => ReconciledNotObserved
      case None => OperationState.Unknown
  }

  /** The step in which a resolver saves its operation leaves it in the state of the outcome. */
  lemma SaveLeavesOutcome(s: System, id: RunnerId)
    requires Sound(s) && Enabled(s, Step(id)) && s.slots[id].runner.Resolver?
    requires !HasSavedOperation(s.slots[id].runner.resolve)
    requires HasSavedOperation(MoveOf(s.doc, s.slots[id].runner).runner.resolve)
    ensures
      var runner := s.slots[id].runner;
      StateOf(Perform(s, Step(id)).doc, runner.key) == Some(OutcomeOf(runner.resolution))
  {
    var runner := s.slots[id].runner;
    assert Fresh(s.doc, runner);
    SavedIsResolved(s.doc, runner.laneId, runner.key, runner.resolution, runner.resolve);
    ResolvedState(ReadOperation(s.doc, runner.key).record, runner.resolution);
  }

  /** The n-th action of the run is a step of the runner and leaves the operation in the state. */
  ghost predicate LeftIn(run: seq<Action>, n: nat, id: RunnerId, key: OperationKey, state: OperationState) {
    && 0 < n <= |run| && run[n - 1] == Step(id) && Legal(run[..n])
    && StateOf(After(run[..n]).doc, key) == Some(state)
  }

  lemma LeftInLonger(run: seq<Action>, n: nat, id: RunnerId, key: OperationKey, state: OperationState)
    requires run != [] && LeftIn(run[..|run| - 1], n, id, key, state)
    ensures LeftIn(run, n, id, key, state)
  {
    assert run[..|run| - 1][..n] == run[..n];
  }

  /** A resolver that saved its operation left it, in one of its steps, in the state of its outcome. */
  lemma {:induction false} ResolverLeftOutcome(run: seq<Action>, id: RunnerId) returns (n: nat)
    requires Legal(run) && id in After(run).slots && After(run).slots[id].runner.Resolver?
    requires HasSavedOperation(After(run).slots[id].runner.resolve)
    ensures LeftIn(run, n, id, After(run).slots[id].runner.key, OutcomeOf(After(run).slots[id].runner.resolution))
  {
    var init, runner := run[..|run| - 1], After(run).slots[id].runner;
    ResolverSavesOnce(init, run[|run| - 1], id);
    if HasSavedOperation(After(init).slots[id].runner.resolve) {
      n := ResolverLeftOutcome(init, id);
      LeftInLonger(run, n, id, runner.key, OutcomeOf(runner.resolution));
    } else {
      n := |run|;
      assert run[..n] == run;
      AlwaysSound(init);
      SaveLeavesOutcome(After(init), id);
    }
  }

  lemma ResolverSavesOnce(init: seq<Action>, last: Action, id: RunnerId)
    requires Legal(init) && Enabled(After(init), last) && id in Perform(After(init), last).slots
    requires Perform(After(init), last).slots[id].runner.Resolver?
    requires HasSavedOperation(Perform(After(init), last).slots[id].runner.resolve)
    ensures id in After(init).slots && SameTask(After(init).slots[id].runner, Perform(After(init), last).slots[id].runner)
    ensures HasSavedOperation(After(init).slots[id].runner.resolve) || last == Step(id)
  {
  }

  /** As long as nobody else wrote the operation it is still in that state. */
  lemma OutcomeHolds(run: seq<Action>, n: nat, key: OperationKey)
    requires Legal(run) && n <= |run| && Legal(run[..n])
    requires OperationVersion(After(run[..n]).doc, key) == OperationVersion(After(run).doc, key)
    ensures StateOf(After(run).doc, key) == StateOf(After(run[..n]).doc, key)
  {
    VersionNamesContents(run, n);
  }

  /** The n-th action of the run is a step of the runner and leaves the lane in SHADOW. */
  ghost predicate ShadowedAt(run: seq<Action>, n: nat, id: RunnerId, lane: LaneId) {
    && 0 < n <= |run| && run[n - 1] == Step(id) && Legal(run[..n])
    && MarksOf(After(run[..n]).doc, lane).mode == Shadow
  }

  lemma ShadowedAtLonger(run: seq<Action>, n: nat, id: RunnerId, lane: LaneId)
    requires run != [] && ShadowedAt(run[..|run| - 1], n, id, lane)
    ensures ShadowedAt(run, n, id, lane)
  {
    assert run[..|run| - 1][..n] == run[..n];
  }

  /** A closing update that finished left its lane in SHADOW in one of its steps. */
  lemma {:induction false} RestoredWasShadow(run: seq<Action>, id: RunnerId) returns (n: nat)
    requires Legal(run) && id in After(run).slots && After(run).slots[id].runner.Writer?
    requires After(run).slots[id].runner.call.RestoreShadow? && After(run).slots[id].runner.writer.Finished?
    ensures ShadowedAt(run, n, id, After(run).slots[id].runner.call.laneId)
  {
    var init, runner := run[..|run| - 1], After(run).slots[id].runner;
    WriterFinishesOnce(init, run[|run| - 1], id);
    if After(init).slots[id].runner == runner {
      n := RestoredWasShadow(init, id);
      ShadowedAtLonger(run, n, id, runner.call.laneId);
    } else {
      n := |run|;
      assert run[..n] == run;
      AlwaysSound(init);
      RestoringShadows(After(init), id);
    }
  }

  lemma WriterFinishesOnce(init: seq<Action>, last: Action, id: RunnerId)
    requires Legal(init) && Enabled(After(init), last) && id in Perform(After(init), last).slots
    requires Perform(After(init), last).slots[id].runner.Writer? && Perform(After(init), last).slots[id].runner.writer.Finished?
    ensures id in After(init).slots && SameTask(After(init).slots[id].runner, Perform(After(init), last).slots[id].runner)
    ensures After(init).slots[id].runner == Perform(After(init), last).slots[id].runner || last == Step(id)
  {
  }

  lemma RestoringShadows(s: System, id: RunnerId)
    requires Sound(s) && Enabled(s, Step(id)) && s.slots[id].runner.Writer? && s.slots[id].runner.call.RestoreShadow?
    requires MoveOf(s.doc, s.slots[id].runner).runner.writer.Finished? && !s.slots[id].runner.writer.Finished?
    ensures MarksOf(Perform(s, Step(id)).doc, s.slots[id].runner.call.laneId).mode == Shadow
  {
    var runner := s.slots[id].runner;
    assert Fresh(s.doc, runner);
  }

  // ---------------------------------------------------------------------------
  // The theorems
  // ---------------------------------------------------------------------------

  /** What a script did to its operation: one step of a resolution that went well left the operation in the
      state of its outcome, and there it still is unless somebody wrote it since. */
  ghost predicate OutcomeStored(run: seq<Action>, e: Deed, key: OperationKey, resolution: Resolution)
    requires Legal(run)
  {
    WentWell(e) ==>
      exists n: nat ::
        && LeftIn(run, n, e.rid, key, OutcomeOf(resolution))
        && (OperationVersion(After(run[..n]).doc, key) == OperationVersion(After(run).doc, key) ==>
              StateOf(After(run).doc, key) == Some(OutcomeOf(resolution)))
  }

  /** One step of a closing update that went well left the lane in SHADOW. */
  ghost predicate LaneWasClosed(run: seq<Action>, e: Deed, lane: LaneId)
    requires Legal(run)
  {
    WentWell(e) ==> exists n: nat :: ShadowedAt(run, n, e.rid, lane)
  }

  lemma ResolutionIsStored(run: seq<ScriptAction>, sid: ScriptId, i: nat, lane: LaneId, key: OperationKey, resolution: Resolution)
    requires LegalScripts(run) && i < |Trace(run, sid)| && IsResolution(Trace(run, sid)[i], lane, key, resolution)
    ensures Legal(BaseRun(run)) && OutcomeStored(BaseRun(run), Trace(run, sid)[i], key, resolution)
  {
    var base, e := BaseRun(run), Trace(run, sid)[i];
    ScriptedRunIsLegal(run);
    RanStaysOver(run, sid, i);
    if WentWell(e) {
      var n := ResolverLeftOutcome(base, e.rid);
      if OperationVersion(After(base[..n]).doc, key) == OperationVersion(After(base).doc, key) { OutcomeHolds(base, n, key); }
    }
  }

  lemma ClosingIsStored(run: seq<ScriptAction>, sid: ScriptId, i: nat, lane: LaneId)
    requires LegalScripts(run) && i < |Trace(run, sid)| && IsUpdate(Trace(run, sid)[i], RestoreShadow(lane))
    ensures Legal(BaseRun(run)) && LaneWasClosed(BaseRun(run), Trace(run, sid)[i], lane)
  {
    ScriptedRunIsLegal(run);
    RanStaysOver(run, sid, i);
    if WentWell(Trace(run, sid)[i]) {
      var n := RestoredWasShadow(BaseRun(run), Trace(run, sid)[i].rid);
    }
  }

  /** The answer asks for UNKNOWN unless it delivered. */
  function ResolutionFor(answer: ProviderAnswer): Resolution {
    if answer.NotClear? then RecordUnknown(map[]) else ReadBack(Some(true), map[])
  }

  /** The script is over, and it called the provider. */
  ghost predicate CalledAndEnded(run: seq<ScriptAction>, sid: ScriptId)
    requires LegalScripts(run)
  {
    sid in AfterScripts(run).scripts && AfterScripts(run).scripts[sid].program == End && Called in Trace(run, sid)
  }

  lemma EndedCompletes(run: seq<ScriptAction>, sid: ScriptId)
    requires LegalScripts(run) && CalledAndEnded(run, sid)
    ensures Completes(ProgramOf(AfterScripts(run).scripts[sid].script), Trace(run, sid))
  {
    ScriptsFollowPrograms(run, sid);
  }

  /** A create of a later generation that called the provider and ended had its transition persisted, its
      lane opened and its claim granted before; after, it resolved its own operation by the answer, closed
      the lane, and handed a delivered session off. */
  predicate CreatedNext(trace: seq<Deed>, l: Lineage, t: PendingTransition, request: ClaimRequest, answer: ProviderAnswer) {
    && |trace| > 5 && Prepared(trace[..2], [PersistPending(l.laneId, t), AuthorizeLane(l.laneId)])
    && IsClaim(trace[2], request) && WentWell(trace[2]) && trace[3] == Called
    && NextAfterCall(trace[4..], l, t, request.operationKey, answer)
    && IsResolution(trace[4], l.laneId, request.operationKey, ResolutionFor(answer)) && IsUpdate(trace[5], RestoreShadow(l.laneId))
  }

  /** The deeds at these places were a resolution and a closing, and did that to the store. */
  ghost predicate ResolvedAndClosed(run: seq<ScriptAction>, trace: seq<Deed>, i: nat, j: nat, lane: LaneId, key: OperationKey,
                                    resolution: Resolution)
    requires LegalScripts(run) && i < |trace| && j < |trace|
  {
    && Legal(BaseRun(run)) && OutcomeStored(BaseRun(run), trace[i], key, resolution)
    && LaneWasClosed(BaseRun(run), trace[j], lane)
  }

  lemma NextCreateIsResolved(run: seq<ScriptAction>, sid: ScriptId, g: NextGeneration, t: PendingTransition, d: Details,
                             answer: ProviderAnswer)
    requires LegalScripts(run) && CalledAndEnded(run, sid)
    requires AfterScripts(run).scripts[sid].script == CreateNext(g, t, d, answer)
    ensures CreatedNext(Trace(run, sid), LanesOf(g.lineage), t, NextRequest(g, d), answer)
    ensures ResolvedAndClosed(run, Trace(run, sid), 4, 5, LanesOf(g.lineage).laneId, NextKey(g), ResolutionFor(answer))
  {
    EndedCompletes(run, sid);
    NextTraceEnds(LanesOf(g.lineage), t, NextRequest(g, d), answer, Trace(run, sid));
    ResolutionIsStored(run, sid, 4, LanesOf(g.lineage).laneId, NextKey(g), ResolutionFor(answer));
    ClosingIsStored(run, sid, 5, LanesOf(g.lineage).laneId);
  }

  lemma NextTraceEnds(l: Lineage, t: PendingTransition, request: ClaimRequest, answer: ProviderAnswer, trace: seq<Deed>)
    requires Completes(CreatingNext(l, t, request, answer), trace) && Called in trace
    ensures CreatedNext(trace, l, t, request, answer)
  {
    var calls, claim := [PersistPending(l.laneId, t), AuthorizeLane(l.laneId)], NextClaim(l, t, request, answer);
    NextIsPrepared(l, t, request, answer);
    CalledWasClaimed(calls, claim, trace);
    NextWrittenEnds(l, t, request.operationKey, answer, trace[4..]);
  }

  /** The same of a first create, which hands off before it closes the lane. */
  predicate CreatedFirst(trace: seq<Deed>, l: Lineage, t: PendingTransition, request: ClaimRequest, answer: ProviderAnswer) {
    && |trace| > 6
    && Prepared(trace[..3], [EnsureInitial(l.laneId, l.project, l.route, l.workstreamId), PersistPendingInitial(l.laneId, t),
                             AuthorizeLane(l.laneId)])
    && IsClaim(trace[3], request) && WentWell(trace[3]) && trace[4] == Called
    && FirstAfterCall(trace[5..], l, t, request.operationKey, answer)
    && IsResolution(trace[5], l.laneId, request.operationKey, ResolutionFor(answer))
    && IsUpdate(trace[|trace| - 1], RestoreShadow(l.laneId))
  }

  lemma FirstCreateIsResolved(run: seq<ScriptAction>, sid: ScriptId, g: FirstGeneration, t: PendingTransition, d: Details,
                              answer: ProviderAnswer)
    requires LegalScripts(run) && CalledAndEnded(run, sid)
    requires AfterScripts(run).scripts[sid].script == CreateInitial(g, t, d, answer)
    ensures CreatedFirst(Trace(run, sid), LanesOf(g.lineage), t, FirstRequest(g, t.taskSpecDigest, d), answer)
    ensures ResolvedAndClosed(run, Trace(run, sid), 5, |Trace(run, sid)| - 1, LanesOf(g.lineage).laneId, FirstKey(g),
                              ResolutionFor(answer))
  {
    EndedCompletes(run, sid);
    FirstTraceEnds(LanesOf(g.lineage), t, FirstRequest(g, t.taskSpecDigest, d), answer, Trace(run, sid));
    ResolutionIsStored(run, sid, 5, LanesOf(g.lineage).laneId, FirstKey(g), ResolutionFor(answer));
    ClosingIsStored(run, sid, |Trace(run, sid)| - 1, LanesOf(g.lineage).laneId);
  }

  lemma FirstTraceEnds(l: Lineage, t: PendingTransition, request: ClaimRequest, answer: ProviderAnswer, trace: seq<Deed>)
    requires Completes(CreatingInitial(l, t, request, answer), trace) && Called in trace
    ensures CreatedFirst(trace, l, t, request, answer)
  {
    var calls := [EnsureInitial(l.laneId, l.project, l.route, l.workstreamId), PersistPendingInitial(l.laneId, t),
                  AuthorizeLane(l.laneId)];
    var claim := FirstClaim(l, t, request, answer);
    FirstIsPrepared(l, t, request, answer);
    CalledWasClaimed(calls, claim, trace);
    FirstWrittenEnds(l, t, request.operationKey, answer, trace[5..]);
    FirstEndsClosed(trace[5..], l, t, request.operationKey, answer);
  }

  lemma FirstEndsClosed(after: seq<Deed>, l: Lineage, t: PendingTransition, key: OperationKey, answer: ProviderAnswer)
    requires FirstAfterCall(after, l, t, key, answer)
    ensures |after| > 1 && IsUpdate(after[|after| - 1], RestoreShadow(l.laneId))
  {
    if answer.Delivered? && WentWell(after[0]) {
      HandedOffEndsClosed(after[1..], FirstCalls(l, t, Strip(answer.name), key), l.laneId, key);
    }
  }

  lemma {:induction false} HandedOffEndsClosed(trace: seq<Deed>, calls: seq<LaneCall>, lane: LaneId, key: OperationKey)
    requires HandedOff(trace, calls, lane, key, true)
    ensures trace != [] && IsUpdate(trace[|trace| - 1], RestoreShadow(lane))
  {
    if calls != [] && WentWell(trace[0]) {
      HandedOffEndsClosed(trace[1..], calls[1..], lane, key);
    }
  }

  /** And of a message, which is five deeds. */
  predicate Sent(trace: seq<Deed>, lane: LaneId, request: ClaimRequest, answer: ProviderAnswer) {
    && |trace| == 5 && Prepared(trace[..1], [AuthorizeLane(lane)])
    && IsClaim(trace[1], request) && WentWell(trace[1]) && trace[2] == Called
    && IsResolution(trace[3], lane, request.operationKey, ResolutionFor(answer)) && IsUpdate(trace[4], RestoreShadow(lane))
  }

  lemma MessageIsResolved(run: seq<ScriptAction>, sid: ScriptId, lane: LaneId, request: ClaimRequest, answer: ProviderAnswer)
    requires LegalScripts(run) && CalledAndEnded(run, sid)
    requires AfterScripts(run).scripts[sid].script == SendMessage(lane, request, answer)
    ensures Sent(Trace(run, sid), lane, request, answer)
    ensures ResolvedAndClosed(run, Trace(run, sid), 3, 4, lane, request.operationKey, ResolutionFor(answer))
  {
    EndedCompletes(run, sid);
    MessageTraceEnds(lane, request, answer, Trace(run, sid));
    ResolutionIsStored(run, sid, 3, lane, request.operationKey, ResolutionFor(answer));
    ClosingIsStored(run, sid, 4, lane);
  }

  lemma MessageTraceEnds(lane: LaneId, request: ClaimRequest, answer: ProviderAnswer, trace: seq<Deed>)
    requires Completes(Sending(lane, request, answer), trace) && Called in trace
    ensures Sent(trace, lane, request, answer)
  {
    MessageIsPrepared(lane, request, answer);
    CalledWasClaimed([AuthorizeLane(lane)], MessageClaim(lane, request, answer), trace);
    MessageWrittenEnds(lane, request.operationKey, answer, trace[3..]);
  }
}
