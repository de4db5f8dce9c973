/** The optimistic lane updates take effect atomically, and the two generation binders build one
    contiguous chain per lane, over every run with arbitrary conflicts. */
module GenerationChain {
  import opened Wrappers
  import opened Records
  import opened StateStore
  import opened ClaimProtocol
  import opened PassiveObservation
  import opened LineageObservation
  import opened LaneCalls
  import opened ControlSystem
  import opened ControlInvariants

  lemma LandedWriteIsPlanned(doc: Doc, call: LaneCall, pc: WriterPc)
    requires WriterFresh(doc, call, pc) && StepWriter(doc, call, pc).0 != NoChange
    ensures
      var plan := PlanCall(ReadLane(doc, call.laneId), call);
      && plan.Write? && plan.expected == LaneVersion(doc, call.laneId)
      && StepWriter(doc, call, pc) == (LaneWrite(call.laneId, plan.record), Finished(plan.onSuccess))
  {
  }

  /** However many conflicts a caller went through: when its write lands, it is the write the call
      would compute from the document at that instant, on the version it names. */
  lemma RetryLoopIsAtomic(run: seq<Action>, id: RunnerId)
    requires Legal(run) && Enabled(After(run), Step(id)) && After(run).slots[id].runner.Writer?
    requires Perform(After(run), Step(id)).doc != After(run).doc
    ensures
      var s, t := After(run), Perform(After(run), Step(id));
      var call := s.slots[id].runner.call;
      var plan := PlanCall(ReadLane(s.doc, call.laneId), call);
      && plan.Write? && plan.expected == LaneVersion(s.doc, call.laneId)
      && t.doc == WriteLane(s.doc, call.laneId, plan.record)
      && t.slots[id].runner == Writer(call, Finished(plan.onSuccess))
  {
    AlwaysSound(run);
    var runner := After(run).slots[id].runner;
    assert Fresh(After(run).doc, runner);
    LandedWriteIsPlanned(After(run).doc, runner.call, runner.writer);
  }

  // ---------------------------------------------------------------------------
  // What one move does to a binding
  // ---------------------------------------------------------------------------

  /** A generation is bound exactly when there is one. */
  predicate Numbered(e: Evidence) {
    e.generation > 0 <==> e.fingerprint.Some?
  }

  /** The same generation and fingerprint; an observation may record the lane's own fingerprint as the
      previous one. */
  predicate SameBinding(before: Evidence, after: Evidence) {
    && after.generation == before.generation && after.fingerprint == before.fingerprint
    && (after.previousFingerprint == before.previousFingerprint || after.previousFingerprint == before.fingerprint)
  }

  /** The next binding: contiguous once positive, remembering the fingerprint it follows. */
  predicate NextBinding(before: Evidence, after: Evidence) {
    && after.generation > before.generation
    && (before.generation > 0 ==> after.generation == before.generation + 1)
    && after.fingerprint.Some?
    && after.previousFingerprint == before.fingerprint
  }

  /** The runner is a passive observation of the lane. */
  predicate ObservesLane(runner: Runner, lane: LaneId) {
    runner.Writer? && runner.call.ObserveLane? && runner.call.laneId == lane
  }

  /** The observation finds a legacy adoption and takes its binding away. */
  predicate RevokesLane(doc: Doc, runner: Runner, lane: LaneId, after: Evidence) {
    && ObservesLane(runner, lane)
    && ReadLane(doc, lane).Found? && Revokes(ReadLane(doc, lane).record, runner.call.observation)
    && after.generation == 0 && after.fingerprint == None
  }

  ghost predicate EvidenceMove(doc: Doc, before: Runner, change: Change) {
    change.LaneWrite? ==>
      var was, now := EvidenceAt(doc, change.lane), change.record.evidence;
      && (Numbered(was) ==>
            && Numbered(now)
            && (SameBinding(was, now) || NextBinding(was, now) || RevokesLane(doc, before, change.lane, now)))
      && (!ObservesLane(before, change.lane) ==>
            && now.reason == was.reason && now.known == was.known
            && (now.generation == was.generation ==> now.previousFingerprint == was.previousFingerprint)
            && (now.accounting != was.accounting ==>
                  && before.Writer? && before.call.AccountGeneration?
                  && !AlreadyAccounted(was.accounting, before.call.operationKey, before.call.transitionKey)
                  && now.accounting == Counted(was.accounting, before.call.operationKey, before.call.transitionKey)))
  }

  lemma ObservationMove(doc: Doc, runner: Runner)
    requires WellStored(doc) && Fresh(doc, runner) && runner.Writer? && runner.call.ObserveLane?
    ensures EvidenceMove(doc, runner, MoveOf(doc, runner).change)
  {
    var move := MoveOf(doc, runner);
    if move.change.LaneWrite? {
      var read := ReadLane(doc, runner.call.laneId);
      assert move.change.record.evidence == Observe(if read.Found? then read.record
        else FreshLane(runner.call.laneId, runner.call.project, runner.call.route, runner.call.workstreamId),
        runner.call.observation).evidence;
    }
  }

  lemma BinderEvidenceMove(doc: Doc, runner: Runner)
    requires WellStored(doc) && Fresh(doc, runner) && runner.Writer? && (runner.call.BindGeneration? || runner.call.BindInitial?)
    ensures EvidenceMove(doc, runner, MoveOf(doc, runner).change)
  {
    if MoveOf(doc, runner).change.LaneWrite? {
      var read := ReadLane(doc, runner.call.laneId);
      assert read.Found? ==> read.record.evidence == EvidenceAt(doc, runner.call.laneId);
    }
  }

  /** What a writer that is neither binder nor observer computes. */
  lemma PlanKeepsBinding(read: Read<LaneRecord>, call: LaneCall)
    requires !call.ObserveLane? && !call.BindGeneration? && !call.BindInitial?
    requires PlanCall(read, call).Write?
    ensures
      var was := if read.Found? then read.record.evidence else NO_EVIDENCE;
      var now := PlanCall(read, call).record.evidence;
      now == was.(pending := now.pending, pendingInitial := now.pendingInitial, accounting :=
        if call.AccountGeneration? then Counted(was.accounting, call.operationKey, call.transitionKey) else was.accounting)
      && (call.AccountGeneration? ==> !AlreadyAccounted(was.accounting, call.operationKey, call.transitionKey))
  {
  }

  lemma WriterEvidenceMove(doc: Doc, runner: Runner)
    requires WellStored(doc) && Fresh(doc, runner) && runner.Writer? && !runner.call.ObserveLane?
    requires !runner.call.BindGeneration? && !runner.call.BindInitial?
    ensures EvidenceMove(doc, runner, MoveOf(doc, runner).change)
  {
    if MoveOf(doc, runner).change.LaneWrite? {
      LandedWriteIsPlanned(doc, runner.call, runner.writer);
      PlanKeepsBinding(ReadLane(doc, runner.call.laneId), runner.call);
    }
  }

  lemma OtherEvidenceMove(doc: Doc, runner: Runner)
    requires WellStored(doc) && Fresh(doc, runner) && RunnerFits(runner) && !runner.Writer?
    ensures EvidenceMove(doc, runner, MoveOf(doc, runner).change)
  {
    var move := MoveOf(doc, runner);
    if move.change.LaneWrite? {
      assert move.change.record.evidence == EvidenceAt(doc, move.change.lane);
    }
  }

  lemma MoveIsEvidenceMove(doc: Doc, runner: Runner)
    requires WellStored(doc) && Fresh(doc, runner) && RunnerFits(runner)
    ensures EvidenceMove(doc, runner, MoveOf(doc, runner).change)
  {
    if !runner.Writer? { OtherEvidenceMove(doc, runner); }
    else if runner.call.ObserveLane? { ObservationMove(doc, runner); }
    else if runner.call.BindGeneration? || runner.call.BindInitial? { BinderEvidenceMove(doc, runner); }
    else { WriterEvidenceMove(doc, runner); }
  }

  // ---------------------------------------------------------------------------
  // Steps of a run
  // ---------------------------------------------------------------------------

  /** The action is an observation that revokes the binding of the lane. */
  ghost predicate RevocationStep(s: System, action: Action, lane: LaneId)
    requires Enabled(s, action)
  {
    action.Step? && RevokesLane(s.doc, s.slots[action.id].runner, lane, EvidenceAt(Perform(s, action).doc, lane))
  }

  lemma BindingMoved(s: System, id: RunnerId, move: Move, lane: LaneId)
    requires id in s.slots && EvidenceMove(s.doc, s.slots[id].runner, move.change) && WellStored(s.doc) && ProperChange(move.change)
    requires Numbered(EvidenceAt(s.doc, lane))
    ensures
      var was, now := EvidenceAt(s.doc, lane), EvidenceAt(Moved(s, id, move).doc, lane);
      && Numbered(now)
      && (SameBinding(was, now) || NextBinding(was, now) || RevokesLane(s.doc, s.slots[id].runner, lane, now))
      && (!ObservesLane(s.slots[id].runner, lane) && now.generation == was.generation ==>
            now.previousFingerprint == was.previousFingerprint)
  {
  }

  /** In every reachable state every lane is numbered exactly when it is bound. */
  lemma {:induction false} AlwaysNumbered(run: seq<Action>, lane: LaneId)
    requires Legal(run)
    ensures Numbered(EvidenceAt(After(run).doc, lane))
  {
    if run != [] {
      var init, last := run[..|run| - 1], run[|run| - 1];
      AlwaysNumbered(init, lane);
      AlwaysSound(init);
      if last.Step? {
        var s := After(init);
        MoveIsFresh(s.doc, s.slots[last.id].runner);
        MoveIsEvidenceMove(s.doc, s.slots[last.id].runner);
        BindingMoved(s, last.id, MoveOf(s.doc, s.slots[last.id].runner), lane);
      }
    }
  }

  /** One action leaves a lane's binding alone, binds the next generation, or is an observation that
      revokes a legacy adoption; nothing else lowers a generation. */
  lemma BindingStep(run: seq<Action>, action: Action, lane: LaneId)
    requires Legal(run) && Enabled(After(run), action)
    ensures
      var was, now := EvidenceAt(After(run).doc, lane), EvidenceAt(Perform(After(run), action).doc, lane);
      && (SameBinding(was, now) || NextBinding(was, now) || RevocationStep(After(run), action, lane))
      && (action.Step? && !ObservesLane(After(run).slots[action.id].runner, lane) && now.generation == was.generation ==>
            now.previousFingerprint == was.previousFingerprint)
  {
    AlwaysSound(run);
    AlwaysNumbered(run, lane);
    var s := After(run);
    if action.Step? {
      MoveIsFresh(s.doc, s.slots[action.id].runner);
      MoveIsEvidenceMove(s.doc, s.slots[action.id].runner);
      BindingMoved(s, action.id, MoveOf(s.doc, s.slots[action.id].runner), lane);
    }
  }

  // ---------------------------------------------------------------------------
  // The chain
  // ---------------------------------------------------------------------------

  /** No observation from action `i` on revoked the binding of the lane. */
  ghost predicate NotRevokedSince(run: seq<Action>, i: nat, lane: LaneId)
    requires Legal(run)
  {
    |run| <= i
    || (NotRevokedSince(run[..|run| - 1], i, lane) && !RevocationStep(After(run[..|run| - 1]), run[|run| - 1], lane))
  }

  /** How the binding of a lane may have grown. */
  predicate Grown(was: Evidence, now: Evidence) {
    && was.generation <= now.generation
    && (was.generation == now.generation ==> was.fingerprint == now.fingerprint)
    && (0 < was.generation && now.generation == was.generation + 1 ==>
          now.previousFingerprint == was.fingerprint || now.previousFingerprint == now.fingerprint)
  }

  /** Over any stretch of any run without a revocation, whatever else interferes: the generation never
      decreases, the fingerprint bound to a generation never changes, and the predecessor recorded with
      a generation is the one bound to the generation before, until an observation replaces it by the
      lane's own. */
  lemma {:induction false} GenerationsFormAChain(run: seq<Action>, i: nat, lane: LaneId)
    requires Legal(run) && i <= |run|
    ensures Legal(run[..i])
    ensures NotRevokedSince(run, i, lane) ==>
      Grown(EvidenceAt(After(run[..i]).doc, lane), EvidenceAt(After(run).doc, lane))
  {
    if i == |run| {
      assert run[..i] == run;
    } else {
      var init := run[..|run| - 1];
      assert init[..i] == run[..i];
      GenerationsFormAChain(init, i, lane);
      BindingStep(init, run[|run| - 1], lane);
    }
  }

  /** No passive observation of the lane is started in the run. */
  predicate Unobserved(run: seq<Action>, lane: LaneId) {
    forall i :: 0 <= i < |run| && run[i].Spawn? ==> !ObservesLane(run[i].runner, lane)
  }

  lemma {:induction false} NobodyObserves(run: seq<Action>, lane: LaneId, id: RunnerId)
    requires Legal(run) && Unobserved(run, lane) && id in After(run).slots
    ensures !ObservesLane(After(run).slots[id].runner, lane)
  {
    var init, last := run[..|run| - 1], run[|run| - 1];
    if id in After(init).slots {
      NobodyObserves(init, lane, id);
    }
  }

  /** On a lane nobody observes, the predecessor stays the one bound before. */
  lemma {:induction false} PredecessorIsRemembered(run: seq<Action>, i: nat, lane: LaneId)
    requires Legal(run) && i <= |run| && Unobserved(run, lane)
    ensures Legal(run[..i]) && NotRevokedSince(run, i, lane)
    ensures
      var was, now := EvidenceAt(After(run[..i]).doc, lane), EvidenceAt(After(run).doc, lane);
      && Grown(was, now)
      && (was.generation == now.generation ==> now.previousFingerprint == was.previousFingerprint)
      && (0 < was.generation && now.generation == was.generation + 1 ==> now.previousFingerprint == was.fingerprint)
  {
    if i == |run| {
      assert run[..i] == run;
    } else {
      var init, last := run[..|run| - 1], run[|run| - 1];
      assert init[..i] == run[..i];
      PredecessorIsRemembered(init, i, lane);
      BindingStep(init, last, lane);
      if last.Step? { NobodyObserves(init, lane, last.id); }
    }
  }

  /** No generation is skipped once one is bound: every value between two reached ones is reached. */
  lemma {:induction false} NoGenerationIsSkipped(run: seq<Action>, i: nat, lane: LaneId, g: nat) returns (j: nat)
    requires Legal(run) && i <= |run| && NotRevokedSince(run, i, lane)
    requires Legal(run[..i]) && 0 < EvidenceAt(After(run[..i]).doc, lane).generation <= g
    requires g <= EvidenceAt(After(run).doc, lane).generation
    ensures i <= j <= |run| && Legal(run[..j])
    ensures EvidenceAt(After(run[..j]).doc, lane).generation == g
  {
    if EvidenceAt(After(run).doc, lane).generation == g {
      j := |run|;
      assert run[..j] == run;
    } else {
      assert run[..|run|] == run;
      var init := run[..|run| - 1];
      assert init[..i] == run[..i];
      BindingStep(init, run[|run| - 1], lane);
      GenerationsFormAChain(init, i, lane);
      j := NoGenerationIsSkipped(init, i, lane, g);
      assert init[..j] == run[..j];
    }
  }

  // ---------------------------------------------------------------------------
  // Observations made from listings
  // ---------------------------------------------------------------------------

  /** Every observation in the run is what matching makes of some listing. */
  ghost predicate ObservedFromListings(run: seq<Action>) {
    forall i :: 0 <= i < |run| && run[i].Spawn? && run[i].runner.Writer? && run[i].runner.call.ObserveLane? ==>
      exists look: Look :: run[i].runner.call.observation == Observed(look.sessions, look.policy, look.repository)
  }

  lemma ListingsOfPrefix(run: seq<Action>)
    requires ObservedFromListings(run) && run != []
    ensures ObservedFromListings(run[..|run| - 1])
  {
    var init := run[..|run| - 1];
    forall i | 0 <= i < |init| && init[i].Spawn? && init[i].runner.Writer? && init[i].runner.call.ObserveLane?
      ensures exists look: Look :: init[i].runner.call.observation == Observed(look.sessions, look.policy, look.repository)
    {
      assert run[i] == init[i];
    }
  }

  lemma {:induction false} ObserversAreGenuine(run: seq<Action>, id: RunnerId)
    requires Legal(run) && ObservedFromListings(run) && id in After(run).slots
    requires After(run).slots[id].runner.Writer? && After(run).slots[id].runner.call.ObserveLane?
    ensures Genuine(After(run).slots[id].runner.call.observation)
  {
    var init, last := run[..|run| - 1], run[|run| - 1];
    if id in After(init).slots {
      ListingsOfPrefix(run);
      ObserversAreGenuine(init, id);
    } else {
      assert last == run[|run| - 1] && last.Spawn?;
      var look: Look :| last.runner.call.observation == Observed(look.sessions, look.policy, look.repository);
      ListingsAreGenuine(look);
    }
  }

  /** An adoption knows a fingerprint. */
  predicate Rooted(e: Evidence) {
    e.reason == Some(InitialAdoption) ==> !NoneKnown(e.known)
  }

  lemma RootedMoved(s: System, id: RunnerId, lane: LaneId)
    requires id in s.slots && Sound(s) && Rooted(EvidenceAt(s.doc, lane))
    requires RunnerFits(s.slots[id].runner)
    requires ObservesLane(s.slots[id].runner, lane) ==> Genuine(s.slots[id].runner.call.observation)
    ensures Rooted(EvidenceAt(Moved(s, id, MoveOf(s.doc, s.slots[id].runner)).doc, lane))
  {
    var runner := s.slots[id].runner;
    MoveIsFresh(s.doc, runner);
    if ObservesLane(runner, lane) {
      ObservedStaysRooted(s.doc, runner);
    } else {
      MoveIsEvidenceMove(s.doc, runner);
    }
  }

  lemma ObservedStaysRooted(doc: Doc, runner: Runner)
    requires WellStored(doc) && Fresh(doc, runner) && runner.Writer? && runner.call.ObserveLane?
    requires Genuine(runner.call.observation)
    ensures MoveOf(doc, runner).change.LaneWrite? ==> Rooted(MoveOf(doc, runner).change.record.evidence)
  {
  }

  lemma {:induction false} AlwaysRooted(run: seq<Action>, lane: LaneId)
    requires Legal(run) && ObservedFromListings(run)
    ensures Rooted(EvidenceAt(After(run).doc, lane))
  {
    if run != [] {
      var init, last := run[..|run| - 1], run[|run| - 1];
      ListingsOfPrefix(run);
      AlwaysRooted(init, lane);
      AlwaysSound(init);
      if last.Step? {
        var runner := After(init).slots[last.id].runner;
        if ObservesLane(runner, lane) { ObserversAreGenuine(init, last.id); }
        RootedMoved(After(init), last.id, lane);
      }
    }
  }

  /** In runs whose observations all come from listings no binding is ever revoked. */
  lemma {:induction false} ListingsNeverRevoke(run: seq<Action>, i: nat, lane: LaneId)
    requires Legal(run) && ObservedFromListings(run)
    ensures NotRevokedSince(run, i, lane)
  {
    if |run| > i {
      var init, last := run[..|run| - 1], run[|run| - 1];
      ListingsOfPrefix(run);
      ListingsNeverRevoke(init, i, lane);
      AlwaysRooted(init, lane);
    }
  }

  /** So over every stretch of such a run, binders and observers interleaved as they like, a lane's
      bindings form a chain. */
  lemma ListedBindingsFormAChain(run: seq<Action>, i: nat, lane: LaneId)
    requires Legal(run) && i <= |run| && ObservedFromListings(run)
    ensures Legal(run[..i])
    ensures Grown(EvidenceAt(After(run[..i]).doc, lane), EvidenceAt(After(run).doc, lane))
  {
    ListingsNeverRevoke(run, i, lane);
    GenerationsFormAChain(run, i, lane);
  }
}
