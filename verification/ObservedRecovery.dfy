/** The recovery of a first generation with passive observations in between: an observation that proves
    no session takes the pending mark away, and the receipt of the operation stands in for it. */
module ObservedRecovery {
  import opened Wrappers
  import opened Records
  import opened StateStore
  import opened ClaimProtocol
  import opened LaneCalls
  import opened LaneCallExecution
  import opened PassiveObservation
  import opened ObservationEffects
  import opened GenerationProtocol
  import opened GenerationConvergence
  import opened InitialRecovery

  /** What may happen to a lane between the failure and its recovery. */
  datatype RecoveryStep =
    | Attempted(attempt: InitialAttempt)
    | Looked(observation: Observation, crash: bool)

  const UNDISTURBED := Interference([], [], [], [])

  function LookCall(l: Lineage, o: Observation): LaneCall {
    ObserveLane(l.laneId, l.project, l.route, l.workstreamId, o)
  }

  function Take(doc: Doc, l: Lineage, step: RecoveryStep): Doc {
    match step
    case Attempted(a) => Try(doc, l, a).0
    case Looked(o, crash) => ObservePreserving(doc, LookCall(l, o), UNDISTURBED, crash).0
  }

  function TakeAll(doc: Doc, l: Lineage, steps: seq<RecoveryStep>): Doc {
    if steps == [] then doc else Take(TakeAll(doc, l, steps[..|steps| - 1]), l, steps[|steps| - 1])
  }

  /** Attempts list faithfully, and observations prove no session. */
  ghost predicate Fitting(step: RecoveryStep, t: PendingTransition, created: string) {
    match step
    case Attempted(a) => Faithful(a, t, created)
    case Looked(o, _) => o.fingerprint.None?
  }

  // ---------------------------------------------------------------------------
  // One observation
  // ---------------------------------------------------------------------------

  /** An undisturbed observation rebuilds the evidence, may put a pending transition back, and touches
      nothing but that lane. */
  lemma LookChangesLaneOnly(doc: Doc, l: Lineage, o: Observation, crash: bool)
    requires ReadLane(doc, l.laneId).Found?
    ensures
      var after, r := Take(doc, l, Looked(o, crash)), ReadLane(doc, l.laneId).record;
      && ReadLane(after, l.laneId).Found?
      && ReadLane(after, l.laneId).record == Observe(r, o).(
           evidence := Observe(r, o).evidence.(pending := EvidenceAt(after, l.laneId).pending))
      && (l.budgetLane != l.laneId ==> ReadLane(after, l.budgetLane) == ReadLane(doc, l.budgetLane))
      && after.operations == doc.operations
  {
    var call, r := LookCall(l, o), ReadLane(doc, l.laneId).record;
    assert Applied(doc, []) == doc && BatchAt([[]], 0) == [];
    var observed := CallOutcome(doc, call, [[]]).0;
    assert observed == WriteLane(doc, l.laneId, Observe(r, o));
    if r.evidence.pending.Some? && !crash {
      assert Applied(observed, []) == observed;
      AloneEndsAsPlanned(observed, RestoreCall(r));
    }
  }

  // ---------------------------------------------------------------------------
  // Where an observed first creation can stand
  // ---------------------------------------------------------------------------

  ghost predicate CountedAtMostOnce(start: Doc, doc: Doc, l: Lineage, t: PendingTransition, key: OperationKey) {
    Count(doc, l) == Count(start, l) || Count(doc, l) == AccountedOnce(Count(start, l), key, t)
  }

  /** Unbound, with the pending mark observed away. */
  ghost predicate Unmarked(start: Doc, doc: Doc, l: Lineage, t: PendingTransition, key: OperationKey) {
    && OnTheWay(start, doc, l, key) && AwaitsBinding(doc, l, t, key)
    && EvidenceAt(doc, l.laneId).pendingInitial == None && CountedAtMostOnce(start, doc, l, t, key)
  }

  /** Bound to some session. */
  ghost predicate Taken(start: Doc, doc: Doc, l: Lineage, t: PendingTransition, key: OperationKey) {
    && OnTheWay(start, doc, l, key)
    && (EvidenceAt(doc, l.laneId).generation != 0 || EvidenceAt(doc, l.laneId).fingerprint.Some?)
    && EvidenceAt(doc, l.laneId).pendingInitial == None && CountedAtMostOnce(start, doc, l, t, key)
  }

  ghost predicate MarkIsGone(start: Doc, doc: Doc, l: Lineage, t: PendingTransition, key: OperationKey) {
    Unmarked(start, doc, l, t, key) || Taken(start, doc, l, t, key)
  }

  ghost predicate Stands(start: Doc, doc: Doc, l: Lineage, t: PendingTransition, key: OperationKey) {
    Untouched(start, doc, l, key) || MarkIsGone(start, doc, l, t, key)
  }

  lemma StillAwaits(start: Doc, doc: Doc, l: Lineage, t: PendingTransition, key: OperationKey)
    requires AwaitsBinding(start, l, t, key) && OnTheWay(start, doc, l, key)
    requires EvidenceAt(doc, l.laneId).generation == 0 && EvidenceAt(doc, l.laneId).fingerprint == None
    ensures AwaitsBinding(doc, l, t, key)
  {
  }

  lemma ObservedUnbound(r: LaneRecord, o: Observation)
    requires o.fingerprint.None?
    ensures Observe(r, o).evidence.pendingInitial == None && Observe(r, o).operationKey == r.operationKey
    ensures Observe(r, o).unknownWrite == r.unknownWrite
  {
  }

  lemma LaneOnlyStaysOnTheWay(start: Doc, doc: Doc, after: Doc, l: Lineage, t: PendingTransition, key: OperationKey)
    requires OnTheWay(start, doc, l, key) && CountedAtMostOnce(start, doc, l, t, key)
    requires after.operations == doc.operations && ReadLane(after, l.budgetLane) == ReadLane(doc, l.budgetLane)
    requires ReadLane(after, l.laneId).Found?
    requires ReadLane(after, l.laneId).record.operationKey == ReadLane(doc, l.laneId).record.operationKey
    requires ReadLane(after, l.laneId).record.unknownWrite == ReadLane(doc, l.laneId).record.unknownWrite
    ensures OnTheWay(start, after, l, key) && CountedAtMostOnce(start, after, l, t, key)
  {
  }

  lemma LookUnmarks(start: Doc, doc: Doc, l: Lineage, t: PendingTransition, key: OperationKey, o: Observation, crash: bool)
    requires InitialCreated(start, l, t, key) && Stands(start, doc, l, t, key) && o.fingerprint.None?
    ensures MarkIsGone(start, Take(doc, l, Looked(o, crash)), l, t, key)
  {
    LookChangesLaneOnly(doc, l, o, crash);
    ObservedUnbound(ReadLane(doc, l.laneId).record, o);
    var after := Take(doc, l, Looked(o, crash));
    LaneOnlyStaysOnTheWay(start, doc, after, l, t, key);
    if EvidenceAt(after, l.laneId).generation == 0 && EvidenceAt(after, l.laneId).fingerprint == None {
      StillAwaits(start, after, l, t, key);
    }
  }

  // ---------------------------------------------------------------------------
  // Attempts
  // ---------------------------------------------------------------------------

  /** Without the mark, or bound, a reconciliation from the mark refuses and changes nothing. */
  lemma NothingFromPending(doc: Doc, l: Lineage, inventory: seq<Session>, faults: InitialReconcileFaults)
    requires EvidenceAt(doc, l.laneId).pendingInitial == None
    ensures Try(doc, l, FromPending(inventory, faults)) == (doc, ReconcileRaised)
  {
  }

  lemma NothingFromTaken(start: Doc, doc: Doc, l: Lineage, t: PendingTransition, key: OperationKey, a: InitialAttempt)
    requires Taken(start, doc, l, t, key)
    ensures Try(doc, l, a) == (doc, ReconcileRaised)
  {
  }

  lemma AccountedOnceIsEnough(a: Accounting, key: OperationKey, t: PendingTransition)
    ensures AccountedOnce(AccountedOnce(a, key, t), key, t) == AccountedOnce(a, key, t)
  {
    WindowedKeepsNewest(a.operations, key);
  }

  /** An attempt on an unmarked lane: from the mark it changes nothing, from the receipt it does what it
      would have done to the pending lane. */
  lemma UnmarkedTry(start: Doc, doc: Doc, l: Lineage, t: PendingTransition, created: string, key: OperationKey, a: InitialAttempt)
    requires Unmarked(start, doc, l, t, key) && Faithful(a, t, created)
    ensures
      var (after, decision) := Try(doc, l, a);
      && MarkIsGone(start, after, l, t, key)
      && (decision.Reconciled? ==> InitiallySettled(doc, after, l, t, SessionFingerprint(created), key))
  {
    if a.FromPending? {
      NothingFromPending(doc, l, a.inventory, a.faults);
    } else {
      assert Untouched(doc, doc, l, key);
      StaleAdopts(doc, doc, l, t, key, a);
      AdoptProgress(doc, doc, l, t, created, key, a.inventory, a.faults);
      ProgressFromUnmarked(start, doc, Adopt(doc, l, t, key, a.inventory, a.faults).0, l, t, SessionFingerprint(created), key);
    }
  }

  lemma ProgressFromUnmarked(start: Doc, doc: Doc, after: Doc, l: Lineage, t: PendingTransition, fp: Fingerprint, key: OperationKey)
    requires Unmarked(start, doc, l, t, key) && InitialProgress(doc, after, l, t, fp, key)
    ensures MarkIsGone(start, after, l, t, key)
  {
    AccountedOnceIsEnough(Count(start, l), key, t);
    if Untouched(doc, after, l, key) {
      StillAwaits(doc, after, l, t, key);
    }
  }

  lemma StepStands(start: Doc, doc: Doc, l: Lineage, t: PendingTransition, created: string, key: OperationKey, step: RecoveryStep)
    requires InitialCreated(start, l, t, key) && Stands(start, doc, l, t, key) && Fitting(step, t, created)
    ensures Stands(start, Take(doc, l, step), l, t, key)
    ensures step.Looked? || MarkIsGone(start, doc, l, t, key) ==> MarkIsGone(start, Take(doc, l, step), l, t, key)
  {
    match step
    case Looked(o, crash) => LookUnmarks(start, doc, l, t, key, o, crash);
    case Attempted(a) =>
      if Untouched(start, doc, l, key) {
        TryProgress(start, doc, l, t, created, key, a);
        GoneIsNotUntouched(start, doc, l, t, key);
      } else if Unmarked(start, doc, l, t, key) {
        UnmarkedTry(start, doc, l, t, created, key, a);
      } else {
        NothingFromTaken(start, doc, l, t, key, a);
      }
  }

  predicate SomeLook(steps: seq<RecoveryStep>) {
    exists i :: 0 <= i < |steps| && steps[i].Looked?
  }

  lemma {:induction false} StepsStand(start: Doc, doc: Doc, l: Lineage, t: PendingTransition, created: string, key: OperationKey,
                                      steps: seq<RecoveryStep>)
    requires InitialCreated(start, l, t, key) && Stands(start, doc, l, t, key)
    requires forall i :: 0 <= i < |steps| ==> Fitting(steps[i], t, created)
    ensures Stands(start, TakeAll(doc, l, steps), l, t, key)
    ensures SomeLook(steps) ==> MarkIsGone(start, TakeAll(doc, l, steps), l, t, key)
  {
    if steps != [] {
      var init, last := steps[..|steps| - 1], steps[|steps| - 1];
      StepsStand(start, doc, l, t, created, key, init);
      StepStands(start, TakeAll(doc, l, init), l, t, created, key, last);
      LookIsLastOrBefore(steps);
    }
  }

  lemma LookIsLastOrBefore(steps: seq<RecoveryStep>)
    requires steps != []
    ensures SomeLook(steps) ==> steps[|steps| - 1].Looked? || SomeLook(steps[..|steps| - 1])
  {
    if i :| 0 <= i < |steps| && steps[i].Looked? && i < |steps| - 1 {
      assert steps[..|steps| - 1][i].Looked?;
    }
  }

  lemma GoneIsNotUntouched(start: Doc, doc: Doc, l: Lineage, t: PendingTransition, key: OperationKey)
    requires InitialCreated(start, l, t, key) && Untouched(start, doc, l, key)
    ensures !MarkIsGone(start, doc, l, t, key)
  {
  }

  // ---------------------------------------------------------------------------
  // The theorems
  // ---------------------------------------------------------------------------

  /** Binding, UNKNOWN mark, operation state and count agree. The policy an observation records, and a
      pending transition of a later generation, are not part of the outcome. */
  ghost predicate SameBindingOutcome(a: Doc, b: Doc, l: Lineage, key: OperationKey) {
    var x, y := EvidenceAt(a, l.laneId), EvidenceAt(b, l.laneId);
    && x == y.(pending := x.pending, accounting := x.accounting, reason := x.reason, known := x.known)
    && ReadLane(a, l.laneId).Found? && ReadLane(b, l.laneId).Found?
    && ReadLane(a, l.laneId).record.unknownWrite == ReadLane(b, l.laneId).record.unknownWrite
    && Count(a, l) == Count(b, l)
    && ReadOperation(a, key).Found? && ReadOperation(b, key).Found?
    && ReadOperation(a, key).record.state == ReadOperation(b, key).record.state
  }

  lemma ObservedRecoverySettles(start: Doc, failed: Doc, free: Doc, l: Lineage, t: PendingTransition, created: string,
                                key: OperationKey, steps: seq<RecoveryStep>, last: InitialAttempt)
    requires InitialCreated(start, l, t, key) && Stands(start, failed, l, t, key)
    requires InitiallySettled(start, free, l, t, SessionFingerprint(created), key)
    requires forall i :: 0 <= i < |steps| ==> Fitting(steps[i], t, created)
    requires Faithful(last, t, created) && Try(TakeAll(failed, l, steps), l, last).1.Reconciled?
    ensures SameBindingOutcome(Try(TakeAll(failed, l, steps), l, last).0, free, l, key)
  {
    StepsStand(start, failed, l, t, created, key, steps);
    LastAttemptSettles(start, TakeAll(failed, l, steps), free, l, t, created, key, last);
  }

  lemma LastAttemptSettles(start: Doc, doc: Doc, free: Doc, l: Lineage, t: PendingTransition, created: string,
                           key: OperationKey, last: InitialAttempt)
    requires InitialCreated(start, l, t, key) && Stands(start, doc, l, t, key)
    requires InitiallySettled(start, free, l, t, SessionFingerprint(created), key)
    requires Faithful(last, t, created) && Try(doc, l, last).1.Reconciled?
    ensures SameBindingOutcome(Try(doc, l, last).0, free, l, key)
  {
    if Untouched(start, doc, l, key) {
      TryProgress(start, doc, l, t, created, key, last);
    } else if Unmarked(start, doc, l, t, key) {
      UnmarkedTry(start, doc, l, t, created, key, last);
      AccountedOnceIsEnough(Count(start, l), key, t);
    } else {
      NothingFromTaken(start, doc, l, t, key, last);
    }
  }

  /** Any faults after a confirmed first creation, any reconciliations and observations in any order,
      then a reconciliation that succeeds: binding, marks, operation state and count are those of the
      run without faults. */
  lemma ObservedFaultsConverge(start: Doc, l: Lineage, t: PendingTransition, created: string, key: OperationKey,
                               faults: InitialFaults, unknown: ResolveFault, steps: seq<RecoveryStep>, last: InitialAttempt)
    requires InitialCreated(start, l, t, key) && Untouched(start, start, l, key)
    requires ReadOperation(start, key).record.state == Confirmed
    requires forall i :: 0 <= i < |steps| ==> Fitting(steps[i], t, created)
    requires Faithful(last, t, created)
    requires
      var failed := FinishInitial(start, l, t, SessionFingerprint(created), key, faults, unknown).0;
      Try(TakeAll(failed, l, steps), l, last).1.Reconciled?
    ensures
      var fp := SessionFingerprint(created);
      var failed := FinishInitial(start, l, t, fp, key, faults, unknown).0;
      var faultFree := FinishInitial(start, l, t, fp, key, NO_INITIAL_FAULTS, ResolveFine);
      faultFree.1 && SameBindingOutcome(Try(TakeAll(failed, l, steps), l, last).0, faultFree.0, l, key)
  {
    var fp := SessionFingerprint(created);
    FinishProgressesFrom(start, start, l, t, fp, key, faults, unknown);
    FaultFreeSettles(start, l, t, fp, key);
    ObservedRecoverySettles(start, FinishInitial(start, l, t, fp, key, faults, unknown).0,
                            FinishInitial(start, l, t, fp, key, NO_INITIAL_FAULTS, ResolveFine).0, l, t, created, key, steps, last);
  }

  /** The same after an ambiguous first create. */
  lemma ObservedAmbiguousConverges(start: Doc, l: Lineage, t: PendingTransition, created: string, key: OperationKey,
                                   unknown: ResolveFault, steps: seq<RecoveryStep>, last: InitialAttempt)
    requires InitialCreated(start, l, t, key) && Untouched(start, start, l, key)
    requires ReadOperation(start, key).record.state == InFlight
    requires forall i :: 0 <= i < |steps| ==> Fitting(steps[i], t, created)
    requires Faithful(last, t, created)
    requires
      var ambiguous := SufferResolve(start, l.laneId, key, RecordUnknown(map[]), unknown).0;
      Try(TakeAll(ambiguous, l, steps), l, last).1.Reconciled?
    ensures
      var ambiguous := SufferResolve(start, l.laneId, key, RecordUnknown(map[]), unknown).0;
      var confirmed := SufferResolve(start, l.laneId, key, ReadBack(Some(true), map[]), ResolveFine).0;
      var faultFree := FinishInitial(confirmed, l, t, SessionFingerprint(created), key, NO_INITIAL_FAULTS, ResolveFine);
      faultFree.1 && SameBindingOutcome(Try(TakeAll(ambiguous, l, steps), l, last).0, faultFree.0, l, key)
  {
    var fp := SessionFingerprint(created);
    ResolveStaysOnTheWay(start, start, l, key, RecordUnknown(map[]), unknown);
    ConfirmedFirstSettles(start, l, t, fp, key);
    var confirmed := SufferResolve(start, l.laneId, key, ReadBack(Some(true), map[]), ResolveFine).0;
    ObservedRecoverySettles(start, SufferResolve(start, l.laneId, key, RecordUnknown(map[]), unknown).0,
                            FinishInitial(confirmed, l, t, fp, key, NO_INITIAL_FAULTS, ResolveFine).0, l, t, created, key, steps, last);
  }

  /** Once one observation took place, no reconciliation from the pending mark does anything again,
      whatever it lists and whatever else was tried or observed. */
  lemma ObservedMarkIsGone(start: Doc, doc: Doc, l: Lineage, t: PendingTransition, created: string, key: OperationKey,
                           steps: seq<RecoveryStep>, inventory: seq<Session>, faults: InitialReconcileFaults)
    requires InitialCreated(start, l, t, key) && Stands(start, doc, l, t, key) && SomeLook(steps)
    requires forall i :: 0 <= i < |steps| ==> Fitting(steps[i], t, created)
    ensures
      var after := TakeAll(doc, l, steps);
      Try(after, l, FromPending(inventory, faults)) == (after, ReconcileRaised)
  {
    StepsStand(start, doc, l, t, created, key, steps);
    NothingFromPending(TakeAll(doc, l, steps), l, inventory, faults);
  }

  /** And the receipt recovers the lane exactly when it passes the caller's checks, the lease for it is
      over, the caller is authorised and the listing shows one session. */
  lemma ReceiptRecoversExactlyWhen(start: Doc, doc: Doc, l: Lineage, t: PendingTransition, created: string, key: OperationKey,
                                   caller: StaleCaller, inventory: seq<Session>)
    requires Unmarked(start, doc, l, t, key) && caller.repository == t.repository && ShowsCreated(inventory, t, created)
    requires ReadOperation(doc, key).record.state in {InFlight, Unknown}
    ensures Try(doc, l, FromReceipt(caller, inventory, NO_INITIAL_RECONCILE_FAULTS)).1.Reconciled? <==>
      && RecordedTransition(ReadOperation(doc, key).record, caller).Some?
      && LeaseIsOver(doc, l.laneId, key, caller.now) && caller.authorized && |MatchesOf(inventory, t)| == 1
  {
    var op := ReadOperation(doc, key).record;
    assert StaleOperation(doc, l) == Some(op);
    if RecordedTransition(op, caller).Some? && !StillLeased(doc, l.laneId, key, caller.now) && caller.authorized {
      RecordedIsPending(op, t, caller);
      AdoptRecorded(doc, l, t, RecordedTransition(op, caller).value, key, inventory, NO_INITIAL_RECONCILE_FAULTS);
      ShownMatch(inventory, t, created);
      if |MatchesOf(inventory, t)| == 1 {
        AdoptSucceeds(doc, doc, l, t, created, key, inventory);
      }
    }
  }
}
