/** When reconciliation can succeed, the one failure it cannot get over, and the two operations as
    they run on a store object. */
module GenerationRecovery {
  import opened Wrappers
  import opened Records
  import opened StateStore
  import opened ClaimProtocol
  import opened ClaimExecution
  import opened LaneCalls
  import opened LaneCallExecution
  import opened GenerationProtocol
  import opened GenerationConvergence

  /** The next generation of the lane, or the very binding it already has. */
  predicate Bindable(e: Evidence, t: PendingTransition, fp: Fingerprint) {
    || (e.generation < t.nextGeneration && (e.generation == 0 || t.nextGeneration == e.generation + 1))
    || (&& e.generation == t.nextGeneration && e.fingerprint == Some(fp)
        && (e.transitionKey == None || e.transitionKey == Some(t.transitionKey)))
  }

  /** Two listed sessions may be the one of the transition. */
  ghost predicate TwoShown(inventory: seq<Session>, t: PendingTransition) {
    exists i, j :: 0 <= i < j < |inventory| && MayBeOf(inventory[i], t) && MayBeOf(inventory[j], t)
  }

  lemma SeveralMatchesAreShown(inventory: seq<Session>, t: PendingTransition)
    ensures |MatchesOf(inventory, t)| > 1 <==> TwoShown(inventory, t)
  {
    MatchCountIsShown(inventory, t);
    var positions := MatchesAreTheShown(inventory, t);
    if |positions| > 1 {
      assert positions[0] < positions[1] && MayBeOf(inventory[positions[0]], t) && MayBeOf(inventory[positions[1]], t);
    }
    if |positions| == 1 && TwoShown(inventory, t) {
      assert false;
    }
  }

  /** The lane waits for a generation: it is marked UNKNOWN, and the pending transition is complete. */
  predicate AwaitsGeneration(r: LaneRecord, key: OperationKey, t: PendingTransition) {
    && r.unknownWrite == Some(key) && r.evidence.pending == Some(t)
    && |t.repository| > 0 && |t.sourceName| > 0 && |t.startingBranch| > 0 && |t.marker| > 0
    && |t.transitionKey| > 0 && t.nextGeneration > 0
  }

  lemma PendingStateExactly(doc: Doc, lane: LaneId, key: OperationKey, t: PendingTransition)
    ensures PendingState(doc, lane) == Some((key, t)) <==>
      ReadLane(doc, lane).Found? && AwaitsGeneration(ReadLane(doc, lane).record, key, t)
  {
  }

  /** What a reconciliation of a waiting lane answers by what is listed: nothing yet if no listed session
      may be the one, a collision if two may, and otherwise it adopts that session or nothing. Only an
      adoption changes the document. */
  lemma ReconcileAnswersByListing(doc: Doc, l: Lineage, inventory: seq<Session>, faults: ReconcileFaults, key: OperationKey,
                                  t: PendingTransition)
    requires PendingState(doc, l.laneId) == Some((key, t))
    ensures
      var (after, decision) := Reconcile(doc, l, inventory, faults);
      && (decision == UnknownNotYetObserved <==> forall i :: 0 <= i < |inventory| ==> !MayBeOf(inventory[i], t))
      && (decision == AmbiguousDuplicate <==> TwoShown(inventory, t))
      && (decision.UnknownNotYetObserved? || decision.AmbiguousDuplicate? ==> after == doc)
      && (decision.Reconciled? ==>
            exists i :: OnlyShown(inventory, t, i) && decision.fingerprint == SessionFingerprint(inventory[i].name))
  {
    MatchCountIsShown(inventory, t);
    SeveralMatchesAreShown(inventory, t);
  }

  /** In particular a listing none of whose titles carries the marker adopts nothing. */
  lemma NothingAdoptedWithoutMarker(doc: Doc, l: Lineage, inventory: seq<Session>, faults: ReconcileFaults, key: OperationKey,
                                    t: PendingTransition)
    requires PendingState(doc, l.laneId) == Some((key, t))
    requires forall i :: 0 <= i < |inventory| ==> !CarriesMarker(inventory[i].title, t.marker)
    ensures Reconcile(doc, l, inventory, faults) == (doc, UnknownNotYetObserved)
  {
    ReconcileAnswersByListing(doc, l, inventory, faults, key, t);
  }

  /** What a caller can check before reconciling. */
  predicate Reconcilable(doc: Doc, l: Lineage, inventory: seq<Session>) {
    match PendingState(doc, l.laneId)
    case None => false
    case Some((key, t)) =>
      && |MatchesOf(inventory, t)| == 1
      && ReadOperation(doc, key).Found?
      && ReadOperation(doc, key).record.laneId == l.laneId
      && (ReadOperation(doc, key).record.state == InFlight || ReadOperation(doc, key).record.state == Unknown)
      && Bindable(EvidenceAt(doc, l.laneId), t, SessionFingerprint(MatchesOf(inventory, t)[0].name))
      && !ReadLane(doc, l.budgetLane).Corrupt?
  }

  lemma HandOffSucceedsExactlyWhen(doc: Doc, l: Lineage, t: PendingTransition, fp: Fingerprint, key: OperationKey)
    requires l.budgetLane != l.laneId && CompletePending(t)
    requires ReadLane(doc, l.laneId).Found? && EvidenceAt(doc, l.laneId).pending == Some(t)
    ensures HandOff(doc, l, t, fp, key, NO_FAULTS).1 <==>
      Bindable(EvidenceAt(doc, l.laneId), t, fp) && !ReadLane(doc, l.budgetLane).Corrupt?
  {
    AloneEndsAsPlanned(doc, BindCall(l, t, fp));
    var (bound, ok1) := Suffer(doc, BindCall(l, t, fp), Fine);
    assert ok1 <==> Bindable(EvidenceAt(doc, l.laneId), t, fp);
    if ok1 {
      assert ReadLane(bound, l.laneId).Found? && EvidenceAt(bound, l.laneId).pending == Some(t);
      assert ReadLane(bound, l.budgetLane) == ReadLane(doc, l.budgetLane);
      AccountThenClear(bound, l, t, key);
    }
  }

  lemma AccountThenClear(bound: Doc, l: Lineage, t: PendingTransition, key: OperationKey)
    requires l.budgetLane != l.laneId && CompletePending(t)
    requires ReadLane(bound, l.laneId).Found? && EvidenceAt(bound, l.laneId).pending == Some(t)
    ensures
      var (counted, ok) := Suffer(bound, AccountCall(l, t, key), Fine);
      && (ok <==> !ReadLane(bound, l.budgetLane).Corrupt?)
      && (ok ==> Suffer(counted, ClearCall(l, t), Fine).1)
  {
    AloneEndsAsPlanned(bound, AccountCall(l, t, key));
    var (counted, ok) := Suffer(bound, AccountCall(l, t, key), Fine);
    if ok {
      assert ReadLane(counted, l.laneId) == ReadLane(bound, l.laneId);
      AloneEndsAsPlanned(counted, ClearCall(l, t));
    }
  }

  /** Without faults a reconciliation succeeds exactly when the caller's check says so. */
  lemma ReconcileSucceedsExactlyWhen(doc: Doc, l: Lineage, inventory: seq<Session>)
    requires l.budgetLane != l.laneId
    ensures Reconcile(doc, l, inventory, NO_RECONCILE_FAULTS).1.Reconciled? <==> Reconcilable(doc, l, inventory)
  {
    match PendingState(doc, l.laneId)
    case None =>
    case Some((key, t)) =>
      if |MatchesOf(inventory, t)| == 1 {
        var fp := SessionFingerprint(MatchesOf(inventory, t)[0].name);
        ReadBackSucceedsExactlyWhen(doc, l, key);
        var (confirmed, ok) := SufferResolve(doc, l.laneId, key, ReadBack(Some(true), map[]), ResolveFine);
        if ok {
          HandOffSucceedsExactlyWhen(confirmed, l, t, fp, key);
        }
      }
  }

  /** A readback of an observed operation goes through exactly on the lane's own ambiguous operation. */
  lemma ReadBackSucceedsExactlyWhen(doc: Doc, l: Lineage, key: OperationKey)
    requires l.budgetLane != l.laneId && ReadLane(doc, l.laneId).Found?
    ensures
      var (confirmed, ok) := SufferResolve(doc, l.laneId, key, ReadBack(Some(true), map[]), ResolveFine);
      && (ok <==> ReadOperation(doc, key).Found? && ReadOperation(doc, key).record.laneId == l.laneId
                  && ReadOperation(doc, key).record.state in {InFlight, Unknown})
      && ReadLane(confirmed, l.laneId).Found? && EvidenceAt(confirmed, l.laneId) == EvidenceAt(doc, l.laneId)
      && ReadLane(confirmed, l.budgetLane) == ReadLane(doc, l.budgetLane)
  {
    if ReadOperation(doc, key).Found? && ReadOperation(doc, key).record.laneId == l.laneId {
      ResolveAlone(doc, l.laneId, key, ReadBack(Some(true), map[]));
    } else {
      ResolveFailsOnForeignOperation(doc, l.laneId, key, ReadBack(Some(true), map[]));
    }
  }

  /** The state a failed hand-off leaves when its UNKNOWN was recorded. */
  ghost predicate FailedWithUnknown(start: Doc, failed: Doc, l: Lineage, t: PendingTransition, fp: Fingerprint, key: OperationKey) {
    && Progress(start, failed, l, t, fp, key)
    && ReadLane(failed, l.laneId).record.unknownWrite == Some(key)
    && ReadOperation(failed, key).record.state == Unknown
  }

  lemma FailedHandOffIsUnknown(start: Doc, l: Lineage, t: PendingTransition, fp: Fingerprint, key: OperationKey, faults: HandOffFaults)
    requires Created(start, l, t, key) && ReadLane(start, l.laneId).record.unknownWrite == None
    requires !HandOff(start, l, t, fp, key, faults).1
    ensures FailedWithUnknown(start, FinishCreate(start, l, t, fp, key, faults, ResolveFine).0, l, t, fp, key)
  {
    HandOffProgress(start, start, l, t, fp, key, faults);
    var after := HandOff(start, l, t, fp, key, faults).0;
    ResolveAlone(after, l.laneId, key, RecordUnknown(map[]));
    ResolveIsContained(after, l, key, RecordUnknown(map[]), ResolveFine);
    ResolveProgress(start, after, SufferResolve(after, l.laneId, key, RecordUnknown(map[]), ResolveFine).0, l, t, fp, key);
  }

  lemma PendingFailureIsReconcilable(start: Doc, failed: Doc, l: Lineage, t: PendingTransition, created: string, key: OperationKey,
                                     inventory: seq<Session>)
    requires Created(start, l, t, key) && FailedWithUnknown(start, failed, l, t, SessionFingerprint(created), key)
    requires |MatchesOf(inventory, t)| == 1 && MatchesOf(inventory, t)[0].name == created
    ensures Reconcilable(failed, l, inventory) <==> EvidenceAt(failed, l.laneId).pending == Some(t)
  {
  }

  /** A hand-off that failed after a confirmed create and recorded UNKNOWN is recovered by a listing of
      exactly the created session if and only if the pending mark is still there. */
  lemma HandOffRecoversExactlyWhenPending(start: Doc, l: Lineage, t: PendingTransition, created: string, key: OperationKey,
                                          faults: HandOffFaults, inventory: seq<Session>)
    requires Created(start, l, t, key) && ReadLane(start, l.laneId).record.unknownWrite == None
    requires !HandOff(start, l, t, SessionFingerprint(created), key, faults).1
    requires |MatchesOf(inventory, t)| == 1 && MatchesOf(inventory, t)[0].name == created
    ensures
      var failed := FinishCreate(start, l, t, SessionFingerprint(created), key, faults, ResolveFine).0;
      Reconcile(failed, l, inventory, NO_RECONCILE_FAULTS).1.Reconciled? <==> EvidenceAt(failed, l.laneId).pending == Some(t)
  {
    var fp := SessionFingerprint(created);
    var failed := FinishCreate(start, l, t, fp, key, faults, ResolveFine).0;
    FailedHandOffIsUnknown(start, l, t, fp, key, faults);
    PendingFailureIsReconcilable(start, failed, l, t, created, key, inventory);
    ReconcileSucceedsExactlyWhen(failed, l, inventory);
  }

  /** A failed hand-off has lost the pending mark in one case only: binding and accounting went through,
      and the clearing took effect before it failed. */
  lemma MarkIsGoneExactlyWhenClearTookEffect(start: Doc, l: Lineage, t: PendingTransition, fp: Fingerprint, key: OperationKey,
                                             faults: HandOffFaults)
    requires Created(start, l, t, key) && ReadLane(start, l.laneId).record.unknownWrite == None
    requires !HandOff(start, l, t, fp, key, faults).1
    ensures EvidenceAt(HandOff(start, l, t, fp, key, faults).0, l.laneId).pending == None
       <==> faults == HandOffFaults(Fine, Fine, AnswerLost)
  {
    BindAlone(start, start, l, t, fp, key);
    if faults.bind == Fine {
      MarkIsGoneAfterAccounting(start, Suffer(start, BindCall(l, t, fp), Fine).0, l, t, fp, key, faults);
    }
  }

  lemma MarkIsGoneAfterAccounting(start: Doc, bound: Doc, l: Lineage, t: PendingTransition, fp: Fingerprint, key: OperationKey,
                                  faults: HandOffFaults)
    requires Created(start, l, t, key) && Progress(start, bound, l, t, fp, key)
    requires EvidenceAt(bound, l.laneId).pending == Some(t) && !AccountAndClear(bound, l, t, key, faults).1
    ensures EvidenceAt(AccountAndClear(bound, l, t, key, faults).0, l.laneId).pending == None
       <==> faults.account == Fine && faults.clear == AnswerLost
  {
    AccountAlone(start, bound, l, t, fp, key);
    if faults.account == Fine {
      ClearAlone(start, Suffer(bound, AccountCall(l, t, key), Fine).0, l, t, fp, key);
    }
  }

  /** So a failed hand-off that recorded UNKNOWN can be reconciled under every fault but that one. */
  lemma HandOffRecoversExactlyUnlessClearTookEffect(start: Doc, l: Lineage, t: PendingTransition, created: string,
                                                    key: OperationKey, faults: HandOffFaults, inventory: seq<Session>)
    requires Created(start, l, t, key) && ReadLane(start, l.laneId).record.unknownWrite == None
    requires !HandOff(start, l, t, SessionFingerprint(created), key, faults).1
    requires |MatchesOf(inventory, t)| == 1 && MatchesOf(inventory, t)[0].name == created
    ensures
      var failed := FinishCreate(start, l, t, SessionFingerprint(created), key, faults, ResolveFine).0;
      Reconcile(failed, l, inventory, NO_RECONCILE_FAULTS).1.Reconciled? <==> faults != HandOffFaults(Fine, Fine, AnswerLost)
  {
    var fp := SessionFingerprint(created);
    var after := HandOff(start, l, t, fp, key, faults).0;
    HandOffProgress(start, start, l, t, fp, key, faults);
    ResolveIsContained(after, l, key, RecordUnknown(map[]), ResolveFine);
    MarkIsGoneExactlyWhenClearTookEffect(start, l, t, fp, key, faults);
    HandOffRecoversExactlyWhenPending(start, l, t, created, key, faults, inventory);
  }

  lemma ResolveFailsOnForeignOperation(doc: Doc, lane: LaneId, key: OperationKey, resolution: Resolution)
    requires !ReadOperation(doc, key).Found? || ReadOperation(doc, key).record.laneId != lane
    ensures RunResolve(doc, lane, key, resolution, ResolveStart).0 == doc
    ensures RunResolve(doc, lane, key, resolution, ResolveStart).1.ResolveFailed?
  {
    var step := StepResolve(doc, lane, key, resolution, ResolveStart);
    assert RunResolve(doc, lane, key, resolution, ResolveStart) == RunResolve(doc, lane, key, resolution, step.pc);
  }

  // ---------------------------------------------------------------------------
  // The failure reconciliation cannot get over
  // ---------------------------------------------------------------------------

  /** CONFIRMED was saved on the operation while the lane still says UNKNOWN. */
  ghost predicate HalfConfirmed(doc: Doc, l: Lineage) {
    && PendingState(doc, l.laneId).Some?
    && var key := PendingState(doc, l.laneId).value.0;
       ReadOperation(doc, key).Found? && ReadOperation(doc, key).record.state == Confirmed
  }

  lemma HalfConfirmedIsInert(doc: Doc, l: Lineage, inventory: seq<Session>, faults: ReconcileFaults)
    requires HalfConfirmed(doc, l)
    ensures Reconcile(doc, l, inventory, faults).0 == doc && !Reconcile(doc, l, inventory, faults).1.Reconciled?
  {
    ConfirmedRefusesReadback(doc, l.laneId, PendingState(doc, l.laneId).value.0, faults.readback);
  }

  lemma ConfirmedRefusesReadback(doc: Doc, lane: LaneId, key: OperationKey, fault: ResolveFault)
    requires ReadOperation(doc, key).Found? && ReadOperation(doc, key).record.state == Confirmed && ReadLane(doc, lane).Found?
    ensures SufferResolve(doc, lane, key, ReadBack(Some(true), map[]), fault) == (doc, false)
  {
    if ReadOperation(doc, key).record.laneId == lane {
      ResolveAlone(doc, lane, key, ReadBack(Some(true), map[]));
    } else {
      ResolveFailsOnForeignOperation(doc, lane, key, ReadBack(Some(true), map[]));
    }
  }

  /** If the readback of a reconciliation saves the operation and then fails on the lane, every
      later reconciliation, whatever it lists and whatever fails, refuses and changes nothing. */
  lemma {:induction false} HalfSavedReadbackSticks(doc: Doc, l: Lineage, inventory: seq<Session>,
                                                   handOff: HandOffFaults, unknown: ResolveFault, attempts: seq<Attempt>)
    requires Reconcilable(doc, l, inventory)
    ensures
      var (half, decision) := Reconcile(doc, l, inventory, ReconcileFaults(OperationOnly, handOff, unknown));
      && decision == ReconcileRaised && HalfConfirmed(half, l)
      && Attempts(half, l, attempts) == half
      && (forall i :: 0 <= i < |attempts| ==>
            !Reconcile(half, l, attempts[i].inventory, attempts[i].faults).1.Reconciled?)
  {
    var half := Reconcile(doc, l, inventory, ReconcileFaults(OperationOnly, handOff, unknown)).0;
    var key := PendingState(doc, l.laneId).value.0;
    assert ReadLane(half, l.laneId) == ReadLane(doc, l.laneId);
    assert ReadOperation(half, key).record.state == Confirmed;
    forall i | 0 <= i < |attempts|
      ensures !Reconcile(half, l, attempts[i].inventory, attempts[i].faults).1.Reconciled?
    {
      HalfConfirmedIsInert(half, l, attempts[i].inventory, attempts[i].faults);
    }
    HalfConfirmedStays(half, l, attempts);
  }

  lemma {:induction false} HalfConfirmedStays(half: Doc, l: Lineage, attempts: seq<Attempt>)
    requires HalfConfirmed(half, l)
    ensures Attempts(half, l, attempts) == half
  {
    if attempts != [] {
      var last := attempts[|attempts| - 1];
      HalfConfirmedStays(half, l, attempts[..|attempts| - 1]);
      HalfConfirmedIsInert(half, l, last.inventory, last.faults);
    }
  }

  // ---------------------------------------------------------------------------
  // On a store object
  // ---------------------------------------------------------------------------

  /** One lane update under a fault. */
  method UpdateLane(store: DeterministicStateStore, call: LaneCall, fault: Fault) returns (ok: bool)
    requires store.Valid()
    modifies store
    ensures store.Valid()
    ensures (store.Contents(), ok) == Suffer(old(store.Contents()), call, fault)
  {
    if fault == Skipped { return false; }
    var result := RunCall(store, call, []);
    ok := result.Ok? && fault == Fine;
  }

  method HandOffGeneration(store: DeterministicStateStore, l: Lineage, t: PendingTransition, fp: Fingerprint,
                           key: OperationKey, faults: HandOffFaults) returns (ok: bool)
    requires store.Valid()
    modifies store
    ensures store.Valid()
    ensures (store.Contents(), ok) == HandOff(old(store.Contents()), l, t, fp, key, faults)
  {
    ok := UpdateLane(store, BindCall(l, t, fp), faults.bind);
    if !ok { return; }
    ok := UpdateLane(store, AccountCall(l, t, key), faults.account);
    if !ok { return; }
    ok := UpdateLane(store, ClearCall(l, t), faults.clear);
  }

  /** The tail of `execute_binding_safe_generation` after a confirmed create. */
  method FinishCreatedGeneration(store: DeterministicStateStore, l: Lineage, t: PendingTransition, fp: Fingerprint,
                                 key: OperationKey, faults: HandOffFaults) returns (ok: bool)
    requires store.Valid()
    modifies store
    ensures store.Valid()
    ensures (store.Contents(), ok) == FinishCreate(old(store.Contents()), l, t, fp, key, faults, ResolveFine)
  {
    ok := HandOffGeneration(store, l, t, fp, key, faults);
    if !ok {
      var _ := RecordUnknownWrite(store, l.laneId, key, map[]);
    }
  }

  method ReconcileUnknownGeneration(store: DeterministicStateStore, l: Lineage, inventory: seq<Session>,
                                    faults: HandOffFaults) returns (decision: ReconcileDecision)
    requires store.Valid()
    modifies store
    ensures store.Valid()
    ensures (store.Contents(), decision) ==
      Reconcile(old(store.Contents()), l, inventory, ReconcileFaults(ResolveFine, faults, ResolveFine))
  {
    var read := store.ReadWorkstream(l.laneId);
    if !read.Found? || read.record.unknownWrite.None? || read.record.evidence.pending.None? { return ReconcileRaised; }
    var key, t := read.record.unknownWrite.value, read.record.evidence.pending.value;
    if !CompletePending(t) { return ReconcileRaised; }
    var matches := MatchingSessions(inventory, t);
    if matches == [] { return UnknownNotYetObserved; }
    if |matches| != 1 { return AmbiguousDuplicate; }
    var fp := SessionFingerprint(matches[0].name);
    var confirmed := RecordAuthoritativeReadback(store, l.laneId, key, Some(true), map[]);
    if confirmed.Err? { return ReconcileRaised; }
    var ok := HandOffGeneration(store, l, t, fp, key, faults);
    if ok { return Reconciled(fp); }
    var recorded := RecordUnknownWrite(store, l.laneId, key, map[]);
    decision := if recorded.Ok? then BindingRequired else ReconcileRaised;
  }
}
