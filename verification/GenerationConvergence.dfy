/** Whatever fails after a confirmed create, a reconciliation that succeeds on the created session
    reaches the state of the fault-free run. */
module GenerationConvergence {
  import opened Wrappers
  import opened Records
  import opened StateStore
  import opened ClaimProtocol
  import opened ClaimExecution
  import opened LaneCalls
  import opened LaneCallExecution
  import opened GenerationProtocol

  function BoundEvidence(e: Evidence, t: PendingTransition, fp: Fingerprint): Evidence {
    e.(generation := t.nextGeneration, fingerprint := Some(fp), previousFingerprint := e.fingerprint,
       transitionKey := Some(t.transitionKey))
  }

  function AccountedOnce(a: Accounting, key: OperationKey, t: PendingTransition): Accounting {
    if AlreadyAccounted(a, key, t.transitionKey) then a else Counted(a, key, t.transitionKey)
  }

  /** The document right after the create: the transition is pending and not yet bound. */
  ghost predicate Created(doc: Doc, l: Lineage, t: PendingTransition, key: OperationKey) {
    && l.budgetLane != l.laneId
    && CompletePending(t)
    && ReadLane(doc, l.laneId).Found?
    && EvidenceAt(doc, l.laneId).pending == Some(t)
    && t.nextGeneration == EvidenceAt(doc, l.laneId).generation + 1
    && !ReadLane(doc, l.budgetLane).Corrupt?
    && ReadOperation(doc, key).Found? && ReadOperation(doc, key).record.laneId == l.laneId
  }

  ghost predicate LaneProgress(start: Evidence, now: Evidence, t: PendingTransition, fp: Fingerprint) {
    && (now.pending == Some(t) || now.pending == None)
    && (now == start.(pending := now.pending) || now == BoundEvidence(start, t, fp).(pending := now.pending))
  }

  /** How far `doc` can have come from `start`: binding and accounting done or not, mark cleared or
      not, UNKNOWN recorded or not. */
  ghost predicate Progress(start: Doc, doc: Doc, l: Lineage, t: PendingTransition, fp: Fingerprint, key: OperationKey) {
    && ReadLane(doc, l.laneId).Found?
    && LaneProgress(EvidenceAt(start, l.laneId), EvidenceAt(doc, l.laneId), t, fp)
    && (ReadLane(doc, l.laneId).record.unknownWrite == None || ReadLane(doc, l.laneId).record.unknownWrite == Some(key))
    && !ReadLane(doc, l.budgetLane).Corrupt?
    && (EvidenceAt(doc, l.budgetLane).accounting == EvidenceAt(start, l.budgetLane).accounting
        || EvidenceAt(doc, l.budgetLane).accounting == AccountedOnce(EvidenceAt(start, l.budgetLane).accounting, key, t))
    && ReadOperation(doc, key).Found? && ReadOperation(doc, key).record.laneId == l.laneId
  }

  lemma WindowedKeepsNewest<T>(items: seq<T>, item: T)
    ensures item in Windowed(items, item)
  {
    var w := Windowed(items, item);
    assert w[|w| - 1] == item;
  }

  // ---------------------------------------------------------------------------
  // Single updates
  // ---------------------------------------------------------------------------

  lemma BindAlone(start: Doc, doc: Doc, l: Lineage, t: PendingTransition, fp: Fingerprint, key: OperationKey)
    requires Created(start, l, t, key) && Progress(start, doc, l, t, fp, key)
    ensures
      var (after, result) := CallOutcome(doc, BindCall(l, t, fp), []);
      && result.Ok? && Progress(start, after, l, t, fp, key)
      && EvidenceAt(after, l.laneId) == BoundEvidence(EvidenceAt(start, l.laneId), t, fp).(pending := EvidenceAt(doc, l.laneId).pending)
      && EvidenceAt(after, l.budgetLane) == EvidenceAt(doc, l.budgetLane)
      && after.operations == doc.operations
      && (ReadLane(doc, l.laneId).record.unknownWrite == None ==> ReadLane(after, l.laneId).record.unknownWrite == None)
  {
    AloneEndsAsPlanned(doc, BindCall(l, t, fp));
  }

  lemma AccountAlone(start: Doc, doc: Doc, l: Lineage, t: PendingTransition, fp: Fingerprint, key: OperationKey)
    requires Created(start, l, t, key) && Progress(start, doc, l, t, fp, key)
    ensures
      var (after, result) := CallOutcome(doc, AccountCall(l, t, key), []);
      && result.Ok? && Progress(start, after, l, t, fp, key)
      && ReadLane(after, l.laneId) == ReadLane(doc, l.laneId)
      && EvidenceAt(after, l.budgetLane).accounting == AccountedOnce(EvidenceAt(start, l.budgetLane).accounting, key, t)
      && after.operations == doc.operations
  {
    AloneEndsAsPlanned(doc, AccountCall(l, t, key));
    WindowedKeepsNewest(EvidenceAt(start, l.budgetLane).accounting.operations, key);
  }

  lemma ClearAlone(start: Doc, doc: Doc, l: Lineage, t: PendingTransition, fp: Fingerprint, key: OperationKey)
    requires Created(start, l, t, key) && Progress(start, doc, l, t, fp, key)
    ensures
      var (after, result) := CallOutcome(doc, ClearCall(l, t), []);
      && result.Ok? && Progress(start, after, l, t, fp, key)
      && EvidenceAt(after, l.laneId) == EvidenceAt(doc, l.laneId).(pending := None)
      && EvidenceAt(after, l.budgetLane) == EvidenceAt(doc, l.budgetLane)
      && after.operations == doc.operations
      && ReadLane(after, l.laneId).record.unknownWrite == ReadLane(doc, l.laneId).record.unknownWrite
  {
    AloneEndsAsPlanned(doc, ClearCall(l, t));
  }

  /** The state the protocol is meant to reach. */
  ghost predicate Settled(start: Doc, doc: Doc, l: Lineage, t: PendingTransition, fp: Fingerprint, key: OperationKey) {
    && ReadLane(doc, l.laneId).Found?
    && EvidenceAt(doc, l.laneId) == BoundEvidence(EvidenceAt(start, l.laneId), t, fp).(pending := None)
    && ReadLane(doc, l.laneId).record.unknownWrite == None
    && EvidenceAt(doc, l.budgetLane).accounting == AccountedOnce(EvidenceAt(start, l.budgetLane).accounting, key, t)
    && ReadOperation(doc, key).Found? && ReadOperation(doc, key).record.state == Confirmed
  }

  lemma HandOffProgress(start: Doc, doc: Doc, l: Lineage, t: PendingTransition, fp: Fingerprint, key: OperationKey,
                        faults: HandOffFaults)
    requires Created(start, l, t, key) && Progress(start, doc, l, t, fp, key)
    ensures
      var (after, ok) := HandOff(doc, l, t, fp, key, faults);
      && Progress(start, after, l, t, fp, key)
      && after.operations == doc.operations
      && (ok ==>
            && EvidenceAt(after, l.laneId) == BoundEvidence(EvidenceAt(start, l.laneId), t, fp).(pending := None)
            && EvidenceAt(after, l.budgetLane).accounting == AccountedOnce(EvidenceAt(start, l.budgetLane).accounting, key, t)
            && (ReadLane(doc, l.laneId).record.unknownWrite == None ==> ReadLane(after, l.laneId).record.unknownWrite == None))
      && (faults == NO_FAULTS ==> ok)
  {
    BindAlone(start, doc, l, t, fp, key);
    var (bound, ok1) := Suffer(doc, BindCall(l, t, fp), faults.bind);
    if ok1 {
      AccountAndClearProgress(start, bound, l, t, fp, key, faults);
    }
  }

  /** The hand-off from the accounting on. */
  function AccountAndClear(doc: Doc, l: Lineage, t: PendingTransition, key: OperationKey, faults: HandOffFaults): (Doc, bool) {
    var (counted, ok) := Suffer(doc, AccountCall(l, t, key), faults.account);
    if !ok then (counted, false) else Suffer(counted, ClearCall(l, t), faults.clear)
  }

  lemma AccountAndClearProgress(start: Doc, doc: Doc, l: Lineage, t: PendingTransition, fp: Fingerprint, key: OperationKey,
                                faults: HandOffFaults)
    requires Created(start, l, t, key) && Progress(start, doc, l, t, fp, key)
    ensures
      var (after, ok) := AccountAndClear(doc, l, t, key, faults);
      && Progress(start, after, l, t, fp, key)
      && after.operations == doc.operations
      && (ok ==>
            && EvidenceAt(after, l.laneId) == EvidenceAt(doc, l.laneId).(pending := None)
            && EvidenceAt(after, l.budgetLane).accounting == AccountedOnce(EvidenceAt(start, l.budgetLane).accounting, key, t)
            && ReadLane(after, l.laneId).record.unknownWrite == ReadLane(doc, l.laneId).record.unknownWrite)
      && (faults.account == Fine && faults.clear == Fine ==> ok)
  {
    AccountAlone(start, doc, l, t, fp, key);
    var (counted, ok) := Suffer(doc, AccountCall(l, t, key), faults.account);
    if ok {
      ClearProgress(start, counted, l, t, fp, key, faults.clear);
    }
  }

  lemma ClearProgress(start: Doc, doc: Doc, l: Lineage, t: PendingTransition, fp: Fingerprint, key: OperationKey, fault: Fault)
    requires Created(start, l, t, key) && Progress(start, doc, l, t, fp, key)
    ensures
      var (after, ok) := Suffer(doc, ClearCall(l, t), fault);
      && Progress(start, after, l, t, fp, key)
      && after.operations == doc.operations
      && (ok ==>
            && EvidenceAt(after, l.laneId) == EvidenceAt(doc, l.laneId).(pending := None)
            && EvidenceAt(after, l.budgetLane) == EvidenceAt(doc, l.budgetLane)
            && ReadLane(after, l.laneId).record.unknownWrite == ReadLane(doc, l.laneId).record.unknownWrite)
      && (fault == Fine ==> ok)
  {
    ClearAlone(start, doc, l, t, fp, key);
  }

  // ---------------------------------------------------------------------------
  // Resolutions
  // ---------------------------------------------------------------------------

  /** What a resolution leaves alone: evidence of every lane, and the operation's lane. */
  ghost predicate ResolvesOnly(before: Doc, after: Doc, l: Lineage, key: OperationKey) {
    && ReadLane(before, l.laneId).Found? && ReadLane(after, l.laneId).Found?
    && ReadLane(after, l.laneId).record.evidence == ReadLane(before, l.laneId).record.evidence
    && (ReadLane(after, l.laneId).record.unknownWrite == ReadLane(before, l.laneId).record.unknownWrite
        || ReadLane(after, l.laneId).record.unknownWrite == None
        || ReadLane(after, l.laneId).record.unknownWrite == Some(key))
    && ReadLane(after, l.budgetLane) == ReadLane(before, l.budgetLane)
    && ReadOperation(after, key).Found? && ReadOperation(after, key).record.laneId == l.laneId
  }

  lemma ResolveIsContained(doc: Doc, l: Lineage, key: OperationKey, resolution: Resolution, fault: ResolveFault)
    requires l.budgetLane != l.laneId && ReadLane(doc, l.laneId).Found?
    requires ReadOperation(doc, key).Found? && ReadOperation(doc, key).record.laneId == l.laneId
    ensures
      var (after, ok) := SufferResolve(doc, l.laneId, key, resolution, fault);
      && ResolvesOnly(doc, after, l, key)
      && (ok && resolution.ReadBack? && resolution.observed == Some(true) ==>
            ReadLane(after, l.laneId).record.unknownWrite == None && ReadOperation(after, key).record.state == Confirmed)
      && (ok && resolution.RecordUnknown? ==>
            ReadLane(after, l.laneId).record.unknownWrite == Some(key) && ReadOperation(after, key).record.state == Unknown)
  {
    ResolveAlone(doc, l.laneId, key, resolution);
  }

  lemma ResolveProgress(start: Doc, doc: Doc, after: Doc, l: Lineage, t: PendingTransition, fp: Fingerprint, key: OperationKey)
    requires Progress(start, doc, l, t, fp, key) && ResolvesOnly(doc, after, l, key)
    ensures Progress(start, after, l, t, fp, key)
  {
  }

  // ---------------------------------------------------------------------------
  // Reconciliation
  // ---------------------------------------------------------------------------

  /** If one listed session carries the marker of the transition on its repository and branch, it is
      the created one; the listing may show none, or a collision. */
  ghost predicate FaithfulListing(inventory: seq<Session>, t: PendingTransition, created: string) {
    forall i :: OnlyShown(inventory, t, i) ==> inventory[i].name == created
  }

  lemma FaithfulMatch(inventory: seq<Session>, t: PendingTransition, created: string)
    requires FaithfulListing(inventory, t, created)
    ensures |MatchesOf(inventory, t)| == 1 ==> MatchesOf(inventory, t)[0].name == created
  {
    MatchCountIsShown(inventory, t);
  }

  lemma ReconcileProgress(start: Doc, doc: Doc, l: Lineage, t: PendingTransition, created: string, key: OperationKey,
                          inventory: seq<Session>, faults: ReconcileFaults)
    requires Created(start, l, t, key) && Progress(start, doc, l, t, SessionFingerprint(created), key)
    requires FaithfulListing(inventory, t, created)
    ensures
      var fp := SessionFingerprint(created);
      var (after, decision) := Reconcile(doc, l, inventory, faults);
      && Progress(start, after, l, t, fp, key)
      && (decision.Reconciled? ==> Settled(start, after, l, t, fp, key) && decision.fingerprint == fp)
  {
    var fp := SessionFingerprint(created);
    FaithfulMatch(inventory, t, created);
    if PendingState(doc, l.laneId).Some? && |MatchesOf(inventory, t)| == 1 {
      assert PendingState(doc, l.laneId) == Some((key, t));
      ResolveIsContained(doc, l, key, ReadBack(Some(true), map[]), faults.readback);
      var (confirmed, ok) := SufferResolve(doc, l.laneId, key, ReadBack(Some(true), map[]), faults.readback);
      ResolveProgress(start, doc, confirmed, l, t, fp, key);
      if ok {
        HandOffProgress(start, confirmed, l, t, fp, key, faults.handOff);
        var (after, done) := HandOff(confirmed, l, t, fp, key, faults.handOff);
        if !done {
          ResolveIsContained(after, l, key, RecordUnknown(map[]), faults.unknown);
          ResolveProgress(start, after, SufferResolve(after, l.laneId, key, RecordUnknown(map[]), faults.unknown).0,
                          l, t, fp, key);
        }
      }
    }
  }

  lemma {:induction false} AttemptsProgress(start: Doc, doc: Doc, l: Lineage, t: PendingTransition, created: string,
                                            key: OperationKey, attempts: seq<Attempt>)
    requires Created(start, l, t, key) && Progress(start, doc, l, t, SessionFingerprint(created), key)
    requires forall i :: 0 <= i < |attempts| ==> FaithfulListing(attempts[i].inventory, t, created)
    ensures Progress(start, Attempts(doc, l, attempts), l, t, SessionFingerprint(created), key)
  {
    if attempts != [] {
      var init, last := attempts[..|attempts| - 1], attempts[|attempts| - 1];
      AttemptsProgress(start, doc, l, t, created, key, init);
      ReconcileProgress(start, Attempts(doc, l, init), l, t, created, key, last.inventory, last.faults);
    }
  }

  /** The parts of the state the protocol is responsible for agree. */
  ghost predicate SameOutcome(a: Doc, b: Doc, l: Lineage, key: OperationKey) {
    && EvidenceAt(a, l.laneId) == EvidenceAt(b, l.laneId)
    && ReadLane(a, l.laneId).Found? && ReadLane(b, l.laneId).Found?
    && ReadLane(a, l.laneId).record.unknownWrite == ReadLane(b, l.laneId).record.unknownWrite
    && EvidenceAt(a, l.budgetLane).accounting == EvidenceAt(b, l.budgetLane).accounting
    && ReadOperation(a, key).Found? && ReadOperation(b, key).Found?
    && ReadOperation(a, key).record.state == ReadOperation(b, key).record.state
  }

  /** Fault convergence. `start` is the document after the confirmed create. Any faults in the
      hand-off, any number of reconciliations with any faults, then one that succeeds: binding,
      fingerprints, pending mark, UNKNOWN mark, operation state and count are those of the run
      without faults. */
  lemma FaultsConverge(start: Doc, l: Lineage, t: PendingTransition, created: string, key: OperationKey,
                       faults: HandOffFaults, unknown: ResolveFault, attempts: seq<Attempt>, last: Attempt)
    requires Created(start, l, t, key)
    requires ReadOperation(start, key).record.state == Confirmed
    requires ReadLane(start, l.laneId).record.unknownWrite == None
    requires forall i :: 0 <= i < |attempts| ==> FaithfulListing(attempts[i].inventory, t, created)
    requires FaithfulListing(last.inventory, t, created)
    requires
      var failed := FinishCreate(start, l, t, SessionFingerprint(created), key, faults, unknown).0;
      Reconcile(Attempts(failed, l, attempts), l, last.inventory, last.faults).1.Reconciled?
    ensures
      var fp := SessionFingerprint(created);
      var failed := FinishCreate(start, l, t, fp, key, faults, unknown).0;
      var recovered := Reconcile(Attempts(failed, l, attempts), l, last.inventory, last.faults).0;
      var faultFree := FinishCreate(start, l, t, fp, key, NO_FAULTS, ResolveFine);
      faultFree.1 && SameOutcome(recovered, faultFree.0, l, key)
  {
    var fp := SessionFingerprint(created);
    FinishProgress(start, l, t, fp, key, faults, unknown);
    var failed := FinishCreate(start, l, t, fp, key, faults, unknown).0;
    AttemptsProgress(start, failed, l, t, created, key, attempts);
    ReconcileProgress(start, Attempts(failed, l, attempts), l, t, created, key, last.inventory, last.faults);
    HandOffProgress(start, start, l, t, fp, key, NO_FAULTS);
  }

  lemma FinishProgress(start: Doc, l: Lineage, t: PendingTransition, fp: Fingerprint, key: OperationKey,
                       faults: HandOffFaults, unknown: ResolveFault)
    requires Created(start, l, t, key)
    requires ReadLane(start, l.laneId).record.unknownWrite == None
    ensures Progress(start, FinishCreate(start, l, t, fp, key, faults, unknown).0, l, t, fp, key)
  {
    HandOffProgress(start, start, l, t, fp, key, faults);
    var (after, ok) := HandOff(start, l, t, fp, key, faults);
    if !ok {
      ResolveIsContained(after, l, key, RecordUnknown(map[]), unknown);
      ResolveProgress(start, after, SufferResolve(after, l.laneId, key, RecordUnknown(map[]), unknown).0, l, t, fp, key);
    }
  }

  /** An ambiguous create converges as well: UNKNOWN was recorded before anything was bound, and a
      reconciliation that succeeds leaves what a confirmed create without faults would have left. */
  lemma AmbiguousCreateConverges(start: Doc, l: Lineage, t: PendingTransition, created: string, key: OperationKey,
                                 unknown: ResolveFault, attempts: seq<Attempt>, last: Attempt)
    requires Created(start, l, t, key)
    requires ReadOperation(start, key).record.state == InFlight
    requires ReadLane(start, l.laneId).record.unknownWrite == None
    requires forall i :: 0 <= i < |attempts| ==> FaithfulListing(attempts[i].inventory, t, created)
    requires FaithfulListing(last.inventory, t, created)
    requires
      var ambiguous := SufferResolve(start, l.laneId, key, RecordUnknown(map[]), unknown).0;
      Reconcile(Attempts(ambiguous, l, attempts), l, last.inventory, last.faults).1.Reconciled?
    ensures
      var ambiguous := SufferResolve(start, l.laneId, key, RecordUnknown(map[]), unknown).0;
      var recovered := Reconcile(Attempts(ambiguous, l, attempts), l, last.inventory, last.faults).0;
      var confirmed := SufferResolve(start, l.laneId, key, ReadBack(Some(true), map[]), ResolveFine).0;
      var faultFree := FinishCreate(confirmed, l, t, SessionFingerprint(created), key, NO_FAULTS, ResolveFine);
      faultFree.1 && SameOutcome(recovered, faultFree.0, l, key)
  {
    var fp := SessionFingerprint(created);
    ResolveIsContained(start, l, key, RecordUnknown(map[]), unknown);
    var ambiguous := SufferResolve(start, l.laneId, key, RecordUnknown(map[]), unknown).0;
    ResolveProgress(start, start, ambiguous, l, t, fp, key);
    AttemptsProgress(start, ambiguous, l, t, created, key, attempts);
    ReconcileProgress(start, Attempts(ambiguous, l, attempts), l, t, created, key, last.inventory, last.faults);
    ConfirmedCreateSettles(start, l, t, fp, key);
  }

  lemma ConfirmedCreateSettles(start: Doc, l: Lineage, t: PendingTransition, fp: Fingerprint, key: OperationKey)
    requires Created(start, l, t, key)
    requires ReadOperation(start, key).record.state == InFlight
    requires ReadLane(start, l.laneId).record.unknownWrite == None
    ensures
      var confirmed := SufferResolve(start, l.laneId, key, ReadBack(Some(true), map[]), ResolveFine).0;
      var (after, ok) := FinishCreate(confirmed, l, t, fp, key, NO_FAULTS, ResolveFine);
      ok && Settled(start, after, l, t, fp, key)
  {
    ResolveIsContained(start, l, key, ReadBack(Some(true), map[]), ResolveFine);
    ResolveAlone(start, l.laneId, key, ReadBack(Some(true), map[]));
    var confirmed := SufferResolve(start, l.laneId, key, ReadBack(Some(true), map[]), ResolveFine).0;
    ResolveProgress(start, start, confirmed, l, t, fp, key);
    HandOffProgress(start, confirmed, l, t, fp, key, NO_FAULTS);
  }
}
