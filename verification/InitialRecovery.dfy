/** The first generation of a lineage: unlike later ones its binding clears the pending mark, so a
    failure between binding and accounting is one that neither reconciliation gets over. */
module InitialRecovery {
  import opened Wrappers
  import opened Text
  import opened Records
  import opened StateStore
  import opened ClaimProtocol
  import opened ClaimExecution
  import opened LaneCalls
  import opened LaneCallExecution
  import opened GenerationProtocol
  import opened GenerationConvergence
  import opened GenerationRecovery
  import opened EffectKeys

  function BindInitialCall(l: Lineage, t: PendingTransition, fp: Fingerprint): LaneCall {
    BindInitial(l.laneId, fp, t.transitionKey, t.taskSpecDigest)
  }

  datatype InitialFaults = InitialFaults(bind: Fault, account: Fault)

  const NO_INITIAL_FAULTS := InitialFaults(Fine, Fine)

  /** Bind, then account; the first failure stops the sequence. */
  function InitialHandOff(doc: Doc, l: Lineage, t: PendingTransition, fp: Fingerprint, key: OperationKey,
                          faults: InitialFaults): (Doc, bool)
  {
    var (bound, ok) := Suffer(doc, BindInitialCall(l, t, fp), faults.bind);
    if !ok then (bound, false) else Suffer(bound, AccountCall(l, t, key), faults.account)
  }

  /** The tail of the first creation after it was confirmed; a failure records UNKNOWN. */
  function FinishInitial(doc: Doc, l: Lineage, t: PendingTransition, fp: Fingerprint, key: OperationKey,
                         faults: InitialFaults, unknown: ResolveFault): (Doc, bool)
  {
    var (after, ok) := InitialHandOff(doc, l, t, fp, key, faults);
    if ok then (after, true)
    else (SufferResolve(after, l.laneId, key, RecordUnknown(map[]), unknown).0, false)
  }

  predicate CompleteInitial(t: PendingTransition) {
    && t.repository != "" && t.sourceName != "" && t.startingBranch != "" && t.marker != ""
    && t.transitionKey != "" && t.taskSpecDigest != ""
  }

  function PendingInitialState(doc: Doc, lane: LaneId): Option<(OperationKey, PendingTransition)> {
    match ReadLane(doc, lane)
    case Found(_, r) =>
      if r.unknownWrite.Some? && r.evidence.pendingInitial.Some? && CompleteInitial(r.evidence.pendingInitial.value)
      then Some((r.unknownWrite.value, r.evidence.pendingInitial.value)) else None
    case _ => None
  }

  datatype InitialReconcileFaults = InitialReconcileFaults(readback: ResolveFault, handOff: InitialFaults, unknown: ResolveFault)

  const NO_INITIAL_RECONCILE_FAULTS := InitialReconcileFaults(ResolveFine, NO_INITIAL_FAULTS, ResolveFine)

  /** Confirms, binds and accounts the one matching session. */
  function Adopt(doc: Doc, l: Lineage, t: PendingTransition, key: OperationKey, inventory: seq<Session>,
                 faults: InitialReconcileFaults): (Doc, ReconcileDecision)
  {
    var matches := MatchesOf(inventory, t);
    if matches == [] then (doc, UnknownNotYetObserved)
    else if |matches| != 1 then (doc, AmbiguousDuplicate)
    else
      var fp := SessionFingerprint(Strip(matches[0].name));
      var (confirmed, ok) := SufferResolve(doc, l.laneId, key, ReadBack(Some(true), map[]), faults.readback);
      if !ok then (confirmed, ReconcileRaised)
      else
        var (after, done) := InitialHandOff(confirmed, l, t, fp, key, faults.handOff);
        if done then (after, Reconciled(fp))
        else
          var (saved, recorded) := SufferResolve(after, l.laneId, key, RecordUnknown(map[]), faults.unknown);
          (saved, if recorded then BindingRequired else ReconcileRaised)
  }

  /** Reconciliation of an UNKNOWN first creation from the pending mark. */
  function ReconcileInitial(doc: Doc, l: Lineage, inventory: seq<Session>, faults: InitialReconcileFaults): (Doc, ReconcileDecision) {
    match PendingInitialState(doc, l.laneId)
    case None => (doc, ReconcileRaised)
    case Some((key, t)) => Adopt(doc, l, t, key, inventory, faults)
  }

  /** The unfinished creation an unbound generation-0 lane was left with. */
  function StaleOperation(doc: Doc, l: Lineage): Option<OperationRecord> {
    match ReadLane(doc, l.laneId)
    case Found(_, r) =>
      if r.evidence.generation != 0 || r.evidence.fingerprint.Some? || r.operationKey.None? then None
      else
        (match ReadOperation(doc, r.operationKey.value)
         case Found(_, op) =>
           if && op.laneId == l.laneId && op.action == INITIAL_ACTION && op.workstreamId == l.workstreamId
              && (op.state == InFlight || op.state == Unknown) then Some(op) else None
         case _ => None)
    case _ => None
  }

  predicate StillLeased(doc: Doc, lane: LaneId, key: OperationKey, now: int) {
    && ReadLane(doc, lane).Found? && ReadLane(doc, lane).record.lease.Some?
    && ReadLane(doc, lane).record.lease.value.operationKey == key
    && ReadLane(doc, lane).record.lease.value.expiresAt > now
  }

  /** The lane has no lease for the operation, or one that has expired. */
  predicate LeaseIsOver(doc: Doc, lane: LaneId, key: OperationKey, now: int) {
    ReadLane(doc, lane).Found? ==>
      match ReadLane(doc, lane).record.lease
      case None => true
      case Some(lease) => lease.operationKey != key || lease.expiresAt <= now
  }

  /** What a claim of a first creation left in its receipt; a missing field is empty. */
  datatype CreationReceipt = CreationReceipt(
    transitionKey: string, startingBranch: string, taskSpecDigest: string, source: string, kind: string, generation: string)

  function Field(facts: Facts, name: string): string {
    if name in facts then facts[name] else ""
  }

  function CreationReceiptOf(facts: Facts): CreationReceipt {
    CreationReceipt(Field(facts, "transition_key"), Field(facts, "starting_branch"), Field(facts, "task_spec_digest"),
                    Field(facts, "source_fingerprint"), Field(facts, "creation_kind"), Field(facts, "generation"))
  }

  /** The target of the effect repeats the receipt. */
  predicate TargetAgrees(target: Facts, r: CreationReceipt, role: string) {
    target == map[]
    || (&& Field(target, "transition_key") == r.transitionKey && Field(target, "starting_branch") == r.startingBranch
        && Field(target, "source_fingerprint") == r.source && Field(target, "role") == role
        && Field(target, "generation") == "1")
  }

  /** Who reconciles: the repository, source and role of the lane, the branch the current authority
      names, if any, whether there is one, and the time. */
  datatype StaleCaller = StaleCaller(
    repository: string, sourceName: string, role: string, authorityBranch: Option<string>, authorized: bool, now: int)

  /** The transition a receipt records, if it passes every check of the caller. */
  function RecordedTransition(op: OperationRecord, c: StaleCaller): Option<PendingTransition> {
    var r := CreationReceiptOf(op.receipt.facts);
    if r.transitionKey == "" || r.startingBranch == "" || r.taskSpecDigest == "" || r.source == "" then None
    else if r.kind != "INITIAL_LOGICAL_LINEAGE" || r.generation != "1" || r.source != c.sourceName then None
    else if c.authorityBranch.Some? && c.authorityBranch.value != "" && c.authorityBranch.value != r.startingBranch then None
    else if !TargetAgrees(op.key.effect.target, r, c.role) then None
    else Some(PendingTransition(r.transitionKey, 1, c.repository, c.sourceName, r.startingBranch, None,
                                Prefix(r.transitionKey, MARKER_LENGTH), r.taskSpecDigest))
  }

  predicate Says(facts: Facts, name: string, value: string) {
    name in facts && facts[name] == value && value != ""
  }

  /** The receipt of the operation is complete and is that of a first creation from the caller's source,
      on the branch the authority names if it names one, and the target of the effect, if there is one,
      repeats it. */
  predicate ReceiptSays(op: OperationRecord, c: StaleCaller, transitionKey: string, branch: string, digest: string) {
    var (facts, target) := (op.receipt.facts, op.key.effect.target);
    && Says(facts, "transition_key", transitionKey) && Says(facts, "starting_branch", branch)
    && Says(facts, "task_spec_digest", digest) && Says(facts, "source_fingerprint", c.sourceName)
    && Says(facts, "creation_kind", "INITIAL_LOGICAL_LINEAGE") && Says(facts, "generation", "1")
    && (c.authorityBranch == None || c.authorityBranch == Some("") || c.authorityBranch == Some(branch))
    && (target == map[]
        || (&& Says(target, "transition_key", transitionKey) && Says(target, "starting_branch", branch)
            && Says(target, "source_fingerprint", c.sourceName) && Says(target, "generation", "1")
            && (if "role" in target then target["role"] == c.role else c.role == "")))
  }

  /** What a caller recovers from a receipt, exactly when the receipt passes. */
  lemma ReceiptIsReadExactlyWhen(op: OperationRecord, c: StaleCaller, r: PendingTransition)
    ensures RecordedTransition(op, c) == Some(r) <==>
      && ReceiptSays(op, c, r.transitionKey, r.startingBranch, r.taskSpecDigest)
      && r.nextGeneration == 1 && r.repository == c.repository && r.sourceName == c.sourceName
      && r.candidateSha == None && r.marker == Prefix(r.transitionKey, MARKER_LENGTH)
  {
    assert |"INITIAL_LOGICAL_LINEAGE"| == 23;
  }

  /** Reconciliation of a stale first creation from what the operation's receipt recorded of it. */
  function ReconcileStale(doc: Doc, l: Lineage, c: StaleCaller, inventory: seq<Session>, faults: InitialReconcileFaults)
    : (Doc, ReconcileDecision)
  {
    match StaleOperation(doc, l)
    case None => (doc, ReconcileRaised)
    case Some(op) =>
      match RecordedTransition(op, c)
      case None => (doc, ReconcileRaised)
      case Some(t) =>
        if StillLeased(doc, l.laneId, op.key, c.now) || !c.authorized then (doc, ReconcileRaised)
        else Adopt(doc, l, t, op.key, inventory, faults)
  }

  /** An unbound lane without a generation, whose own operation is a first creation of this lineage with
      an open outcome. */
  predicate Unfinished(doc: Doc, l: Lineage, op: OperationRecord) {
    && ReadLane(doc, l.laneId).Found? && ReadOperation(doc, op.key).Found? && ReadOperation(doc, op.key).record == op
    && var r := ReadLane(doc, l.laneId).record;
       && r.evidence.generation == 0 && r.evidence.fingerprint == None && r.operationKey == Some(op.key)
       && op.laneId == l.laneId && op.workstreamId == l.workstreamId && op.action == "create-initial-lineage-session"
       && op.state in {InFlight, Unknown}
  }

  lemma StaleOperationExactly(doc: Doc, l: Lineage, op: OperationRecord)
    ensures StaleOperation(doc, l) == Some(op) <==> Unfinished(doc, l, op)
  {
  }

  /** The lane waits for its first generation. */
  lemma PendingInitialStateExactly(doc: Doc, lane: LaneId, key: OperationKey, t: PendingTransition)
    ensures PendingInitialState(doc, lane) == Some((key, t)) <==>
      && ReadLane(doc, lane).Found? && ReadLane(doc, lane).record.unknownWrite == Some(key)
      && ReadLane(doc, lane).record.evidence.pendingInitial == Some(t)
      && |t.repository| > 0 && |t.sourceName| > 0 && |t.startingBranch| > 0 && |t.marker| > 0
      && |t.transitionKey| > 0 && |t.taskSpecDigest| > 0
  {
  }

  /** What adopting answers by what is listed; only an adoption changes the document. */
  lemma AdoptAnswersByListing(doc: Doc, l: Lineage, t: PendingTransition, key: OperationKey, inventory: seq<Session>,
                              faults: InitialReconcileFaults)
    ensures
      var (after, decision) := Adopt(doc, l, t, key, inventory, faults);
      && (decision == UnknownNotYetObserved <==> forall i :: 0 <= i < |inventory| ==> !MayBeOf(inventory[i], t))
      && (decision == AmbiguousDuplicate <==> TwoShown(inventory, t))
      && (decision.UnknownNotYetObserved? || decision.AmbiguousDuplicate? ==> after == doc)
      && (decision.Reconciled? ==>
            exists i :: OnlyShown(inventory, t, i) && decision.fingerprint == SessionFingerprint(Strip(inventory[i].name)))
  {
    MatchCountIsShown(inventory, t);
    SeveralMatchesAreShown(inventory, t);
  }

  // ---------------------------------------------------------------------------
  // Where a first creation can stand
  // ---------------------------------------------------------------------------

  /** The session was or may have been created, and nothing is bound: the operation records what it
      created. */
  ghost predicate AwaitsBinding(doc: Doc, l: Lineage, t: PendingTransition, key: OperationKey) {
    && l.budgetLane != l.laneId && CompleteInitial(t)
    && ReadLane(doc, l.laneId).Found? && ReadLane(doc, l.laneId).record.operationKey == Some(key)
    && EvidenceAt(doc, l.laneId).generation == 0 && EvidenceAt(doc, l.laneId).fingerprint == None
    && !ReadLane(doc, l.budgetLane).Corrupt?
    && ReadOperation(doc, key).Found? && ReadOperation(doc, key).record.laneId == l.laneId
    && ReadOperation(doc, key).record.workstreamId == l.workstreamId && ReadOperation(doc, key).record.action == INITIAL_ACTION
    && t.marker == Prefix(t.transitionKey, MARKER_LENGTH)
    && ReceiptFits(ReadOperation(doc, key).record, t)
  }

  /** The document right after the create: pending, unbound, generation 0. */
  ghost predicate InitialCreated(doc: Doc, l: Lineage, t: PendingTransition, key: OperationKey) {
    AwaitsBinding(doc, l, t, key) && EvidenceAt(doc, l.laneId).pendingInitial == Some(t)
  }

  /** The receipt of the claim and the target of its effect are those of the creation. */
  predicate ReceiptFits(op: OperationRecord, t: PendingTransition) {
    CreationReceiptOf(op.receipt.facts) ==
      CreationReceipt(t.transitionKey, t.startingBranch, t.taskSpecDigest, t.sourceName, "INITIAL_LOGICAL_LINEAGE", "1")
  }

  /** What no resolution changes about an operation. */
  predicate SameCreation(a: Doc, b: Doc, key: OperationKey) {
    && ReadOperation(a, key).Found? && ReadOperation(b, key).Found?
    && ReadOperation(b, key).record == ReadOperation(a, key).record.(
         state := ReadOperation(b, key).record.state, readback := ReadOperation(b, key).record.readback,
         reconciliationRequired := ReadOperation(b, key).record.reconciliationRequired,
         receipt := ReadOperation(b, key).record.receipt)
    && ReadOperation(b, key).record.receipt.facts == ReadOperation(a, key).record.receipt.facts
  }

  function BoundInitially(e: Evidence, t: PendingTransition, fp: Fingerprint): Evidence {
    e.(generation := 1, fingerprint := Some(fp), previousFingerprint := None, transitionKey := Some(t.transitionKey),
       initialTransitionKey := Some(t.transitionKey), taskSpecDigest := Some(t.taskSpecDigest), pendingInitial := None)
  }

  function Count(doc: Doc, l: Lineage): Accounting {
    EvidenceAt(doc, l.budgetLane).accounting
  }

  ghost predicate OnTheWay(start: Doc, doc: Doc, l: Lineage, key: OperationKey) {
    && SameCreation(start, doc, key)
    && l.budgetLane != l.laneId && ReadLane(doc, l.laneId).Found? && !ReadLane(doc, l.budgetLane).Corrupt?
    && ReadLane(doc, l.laneId).record.operationKey == Some(key)
    && (ReadLane(doc, l.laneId).record.unknownWrite == None || ReadLane(doc, l.laneId).record.unknownWrite == Some(key))
    && ReadOperation(doc, key).Found? && ReadOperation(doc, key).record.laneId == l.laneId
  }

  /** Nothing is bound and nothing counted. */
  ghost predicate Untouched(start: Doc, doc: Doc, l: Lineage, key: OperationKey) {
    && OnTheWay(start, doc, l, key)
    && EvidenceAt(doc, l.laneId) == EvidenceAt(start, l.laneId) && Count(doc, l) == Count(start, l)
  }

  /** The session is bound; it may or may not be counted. */
  ghost predicate BoundOnce(start: Doc, doc: Doc, l: Lineage, t: PendingTransition, fp: Fingerprint, key: OperationKey) {
    && OnTheWay(start, doc, l, key)
    && EvidenceAt(doc, l.laneId) == BoundInitially(EvidenceAt(start, l.laneId), t, fp)
    && (Count(doc, l) == Count(start, l) || Count(doc, l) == AccountedOnce(Count(start, l), key, t))
  }

  ghost predicate InitialProgress(start: Doc, doc: Doc, l: Lineage, t: PendingTransition, fp: Fingerprint, key: OperationKey) {
    Untouched(start, doc, l, key) || BoundOnce(start, doc, l, t, fp, key)
  }

  lemma BindInitialAlone(start: Doc, doc: Doc, l: Lineage, t: PendingTransition, fp: Fingerprint, key: OperationKey)
    requires AwaitsBinding(start, l, t, key) && Untouched(start, doc, l, key)
    ensures
      var (after, result) := CallOutcome(doc, BindInitialCall(l, t, fp), []);
      && result.Ok? && BoundOnce(start, after, l, t, fp, key)
      && ReadLane(after, l.laneId).record.unknownWrite == None
      && Count(after, l) == Count(start, l) && after.operations == doc.operations
  {
    AloneEndsAsPlanned(doc, BindInitialCall(l, t, fp));
  }

  lemma AccountInitialAlone(start: Doc, doc: Doc, l: Lineage, t: PendingTransition, fp: Fingerprint, key: OperationKey)
    requires AwaitsBinding(start, l, t, key) && BoundOnce(start, doc, l, t, fp, key) && Count(doc, l) == Count(start, l)
    ensures
      var (after, result) := CallOutcome(doc, AccountCall(l, t, key), []);
      && result.Ok? && BoundOnce(start, after, l, t, fp, key)
      && ReadLane(after, l.laneId) == ReadLane(doc, l.laneId)
      && Count(after, l) == AccountedOnce(Count(start, l), key, t) && after.operations == doc.operations
  {
    AloneEndsAsPlanned(doc, AccountCall(l, t, key));
  }

  lemma InitialHandOffProgress(start: Doc, doc: Doc, l: Lineage, t: PendingTransition, fp: Fingerprint, key: OperationKey,
                               faults: InitialFaults)
    requires AwaitsBinding(start, l, t, key) && Untouched(start, doc, l, key)
    ensures
      var (after, ok) := InitialHandOff(doc, l, t, fp, key, faults);
      && after.operations == doc.operations
      && (if faults.bind == Skipped then after == doc && !ok else BoundOnce(start, after, l, t, fp, key))
      && (ok ==> Count(after, l) == AccountedOnce(Count(start, l), key, t) && ReadLane(after, l.laneId).record.unknownWrite == None)
      && (ok <==> faults == NO_INITIAL_FAULTS)
  {
    BindInitialAlone(start, doc, l, t, fp, key);
    var bound := CallOutcome(doc, BindInitialCall(l, t, fp), []).0;
    if faults.bind == Fine {
      AccountInitialAlone(start, bound, l, t, fp, key);
    }
  }

  /** No resolution, whole or cut short, changes what the operation creates. */
  lemma ResolutionKeepsCreation(doc: Doc, l: Lineage, key: OperationKey, resolution: Resolution, fault: ResolveFault)
    requires ReadLane(doc, l.laneId).Found? && (resolution.RecordUnknown? ==> resolution.result == map[])
    requires ReadOperation(doc, key).Found? && ReadOperation(doc, key).record.laneId == l.laneId
    ensures SameCreation(doc, SufferResolve(doc, l.laneId, key, resolution, fault).0, key)
  {
    ResolveAlone(doc, l.laneId, key, resolution);
    ResolutionKeepsReceipt(ReadOperation(doc, key).record, resolution);
  }

  lemma ResolveStaysOnTheWay(start: Doc, doc: Doc, l: Lineage, key: OperationKey, resolution: Resolution, fault: ResolveFault)
    requires OnTheWay(start, doc, l, key) && (resolution.RecordUnknown? ==> resolution.result == map[])
    ensures
      var after := SufferResolve(doc, l.laneId, key, resolution, fault).0;
      && OnTheWay(start, after, l, key)
      && EvidenceAt(after, l.laneId) == EvidenceAt(doc, l.laneId) && Count(after, l) == Count(doc, l)
  {
    ResolutionKeepsCreation(doc, l, key, resolution, fault);
    ResolveIsContained(doc, l, key, resolution, fault);
    ResolveAlone(doc, l.laneId, key, resolution);
  }

  lemma ResolutionKeepsReceipt(op: OperationRecord, resolution: Resolution)
    requires resolution.RecordUnknown? ==> resolution.result == map[]
    ensures
      var r := ResolveOperation(op, resolution);
      r.Ok? ==> r.value.receipt.facts == op.receipt.facts
  {
    assert op.receipt.facts + map[] == op.receipt.facts;
  }

  // ---------------------------------------------------------------------------
  // Recovery
  // ---------------------------------------------------------------------------

  datatype InitialAttempt =
    | FromPending(inventory: seq<Session>, faults: InitialReconcileFaults)
    | FromReceipt(caller: StaleCaller, inventory: seq<Session>, faults: InitialReconcileFaults)

  function Try(doc: Doc, l: Lineage, a: InitialAttempt): (Doc, ReconcileDecision) {
    match a
    case FromPending(inventory, faults) => ReconcileInitial(doc, l, inventory, faults)
    case FromReceipt(caller, inventory, faults) => ReconcileStale(doc, l, caller, inventory, faults)
  }

  function TryAll(doc: Doc, l: Lineage, attempts: seq<InitialAttempt>): Doc {
    if attempts == [] then doc else Try(TryAll(doc, l, attempts[..|attempts| - 1]), l, attempts[|attempts| - 1]).0
  }

  /** If one listed session carries the marker of the transition on its repository and branch, it is
      the created one; the listing may show none, or a collision. */
  ghost predicate ShowsCreated(inventory: seq<Session>, t: PendingTransition, created: string) {
    forall i :: OnlyShown(inventory, t, i) ==> Strip(inventory[i].name) == created
  }

  lemma ShownMatch(inventory: seq<Session>, t: PendingTransition, created: string)
    requires ShowsCreated(inventory, t, created)
    ensures |MatchesOf(inventory, t)| == 1 ==> Strip(MatchesOf(inventory, t)[0].name) == created
  {
    MatchCountIsShown(inventory, t);
  }

  /** The listing is faithful, and whoever reconciles works on the repository of the lane. */
  ghost predicate Faithful(a: InitialAttempt, t: PendingTransition, created: string) {
    ShowsCreated(a.inventory, t, created) && (a.FromReceipt? ==> a.caller.repository == t.repository)
  }

  /** What a receipt that passes the checks records is the pending transition, but for the candidate. */
  lemma RecordedIsPending(op: OperationRecord, t: PendingTransition, c: StaleCaller)
    requires ReceiptFits(op, t) && t.marker == Prefix(t.transitionKey, MARKER_LENGTH) && c.repository == t.repository
    requires RecordedTransition(op, c).Some?
    ensures
      var r := RecordedTransition(op, c).value;
      && r.transitionKey == t.transitionKey && r.taskSpecDigest == t.taskSpecDigest && r.marker == t.marker
      && r.repository == t.repository && r.startingBranch == t.startingBranch
  {
  }

  lemma {:induction false} MatchesOfSame(inventory: seq<Session>, t: PendingTransition, r: PendingTransition)
    requires r.marker == t.marker && r.repository == t.repository && r.startingBranch == t.startingBranch
    ensures MatchesOf(inventory, r) == MatchesOf(inventory, t)
  {
    if inventory != [] {
      MatchesOfSame(inventory[..|inventory| - 1], t, r);
    }
  }

  lemma AdoptRecorded(doc: Doc, l: Lineage, t: PendingTransition, r: PendingTransition, key: OperationKey,
                      inventory: seq<Session>, faults: InitialReconcileFaults)
    requires r.transitionKey == t.transitionKey && r.taskSpecDigest == t.taskSpecDigest && r.marker == t.marker
    requires r.repository == t.repository && r.startingBranch == t.startingBranch
    ensures Adopt(doc, l, r, key, inventory, faults) == Adopt(doc, l, t, key, inventory, faults)
  {
    MatchesOfSame(inventory, t, r);
    assert forall fp :: BindInitialCall(l, r, fp) == BindInitialCall(l, t, fp);
    assert AccountCall(l, r, key) == AccountCall(l, t, key);
  }

  /** A bound first generation is out of reach of both reconciliations, whatever they list. */
  lemma BoundIsInert(start: Doc, doc: Doc, l: Lineage, t: PendingTransition, fp: Fingerprint, key: OperationKey, a: InitialAttempt)
    requires BoundOnce(start, doc, l, t, fp, key)
    ensures Try(doc, l, a).0 == doc && !Try(doc, l, a).1.Reconciled?
  {
  }

  lemma AdoptProgress(start: Doc, doc: Doc, l: Lineage, t: PendingTransition, created: string, key: OperationKey,
                      inventory: seq<Session>, faults: InitialReconcileFaults)
    requires AwaitsBinding(start, l, t, key) && Untouched(start, doc, l, key) && ShowsCreated(inventory, t, created)
    ensures
      var fp := SessionFingerprint(created);
      var (after, decision) := Adopt(doc, l, t, key, inventory, faults);
      && InitialProgress(start, after, l, t, fp, key)
      && (decision.Reconciled? ==> InitiallySettled(start, after, l, t, fp, key))
  {
    var fp := SessionFingerprint(created);
    ShownMatch(inventory, t, created);
    if |MatchesOf(inventory, t)| == 1 {
      AdoptIsReadbackThenFinish(doc, l, t, key, inventory, faults);
      var (confirmed, ok) := SufferResolve(doc, l.laneId, key, ReadBack(Some(true), map[]), faults.readback);
      ResolveStaysOnTheWay(start, doc, l, key, ReadBack(Some(true), map[]), faults.readback);
      if ok {
        ResolveIsContained(doc, l, key, ReadBack(Some(true), map[]), faults.readback);
        FinishProgressesFrom(start, confirmed, l, t, fp, key, faults.handOff, faults.unknown);
      }
    }
  }

  /** Adopting is reading back and then what follows a confirmed creation. */
  lemma AdoptIsReadbackThenFinish(doc: Doc, l: Lineage, t: PendingTransition, key: OperationKey, inventory: seq<Session>,
                                  faults: InitialReconcileFaults)
    requires |MatchesOf(inventory, t)| == 1
    ensures
      var fp := SessionFingerprint(Strip(MatchesOf(inventory, t)[0].name));
      var (confirmed, ok) := SufferResolve(doc, l.laneId, key, ReadBack(Some(true), map[]), faults.readback);
      var finished := FinishInitial(confirmed, l, t, fp, key, faults.handOff, faults.unknown);
      var (after, decision) := Adopt(doc, l, t, key, inventory, faults);
      if !ok then after == confirmed && !decision.Reconciled?
      else after == finished.0 && (decision.Reconciled? <==> finished.1)
  {
  }

  /** The hand-off of a first creation from an untouched lane, with UNKNOWN recorded on failure. */
  lemma FinishProgressesFrom(start: Doc, doc: Doc, l: Lineage, t: PendingTransition, fp: Fingerprint, key: OperationKey,
                             faults: InitialFaults, unknown: ResolveFault)
    requires AwaitsBinding(start, l, t, key) && Untouched(start, doc, l, key)
    ensures
      var (after, ok) := FinishInitial(doc, l, t, fp, key, faults, unknown);
      && (if faults.bind == Skipped then Untouched(start, after, l, key) else BoundOnce(start, after, l, t, fp, key))
      && (ok <==> faults == NO_INITIAL_FAULTS)
      && (ok ==> Count(after, l) == AccountedOnce(Count(start, l), key, t) && ReadLane(after, l.laneId).record.unknownWrite == None
                 && after.operations == doc.operations)
  {
    InitialHandOffProgress(start, doc, l, t, fp, key, faults);
    var (after, ok) := InitialHandOff(doc, l, t, fp, key, faults);
    if !ok {
      ResolveStaysOnTheWay(start, after, l, key, RecordUnknown(map[]), unknown);
    }
  }

  /** What the protocol is meant to reach. */
  ghost predicate InitiallySettled(start: Doc, doc: Doc, l: Lineage, t: PendingTransition, fp: Fingerprint, key: OperationKey) {
    && BoundOnce(start, doc, l, t, fp, key)
    && Count(doc, l) == AccountedOnce(Count(start, l), key, t)
    && ReadLane(doc, l.laneId).record.unknownWrite == None
    && ReadOperation(doc, key).record.state == Confirmed
  }

  /** Reconciling an untouched lane from the receipt refuses, or adopts the pending transition. */
  lemma StaleAdopts(start: Doc, doc: Doc, l: Lineage, t: PendingTransition, key: OperationKey, a: InitialAttempt)
    requires AwaitsBinding(start, l, t, key) && Untouched(start, doc, l, key)
    requires a.FromReceipt? && a.caller.repository == t.repository
    ensures Try(doc, l, a) == (doc, ReconcileRaised) || Try(doc, l, a) == Adopt(doc, l, t, key, a.inventory, a.faults)
  {
    if StaleOperation(doc, l).Some? {
      var op := StaleOperation(doc, l).value;
      assert op == ReadOperation(doc, key).record && op.key == key;
      if RecordedTransition(op, a.caller).Some? {
        RecordedIsPending(op, t, a.caller);
        AdoptRecorded(doc, l, t, RecordedTransition(op, a.caller).value, key, a.inventory, a.faults);
      }
    }
  }

  lemma TryProgress(start: Doc, doc: Doc, l: Lineage, t: PendingTransition, created: string, key: OperationKey, a: InitialAttempt)
    requires InitialCreated(start, l, t, key) && InitialProgress(start, doc, l, t, SessionFingerprint(created), key)
    requires Faithful(a, t, created)
    ensures
      var fp := SessionFingerprint(created);
      var (after, decision) := Try(doc, l, a);
      && InitialProgress(start, after, l, t, fp, key)
      && (decision.Reconciled? ==> Untouched(start, doc, l, key) && InitiallySettled(start, after, l, t, fp, key))
  {
    if Untouched(start, doc, l, key) {
      AdoptProgress(start, doc, l, t, created, key, a.inventory, a.faults);
      if a.FromReceipt? { StaleAdopts(start, doc, l, t, key, a); }
    } else {
      BoundIsInert(start, doc, l, t, SessionFingerprint(created), key, a);
    }
  }

  lemma {:induction false} TryAllProgress(start: Doc, doc: Doc, l: Lineage, t: PendingTransition, created: string,
                                          key: OperationKey, attempts: seq<InitialAttempt>)
    requires InitialCreated(start, l, t, key) && InitialProgress(start, doc, l, t, SessionFingerprint(created), key)
    requires forall i :: 0 <= i < |attempts| ==> Faithful(attempts[i], t, created)
    ensures
      var fp := SessionFingerprint(created);
      && InitialProgress(start, TryAll(doc, l, attempts), l, t, fp, key)
      && (BoundOnce(start, doc, l, t, fp, key) ==> TryAll(doc, l, attempts) == doc)
  {
    if attempts != [] {
      var init, last := attempts[..|attempts| - 1], attempts[|attempts| - 1];
      TryAllProgress(start, doc, l, t, created, key, init);
      TryProgress(start, TryAll(doc, l, init), l, t, created, key, last);
      if BoundOnce(start, doc, l, t, SessionFingerprint(created), key) {
        BoundIsInert(start, doc, l, t, SessionFingerprint(created), key, last);
      }
    }
  }

  lemma SettledOutcomesAgree(start: Doc, a: Doc, b: Doc, l: Lineage, t: PendingTransition, fp: Fingerprint, key: OperationKey)
    requires InitiallySettled(start, a, l, t, fp, key) && InitiallySettled(start, b, l, t, fp, key)
    ensures SameOutcome(a, b, l, key)
  {
  }

  lemma FaultFreeSettles(start: Doc, l: Lineage, t: PendingTransition, fp: Fingerprint, key: OperationKey)
    requires InitialCreated(start, l, t, key) && Untouched(start, start, l, key)
    requires ReadOperation(start, key).record.state == Confirmed
    ensures
      var (after, ok) := FinishInitial(start, l, t, fp, key, NO_INITIAL_FAULTS, ResolveFine);
      ok && InitiallySettled(start, after, l, t, fp, key)
  {
    FinishProgressesFrom(start, start, l, t, fp, key, NO_INITIAL_FAULTS, ResolveFine);
    var after := FinishInitial(start, l, t, fp, key, NO_INITIAL_FAULTS, ResolveFine).0;
    assert ReadOperation(after, key) == ReadOperation(start, key);
  }

  /** Any faults after a confirmed first creation, any number of reconciliations of either kind with
      any faults, then one that succeeds: the outcome is that of the run without faults. */
  lemma InitialFaultsConverge(start: Doc, l: Lineage, t: PendingTransition, created: string, key: OperationKey,
                              faults: InitialFaults, unknown: ResolveFault, attempts: seq<InitialAttempt>, last: InitialAttempt)
    requires InitialCreated(start, l, t, key) && Untouched(start, start, l, key)
    requires ReadOperation(start, key).record.state == Confirmed
    requires forall i :: 0 <= i < |attempts| ==> Faithful(attempts[i], t, created)
    requires Faithful(last, t, created)
    requires
      var failed := FinishInitial(start, l, t, SessionFingerprint(created), key, faults, unknown).0;
      Try(TryAll(failed, l, attempts), l, last).1.Reconciled?
    ensures
      var fp := SessionFingerprint(created);
      var failed := FinishInitial(start, l, t, fp, key, faults, unknown).0;
      var recovered := Try(TryAll(failed, l, attempts), l, last).0;
      var faultFree := FinishInitial(start, l, t, fp, key, NO_INITIAL_FAULTS, ResolveFine);
      faultFree.1 && SameOutcome(recovered, faultFree.0, l, key)
  {
    var fp := SessionFingerprint(created);
    var failed := FinishInitial(start, l, t, fp, key, faults, unknown).0;
    FinishProgressesFrom(start, start, l, t, fp, key, faults, unknown);
    RecoverySettles(start, failed, l, t, created, key, attempts, last);
    FaultFreeSettles(start, l, t, fp, key);
    SettledOutcomesAgree(start, Try(TryAll(failed, l, attempts), l, last).0,
                         FinishInitial(start, l, t, fp, key, NO_INITIAL_FAULTS, ResolveFine).0, l, t, fp, key);
  }

  lemma RecoverySettles(start: Doc, failed: Doc, l: Lineage, t: PendingTransition, created: string, key: OperationKey,
                        attempts: seq<InitialAttempt>, last: InitialAttempt)
    requires InitialCreated(start, l, t, key) && InitialProgress(start, failed, l, t, SessionFingerprint(created), key)
    requires forall i :: 0 <= i < |attempts| ==> Faithful(attempts[i], t, created)
    requires Faithful(last, t, created) && Try(TryAll(failed, l, attempts), l, last).1.Reconciled?
    ensures InitiallySettled(start, Try(TryAll(failed, l, attempts), l, last).0, l, t, SessionFingerprint(created), key)
  {
    TryAllProgress(start, failed, l, t, created, key, attempts);
    TryProgress(start, TryAll(failed, l, attempts), l, t, created, key, last);
  }

  /** An ambiguous first creation converges as well: UNKNOWN was recorded before anything was bound,
      and a reconciliation that succeeds leaves what a confirmed create without faults would have. */
  lemma AmbiguousInitialConverges(start: Doc, l: Lineage, t: PendingTransition, created: string, key: OperationKey,
                                  unknown: ResolveFault, attempts: seq<InitialAttempt>, last: InitialAttempt)
    requires InitialCreated(start, l, t, key) && Untouched(start, start, l, key)
    requires ReadOperation(start, key).record.state == InFlight
    requires forall i :: 0 <= i < |attempts| ==> Faithful(attempts[i], t, created)
    requires Faithful(last, t, created)
    requires
      var ambiguous := SufferResolve(start, l.laneId, key, RecordUnknown(map[]), unknown).0;
      Try(TryAll(ambiguous, l, attempts), l, last).1.Reconciled?
    ensures
      var ambiguous := SufferResolve(start, l.laneId, key, RecordUnknown(map[]), unknown).0;
      var recovered := Try(TryAll(ambiguous, l, attempts), l, last).0;
      var confirmed := SufferResolve(start, l.laneId, key, ReadBack(Some(true), map[]), ResolveFine).0;
      var faultFree := FinishInitial(confirmed, l, t, SessionFingerprint(created), key, NO_INITIAL_FAULTS, ResolveFine);
      faultFree.1 && SameOutcome(recovered, faultFree.0, l, key)
  {
    var fp := SessionFingerprint(created);
    var ambiguous := SufferResolve(start, l.laneId, key, RecordUnknown(map[]), unknown).0;
    ResolveStaysOnTheWay(start, start, l, key, RecordUnknown(map[]), unknown);
    RecoverySettles(start, ambiguous, l, t, created, key, attempts, last);
    ConfirmedFirstSettles(start, l, t, fp, key);
    var confirmed := SufferResolve(start, l.laneId, key, ReadBack(Some(true), map[]), ResolveFine).0;
    SettledOutcomesAgree(start, Try(TryAll(ambiguous, l, attempts), l, last).0,
                         FinishInitial(confirmed, l, t, fp, key, NO_INITIAL_FAULTS, ResolveFine).0, l, t, fp, key);
  }

  lemma ConfirmedFirstSettles(start: Doc, l: Lineage, t: PendingTransition, fp: Fingerprint, key: OperationKey)
    requires InitialCreated(start, l, t, key) && Untouched(start, start, l, key)
    requires ReadOperation(start, key).record.state == InFlight
    ensures
      var confirmed := SufferResolve(start, l.laneId, key, ReadBack(Some(true), map[]), ResolveFine).0;
      var (after, ok) := FinishInitial(confirmed, l, t, fp, key, NO_INITIAL_FAULTS, ResolveFine);
      ok && InitiallySettled(start, after, l, t, fp, key)
  {
    ResolveAlone(start, l.laneId, key, ReadBack(Some(true), map[]));
    ResolveIsContained(start, l, key, ReadBack(Some(true), map[]), ResolveFine);
    ResolveStaysOnTheWay(start, start, l, key, ReadBack(Some(true), map[]), ResolveFine);
    var confirmed := SufferResolve(start, l.laneId, key, ReadBack(Some(true), map[]), ResolveFine).0;
    InitialHandOffProgress(start, confirmed, l, t, fp, key, NO_INITIAL_FAULTS);
    var after := InitialHandOff(confirmed, l, t, fp, key, NO_INITIAL_FAULTS).0;
    assert ReadOperation(after, key) == ReadOperation(confirmed, key);
  }

  /** If the binding took effect and the accounting did not report success, no sequence of
      reconciliations recovers: the state stays as the failure left it, counted or not. */
  lemma BoundFailureIsNeverRecovered(start: Doc, l: Lineage, t: PendingTransition, created: string, key: OperationKey,
                                     faults: InitialFaults, unknown: ResolveFault, attempts: seq<InitialAttempt>, last: InitialAttempt)
    requires InitialCreated(start, l, t, key) && Untouched(start, start, l, key) && faults.bind != Skipped
    requires forall i :: 0 <= i < |attempts| ==> Faithful(attempts[i], t, created)
    ensures
      var failed := FinishInitial(start, l, t, SessionFingerprint(created), key, faults, unknown).0;
      TryAll(failed, l, attempts) == failed && !Try(failed, l, last).1.Reconciled?
  {
    var fp := SessionFingerprint(created);
    FinishProgressesFrom(start, start, l, t, fp, key, faults, unknown);
    var failed := FinishInitial(start, l, t, fp, key, faults, unknown).0;
    TryAllProgress(start, failed, l, t, created, key, attempts);
    BoundIsInert(start, failed, l, t, fp, key, last);
  }

  /** A failed first creation whose UNKNOWN was recorded is recovered by a reconciliation that lists
      exactly the created session exactly when its binding had not taken effect: when the lane still
      has generation 0. */
  lemma InitialRecoversExactlyWhenUnbound(start: Doc, l: Lineage, t: PendingTransition, created: string, key: OperationKey,
                                          faults: InitialFaults, inventory: seq<Session>)
    requires InitialCreated(start, l, t, key) && Untouched(start, start, l, key) && faults != NO_INITIAL_FAULTS
    requires |MatchesOf(inventory, t)| == 1 && Strip(MatchesOf(inventory, t)[0].name) == created
    ensures
      var failed := FinishInitial(start, l, t, SessionFingerprint(created), key, faults, ResolveFine).0;
      ReconcileInitial(failed, l, inventory, NO_INITIAL_RECONCILE_FAULTS).1.Reconciled? <==>
        EvidenceAt(failed, l.laneId).generation == 0
  {
    var fp := SessionFingerprint(created);
    FinishProgressesFrom(start, start, l, t, fp, key, faults, ResolveFine);
    var failed := FinishInitial(start, l, t, fp, key, faults, ResolveFine).0;
    if faults.bind == Skipped {
      UnboundFailureIsAdoptable(start, l, t, fp, key, faults);
      AdoptSucceeds(start, failed, l, t, created, key, inventory);
    } else {
      BoundIsInert(start, failed, l, t, fp, key, FromPending(inventory, NO_INITIAL_RECONCILE_FAULTS));
    }
  }

  lemma UnboundFailureIsAdoptable(start: Doc, l: Lineage, t: PendingTransition, fp: Fingerprint, key: OperationKey, faults: InitialFaults)
    requires InitialCreated(start, l, t, key) && Untouched(start, start, l, key) && faults.bind == Skipped
    ensures
      var failed := FinishInitial(start, l, t, fp, key, faults, ResolveFine).0;
      PendingInitialState(failed, l.laneId) == Some((key, t))
      && ReadOperation(failed, key).Found? && ReadOperation(failed, key).record.state == Unknown
  {
    InitialHandOffProgress(start, start, l, t, fp, key, faults);
    ResolveIsContained(start, l, key, RecordUnknown(map[]), ResolveFine);
    ResolveAlone(start, l.laneId, key, RecordUnknown(map[]));
  }

  lemma AdoptSucceeds(start: Doc, doc: Doc, l: Lineage, t: PendingTransition, created: string, key: OperationKey, inventory: seq<Session>)
    requires AwaitsBinding(start, l, t, key) && Untouched(start, doc, l, key)
    requires ReadOperation(doc, key).record.state in {InFlight, Unknown}
    requires |MatchesOf(inventory, t)| == 1 && Strip(MatchesOf(inventory, t)[0].name) == created
    ensures Adopt(doc, l, t, key, inventory, NO_INITIAL_RECONCILE_FAULTS).1.Reconciled?
  {
    ResolveAlone(doc, l.laneId, key, ReadBack(Some(true), map[]));
    ResolveStaysOnTheWay(start, doc, l, key, ReadBack(Some(true), map[]), ResolveFine);
    var confirmed := SufferResolve(doc, l.laneId, key, ReadBack(Some(true), map[]), ResolveFine).0;
    InitialHandOffProgress(start, confirmed, l, t, SessionFingerprint(created), key, NO_INITIAL_FAULTS);
  }

  // ---------------------------------------------------------------------------
  // On a store object
  // ---------------------------------------------------------------------------

  method AdoptSession(store: DeterministicStateStore, l: Lineage, t: PendingTransition, key: OperationKey,
                      inventory: seq<Session>, faults: InitialFaults) returns (decision: ReconcileDecision)
    requires store.Valid()
    modifies store
    ensures store.Valid()
    ensures (store.Contents(), decision) ==
      Adopt(old(store.Contents()), l, t, key, inventory, InitialReconcileFaults(ResolveFine, faults, ResolveFine))
  {
    var matches := MatchingSessions(inventory, t);
    if matches == [] { return UnknownNotYetObserved; }
    if |matches| != 1 { return AmbiguousDuplicate; }
    var fp := SessionFingerprint(Strip(matches[0].name));
    var confirmed := RecordAuthoritativeReadback(store, l.laneId, key, Some(true), map[]);
    if confirmed.Err? { return ReconcileRaised; }
    var ok := UpdateLane(store, BindInitialCall(l, t, fp), faults.bind);
    if ok {
      ok := UpdateLane(store, AccountCall(l, t, key), faults.account);
    }
    if ok { return Reconciled(fp); }
    var recorded := RecordUnknownWrite(store, l.laneId, key, map[]);
    decision := if recorded.Ok? then BindingRequired else ReconcileRaised;
  }

  method ReconcileUnknownInitial(store: DeterministicStateStore, l: Lineage, inventory: seq<Session>,
                                 faults: InitialFaults) returns (decision: ReconcileDecision)
    requires store.Valid()
    modifies store
    ensures store.Valid()
    ensures (store.Contents(), decision) ==
      ReconcileInitial(old(store.Contents()), l, inventory, InitialReconcileFaults(ResolveFine, faults, ResolveFine))
  {
    var read := store.ReadWorkstream(l.laneId);
    if !read.Found? || read.record.unknownWrite.None? || read.record.evidence.pendingInitial.None? { return ReconcileRaised; }
    var key, t := read.record.unknownWrite.value, read.record.evidence.pendingInitial.value;
    if !CompleteInitial(t) { return ReconcileRaised; }
    decision := AdoptSession(store, l, t, key, inventory, faults);
  }
}
