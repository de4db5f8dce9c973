/** Convergence among rivals: whatever fails and whatever others write in between, a reconciliation that
    succeeds on the created session leaves the lane as the undisturbed run without faults does. */
module RivalConvergence {
  import opened Wrappers
  import opened Records
  import opened StateStore
  import opened ClaimProtocol
  import opened GenerationProtocol
  import opened GenerationConvergence
  import opened RivalRecovery

  // ---------------------------------------------------------------------------
  // Reconciliations among rivals
  // ---------------------------------------------------------------------------

  datatype ReconcileRivals = ReconcileRivals(before: Drift, readback: nat -> Drift, handOff: HandOffRivals, unknown: nat -> Drift)

  ghost predicate BenignReconcile(r: ReconcileRivals, view: Doc -> Option<View>) {
    && Benign(r.before, view) && BenignSteps(r.readback, view)
    && BenignHandOff(r.handOff, view) && BenignSteps(r.unknown, view)
  }

  /** The hand-off, and UNKNOWN recorded if it fails. */
  function HandOffOrUnknownAmong(doc: Doc, l: Lineage, t: PendingTransition, fp: Fingerprint, key: OperationKey,
                                 faults: HandOffFaults, unknown: ResolveFault, r: HandOffRivals, s: nat -> Drift)
    : (Doc, bool, bool)
  {
    var (after, ok) := HandOffAmong(doc, l, t, fp, key, faults, r);
    if ok then (after, true, true)
    else
      var (saved, recorded) := ResolveAmong(after, l.laneId, key, RecordUnknown(map[]), unknown, s);
      (saved, false, recorded)
  }

  /** The same without rivals. */
  function HandOffOrUnknown(doc: Doc, l: Lineage, t: PendingTransition, fp: Fingerprint, key: OperationKey,
                            faults: HandOffFaults, unknown: ResolveFault): (Doc, bool, bool)
  {
    var (after, ok) := HandOff(doc, l, t, fp, key, faults);
    if ok then (after, true, true)
    else
      var (saved, recorded) := SufferResolve(after, l.laneId, key, RecordUnknown(map[]), unknown);
      (saved, false, recorded)
  }

  function DecisionOf(fp: Fingerprint, done: bool, recorded: bool): ReconcileDecision {
    if done then Reconciled(fp) else if recorded then BindingRequired else ReconcileRaised
  }

  /** Adopts the one matching session, rivals striking before the first read and between any two steps. */
  function ReconcileAmong(doc: Doc, l: Lineage, inventory: seq<Session>, faults: ReconcileFaults, r: ReconcileRivals)
    : (Doc, ReconcileDecision)
  {
    var now := r.before(doc);
    match PendingState(now, l.laneId)
    case None => (now, ReconcileRaised)
    case Some((key, t)) =>
      var matches := MatchesOf(inventory, t);
      if matches == [] then (now, UnknownNotYetObserved)
      else if |matches| != 1 then (now, AmbiguousDuplicate)
      else
        var fp := SessionFingerprint(matches[0].name);
        var (confirmed, ok) := ResolveAmong(now, l.laneId, key, ReadBack(Some(true), map[]), faults.readback, r.readback);
        if !ok then (confirmed, ReconcileRaised)
        else
          var (after, done, recorded) :=
            HandOffOrUnknownAmong(confirmed, l, t, fp, key, faults.handOff, faults.unknown, r.handOff, r.unknown);
          (after, DecisionOf(fp, done, recorded))
  }

  lemma HandOffOrUnknownActsAsFaults(doc: Doc, alone: Doc, l: Lineage, t: PendingTransition, fp: Fingerprint, key: OperationKey,
                                     faults: HandOffFaults, unknown: ResolveFault, r: HandOffRivals, s: nat -> Drift)
    returns (alike: HandOffFaults, unknownAlike: ResolveFault)
    requires ViewOf(doc, l, t, key).Some? && ViewOf(doc, l, t, key) == ViewOf(alone, l, t, key)
    requires BenignHandOff(r, Viewer(l, t, key)) && BenignSteps(s, Viewer(l, t, key))
    ensures
      var x := HandOffOrUnknownAmong(doc, l, t, fp, key, faults, unknown, r, s);
      var y := HandOffOrUnknown(alone, l, t, fp, key, alike, unknownAlike);
      SameEnd((x.0, x.1), (y.0, y.1), Viewer(l, t, key)) && x.2 == y.2
  {
    alike := HandOffActsAsFaults(doc, alone, l, t, fp, key, faults, r);
    unknownAlike := unknown;
    var (after, ok) := HandOffAmong(doc, l, t, fp, key, faults, r);
    if !ok {
      unknownAlike := ResolveActsAsFault(after, HandOff(alone, l, t, fp, key, alike).0, l, t, key, RecordUnknown(map[]), unknown, s);
    }
  }

  /** The pending state is part of the view. */
  lemma ViewShowsPending(doc: Doc, l: Lineage, t: PendingTransition, key: OperationKey)
    requires ViewOf(doc, l, t, key).Some?
    ensures
      var v := ViewOf(doc, l, t, key).value;
      PendingState(doc, l.laneId) == if v.unknown.Some? && v.evidence.pending.Some? then Some((key, t)) else None
  {
  }

  /** Reconcile in terms of the steps above. */
  lemma ReconcileUnfolds(doc: Doc, l: Lineage, inventory: seq<Session>, faults: ReconcileFaults, key: OperationKey, t: PendingTransition)
    requires PendingState(doc, l.laneId) == Some((key, t)) && |MatchesOf(inventory, t)| == 1
    ensures
      var fp := SessionFingerprint(MatchesOf(inventory, t)[0].name);
      var (confirmed, ok) := SufferResolve(doc, l.laneId, key, ReadBack(Some(true), map[]), faults.readback);
      var x := HandOffOrUnknown(confirmed, l, t, fp, key, faults.handOff, faults.unknown);
      Reconcile(doc, l, inventory, faults) == if ok then (x.0, DecisionOf(fp, x.1, x.2)) else (confirmed, ReconcileRaised)
  {
  }

  /** A reconciliation among rivals is, as far as view and decision go, one without rivals under other
      faults. */
  lemma ReconcileActsAsFaults(doc: Doc, alone: Doc, l: Lineage, t: PendingTransition, key: OperationKey,
                              inventory: seq<Session>, faults: ReconcileFaults, r: ReconcileRivals) returns (alike: ReconcileFaults)
    requires ViewOf(doc, l, t, key).Some? && ViewOf(doc, l, t, key) == ViewOf(alone, l, t, key)
    requires BenignReconcile(r, Viewer(l, t, key))
    ensures
      var ((x, d), (y, e)) := (ReconcileAmong(doc, l, inventory, faults, r), Reconcile(alone, l, inventory, alike));
      ViewOf(x, l, t, key) == ViewOf(y, l, t, key) && ViewOf(x, l, t, key).Some? && d == e
  {
    alike := faults;
    var now := r.before(doc);
    assert Viewer(l, t, key)(now) == Viewer(l, t, key)(doc);
    ViewShowsPending(now, l, t, key);
    ViewShowsPending(alone, l, t, key);
    if PendingState(now, l.laneId).Some? && |MatchesOf(inventory, t)| == 1 {
      alike := AdoptionActsAsFaults(now, alone, l, t, key, inventory, faults, r);
      ReconcileUnfolds(alone, l, inventory, alike, key, t);
    }
  }

  lemma AdoptionActsAsFaults(now: Doc, alone: Doc, l: Lineage, t: PendingTransition, key: OperationKey,
                             inventory: seq<Session>, faults: ReconcileFaults, r: ReconcileRivals) returns (alike: ReconcileFaults)
    requires ViewOf(now, l, t, key).Some? && ViewOf(now, l, t, key) == ViewOf(alone, l, t, key)
    requires BenignReconcile(r, Viewer(l, t, key)) && |MatchesOf(inventory, t)| == 1
    ensures
      var fp := SessionFingerprint(MatchesOf(inventory, t)[0].name);
      var (a, p) := ResolveAmong(now, l.laneId, key, ReadBack(Some(true), map[]), faults.readback, r.readback);
      var (b, q) := SufferResolve(alone, l.laneId, key, ReadBack(Some(true), map[]), alike.readback);
      var x := HandOffOrUnknownAmong(a, l, t, fp, key, faults.handOff, faults.unknown, r.handOff, r.unknown);
      var y := HandOffOrUnknown(b, l, t, fp, key, alike.handOff, alike.unknown);
      && SameEnd((a, p), (b, q), Viewer(l, t, key))
      && (p ==> SameEnd((x.0, x.1), (y.0, y.1), Viewer(l, t, key)) && x.2 == y.2)
  {
    var fp := SessionFingerprint(MatchesOf(inventory, t)[0].name);
    var readback := ResolveActsAsFault(now, alone, l, t, key, ReadBack(Some(true), map[]), faults.readback, r.readback);
    alike := faults.(readback := readback);
    var (a, p) := ResolveAmong(now, l.laneId, key, ReadBack(Some(true), map[]), faults.readback, r.readback);
    if p {
      var b := SufferResolve(alone, l.laneId, key, ReadBack(Some(true), map[]), readback).0;
      var handOff, unknown := HandOffOrUnknownActsAsFaults(a, b, l, t, fp, key, faults.handOff, faults.unknown, r.handOff, r.unknown);
      alike := ReconcileFaults(readback, handOff, unknown);
    }
  }

  // ---------------------------------------------------------------------------
  // Attempts among rivals
  // ---------------------------------------------------------------------------

  datatype ContendedAttempt = ContendedAttempt(attempt: Attempt, rivals: ReconcileRivals)

  function Contend(doc: Doc, l: Lineage, a: ContendedAttempt): (Doc, ReconcileDecision) {
    ReconcileAmong(doc, l, a.attempt.inventory, a.attempt.faults, a.rivals)
  }

  /** Steps one after the other. */
  function Chain<A>(doc: Doc, step: (Doc, A) -> Doc, steps: seq<A>): Doc {
    if |steps| == 0 then doc else step(Chain(doc, step, steps[..|steps| - 1]), steps[|steps| - 1])
  }

  function Contender(l: Lineage): (Doc, ContendedAttempt) -> Doc {
    (doc: Doc, a: ContendedAttempt) => Contend(doc, l, a).0
  }

  function Reconciler(l: Lineage): (Doc, Attempt) -> Doc {
    (doc: Doc, a: Attempt) => Reconcile(doc, l, a.inventory, a.faults).0
  }

  function ContendAll(doc: Doc, l: Lineage, attempts: seq<ContendedAttempt>): Doc {
    Chain(doc, Contender(l), attempts)
  }

  ghost predicate BenignAttempts(attempts: seq<ContendedAttempt>, view: Doc -> Option<View>) {
    forall i :: 0 <= i < |attempts| ==> BenignReconcile(attempts[i].rivals, view)
  }

  /** Attempts with the same listings. */
  predicate SameListings(attempts: seq<ContendedAttempt>, alike: seq<Attempt>) {
    |alike| == |attempts| && forall i :: 0 <= i < |alike| ==> alike[i].inventory == attempts[i].attempt.inventory
  }

  /** From documents with one view, the step is matched by some step of the other kind. */
  ghost predicate Matched(x: ContendedAttempt, f: (Doc, ContendedAttempt) -> Doc, g: (Doc, Attempt) -> Doc, view: Doc -> Option<View>) {
    forall a, b :: view(a).Some? && view(a) == view(b) ==> MatchedFrom(a, b, x, f, g, view)
  }

  ghost predicate MatchedFrom(a: Doc, b: Doc, x: ContendedAttempt, f: (Doc, ContendedAttempt) -> Doc, g: (Doc, Attempt) -> Doc,
                              view: Doc -> Option<View>)
  {
    exists y: Attempt :: y.inventory == x.attempt.inventory && view(f(a, x)).Some? && view(f(a, x)) == view(g(b, y))
  }

  lemma {:induction false} ChainsMatch(doc: Doc, alone: Doc, attempts: seq<ContendedAttempt>, f: (Doc, ContendedAttempt) -> Doc,
                                       g: (Doc, Attempt) -> Doc, view: Doc -> Option<View>) returns (alike: seq<Attempt>)
    requires view(doc).Some? && view(doc) == view(alone)
    requires forall i :: 0 <= i < |attempts| ==> Matched(attempts[i], f, g, view)
    ensures SameListings(attempts, alike)
    ensures view(Chain(doc, f, attempts)).Some? && view(Chain(doc, f, attempts)) == view(Chain(alone, g, alike))
  {
    alike := [];
    if |attempts| > 0 {
      var init, last := attempts[..|attempts| - 1], attempts[|attempts| - 1];
      var before := ChainsMatch(doc, alone, init, f, g, view);
      var a, b := Chain(doc, f, init), Chain(alone, g, before);
      assert MatchedFrom(a, b, last, f, g, view) by { assert Matched(last, f, g, view); }
      var y: Attempt :| y.inventory == last.attempt.inventory && view(f(a, last)).Some? && view(f(a, last)) == view(g(b, y));
      alike := before + [y];
      assert alike[..|alike| - 1] == before;
    }
  }

  lemma {:induction false} AttemptsAreAChain(doc: Doc, l: Lineage, attempts: seq<Attempt>)
    ensures Attempts(doc, l, attempts) == Chain(doc, Reconciler(l), attempts)
  {
    if attempts != [] {
      AttemptsAreAChain(doc, l, attempts[..|attempts| - 1]);
    }
  }

  /** Attempts among rivals are, as far as the view goes, attempts without rivals under other faults. */
  lemma AttemptsActAsFaults(doc: Doc, alone: Doc, l: Lineage, t: PendingTransition, key: OperationKey,
                            attempts: seq<ContendedAttempt>) returns (alike: seq<Attempt>)
    requires ViewOf(doc, l, t, key).Some? && ViewOf(doc, l, t, key) == ViewOf(alone, l, t, key)
    requires BenignAttempts(attempts, Viewer(l, t, key))
    ensures SameListings(attempts, alike)
    ensures ViewOf(ContendAll(doc, l, attempts), l, t, key).Some?
    ensures ViewOf(ContendAll(doc, l, attempts), l, t, key) == ViewOf(Attempts(alone, l, alike), l, t, key)
  {
    forall i | 0 <= i < |attempts| ensures Matched(attempts[i], Contender(l), Reconciler(l), Viewer(l, t, key)) {
      AttemptIsMatched(attempts[i], l, t, key);
    }
    alike := ChainsMatch(doc, alone, attempts, Contender(l), Reconciler(l), Viewer(l, t, key));
    AttemptsAreAChain(alone, l, alike);
  }

  lemma AttemptIsMatched(x: ContendedAttempt, l: Lineage, t: PendingTransition, key: OperationKey)
    requires BenignReconcile(x.rivals, Viewer(l, t, key))
    ensures Matched(x, Contender(l), Reconciler(l), Viewer(l, t, key))
  {
    var view, f, g := Viewer(l, t, key), Contender(l), Reconciler(l);
    forall a, b | view(a).Some? && view(a) == view(b) ensures MatchedFrom(a, b, x, f, g, view) {
      var y := AttemptActsAsFaults(a, b, l, t, key, x);
      assert view(f(a, x)) == view(g(b, y));
    }
  }

  lemma AttemptActsAsFaults(doc: Doc, alone: Doc, l: Lineage, t: PendingTransition, key: OperationKey, a: ContendedAttempt)
    returns (alike: Attempt)
    requires ViewOf(doc, l, t, key).Some? && ViewOf(doc, l, t, key) == ViewOf(alone, l, t, key)
    requires BenignReconcile(a.rivals, Viewer(l, t, key))
    ensures alike.inventory == a.attempt.inventory
    ensures ViewOf(Contend(doc, l, a).0, l, t, key).Some?
    ensures ViewOf(Contend(doc, l, a).0, l, t, key) == ViewOf(Reconcile(alone, l, alike.inventory, alike.faults).0, l, t, key)
  {
    var faults := ReconcileActsAsFaults(doc, alone, l, t, key, a.attempt.inventory, a.attempt.faults, a.rivals);
    alike := Attempt(a.attempt.inventory, faults);
  }

  // ---------------------------------------------------------------------------
  // Convergence
  // ---------------------------------------------------------------------------

  /** Binding, marks and operation state agree, and the generation is counted in both. */
  ghost predicate SameLaneOutcome(a: Doc, b: Doc, l: Lineage, t: PendingTransition, key: OperationKey) {
    && ViewOf(a, l, t, key).Some? && ViewOf(b, l, t, key).Some?
    && var (v, w) := (ViewOf(a, l, t, key).value, ViewOf(b, l, t, key).value);
       && v.evidence == w.evidence && v.unknown == w.unknown && v.operation.state == w.operation.state
       && v.counted && w.counted
  }

  lemma CreatedIsRecovering(start: Doc, l: Lineage, t: PendingTransition, key: OperationKey)
    requires Created(start, l, t, key) && ReadLane(start, l.laneId).record.unknownWrite == None
    ensures ViewOf(start, l, t, key).Some?
  {
  }

  /** Two settled documents, and one with the view of the first. */
  lemma SettledViewsAgree(start: Doc, seen: Doc, a: Doc, b: Doc, l: Lineage, t: PendingTransition, fp: Fingerprint, key: OperationKey)
    requires Created(start, l, t, key) && Settled(start, a, l, t, fp, key) && Settled(start, b, l, t, fp, key)
    requires ViewOf(seen, l, t, key).Some? && ViewOf(seen, l, t, key) == ViewOf(a, l, t, key)
    requires ViewOf(b, l, t, key).Some?
    ensures SameLaneOutcome(seen, b, l, t, key)
  {
    WindowedKeepsNewest(EvidenceAt(start, l.budgetLane).accounting.operations, key);
  }

  lemma SettledIsRecovering(start: Doc, doc: Doc, l: Lineage, t: PendingTransition, fp: Fingerprint, key: OperationKey)
    requires Created(start, l, t, key) && Progress(start, doc, l, t, fp, key)
    ensures ViewOf(doc, l, t, key).Some?
  {
  }

  /** Rivals included: from a document with the view of one the recovery without rivals can stand at, a
      reconciliation that succeeds among rivals has the outcome of any settled document. */
  lemma ContendedRecoverySettles(start: Doc, doc: Doc, alone: Doc, free: Doc, l: Lineage, t: PendingTransition, created: string,
                                 key: OperationKey, attempts: seq<ContendedAttempt>, last: ContendedAttempt)
    requires Created(start, l, t, key) && Progress(start, alone, l, t, SessionFingerprint(created), key)
    requires ViewOf(doc, l, t, key).Some? && ViewOf(doc, l, t, key) == ViewOf(alone, l, t, key)
    requires Settled(start, free, l, t, SessionFingerprint(created), key) && ViewOf(free, l, t, key).Some?
    requires BenignAttempts(attempts, Viewer(l, t, key)) && BenignReconcile(last.rivals, Viewer(l, t, key))
    requires forall i :: 0 <= i < |attempts| ==> FaithfulListing(attempts[i].attempt.inventory, t, created)
    requires FaithfulListing(last.attempt.inventory, t, created)
    requires Contend(ContendAll(doc, l, attempts), l, last).1.Reconciled?
    ensures SameLaneOutcome(Contend(ContendAll(doc, l, attempts), l, last).0, free, l, t, key)
  {
    var fp := SessionFingerprint(created);
    var alike := AttemptsActAsFaults(doc, alone, l, t, key, attempts);
    var stood := Attempts(alone, l, alike);
    var faults := ReconcileActsAsFaults(ContendAll(doc, l, attempts), stood, l, t, key,
                                        last.attempt.inventory, last.attempt.faults, last.rivals);
    AttemptsProgress(start, alone, l, t, created, key, alike);
    ReconcileProgress(start, stood, l, t, created, key, last.attempt.inventory, faults);
    SettledViewsAgree(start, Contend(ContendAll(doc, l, attempts), l, last).0,
                      Reconcile(stood, l, last.attempt.inventory, faults).0, free, l, t, fp, key);
  }

  /** The hand-off after a confirmed create among rivals; a failure records UNKNOWN. */
  function FinishCreateAmong(doc: Doc, l: Lineage, t: PendingTransition, fp: Fingerprint, key: OperationKey,
                             faults: HandOffFaults, unknown: ResolveFault, r: HandOffRivals, s: nat -> Drift): Doc
  {
    HandOffOrUnknownAmong(doc, l, t, fp, key, faults, unknown, r, s).0
  }

  /** Any faults and any rivals after a confirmed create, any number of reconciliations with any faults
      among any rivals, then one that succeeds: the lane is as the undisturbed run without faults leaves
      it, and the generation is counted. */
  lemma FaultsConvergeAmongRivals(start: Doc, l: Lineage, t: PendingTransition, created: string, key: OperationKey,
                                  faults: HandOffFaults, unknown: ResolveFault, r: HandOffRivals, s: nat -> Drift,
                                  attempts: seq<ContendedAttempt>, last: ContendedAttempt)
    requires Created(start, l, t, key) && ReadLane(start, l.laneId).record.unknownWrite == None
    requires ReadOperation(start, key).record.state == Confirmed
    requires BenignHandOff(r, Viewer(l, t, key)) && BenignSteps(s, Viewer(l, t, key))
    requires BenignAttempts(attempts, Viewer(l, t, key)) && BenignReconcile(last.rivals, Viewer(l, t, key))
    requires forall i :: 0 <= i < |attempts| ==> FaithfulListing(attempts[i].attempt.inventory, t, created)
    requires FaithfulListing(last.attempt.inventory, t, created)
    requires
      var failed := FinishCreateAmong(start, l, t, SessionFingerprint(created), key, faults, unknown, r, s);
      Contend(ContendAll(failed, l, attempts), l, last).1.Reconciled?
    ensures
      var fp := SessionFingerprint(created);
      var failed := FinishCreateAmong(start, l, t, fp, key, faults, unknown, r, s);
      var faultFree := FinishCreate(start, l, t, fp, key, NO_FAULTS, ResolveFine);
      faultFree.1 && SameLaneOutcome(Contend(ContendAll(failed, l, attempts), l, last).0, faultFree.0, l, t, key)
  {
    var fp := SessionFingerprint(created);
    CreatedIsRecovering(start, l, t, key);
    var alike, unknownAlike := HandOffOrUnknownActsAsFaults(start, start, l, t, fp, key, faults, unknown, r, s);
    var alone := FinishCreate(start, l, t, fp, key, alike, unknownAlike).0;
    assert alone == HandOffOrUnknown(start, l, t, fp, key, alike, unknownAlike).0;
    FinishProgress(start, l, t, fp, key, alike, unknownAlike);
    var free := HandOff(start, l, t, fp, key, NO_FAULTS).0;
    HandOffProgress(start, start, l, t, fp, key, NO_FAULTS);
    SettledIsRecovering(start, free, l, t, fp, key);
    ContendedRecoverySettles(start, FinishCreateAmong(start, l, t, fp, key, faults, unknown, r, s), alone, free,
                             l, t, created, key, attempts, last);
  }

  /** The same when the create itself stayed ambiguous and UNKNOWN was recorded among rivals. */
  lemma AmbiguousConvergesAmongRivals(start: Doc, l: Lineage, t: PendingTransition, created: string, key: OperationKey,
                                      unknown: ResolveFault, s: nat -> Drift,
                                      attempts: seq<ContendedAttempt>, last: ContendedAttempt)
    requires Created(start, l, t, key) && ReadLane(start, l.laneId).record.unknownWrite == None
    requires ReadOperation(start, key).record.state == InFlight
    requires BenignSteps(s, Viewer(l, t, key))
    requires BenignAttempts(attempts, Viewer(l, t, key)) && BenignReconcile(last.rivals, Viewer(l, t, key))
    requires forall i :: 0 <= i < |attempts| ==> FaithfulListing(attempts[i].attempt.inventory, t, created)
    requires FaithfulListing(last.attempt.inventory, t, created)
    requires
      var ambiguous := ResolveAmong(start, l.laneId, key, RecordUnknown(map[]), unknown, s).0;
      Contend(ContendAll(ambiguous, l, attempts), l, last).1.Reconciled?
    ensures
      var ambiguous := ResolveAmong(start, l.laneId, key, RecordUnknown(map[]), unknown, s).0;
      var confirmed := SufferResolve(start, l.laneId, key, ReadBack(Some(true), map[]), ResolveFine).0;
      var faultFree := FinishCreate(confirmed, l, t, SessionFingerprint(created), key, NO_FAULTS, ResolveFine);
      faultFree.1 && SameLaneOutcome(Contend(ContendAll(ambiguous, l, attempts), l, last).0, faultFree.0, l, t, key)
  {
    var fp := SessionFingerprint(created);
    CreatedIsRecovering(start, l, t, key);
    var alike := ResolveActsAsFault(start, start, l, t, key, RecordUnknown(map[]), unknown, s);
    var alone := SufferResolve(start, l.laneId, key, RecordUnknown(map[]), alike).0;
    ResolveIsContained(start, l, key, RecordUnknown(map[]), alike);
    ResolveProgress(start, start, alone, l, t, fp, key);
    ConfirmedCreateSettles(start, l, t, fp, key);
    var confirmed := SufferResolve(start, l.laneId, key, ReadBack(Some(true), map[]), ResolveFine).0;
    ConfirmedCreateProgress(start, l, t, fp, key);
    SettledIsRecovering(start, HandOff(confirmed, l, t, fp, key, NO_FAULTS).0, l, t, fp, key);
    ContendedRecoverySettles(start, ResolveAmong(start, l.laneId, key, RecordUnknown(map[]), unknown, s).0, alone,
                             HandOff(confirmed, l, t, fp, key, NO_FAULTS).0, l, t, created, key, attempts, last);
  }

  lemma ConfirmedCreateProgress(start: Doc, l: Lineage, t: PendingTransition, fp: Fingerprint, key: OperationKey)
    requires Created(start, l, t, key) && ReadLane(start, l.laneId).record.unknownWrite == None
    ensures
      var confirmed := SufferResolve(start, l.laneId, key, ReadBack(Some(true), map[]), ResolveFine).0;
      Progress(start, HandOff(confirmed, l, t, fp, key, NO_FAULTS).0, l, t, fp, key)
  {
    ResolveIsContained(start, l, key, ReadBack(Some(true), map[]), ResolveFine);
    var confirmed := SufferResolve(start, l.laneId, key, ReadBack(Some(true), map[]), ResolveFine).0;
    ResolveProgress(start, start, confirmed, l, t, fp, key);
    HandOffProgress(start, confirmed, l, t, fp, key, NO_FAULTS);
  }
}
