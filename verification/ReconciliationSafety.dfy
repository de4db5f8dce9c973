/** What a reconciliation guarantees: actions rest on evidence about the current head, a moved
    candidate stops every effect, and reconciling again changes nothing. */
module ReconciliationSafety {
  import opened Wrappers
  import opened Text
  import opened Lifecycle
  import opened Bindings
  import opened Reconciliation

  // ---------------------------------------------------------------------------
  // Exact-SHA safety
  // ---------------------------------------------------------------------------

  /** Unstale CI evidence for exactly the head SHA. */
  predicate CurrentCi(b: Binding) {
    && b.ci.Some? && IsSha(b.ci.value.candidateSha) && IsSha(b.headSha)
    && SameSha(b.ci.value.candidateSha.value, b.headSha.value) && !b.ci.value.stale
  }

  /** An unstale review of exactly the head SHA. */
  predicate CurrentReview(b: Binding) {
    && b.review.Some? && IsSha(b.review.value.reviewedSha) && IsSha(b.headSha)
    && SameSha(b.review.value.reviewedSha.value, b.headSha.value) && !b.review.value.stale
  }

  /** The provider actor an effect is addressed to is bound once and proven. */
  predicate AddressedToProvenActor(b: Binding, action: NextAction) {
    ProviderActorRole(b, action).Some? ==> ResolveActorBinding(b, ProviderActorRole(b, action).value).Proven()
  }

  /** Every applicable requirement of the evidence profile is proven and current. */
  predicate RequirementsMet(b: Binding, action: NextAction) {
    b.profile.Some? ==>
      forall r | r in b.profile.value.requirements && r.AppliesTo(action) :: r.proven && r.current
  }

  lemma CiIssuesExactly(b: Binding)
    ensures CiEvidenceIssues(b) == {} && IsSha(b.headSha) ==> CurrentCi(b)
  {
  }

  lemma ReviewIssuesExactly(b: Binding)
    ensures ReviewEvidenceIssues(b) == {} && IsSha(b.headSha) ==> CurrentReview(b)
  {
  }

  lemma MetWithoutIssues(r: Requirement, seen: set<string>)
    requires RequirementIssues(r, seen) == {}
    ensures r.proven && r.current
  {
  }

  lemma {:induction false} ProfileIssuesCover(requirements: seq<Requirement>, action: NextAction)
    requires ApplicableIssues(requirements, action) == {}
    ensures forall r | r in requirements && r.AppliesTo(action) :: r.proven && r.current
  {
    if requirements != [] {
      var before, last := requirements[..|requirements| - 1], requirements[|requirements| - 1];
      assert requirements == before + [last];
      ProfileIssuesCover(before, action);
      if last.AppliesTo(action) { MetWithoutIssues(last, NamesOf(before, action)); }
    }
  }

  /** What an action that nothing stands in the way of rests on. */
  predicate RestsOnEvidence(b: Binding, action: NextAction) {
    && (action in {StartExactShaReview, StartReReview} ==> CurrentCi(b))
    && (action in {RequestParentReview, RouteFindingsToSameWriter} ==> CurrentReview(b))
    && (ActionCapability(action) == ExternalEffect ==> AddressedToProvenActor(b, action))
    && RequirementsMet(b, action)
  }

  lemma ClearActionHasNoIssues(b: Binding, action: NextAction)
    requires ActionIssues(b, action, ActionCapability(action)) == {}
    ensures NeedsExactHead(action) ==> IsSha(b.headSha)
    ensures NeedsCi(action) ==> CiEvidenceIssues(b) == {}
    ensures NeedsReview(action) ==> ReviewEvidenceIssues(b) == {}
    ensures ActorIssues(b, action, ActionCapability(action)) == {} && ProfileIssues(b, action) == {}
  {
  }

  lemma ClearActionMeetsRequirements(b: Binding, action: NextAction)
    requires ProfileIssues(b, action) == {}
    ensures RequirementsMet(b, action)
  {
    if b.profile.Some? {
      ProfileIssuesCover(b.profile.value.requirements, action);
    }
  }

  lemma ClearActionRestsOnEvidence(b: Binding, action: NextAction)
    requires ActionIssues(b, action, ActionCapability(action)) == {}
    ensures RestsOnEvidence(b, action)
  {
    ClearActionHasNoIssues(b, action);
    if action in {StartExactShaReview, StartReReview} { CiIssuesExactly(b); }
    if action in {RequestParentReview, RouteFindingsToSameWriter} { ReviewIssuesExactly(b); }
    ClearActorIsProven(b, action);
    ClearActionMeetsRequirements(b, action);
  }

  lemma ClearActorIsProven(b: Binding, action: NextAction)
    requires ActorIssues(b, action, ActionCapability(action)) == {}
    ensures ActionCapability(action) == ExternalEffect ==> AddressedToProvenActor(b, action)
  {
  }

  /** An offered action is the resolution of the settled binding, and nothing stands in its way. */
  lemma OfferIsClear(b: Binding)
    requires Settle(b).resolution.action.Some?
    ensures
      var r := Settle(b);
      && r.resolution == ResolutionOf(b) && r.issues == {}
      && r.binding == b.(nextAction := r.resolution.action, stopGate := None)
      && ActionIssues(b, r.resolution.action.value, ActionCapability(r.resolution.action.value)) == {}
  {
    ActionXorGate(ContextOf(b));
  }

  function SettledBinding(b: Binding, previous: Option<Binding>): Binding {
    InvalidateMismatch(InvalidateShaMove(b, previous).binding).binding
  }

  /** A review is dispatched only on unstale CI of the head, parent review asked for and findings
      routed only on an unstale review of it, effects go to proven actors, and every requirement of
      the profile is met. */
  lemma ActionsRestOnCurrentEvidence(b: Binding, previous: Option<Binding>)
    requires ReconcileWorkstream(b, previous).resolution.action.Some?
    ensures
      var r := ReconcileWorkstream(b, previous);
      && RestsOnEvidence(r.binding, r.resolution.action.value)
      && r.binding.nextAction == r.resolution.action && r.issues == {}
  {
    var s := SettledBinding(b, previous);
    var action := ReconcileWorkstream(b, previous).resolution.action.value;
    OfferSettles(b, previous);
    OfferIsClear(s);
    ClearActionRestsOnEvidence(s, action);
    EvidenceIgnoresRouting(s, action, Some(action), None);
  }

  lemma OfferSettles(b: Binding, previous: Option<Binding>)
    requires ReconcileWorkstream(b, previous).resolution.action.Some?
    ensures
      var r, s := ReconcileWorkstream(b, previous), Settle(SettledBinding(b, previous));
      r.resolution == s.resolution && r.binding == s.binding && r.issues == s.issues
  {
    BlockedOffersNothing(b, StructuralIssues(b), IncompleteBinding);
    BlockedOffersNothing(b, DriftIssues(b, previous), BindingDriftReconciliationRequired);
    ReconcileSettles(b, previous);
  }

  lemma BlockedOffersNothing(b: Binding, issues: set<Issue>, gate: StopGate)
    ensures Blocked(b, issues, gate).resolution.action.None?
  {
  }

  /** A sound lane without drift is settled after the invalidations. */
  lemma ReconcileSettles(b: Binding, previous: Option<Binding>)
    ensures StructuralIssues(b) == {} && DriftIssues(b, previous) == {} ==>
      var r, s := ReconcileWorkstream(b, previous), Settle(SettledBinding(b, previous));
      r.resolution == s.resolution && r.binding == s.binding && r.issues == s.issues
  {
  }

  lemma EvidenceIgnoresRouting(b: Binding, action: NextAction, next: Option<NextAction>, gate: Option<StopGate>)
    requires RestsOnEvidence(b, action)
    ensures RestsOnEvidence(b.(nextAction := next, stopGate := gate), action)
  {
    RoutingIsNotEvidence(b, next, gate);
  }

  /** The recorded action and gate play no part in any check. */
  lemma RoutingIsNotEvidence(b: Binding, action: Option<NextAction>, gate: Option<StopGate>)
    ensures
      var routed := b.(nextAction := action, stopGate := gate);
      && CanonicalActors(routed) == CanonicalActors(b)
      && (forall role :: ResolveActorBinding(routed, role) == ResolveActorBinding(b, role))
  {
  }

  /** A reported candidate movement never comes with an external effect. */
  lemma MovedCandidateStopsEffects(b: Binding, previous: Option<Binding>)
    requires ReconcileWorkstream(b, previous).moved
    ensures
      var r := ReconcileWorkstream(b, previous);
      && r.resolution.capability != ExternalEffect
      && r.binding.state == NewSha
      && r.resolution.action in {None, Some(InvalidatePriorReview), Some(VerifyActionInFlight)}
  {
    MovementSettles(b, previous);
    NewShaStopsEffects(SettledBinding(b, previous));
  }

  lemma MovementSettles(b: Binding, previous: Option<Binding>)
    requires ReconcileWorkstream(b, previous).moved
    ensures
      var s := SettledBinding(b, previous);
      && s.state == NewSha
      && ReconcileWorkstream(b, previous).resolution == Settle(s).resolution
      && ReconcileWorkstream(b, previous).binding == Settle(s).binding
  {
  }

  lemma NewShaStopsEffects(b: Binding)
    requires b.state == NewSha
    ensures
      var r := Settle(b);
      && r.resolution.capability != ExternalEffect && r.binding.state == NewSha
      && r.resolution.action in {None, Some(InvalidatePriorReview), Some(VerifyActionInFlight)}
  {
    var resolution := ResolutionOf(b);
    assert resolution.action in {Some(InvalidatePriorReview), Some(VerifyActionInFlight)};
    assert resolution.capability == ReadOnly;
  }

  /** Movement is reported for every lane whose binding is sound, undrifted and has another head than
      before, and for no other. */
  lemma MovementIsReportedExactlyWhen(b: Binding, previous: Option<Binding>)
    ensures ReconcileWorkstream(b, previous).moved <==>
      StructuralIssues(b) == {} && DriftIssues(b, previous) == {} && ShaMoved(b, previous)
  {
  }

  /** After a reconciliation that is not blocked on structure or drift, evidence about another SHA
      than the head is stale, the flags say so, and evidence about the head is as stale as it was. */
  lemma StalenessIsExact(b: Binding, previous: Option<Binding>)
    requires StructuralIssues(b) == {} && DriftIssues(b, previous) == {}
    ensures
      var r := ReconcileWorkstream(b, previous);
      var inherited := InvalidateShaMove(b, previous).binding;
      && (r.reviewInvalidated <==> ReviewsOther(r.binding.review, b.headSha))
      && (r.ciInvalidated <==> ChecksOther(r.binding.ci, b.headSha))
      && (r.reviewInvalidated ==> r.binding.review.value.stale)
      && (r.ciInvalidated ==> r.binding.ci.value.stale)
      && (!r.reviewInvalidated ==> r.binding.review == inherited.review)
      && (!r.ciInvalidated ==> r.binding.ci == inherited.ci)
  {
    SettledUnlessBlocked(b, previous);
    SettleKeepsBinding(SettledBinding(b, previous));
    MismatchMarksStale(InvalidateShaMove(b, previous).binding);
    MoveFlagsImplyMismatch(b, previous);
  }

  lemma SettledUnlessBlocked(b: Binding, previous: Option<Binding>)
    requires StructuralIssues(b) == {} && DriftIssues(b, previous) == {}
    ensures
      var move := InvalidateShaMove(b, previous);
      var mismatch := InvalidateMismatch(move.binding);
      ReconcileWorkstream(b, previous) == Settle(mismatch.binding).(
        moved := move.moved, reviewInvalidated := move.review || mismatch.review, ciInvalidated := move.ci || mismatch.ci)
  {
  }

  lemma MismatchMarksStale(b: Binding)
    ensures
      var m := InvalidateMismatch(b);
      && m.binding.headSha == b.headSha
      && (m.review <==> ReviewsOther(m.binding.review, b.headSha))
      && (m.ci <==> ChecksOther(m.binding.ci, b.headSha))
      && (if m.review then m.binding.review.value.stale else m.binding.review == b.review)
      && (if m.ci then m.binding.ci.value.stale else m.binding.ci == b.ci)
  {
  }

  lemma MoveFlagsImplyMismatch(b: Binding, previous: Option<Binding>)
    ensures
      var move := InvalidateShaMove(b, previous);
      && move.binding.headSha == b.headSha
      && (move.review ==> ReviewsOther(move.binding.review, b.headSha))
      && (move.ci ==> ChecksOther(move.binding.ci, b.headSha))
  {
  }

  // ---------------------------------------------------------------------------
  // Reconciling again
  // ---------------------------------------------------------------------------

  /** Bindings that differ only in what a reconciliation may change. */
  predicate SameSource(a: Binding, b: Binding) {
    a == b.(state := a.state, ci := a.ci, review := a.review, nextAction := a.nextAction, stopGate := a.stopGate)
  }

  lemma SourcesOfSameActors(a: Binding, b: Binding)
    requires SameSource(a, b.(headSha := a.headSha))
    ensures ActorSources(a) == ActorSources(b)
  {
    assert CanonicalActors(a) == CanonicalActors(b);
    assert forall role :: ResolveActorBinding(a, role) == ResolveActorBinding(b, role);
  }

  lemma NoDriftFromSameSource(a: Binding, b: Binding)
    requires SameSource(a, b.(headSha := a.headSha))
    ensures DriftIssues(a, Some(b)) == {}
  {
    SourcesOfSameActors(a, b);
  }

  lemma StructureOfSameSource(a: Binding, b: Binding)
    requires SameSource(a, b)
    requires CiShapeIssues(a.ci, b.repo) == CiShapeIssues(b.ci, b.repo)
    requires ReviewShapeIssues(a.review, b.repo) == ReviewShapeIssues(b.review, b.repo)
    ensures StructuralIssues(a) == StructuralIssues(b)
  {
    assert CanonicalActors(a) == CanonicalActors(b);
  }

  /** Marking evidence stale does not touch its shape. */
  lemma StaleKeepsShape(b: Binding)
    ensures
      var s := InvalidateMismatch(b).binding;
      && CiShapeIssues(s.ci, b.repo) == CiShapeIssues(b.ci, b.repo)
      && ReviewShapeIssues(s.review, b.repo) == ReviewShapeIssues(b.review, b.repo)
  {
  }

  /** Invalidation has nothing left to do on a settled binding, whatever action or gate it records. */
  lemma InvalidationSettles(b: Binding, action: Option<NextAction>, gate: Option<StopGate>)
    ensures
      var first := InvalidateMismatch(b);
      var again := InvalidateMismatch(first.binding.(nextAction := action, stopGate := gate));
      again == first.(binding := first.binding.(nextAction := action, stopGate := gate))
  {
  }

  lemma ActorResolutionIgnoresRouting(b: Binding, next: Option<NextAction>, gate: Option<StopGate>, role: string)
    ensures ResolveActorBinding(b.(nextAction := next, stopGate := gate), role) == ResolveActorBinding(b, role)
  {
    assert CanonicalActors(b.(nextAction := next, stopGate := gate)) == CanonicalActors(b);
  }

  lemma ActorIssuesIgnoreRouting(b: Binding, next: Option<NextAction>, gate: Option<StopGate>, action: NextAction, capability: Capability)
    ensures ActorIssues(b.(nextAction := next, stopGate := gate), action, capability) == ActorIssues(b, action, capability)
  {
    if ProviderActorRole(b, action).Some? {
      ActorResolutionIgnoresRouting(b, next, gate, ProviderActorRole(b, action).value);
    }
  }

  lemma EvidenceIssuesIgnoreRouting(b: Binding, next: Option<NextAction>, gate: Option<StopGate>, action: NextAction)
    ensures
      var routed := b.(nextAction := next, stopGate := gate);
      && CiEvidenceIssues(routed) == CiEvidenceIssues(b)
      && ReviewEvidenceIssues(routed) == ReviewEvidenceIssues(b)
      && ProfileIssues(routed, action) == ProfileIssues(b, action)
  {
  }

  lemma IssuesIgnoreRouting(b: Binding, next: Option<NextAction>, gate: Option<StopGate>, action: NextAction, capability: Capability)
    ensures ActionIssues(b.(nextAction := next, stopGate := gate), action, capability) == ActionIssues(b, action, capability)
  {
    ActorIssuesIgnoreRouting(b, next, gate, action, capability);
    EvidenceIssuesIgnoreRouting(b, next, gate, action);
  }

  lemma SettleIgnoresRouting(b: Binding, next: Option<NextAction>, gate: Option<StopGate>)
    ensures Settle(b.(nextAction := next, stopGate := gate)) == Settle(b)
  {
    var routed := b.(nextAction := next, stopGate := gate);
    assert ContextOf(routed) == ContextOf(b);
    if ResolutionOf(b).action.Some? {
      IssuesIgnoreRouting(b, next, gate, ResolutionOf(b).action.value, ResolutionOf(b).capability);
    }
  }

  lemma SettleKeepsBinding(b: Binding)
    ensures Settle(b).binding == b.(nextAction := Settle(b).binding.nextAction, stopGate := Settle(b).binding.stopGate)
  {
  }

  /** What a settled reconciliation returns: the settled binding with its action and gate, on which
      neither the invalidations nor the settling have anything left to do. */
  lemma SettledOnce(b: Binding, previous: Option<Binding>)
    requires StructuralIssues(b) == {} && DriftIssues(b, previous) == {}
    ensures
      var r, s := ReconcileWorkstream(b, previous), SettledBinding(b, previous);
      && r.binding == s.(nextAction := r.binding.nextAction, stopGate := r.binding.stopGate)
      && InvalidateMismatch(r.binding) == InvalidateMismatch(InvalidateShaMove(b, previous).binding).(binding := r.binding)
      && Settle(r.binding) == Settle(s)
  {
    var r, s := ReconcileWorkstream(b, previous), SettledBinding(b, previous);
    ReconcileSettles(b, previous);
    SettleKeepsBinding(s);
    InvalidationSettles(InvalidateShaMove(b, previous).binding, r.binding.nextAction, r.binding.stopGate);
    SettleIgnoresRouting(s, r.binding.nextAction, r.binding.stopGate);
  }

  /** Reconciling the outcome of a settled reconciliation again, alone or against itself. */
  lemma SettledAgain(b: Binding, previous: Option<Binding>)
    requires StructuralIssues(b) == {} && DriftIssues(b, previous) == {}
    requires StructuralIssues(ReconcileWorkstream(b, previous).binding) == {}
    ensures
      var r := ReconcileWorkstream(b, previous);
      ReconcileWorkstream(r.binding, None) == r.(moved := false)
      && ReconcileWorkstream(r.binding, Some(r.binding)) == r.(moved := false)
  {
    var r := ReconcileWorkstream(b, previous);
    SettledOnce(b, previous);
    NoDriftFromSameSource(r.binding, r.binding);
    assert !ShaMoved(r.binding, Some(r.binding));
    assert InvalidateShaMove(r.binding, None).binding == r.binding;
  }

  /** Reconciliation is idempotent: what it returns reconciles to the identical result, alone or with
      itself as previous. */
  lemma ReconcileIsIdempotent(b: Binding)
    ensures
      var r := ReconcileWorkstream(b, None);
      ReconcileWorkstream(r.binding, None) == r && ReconcileWorkstream(r.binding, Some(r.binding)) == r
  {
    var r := ReconcileWorkstream(b, None);
    if StructuralIssues(b) != {} {
      StructureOfSameSource(r.binding, b);
    } else {
      var s := SettledBinding(b, None);
      SettleKeepsBinding(s);
      StaleKeepsShape(b);
      StructureOfSameSource(r.binding, b);
      SettledAgain(b, None);
    }
  }

  /** With a previous binding the second reconciliation differs in the movement flag only, exactly
      when the evidence inherited from the previous binding is well formed; otherwise it is blocked. */
  lemma ReconcileAgainAfterPrevious(b: Binding, previous: Option<Binding>)
    requires StructuralIssues(b) == {} && DriftIssues(b, previous) == {}
    ensures
      var r := ReconcileWorkstream(b, previous);
      var inherited := InvalidateShaMove(b, previous).binding;
      && (ReconcileWorkstream(r.binding, None) == r.(moved := false) <==>
            CiShapeIssues(inherited.ci, b.repo) == {} && ReviewShapeIssues(inherited.review, b.repo) == {})
      && (ReconcileWorkstream(r.binding, None) != r.(moved := false) ==>
            ReconcileWorkstream(r.binding, None).resolution.gate == Some(IncompleteBinding))
  {
    var r := ReconcileWorkstream(b, previous);
    var inherited := InvalidateShaMove(b, previous).binding;
    var s := SettledBinding(b, previous);
    SettleKeepsBinding(s);
    StaleKeepsShape(inherited);
    InheritedStructure(b, r.binding);
    if StructuralIssues(r.binding) == {} {
      SettledAgain(b, previous);
    } else {
      BlockedDiffers(b, previous);
    }
  }

  /** Only a lane with a head but without CI or without review inherits malformed evidence. */
  lemma MalformedEvidenceIsInherited(b: Binding, previous: Option<Binding>)
    requires StructuralIssues(b) == {} && DriftIssues(b, previous) == {}
    requires
      var inherited := InvalidateShaMove(b, previous).binding;
      CiShapeIssues(inherited.ci, b.repo) != {} || ReviewShapeIssues(inherited.review, b.repo) != {}
    ensures IsSha(b.headSha) && (b.ci.None? || b.review.None?)
  {
  }

  /** Every such lane does so after some previous binding: one with a head of its own, no drift, and a
      reviewed SHA or CI attempt that is none. Its second reconciliation is blocked. */
  lemma MalformedPreviousBlocksAgain(b: Binding) returns (previous: Binding)
    requires StructuralIssues(b) == {} && IsSha(b.headSha) && (b.ci.None? || b.review.None?)
    ensures DriftIssues(b, Some(previous)) == {} && IsSha(previous.headSha) && ShaMoved(b, Some(previous))
    ensures
      var inherited := InvalidateShaMove(b, Some(previous)).binding;
      CiShapeIssues(inherited.ci, b.repo) != {} || ReviewShapeIssues(inherited.review, b.repo) != {}
    ensures
      var r := ReconcileWorkstream(b, Some(previous));
      ReconcileWorkstream(r.binding, None).resolution.gate == Some(IncompleteBinding)
      && ReconcileWorkstream(r.binding, None) != r.(moved := false)
  {
    var head := OtherHead(b.headSha.value);
    var ci := CiBinding(None, None, None, None, None, Some(0), None, None, None, None, None, false, None);
    var review := ReviewBinding(None, Some("?"), None, None, false, None);
    previous := b.(headSha := Some(head), ci := Some(ci), review := Some(review));
    NoDriftFromSameSource(b, previous);
    MalformedIsInherited(b, previous);
    ReconcileAgainAfterPrevious(b, Some(previous));
  }

  lemma OtherHead(head: string) returns (other: string)
    requires IsSha(Some(head))
    ensures IsSha(Some(other)) && !SameSha(other, head)
  {
    other := head[0 := if head[0] == '0' then '1' else '0'];
    assert Lower(other)[0] != Lower(head)[0];
  }

  lemma MalformedIsInherited(b: Binding, previous: Binding)
    requires ShaMoved(b, Some(previous)) && (b.ci.None? || b.review.None?)
    requires previous.ci.Some? && previous.ci.value.runAttempt == Some(0)
    requires previous.review.Some? && previous.review.value.reviewedSha == Some("?")
    ensures
      var inherited := InvalidateShaMove(b, Some(previous)).binding;
      CiShapeIssues(inherited.ci, b.repo) != {} || ReviewShapeIssues(inherited.review, b.repo) != {}
  {
    var inherited := InvalidateShaMove(b, Some(previous)).binding;
    if b.ci.None? {
      assert Invalid(FCiRunAttempt) in CiShapeIssues(inherited.ci, b.repo);
    } else {
      assert Invalid(FReviewedSha) in ReviewShapeIssues(inherited.review, b.repo);
    }
  }

  /** There are such lanes. */
  lemma LaneWithoutEvidence() returns (b: Binding)
    ensures StructuralIssues(b) == {} && IsSha(b.headSha) && b.ci.None? && b.review.None?
  {
    var sha := seq(40, _ => '0');
    StripTrims("x");
    b := Binding(Some("x"), Some("x"), Some("x"), Some("x"), Some("x"), Some("x"), Some("x"), Some("x"),
                 NewSha, Some(sha), Some(true), None, None, None, None, [], None, None, None, None, None, Some(sha),
                 None, None, None, None, None, None, None, None, None, None);
    assert TextOf(Some("x")) == Some("x");
    assert CanonicalActors(b) == [];
  }

  lemma InheritedStructure(b: Binding, again: Binding)
    requires StructuralIssues(b) == {} && SameSource(again, b)
    ensures StructuralIssues(again) == {} <==>
      CiShapeIssues(again.ci, b.repo) == {} && ReviewShapeIssues(again.review, b.repo) == {}
  {
    assert CanonicalActors(again) == CanonicalActors(b);
  }

  predicate AboutProfile(x: Issue) {
    x == MissingExact(FHeadSha) || x == Invalid(FRequirementName) || x.DuplicateRequirement? || x.AboutRequiredEvidence()
  }

  lemma {:induction false} ApplicableIssuesAreAboutProfile(requirements: seq<Requirement>, action: NextAction)
    ensures forall x :: x in ApplicableIssues(requirements, action) ==> AboutProfile(x)
  {
    if requirements != [] {
      ApplicableIssuesAreAboutProfile(requirements[..|requirements| - 1], action);
    }
  }

  lemma NewShaIssues(b: Binding)
    requires b.state == NewSha
    ensures forall x :: x in Settle(b).issues ==> AboutProfile(x)
  {
    var action := ResolutionOf(b).action.value;
    assert action in {InvalidatePriorReview, VerifyActionInFlight} && ResolutionOf(b).capability == ReadOnly;
    QuietActionIssues(b, action);
  }

  lemma QuietActionIssues(b: Binding, action: NextAction)
    requires action in {InvalidatePriorReview, VerifyActionInFlight}
    ensures forall x :: x in ActionIssues(b, action, ReadOnly) ==> AboutProfile(x)
  {
    if b.profile.Some? {
      ApplicableIssuesAreAboutProfile(b.profile.value.requirements, action);
    }
  }

  lemma ShapeIssuesAreNotAboutProfile(ci: Option<CiBinding>, review: Option<ReviewBinding>, repo: Option<string>, x: Issue)
    requires x in CiShapeIssues(ci, repo) || x in ReviewShapeIssues(review, repo)
    ensures !AboutProfile(x)
  {
  }

  lemma ShapeIssuesAreStructural(b: Binding, ci: set<Issue>, review: set<Issue>)
    requires ci == CiShapeIssues(b.ci, b.repo) && review == ReviewShapeIssues(b.review, b.repo)
    ensures ci <= StructuralIssues(b) && review <= StructuralIssues(b)
  {
  }

  /** Issues with the shape of evidence are among the structural ones and not about the profile. */
  lemma ShapeIssuesStandOut(b: Binding) returns (x: Issue)
    requires CiShapeIssues(b.ci, b.repo) != {} || ReviewShapeIssues(b.review, b.repo) != {}
    ensures x in StructuralIssues(b) && !AboutProfile(x)
  {
    var ci, review := CiShapeIssues(b.ci, b.repo), ReviewShapeIssues(b.review, b.repo);
    if ci != {} { x :| x in ci; } else { x :| x in review; }
    ShapeIssuesAreStructural(b, ci, review);
    ShapeIssuesAreNotAboutProfile(b.ci, b.review, b.repo, x);
  }

  lemma BlockedOnStructure(b: Binding, x: Issue)
    requires x in StructuralIssues(b)
    ensures ReconcileWorkstream(b, None).resolution.gate == Some(IncompleteBinding) && x in ReconcileWorkstream(b, None).issues
  {
  }

  lemma SettledIssues(b: Binding, previous: Option<Binding>) returns (x: Issue)
    requires StructuralIssues(b) == {} && DriftIssues(b, previous) == {} && ShaMoved(b, previous)
    requires StructuralIssues(ReconcileWorkstream(b, previous).binding) != {}
    ensures x in StructuralIssues(ReconcileWorkstream(b, previous).binding) && x !in ReconcileWorkstream(b, previous).issues
  {
    var r := ReconcileWorkstream(b, previous);
    var s := SettledBinding(b, previous);
    MovedSettles(b, previous);
    SettleKeepsBinding(s);
    InheritedStructure(b, r.binding);
    x := ShapeIssuesStandOut(r.binding);
    NewShaIssues(s);
  }

  lemma MovedSettles(b: Binding, previous: Option<Binding>)
    requires StructuralIssues(b) == {} && DriftIssues(b, previous) == {} && ShaMoved(b, previous)
    ensures
      var s := SettledBinding(b, previous);
      && s.state == NewSha && SameSource(s, b)
      && ReconcileWorkstream(b, previous).binding == Settle(s).binding
      && ReconcileWorkstream(b, previous).issues == Settle(s).issues
  {
  }

  lemma BlockedDiffers(b: Binding, previous: Option<Binding>)
    requires StructuralIssues(b) == {} && DriftIssues(b, previous) == {}
    requires StructuralIssues(ReconcileWorkstream(b, previous).binding) != {}
    ensures
      var r := ReconcileWorkstream(b, previous);
      var again := ReconcileWorkstream(r.binding, None);
      again.resolution.gate == Some(IncompleteBinding) && again.issues != r.issues
  {
    if ShaMoved(b, previous) {
      var x := SettledIssues(b, previous);
      BlockedOnStructure(ReconcileWorkstream(b, previous).binding, x);
    } else {
      UnmovedKeepsStructure(b, previous);
    }
  }

  lemma UnmovedKeepsStructure(b: Binding, previous: Option<Binding>)
    requires StructuralIssues(b) == {} && DriftIssues(b, previous) == {} && !ShaMoved(b, previous)
    ensures StructuralIssues(ReconcileWorkstream(b, previous).binding) == {}
  {
    SettledUnlessBlocked(b, previous);
    SettleKeepsBinding(SettledBinding(b, previous));
    StaleKeepsShape(b);
    StructureOfSameSource(ReconcileWorkstream(b, previous).binding, b);
  }
}
