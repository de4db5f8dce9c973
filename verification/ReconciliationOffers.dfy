/** When a reconciliation offers an action, and which gate stops the lane when it offers none. */
module ReconciliationOffers {
  import opened Wrappers
  import opened Text
  import opened Lifecycle
  import opened Bindings
  import opened Reconciliation
  import opened ReconciliationSafety
  import opened SoundBindings

  // ---------------------------------------------------------------------------
  // What an action needs
  // ---------------------------------------------------------------------------

  datatype Needs = Needs(head: bool, pullRequest: bool, ci: bool, review: bool, writer: bool, reviewer: bool)

  /** Each action's needs of the binding. */
  function NeedsOf(action: NextAction): Needs {
    match action
    case PublishCandidate | ContinueSameSession | RecoverSameLineage | ResumePausedLane | VerifyActionInFlight =>
      Needs(false, false, false, false, false, false)
    case RunExactHeadCi => Needs(true, true, false, false, false, false)
    case ClassifyCi | ReconcileCiEvidence => Needs(true, false, true, false, false, false)
    case StartExactShaReview | StartReReview => Needs(true, true, true, false, false, true)
    case CaptureReviewResult => Needs(true, true, false, false, false, true)
    case RouteFindingsToSameWriter => Needs(true, false, false, true, true, false)
    case ContinueSameWriter => Needs(true, false, false, false, true, false)
    case VerifyCandidateSha | InvalidatePriorReview => Needs(true, false, false, false, false, false)
    case RequestParentReview | ReconcileReviewEvidence => Needs(true, true, false, true, false, false)
  }

  /** CI evidence with every identity, unstale, of this repository and of no other SHA than the head. */
  predicate FullCi(b: Binding) {
    && b.ci.Some?
    && var c := b.ci.value;
       && HasText(c.sourceProvider) && HasText(c.sourceRepository) && HasText(c.workflowIdentity)
       && HasText(c.requiredCheckIdentity) && HasText(c.workflowRunId) && HasText(c.classification)
       && ExactSha(c.candidateSha) && (ExactSha(b.headSha) ==> SameUpToCase(c.candidateSha.value, b.headSha.value))
       && c.runAttempt.Some? && c.runAttempt.value > 0 && !c.stale && !Foreign(c.sourceRepository, b.repo)
       && (HasText(c.artifactId) ==> HasText(c.producerJob))
  }

  /** An unstale review of this repository and of no other SHA than the head. */
  predicate FullReview(b: Binding) {
    && b.review.Some?
    && var r := b.review.value;
       && ExactSha(r.reviewedSha) && (ExactSha(b.headSha) ==> SameUpToCase(r.reviewedSha.value, b.headSha.value))
       && !r.stale && !Foreign(r.sourceRepository, b.repo)
  }

  lemma FullCiExactly(b: Binding)
    ensures CiEvidenceIssues(b) == {} <==> FullCi(b)
  {
    if b.ci.Some? {
      var c := b.ci.value;
      UnionsWithoutIssues();
      TextExactly(c.sourceProvider);
      TextExactly(c.sourceRepository);
      TextExactly(c.workflowIdentity);
      TextExactly(c.requiredCheckIdentity);
      TextExactly(c.workflowRunId);
      TextExactly(c.classification);
      TextExactly(c.artifactId);
      TextExactly(c.producerJob);
      ShaHasText(c.candidateSha);
      ShaExactly(c.candidateSha);
      ShaExactly(b.headSha);
      ForeignExactly(c.sourceRepository, b.repo);
      if c.candidateSha.Some? && b.headSha.Some? { SameShaExactly(c.candidateSha.value, b.headSha.value); }
    }
  }

  lemma ShaHasText(value: Option<string>)
    ensures ExactSha(value) ==> TextOf(value).Some?
  {
    TextExactly(value);
    if ExactSha(value) {
      assert value.value[0] in value.value && !IsSpace(value.value[0]);
    }
  }

  lemma FullReviewExactly(b: Binding)
    ensures ReviewEvidenceIssues(b) == {} <==> FullReview(b)
  {
    if b.review.Some? {
      var r := b.review.value;
      UnionsWithoutIssues();
      ShaExactly(r.reviewedSha);
      ShaExactly(b.headSha);
      ForeignExactly(r.sourceRepository, b.repo);
      if r.reviewedSha.Some? && b.headSha.Some? { SameShaExactly(r.reviewedSha.value, b.headSha.value); }
    }
  }

  /** The requirement names no action, or this one. */
  predicate Applies(r: Requirement, action: NextAction) {
    |r.actions| == 0 || exists i :: 0 <= i < |r.actions| && r.actions[i] == Some(action)
  }

  /** What is required for the action is named, proven and current, and named once. */
  predicate RequirementsHold(requirements: seq<Requirement>, action: NextAction) {
    && (forall r | r in requirements :: Met(r, action))
    && Apart(requirements, (r, q) => !RequiredTwice(r, q, action))
  }

  /** The relation holds of every two requirements, earlier and later. */
  predicate Apart(requirements: seq<Requirement>, apart: (Requirement, Requirement) -> bool) {
    forall i, j | 0 <= i < j < |requirements| :: apart(requirements[i], requirements[j])
  }

  predicate Met(r: Requirement, action: NextAction) {
    Applies(r, action) ==> HasText(r.name) && r.proven && r.current
  }

  predicate RequiredTwice(r: Requirement, q: Requirement, action: NextAction) {
    Applies(r, action) && Applies(q, action) && SameText(r.name, q.name)
  }

  lemma AppliesExactly(r: Requirement, action: NextAction)
    ensures r.AppliesTo(action) <==> Applies(r, action)
  {
    if i :| 0 <= i < |r.actions| && r.actions[i] == Some(action) {
      assert Some(action) in r.actions;
    }
  }

  lemma RequirementExactly(r: Requirement, seen: set<string>)
    ensures RequirementIssues(r, seen) == {} <==> HasText(r.name) && r.proven && r.current && Strip(r.name.value) !in seen
  {
    UnionsWithoutIssues();
    TextExactly(r.name);
  }

  lemma NameIsSeenExactly(before: seq<Requirement>, r: Requirement, action: NextAction)
    requires HasText(r.name) && Applies(r, action)
    ensures Strip(r.name.value) in NamesOf(before, action) <==>
      exists i | 0 <= i < |before| :: RequiredTwice(before[i], r, action)
  {
    TextExactly(r.name);
    if Strip(r.name.value) in NamesOf(before, action) {
      var q :| q in before && q.AppliesTo(action) && TextOf(q.name).Some? && TextOf(q.name).value == TextOf(r.name).value;
      var i :| 0 <= i < |before| && before[i] == q;
      AppliesExactly(q, action);
      SameTextExactly(q.name, r.name);
      assert RequiredTwice(before[i], r, action);
    }
    if i :| 0 <= i < |before| && RequiredTwice(before[i], r, action) {
      AppliesExactly(before[i], action);
      SameTextExactly(before[i].name, r.name);
      assert before[i] in before;
    }
  }

  lemma {:induction false} RequirementsExactly(requirements: seq<Requirement>, action: NextAction)
    ensures ApplicableIssues(requirements, action) == {} <==> RequirementsHold(requirements, action)
  {
    if requirements != [] {
      var before, last := requirements[..|requirements| - 1], requirements[|requirements| - 1];
      RequirementsExactly(before, action);
      AppliesExactly(last, action);
      LongerRequirements(before, last, action);
      assert requirements == before + [last];
      if last.AppliesTo(action) {
        RequirementExactly(last, NamesOf(before, action));
        NoIssuesInUnion(ApplicableIssues(before, action), RequirementIssues(last, NamesOf(before, action)));
        if HasText(last.name) { NameIsSeenExactly(before, last, action); }
      } else {
        assert forall i | 0 <= i < |before| :: !RequiredTwice(before[i], last, action);
      }
    }
  }

  lemma LongerApart(before: seq<Requirement>, last: Requirement, apart: (Requirement, Requirement) -> bool)
    ensures Apart(before + [last], apart) <==> Apart(before, apart) && forall i | 0 <= i < |before| :: apart(before[i], last)
  {
    var all := before + [last];
    if Apart(all, apart) {
      forall i, j | 0 <= i < j < |before| ensures apart(before[i], before[j]) {
        assert all[i] == before[i] && all[j] == before[j];
      }
      forall i | 0 <= i < |before| ensures apart(before[i], last) {
        assert all[i] == before[i] && all[|before|] == last;
      }
    }
  }

  lemma LongerRequirements(before: seq<Requirement>, last: Requirement, action: NextAction)
    ensures RequirementsHold(before + [last], action) <==>
      && RequirementsHold(before, action) && Met(last, action)
      && !exists i | 0 <= i < |before| :: RequiredTwice(before[i], last, action)
  {
    LongerApart(before, last, (r, q) => !RequiredTwice(r, q, action));
    forall r ensures r in before + [last] <==> r in before || r == last {
    }
  }

  /** Who must be proven for the action: the writer, the reviewer, or whoever has the lane's own role. */
  function ActorFor(b: Binding, action: NextAction): Option<string> {
    match action
    case RouteFindingsToSameWriter | ContinueSameWriter => Some("WRITER")
    case StartExactShaReview | StartReReview => Some("REVIEWER")
    case ContinueSameSession | RecoverSameLineage | ResumePausedLane => if HasText(b.role) then Some(b.role.value) else None
    case _ => None
  }

  /** Nothing stands in the way of the action. */
  ghost predicate ClearFor(b: Binding, action: NextAction) {
    var n := NeedsOf(action);
    && (n.head ==> ExactSha(b.headSha)) && (n.pullRequest ==> b.prNumber.Some?)
    && (n.ci ==> FullCi(b)) && (n.review ==> FullReview(b))
    && (n.writer ==> HasText(b.writerLineage)) && (n.reviewer ==> HasText(b.reviewerLineage))
    && (ActorFor(b, action).Some? ==> ProvenIn(b, ActorFor(b, action).value))
    && (b.profile.Some? ==> RequirementsHold(b.profile.value.requirements, action))
  }

  lemma NormalRoleProves(b: Binding, role: string)
    ensures ResolveActorBinding(b, RoleName(role)).Proven() <==> ProvenIn(b, role)
  {
    StripTrims(role);
    UpperOfTrimmedIsTrimmed(Strip(role));
    UpperTwice(Strip(role));
    StripTrims(RoleName(role));
    assert RoleName(RoleName(role)) == RoleName(role);
    assert ResolveActorBinding(b, RoleName(role)).Proven() <==> ResolveActorBinding(b, role).Proven();
    ActorIsProvenExactlyWhen(b, role);
  }

  lemma UpperTwice(s: string)
    ensures Upper(Upper(s)) == Upper(s)
  {
  }

  lemma UpperOfTrimmedIsTrimmed(s: string)
    requires Trimmed(s)
    ensures Trimmed(Upper(s))
  {
    if s != "" {
      assert Upper(s)[0] == UpperChar(s[0]) && Upper(s)[|s| - 1] == UpperChar(s[|s| - 1]);
    }
  }

  lemma ActorForExactly(b: Binding, action: NextAction)
    ensures ProviderActorRole(b, action) ==
      if ActorFor(b, action).Some? then Some(RoleName(ActorFor(b, action).value)) else None
    ensures ActorFor(b, action).Some? ==> ActionCapability(action) == ExternalEffect
  {
    if b.role.Some? { RoleNameIsEmptyExactly(b.role.value); }
    NamedRoles();
  }

  lemma UnprovenExactly(actor: ActorResolution, role: string)
    ensures UnprovenActorIssues(actor, role) == {} <==> actor.Proven()
  {
    assert ActorUnproven(role) in {ActorUnproven(role)} + actor.issues;
  }

  lemma ActorIssuesExactly(b: Binding, action: NextAction)
    ensures ActorIssues(b, action, ActionCapability(action)) == {} <==>
      (ActorFor(b, action).Some? ==> ProvenIn(b, ActorFor(b, action).value))
  {
    ActorForExactly(b, action);
    if ActorFor(b, action).Some? {
      var role := ActorFor(b, action).value;
      NormalRoleProves(b, role);
      UnprovenExactly(ResolveActorBinding(b, RoleName(role)), RoleName(role));
    }
  }

  lemma NamedRoles()
    ensures RoleName("WRITER") == "WRITER" && RoleName("REVIEWER") == "REVIEWER"
  {
    StripTrims("WRITER");
    StripTrims("REVIEWER");
    assert |"WRITER"| == 6 && |"REVIEWER"| == 8;
  }

  lemma NeedsExactly(action: NextAction)
    ensures NeedsExactHead(action) == NeedsOf(action).head && NeedsPullRequest(action) == NeedsOf(action).pullRequest
    ensures NeedsCi(action) == NeedsOf(action).ci && NeedsReview(action) == NeedsOf(action).review
    ensures (action in {RouteFindingsToSameWriter, ContinueSameWriter}) == NeedsOf(action).writer
    ensures (action in {StartExactShaReview, StartReReview, CaptureReviewResult}) == NeedsOf(action).reviewer
  {
  }

  lemma ActionIssuesSplit(b: Binding, action: NextAction, capability: Capability)
    ensures ActionIssues(b, action, capability) == {} <==>
      && (NeedsExactHead(action) ==> IsSha(b.headSha)) && (NeedsPullRequest(action) ==> b.prNumber.Some?)
      && (NeedsCi(action) ==> CiEvidenceIssues(b) == {}) && (NeedsReview(action) ==> ReviewEvidenceIssues(b) == {})
      && (action in {RouteFindingsToSameWriter, ContinueSameWriter} ==> TextOf(b.writerLineage).Some?)
      && (action in {StartExactShaReview, StartReReview, CaptureReviewResult} ==> TextOf(b.reviewerLineage).Some?)
      && ActorIssues(b, action, capability) == {} && ProfileIssues(b, action) == {}
  {
    UnionsWithoutIssues();
  }

  /** No issue is raised for an action exactly when it is clear. */
  lemma ClearExactly(b: Binding, action: NextAction)
    ensures ActionIssues(b, action, ActionCapability(action)) == {} <==> ClearFor(b, action)
  {
    ActionIssuesSplit(b, action, ActionCapability(action));
    NeedsExactly(action);
    ShaExactly(b.headSha);
    FullCiExactly(b);
    FullReviewExactly(b);
    TextExactly(b.writerLineage);
    TextExactly(b.reviewerLineage);
    ActorIssuesExactly(b, action);
    if b.profile.Some? { RequirementsExactly(b.profile.value.requirements, action); }
  }

  // ---------------------------------------------------------------------------
  // The binding that is resolved
  // ---------------------------------------------------------------------------

  /** The candidate has another head than before. */
  predicate HeadMoved(b: Binding, previous: Option<Binding>) {
    && previous.Some? && previous.value.headSha.Some? && b.headSha.Some?
    && |previous.value.headSha.value| > 0 && |b.headSha.value| > 0
    && !SameUpToCase(previous.value.headSha.value, b.headSha.value)
  }

  /** Evidence of a SHA, while the head is another one. */
  predicate OfAnotherHead(sha: Option<string>, head: Option<string>) {
    && sha.Some? && head.Some? && |sha.value| > 0 && |head.value| > 0 && !SameUpToCase(sha.value, head.value)
  }

  /** The lane's own evidence, or the previous one's when the head moved and the lane has none. */
  function ReviewAtHand(b: Binding, previous: Option<Binding>): Option<ReviewBinding> {
    if b.review == None && HeadMoved(b, previous) then previous.value.review else b.review
  }

  function CiAtHand(b: Binding, previous: Option<Binding>): Option<CiBinding> {
    if b.ci == None && HeadMoved(b, previous) then previous.value.ci else b.ci
  }

  predicate ReviewedAnother(b: Binding, previous: Option<Binding>) {
    ReviewAtHand(b, previous).Some? && OfAnotherHead(ReviewAtHand(b, previous).value.reviewedSha, b.headSha)
  }

  predicate CheckedAnother(b: Binding, previous: Option<Binding>) {
    CiAtHand(b, previous).Some? && OfAnotherHead(CiAtHand(b, previous).value.candidateSha, b.headSha)
  }

  /** What is resolved: the evidence at hand, stale as well if it is of another head; a lane whose head
      moved is at its new SHA, and one that stands at a review of another head is at its stale review. */
  predicate Resolves(s: Binding, b: Binding, previous: Option<Binding>) {
    && s == b.(state := s.state, review := s.review, ci := s.ci)
    && s.state == (if HeadMoved(b, previous) then NewSha
                   else if ReviewedAnother(b, previous) && b.state in {ReviewResult, ParentReviewPending, ReviewerActive}
                   then PriorReviewStale else b.state)
    && (match ReviewAtHand(b, previous)
        case None => s.review == None
        case Some(r) =>
          && s.review.Some? && s.review.value == r.(stale := s.review.value.stale, staleReason := s.review.value.staleReason)
          && (s.review.value.stale <==> r.stale || ReviewedAnother(b, previous))
          && (!ReviewedAnother(b, previous) || r.staleReason.Some? ==> s.review.value.staleReason == r.staleReason))
    && (match CiAtHand(b, previous)
        case None => s.ci == None
        case Some(c) =>
          && s.ci.Some? && s.ci.value == c.(stale := s.ci.value.stale, staleReason := s.ci.value.staleReason)
          && (s.ci.value.stale <==> c.stale || CheckedAnother(b, previous))
          && (!CheckedAnother(b, previous) || c.staleReason.Some? ==> s.ci.value.staleReason == c.staleReason))
  }

  lemma MovedExactly(b: Binding, previous: Option<Binding>)
    ensures ShaMoved(b, previous) <==> HeadMoved(b, previous)
  {
    if previous.Some? && previous.value.headSha.Some? && b.headSha.Some? {
      SameShaExactly(previous.value.headSha.value, b.headSha.value);
    }
  }

  lemma OtherHeadExactly(b: Binding)
    ensures ReviewsOther(b.review, b.headSha) <==> b.review.Some? && OfAnotherHead(b.review.value.reviewedSha, b.headSha)
    ensures ChecksOther(b.ci, b.headSha) <==> b.ci.Some? && OfAnotherHead(b.ci.value.candidateSha, b.headSha)
  {
    if b.review.Some? && b.review.value.reviewedSha.Some? && b.headSha.Some? {
      SameShaExactly(b.review.value.reviewedSha.value, b.headSha.value);
    }
    if b.ci.Some? && b.ci.value.candidateSha.Some? && b.headSha.Some? {
      SameShaExactly(b.ci.value.candidateSha.value, b.headSha.value);
    }
  }

  /** The evidence at hand as it is after a movement of the head. */
  lemma MoveBringsAtHand(b: Binding, previous: Option<Binding>)
    ensures
      var m := InvalidateShaMove(b, previous).binding;
      var (review, ci) := (ReviewAtHand(b, previous), CiAtHand(b, previous));
      && m == b.(state := if HeadMoved(b, previous) then NewSha else b.state, review := m.review, ci := m.ci)
      && (m.review == review || (HeadMoved(b, previous) && review.Some? && ReviewedAnother(b, previous)
                                 && m.review == Some(StaleReview(review.value, MovedFrom(b, previous)))))
      && (m.ci == ci || (HeadMoved(b, previous) && ci.Some? && CheckedAnother(b, previous)
                         && m.ci == Some(StaleCi(ci.value, MovedFrom(b, previous)))))
  {
    MovedExactly(b, previous);
    OtherHeadExactly(b.(review := ReviewAtHand(b, previous), ci := CiAtHand(b, previous)));
  }

  function MovedFrom(b: Binding, previous: Option<Binding>): StaleReason {
    if HeadMoved(b, previous) then CandidateMoved(previous.value.headSha.value, b.headSha.value) else Given("")
  }

  /** The settled binding is the one described. */
  lemma SettledExactly(b: Binding, previous: Option<Binding>)
    ensures Resolves(SettledBinding(b, previous), b, previous)
  {
    MoveBringsAtHand(b, previous);
    OtherHeadExactly(InvalidateShaMove(b, previous).binding);
  }

  /** The machine is given the lane's state, the outcomes of its evidence, and whether its review is stale. */
  predicate ShownBy(c: LifecycleContext, s: Binding) {
    && c.state == s.state && c.waiting == s.waiting && c.failure == s.failure && c.resume == s.resume
    && (s.review.Some? ==> c.review == s.review.value.outcome && c.reviewStale == s.review.value.stale)
    && (s.review == None ==> c.review == None && !c.reviewStale)
    && c.ci == (if s.ci.Some? then s.ci.value.outcome else None)
  }

  lemma ContextExactly(c: LifecycleContext, s: Binding)
    ensures c == ContextOf(s) <==> ShownBy(c, s)
  {
  }

  // ---------------------------------------------------------------------------
  // Offers
  // ---------------------------------------------------------------------------

  /** What the lane is to do next: verify what is in flight before anything else, or what its lifecycle
      asks for. */
  predicate Wants(s: Binding, action: NextAction) {
    if HasText(s.actionInFlight) then action == VerifyActionInFlight else AsksFor(ContextOf(s), action)
  }

  lemma WantsExactly(s: Binding, action: NextAction)
    ensures ResolutionOf(s).action == Some(action) <==> Wants(s, action)
    ensures ResolutionOf(s).action == Some(action) ==> ResolutionOf(s).capability == ActionCapability(action)
  {
    TextExactly(s.actionInFlight);
    ActionsExactlyWhen(ContextOf(s), action);
    ActionXorGate(ContextOf(s));
  }

  lemma SettleOffersExactly(s: Binding, action: NextAction)
    ensures Settle(s).resolution.action == Some(action) <==> Wants(s, action) && ClearFor(s, action)
    ensures Settle(s).resolution.action == Some(action) ==> Settle(s).resolution.capability == ActionCapability(action)
  {
    WantsExactly(s, action);
    ClearExactly(s, action);
  }

  /** An action is offered exactly for a sound and undrifted binding that, settled, wants it and is clear
      for it; then with the capability it has. */
  lemma OffersExactlyWhen(b: Binding, previous: Option<Binding>, s: Binding, action: NextAction)
    requires s == SettledBinding(b, previous)
    ensures Resolves(s, b, previous)
    ensures
      var r := ReconcileWorkstream(b, previous).resolution;
      && (r.action == Some(action) <==> SoundBinding(b) && Undrifted(b, previous) && Wants(s, action) && ClearFor(s, action))
      && (r.action == Some(action) ==> r.capability == ActionCapability(action))
  {
    SettledExactly(b, previous);
    StructureExactly(b);
    DriftExactly(b, previous);
    SettleOffersExactly(s, action);
    ReconcileSettles(b, previous);
    BlockedOffersNothing(b, StructuralIssues(b), IncompleteBinding);
    BlockedOffersNothing(b, DriftIssues(b, previous), BindingDriftReconciliationRequired);
    OfferedUnlessBlocked(b, previous);
  }

  lemma OfferedUnlessBlocked(b: Binding, previous: Option<Binding>)
    ensures ReconcileWorkstream(b, previous).resolution.action.Some? ==> StructuralIssues(b) == {} && DriftIssues(b, previous) == {}
  {
  }

  lemma SettleOnlyReads(s: Binding)
    ensures Settle(s).resolution.action == None ==> Settle(s).resolution.capability == ReadOnly
  {
    ActionXorGate(ContextOf(s));
  }

  /** Without an action nothing but reading is allowed. */
  lemma NoActionOnlyReads(b: Binding, previous: Option<Binding>)
    ensures
      var r := ReconcileWorkstream(b, previous).resolution;
      r.action == None ==> r.capability == ReadOnly
  {
    SettleOnlyReads(SettledBinding(b, previous));
    ReconcileSettles(b, previous);
    BlockedUnlessSettled(b, previous);
  }

  lemma BlockedUnlessSettled(b: Binding, previous: Option<Binding>)
    ensures !(StructuralIssues(b) == {} && DriftIssues(b, previous) == {}) ==>
      ReconcileWorkstream(b, previous).resolution ==
        Stop(b.state, if StructuralIssues(b) != {} then IncompleteBinding else BindingDriftReconciliationRequired)
  {
  }

  lemma ResolvedLaneKeeps(s: Binding, b: Binding, previous: Option<Binding>)
    requires Resolves(s, b, previous)
    ensures s.actionInFlight == b.actionInFlight && s.profile == b.profile
  {
  }

  lemma VerificationIsClearExactlyWhen(s: Binding)
    ensures Wants(s, VerifyActionInFlight) && ClearFor(s, VerifyActionInFlight) <==>
      HasText(s.actionInFlight) && (s.profile.Some? ==> RequirementsHold(s.profile.value.requirements, VerifyActionInFlight))
  {
  }

  lemma VerificationIsOfferedExactlyWhen(b: Binding, previous: Option<Binding>)
    ensures ReconcileWorkstream(b, previous).resolution.action == Some(VerifyActionInFlight) <==>
      && SoundBinding(b) && Undrifted(b, previous) && HasText(b.actionInFlight)
      && (b.profile.Some? ==> RequirementsHold(b.profile.value.requirements, VerifyActionInFlight))
  {
    var s := SettledBinding(b, previous);
    OffersExactlyWhen(b, previous, s, VerifyActionInFlight);
    ResolvedLaneKeeps(s, b, previous);
    VerificationIsClearExactlyWhen(s);
  }

  lemma OfferRespectsFlight(b: Binding, previous: Option<Binding>, action: NextAction)
    requires ReconcileWorkstream(b, previous).resolution.action == Some(action)
    ensures action == VerifyActionInFlight <==> HasText(b.actionInFlight)
    ensures HasText(b.actionInFlight) ==> ReconcileWorkstream(b, previous).resolution.capability == ReadOnly
    ensures ReconcileWorkstream(b, previous).resolution.capability == ActionCapability(action)
  {
    var s := SettledBinding(b, previous);
    OffersExactlyWhen(b, previous, s, action);
    ResolvedLaneKeeps(s, b, previous);
  }

  lemma FlightOnlyReads(b: Binding, previous: Option<Binding>)
    requires HasText(b.actionInFlight)
    ensures
      var r := ReconcileWorkstream(b, previous).resolution;
      r.capability == ReadOnly && r.action in {None, Some(VerifyActionInFlight)}
  {
    if ReconcileWorkstream(b, previous).resolution.action.Some? {
      OfferRespectsFlight(b, previous, ReconcileWorkstream(b, previous).resolution.action.value);
    } else {
      NoActionOnlyReads(b, previous);
    }
  }

  /** While an action is in flight a reconciliation offers to verify it or nothing, and only reads. It
      offers that exactly for sound, undrifted lanes in flight that meet the requirements of it; every
      other offer means that nothing is in flight. */
  lemma InFlightIsVerifiedFirst(b: Binding, previous: Option<Binding>)
    ensures
      var r := ReconcileWorkstream(b, previous).resolution;
      && (HasText(b.actionInFlight) ==> r.capability == ReadOnly && r.action in {None, Some(VerifyActionInFlight)})
      && (r.action == Some(VerifyActionInFlight) <==>
            && SoundBinding(b) && Undrifted(b, previous) && HasText(b.actionInFlight)
            && (b.profile.Some? ==> RequirementsHold(b.profile.value.requirements, VerifyActionInFlight)))
      && (r.action.Some? && r.action != Some(VerifyActionInFlight) ==> !HasText(b.actionInFlight))
  {
    VerificationIsOfferedExactlyWhen(b, previous);
    if HasText(b.actionInFlight) { FlightOnlyReads(b, previous); }
  }

  // ---------------------------------------------------------------------------
  // Gates
  // ---------------------------------------------------------------------------

  /** Something required for the action has a name and is not proven, or not current. */
  ghost predicate LacksRequired(b: Binding, action: NextAction) {
    b.profile.Some? && exists r | r in b.profile.value.requirements :: Applies(r, action) && HasText(r.name) && !(r.proven && r.current)
  }

  /** Observations of the role disagree, or their actor is itself said to be ambiguous. */
  ghost predicate AmbiguousIn(b: Binding, role: string) {
    exists i: nat ::
      var actors := CanonicalActors(b);
      && LastInRole(actors, role, i)
      && (!AllAgree(actors, role, i)
          || (actors[i].status == AmbiguousSource && !Foreign(actors[i].sourceRepository, b.repo)))
  }

  /** The gate in front of a wanted action that is not clear: required evidence comes first, then the
      actor, then everything else. */
  ghost predicate BlockedBy(s: Binding, action: NextAction, gate: StopGate) {
    if LacksRequired(s, action) then gate == EvidenceIncomplete
    else if ActorFor(s, action).Some? && !ProvenIn(s, ActorFor(s, action).value) then
      gate == (if AmbiguousIn(s, ActorFor(s, action).value) then AmbiguousActorBinding else ActorBindingRequired)
    else gate == IncompleteBinding
  }

  ghost predicate SomeAboutEvidence(issues: set<Issue>) {
    exists x | x in issues :: x.AboutRequiredEvidence()
  }

  lemma {:induction false} LackIsRaisedExactly(requirements: seq<Requirement>, action: NextAction)
    ensures SomeAboutEvidence(ApplicableIssues(requirements, action)) <==>
      exists r | r in requirements :: Applies(r, action) && HasText(r.name) && !(r.proven && r.current)
  {
    if requirements != [] {
      var before, last := requirements[..|requirements| - 1], requirements[|requirements| - 1];
      LackIsRaisedExactly(before, action);
      AppliesExactly(last, action);
      TextExactly(last.name);
      assert requirements == before + [last];
      var older, newer := ApplicableIssues(before, action), RequirementIssues(last, NamesOf(before, action));
      RequirementLacks(last, NamesOf(before, action));
      if last.AppliesTo(action) {
        assert ApplicableIssues(requirements, action) == older + newer;
        EvidenceInUnion(older, newer);
      }
      assert forall r :: r in requirements <==> r in before || r == last;
    }
  }

  lemma RequirementLacks(r: Requirement, seen: set<string>)
    ensures SomeAboutEvidence(RequirementIssues(r, seen)) <==> HasText(r.name) && !(r.proven && r.current)
  {
    TextExactly(r.name);
    if HasText(r.name) {
      assert !r.proven ==> RequiredEvidenceMissing(TextOf(r.name).value) in RequirementIssues(r, seen);
      assert r.proven && !r.current ==> RequiredEvidenceStale(TextOf(r.name).value) in RequirementIssues(r, seen);
    }
  }

  lemma EvidenceInUnion(a: set<Issue>, b: set<Issue>)
    ensures SomeAboutEvidence(a + b) <==> SomeAboutEvidence(a) || SomeAboutEvidence(b)
  {
    if SomeAboutEvidence(a) {
      var x :| x in a && x.AboutRequiredEvidence();
      assert x in a + b;
    }
    if SomeAboutEvidence(b) {
      var x :| x in b && x.AboutRequiredEvidence();
      assert x in a + b;
    }
  }

  predicate AllPlain(issues: set<Issue>) {
    forall x | x in issues :: !x.AboutRequiredEvidence() && !x.AboutActorBinding() && !x.Ambiguity()
  }

  lemma PlainUnions()
    ensures forall a: set<Issue>, b: set<Issue> :: AllPlain(a + b) <==> AllPlain(a) && AllPlain(b)
  {
    forall a: set<Issue>, b: set<Issue> ensures AllPlain(a + b) <==> AllPlain(a) && AllPlain(b) {
      PlainUnion(a, b);
    }
  }

  lemma PlainUnion(a: set<Issue>, b: set<Issue>)
    ensures AllPlain(a + b) <==> AllPlain(a) && AllPlain(b)
  {
    assert forall x :: x in a ==> x in a + b;
    assert forall x :: x in b ==> x in a + b;
  }

  predicate OfField(x: Issue) {
    x.Missing? || x.MissingExact? || x.Invalid? || x.Mismatch? || x.StaleEvidence?
  }

  lemma CiIssueIsOfField(b: Binding, x: Issue)
    requires x in CiEvidenceIssues(b)
    ensures OfField(x)
  {
  }

  lemma ReviewIssueIsOfField(b: Binding, x: Issue)
    requires x in ReviewEvidenceIssues(b)
    ensures OfField(x)
  {
  }

  lemma CiIssuesArePlain(b: Binding)
    ensures AllPlain(CiEvidenceIssues(b))
  {
    forall x | x in CiEvidenceIssues(b) ensures OfField(x) {
      CiIssueIsOfField(b, x);
    }
  }

  lemma ReviewIssuesArePlain(b: Binding)
    ensures AllPlain(ReviewEvidenceIssues(b))
  {
    forall x | x in ReviewEvidenceIssues(b) ensures OfField(x) {
      ReviewIssueIsOfField(b, x);
    }
  }

  lemma PlainIssuesArePlain(b: Binding, action: NextAction)
    ensures AllPlain(PlainIssues(b, action))
  {
    PlainUnions();
    CiIssuesArePlain(b);
    ReviewIssuesArePlain(b);
  }

  lemma {:induction false} ProfileIssuesAreNotAboutActors(requirements: seq<Requirement>, action: NextAction, x: Issue)
    requires x in ApplicableIssues(requirements, action)
    ensures !x.AboutActorBinding() && !x.Ambiguity()
  {
    var before, last := requirements[..|requirements| - 1], requirements[|requirements| - 1];
    if x in ApplicableIssues(before, action) {
      ProfileIssuesAreNotAboutActors(before, action, x);
    }
  }

  /** What is said about an actor that is not proven. */
  lemma UnprovenIssuesSay(actor: ActorResolution, role: string)
    requires !actor.Proven() && forall x | x in actor.issues :: !x.AboutRequiredEvidence()
    requires actor.state != Bound(AmbiguousSource) ==> forall x | x in actor.issues :: !x.Ambiguity()
    ensures
      var issues := UnprovenActorIssues(actor, role);
      && (exists x | x in issues :: x.AboutActorBinding()) && !SomeAboutEvidence(issues)
      && ((exists x | x in issues :: x.Ambiguity()) <==> actor.state == Bound(AmbiguousSource))
  {
    var issues := UnprovenActorIssues(actor, role);
    if actor.state == Bound(AmbiguousSource) {
      assert ActorAmbiguous(role) in issues;
    } else if actor.state == Bound(MismatchedSource) {
      assert ActorMismatch(role) in issues;
    } else {
      assert ActorUnproven(role) in issues;
    }
  }

  lemma AmbiguousByTheLast(b: Binding, role: string, i: nat)
    requires LastInRole(CanonicalActors(b), role, i)
    ensures
      var actors := CanonicalActors(b);
      AmbiguousIn(b, role) <==>
        !AllAgree(actors, role, i) || (actors[i].status == AmbiguousSource && !Foreign(actors[i].sourceRepository, b.repo))
  {
    forall j: nat | LastInRole(CanonicalActors(b), role, j) ensures j == i {
      LastInRoleIsUnique(CanonicalActors(b), role, i, j);
    }
  }

  lemma OneActorIsAmbiguousExactly(repo: Option<string>, wanted: string, a: Actor)
    requires !ResolveOneActor(repo, wanted, a).Proven()
    ensures ResolveOneActor(repo, wanted, a).state == Bound(AmbiguousSource) <==>
      a.status == AmbiguousSource && !Foreign(a.sourceRepository, repo)
    ensures forall x | x in ResolveOneActor(repo, wanted, a).issues :: !x.AboutRequiredEvidence() && !x.Ambiguity()
  {
    ForeignExactly(a.sourceRepository, repo);
  }

  lemma AmbiguityOfTheLast(b: Binding, role: string, i: nat)
    requires !ResolveActorBinding(b, role).Proven() && RoleName(role) != ""
    requires LastInRole(CanonicalActors(b), role, i) && WithRole(CanonicalActors(b), RoleName(role)) != []
    requires
      var candidates := WithRole(CanonicalActors(b), RoleName(role));
      candidates[|candidates| - 1] == CanonicalActors(b)[i]
    ensures
      var actors := CanonicalActors(b);
      ResolveActorBinding(b, role).state == Bound(AmbiguousSource) <==>
        !AllAgree(actors, role, i) || (actors[i].status == AmbiguousSource && !Foreign(actors[i].sourceRepository, b.repo))
    ensures forall x | x in ResolveActorBinding(b, role).issues :: !x.AboutRequiredEvidence()
    ensures ResolveActorBinding(b, role).state != Bound(AmbiguousSource) ==>
      forall x | x in ResolveActorBinding(b, role).issues :: !x.Ambiguity()
  {
    AgreementExactly(CanonicalActors(b), role, i);
    if AllAgree(CanonicalActors(b), role, i) { OneActorIsAmbiguousExactly(b.repo, RoleName(role), CanonicalActors(b)[i]); }
  }

  /** The ambiguity of a role's actor, and what else is said about it. */
  lemma AmbiguityExactly(b: Binding, role: string)
    requires !ResolveActorBinding(b, role).Proven() && !AllSpace(role)
    ensures ResolveActorBinding(b, role).state == Bound(AmbiguousSource) <==> AmbiguousIn(b, role)
    ensures forall x | x in ResolveActorBinding(b, role).issues :: !x.AboutRequiredEvidence()
    ensures ResolveActorBinding(b, role).state != Bound(AmbiguousSource) ==>
      forall x | x in ResolveActorBinding(b, role).issues :: !x.Ambiguity()
  {
    var actors := CanonicalActors(b);
    RoleNameIsEmptyExactly(role);
    if WithRole(actors, RoleName(role)) == [] {
      forall i: nat ensures !LastInRole(actors, role, i) {
        NobodyInRole(actors, role, i);
      }
    } else {
      var i := LastOfRole(actors, role);
      AmbiguousByTheLast(b, role, i);
      AmbiguityOfTheLast(b, role, i);
    }
  }

  // The gates of unclear actions follow from what each kind of issue is about.

  lemma ActorIssuesSay(b: Binding, action: NextAction)
    ensures
      var issues := ActorIssues(b, action, ActionCapability(action));
      var unproven := ActorFor(b, action).Some? && !ProvenIn(b, ActorFor(b, action).value);
      && !SomeAboutEvidence(issues)
      && ((exists x | x in issues :: x.AboutActorBinding()) <==> unproven)
      && (unproven ==> ((exists x | x in issues :: x.Ambiguity()) <==> AmbiguousIn(b, ActorFor(b, action).value)))
      && (!unproven ==> issues == {})
  {
    ActorIssuesExactly(b, action);
    ActorForExactly(b, action);
    if ActorFor(b, action).Some? && !ProvenIn(b, ActorFor(b, action).value) {
      var role := ActorFor(b, action).value;
      NormalRoleProves(b, role);
      ActorIsProvenExactlyWhen(b, role);
      NormalRoleResolves(b, role);
      ActorRoleIsNamed(b, action);
      AmbiguityExactly(b, role);
      UnprovenIssuesSay(ResolveActorBinding(b, RoleName(role)), RoleName(role));
    }
  }

  lemma ActorRoleIsNamed(b: Binding, action: NextAction)
    requires ActorFor(b, action).Some?
    ensures !AllSpace(ActorFor(b, action).value)
  {
    assert !IsSpace("WRITER"[0]) && !IsSpace("REVIEWER"[0]);
  }

  lemma NormalRoleResolves(b: Binding, role: string)
    ensures ResolveActorBinding(b, RoleName(role)) == ResolveActorBinding(b, role)
  {
    StripTrims(role);
    UpperOfTrimmedIsTrimmed(Strip(role));
    UpperTwice(Strip(role));
    StripTrims(RoleName(role));
    assert RoleName(RoleName(role)) == RoleName(role);
  }

  /** The gate in front of an action that is wanted and not clear. */
  lemma UnclearGateExactly(s: Binding, action: NextAction, r: Resolution)
    requires !ClearFor(s, action) && r.gate == None
    ensures BlockedBy(s, action, GateFor(ActionIssues(s, action, ActionCapability(action)), r))
  {
    var plain, actor, profile := PlainIssues(s, action), ActorIssues(s, action, ActionCapability(action)), ProfileIssues(s, action);
    var issues := ActionIssues(s, action, ActionCapability(action));
    PlainIssuesArePlain(s, action);
    ActorIssuesSay(s, action);
    ProfileIssuesSay(s, action);
    GateOfParts(plain, actor, profile, r);
  }

  lemma ProfileIssuesSay(s: Binding, action: NextAction)
    ensures SomeAboutEvidence(ProfileIssues(s, action)) <==> LacksRequired(s, action)
    ensures forall x | x in ProfileIssues(s, action) :: !x.AboutActorBinding() && !x.Ambiguity()
  {
    if s.profile.Some? {
      var requirements := s.profile.value.requirements;
      LackIsRaisedExactly(requirements, action);
      forall x | x in ApplicableIssues(requirements, action) ensures !x.AboutActorBinding() && !x.Ambiguity() {
        ProfileIssuesAreNotAboutActors(requirements, action, x);
      }
    }
  }

  /** The gate by what the parts are about. */
  lemma GateOfParts(plain: set<Issue>, actor: set<Issue>, profile: set<Issue>, r: Resolution)
    requires AllPlain(plain) && !SomeAboutEvidence(actor) && r.gate == None
    requires forall x | x in profile :: !x.AboutActorBinding() && !x.Ambiguity()
    ensures
      var about := exists x | x in actor :: x.AboutActorBinding();
      var ambiguous := exists x | x in actor :: x.Ambiguity();
      GateFor(plain + actor + profile, r) ==
        if SomeAboutEvidence(profile) then EvidenceIncomplete
        else if about then (if ambiguous then AmbiguousActorBinding else ActorBindingRequired)
        else IncompleteBinding
  {
    var issues := plain + actor + profile;
    assert forall x :: x in profile ==> x in issues;
    assert forall x :: x in actor ==> x in issues;
  }

  /** Which gate stops a lane that is offered nothing: an unsound binding, then drift, then what its
      lifecycle stops at, then what is in the way of the action it wants. */
  lemma GateExactlyWhen(b: Binding, previous: Option<Binding>, s: Binding)
    requires s == SettledBinding(b, previous) && ReconcileWorkstream(b, previous).resolution.action == None
    ensures Resolves(s, b, previous)
    ensures
      var gate := ReconcileWorkstream(b, previous).resolution.gate;
      && gate.Some?
      && if !SoundBinding(b) then gate.value == IncompleteBinding
         else if !Undrifted(b, previous) then gate.value == BindingDriftReconciliationRequired
         else (!HasText(s.actionInFlight) && StopsAt(ContextOf(s), gate.value))
              || exists action :: Wants(s, action) && BlockedBy(s, action, gate.value)
  {
    SettledExactly(b, previous);
    StructureExactly(b);
    DriftExactly(b, previous);
    BlockedUnlessSettled(b, previous);
    ReconcileSettles(b, previous);
    if SoundBinding(b) && Undrifted(b, previous) { SettleGateExactly(s); }
  }

  lemma SettleGateExactly(s: Binding)
    requires Settle(s).resolution.action == None
    ensures
      var gate := Settle(s).resolution.gate;
      && gate.Some?
      && ((!HasText(s.actionInFlight) && StopsAt(ContextOf(s), gate.value))
          || exists action :: Wants(s, action) && BlockedBy(s, action, gate.value))
  {
    var r := ResolutionOf(s);
    TextExactly(s.actionInFlight);
    ActionXorGate(ContextOf(s));
    if r.action.Some? {
      var action := r.action.value;
      WantsExactly(s, action);
      ClearExactly(s, action);
      UnclearGateExactly(s, action, r);
    } else {
      GatesExactlyWhen(ContextOf(s), r.gate.value);
    }
  }
}
