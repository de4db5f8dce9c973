/** Reconciliation of one lane: which issues stand in the way, which evidence has gone stale, and the
    one action or gate that follows. */
module Reconciliation {
  import opened Wrappers
  import opened Text
  import opened Lifecycle
  import opened Bindings

  // ---------------------------------------------------------------------------
  // Actors
  // ---------------------------------------------------------------------------

  const UNSPECIFIED := "UNSPECIFIED"

  function Or(a: Option<string>, otherwise: string): string {
    if a.Some? then a.value else otherwise
  }

  function AsActor(p: ProviderSource, fallbackRole: Option<string>): Actor {
    Actor(Or(TextOf(p.role), Or(TextOf(fallbackRole), UNSPECIFIED)), p.provider, p.sessionId, p.taskId, p.lineage,
          p.sourceRepository, p.sourceIdentity, p.status, p.evidenceId)
  }

  /** The actor a bare session id stands for when nothing better is bound. */
  function LegacyActor(b: Binding): Actor {
    Actor(Or(TextOf(b.role), UNSPECIFIED), Some("jules"), TextOf(b.sessionId), TextOf(b.taskId),
          if b.role.Some? && Upper(b.role.value) == "WRITER" then TextOf(b.writerLineage) else TextOf(b.reviewerLineage),
          TextOf(b.repo), None, ProposedUnverified, None)
  }

  function CanonicalActors(b: Binding): seq<Actor> {
    var actors := b.actors + (if b.providerSource.Some? then [AsActor(b.providerSource.value, b.role)] else []);
    if actors == [] && TextOf(b.sessionId).Some? then [LegacyActor(b)] else actors
  }

  function RoleName(role: string): string {
    Upper(Strip(role))
  }

  datatype ActorKey = ActorKey(
    provider: Option<string>, sessionId: Option<string>, taskId: Option<string>, lineage: Option<string>,
    sourceRepository: Option<string>, sourceIdentity: Option<string>, role: string,
    status: SourceBindingStatus, evidenceId: Option<string>)

  function KeyOf(a: Actor): ActorKey {
    ActorKey(TextOf(a.provider), TextOf(a.sessionId), TextOf(a.taskId), TextOf(a.lineage), TextOf(a.sourceRepository),
             TextOf(a.sourceIdentity), Upper(a.role), a.status, TextOf(a.evidenceId))
  }

  datatype ActorState = NoActor | Bound(status: SourceBindingStatus)

  datatype ActorResolution = ActorResolution(
    role: string, state: ActorState, actor: Option<Actor>, issues: set<Issue>)
  {
    predicate Proven() {
      state == Bound(ProvenExplicit) && actor.Some?
    }
  }

  function WithRole(actors: seq<Actor>, wanted: string): (r: seq<Actor>)
    ensures forall a :: a in r <==> a in actors && RoleName(a.role) == wanted
  {
    if actors == [] then []
    else
      var n := |actors| - 1;
      assert actors == actors[..n] + [actors[n]];
      WithRole(actors[..n], wanted) + (if RoleName(actors[n].role) == wanted then [actors[n]] else [])
  }

  /** The proof fields an explicitly proven actor lacks. */
  function MissingProof(role: string, a: Actor): set<Issue> {
    When(TextOf(a.provider).None?, ActorMissing(role, Some(FProvider)))
    + When(TextOf(a.sessionId).None?, ActorMissing(role, Some(FSessionId)))
    + When(TextOf(a.sourceRepository).None?, ActorMissing(role, Some(FSourceRepository)))
    + When(TextOf(a.sourceIdentity).None?, ActorMissing(role, Some(FSourceIdentity)))
    + When(TextOf(a.evidenceId).None?, ActorMissing(role, Some(FEvidenceId)))
  }

  function ResolveOneActor(repo: Option<string>, wanted: string, a: Actor): ActorResolution {
    if OtherRepository(a.sourceRepository, repo) then
      ActorResolution(wanted, Bound(MismatchedSource), Some(a), {ActorRepositoryMismatch(wanted)})
    else if a.status == ProvenExplicit && MissingProof(wanted, a) != {} then
      ActorResolution(wanted, Bound(ProposedUnverified), Some(a), MissingProof(wanted, a))
    else
      ActorResolution(wanted, Bound(a.status), Some(a), {})
  }

  /** The one actor of a role: several observations of it must agree on every field, and the last of
      them stands for all. */
  function ResolveActorBinding(b: Binding, role: string): ActorResolution {
    var wanted := RoleName(role);
    if wanted == "" then ActorResolution(wanted, NoActor, None, {Missing(FActorRole)})
    else
      var candidates := WithRole(CanonicalActors(b), wanted);
      if candidates == [] then ActorResolution(wanted, NoActor, None, {ActorMissing(wanted, None)})
      else
        var last := candidates[|candidates| - 1];
        if exists a | a in candidates :: KeyOf(a) != KeyOf(last) then
          ActorResolution(wanted, Bound(AmbiguousSource), None, {ActorAmbiguous(wanted)})
        else ResolveOneActor(b.repo, wanted, last)
  }

  // ---------------------------------------------------------------------------
  // Structural issues
  // ---------------------------------------------------------------------------

  function IdentityIssues(b: Binding): set<Issue> {
    When(TextOf(b.project).None?, Missing(FProject)) + When(TextOf(b.route).None?, Missing(FRoute))
    + When(TextOf(b.workstream).None?, Missing(FWorkstream)) + When(TextOf(b.role).None?, Missing(FRole))
    + When(TextOf(b.repo).None?, Missing(FRepo)) + When(TextOf(b.branch).None?, Missing(FBranch))
    + When(TextOf(b.baseRef).None?, Missing(FBaseRef)) + When(TextOf(b.taskBudgetClass).None?, Missing(FTaskBudgetClass))
    + When(!IsSha(b.baselineSha), Invalid(FBaselineSha))
    + When(b.headSha.Some? && !IsSha(b.headSha), Invalid(FHeadSha))
    + When(b.prNumber.Some? && b.prNumber.value <= 0, Invalid(FPrNumber))
    + When(b.lastActivity.None?, Missing(FLastActivity)) + When(b.lastActivity == Some(false), Invalid(FLastActivity))
  }

  predicate RepeatsName(requirements: seq<Requirement>) {
    exists i, j | 0 <= i < j < |requirements| ::
      TextOf(requirements[i].name).Some? && TextOf(requirements[i].name) == TextOf(requirements[j].name)
  }

  function ProfileShapeIssues(profile: Option<EvidenceProfile>): set<Issue> {
    match profile
    case None => {}
    case Some(p) =>
      When(TextOf(p.profileId).None?, Missing(FProfileId)) + When(RepeatsName(p.requirements), DuplicateRequirement(None))
  }

  function CiShapeIssues(ci: Option<CiBinding>, repo: Option<string>): set<Issue> {
    match ci
    case None => {}
    case Some(c) =>
      When(c.candidateSha.Some? && !IsSha(c.candidateSha), Invalid(FCiCandidateSha))
      + When(c.runAttempt.Some? && c.runAttempt.value <= 0, Invalid(FCiRunAttempt))
      + When(OtherRepository(c.sourceRepository, repo), Mismatch(FCiSourceRepository))
      + When(TextOf(c.artifactId).Some? && TextOf(c.producerJob).None?, Missing(FCiProducerJob))
  }

  function ReviewShapeIssues(review: Option<ReviewBinding>, repo: Option<string>): set<Issue> {
    match review
    case None => {}
    case Some(r) =>
      When(r.reviewedSha.Some? && !IsSha(r.reviewedSha), Invalid(FReviewedSha))
      + When(OtherRepository(r.sourceRepository, repo), Mismatch(FReviewSourceRepository))
  }

  function ActorShapeIssues(a: Actor, repo: Option<string>): set<Issue> {
    var role := if RoleName(a.role) == "" then UNSPECIFIED else RoleName(a.role);
    When(TextOf(a.provider).None?, ActorMissing(role, Some(FProvider)))
    + (if a.status != ProvenExplicit then {}
       else When(TextOf(a.sessionId).None?, ActorMissing(role, Some(FSessionId)))
            + When(TextOf(a.sourceRepository).None?, ActorMissing(role, Some(FSourceRepository)))
            + When(TextOf(a.sourceIdentity).None?, ActorMissing(role, Some(FSourceIdentity)))
            + When(TextOf(a.evidenceId).None?, ActorMissing(role, Some(FEvidenceId))))
    + When(OtherRepository(a.sourceRepository, repo), ActorRepositoryMismatch(role))
  }

  function ActorsShapeIssues(actors: seq<Actor>, repo: Option<string>): set<Issue> {
    if actors == [] then {}
    else ActorsShapeIssues(actors[..|actors| - 1], repo) + ActorShapeIssues(actors[|actors| - 1], repo)
  }

  function AuthorizationIssues(authorization: Option<AuthorizationBinding>): set<Issue> {
    match authorization
    case None => {}
    case Some(a) =>
      When(TextOf(a.source).None?, Missing(FAuthorizationSource)) + When(TextOf(a.decisionId).None?, Missing(FAuthorizationDecision))
  }

  function InFlightIssues(b: Binding): set<Issue> {
    if TextOf(b.actionInFlight).None? then {}
    else When(TextOf(b.leaseId).None?, Missing(FLeaseId)) + When(TextOf(b.operationKey).None?, Missing(FOperationKey))
  }

  function StructuralIssues(b: Binding): set<Issue> {
    IdentityIssues(b) + ProfileShapeIssues(b.profile) + CiShapeIssues(b.ci, b.repo)
      + ReviewShapeIssues(b.review, b.repo) + ActorsShapeIssues(CanonicalActors(b), b.repo)
      + AuthorizationIssues(b.authorization) + InFlightIssues(b)
  }

  // ---------------------------------------------------------------------------
  // Issues of an action
  // ---------------------------------------------------------------------------

  function CiEvidenceIssues(b: Binding): set<Issue> {
    match b.ci
    case None => {Missing(FCi)}
    case Some(c) =>
      When(TextOf(c.sourceProvider).None?, Missing(FCiSourceProvider))
        + When(TextOf(c.sourceRepository).None?, Missing(FCiSourceRepository))
        + When(TextOf(c.workflowIdentity).None?, Missing(FCiWorkflowIdentity))
        + When(TextOf(c.requiredCheckIdentity).None?, Missing(FCiRequiredCheck))
        + When(TextOf(c.workflowRunId).None?, Missing(FCiRunId))
        + When(TextOf(c.candidateSha).None?, Missing(FCiCandidateSha))
        + When(TextOf(c.classification).None?, Missing(FCiClassification))
        + When(c.runAttempt.None?, Missing(FCiRunAttempt))
        + When(c.runAttempt.Some? && c.runAttempt.value <= 0, Invalid(FCiRunAttempt))
        + When(c.candidateSha.Some? && !IsSha(c.candidateSha), Invalid(FCiCandidateSha))
        + When(IsSha(c.candidateSha) && IsSha(b.headSha) && !SameSha(c.candidateSha.value, b.headSha.value), Mismatch(FCiCandidateSha))
        + When(c.stale, StaleEvidence(FCi))
        + When(OtherRepository(c.sourceRepository, b.repo), Mismatch(FCiSourceRepository))
        + When(TextOf(c.artifactId).Some? && TextOf(c.producerJob).None?, Missing(FCiProducerJob))
        + When(TextOf(c.artifactId).Some? && c.runAttempt.None?, Missing(FCiRunAttemptForArtifact))
  }

  function ReviewEvidenceIssues(b: Binding): set<Issue> {
    match b.review
    case None => {Missing(FReview)}
    case Some(r) =>
      When(!IsSha(r.reviewedSha), MissingExact(FReviewedSha))
      + When(IsSha(r.reviewedSha) && IsSha(b.headSha) && !SameSha(r.reviewedSha.value, b.headSha.value), Mismatch(FReviewedSha))
      + When(r.stale, StaleEvidence(FReview))
      + When(OtherRepository(r.sourceRepository, b.repo), Mismatch(FReviewSourceRepository))
  }

  function ProviderActorRole(b: Binding, action: NextAction): Option<string> {
    match action
    case RouteFindingsToSameWriter | ContinueSameWriter => Some("WRITER")
    case StartExactShaReview | StartReReview => Some("REVIEWER")
    case ContinueSameSession | RecoverSameLineage | ResumePausedLane =>
      if b.role.None? || RoleName(b.role.value) == "" then None else Some(RoleName(b.role.value))
    case _ => None
  }

  function UnprovenActorIssues(actor: ActorResolution, role: string): set<Issue> {
    if actor.Proven() then {}
    else if actor.state == Bound(AmbiguousSource) then {ActorAmbiguous(role)}
    else if actor.state == Bound(MismatchedSource) then {ActorMismatch(role)}
    else {ActorUnproven(role)} + actor.issues
  }

  function ActorIssues(b: Binding, action: NextAction, capability: Capability): set<Issue> {
    if capability != ExternalEffect || ProviderActorRole(b, action).None? then {}
    else
      var role := ProviderActorRole(b, action).value;
      UnprovenActorIssues(ResolveActorBinding(b, role), role)
  }

  /** The names of the applicable requirements. */
  function NamesOf(requirements: seq<Requirement>, action: NextAction): set<string> {
    set r | r in requirements && r.AppliesTo(action) && TextOf(r.name).Some? :: TextOf(r.name).value
  }

  function RequirementIssues(r: Requirement, seen: set<string>): set<Issue> {
    match TextOf(r.name)
    case None => {Invalid(FRequirementName)}
    case Some(name) =>
      When(name in seen, DuplicateRequirement(Some(name)))
      + When(!r.proven, RequiredEvidenceMissing(name)) + When(r.proven && !r.current, RequiredEvidenceStale(name))
  }

  function ApplicableIssues(requirements: seq<Requirement>, action: NextAction): set<Issue> {
    if requirements == [] then {}
    else
      var before, last := requirements[..|requirements| - 1], requirements[|requirements| - 1];
      ApplicableIssues(before, action)
      + (if last.AppliesTo(action) then RequirementIssues(last, NamesOf(before, action)) else {})
  }

  function ProfileIssues(b: Binding, action: NextAction): set<Issue> {
    match b.profile
    case None => {}
    case Some(p) => ApplicableIssues(p.requirements, action)
  }

  predicate NeedsExactHead(action: NextAction) {
    action in {RunExactHeadCi, ClassifyCi, StartExactShaReview, CaptureReviewResult, RouteFindingsToSameWriter,
               ContinueSameWriter, VerifyCandidateSha, InvalidatePriorReview, StartReReview, RequestParentReview,
               ReconcileCiEvidence, ReconcileReviewEvidence}
  }

  predicate NeedsPullRequest(action: NextAction) {
    action in {RunExactHeadCi, StartExactShaReview, CaptureReviewResult, StartReReview, RequestParentReview,
               ReconcileReviewEvidence}
  }

  predicate NeedsCi(action: NextAction) {
    action in {ClassifyCi, ReconcileCiEvidence, StartExactShaReview, StartReReview}
  }

  predicate NeedsReview(action: NextAction) {
    action in {RequestParentReview, ReconcileReviewEvidence, RouteFindingsToSameWriter}
  }

  /** The issues of an action that are neither about its actor nor about its profile. */
  function PlainIssues(b: Binding, action: NextAction): set<Issue> {
    When(NeedsExactHead(action) && !IsSha(b.headSha), MissingExact(FHeadSha))
      + When(NeedsPullRequest(action) && b.prNumber.None?, Missing(FPrNumber))
      + (if NeedsCi(action) then CiEvidenceIssues(b) else {})
      + When(action in {RouteFindingsToSameWriter, ContinueSameWriter} && TextOf(b.writerLineage).None?, Missing(FWriterLineage))
      + When(action in {StartExactShaReview, StartReReview, CaptureReviewResult} && TextOf(b.reviewerLineage).None?,
             Missing(FReviewerLineage))
      + (if NeedsReview(action) then ReviewEvidenceIssues(b) else {})
  }

  function ActionIssues(b: Binding, action: NextAction, capability: Capability): set<Issue> {
    PlainIssues(b, action) + ActorIssues(b, action, capability) + ProfileIssues(b, action)
  }

  // ---------------------------------------------------------------------------
  // Drift
  // ---------------------------------------------------------------------------

  datatype ActorSource = ActorSource(provider: Option<string>, repository: Option<string>, identity: Option<string>)

  function ActorSources(b: Binding): map<string, ActorSource> {
    map a | a in CanonicalActors(b) && Upper(a.role) != "" && ResolveActorBinding(b, Upper(a.role)).actor.Some? ::
      Upper(a.role) :=
        var actor := ResolveActorBinding(b, Upper(a.role)).actor.value;
        ActorSource(TextOf(actor.provider), TextOf(actor.sourceRepository), TextOf(actor.sourceIdentity))
  }

  function DriftedRoles(before: map<string, ActorSource>, after: map<string, ActorSource>): set<string> {
    set role | role in before.Keys + after.Keys && !(role in before && role in after && before[role] == after[role])
  }

  function ProfileIdOf(b: Binding): Option<string> {
    if b.profile.Some? then TextOf(b.profile.value.profileId) else None
  }

  function DriftIssues(b: Binding, previous: Option<Binding>): set<Issue> {
    match previous
    case None => {}
    case Some(p) =>
      When(TextOf(p.repo) != TextOf(b.repo), Drift(FRepo)) + When(TextOf(p.branch) != TextOf(b.branch), Drift(FBranch))
      + When(TextOf(p.baseRef) != TextOf(b.baseRef), Drift(FBaseRef)) + When(p.baselineSha != b.baselineSha, Drift(FBaselineSha))
      + When(TextOf(p.scopeIdentity) != TextOf(b.scopeIdentity), Drift(FScopeIdentity))
      + When(ProfileIdOf(p) != ProfileIdOf(b), Drift(FProfile))
      + (var roles := DriftedRoles(ActorSources(p), ActorSources(b)); When(roles != {}, DriftedSources(roles)))
  }

  // ---------------------------------------------------------------------------
  // Invalidation
  // ---------------------------------------------------------------------------

  function StaleReview(r: ReviewBinding, reason: StaleReason): ReviewBinding {
    r.(stale := true, staleReason := if r.staleReason.Some? then r.staleReason else Some(reason))
  }

  function StaleCi(c: CiBinding, reason: StaleReason): CiBinding {
    c.(stale := true, staleReason := if c.staleReason.Some? then c.staleReason else Some(reason))
  }

  /** The review is of another SHA than `head`. */
  predicate ReviewsOther(review: Option<ReviewBinding>, head: Option<string>) {
    && review.Some? && Present(review.value.reviewedSha) && Present(head)
    && !SameSha(review.value.reviewedSha.value, head.value)
  }

  predicate ChecksOther(ci: Option<CiBinding>, head: Option<string>) {
    && ci.Some? && Present(ci.value.candidateSha) && Present(head)
    && !SameSha(ci.value.candidateSha.value, head.value)
  }

  function StaleReviewIf(cause: bool, review: Option<ReviewBinding>, reason: StaleReason): Option<ReviewBinding> {
    if cause && review.Some? then Some(StaleReview(review.value, reason)) else review
  }

  function StaleCiIf(cause: bool, ci: Option<CiBinding>, reason: StaleReason): Option<CiBinding> {
    if cause && ci.Some? then Some(StaleCi(ci.value, reason)) else ci
  }

  datatype Invalidation = Invalidation(binding: Binding, moved: bool, review: bool, ci: bool)

  predicate ShaMoved(b: Binding, previous: Option<Binding>) {
    && previous.Some? && Present(previous.value.headSha) && Present(b.headSha)
    && !SameSha(previous.value.headSha.value, b.headSha.value)
  }

  function InvalidateShaMove(b: Binding, previous: Option<Binding>): Invalidation {
    if !ShaMoved(b, previous) then Invalidation(b, false, false, false)
    else
      var reason := CandidateMoved(previous.value.headSha.value, b.headSha.value);
      var review := if b.review.Some? then b.review else previous.value.review;
      var ci := if b.ci.Some? then b.ci else previous.value.ci;
      var reviewOff, ciOff := ReviewsOther(review, b.headSha), ChecksOther(ci, b.headSha);
      Invalidation(b.(state := NewSha, review := StaleReviewIf(reviewOff, review, reason), ci := StaleCiIf(ciOff, ci, reason)),
                   true, reviewOff, ciOff)
  }

  function InvalidateMismatch(b: Binding): Invalidation {
    var reviewOff, ciOff := ReviewsOther(b.review, b.headSha), ChecksOther(b.ci, b.headSha);
    var review := if reviewOff then
        StaleReviewIf(true, b.review, ShaMismatch(b.review.value.reviewedSha.value, b.headSha.value)) else b.review;
    var ci := if ciOff then StaleCiIf(true, b.ci, ShaMismatch(b.ci.value.candidateSha.value, b.headSha.value)) else b.ci;
    var state := if reviewOff && b.state in {ReviewResult, ParentReviewPending, ReviewerActive} then PriorReviewStale else b.state;
    Invalidation(b.(review := review, ci := ci, state := state), false, reviewOff, ciOff)
  }

  // ---------------------------------------------------------------------------
  // Reconciliation
  // ---------------------------------------------------------------------------

  datatype Reconciled = Reconciled(
    binding: Binding, resolution: Resolution, issues: set<Issue>,
    moved: bool, reviewInvalidated: bool, ciInvalidated: bool)
  {
    predicate SemanticCandidate() {
      resolution.SemanticCandidate() && issues == {} && binding.actionInFlight.None?
    }
  }

  function Blocked(b: Binding, issues: set<Issue>, gate: StopGate): Reconciled {
    Reconciled(b.(nextAction := None, stopGate := Some(gate)), Stop(b.state, gate), issues, false, false, false)
  }

  function ContextOf(b: Binding): LifecycleContext {
    LifecycleContext(
      b.state, if b.review.Some? then b.review.value.outcome else None, if b.ci.Some? then b.ci.value.outcome else None,
      b.waiting, b.failure, b.resume, b.review.Some? && b.review.value.stale)
  }

  function ResolutionOf(b: Binding): Resolution {
    if TextOf(b.actionInFlight).Some? then Transition(b.state, b.state, VerifyActionInFlight, [])
    else ResolveNextAction(ContextOf(b))
  }

  function ResolutionIssues(b: Binding, r: Resolution): set<Issue> {
    match r.action
    case None => {}
    case Some(action) => ActionIssues(b, action, r.capability)
  }

  function GateFor(issues: set<Issue>, r: Resolution): StopGate {
    if exists x | x in issues :: x.AboutRequiredEvidence() then EvidenceIncomplete
    else if exists x | x in issues :: x.AboutActorBinding() then
      if exists x | x in issues :: x.Ambiguity() then AmbiguousActorBinding else ActorBindingRequired
    else if r.gate.Some? then r.gate.value
    else IncompleteBinding
  }

  /** The part of a reconciliation that follows the invalidations. */
  function Settle(b: Binding): Reconciled {
    var resolution := ResolutionOf(b);
    var issues := ResolutionIssues(b, resolution);
    if issues != {} then Blocked(b, issues, GateFor(issues, resolution))
    else Reconciled(b.(nextAction := resolution.action, stopGate := resolution.gate), resolution, {}, false, false, false)
  }

  function ReconcileWorkstream(b: Binding, previous: Option<Binding>): Reconciled {
    if StructuralIssues(b) != {} then Blocked(b, StructuralIssues(b), IncompleteBinding)
    else if DriftIssues(b, previous) != {} then Blocked(b, DriftIssues(b, previous), BindingDriftReconciliationRequired)
    else
      var move := InvalidateShaMove(b, previous);
      var mismatch := InvalidateMismatch(move.binding);
      Settle(mismatch.binding).(
        moved := move.moved, reviewInvalidated := move.review || mismatch.review, ciInvalidated := move.ci || mismatch.ci)
  }

  // ---------------------------------------------------------------------------
  // The loops
  // ---------------------------------------------------------------------------

  method ActorsWithRole(actors: seq<Actor>, wanted: string) returns (candidates: seq<Actor>)
    ensures candidates == WithRole(actors, wanted)
  {
    candidates := [];
    for i := 0 to |actors|
      invariant candidates == WithRole(actors[..i], wanted)
    {
      assert actors[..i + 1][..i] == actors[..i];
      if RoleName(actors[i].role) == wanted { candidates := candidates + [actors[i]]; }
    }
    assert actors[..|actors|] == actors;
  }

  /** The last candidate, if all of them have the same key. */
  method OnlyActor(candidates: seq<Actor>) returns (only: Option<Actor>)
    requires candidates != []
    ensures
      var last := candidates[|candidates| - 1];
      only == if exists a | a in candidates :: KeyOf(a) != KeyOf(last) then None else Some(last)
  {
    var unique: map<ActorKey, Actor> := map[];
    for i := 0 to |candidates|
      invariant unique.Keys == Keys(candidates[..i])
      invariant i > 0 ==> KeyOf(candidates[i - 1]) in unique && unique[KeyOf(candidates[i - 1])] == candidates[i - 1]
    {
      KeysGrow(candidates, i);
      unique := unique[KeyOf(candidates[i]) := candidates[i]];
    }
    var last := candidates[|candidates| - 1];
    assert candidates[..|candidates|] == candidates && |unique| == |unique.Keys|;
    OneKey(candidates);
    only := if |unique| != 1 then None else Some(unique[KeyOf(last)]);
  }

  function Keys(candidates: seq<Actor>): set<ActorKey> {
    set a | a in candidates :: KeyOf(a)
  }

  /** There is one key exactly when all candidates have the last one's. */
  lemma OneKey(candidates: seq<Actor>)
    requires candidates != []
    ensures |Keys(candidates)| == 1 <==> !exists a | a in candidates :: KeyOf(a) != KeyOf(candidates[|candidates| - 1])
  {
    var k := KeyOf(candidates[|candidates| - 1]);
    var others := Keys(candidates) - {k};
    assert Keys(candidates) == {k} + others;
    if a :| a in candidates && KeyOf(a) != k {
      assert KeyOf(a) in others;
    } else {
      assert others == {};
    }
  }

  lemma KeysGrow(candidates: seq<Actor>, i: nat)
    requires i < |candidates|
    ensures Keys(candidates[..i + 1]) == Keys(candidates[..i]) + {KeyOf(candidates[i])}
  {
    assert candidates[..i + 1] == candidates[..i] + [candidates[i]];
  }

  method ResolveActor(b: Binding, role: string) returns (r: ActorResolution)
    ensures r == ResolveActorBinding(b, role)
  {
    var wanted := RoleName(role);
    if wanted == "" { return ActorResolution(wanted, NoActor, None, {Missing(FActorRole)}); }
    var candidates := ActorsWithRole(CanonicalActors(b), wanted);
    if candidates == [] { return ActorResolution(wanted, NoActor, None, {ActorMissing(wanted, None)}); }
    var actor := OnlyActor(candidates);
    match actor
    case None => r := ActorResolution(wanted, Bound(AmbiguousSource), None, {ActorAmbiguous(wanted)});
    case Some(a) => r := ResolveOneActor(b.repo, wanted, a);
  }

  method IssuesForProfile(p: EvidenceProfile, action: NextAction) returns (issues: set<Issue>)
    ensures issues == ApplicableIssues(p.requirements, action)
  {
    var found := {};
    var seen := {};
    for i := 0 to |p.requirements|
      invariant found == ApplicableIssues(p.requirements[..i], action)
      invariant seen == NamesOf(p.requirements[..i], action)
    {
      var r := p.requirements[i];
      RequirementChecked(p.requirements, i, action, found, seen);
      if r.AppliesTo(action) {
        found := found + RequirementIssues(r, seen);
        if TextOf(r.name).Some? { seen := seen + {TextOf(r.name).value}; }
      }
    }
    assert p.requirements[..|p.requirements|] == p.requirements;
    issues := found;
  }

  /** What looking at one more requirement adds. */
  lemma RequirementChecked(requirements: seq<Requirement>, i: nat, action: NextAction, found: set<Issue>, seen: set<string>)
    requires i < |requirements|
    requires found == ApplicableIssues(requirements[..i], action) && seen == NamesOf(requirements[..i], action)
    ensures
      var r := requirements[i];
      if r.AppliesTo(action) then
        && ApplicableIssues(requirements[..i + 1], action) == found + RequirementIssues(r, seen)
        && NamesOf(requirements[..i + 1], action) == seen + (if TextOf(r.name).Some? then {TextOf(r.name).value} else {})
      else
        && ApplicableIssues(requirements[..i + 1], action) == found
        && NamesOf(requirements[..i + 1], action) == seen
  {
    NamesGrow(requirements, i, action);
    ApplicableGrow(requirements, i, action);
  }

  lemma ApplicableGrow(requirements: seq<Requirement>, i: nat, action: NextAction)
    requires i < |requirements|
    ensures
      var r := requirements[i];
      ApplicableIssues(requirements[..i + 1], action) == ApplicableIssues(requirements[..i], action)
        + (if r.AppliesTo(action) then RequirementIssues(r, NamesOf(requirements[..i], action)) else {})
  {
    assert requirements[..i + 1][..i] == requirements[..i];
  }

  lemma NamesGrow(requirements: seq<Requirement>, i: nat, action: NextAction)
    requires i < |requirements|
    ensures
      var r := requirements[i];
      NamesOf(requirements[..i + 1], action) == NamesOf(requirements[..i], action)
        + (if r.AppliesTo(action) && TextOf(r.name).Some? then {TextOf(r.name).value} else {})
  {
    assert requirements[..i + 1] == requirements[..i] + [requirements[i]];
  }
}
