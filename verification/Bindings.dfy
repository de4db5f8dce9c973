/** Workstream bindings: what a controller observed about one lane, and what may be wrong with it. */
module Bindings {
  import opened Wrappers
  import opened Text
  import opened Lifecycle

  /** Stripped text, None when nothing is left. */
  function TextOf(value: Option<string>): Option<string> {
    if value.None? || Strip(value.value) == "" then None else Some(Strip(value.value))
  }

  /** Neither absent nor empty. */
  predicate Present(value: Option<string>) {
    value.Some? && value.value != ""
  }

  predicate HexDigit(c: char) {
    '0' <= c <= '9' || 'a' <= c <= 'f' || 'A' <= c <= 'F'
  }

  predicate IsSha(value: Option<string>) {
    value.Some? && |value.value| == 40 && forall i :: 0 <= i < 40 ==> HexDigit(value.value[i])
  }

  predicate SameSha(a: string, b: string) {
    Lower(a) == Lower(b)
  }

  /** Both texts are there and the raw values differ. */
  predicate OtherRepository(source: Option<string>, repo: Option<string>) {
    TextOf(source).Some? && TextOf(repo).Some? && source != repo
  }

  // ---------------------------------------------------------------------------
  // Bindings
  // ---------------------------------------------------------------------------

  /** Why evidence was marked stale; an empty given reason counts as none. */
  datatype StaleReason = CandidateMoved(before: string, after: string) | ShaMismatch(evidence: string, candidate: string) | Given(text: string)

  datatype CiBinding = CiBinding(
    sourceProvider: Option<string>, sourceRepository: Option<string>, workflowIdentity: Option<string>,
    requiredCheckIdentity: Option<string>, workflowRunId: Option<string>, runAttempt: Option<int>,
    producerJob: Option<string>, artifactId: Option<string>, candidateSha: Option<string>,
    classification: Option<string>, outcome: Option<CiOutcome>, stale: bool, staleReason: Option<StaleReason>)

  datatype ReviewBinding = ReviewBinding(
    reviewId: Option<string>, reviewedSha: Option<string>, sourceRepository: Option<string>,
    outcome: Option<ReviewOutcome>, stale: bool, staleReason: Option<StaleReason>)

  datatype Actor = Actor(
    role: string, provider: Option<string>, sessionId: Option<string>, taskId: Option<string>,
    lineage: Option<string>, sourceRepository: Option<string>, sourceIdentity: Option<string>,
    status: SourceBindingStatus, evidenceId: Option<string>)

  datatype ProviderSource = ProviderSource(
    provider: Option<string>, sourceRepository: Option<string>, sourceIdentity: Option<string>,
    sessionId: Option<string>, taskId: Option<string>, role: Option<string>,
    status: SourceBindingStatus, evidenceId: Option<string>, lineage: Option<string>)

  /** The actions a requirement names; a name that is no action is None and matches nothing. */
  datatype Requirement = Requirement(
    name: Option<string>, proven: bool, current: bool, actions: seq<Option<NextAction>>)
  {
    predicate AppliesTo(action: NextAction) {
      actions == [] || Some(action) in actions
    }
  }

  datatype EvidenceProfile = EvidenceProfile(profileId: Option<string>, requirements: seq<Requirement>)

  datatype AuthorizationBinding = AuthorizationBinding(source: Option<string>, decisionId: Option<string>)

  /** `lastActivity` says whether the timestamp is timezone-aware. */
  datatype Binding = Binding(
    project: Option<string>, route: Option<string>, workstream: Option<string>, role: Option<string>,
    repo: Option<string>, branch: Option<string>, baseRef: Option<string>, taskBudgetClass: Option<string>,
    state: LifecycleState, baselineSha: Option<string>, lastActivity: Option<bool>,
    sessionId: Option<string>, taskId: Option<string>, writerLineage: Option<string>,
    reviewerLineage: Option<string>, actors: seq<Actor>, scopeIdentity: Option<string>,
    profile: Option<EvidenceProfile>, providerSource: Option<ProviderSource>,
    authorization: Option<AuthorizationBinding>, prNumber: Option<int>, headSha: Option<string>,
    ci: Option<CiBinding>, review: Option<ReviewBinding>, waiting: Option<WaitingClass>,
    failure: Option<FailureClass>, resume: Option<LifecycleState>, actionInFlight: Option<string>,
    leaseId: Option<string>, operationKey: Option<string>,
    nextAction: Option<NextAction>, stopGate: Option<StopGate>)

  datatype LaneKey = LaneKey(project: string, route: string, workstream: string)

  function CanonicalLaneKey(b: Binding): Option<LaneKey> {
    match (TextOf(b.project), TextOf(b.route), TextOf(b.workstream))
    case (Some(p), Some(r), Some(w)) => Some(LaneKey(p, r, w))
    case _ => None
  }

  // ---------------------------------------------------------------------------
  // Issues
  // ---------------------------------------------------------------------------

  datatype Field =
    | FProject | FRoute | FWorkstream | FRole | FRepo | FBranch | FBaseRef | FTaskBudgetClass
    | FBaselineSha | FHeadSha | FPrNumber | FLastActivity
    | FProfileId | FRequirementName
    | FCi | FCiSourceProvider | FCiSourceRepository | FCiWorkflowIdentity | FCiRequiredCheck | FCiRunId
    | FCiRunAttempt | FCiRunAttemptForArtifact | FCiProducerJob | FCiCandidateSha | FCiClassification
    | FReview | FReviewedSha | FReviewSourceRepository
    | FProvider | FSessionId | FSourceRepository | FSourceIdentity | FEvidenceId | FActorRole
    | FAuthorizationSource | FAuthorizationDecision | FLeaseId | FOperationKey
    | FWriterLineage | FReviewerLineage | FScopeIdentity | FProfile

  datatype SessionKey = SessionKey(provider: string, session: string)

  datatype Issue =
    | Missing(field: Field)
    | MissingExact(field: Field)
    | Invalid(field: Field)
    | Mismatch(field: Field)
    | StaleEvidence(field: Field)
    | DuplicateRequirement(name: Option<string>)
    | ActorMissing(role: string, detail: Option<Field>)
    | ActorAmbiguous(role: string)
    | ActorMismatch(role: string)
    | ActorUnproven(role: string)
    | ActorRepositoryMismatch(role: string)
    | RequiredEvidenceMissing(requirement: string)
    | RequiredEvidenceStale(requirement: string)
    | Drift(field: Field)
    | DriftedSources(roles: set<string>)
    | DuplicateLane(key: LaneKey)
    | SharedSessions(sessions: set<SessionKey>)
  {
    predicate AboutRequiredEvidence() {
      RequiredEvidenceMissing? || RequiredEvidenceStale?
    }

    predicate AboutActorBinding() {
      ActorMissing? || ActorAmbiguous? || ActorMismatch? || ActorUnproven?
    }

    predicate Ambiguity() {
      ActorAmbiguous? || DuplicateLane? || SharedSessions?
    }
  }

  /** The issue, if there is cause for it. */
  function When(cause: bool, issue: Issue): (r: set<Issue>)
    ensures r == {} <==> !cause
  {
    if cause then {issue} else {}
  }
}
