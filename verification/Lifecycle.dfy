/** The lifecycle machine: one semantic action or one stop gate for every context, and what every run
    of it has behind it when it asks for parent review. */
module Lifecycle {
  import opened Wrappers

  datatype LifecycleState =
    | WriterActive
    | CandidatePublished
    | CiRunning
    | CiClassified
    | ReviewerActive
    | ReviewResult
    | CorrectionRequired
    | SameWriterContinuation
    | NewSha
    | PriorReviewStale
    | ReReview
    | ParentReviewPending
    | AwaitingUserFeedback
    | Failed
    | Paused
    | Forgotten

  datatype ReviewOutcome = ReviewPass | Findings

  datatype CiOutcome = CiPass | CiFailure

  datatype WaitingClass =
    | PolicyResolvable
    | EnvironmentMismatch
    | CiDependent
    | ReviewDependent
    | ToolLimit
    | SharedContractNeeded
    | ScopeOrNewTaskRequired
    | OwnerDecisionRequired
    | UnclassifiedWait

  datatype FailureClass =
    | Recoverable
    | SessionContinuationUnavailable
    | CandidateDefect
    | ParentRequired
    | OwnerRequired
    | UnclassifiedFault

  datatype NextAction =
    | PublishCandidate
    | RunExactHeadCi
    | ClassifyCi
    | StartExactShaReview
    | CaptureReviewResult
    | RouteFindingsToSameWriter
    | ContinueSameWriter
    | VerifyCandidateSha
    | InvalidatePriorReview
    | StartReReview
    | RequestParentReview
    | ContinueSameSession
    | ReconcileCiEvidence
    | ReconcileReviewEvidence
    | RecoverSameLineage
    | ResumePausedLane
    | VerifyActionInFlight

  datatype Capability = ReadOnly | ControlSignal | ExternalEffect

  datatype SourceBindingStatus = ProvenExplicit | ProposedUnverified | AmbiguousSource | MismatchedSource

  datatype StopGate =
    | ParentAuthorityRequired
    | ParentRequiredNewTask
    | OwnerAuthorityRequired
    | SharedContractRequired
    | UnclassifiedWaiting
    | UnclassifiedFailure
    | PauseRequiresAuthority
    | CiFailureClassificationRequired
    | IncompleteBinding
    | InvalidBinding
    | ForgottenLane
    | AmbiguousLaneBinding
    | AmbiguousProviderSession
    | ExternalAuthorizationRequired
    | ExternalAuthorizationDenied
    | AuthorizationBindingMismatch
    | ProviderSourceBindingRequired
    | AmbiguousProviderSourceBinding
    | ProviderSourceMismatch
    | ActorBindingRequired
    | AmbiguousActorBinding
    | EvidenceIncomplete
    | BindingDriftReconciliationRequired

  datatype EvidenceName =
    | ExactHeadCiEvidence
    | ClassifiedCiFailure
    | ExactShaReviewEvidence
    | CurrentProviderState
    | LatestRelevantActivity
    | ClassifiedFailure

  /** What the machine is given. An unrecognised outcome or class is None. */
  datatype LifecycleContext = LifecycleContext(
    state: LifecycleState,
    review: Option<ReviewOutcome>,
    ci: Option<CiOutcome>,
    waiting: Option<WaitingClass>,
    failure: Option<FailureClass>,
    resume: Option<LifecycleState>,
    reviewStale: bool)

  datatype Resolution = Resolution(
    current: LifecycleState, next: LifecycleState, action: Option<NextAction>, gate: Option<StopGate>,
    capability: Capability, evidence: seq<EvidenceName>)
  {
    predicate SemanticCandidate() {
      action.Some? && gate.None?
    }
  }

  function ActionCapability(action: NextAction): Capability {
    match action
    case PublishCandidate | RunExactHeadCi | StartExactShaReview | RouteFindingsToSameWriter
       | ContinueSameWriter | StartReReview | ContinueSameSession | RecoverSameLineage
       | ResumePausedLane => ExternalEffect
    case RequestParentReview => ControlSignal
    case _ => ReadOnly
  }

  function Stop(state: LifecycleState, gate: StopGate): Resolution {
    Resolution(state, state, None, Some(gate), ReadOnly, [])
  }

  function Transition(from: LifecycleState, to: LifecycleState, action: NextAction, evidence: seq<EvidenceName>): Resolution {
    Resolution(from, to, Some(action), None, ActionCapability(action), evidence)
  }

  function ResolveCi(c: LifecycleContext): Resolution {
    match (c.ci, c.failure)
    case (Some(CiPass), _) =>
      Transition(c.state, if c.reviewStale then ReReview else ReviewerActive,
                 if c.reviewStale then StartReReview else StartExactShaReview, [ExactHeadCiEvidence])
    case (Some(CiFailure), Some(CandidateDefect)) =>
      Transition(c.state, CorrectionRequired, ContinueSameWriter, [ClassifiedCiFailure])
    case (Some(CiFailure), Some(Recoverable)) =>
      Transition(c.state, CiRunning, RunExactHeadCi, [ClassifiedCiFailure])
    case (Some(CiFailure), Some(OwnerRequired)) => Stop(c.state, OwnerAuthorityRequired)
    case (Some(CiFailure), Some(ParentRequired)) => Stop(c.state, ParentAuthorityRequired)
    case (Some(CiFailure), Some(SessionContinuationUnavailable)) => Stop(c.state, ParentAuthorityRequired)
    case _ => Stop(c.state, CiFailureClassificationRequired)
  }

  function ResolveReview(c: LifecycleContext): Resolution {
    match c.review
    case Some(ReviewPass) => Transition(c.state, ParentReviewPending, RequestParentReview, [ExactShaReviewEvidence])
    case Some(Findings) => Transition(c.state, CorrectionRequired, RouteFindingsToSameWriter, [ExactShaReviewEvidence])
    case None => Stop(c.state, InvalidBinding)
  }

  function ResolveWaiting(c: LifecycleContext): Resolution {
    match c.waiting
    case Some(PolicyResolvable) | Some(EnvironmentMismatch) | Some(ToolLimit) =>
      if c.resume.None? then Stop(c.state, IncompleteBinding)
      else Transition(c.state, c.resume.value, ContinueSameSession, [CurrentProviderState, LatestRelevantActivity])
    case Some(CiDependent) => Transition(c.state, CiClassified, ReconcileCiEvidence, [ExactHeadCiEvidence])
    case Some(ReviewDependent) => Transition(c.state, ReviewResult, ReconcileReviewEvidence, [ExactShaReviewEvidence])
    case Some(SharedContractNeeded) => Stop(c.state, SharedContractRequired)
    case Some(ScopeOrNewTaskRequired) => Stop(c.state, ParentRequiredNewTask)
    case Some(OwnerDecisionRequired) => Stop(c.state, OwnerAuthorityRequired)
    case _ => Stop(c.state, UnclassifiedWaiting)
  }

  function ResolveFailed(c: LifecycleContext): Resolution {
    match c.failure
    case Some(Recoverable) =>
      if c.resume.Some? then Transition(c.state, c.resume.value, RecoverSameLineage, [ClassifiedFailure])
      else Stop(c.state, IncompleteBinding)
    case Some(CandidateDefect) => Transition(c.state, CorrectionRequired, ContinueSameWriter, [ClassifiedFailure])
    case Some(SessionContinuationUnavailable) => Stop(c.state, ParentRequiredNewTask)
    case Some(ParentRequired) => Stop(c.state, ParentAuthorityRequired)
    case Some(OwnerRequired) => Stop(c.state, OwnerAuthorityRequired)
    case _ => Stop(c.state, UnclassifiedFailure)
  }

  function ResolveNextAction(c: LifecycleContext): Resolution {
    match c.state
    case WriterActive => Transition(c.state, CandidatePublished, PublishCandidate, [])
    case CandidatePublished => Transition(c.state, CiRunning, RunExactHeadCi, [])
    case CiRunning => Transition(c.state, CiClassified, ClassifyCi, [])
    case ReviewerActive => Transition(c.state, ReviewResult, CaptureReviewResult, [])
    case CorrectionRequired => Transition(c.state, SameWriterContinuation, ContinueSameWriter, [])
    case SameWriterContinuation => Transition(c.state, NewSha, VerifyCandidateSha, [])
    case NewSha => Transition(c.state, PriorReviewStale, InvalidatePriorReview, [])
    case PriorReviewStale => Transition(c.state, CiRunning, RunExactHeadCi, [])
    case ReReview => Transition(c.state, ReviewerActive, StartReReview, [])
    case CiClassified => ResolveCi(c)
    case ReviewResult => ResolveReview(c)
    case ParentReviewPending => Stop(c.state, ParentAuthorityRequired)
    case AwaitingUserFeedback => ResolveWaiting(c)
    case Failed => ResolveFailed(c)
    case Paused =>
      if c.resume.Some? then Transition(c.state, c.resume.value, ResumePausedLane, [CurrentProviderState])
      else Stop(c.state, PauseRequiresAuthority)
    case Forgotten => Stop(c.state, ForgottenLane)
  }

  // ---------------------------------------------------------------------------
  // Read from the action
  // ---------------------------------------------------------------------------

  /** The failure of a CI run, or of the lane, was classified so. */
  predicate Classified(c: LifecycleContext, failure: FailureClass) {
    c.failure == Some(failure) && ((c.state == CiClassified && c.ci == Some(CiFailure)) || c.state == Failed)
  }

  /** When an action is asked for. */
  predicate AsksFor(c: LifecycleContext, action: NextAction) {
    match action
    case PublishCandidate => c.state == WriterActive
    case RunExactHeadCi =>
      c.state in {CandidatePublished, PriorReviewStale} || (c.state == CiClassified && Classified(c, Recoverable))
    case ClassifyCi => c.state == CiRunning
    case StartExactShaReview => PassesCi(c) && !c.reviewStale
    case StartReReview => c.state == ReReview || (PassesCi(c) && c.reviewStale)
    case CaptureReviewResult => c.state == ReviewerActive
    case RouteFindingsToSameWriter => c.state == ReviewResult && c.review == Some(Findings)
    case ContinueSameWriter => c.state == CorrectionRequired || Classified(c, CandidateDefect)
    case VerifyCandidateSha => c.state == SameWriterContinuation
    case InvalidatePriorReview => c.state == NewSha
    case RequestParentReview => PassesReview(c)
    case ContinueSameSession =>
      c.state == AwaitingUserFeedback && c.resume.Some?
      && c.waiting in {Some(PolicyResolvable), Some(EnvironmentMismatch), Some(ToolLimit)}
    case ReconcileCiEvidence => c.state == AwaitingUserFeedback && c.waiting == Some(CiDependent)
    case ReconcileReviewEvidence => c.state == AwaitingUserFeedback && c.waiting == Some(ReviewDependent)
    case RecoverSameLineage => c.state == Failed && Classified(c, Recoverable) && c.resume.Some?
    case ResumePausedLane => c.state == Paused && c.resume.Some?
    case VerifyActionInFlight => false
  }

  /** When a gate stops the lane. */
  predicate StopsAt(c: LifecycleContext, gate: StopGate) {
    match gate
    case ParentAuthorityRequired =>
      || c.state == ParentReviewPending || Classified(c, ParentRequired)
      || (c.state == CiClassified && Classified(c, SessionContinuationUnavailable))
    case ParentRequiredNewTask =>
      || (c.state == Failed && Classified(c, SessionContinuationUnavailable))
      || (c.state == AwaitingUserFeedback && c.waiting == Some(ScopeOrNewTaskRequired))
    case OwnerAuthorityRequired =>
      Classified(c, OwnerRequired) || (c.state == AwaitingUserFeedback && c.waiting == Some(OwnerDecisionRequired))
    case SharedContractRequired => c.state == AwaitingUserFeedback && c.waiting == Some(SharedContractNeeded)
    case UnclassifiedWaiting => c.state == AwaitingUserFeedback && c.waiting in {None, Some(UnclassifiedWait)}
    case UnclassifiedFailure => c.state == Failed && c.failure in {None, Some(UnclassifiedFault)}
    case PauseRequiresAuthority => c.state == Paused && c.resume.None?
    case CiFailureClassificationRequired =>
      c.state == CiClassified && c.ci != Some(CiPass)
      && (c.ci == None || c.failure in {None, Some(UnclassifiedFault)})
    case IncompleteBinding =>
      c.resume.None? && (
        || (c.state == AwaitingUserFeedback && c.waiting in {Some(PolicyResolvable), Some(EnvironmentMismatch), Some(ToolLimit)})
        || (c.state == Failed && c.failure == Some(Recoverable)))
    case InvalidBinding => c.state == ReviewResult && c.review == None
    case ForgottenLane => c.state == Forgotten
    case _ => false
  }

  /** Where an action leads. */
  function LeadsTo(c: LifecycleContext, action: NextAction): LifecycleState {
    match action
    case PublishCandidate => CandidatePublished
    case RunExactHeadCi => CiRunning
    case ClassifyCi | ReconcileCiEvidence => CiClassified
    case StartExactShaReview => ReviewerActive
    case StartReReview => if c.state == ReReview then ReviewerActive else ReReview
    case CaptureReviewResult | ReconcileReviewEvidence => ReviewResult
    case RouteFindingsToSameWriter => CorrectionRequired
    case ContinueSameWriter => if c.state == CorrectionRequired then SameWriterContinuation else CorrectionRequired
    case VerifyCandidateSha => NewSha
    case InvalidatePriorReview => PriorReviewStale
    case RequestParentReview => ParentReviewPending
    case ContinueSameSession | RecoverSameLineage | ResumePausedLane => if c.resume.Some? then c.resume.value else c.state
    case VerifyActionInFlight => c.state
  }

  /** The evidence an action is asked for on. */
  function EvidenceFor(c: LifecycleContext, action: NextAction): seq<EvidenceName> {
    match action
    case StartExactShaReview | ReconcileCiEvidence => [ExactHeadCiEvidence]
    case StartReReview => if c.state == ReReview then [] else [ExactHeadCiEvidence]
    case RunExactHeadCi => if c.state == CiClassified then [ClassifiedCiFailure] else []
    case ContinueSameWriter =>
      if c.state == CiClassified then [ClassifiedCiFailure] else if c.state == Failed then [ClassifiedFailure] else []
    case RouteFindingsToSameWriter | RequestParentReview | ReconcileReviewEvidence => [ExactShaReviewEvidence]
    case ContinueSameSession => [CurrentProviderState, LatestRelevantActivity]
    case RecoverSameLineage => [ClassifiedFailure]
    case ResumePausedLane => [CurrentProviderState]
    case _ => []
  }

  /** Each action is asked for in exactly these situations. */
  lemma ActionsExactlyWhen(c: LifecycleContext, action: NextAction)
    ensures ResolveNextAction(c).action == Some(action) <==> AsksFor(c, action)
  {
  }

  /** An action leads to one state. */
  lemma ActionsLeadOn(c: LifecycleContext, action: NextAction)
    requires ResolveNextAction(c).action == Some(action)
    ensures ResolveNextAction(c).next == LeadsTo(c, action)
  {
    match c.state
    case CiClassified =>
    case ReviewResult =>
    case AwaitingUserFeedback =>
    case Failed =>
    case _ =>
  }

  /** And it names its evidence. */
  lemma ActionsNameEvidence(c: LifecycleContext, action: NextAction)
    requires ResolveNextAction(c).action == Some(action)
    ensures ResolveNextAction(c).evidence == EvidenceFor(c, action)
  {
  }

  /** Each gate stops the lane in exactly these situations. */
  lemma GatesExactlyWhen(c: LifecycleContext, gate: StopGate)
    ensures ResolveNextAction(c).gate == Some(gate) <==> StopsAt(c, gate)
  {
  }

  /** Reading and verifying need nothing, asking the parent is a control signal, and every other action
      is an external effect. */
  lemma CapabilitiesExactly(action: NextAction)
    ensures (ActionCapability(action) == ReadOnly) ==
      (action in {ClassifyCi, CaptureReviewResult, VerifyCandidateSha, InvalidatePriorReview, ReconcileCiEvidence,
                  ReconcileReviewEvidence, VerifyActionInFlight})
    ensures ActionCapability(action) == ControlSignal <==> action == RequestParentReview
  {
  }

  /** Every resolution has an action or a stop gate and never both; a stop moves nothing and needs no
      capability; a transition needs what its action needs. */
  lemma ActionXorGate(c: LifecycleContext)
    ensures
      var r := ResolveNextAction(c);
      && r.current == c.state
      && (r.action.Some? <==> r.gate.None?)
      && (r.gate.Some? ==> r.next == c.state && r.capability == ReadOnly)
      && (r.action.Some? ==> r.capability == ActionCapability(r.action.value))
  {
  }

  // ---------------------------------------------------------------------------
  // Runs
  // ---------------------------------------------------------------------------

  /** Where a run stands: the next state of its last resolution. */
  function Reached(run: seq<LifecycleContext>): LifecycleState {
    if run == [] then WriterActive else ResolveNextAction(run[|run| - 1]).next
  }

  /** Every step resolves a context in the state the previous step led to, whatever evidence it is
      given. */
  predicate Chained(run: seq<LifecycleContext>) {
    run == [] || (Chained(run[..|run| - 1]) && run[|run| - 1].state == Reached(run[..|run| - 1]))
  }

  predicate PassesCi(c: LifecycleContext) {
    c.state == CiClassified && c.ci == Some(CiPass)
  }

  predicate PassesReview(c: LifecycleContext) {
    c.state == ReviewResult && c.review == Some(ReviewPass)
  }

  /** A passing classification at `i`, and no new SHA from there on. */
  predicate CiPassedAt(run: seq<LifecycleContext>, i: nat) {
    i < |run| && PassesCi(run[i]) && forall k :: i < k < |run| ==> run[k].state != NewSha
  }

  /** A passing review result after the passing classification. */
  predicate ReviewPassedAfter(run: seq<LifecycleContext>, i: nat, j: nat) {
    i < j < |run| && PassesReview(run[j])
  }

  /** The state is only reached over a passing classification of the current SHA. */
  predicate BehindCi(state: LifecycleState) {
    state == ReviewerActive || state == ReReview || state == ReviewResult
  }

  lemma {:induction false} ReviewIsBehindCi(run: seq<LifecycleContext>) returns (i: nat)
    requires Chained(run) && BehindCi(Reached(run))
    ensures CiPassedAt(run, i)
  {
    var n := |run| - 1;
    if PassesCi(run[n]) {
      i := n;
    } else {
      ReachesOnlyLiveStates(run[..n]);
      i := ReviewIsBehindCi(run[..n]);
      assert run[..n][i] == run[i];
      assert forall k :: i < k < n ==> run[..n][k] == run[k];
    }
  }

  /** Waiting, failed, paused and forgotten lanes are entered from outside the machine only. */
  lemma {:induction false} ReachesOnlyLiveStates(run: seq<LifecycleContext>)
    requires Chained(run)
    ensures Reached(run) !in {AwaitingUserFeedback, Failed, Paused, Forgotten}
  {
    if run != [] {
      ReachesOnlyLiveStates(run[..|run| - 1]);
    }
  }

  /** Whoever asks for parent review has, since the most recent new SHA, first a passing CI
      classification and then a passing review result behind it. */
  lemma {:induction false} ParentReviewIsEarned(run: seq<LifecycleContext>) returns (i: nat, j: nat)
    requires Chained(run) && Reached(run) == ParentReviewPending
    ensures CiPassedAt(run, i) && ReviewPassedAfter(run, i, j)
  {
    var n := |run| - 1;
    ReachesOnlyLiveStates(run[..n]);
    if PassesReview(run[n]) {
      i := ReviewIsBehindCi(run[..n]);
      j := n;
    } else {
      i, j := ParentReviewIsEarned(run[..n]);
      assert run[..n][j] == run[j];
    }
    assert run[..n][i] == run[i];
    assert forall k :: i < k < n ==> run[..n][k] == run[k];
  }

  /** Parent review is asked for by a passing review result and by nothing else, and a lane that asked
      stays there. */
  lemma ParentReviewIsTerminal(c: LifecycleContext)
    ensures ResolveNextAction(c).action == Some(RequestParentReview) <==> PassesReview(c)
    ensures c.state == ParentReviewPending ==>
      ResolveNextAction(c).next == ParentReviewPending && ResolveNextAction(c).action == None
  {
  }
}
