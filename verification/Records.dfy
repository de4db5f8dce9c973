/** The persisted values of the runtime state: effects, leases, canary grants, lane and
    operation records. Timestamps are integers; digests are the values they digest. */
module Records {
  import opened Wrappers

  /** The workstream under which a project and route count confirmed generations. */
  const BUDGET_WORKSTREAM := "TASK-BUDGET-ACCOUNTING"

  type LaneId = string
  type TransitionKey = string

  /** A string-to-string object: an effect target, an observed start state, receipt facts. */
  type Facts = map<string, string>

  /** One external effect, independent of the request payload. */
  datatype EffectIdentity = EffectIdentity(
    laneId: LaneId, project: string, route: string, workstreamId: string,
    action: string, target: Facts)

  /** The SHA-256 key of an effect, represented by the effect it digests. */
  datatype OperationKey = OperationKey(effect: EffectIdentity)

  function EffectOperationKey(effect: EffectIdentity): OperationKey {
    OperationKey(effect)
  }

  /** The text of a session fingerprint, which is never empty. */
  datatype Fingerprint = Fingerprint(first: char, rest: string)
  {
    function Text(): string {
      [first] + rest
    }
  }

  /** A fingerprint read from a text; the empty text is none. */
  function FingerprintOf(text: string): Option<Fingerprint> {
    if text == "" then None else Some(Fingerprint(text[0], text[1..]))
  }

  /** The SHA-256 fingerprint of a provider session name, represented by the name. */
  function SessionFingerprint(session: string): Fingerprint {
    Fingerprint('#', session)
  }

  datatype ActivationMode = Shadow | Canary | ActiveAutoSafe

  datatype OperationState =
    | Planned
    | InFlight
    | Unknown
    | Confirmed
    | Rejected
    | Cancelled
    | ReconciledNotObserved

  /** The digest of lane, owner, operation, time and version that names a lease. */
  datatype LeaseId = LeaseId(
    laneId: LaneId, owner: string, operationKey: OperationKey, acquiredAt: int, version: nat)

  datatype Lease = Lease(
    id: LeaseId, owner: string, operationKey: OperationKey, acquiredAt: int, expiresAt: int)

  datatype CanaryGrant = CanaryGrant(
    authorityEventId: string, laneId: LaneId, project: string, route: string,
    workstreamId: string, effectType: string, target: Facts,
    issuedAt: int, expiresAt: int, maximumEffectCount: int,
    expectedStart: Option<Facts>, consumedCount: int, consumedKeys: seq<OperationKey>)
  {
    /** No effect is left in the grant. */
    predicate Consumed() {
      consumedCount >= maximumEffectCount
    }

    /** The grant names exactly this effect. */
    predicate Covers(effect: EffectIdentity) {
      && laneId == effect.laneId
      && project == effect.project
      && route == effect.route
      && workstreamId == effect.workstreamId
      && effectType == effect.action
      && target == effect.target
    }

    /** The counter agrees with the list of keys and stays within the maximum. */
    predicate Balanced() {
      && consumedCount == |consumedKeys|
      && consumedCount <= maximumEffectCount
    }
  }

  datatype Readback = Readback(observed: Option<bool>, evidence: Facts)

  datatype Receipt = Receipt(
    operationKey: OperationKey, state: OperationState, facts: Facts,
    postCondition: Option<Readback>)

  datatype OperationRecord = OperationRecord(
    key: OperationKey, laneId: LaneId, workstreamId: string, action: string,
    requestDigest: string, state: OperationState, owner: string, attempt: nat,
    reconciliationRequired: bool, receipt: Receipt, readback: Option<Readback>)

  /** A generation transition persisted before the provider write that realises it. Only the first
      generation of a lineage carries a task specification. */
  datatype PendingTransition = PendingTransition(
    transitionKey: TransitionKey, nextGeneration: nat, repository: string,
    sourceName: string, startingBranch: string, candidateSha: Option<string>,
    marker: string, taskSpecDigest: string)

  /** Exactly-once accounting evidence: a counter and two windowed key lists. */
  datatype Accounting = Accounting(
    count: nat, operations: seq<OperationKey>, transitions: seq<TransitionKey>)

  /** Why an observation changed the binding of a lane. */
  datatype ReplacementReason =
    | InitialAdoption
    | FingerprintRebound
    | SessionChanged
    | LegacyAdoptionRevoked

  /** The evidence bindings of a lane, as far as the generation protocol and the observation of
      lineages read them. */
  datatype Evidence = Evidence(
    generation: nat,
    fingerprint: Option<Fingerprint>,
    previousFingerprint: Option<Fingerprint>,
    transitionKey: Option<TransitionKey>,
    initialTransitionKey: Option<TransitionKey>,
    taskSpecDigest: Option<string>,
    pending: Option<PendingTransition>,
    pendingInitial: Option<PendingTransition>,
    accounting: Accounting,
    reason: Option<ReplacementReason>,
    known: seq<string>)

  const NO_ACCOUNTING := Accounting(0, [], [])

  const NO_EVIDENCE := Evidence(0, None, None, None, None, None, None, None, NO_ACCOUNTING, None, [])

  datatype LaneRecord = LaneRecord(
    laneId: LaneId, project: string, route: string, workstreamId: string,
    mode: ActivationMode,
    lease: Option<Lease>,
    actionInFlight: Option<OperationKey>,
    operationKey: Option<OperationKey>,
    receipt: Option<Receipt>,
    unknownWrite: Option<OperationKey>,
    grants: seq<CanaryGrant>,
    evidence: Evidence)

  /** Per-effect authority for lanes that run without canary grants. */
  datatype MutationAuthorization = MutationAuthorization(
    effect: EffectIdentity, authorityEventId: string, projectPolicyAuthorized: bool,
    exactBindingProven: bool, evidenceVerified: bool, expiresAt: Option<int>)
}
