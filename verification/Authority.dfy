/** Decisions taken before a claim touches the store: idempotency, canary grants, authority. */
module Authority {
  import opened Wrappers
  import opened Records

  // ---------------------------------------------------------------------------
  // Idempotency
  // ---------------------------------------------------------------------------

  datatype Idempotency =
    | NewOperation
    | OperationIdCollision
    | IdempotentReplayConfirmed
    | ReconcileRequired
    | ReadbackConfirmedNotObserved(readbackPresent: bool)
    | TerminalReplayRejected
  {
    predicate SafeToExecute() {
      NewOperation? || (ReadbackConfirmedNotObserved? && readbackPresent)
    }
  }

  predicate ActiveState(state: OperationState) {
    state == Planned || state == InFlight || state == Unknown
  }

  /** The newest record of an operation. */
  function LastMatch(key: OperationKey, records: seq<OperationRecord>): Option<OperationRecord> {
    if records == [] then None
    else if records[|records| - 1].key == key then Some(records[|records| - 1])
    else LastMatch(key, records[..|records| - 1])
  }

  function EvaluateIdempotency(key: OperationKey, digest: string, records: seq<OperationRecord>): Idempotency {
    match LastMatch(key, records)
    case None => NewOperation
    case Some(record) =>
      if record.requestDigest != digest then OperationIdCollision
      else if record.state == Confirmed then IdempotentReplayConfirmed
      else if ActiveState(record.state) then ReconcileRequired
      else if record.state == ReconciledNotObserved then
        ReadbackConfirmedNotObserved(record.readback.Some?)
      else TerminalReplayRejected
  }

  // ---------------------------------------------------------------------------
  // Authority
  // ---------------------------------------------------------------------------

  datatype AuthorityDenial =
    | CanaryLaneMismatch
    | CanaryGrantNotFound
    | CanaryGrantAmbiguous
    | CanaryGrantNotYetValid
    | CanaryGrantExpired
    | CanaryGrantConsumed
    | CanaryExpectedStartMismatch
    | ActionAuthorityRequired
    | ActionAuthorityEffectMismatch
    | ActionAuthorityLaneMismatch
    | ProjectPolicyDenied
    | ExactBindingRequired
    | EvidenceRequired
    | ActionAuthorityExpired

  datatype AuthorityVerdict = Allowed(authorityEventId: string) | NotAllowed(denial: AuthorityDenial)

  predicate EffectMatchesRecord(record: LaneRecord, effect: EffectIdentity) {
    && effect.laneId == record.laneId
    && effect.project == record.project
    && effect.route == record.route
    && effect.workstreamId == record.workstreamId
  }

  predicate GrantMatches(grant: CanaryGrant, effect: EffectIdentity, event: Option<string>) {
    grant.Covers(effect) && (event.None? || grant.authorityEventId == event.value)
  }

  /** The positions of the grants that cover an effect, in list order. */
  function MatchingGrants(grants: seq<CanaryGrant>, effect: EffectIdentity, event: Option<string>): (r: seq<nat>)
    ensures forall j :: 0 <= j < |r| ==> r[j] < |grants| && GrantMatches(grants[r[j]], effect, event)
  {
    if grants == [] then []
    else
      var n := |grants| - 1;
      var before := MatchingGrants(grants[..n], effect, event);
      if GrantMatches(grants[n], effect, event) then before + [n] else before
  }

  function EvaluateCanaryGrant(record: LaneRecord, effect: EffectIdentity, observedStart: Facts,
                               event: Option<string>, now: int): AuthorityVerdict
  {
    if !EffectMatchesRecord(record, effect) then NotAllowed(CanaryLaneMismatch)
    else
      var candidates := MatchingGrants(record.grants, effect, event);
      if candidates == [] then NotAllowed(CanaryGrantNotFound)
      else if |candidates| != 1 then NotAllowed(CanaryGrantAmbiguous)
      else
        var grant := record.grants[candidates[0]];
        if now < grant.issuedAt then NotAllowed(CanaryGrantNotYetValid)
        else if now >= grant.expiresAt then NotAllowed(CanaryGrantExpired)
        else if grant.Consumed() then NotAllowed(CanaryGrantConsumed)
        else if grant.expectedStart.Some? && !StartObserved(grant.expectedStart.value, observedStart) then
          NotAllowed(CanaryExpectedStartMismatch)
        else Allowed(grant.authorityEventId)
  }

  predicate StartObserved(expected: Facts, observed: Facts) {
    forall k | k in expected :: k in observed && observed[k] == expected[k]
  }

  function EvaluateActiveAutoSafeAuthority(record: LaneRecord, effect: EffectIdentity,
                                           authorization: Option<MutationAuthorization>, now: int): AuthorityVerdict
  {
    match authorization
    case None => NotAllowed(ActionAuthorityRequired)
    case Some(a) =>
      if a.effect != effect then NotAllowed(ActionAuthorityEffectMismatch)
      else if !EffectMatchesRecord(record, effect) then NotAllowed(ActionAuthorityLaneMismatch)
      else if !a.projectPolicyAuthorized then NotAllowed(ProjectPolicyDenied)
      else if !a.exactBindingProven then NotAllowed(ExactBindingRequired)
      else if !a.evidenceVerified then NotAllowed(EvidenceRequired)
      else if a.expiresAt.Some? && now >= a.expiresAt.value then NotAllowed(ActionAuthorityExpired)
      else Allowed(a.authorityEventId)
  }
}
