/** What a passive observation makes of a lineage lane: the rule that rebinds it, and the evidence it
    rebuilds. */
module PassiveObservation {
  import opened Wrappers
  import opened Text
  import opened Records
  import opened LineageMatching

  datatype BindingStatus = StatusProven | StatusAmbiguous | StatusUnbound

  /** What matching returned; there is a fingerprint only if a session was proven. */
  datatype Observation = Observation(status: BindingStatus, fingerprint: Option<Fingerprint>, policy: LineagePolicy)

  function Observed(sessions: seq<ListedSession>, policy: LineagePolicy, repository: string): Observation {
    match MatchLineageSession(sessions, policy, repository)
    case ProvenMatch(s, _) => Observation(StatusProven, FingerprintOf(s.fingerprint), policy)
    case AmbiguousMatch(_) => Observation(StatusAmbiguous, None, policy)
    case _ => Observation(StatusUnbound, None, policy)
  }

  predicate NoneKnown(known: seq<string>) {
    forall f | f in known :: Strip(f) == ""
  }

  predicate Blank(text: Option<string>) {
    text.None? || Strip(text.value) == ""
  }

  /** The evidence of a passive adoption as older runtimes left it behind. */
  predicate AdoptedBlindly(e: Evidence) {
    && e.reason == Some(InitialAdoption)
    && e.fingerprint.Some? && Strip(e.fingerprint.value.Text()) != ""
    && NoneKnown(e.known) && Blank(e.initialTransitionKey) && Blank(e.taskSpecDigest)
  }

  /** Such an adoption with no effect unresolved on the lane. */
  predicate LegacyAdoption(lane: LaneRecord) {
    AdoptedBlindly(lane.evidence) && lane.unknownWrite.None? && lane.actionInFlight.None?
  }

  predicate Revokes(lane: LaneRecord, o: Observation) {
    o.status != StatusProven && LegacyAdoption(lane)
  }

  datatype Rebinding = Rebinding(
    generation: nat, current: Option<Fingerprint>, previous: Option<Fingerprint>, reason: Option<ReplacementReason>)

  /** Generation, current and previous fingerprint after an observation. */
  function Rebind(lane: LaneRecord, o: Observation): Rebinding {
    var generation, bound := lane.evidence.generation, lane.evidence.fingerprint;
    if Revokes(lane, o) then
      Rebinding(0, None, None, Some(LegacyAdoptionRevoked))
    else if o.fingerprint.Some? && o.fingerprint != bound then
      if bound.None? && generation > 0 && Lower(o.fingerprint.value.Text()) in Governed(o.policy) then
        Rebinding(generation, o.fingerprint, bound, Some(FingerprintRebound))
      else
        Rebinding(generation + 1, o.fingerprint, bound, Some(if bound.None? then InitialAdoption else SessionChanged))
    else if o.fingerprint.Some? && generation == 0 then
      Rebinding(1, o.fingerprint, bound, None)
    else
      Rebinding(generation, o.fingerprint, bound, None)
  }

  /** The rebuilt evidence: the binding and the policy of the moment, and none of the marks of the
      generation protocol. */
  function Rebuilt(r: Rebinding, policy: LineagePolicy): Evidence {
    NO_EVIDENCE.(generation := r.generation, fingerprint := if r.current.Some? then r.current else r.previous,
                 previousFingerprint := r.previous, reason := r.reason, known := policy.knownFingerprints)
  }

  /** The lane after an observation. */
  function Observe(lane: LaneRecord, o: Observation): LaneRecord {
    lane.(mode := Shadow, evidence := Rebuilt(Rebind(lane, o), o.policy))
  }

  /** The same update made step by step on the record that was read. */
  method UpsertObservation(lane: LaneRecord, o: Observation) returns (updated: LaneRecord)
    ensures updated == Observe(lane, o)
  {
    var previousGeneration, previous := lane.evidence.generation, lane.evidence.fingerprint;
    updated := lane.(mode := Shadow);
    var generation, current := previousGeneration, o.fingerprint;
    var reason: Option<ReplacementReason> := None;
    if o.status != StatusProven && previous.Some? && LegacyAdoption(lane) {
      previous, generation, current := None, 0, None;
      reason := Some(LegacyAdoptionRevoked);
    } else if current.Some? && current != previous {
      if previous.None? && previousGeneration > 0 && Lower(current.value.Text()) in Governed(o.policy) {
        reason := Some(FingerprintRebound);
      } else {
        generation := previousGeneration + 1;
        reason := Some(if previous.None? then InitialAdoption else SessionChanged);
      }
    } else if current.Some? && generation == 0 {
      generation := 1;
    }
    var durable := if current.Some? then current else previous;
    updated := updated.(evidence := NO_EVIDENCE.(
      generation := generation, fingerprint := durable, previousFingerprint := previous, reason := reason,
      known := o.policy.knownFingerprints));
  }

  // ---------------------------------------------------------------------------
  // Read from the record
  // ---------------------------------------------------------------------------

  predicate NothingIn(text: Option<string>) {
    text == None || AllSpace(text.value)
  }

  /** The lane was adopted once and nothing else was ever done under it or is unresolved on it. */
  predicate OnlyAdopted(lane: LaneRecord) {
    var e := lane.evidence;
    && e.reason == Some(InitialAdoption) && e.fingerprint.Some? && !AllSpace(e.fingerprint.value.Text())
    && (forall i :: 0 <= i < |e.known| ==> AllSpace(e.known[i]))
    && NothingIn(e.initialTransitionKey) && NothingIn(e.taskSpecDigest)
    && lane.unknownWrite == None && lane.actionInFlight == None
  }

  /** The policy knows the fingerprint, up to case. */
  predicate KnownTo(policy: LineagePolicy, fp: Fingerprint) {
    exists i :: 0 <= i < |policy.knownFingerprints|
      && !AllSpace(policy.knownFingerprints[i]) && SameUpToCase(Strip(policy.knownFingerprints[i]), fp.Text())
  }

  /** What an observation makes of the evidence. It takes away a binding that was only adopted when no
      session is proven. Otherwise a session found takes the lane over: the one bound numbers an
      unnumbered lane, another one makes the next generation, and one that the policy knows is bound again
      under the number of a lane without a session. The marks of the generation protocol go. */
  predicate ObservedAs(was: LaneRecord, o: Observation, now: Evidence) {
    var e := was.evidence;
    && now == NO_EVIDENCE.(generation := now.generation, fingerprint := now.fingerprint, known := o.policy.knownFingerprints,
                           previousFingerprint := now.previousFingerprint, reason := now.reason)
    && if o.status != StatusProven && OnlyAdopted(was) then
         now.generation == 0 && now.fingerprint == None == now.previousFingerprint && now.reason == Some(LegacyAdoptionRevoked)
       else
         && now.previousFingerprint == e.fingerprint
         && match o.fingerprint
            case None => now.generation == e.generation && now.fingerprint == e.fingerprint && now.reason == None
            case Some(fp) =>
              && now.fingerprint == Some(fp)
              && if e.fingerprint == Some(fp) then
                   now.reason == None && now.generation == if e.generation == 0 then 1 else e.generation
                 else if e.fingerprint.Some? then now.reason == Some(SessionChanged) && now.generation == e.generation + 1
                 else if e.generation > 0 && KnownTo(o.policy, fp) then
                   now.reason == Some(FingerprintRebound) && now.generation == e.generation
                 else now.reason == Some(InitialAdoption) && now.generation == e.generation + 1
  }

  lemma LegacyExactly(lane: LaneRecord)
    ensures LegacyAdoption(lane) <==> OnlyAdopted(lane)
  {
    var e := lane.evidence;
    forall i | 0 <= i < |e.known| ensures Strip(e.known[i]) == "" <==> AllSpace(e.known[i]) {
      StripIsEmptyExactly(e.known[i]);
    }
    if e.fingerprint.Some? { StripIsEmptyExactly(e.fingerprint.value.Text()); }
    if e.initialTransitionKey.Some? { StripIsEmptyExactly(e.initialTransitionKey.value); }
    if e.taskSpecDigest.Some? { StripIsEmptyExactly(e.taskSpecDigest.value); }
  }

  lemma KnownExactly(policy: LineagePolicy, fp: Fingerprint)
    ensures Lower(fp.Text()) in Governed(policy) <==> KnownTo(policy, fp)
  {
    forall i | 0 <= i < |policy.knownFingerprints|
      ensures var f := policy.knownFingerprints[i];
              && (Strip(f) == "" <==> AllSpace(f))
              && (Lower(Strip(f)) == Lower(fp.Text()) <==> SameUpToCase(Strip(f), fp.Text()))
    {
      StripIsEmptyExactly(policy.knownFingerprints[i]);
      LowerEqualExactlyUpToCase(Strip(policy.knownFingerprints[i]), fp.Text());
    }
    if KnownTo(policy, fp) {
      var i :| 0 <= i < |policy.knownFingerprints|
        && !AllSpace(policy.knownFingerprints[i]) && SameUpToCase(Strip(policy.knownFingerprints[i]), fp.Text());
      assert policy.knownFingerprints[i] in policy.knownFingerprints;
    }
  }

  /** An observation closes the lane, rebinds it so, and leaves everything else alone. */
  lemma ObservationRebindsExactly(lane: LaneRecord, o: Observation)
    ensures ObservedAs(lane, o, Observe(lane, o).evidence)
    ensures Observe(lane, o) == lane.(mode := Shadow, evidence := Observe(lane, o).evidence)
  {
    LegacyExactly(lane);
    if o.fingerprint.Some? { KnownExactly(o.policy, o.fingerprint.value); }
  }
}
