/** Runs of passive observations: what a flickering session does to the durable binding of a lane. */
module LineageObservation {
  import opened Wrappers
  import opened Text
  import opened Records
  import opened LineageMatching
  import opened PassiveObservation

  function ObserveAll(lane: LaneRecord, run: seq<Observation>): LaneRecord {
    if run == [] then lane else Observe(ObserveAll(lane, run[..|run| - 1]), run[|run| - 1])
  }

  /** The bound session is seen proven, or nothing is. */
  predicate Flickers(bound: Option<Fingerprint>, run: seq<Observation>) {
    forall i :: 0 <= i < |run| ==>
      (run[i].status == StatusProven && run[i].fingerprint == bound)
      || (run[i].status != StatusProven && run[i].fingerprint == None)
  }

  predicate SameBinding(a: LaneRecord, b: LaneRecord) {
    a.evidence.generation == b.evidence.generation && a.evidence.fingerprint == b.evidence.fingerprint
  }

  ghost predicate KeptThroughout(lane: LaneRecord, run: seq<Observation>) {
    forall n :: 0 <= n <= |run| ==> SameBinding(ObserveAll(lane, run[..n]), lane)
  }

  /** The first observation of a flickering run decides whether the lane can lose its binding. */
  predicate RevokedAtOnce(lane: LaneRecord, run: seq<Observation>) {
    run != [] && run[0].status != StatusProven && LegacyAdoption(lane)
  }

  predicate SeenProven(run: seq<Observation>) {
    exists i :: 0 <= i < |run| && run[i].status == StatusProven
  }

  lemma {:induction false} FlickerKeepsBinding(lane: LaneRecord, run: seq<Observation>)
    requires lane.evidence.fingerprint.Some? && lane.evidence.generation > 0
    requires Flickers(lane.evidence.fingerprint, run) && !RevokedAtOnce(lane, run)
    ensures SameBinding(ObserveAll(lane, run), lane)
    ensures run != [] ==> !LegacyAdoption(ObserveAll(lane, run))
  {
    if run != [] {
      var n := |run| - 1;
      FlickerKeepsBinding(lane, run[..n]);
      assert n > 0 ==> run[..n][0] == run[0];
    }
  }

  /** A bound lane with a generation keeps both through every flicker of its session, exactly unless
      it has the shape of a legacy adoption and its session is missing from the first observation. */
  lemma FlickerKeepsBindingExactlyWhen(lane: LaneRecord, run: seq<Observation>)
    requires lane.evidence.fingerprint.Some? && lane.evidence.generation > 0
    requires Flickers(lane.evidence.fingerprint, run)
    ensures KeptThroughout(lane, run) <==> !RevokedAtOnce(lane, run)
  {
    if RevokedAtOnce(lane, run) {
      assert run[..1][..0] == [];
      assert ObserveAll(lane, run[..1]) == Observe(lane, run[0]);
      assert !SameBinding(ObserveAll(lane, run[..1]), lane);
    } else {
      forall n | 0 <= n <= |run| ensures SameBinding(ObserveAll(lane, run[..n]), lane) {
        assert n > 0 ==> run[..n][0] == run[0];
        FlickerKeepsBinding(lane, run[..n]);
      }
    }
  }

  /** A bound lane without a generation is given its first one by the first proven observation, so it
      is the one bound lane whose generation a flicker of the same session changes. */
  lemma {:induction false} FlickerNumbersUnnumberedLane(lane: LaneRecord, run: seq<Observation>)
    requires lane.evidence.fingerprint.Some? && lane.evidence.generation == 0 && !LegacyAdoption(lane)
    requires Flickers(lane.evidence.fingerprint, run)
    ensures
      var after := ObserveAll(lane, run);
      && after.evidence.fingerprint == lane.evidence.fingerprint && !LegacyAdoption(after)
      && after.evidence.generation == if SeenProven(run) then 1 else 0
  {
    if run != [] {
      var n := |run| - 1;
      FlickerNumbersUnnumberedLane(lane, run[..n]);
      if SeenProven(run[..n]) {
        var i :| 0 <= i < n && run[..n][i].status == StatusProven;
        assert run[i].status == StatusProven;
      } else {
        assert forall i :: 0 <= i < n ==> run[i] == run[..n][i];
      }
    }
  }

  // ---------------------------------------------------------------------------
  // Over the matching
  // ---------------------------------------------------------------------------

  /** One look at a lane: what the provider listed, and the policy of the moment. */
  datatype Look = Look(sessions: seq<ListedSession>, policy: LineagePolicy, repository: string)

  function Looks(looks: seq<Look>): seq<Observation> {
    seq(|looks|, i requires 0 <= i < |looks| => Observed(looks[i].sessions, looks[i].policy, looks[i].repository))
  }

  /** Whatever is listed besides it, no listing offers another session than the bound one. */
  ghost predicate NeverAnother(bound: Fingerprint, look: Look) {
    forall s: ListedSession ::
      s in look.sessions && Exact(s, Governed(look.policy), look.repository) ==> s.fingerprint == bound.Text()
  }

  /** A proven match is listed, and exact. */
  lemma ProvenIsExact(look: Look)
    ensures
      var m := MatchLineageSession(look.sessions, look.policy, look.repository);
      m.ProvenMatch? ==> m.session in look.sessions && Exact(m.session, Governed(look.policy), look.repository)
  {
    var governed := Governed(look.policy);
    var candidates := multiset(Candidates(look.sessions, governed, look.repository));
    CandidatesAreExact(look.sessions, governed, look.repository);
    MatchIsUniqueMaximum(look.sessions, look.policy, look.repository, candidates);
    var m := MatchLineageSession(look.sessions, look.policy, look.repository);
    if m.ProvenMatch? {
      assert UniqueMaximum(candidates, m.session);
      assert candidates[m.session] == 1;
      assert multiset(look.sessions)[m.session] > 0;
    }
  }

  lemma ObservesBoundOrNothing(bound: Fingerprint, look: Look)
    requires NeverAnother(bound, look)
    ensures
      var o := Observed(look.sessions, look.policy, look.repository);
      if o.status == StatusProven then o.fingerprint == Some(bound) else o.fingerprint == None
  {
    ProvenIsExact(look);
    assert FingerprintOf(bound.Text()) == Some(bound);
  }

  /** Over any listings, in any order and with any foreign sessions in them, a numbered lane keeps its
      generation and fingerprint as long as no other session is governed for it. */
  lemma ListingsKeepBinding(lane: LaneRecord, looks: seq<Look>)
    requires lane.evidence.fingerprint.Some? && lane.evidence.generation > 0 && !LegacyAdoption(lane)
    requires forall i :: 0 <= i < |looks| ==> NeverAnother(lane.evidence.fingerprint.value, looks[i])
    ensures KeptThroughout(lane, Looks(looks))
  {
    var bound := lane.evidence.fingerprint.value;
    forall i | 0 <= i < |looks|
      ensures
        var o := Looks(looks)[i];
        if o.status == StatusProven then o.fingerprint == Some(bound) else o.fingerprint == None
    {
      ObservesBoundOrNothing(bound, looks[i]);
    }
    FlickerKeepsBindingExactlyWhen(lane, Looks(looks));
  }

  /** An observation that carries a fingerprint was made under a policy that governs one. */
  predicate Genuine(o: Observation) {
    o.fingerprint.Some? ==> !NoneKnown(o.policy.knownFingerprints)
  }

  /** Every observation that comes from a listing is genuine. */
  lemma ListingsAreGenuine(look: Look)
    ensures Genuine(Observed(look.sessions, look.policy, look.repository))
  {
    ProvenIsExact(look);
    var m := MatchLineageSession(look.sessions, look.policy, look.repository);
    if m.ProvenMatch? {
      assert Lower(Strip(m.session.fingerprint)) in Governed(look.policy);
    }
  }
}
