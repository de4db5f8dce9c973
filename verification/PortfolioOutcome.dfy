/** What each lane of a portfolio gets, in terms of the lanes and actors listed: ambiguity, or the
    reconciliation it would get alone. */
module PortfolioOutcome {
  import opened Wrappers
  import opened Text
  import opened Multisets
  import opened Bindings
  import opened Lifecycle
  import opened Reconciliation
  import opened SoundBindings
  import opened Portfolio

  /** The lane is named: project, route and workstream are more than white space. */
  predicate NamedBy(b: Binding, key: LaneKey) {
    && HasText(b.project) && HasText(b.route) && HasText(b.workstream)
    && key == LaneKey(Strip(b.project.value), Strip(b.route.value), Strip(b.workstream.value))
  }

  lemma LaneKeyExactly(b: Binding, key: LaneKey)
    ensures CanonicalLaneKey(b) == Some(key) <==> NamedBy(b, key)
  {
    TextExactly(b.project);
    TextExactly(b.route);
    TextExactly(b.workstream);
  }

  /** An actor of the lane has the session, in the role. */
  ghost predicate Binds(b: Binding, session: SessionKey, role: string) {
    exists a | a in CanonicalActors(b) ::
      && HasText(a.provider) && HasText(a.sessionId)
      && session == SessionKey(Lower(Strip(a.provider.value)), Strip(a.sessionId.value))
      && role == (if AllSpace(a.role) then "UNSPECIFIED" else Upper(Strip(a.role)))
  }

  lemma BindsExactly(b: Binding, session: SessionKey, role: string)
    ensures SessionRole(session, role) in SessionRoles(b) <==> Binds(b, session, role)
  {
    forall a | a in CanonicalActors(b)
      ensures (SessionOf(a).Some? <==> HasText(a.provider) && HasText(a.sessionId))
      ensures SessionOf(a).Some? ==> SessionOf(a) == Some(SessionKey(Lower(Strip(a.provider.value)), Strip(a.sessionId.value)))
      ensures RoleOf(a) == if AllSpace(a.role) then "UNSPECIFIED" else Upper(Strip(a.role))
    {
      TextExactly(a.provider);
      TextExactly(a.sessionId);
      RoleNameIsEmptyExactly(a.role);
    }
    if Binds(b, session, role) {
      var a :| a in CanonicalActors(b) && HasText(a.provider) && HasText(a.sessionId)
        && session == SessionKey(Lower(Strip(a.provider.value)), Strip(a.sessionId.value))
        && role == (if AllSpace(a.role) then "UNSPECIFIED" else Upper(Strip(a.role)));
      assert SessionRole(SessionOf(a).value, RoleOf(a)) in SessionRoles(b);
    }
  }

  /** Another lane of the list has the same name. */
  ghost predicate ListedTwice(items: seq<Binding>, i: nat)
    requires i < |items|
  {
    exists j, key :: 0 <= j < |items| && j != i && NamedBy(items[i], key) && NamedBy(items[j], key)
  }

  /** The named lane binds the session in the role. */
  ghost predicate OwnedBy(items: seq<Binding>, session: SessionKey, owner: Owner) {
    exists b | b in items :: NamedBy(b, owner.lane) && Binds(b, session, owner.role)
  }

  /** Named lanes bind the session under two names or in two roles. */
  ghost predicate Contested(items: seq<Binding>, session: SessionKey) {
    exists x, y :: x != y && OwnedBy(items, session, x) && OwnedBy(items, session, y)
  }

  ghost predicate BindsContested(items: seq<Binding>, b: Binding, session: SessionKey) {
    (exists role :: Binds(b, session, role)) && Contested(items, session)
  }

  lemma OwnersExactly(items: seq<Binding>, session: SessionKey, owner: Owner)
    ensures owner in Owners(items, session) <==> OwnedBy(items, session, owner)
  {
    if owner in Owners(items, session) {
      var b, s :| b in items && CanonicalLaneKey(b).Some? && s in SessionRoles(b) && s.session == session
        && owner == Owner(CanonicalLaneKey(b).value, s.role);
      LaneKeyExactly(b, owner.lane);
      BindsExactly(b, session, owner.role);
      assert s == SessionRole(session, owner.role);
    }
    if OwnedBy(items, session, owner) {
      var b :| b in items && NamedBy(b, owner.lane) && Binds(b, session, owner.role);
      LaneKeyExactly(b, owner.lane);
      BindsExactly(b, session, owner.role);
      var s := SessionRole(session, owner.role);
      assert s in SessionRoles(b) && Owner(CanonicalLaneKey(b).value, s.role) in Owners(items, session);
    }
  }

  lemma TwoMembers<T>(s: set<T>)
    ensures |s| > 1 <==> exists x, y :: x != y && x in s && y in s
  {
    if |s| > 1 {
      var x :| x in s;
      assert |s - {x}| == |s| - 1;
      var y :| y in s - {x};
    }
    if x, y :| x != y && x in s && y in s {
      SubsetSize({x, y}, s);
      assert |{x, y}| == 2;
    }
  }

  lemma ContestedExactly(items: seq<Binding>, session: SessionKey)
    ensures |Owners(items, session)| > 1 <==> Contested(items, session)
  {
    TwoMembers(Owners(items, session));
    forall owner ensures owner in Owners(items, session) <==> OwnedBy(items, session, owner) {
      OwnersExactly(items, session, owner);
    }
  }

  lemma ConflictsExactly(items: seq<Binding>, b: Binding, session: SessionKey)
    ensures session in Conflicts(items, b) <==> BindsContested(items, b, session)
  {
    ContestedExactly(items, session);
    if session in Sessions(b) {
      var s :| s in SessionRoles(b) && s.session == session;
      BindsExactly(b, session, s.role);
      assert s == SessionRole(session, s.role);
    }
    if role :| Binds(b, session, role) {
      BindsExactly(b, session, role);
      assert SessionRole(session, role).session in Sessions(b);
    }
  }

  lemma {:induction false} CountedTwice(items: seq<Binding>, key: LaneKey) returns (i: nat, j: nat)
    requires LaneCount(items, key) > 1
    ensures i < j < |items| && CanonicalLaneKey(items[i]) == Some(key) == CanonicalLaneKey(items[j])
  {
    var n := |items| - 1;
    if CanonicalLaneKey(items[n]) == Some(key) {
      j := n;
      i := CountedOnce(items[..n], key);
    } else {
      i, j := CountedTwice(items[..n], key);
    }
  }

  lemma {:induction false} CountedOnce(items: seq<Binding>, key: LaneKey) returns (i: nat)
    requires LaneCount(items, key) > 0
    ensures i < |items| && CanonicalLaneKey(items[i]) == Some(key)
  {
    var n := |items| - 1;
    if CanonicalLaneKey(items[n]) == Some(key) { i := n; } else { i := CountedOnce(items[..n], key); }
  }

  lemma ListedTwiceExactly(items: seq<Binding>, i: nat)
    requires i < |items|
    ensures DuplicatedLane(items, items[i]) <==> ListedTwice(items, i)
  {
    if DuplicatedLane(items, items[i]) {
      var key := CanonicalLaneKey(items[i]).value;
      var a, b := CountedTwice(items, key);
      LaneKeyExactly(items[i], key);
      LaneKeyExactly(items[a], key);
      LaneKeyExactly(items[b], key);
      assert a != i || b != i;
    }
    if j, key :| 0 <= j < |items| && j != i && NamedBy(items[i], key) && NamedBy(items[j], key) {
      LaneKeyExactly(items[i], key);
      LaneKeyExactly(items[j], key);
      if i < j { TwoLanesCount(items, key, i, j); } else { TwoLanesCount(items, key, j, i); }
    }
  }

  ghost predicate SomeContested(items: seq<Binding>, b: Binding) {
    exists session :: BindsContested(items, b, session)
  }

  /** The result names the lane as listed twice. */
  predicate SaysTwice(r: Reconciled, b: Binding) {
    && r.resolution.gate == Some(AmbiguousLaneBinding) && r.resolution.action == None
    && exists x | x in r.issues :: r.issues == {x} && x.DuplicateLane? && NamedBy(b, x.key)
  }

  /** The result names the contested sessions the lane binds, and no others. */
  ghost predicate SaysContested(r: Reconciled, items: seq<Binding>, b: Binding) {
    && r.resolution.gate == Some(AmbiguousProviderSession) && r.resolution.action == None
    && exists x | x in r.issues ::
         r.issues == {x} && x.SharedSessions? && forall s :: s in x.sessions <==> BindsContested(items, b, s)
  }

  lemma TwiceIsSaid(items: seq<Binding>, previous: map<LaneKey, Binding>, b: Binding)
    requires DuplicatedLane(items, b)
    ensures SaysTwice(Judge(items, previous, b), b)
  {
    var key := CanonicalLaneKey(b).value;
    LaneKeyExactly(b, key);
    assert DuplicateLane(key) in Judge(items, previous, b).issues;
  }

  lemma ContestedAreTheConflicts(items: seq<Binding>, b: Binding)
    ensures forall s :: s in Conflicts(items, b) <==> BindsContested(items, b, s)
    ensures Conflicts(items, b) != {} <==> SomeContested(items, b)
  {
    var conflicts := Conflicts(items, b);
    forall s ensures s in conflicts <==> BindsContested(items, b, s) {
      ConflictsExactly(items, b, s);
    }
    if conflicts != {} {
      var s :| s in conflicts;
      assert BindsContested(items, b, s);
    }
  }

  lemma ContestedIsSaid(items: seq<Binding>, b: Binding, conflicts: set<SessionKey>, r: Reconciled)
    requires r == Blocked(b, {SharedSessions(conflicts)}, AmbiguousProviderSession)
    requires forall s :: s in conflicts <==> BindsContested(items, b, s)
    ensures SaysContested(r, items, b)
  {
    assert SharedSessions(conflicts) in r.issues;
  }

  lemma JudgedOnce(items: seq<Binding>, previous: map<LaneKey, Binding>, b: Binding)
    requires !DuplicatedLane(items, b)
    ensures Judge(items, previous, b) ==
      if Conflicts(items, b) != {} then Blocked(b, {SharedSessions(Conflicts(items, b))}, AmbiguousProviderSession)
      else ReconcileWorkstream(b, PreviousOf(previous, b))
  {
  }

  /** What each lane of the list gets: it is ambiguous if another lane has its name, then if a session it
      binds is contested; every other lane, and no other, is reconciled as if it stood alone. */
  lemma LaneIsJudgedExactly(items: seq<Binding>, previous: map<LaneKey, Binding>, i: nat)
    requires i < |items|
    ensures
      var (b, r) := (items[i], ReconcilePortfolio(items, previous)[i]);
      if ListedTwice(items, i) then SaysTwice(r, b)
      else if SomeContested(items, b) then SaysContested(r, items, b)
      else r == ReconcileWorkstream(b, PreviousOf(previous, b))
  {
    ListedTwiceExactly(items, i);
    assert ReconcilePortfolio(items, previous)[i] == Judge(items, previous, items[i]);
    if ListedTwice(items, i) {
      TwiceIsSaid(items, previous, items[i]);
    } else {
      JudgedOnce(items, previous, items[i]);
      ContestedAreTheConflicts(items, items[i]);
      if SomeContested(items, items[i]) {
        ContestedIsSaid(items, items[i], Conflicts(items, items[i]), ReconcilePortfolio(items, previous)[i]);
      }
    }
  }

  /** The previous binding of a lane is the one of its name. */
  lemma PreviousHasItsName(previous: map<LaneKey, Binding>, b: Binding, key: LaneKey)
    requires NamedBy(b, key)
    ensures PreviousOf(previous, b) == if key in previous then Some(previous[key]) else None
  {
    LaneKeyExactly(b, key);
  }
}
