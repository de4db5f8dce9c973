/** Reconciliation of a whole list of lanes: ambiguity between lanes blocks every lane it touches, and
    nothing else. */
module Portfolio {
  import opened Wrappers
  import opened Text
  import opened Multisets
  import opened Lifecycle
  import opened Bindings
  import opened Reconciliation

  /** A provider session in a role, as one lane binds it. */
  datatype SessionRole = SessionRole(session: SessionKey, role: string)

  /** A lane and role that bind a session. */
  datatype Owner = Owner(lane: LaneKey, role: string)

  function SessionOf(a: Actor): Option<SessionKey> {
    match (TextOf(a.provider), TextOf(a.sessionId))
    case (Some(p), Some(s)) => Some(SessionKey(Lower(p), s))
    case _ => None
  }

  function RoleOf(a: Actor): string {
    if RoleName(a.role) == "" then UNSPECIFIED else RoleName(a.role)
  }

  function RolesOf(actors: seq<Actor>): set<SessionRole> {
    set a | a in actors && SessionOf(a).Some? :: SessionRole(SessionOf(a).value, RoleOf(a))
  }

  /** The provider sessions a lane binds, with the roles it binds them in. */
  function SessionRoles(b: Binding): set<SessionRole> {
    RolesOf(CanonicalActors(b))
  }

  function Sessions(b: Binding): set<SessionKey> {
    set s | s in SessionRoles(b) :: s.session
  }

  // ---------------------------------------------------------------------------
  // Specification
  // ---------------------------------------------------------------------------

  /** How many lanes of the list have the key. */
  function LaneCount(items: seq<Binding>, key: LaneKey): nat {
    if items == [] then 0
    else LaneCount(items[..|items| - 1], key) + (if CanonicalLaneKey(items[|items| - 1]) == Some(key) then 1 else 0)
  }

  /** Everyone who binds the session; a lane without a key owns nothing. */
  function Owners(items: seq<Binding>, session: SessionKey): set<Owner> {
    set b, s | b in items && CanonicalLaneKey(b).Some? && s in SessionRoles(b) && s.session == session ::
      Owner(CanonicalLaneKey(b).value, s.role)
  }

  function Conflicts(items: seq<Binding>, b: Binding): set<SessionKey> {
    set s | s in Sessions(b) && |Owners(items, s)| > 1
  }

  predicate DuplicatedLane(items: seq<Binding>, b: Binding) {
    CanonicalLaneKey(b).Some? && LaneCount(items, CanonicalLaneKey(b).value) > 1
  }

  function PreviousOf(previous: map<LaneKey, Binding>, b: Binding): Option<Binding> {
    if CanonicalLaneKey(b).Some? && CanonicalLaneKey(b).value in previous then Some(previous[CanonicalLaneKey(b).value]) else None
  }

  /** The result of one lane among all lanes. */
  function Judge(items: seq<Binding>, previous: map<LaneKey, Binding>, b: Binding): Reconciled {
    if DuplicatedLane(items, b) then Blocked(b, {DuplicateLane(CanonicalLaneKey(b).value)}, AmbiguousLaneBinding)
    else if Conflicts(items, b) != {} then Blocked(b, {SharedSessions(Conflicts(items, b))}, AmbiguousProviderSession)
    else ReconcileWorkstream(b, PreviousOf(previous, b))
  }

  function Results(judge: Binding -> Reconciled, items: seq<Binding>): seq<Reconciled> {
    seq(|items|, i requires 0 <= i < |items| => judge(items[i]))
  }

  function ReconcilePortfolio(items: seq<Binding>, previous: map<LaneKey, Binding>): seq<Reconciled> {
    Results((b: Binding) => Judge(items, previous, b), items)
  }

  // ---------------------------------------------------------------------------
  // Safety
  // ---------------------------------------------------------------------------

  lemma {:induction false} PresentLaneCounts(items: seq<Binding>, key: LaneKey, i: nat)
    requires i < |items| && CanonicalLaneKey(items[i]) == Some(key)
    ensures LaneCount(items, key) >= 1
  {
    if i < |items| - 1 {
      PresentLaneCounts(items[..|items| - 1], key, i);
    }
  }

  lemma {:induction false} TwoLanesCount(items: seq<Binding>, key: LaneKey, i: nat, j: nat)
    requires i < j < |items| && CanonicalLaneKey(items[i]) == Some(key) == CanonicalLaneKey(items[j])
    ensures LaneCount(items, key) >= 2
  {
    if j < |items| - 1 {
      TwoLanesCount(items[..|items| - 1], key, i, j);
    } else {
      PresentLaneCounts(items[..|items| - 1], key, i);
    }
  }

  lemma TwoOwnersConflict(items: seq<Binding>, session: SessionKey, a: Owner, b: Owner)
    requires a in Owners(items, session) && b in Owners(items, session) && a != b
    ensures |Owners(items, session)| > 1
  {
    assert |{a, b}| == 2;
    SubsetSize({a, b}, Owners(items, session));
  }

  /** A candidate has a lane key of its own and no conflicting session. */
  lemma CandidateIsUnambiguous(items: seq<Binding>, previous: map<LaneKey, Binding>, b: Binding)
    requires Judge(items, previous, b).SemanticCandidate()
    ensures CanonicalLaneKey(b).Some? && !DuplicatedLane(items, b) && Conflicts(items, b) == {}
  {
    if !DuplicatedLane(items, b) && Conflicts(items, b) == {} && CanonicalLaneKey(b).None? {
      NamelessLaneIsBlocked(b, PreviousOf(previous, b));
    }
  }

  lemma NamelessLaneIsBlocked(b: Binding, previous: Option<Binding>)
    requires CanonicalLaneKey(b).None?
    ensures !ReconcileWorkstream(b, previous).SemanticCandidate()
  {
    assert IdentityIssues(b) != {};
  }

  /** Any two results that may act have distinct lane keys and share no provider session. */
  lemma CandidatesAreDisjoint(items: seq<Binding>, previous: map<LaneKey, Binding>, i: nat, j: nat)
    requires i < j < |items|
    requires ReconcilePortfolio(items, previous)[i].SemanticCandidate()
    requires ReconcilePortfolio(items, previous)[j].SemanticCandidate()
    ensures CanonicalLaneKey(items[i]).Some? && CanonicalLaneKey(items[j]).Some?
    ensures CanonicalLaneKey(items[i]) != CanonicalLaneKey(items[j])
    ensures Sessions(items[i]) !! Sessions(items[j])
  {
    var a, b := items[i], items[j];
    CandidateIsUnambiguous(items, previous, a);
    CandidateIsUnambiguous(items, previous, b);
    if CanonicalLaneKey(a) == CanonicalLaneKey(b) {
      TwoLanesCount(items, CanonicalLaneKey(a).value, i, j);
    }
    forall s | s in Sessions(a) && s in Sessions(b) ensures false {
      SharedSessionConflicts(items, a, b, s);
    }
  }

  lemma SharedSessionConflicts(items: seq<Binding>, a: Binding, b: Binding, s: SessionKey)
    requires a in items && b in items && s in Sessions(a) && s in Sessions(b)
    requires CanonicalLaneKey(a).Some? && CanonicalLaneKey(b).Some? && CanonicalLaneKey(a) != CanonicalLaneKey(b)
    ensures s in Conflicts(items, a)
  {
    var sa :| sa in SessionRoles(a) && sa.session == s;
    var sb :| sb in SessionRoles(b) && sb.session == s;
    TwoOwnersConflict(items, s, Owner(CanonicalLaneKey(a).value, sa.role), Owner(CanonicalLaneKey(b).value, sb.role));
  }

  /** A lane that may act binds every session in one role only. */
  lemma CandidateUsesSessionsInOneRole(items: seq<Binding>, previous: map<LaneKey, Binding>, b: Binding,
                                       a: SessionRole, c: SessionRole)
    requires b in items && Judge(items, previous, b).SemanticCandidate()
    requires a in SessionRoles(b) && c in SessionRoles(b) && a.session == c.session
    ensures a.role == c.role
  {
    CandidateIsUnambiguous(items, previous, b);
    if a.role != c.role {
      TwoRolesConflict(items, b, a, c);
    }
  }

  lemma TwoRolesConflict(items: seq<Binding>, b: Binding, a: SessionRole, c: SessionRole)
    requires b in items && CanonicalLaneKey(b).Some?
    requires a in SessionRoles(b) && c in SessionRoles(b) && a.session == c.session && a.role != c.role
    ensures a.session in Conflicts(items, b)
  {
    var lane := CanonicalLaneKey(b).value;
    TwoOwnersConflict(items, a.session, Owner(lane, a.role), Owner(lane, c.role));
  }

  // ---------------------------------------------------------------------------
  // Order and bystanders
  // ---------------------------------------------------------------------------

  lemma {:induction false} LaneCountConcat(a: seq<Binding>, b: seq<Binding>, key: LaneKey)
    ensures LaneCount(a + b, key) == LaneCount(a, key) + LaneCount(b, key)
  {
    if b == [] {
      assert a + b == a;
    } else {
      LaneCountConcat(a, b[..|b| - 1], key);
      assert (a + b)[..|a + b| - 1] == a + b[..|b| - 1];
    }
  }

  lemma LaneCountOneOut(b: seq<Binding>, k: nat, key: LaneKey)
    requires k < |b|
    ensures LaneCount(b, key) == LaneCount(b[..k] + b[k + 1..], key) + (if CanonicalLaneKey(b[k]) == Some(key) then 1 else 0)
  {
    assert b == b[..k] + [b[k]] + b[k + 1..];
    LaneCountConcat(b[..k] + [b[k]], b[k + 1..], key);
    LaneCountConcat(b[..k], [b[k]], key);
    LaneCountConcat(b[..k], b[k + 1..], key);
  }

  /** The count depends on the multiset of lanes only. */
  lemma {:induction false} LaneCountPermuted(a: seq<Binding>, b: seq<Binding>, key: LaneKey)
    requires multiset(a) == multiset(b)
    ensures LaneCount(a, key) == LaneCount(b, key)
  {
    if a == [] {
      assert |multiset(b)| == 0;
    } else {
      var k := TakeOut(a, b);
      LaneCountPermuted(a[..|a| - 1], b[..k] + b[k + 1..], key);
      LaneCountOneOut(b, k, key);
    }
  }

  /** What a lane gets depends on nothing but its own count and the owners of its sessions. */
  lemma JudgedAlike(a: seq<Binding>, b: seq<Binding>, previous: map<LaneKey, Binding>, item: Binding)
    requires DuplicatedLane(a, item) == DuplicatedLane(b, item)
    requires forall s :: s in Sessions(item) ==> Owners(a, s) == Owners(b, s)
    ensures Judge(a, previous, item) == Judge(b, previous, item)
  {
    assert Conflicts(a, item) == Conflicts(b, item);
  }

  /** Permuting the lanes permutes the results. */
  lemma PermutationPermutesResults(a: seq<Binding>, b: seq<Binding>, previous: map<LaneKey, Binding>, i: nat, j: nat)
    requires multiset(a) == multiset(b) && i < |a| && j < |b| && a[i] == b[j]
    ensures ReconcilePortfolio(a, previous)[i] == ReconcilePortfolio(b, previous)[j]
  {
    var item := a[i];
    if CanonicalLaneKey(item).Some? {
      LaneCountPermuted(a, b, CanonicalLaneKey(item).value);
    }
    assert forall x :: x in a <==> x in multiset(a);
    assert forall x :: x in b <==> x in multiset(b);
    JudgedAlike(a, b, previous, item);
  }

  /** A lane that shares neither key nor session with another one makes no difference to it. */
  lemma BystanderMakesNoDifference(a: seq<Binding>, x: Binding, b: seq<Binding>, previous: map<LaneKey, Binding>, item: Binding)
    requires CanonicalLaneKey(x) != CanonicalLaneKey(item) || CanonicalLaneKey(x).None?
    requires Sessions(x) !! Sessions(item)
    ensures Judge(a + [x] + b, previous, item) == Judge(a + b, previous, item)
  {
    if CanonicalLaneKey(item).Some? {
      var key := CanonicalLaneKey(item).value;
      LaneCountConcat(a + [x], b, key);
      LaneCountConcat(a, [x], key);
      LaneCountConcat(a, b, key);
    }
    forall s | s in Sessions(item) ensures Owners(a + [x] + b, s) == Owners(a + b, s) {
      BystanderOwnsNothing(a, x, b, s);
    }
    JudgedAlike(a + [x] + b, a + b, previous, item);
  }

  lemma BystanderOwnsNothing(a: seq<Binding>, x: Binding, b: seq<Binding>, s: SessionKey)
    requires s !in Sessions(x)
    ensures Owners(a + [x] + b, s) == Owners(a + b, s)
  {
    assert forall y :: y in a + [x] + b <==> y in a + b || y == x;
    assert forall r :: r in SessionRoles(x) ==> r.session in Sessions(x);
  }

  // ---------------------------------------------------------------------------
  // The loops
  // ---------------------------------------------------------------------------

  method CountLanes(items: seq<Binding>) returns (counts: map<LaneKey, nat>)
    ensures forall key :: LaneCount(items, key) == if key in counts then counts[key] else 0
  {
    counts := map[];
    for i := 0 to |items|
      invariant forall key :: LaneCount(items[..i], key) == if key in counts then counts[key] else 0
    {
      assert items[..i + 1][..i] == items[..i];
      var key := CanonicalLaneKey(items[i]);
      if key.Some? {
        counts := counts[key.value := (if key.value in counts then counts[key.value] else 0) + 1];
      }
    }
    assert items[..|items|] == items;
  }

  function OwnedThrough(roles: set<SessionRole>, lane: LaneKey, s: SessionKey): set<Owner> {
    set x | x in roles && x.session == s :: Owner(lane, x.role)
  }

  /** Adds one owner of one session. */
  method AddOwner(owners: map<SessionKey, set<Owner>>, session: SessionKey, owner: Owner)
    returns (r: map<SessionKey, set<Owner>>)
    ensures forall s :: OwnersIn(r, s) == (OwnersIn(owners, s) + if s == session then {owner} else {})
  {
    r := owners[session := OwnersIn(owners, session) + {owner}];
  }

  lemma RolesGrow(actors: seq<Actor>, i: nat, lane: LaneKey, s: SessionKey)
    requires i < |actors|
    ensures
      var a := actors[i];
      OwnedThrough(RolesOf(actors[..i + 1]), lane, s) == OwnedThrough(RolesOf(actors[..i]), lane, s)
        + (if SessionOf(a) == Some(s) then {Owner(lane, RoleOf(a))} else {})
  {
    assert actors[..i + 1] == actors[..i] + [actors[i]];
    var before, after := RolesOf(actors[..i]), RolesOf(actors[..i + 1]);
    if SessionOf(actors[i]).Some? {
      assert after == before + {SessionRole(SessionOf(actors[i]).value, RoleOf(actors[i]))};
    } else {
      assert after == before;
    }
  }

  /** Adds one lane to the owners of its sessions. */
  method AddOwners(owners: map<SessionKey, set<Owner>>, lane: LaneKey, actors: seq<Actor>)
    returns (r: map<SessionKey, set<Owner>>)
    ensures forall s :: OwnersIn(r, s) == (OwnersIn(owners, s) + OwnedThrough(RolesOf(actors), lane, s))
  {
    r := owners;
    for i := 0 to |actors|
      invariant forall s :: OwnersIn(r, s) == (OwnersIn(owners, s) + OwnedThrough(RolesOf(actors[..i]), lane, s))
    {
      var session := SessionOf(actors[i]);
      forall s { RolesGrow(actors, i, lane, s); }
      if session.Some? {
        r := AddOwner(r, session.value, Owner(lane, RoleOf(actors[i])));
      }
    }
    assert actors[..|actors|] == actors;
  }

  function OwnersIn(owners: map<SessionKey, set<Owner>>, s: SessionKey): set<Owner> {
    if s in owners then owners[s] else {}
  }

  lemma OwnersGrow(items: seq<Binding>, i: nat, s: SessionKey)
    requires i < |items|
    ensures
      var b := items[i];
      Owners(items[..i + 1], s) == Owners(items[..i], s)
        + (if CanonicalLaneKey(b).Some? then OwnedThrough(RolesOf(CanonicalActors(b)), CanonicalLaneKey(b).value, s) else {})
  {
    var b, before, after := items[i], Owners(items[..i], s), Owners(items[..i + 1], s);
    assert items[..i + 1] == items[..i] + [b];
    var added := if CanonicalLaneKey(b).Some? then OwnedThrough(RolesOf(CanonicalActors(b)), CanonicalLaneKey(b).value, s) else {};
    forall o ensures o in after <==> o in before + added {
      OwnersAre(items[..i], s, o);
      OwnersAre(items[..i + 1], s, o);
      OwnedThroughIs(b, s, o);
    }
  }

  /** The lane owns the session under its name and in the role. */
  predicate OwnsAs(b: Binding, s: SessionKey, o: Owner) {
    CanonicalLaneKey(b) == Some(o.lane) && SessionRole(s, o.role) in SessionRoles(b)
  }

  lemma OwnersAre(items: seq<Binding>, s: SessionKey, o: Owner)
    ensures o in Owners(items, s) <==> exists b | b in items :: OwnsAs(b, s, o)
  {
    if b :| b in items && OwnsAs(b, s, o) {
      var x := SessionRole(s, o.role);
      assert x in SessionRoles(b) && o == Owner(CanonicalLaneKey(b).value, x.role);
    }
  }

  lemma OwnedThroughIs(b: Binding, s: SessionKey, o: Owner)
    ensures CanonicalLaneKey(b).Some? ==>
      (o in OwnedThrough(RolesOf(CanonicalActors(b)), CanonicalLaneKey(b).value, s) <==> OwnsAs(b, s, o))
  {
    if CanonicalLaneKey(b).Some? && OwnsAs(b, s, o) {
      var x := SessionRole(s, o.role);
      assert x in RolesOf(CanonicalActors(b)) && o == Owner(CanonicalLaneKey(b).value, x.role);
    }
  }

  method CollectOwners(items: seq<Binding>) returns (owners: map<SessionKey, set<Owner>>)
    ensures forall s :: OwnersIn(owners, s) == Owners(items, s)
  {
    owners := map[];
    for i := 0 to |items|
      invariant forall s :: OwnersIn(owners, s) == Owners(items[..i], s)
    {
      forall s { OwnersGrow(items, i, s); }
      var key := CanonicalLaneKey(items[i]);
      if key.Some? {
        owners := AddOwners(owners, key.value, CanonicalActors(items[i]));
      }
    }
    assert items[..|items|] == items;
  }

  method JudgeOne(ghost items: seq<Binding>, counts: map<LaneKey, nat>, owners: map<SessionKey, set<Owner>>,
                  previous: map<LaneKey, Binding>, b: Binding) returns (result: Reconciled)
    requires forall key :: LaneCount(items, key) == if key in counts then counts[key] else 0
    requires forall s :: OwnersIn(owners, s) == Owners(items, s)
    ensures result == Judge(items, previous, b)
  {
    var key := CanonicalLaneKey(b);
    if key.Some? && key.value in counts && counts[key.value] > 1 {
      return Blocked(b, {DuplicateLane(key.value)}, AmbiguousLaneBinding);
    }
    assert !DuplicatedLane(items, b);
    var conflicts := set s | s in Sessions(b) && |OwnersIn(owners, s)| > 1;
    assert conflicts == Conflicts(items, b);
    if conflicts != {} {
      return Blocked(b, {SharedSessions(conflicts)}, AmbiguousProviderSession);
    }
    var before := PreviousOf(previous, b);
    result := ReconcileWorkstream(b, before);
  }

  lemma ResultsGrow(judge: Binding -> Reconciled, items: seq<Binding>, i: nat)
    requires i < |items|
    ensures Results(judge, items[..i + 1]) == Results(judge, items[..i]) + [judge(items[i])]
  {
  }

  /** Judges one more lane and appends its result. */
  method JudgeNext(ghost items: seq<Binding>, ghost judge: Binding -> Reconciled, counts: map<LaneKey, nat>,
                   owners: map<SessionKey, set<Owner>>, previous: map<LaneKey, Binding>, b: Binding,
                   results: seq<Reconciled>, ghost i: nat)
    returns (longer: seq<Reconciled>)
    requires forall key :: LaneCount(items, key) == if key in counts then counts[key] else 0
    requires forall s :: OwnersIn(owners, s) == Owners(items, s)
    requires i < |items| && b == items[i] && judge(b) == Judge(items, previous, b)
    requires results == Results(judge, items[..i])
    ensures longer == Results(judge, items[..i + 1])
  {
    var result := JudgeOne(items, counts, owners, previous, b);
    longer := results + [result];
    ResultsGrow(judge, items, i);
  }

  method Reconcile(items: seq<Binding>, previous: map<LaneKey, Binding>) returns (results: seq<Reconciled>)
    ensures results == ReconcilePortfolio(items, previous)
  {
    var counts := CountLanes(items);
    var owners := CollectOwners(items);
    ghost var judge := (b: Binding) => Judge(items, previous, b);
    results := [];
    for i := 0 to |items|
      invariant results == Results(judge, items[..i])
    {
      results := JudgeNext(items, judge, counts, owners, previous, items[i], results, i);
    }
    assert items[..|items|] == items;
  }
}
