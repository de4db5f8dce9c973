/** What makes a binding sound, undrifted and its actors proven, written out: where reconciliation raises
    no issue. */
module SoundBindings {
  import opened Wrappers
  import opened Text
  import opened Lifecycle
  import opened Bindings
  import opened Reconciliation

  // ---------------------------------------------------------------------------
  // Texts
  // ---------------------------------------------------------------------------

  /** A text that is more than white space. */
  predicate HasText(value: Option<string>) {
    value.Some? && !AllSpace(value.value)
  }

  lemma TextExactly(value: Option<string>)
    ensures TextOf(value).Some? <==> HasText(value)
    ensures TextOf(value).Some? ==> TextOf(value) == Some(Strip(value.value))
  {
    if value.Some? { StripIsEmptyExactly(value.value); }
  }

  /** The same text but for white space around it; blank texts are all the same. */
  predicate SameText(a: Option<string>, b: Option<string>) {
    HasText(a) == HasText(b) && (HasText(a) && HasText(b) ==> Strip(a.value) == Strip(b.value))
  }

  lemma SameTextExactly(a: Option<string>, b: Option<string>)
    ensures TextOf(a) == TextOf(b) <==> SameText(a, b)
  {
    TextExactly(a);
    TextExactly(b);
  }

  /** Forty hexadecimal digits. */
  predicate ExactSha(value: Option<string>) {
    && value.Some? && |value.value| == 40
    && forall c | c in value.value :: '0' <= c <= '9' || 'a' <= c <= 'f' || 'A' <= c <= 'F'
  }

  lemma ShaExactly(value: Option<string>)
    ensures IsSha(value) <==> ExactSha(value)
  {
    if IsSha(value) {
      forall c | c in value.value ensures HexDigit(c) {
        var i :| 0 <= i < |value.value| && value.value[i] == c;
      }
    } else if ExactSha(value) {
      forall i | 0 <= i < |value.value| ensures HexDigit(value.value[i]) {
        assert value.value[i] in value.value;
      }
    }
  }

  lemma SameShaExactly(a: string, b: string)
    ensures SameSha(a, b) <==> SameUpToCase(a, b)
  {
    LowerEqualExactlyUpToCase(a, b);
  }

  /** Evidence from another repository than the lane's. */
  predicate Foreign(source: Option<string>, repo: Option<string>) {
    HasText(source) && HasText(repo) && source != repo
  }

  lemma ForeignExactly(source: Option<string>, repo: Option<string>)
    ensures OtherRepository(source, repo) <==> Foreign(source, repo)
  {
    TextExactly(source);
    TextExactly(repo);
  }

  lemma UnionsWithoutIssues()
    ensures forall a: set<Issue>, b: set<Issue> :: a + b == {} <==> a == {} && b == {}
  {
    forall a: set<Issue>, b: set<Issue> ensures a + b == {} <==> a == {} && b == {} {
      NoIssuesInUnion(a, b);
    }
  }

  lemma NoIssuesInUnion(a: set<Issue>, b: set<Issue>)
    ensures a + b == {} <==> a == {} && b == {}
  {
    if a + b == {} {
      assert forall x :: x in a ==> x in a + b;
      assert forall x :: x in b ==> x in a + b;
    }
  }

  // ---------------------------------------------------------------------------
  // Sound bindings
  // ---------------------------------------------------------------------------

  predicate SoundIdentity(b: Binding) {
    && HasText(b.project) && HasText(b.route) && HasText(b.workstream) && HasText(b.role)
    && HasText(b.repo) && HasText(b.branch) && HasText(b.baseRef) && HasText(b.taskBudgetClass)
    && ExactSha(b.baselineSha) && (b.headSha.Some? ==> ExactSha(b.headSha))
    && (b.prNumber.Some? ==> b.prNumber.value > 0) && b.lastActivity == Some(true)
  }

  lemma IdentityExactly(b: Binding)
    ensures IdentityIssues(b) == {} <==> SoundIdentity(b)
  {
    UnionsWithoutIssues();
    TextExactly(b.project);
    TextExactly(b.route);
    TextExactly(b.workstream);
    TextExactly(b.role);
    TextExactly(b.repo);
    TextExactly(b.branch);
    TextExactly(b.baseRef);
    TextExactly(b.taskBudgetClass);
    ShaExactly(b.baselineSha);
    ShaExactly(b.headSha);
    if b.lastActivity.Some? {
      assert b.lastActivity == Some(true) <==> b.lastActivity.value;
      assert b.lastActivity == Some(false) <==> !b.lastActivity.value;
    }
  }

  /** Named, and no name is required twice. */
  predicate SoundProfile(profile: Option<EvidenceProfile>) {
    profile.Some? ==>
      && HasText(profile.value.profileId)
      && forall i, j | 0 <= i < j < |profile.value.requirements| ::
           HasText(profile.value.requirements[i].name) ==>
             !SameText(profile.value.requirements[i].name, profile.value.requirements[j].name)
  }

  lemma ProfileExactly(profile: Option<EvidenceProfile>)
    ensures ProfileShapeIssues(profile) == {} <==> SoundProfile(profile)
  {
    if profile.Some? {
      var requirements := profile.value.requirements;
      TextExactly(profile.value.profileId);
      forall i, j | 0 <= i < j < |requirements|
        ensures TextOf(requirements[i].name).Some? && TextOf(requirements[i].name) == TextOf(requirements[j].name)
           <==> HasText(requirements[i].name) && SameText(requirements[i].name, requirements[j].name)
      {
        TextExactly(requirements[i].name);
        SameTextExactly(requirements[i].name, requirements[j].name);
      }
    }
  }

  predicate SoundCi(ci: Option<CiBinding>, repo: Option<string>) {
    ci.Some? ==>
      && (ci.value.candidateSha.Some? ==> ExactSha(ci.value.candidateSha))
      && (ci.value.runAttempt.Some? ==> ci.value.runAttempt.value > 0)
      && !Foreign(ci.value.sourceRepository, repo)
      && (HasText(ci.value.artifactId) ==> HasText(ci.value.producerJob))
  }

  predicate SoundReview(review: Option<ReviewBinding>, repo: Option<string>) {
    review.Some? ==>
      (review.value.reviewedSha.Some? ==> ExactSha(review.value.reviewedSha)) && !Foreign(review.value.sourceRepository, repo)
  }

  lemma EvidenceShapeExactly(ci: Option<CiBinding>, review: Option<ReviewBinding>, repo: Option<string>)
    ensures CiShapeIssues(ci, repo) == {} <==> SoundCi(ci, repo)
    ensures ReviewShapeIssues(review, repo) == {} <==> SoundReview(review, repo)
  {
    if ci.Some? {
      ShaExactly(ci.value.candidateSha);
      ForeignExactly(ci.value.sourceRepository, repo);
      TextExactly(ci.value.artifactId);
      TextExactly(ci.value.producerJob);
    }
    if review.Some? {
      ShaExactly(review.value.reviewedSha);
      ForeignExactly(review.value.sourceRepository, repo);
    }
  }

  /** An actor has a provider and is of the lane's repository; what is said to be proven has its proof. */
  predicate SoundActor(a: Actor, repo: Option<string>) {
    && HasText(a.provider) && !Foreign(a.sourceRepository, repo)
    && (a.status == ProvenExplicit ==> HasProof(a))
  }

  predicate HasProof(a: Actor) {
    HasText(a.provider) && HasText(a.sessionId) && HasText(a.sourceRepository) && HasText(a.sourceIdentity) && HasText(a.evidenceId)
  }

  lemma ActorExactly(a: Actor, repo: Option<string>)
    ensures ActorShapeIssues(a, repo) == {} <==> SoundActor(a, repo)
  {
    TextExactly(a.provider);
    TextExactly(a.sessionId);
    TextExactly(a.sourceRepository);
    TextExactly(a.sourceIdentity);
    TextExactly(a.evidenceId);
    ForeignExactly(a.sourceRepository, repo);
  }

  lemma {:induction false} ActorsExactly(actors: seq<Actor>, repo: Option<string>)
    ensures ActorsShapeIssues(actors, repo) == {} <==> forall a | a in actors :: SoundActor(a, repo)
  {
    if actors != [] {
      var before, last := actors[..|actors| - 1], actors[|actors| - 1];
      ActorsExactly(before, repo);
      ActorExactly(last, repo);
      NoIssuesInUnion(ActorsShapeIssues(before, repo), ActorShapeIssues(last, repo));
      assert actors == before + [last];
    }
  }

  /** What is bound to act for the lane: the listed actors, the provider source under its own role or the
      lane's, and if there is neither, the bare session, unproven. */
  ghost predicate ActsFor(a: Actor, b: Binding) {
    || a in b.actors
    || (b.providerSource.Some? && a == AsActor(b.providerSource.value, b.role))
    || (b.actors == [] && b.providerSource == None && HasText(b.sessionId) && a == LegacyActor(b))
  }

  lemma CanonicalActorsExactly(b: Binding)
    ensures forall a :: a in CanonicalActors(b) <==> ActsFor(a, b)
  {
    TextExactly(b.sessionId);
  }

  predicate SoundAuthorization(authorization: Option<AuthorizationBinding>) {
    authorization.Some? ==> HasText(authorization.value.source) && HasText(authorization.value.decisionId)
  }

  /** An action in flight names its lease and its operation. */
  predicate SoundFlight(b: Binding) {
    HasText(b.actionInFlight) ==> HasText(b.leaseId) && HasText(b.operationKey)
  }

  ghost predicate SoundBinding(b: Binding) {
    && SoundIdentity(b) && SoundProfile(b.profile) && SoundCi(b.ci, b.repo) && SoundReview(b.review, b.repo)
    && (forall a | a in CanonicalActors(b) :: SoundActor(a, b.repo))
    && SoundAuthorization(b.authorization) && SoundFlight(b)
  }

  lemma FlightAndAuthorizationExactly(b: Binding)
    ensures AuthorizationIssues(b.authorization) == {} <==> SoundAuthorization(b.authorization)
    ensures InFlightIssues(b) == {} <==> SoundFlight(b)
  {
    if b.authorization.Some? {
      TextExactly(b.authorization.value.source);
      TextExactly(b.authorization.value.decisionId);
    }
    TextExactly(b.actionInFlight);
    TextExactly(b.leaseId);
    TextExactly(b.operationKey);
  }

  /** There are no structural issues exactly with a sound binding. */
  lemma StructureExactly(b: Binding)
    ensures StructuralIssues(b) == {} <==> SoundBinding(b)
  {
    UnionsWithoutIssues();
    IdentityExactly(b);
    ProfileExactly(b.profile);
    EvidenceShapeExactly(b.ci, b.review, b.repo);
    ActorsExactly(CanonicalActors(b), b.repo);
    FlightAndAuthorizationExactly(b);
  }

  // ---------------------------------------------------------------------------
  // Drift
  // ---------------------------------------------------------------------------

  /** Whom the lane's actor of a role comes from, if there is one. */
  ghost function SourceOf(b: Binding, role: string): Option<ActorSource> {
    if role != "" && (exists a :: a in CanonicalActors(b) && Upper(a.role) == role) && ResolveActorBinding(b, role).actor.Some? then
      var a := ResolveActorBinding(b, role).actor.value;
      Some(ActorSource(TextOf(a.provider), TextOf(a.sourceRepository), TextOf(a.sourceIdentity)))
    else None
  }

  /** Repository, branch, base, baseline, scope, profile and actor sources are those of before. */
  ghost predicate Undrifted(b: Binding, previous: Option<Binding>) {
    previous.Some? ==>
      var p := previous.value;
      && SameText(p.repo, b.repo) && SameText(p.branch, b.branch) && SameText(p.baseRef, b.baseRef)
      && p.baselineSha == b.baselineSha && SameText(p.scopeIdentity, b.scopeIdentity)
      && SameText(ProfileText(p), ProfileText(b))
      && forall role :: SourceOf(p, role) == SourceOf(b, role)
  }

  function ProfileText(b: Binding): Option<string> {
    if b.profile.Some? then b.profile.value.profileId else None
  }

  lemma SourcesExactly(b: Binding, role: string)
    ensures role in ActorSources(b) <==> SourceOf(b, role).Some?
    ensures role in ActorSources(b) ==> SourceOf(b, role) == Some(ActorSources(b)[role])
  {
    var actors := CanonicalActors(b);
    if role in ActorSources(b) {
      var a :| a in actors && Upper(a.role) != "" && ResolveActorBinding(b, Upper(a.role)).actor.Some? && role == Upper(a.role);
    }
    if SourceOf(b, role).Some? {
      var a :| a in actors && Upper(a.role) == role;
      assert Upper(a.role) in ActorSources(b);
    }
  }

  lemma DriftedRolesExactly(before: map<string, ActorSource>, after: map<string, ActorSource>)
    ensures DriftedRoles(before, after) == {} <==> before == after
  {
    if DriftedRoles(before, after) == {} {
      forall role ensures (role in before <==> role in after) && (role in before ==> before[role] == after[role]) {
        assert role !in DriftedRoles(before, after);
      }
    }
  }

  lemma SameSourcesExactly(p: Binding, b: Binding)
    ensures ActorSources(p) == ActorSources(b) <==> forall role :: SourceOf(p, role) == SourceOf(b, role)
  {
    if ActorSources(p) == ActorSources(b) {
      forall role ensures SourceOf(p, role) == SourceOf(b, role) {
        SourcesExactly(p, role);
        SourcesExactly(b, role);
      }
    } else if forall role :: SourceOf(p, role) == SourceOf(b, role) {
      forall role
        ensures (role in ActorSources(p) <==> role in ActorSources(b))
             && (role in ActorSources(p) ==> ActorSources(p)[role] == ActorSources(b)[role])
      {
        SourcesExactly(p, role);
        SourcesExactly(b, role);
      }
    }
  }

  lemma DriftExactly(b: Binding, previous: Option<Binding>)
    ensures DriftIssues(b, previous) == {} <==> Undrifted(b, previous)
  {
    if previous.Some? {
      var p := previous.value;
      UnionsWithoutIssues();
      SameTextExactly(p.repo, b.repo);
      SameTextExactly(p.branch, b.branch);
      SameTextExactly(p.baseRef, b.baseRef);
      SameTextExactly(p.scopeIdentity, b.scopeIdentity);
      SameTextExactly(ProfileText(p), ProfileText(b));
      DriftedRolesExactly(ActorSources(p), ActorSources(b));
      SameSourcesExactly(p, b);
    }
  }

  // ---------------------------------------------------------------------------
  // Proven actors
  // ---------------------------------------------------------------------------

  predicate InRole(a: Actor, role: string) {
    SameUpToCase(Strip(a.role), Strip(role))
  }

  /** Two observations of an actor agree on everything they say. */
  predicate Agree(a: Actor, b: Actor) {
    && SameText(a.provider, b.provider) && SameText(a.sessionId, b.sessionId) && SameText(a.taskId, b.taskId)
    && SameText(a.lineage, b.lineage) && SameText(a.sourceRepository, b.sourceRepository)
    && SameText(a.sourceIdentity, b.sourceIdentity) && SameText(a.evidenceId, b.evidenceId)
    && SameUpToCase(a.role, b.role) && a.status == b.status
  }

  /** The last observation of the role, which all others of the role agree with or not. */
  predicate LastInRole(actors: seq<Actor>, role: string, i: nat) {
    i < |actors| && InRole(actors[i], role) && forall j :: i < j < |actors| ==> !InRole(actors[j], role)
  }

  predicate AllAgree(actors: seq<Actor>, role: string, i: nat)
    requires i < |actors|
  {
    forall a | a in actors && InRole(a, role) :: Agree(a, actors[i])
  }

  /** The role is observed, all observations of it agree, and the actor is proven in this repository. */
  ghost predicate ProvenIn(b: Binding, role: string) {
    !AllSpace(role) &&
    exists i: nat ::
      var actors := CanonicalActors(b);
      && LastInRole(actors, role, i) && AllAgree(actors, role, i)
      && actors[i].status == ProvenExplicit && HasProof(actors[i]) && !Foreign(actors[i].sourceRepository, b.repo)
  }

  lemma AgreeExactly(a: Actor, b: Actor)
    ensures KeyOf(a) == KeyOf(b) <==> Agree(a, b)
  {
    SameTextExactly(a.provider, b.provider);
    SameTextExactly(a.sessionId, b.sessionId);
    SameTextExactly(a.taskId, b.taskId);
    SameTextExactly(a.lineage, b.lineage);
    SameTextExactly(a.sourceRepository, b.sourceRepository);
    SameTextExactly(a.sourceIdentity, b.sourceIdentity);
    SameTextExactly(a.evidenceId, b.evidenceId);
    UpperEqualExactlyUpToCase(a.role, b.role);
  }

  lemma RoleExactly(a: Actor, role: string)
    ensures RoleName(a.role) == RoleName(role) <==> InRole(a, role)
    ensures RoleName(role) == "" <==> AllSpace(role)
  {
    UpperEqualExactlyUpToCase(Strip(a.role), Strip(role));
    StripIsEmptyExactly(role);
    assert |RoleName(role)| == |Strip(role)|;
  }

  /** The last actor of that role name, at `i`. */
  predicate LastNamed(actors: seq<Actor>, name: string, i: nat) {
    i < |actors| && RoleName(actors[i].role) == name && forall j :: i < j < |actors| ==> RoleName(actors[j].role) != name
  }

  lemma LastNamedStays(actors: seq<Actor>, name: string, i: nat)
    requires actors != [] && LastNamed(actors[..|actors| - 1], name, i) && RoleName(actors[|actors| - 1].role) != name
    ensures LastNamed(actors, name, i)
  {
    var before := actors[..|actors| - 1];
    assert forall j :: 0 <= j < |before| ==> before[j] == actors[j];
  }

  lemma {:induction false} LastOfName(actors: seq<Actor>, name: string) returns (i: nat)
    requires WithRole(actors, name) != []
    ensures LastNamed(actors, name, i) && WithRole(actors, name)[|WithRole(actors, name)| - 1] == actors[i]
  {
    var n := |actors| - 1;
    if RoleName(actors[n].role) == name {
      i := n;
    } else {
      assert WithRole(actors, name) == WithRole(actors[..n], name);
      i := LastOfName(actors[..n], name);
      LastNamedStays(actors, name, i);
    }
  }

  lemma LastOfRole(actors: seq<Actor>, role: string) returns (i: nat)
    requires WithRole(actors, RoleName(role)) != []
    ensures LastInRole(actors, role, i)
    ensures WithRole(actors, RoleName(role))[|WithRole(actors, RoleName(role))| - 1] == actors[i]
  {
    i := LastOfName(actors, RoleName(role));
    RoleExactly(actors[i], role);
    forall j | i < j < |actors| ensures !InRole(actors[j], role) {
      RoleExactly(actors[j], role);
    }
  }

  lemma LastInRoleIsUnique(actors: seq<Actor>, role: string, i: nat, j: nat)
    requires LastInRole(actors, role, i) && LastInRole(actors, role, j)
    ensures i == j
  {
  }

  lemma AgreementExactly(actors: seq<Actor>, role: string, i: nat)
    requires LastInRole(actors, role, i)
    ensures (exists a | a in WithRole(actors, RoleName(role)) :: KeyOf(a) != KeyOf(actors[i])) <==> !AllAgree(actors, role, i)
  {
    forall a ensures KeyOf(a) == KeyOf(actors[i]) <==> Agree(a, actors[i]) {
      AgreeExactly(a, actors[i]);
    }
    forall a | a in actors ensures a in WithRole(actors, RoleName(role)) <==> InRole(a, role) {
      RoleExactly(a, role);
    }
  }

  lemma OneActorExactly(repo: Option<string>, wanted: string, a: Actor)
    ensures ResolveOneActor(repo, wanted, a).Proven() <==>
      a.status == ProvenExplicit && HasProof(a) && !Foreign(a.sourceRepository, repo)
  {
    UnionsWithoutIssues();
    ForeignExactly(a.sourceRepository, repo);
    TextExactly(a.provider);
    TextExactly(a.sessionId);
    TextExactly(a.sourceRepository);
    TextExactly(a.sourceIdentity);
    TextExactly(a.evidenceId);
  }

  lemma RoleNameIsEmptyExactly(role: string)
    ensures RoleName(role) == "" <==> AllSpace(role)
  {
    StripIsEmptyExactly(role);
    assert |RoleName(role)| == |Strip(role)|;
  }

  lemma NobodyInRole(actors: seq<Actor>, role: string, i: nat)
    requires WithRole(actors, RoleName(role)) == []
    ensures !LastInRole(actors, role, i)
  {
    if i < |actors| {
      RoleExactly(actors[i], role);
      assert actors[i] in actors && actors[i] !in WithRole(actors, RoleName(role));
    }
  }

  /** With the last observation of the role known. */
  lemma ProvenByTheLast(b: Binding, role: string, i: nat)
    requires LastInRole(CanonicalActors(b), role, i) && !AllSpace(role)
    ensures
      var actors := CanonicalActors(b);
      ProvenIn(b, role) <==>
        && AllAgree(actors, role, i) && actors[i].status == ProvenExplicit && HasProof(actors[i])
        && !Foreign(actors[i].sourceRepository, b.repo)
  {
    forall j: nat | LastInRole(CanonicalActors(b), role, j) ensures j == i {
      LastInRoleIsUnique(CanonicalActors(b), role, i, j);
    }
  }

  lemma ResolvedByTheLast(b: Binding, role: string, i: nat)
    requires LastInRole(CanonicalActors(b), role, i) && RoleName(role) != ""
    requires WithRole(CanonicalActors(b), RoleName(role)) != []
    requires
      var candidates := WithRole(CanonicalActors(b), RoleName(role));
      candidates[|candidates| - 1] == CanonicalActors(b)[i]
    ensures
      var actors := CanonicalActors(b);
      ResolveActorBinding(b, role).Proven() <==>
        && AllAgree(actors, role, i) && actors[i].status == ProvenExplicit && HasProof(actors[i])
        && !Foreign(actors[i].sourceRepository, b.repo)
  {
    AgreementExactly(CanonicalActors(b), role, i);
    OneActorExactly(b.repo, RoleName(role), CanonicalActors(b)[i]);
  }

  /** A role's actor is proven exactly when it is observed, agreed on and proven. */
  lemma ActorIsProvenExactlyWhen(b: Binding, role: string)
    ensures ResolveActorBinding(b, role).Proven() <==> ProvenIn(b, role)
  {
    var actors := CanonicalActors(b);
    RoleNameIsEmptyExactly(role);
    if WithRole(actors, RoleName(role)) == [] {
      forall i: nat ensures !LastInRole(actors, role, i) {
        NobodyInRole(actors, role, i);
      }
    } else if RoleName(role) != "" {
      var i := LastOfRole(actors, role);
      ProvenByTheLast(b, role, i);
      ResolvedByTheLast(b, role, i);
    }
  }

  /** A bare session id never proves an actor. */
  lemma BareSessionProvesNobody(b: Binding, role: string)
    requires b.actors == [] && b.providerSource == None
    ensures !ResolveActorBinding(b, role).Proven()
  {
    CanonicalActorsExactly(b);
    ActorIsProvenExactlyWhen(b, role);
  }
}
