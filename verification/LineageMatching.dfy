/** Which listed provider session is the governed one: the single best exact match, or none. */
module LineageMatching {
  import opened Wrappers
  import opened Text

  /** A listed session; a missing field is the empty string. */
  datatype ListedSession = ListedSession(
    name: string, repository: string, fingerprint: string, state: string, time: string, branch: string)

  datatype LineagePolicy = LineagePolicy(knownFingerprints: seq<string>, startingBranch: string)

  function Governed(policy: LineagePolicy): set<string> {
    set f | f in policy.knownFingerprints && Strip(f) != "" :: Lower(Strip(f))
  }

  /** Exact repository and a governed fingerprint. */
  predicate Exact(s: ListedSession, governed: set<string>, repository: string) {
    Lower(Strip(s.repository)) == Lower(Strip(repository)) && Lower(Strip(s.fingerprint)) in governed
  }

  predicate Terminal(state: string) {
    Upper(state) == "COMPLETED" || Upper(state) == "FAILED"
  }

  // ---------------------------------------------------------------------------
  // The sort key
  // ---------------------------------------------------------------------------

  datatype SortKey = SortKey(active: bool, time: string)

  function KeyOf(s: ListedSession): SortKey {
    SortKey(!Terminal(s.state), Strip(s.time))
  }

  /** Lexicographic order by code point. */
  predicate TextLess(a: string, b: string) {
    b != "" && (a == "" || a[0] < b[0] || (a[0] == b[0] && TextLess(a[1..], b[1..])))
  }

  predicate KeyLess(a: SortKey, b: SortKey) {
    (!a.active && b.active) || (a.active == b.active && TextLess(a.time, b.time))
  }

  lemma {:induction false} TextLessIsTotal(a: string, b: string)
    ensures !(TextLess(a, b) && TextLess(b, a))
    ensures TextLess(a, b) || TextLess(b, a) || a == b
    ensures a == b ==> !TextLess(a, b)
  {
    if a != "" && b != "" && a[0] == b[0] {
      TextLessIsTotal(a[1..], b[1..]);
      assert a == [a[0]] + a[1..] && b == [b[0]] + b[1..];
    }
  }

  lemma {:induction false} TextLessIsTransitive(a: string, b: string, c: string)
    requires TextLess(a, b) && TextLess(b, c)
    ensures TextLess(a, c)
  {
    if a != "" && a[0] == b[0] == c[0] {
      TextLessIsTransitive(a[1..], b[1..], c[1..]);
    }
  }

  lemma KeyLessIsTotal(a: SortKey, b: SortKey)
    ensures !(KeyLess(a, b) && KeyLess(b, a))
    ensures KeyLess(a, b) || KeyLess(b, a) || a == b
    ensures a == b ==> !KeyLess(a, b)
  {
    TextLessIsTotal(a.time, b.time);
  }

  lemma KeyLessIsTransitive(a: SortKey, b: SortKey, c: SortKey)
    requires KeyLess(a, b) && KeyLess(b, c)
    ensures KeyLess(a, c)
  {
    if a.active == b.active == c.active {
      TextLessIsTransitive(a.time, b.time, c.time);
    }
  }

  // ---------------------------------------------------------------------------
  // Matching
  // ---------------------------------------------------------------------------

  function Candidates(sessions: seq<ListedSession>, governed: set<string>, repository: string): seq<ListedSession> {
    if sessions == [] then []
    else
      var last := sessions[|sessions| - 1];
      var before := Candidates(sessions[..|sessions| - 1], governed, repository);
      if Exact(last, governed, repository) then before + [last] else before
  }

  function ActiveOnly(sessions: seq<ListedSession>): seq<ListedSession> {
    if sessions == [] then []
    else
      var last := sessions[|sessions| - 1];
      ActiveOnly(sessions[..|sessions| - 1]) + (if Terminal(last.state) then [] else [last])
  }

  /** Behind everything that is not smaller. */
  function InsertDescending(s: ListedSession, sorted: seq<ListedSession>): seq<ListedSession> {
    if sorted == [] || KeyLess(KeyOf(sorted[0]), KeyOf(s)) then [s] + sorted
    else [sorted[0]] + InsertDescending(s, sorted[1..])
  }

  /** Stable sorting, largest key first. */
  function SortDescending(sessions: seq<ListedSession>): seq<ListedSession> {
    if sessions == [] then []
    else InsertDescending(sessions[|sessions| - 1], SortDescending(sessions[..|sessions| - 1]))
  }

  datatype BranchMetadata = BranchAgrees | BranchMissing | BranchDrifted

  datatype Match =
    | NoFingerprintGoverned
    | NoExactMatch
    | AmbiguousMatch(count: nat)
    | ProvenMatch(session: ListedSession, branch: BranchMetadata)

  /** Branch metadata is a diagnosis and never part of the identity. */
  function BranchOf(s: ListedSession, policy: LineagePolicy): BranchMetadata {
    var expected, actual := Strip(policy.startingBranch), Strip(s.branch);
    if expected == "" || expected == actual then BranchAgrees
    else if actual == "" then BranchMissing
    else BranchDrifted
  }

  /** The only session, the only active one, or the first of the sorted ones if it stands alone. */
  function Select(candidates: seq<ListedSession>): Option<ListedSession>
    requires candidates != []
  {
    if |candidates| == 1 then Some(candidates[0])
    else
      var active := ActiveOnly(candidates);
      if |active| == 1 then Some(active[0])
      else
        var sorted := SortDescending(candidates);
        SortKeepsSessions(candidates);
        if KeyOf(sorted[1]) == KeyOf(sorted[0]) then None else Some(sorted[0])
  }

  function MatchLineageSession(sessions: seq<ListedSession>, policy: LineagePolicy, repository: string): Match {
    var governed := Governed(policy);
    if governed == {} then NoFingerprintGoverned
    else
      var candidates := Candidates(sessions, governed, repository);
      if candidates == [] then NoExactMatch
      else
        match Select(candidates)
        case None => AmbiguousMatch(|candidates|)
        case Some(s) => ProvenMatch(s, BranchOf(s, policy))
  }

  // ---------------------------------------------------------------------------
  // Sorting
  // ---------------------------------------------------------------------------

  ghost predicate Descending(s: seq<ListedSession>) {
    forall i, j :: 0 <= i < j < |s| ==> !KeyLess(KeyOf(s[i]), KeyOf(s[j]))
  }

  lemma {:induction false} InsertKeepsSessions(s: ListedSession, sorted: seq<ListedSession>)
    ensures multiset(InsertDescending(s, sorted)) == multiset(sorted) + multiset{s}
    ensures |InsertDescending(s, sorted)| == |sorted| + 1
  {
    if sorted != [] && !KeyLess(KeyOf(sorted[0]), KeyOf(s)) {
      InsertKeepsSessions(s, sorted[1..]);
      assert sorted == [sorted[0]] + sorted[1..];
    }
  }

  lemma {:induction false} SortKeepsSessions(sessions: seq<ListedSession>)
    ensures multiset(SortDescending(sessions)) == multiset(sessions)
    ensures |SortDescending(sessions)| == |sessions|
  {
    if sessions != [] {
      var n := |sessions| - 1;
      SortKeepsSessions(sessions[..n]);
      InsertKeepsSessions(sessions[n], SortDescending(sessions[..n]));
      assert sessions == sessions[..n] + [sessions[n]];
    }
  }

  lemma {:induction false} InsertKeepsOrder(s: ListedSession, sorted: seq<ListedSession>)
    requires Descending(sorted)
    ensures Descending(InsertDescending(s, sorted))
  {
    if sorted == [] {
    } else if KeyLess(KeyOf(sorted[0]), KeyOf(s)) {
      forall j | 0 <= j < |sorted| ensures !KeyLess(KeyOf(s), KeyOf(sorted[j])) {
        KeyLessIsTotal(KeyOf(sorted[0]), KeyOf(s));
        if KeyLess(KeyOf(s), KeyOf(sorted[j])) {
          KeyLessIsTransitive(KeyOf(sorted[0]), KeyOf(s), KeyOf(sorted[j]));
        }
      }
    } else {
      var rest := InsertDescending(s, sorted[1..]);
      InsertKeepsOrder(s, sorted[1..]);
      InsertKeepsSessions(s, sorted[1..]);
      forall j | 0 <= j < |rest| ensures !KeyLess(KeyOf(sorted[0]), KeyOf(rest[j])) {
        assert rest[j] in multiset(rest);
        if rest[j] != s {
          assert rest[j] in sorted[1..];
        }
      }
    }
  }

  lemma {:induction false} SortIsDescending(sessions: seq<ListedSession>)
    ensures Descending(SortDescending(sessions))
  {
    if sessions != [] {
      var n := |sessions| - 1;
      SortIsDescending(sessions[..n]);
      InsertKeepsOrder(sessions[n], SortDescending(sessions[..n]));
    }
  }

  // ---------------------------------------------------------------------------
  // What matching means
  // ---------------------------------------------------------------------------

  /** Listed once, and every other candidate has a smaller key. */
  ghost predicate UniqueMaximum(candidates: multiset<ListedSession>, s: ListedSession) {
    && candidates[s] == 1
    && forall x :: x in candidates && x != s ==> KeyLess(KeyOf(x), KeyOf(s))
  }

  /** The exact candidates of an inventory, as a multiset. */
  ghost predicate AreCandidates(candidates: multiset<ListedSession>, sessions: seq<ListedSession>, governed: set<string>,
                                repository: string)
  {
    forall x :: candidates[x] == if Exact(x, governed, repository) then multiset(sessions)[x] else 0
  }

  lemma {:induction false} CandidatesAreExact(sessions: seq<ListedSession>, governed: set<string>, repository: string)
    ensures AreCandidates(multiset(Candidates(sessions, governed, repository)), sessions, governed, repository)
  {
    if sessions != [] {
      var n := |sessions| - 1;
      CandidatesAreExact(sessions[..n], governed, repository);
      assert sessions == sessions[..n] + [sessions[n]];
    }
  }

  lemma {:induction false} ActiveOnlyExactly(sessions: seq<ListedSession>)
    ensures forall x :: multiset(ActiveOnly(sessions))[x] == if Terminal(x.state) then 0 else multiset(sessions)[x]
  {
    if sessions != [] {
      var n := |sessions| - 1;
      ActiveOnlyExactly(sessions[..n]);
      assert sessions == sessions[..n] + [sessions[n]];
    }
  }

  /** Two maxima are the same session. */
  lemma MaximumIsUnique(candidates: multiset<ListedSession>, s: ListedSession, t: ListedSession)
    requires UniqueMaximum(candidates, s) && UniqueMaximum(candidates, t)
    ensures s == t
  {
    KeyLessIsTotal(KeyOf(s), KeyOf(t));
  }

  lemma OnlyActiveIsMaximum(candidates: seq<ListedSession>)
    requires |ActiveOnly(candidates)| == 1
    ensures UniqueMaximum(multiset(candidates), ActiveOnly(candidates)[0])
  {
    ActiveOnlyExactly(candidates);
    var s := ActiveOnly(candidates)[0];
    assert ActiveOnly(candidates) == [s];
    assert multiset(ActiveOnly(candidates))[s] == 1;
    forall x | x in multiset(candidates) && x != s ensures KeyLess(KeyOf(x), KeyOf(s)) {
      assert multiset(ActiveOnly(candidates))[x] == 0;
    }
  }

  lemma SortedHeadIsMaximumExactly(candidates: seq<ListedSession>, sorted: seq<ListedSession>)
    requires |candidates| > 1 && Descending(sorted) && multiset(sorted) == multiset(candidates) && |sorted| == |candidates|
    ensures KeyOf(sorted[1]) != KeyOf(sorted[0]) ==> UniqueMaximum(multiset(candidates), sorted[0])
    ensures KeyOf(sorted[1]) == KeyOf(sorted[0]) ==> forall s :: !UniqueMaximum(multiset(candidates), s)
  {
    assert sorted == [sorted[0]] + ([sorted[1]] + sorted[2..]);
    if KeyOf(sorted[1]) != KeyOf(sorted[0]) {
      KeyLessIsTotal(KeyOf(sorted[0]), KeyOf(sorted[1]));
      forall j | 1 <= j < |sorted| ensures KeyLess(KeyOf(sorted[j]), KeyOf(sorted[0])) {
        BelowSecond(KeyOf(sorted[j]), KeyOf(sorted[1]), KeyOf(sorted[0]), j == 1);
      }
      HeadIsMaximum(sorted);
    } else {
      forall s ensures !UniqueMaximum(multiset(sorted), s) {
        TieHasNoMaximum(sorted, s);
      }
    }
  }

  lemma BelowSecond(low: SortKey, second: SortKey, top: SortKey, isSecond: bool)
    requires KeyLess(second, top) && (if isSecond then low == second else !KeyLess(second, low))
    ensures KeyLess(low, top)
  {
    KeyLessIsTotal(second, low);
    if KeyLess(low, second) {
      KeyLessIsTransitive(low, second, top);
    }
  }

  lemma HeadIsMaximum(sorted: seq<ListedSession>)
    requires sorted != []
    requires forall j :: 1 <= j < |sorted| ==> KeyLess(KeyOf(sorted[j]), KeyOf(sorted[0]))
    ensures UniqueMaximum(multiset(sorted), sorted[0])
  {
    var top, rest := sorted[0], sorted[1..];
    assert sorted == [top] + rest;
    KeyLessIsTotal(KeyOf(top), KeyOf(top));
    assert top !in rest;
  }

  lemma TieHasNoMaximum(sorted: seq<ListedSession>, s: ListedSession)
    requires |sorted| > 1 && Descending(sorted) && KeyOf(sorted[1]) == KeyOf(sorted[0])
    ensures !UniqueMaximum(multiset(sorted), s)
  {
    var first, second := sorted[0], sorted[1];
    assert sorted == [first, second] + sorted[2..];
    assert first in multiset(sorted) && second in multiset(sorted);
    KeyLessIsTotal(KeyOf(first), KeyOf(s));
    KeyLessIsTotal(KeyOf(first), KeyOf(first));
    if first == second {
      assert multiset(sorted)[first] >= 2;
    }
    if s in multiset(sorted) {
      var i :| 0 <= i < |sorted| && sorted[i] == s;
      assert i == 0 || !KeyLess(KeyOf(first), KeyOf(s));
    }
  }

  lemma SelectsMaximum(candidates: seq<ListedSession>)
    requires candidates != []
    ensures Select(candidates).Some? ==> UniqueMaximum(multiset(candidates), Select(candidates).value)
    ensures Select(candidates).None? ==> forall s :: !UniqueMaximum(multiset(candidates), s)
  {
    if |candidates| == 1 {
      assert candidates == [candidates[0]];
    } else if |ActiveOnly(candidates)| == 1 {
      OnlyActiveIsMaximum(candidates);
    } else {
      SortKeepsSessions(candidates);
      SortIsDescending(candidates);
      SortedHeadIsMaximumExactly(candidates, SortDescending(candidates));
    }
  }

  /** A match is proven exactly for the unique maximum among the exact candidates; it is ambiguous
      exactly when there are candidates and none of them is the unique maximum. */
  lemma MatchIsUniqueMaximum(sessions: seq<ListedSession>, policy: LineagePolicy, repository: string,
                             candidates: multiset<ListedSession>)
    requires AreCandidates(candidates, sessions, Governed(policy), repository)
    ensures
      var m := MatchLineageSession(sessions, policy, repository);
      && (forall s :: (m == ProvenMatch(s, BranchOf(s, policy))) <==> UniqueMaximum(candidates, s))
      && (m.AmbiguousMatch? <==> candidates != multiset{} && forall s :: !UniqueMaximum(candidates, s))
      && (m.NoFingerprintGoverned? <==> Governed(policy) == {})
      && (m.AmbiguousMatch? ==> m.count == |candidates|)
  {
    var governed := Governed(policy);
    var found := Candidates(sessions, governed, repository);
    CandidatesAreExact(sessions, governed, repository);
    assert candidates == multiset(found);
    if found != [] {
      SelectsMaximum(found);
      if Select(found).Some? {
        forall s | UniqueMaximum(candidates, s) ensures s == Select(found).value {
          MaximumIsUnique(candidates, s, Select(found).value);
        }
      }
    }
  }

  /** The text comes first by code point: it is a proper beginning of the other, or smaller where they
      first differ. */
  predicate Earlier(a: string, b: string) {
    exists k :: 0 <= k <= |a| && k < |b| && DiffersAt(a, b, k)
  }

  predicate DiffersAt(a: string, b: string, k: nat) {
    k <= |a| && k < |b| && a[..k] == b[..k] && (k == |a| || a[k] < b[k])
  }

  lemma {:induction false} TextLessIsEarlier(a: string, b: string)
    ensures TextLess(a, b) <==> Earlier(a, b)
  {
    if a == "" || b == "" || a[0] != b[0] {
      if TextLess(a, b) { assert DiffersAt(a, b, 0); }
      forall k | 0 <= k <= |a| && k < |b| && DiffersAt(a, b, k) ensures k == 0 {
        FirstIsCommon(a, b, k);
      }
    } else {
      TextLessIsEarlier(a[1..], b[1..]);
      if k :| 0 <= k <= |a[1..]| && k < |b[1..]| && DiffersAt(a[1..], b[1..], k) {
        assert a[..k + 1] == [a[0]] + a[1..][..k] && b[..k + 1] == [b[0]] + b[1..][..k];
        assert DiffersAt(a, b, k + 1);
      }
      if k :| 0 <= k <= |a| && k < |b| && DiffersAt(a, b, k) {
        assert k > 0;
        assert a[1..][..k - 1] == a[..k][1..] && b[1..][..k - 1] == b[..k][1..];
        assert DiffersAt(a[1..], b[1..], k - 1);
      }
    }
  }

  lemma FirstIsCommon(a: string, b: string, k: nat)
    requires DiffersAt(a, b, k)
    ensures k == 0 || (a != "" && b != "" && a[0] == b[0])
  {
    assert k > 0 ==> a[..k][0] == b[..k][0];
  }

  /** The session has ended. */
  predicate Ended(s: ListedSession) {
    SameUpToCase(s.state, "COMPLETED") || SameUpToCase(s.state, "FAILED")
  }

  lemma EndedExactly(s: ListedSession)
    ensures Terminal(s.state) <==> Ended(s)
  {
    UpperEqualExactlyUpToCase(s.state, "COMPLETED");
    UpperEqualExactlyUpToCase(s.state, "FAILED");
    assert Upper("COMPLETED") == "COMPLETED" && Upper("FAILED") == "FAILED";
  }

  /** The other session is preferred: it is still running while this one has ended, or they are alike in
      that and the other one is later. */
  predicate Behind(x: ListedSession, s: ListedSession) {
    (Ended(x) && !Ended(s)) || (Ended(x) == Ended(s) && Earlier(Strip(x.time), Strip(s.time)))
  }

  lemma BehindExactly(x: ListedSession, s: ListedSession)
    ensures KeyLess(KeyOf(x), KeyOf(s)) <==> Behind(x, s)
  {
    EndedExactly(x);
    EndedExactly(s);
    TextLessIsEarlier(Strip(x.time), Strip(s.time));
  }

  /** Of the lane's repository, with a fingerprint the policy knows. */
  predicate MayBeGoverned(s: ListedSession, policy: LineagePolicy, repository: string) {
    && SameUpToCase(Strip(s.repository), Strip(repository))
    && exists i :: 0 <= i < |policy.knownFingerprints| && Knows(policy.knownFingerprints[i], s.fingerprint)
  }

  predicate Knows(known: string, fingerprint: string) {
    !AllSpace(known) && SameUpToCase(Strip(known), Strip(fingerprint))
  }

  lemma GovernedExactly(s: ListedSession, policy: LineagePolicy, repository: string)
    ensures Exact(s, Governed(policy), repository) <==> MayBeGoverned(s, policy, repository)
  {
    LowerEqualExactlyUpToCase(Strip(s.repository), Strip(repository));
    if Lower(Strip(s.fingerprint)) in Governed(policy) {
      var f :| f in policy.knownFingerprints && Strip(f) != "" && Lower(Strip(f)) == Lower(Strip(s.fingerprint));
      var i :| 0 <= i < |policy.knownFingerprints| && policy.knownFingerprints[i] == f;
      StripIsEmptyExactly(f);
      LowerEqualExactlyUpToCase(Strip(f), Strip(s.fingerprint));
      assert Knows(policy.knownFingerprints[i], s.fingerprint);
    }
    if i :| 0 <= i < |policy.knownFingerprints| && Knows(policy.knownFingerprints[i], s.fingerprint) {
      var f := policy.knownFingerprints[i];
      StripIsEmptyExactly(f);
      LowerEqualExactlyUpToCase(Strip(f), Strip(s.fingerprint));
      assert Lower(Strip(f)) in Governed(policy);
    }
  }

  /** The session is listed once, may be governed, and every other listed one that may be is behind it. */
  ghost predicate StandsAlone(sessions: seq<ListedSession>, policy: LineagePolicy, repository: string, s: ListedSession) {
    && MayBeGoverned(s, policy, repository) && multiset(sessions)[s] == 1
    && forall x | x in sessions && x != s && MayBeGoverned(x, policy, repository) :: Behind(x, s)
  }

  lemma MaximumStandsAlone(sessions: seq<ListedSession>, policy: LineagePolicy, repository: string,
                           candidates: multiset<ListedSession>, s: ListedSession)
    requires AreCandidates(candidates, sessions, Governed(policy), repository)
    ensures UniqueMaximum(candidates, s) <==> StandsAlone(sessions, policy, repository, s)
  {
    GovernedExactly(s, policy, repository);
    forall x ensures (x in candidates <==> x in sessions && MayBeGoverned(x, policy, repository))
                  && (KeyLess(KeyOf(x), KeyOf(s)) <==> Behind(x, s)) {
      GovernedExactly(x, policy, repository);
      assert x in sessions <==> multiset(sessions)[x] > 0;
      BehindExactly(x, s);
    }
  }

  /** What a listing is matched to: a session is proven exactly if it stands alone in front of all others
      that may be governed; nothing is known, nothing matches, or nothing stands alone otherwise. */
  lemma MatchExactlyWhen(sessions: seq<ListedSession>, policy: LineagePolicy, repository: string)
    ensures
      var m := MatchLineageSession(sessions, policy, repository);
      var some := exists x | x in sessions :: MayBeGoverned(x, policy, repository);
      && (forall s :: m == ProvenMatch(s, BranchOf(s, policy)) <==> StandsAlone(sessions, policy, repository, s))
      && (m.AmbiguousMatch? <==> some && forall s :: !StandsAlone(sessions, policy, repository, s))
      && (m.NoFingerprintGoverned? <==> forall f | f in policy.knownFingerprints :: AllSpace(f))
      && (m.NoExactMatch? <==> !some && exists f | f in policy.knownFingerprints :: !AllSpace(f))
      && (m.ProvenMatch? ==> m.branch == BranchOf(m.session, policy))
  {
    var candidates := multiset(Candidates(sessions, Governed(policy), repository));
    CandidatesAreExact(sessions, Governed(policy), repository);
    MatchIsUniqueMaximum(sessions, policy, repository, candidates);
    forall s ensures UniqueMaximum(candidates, s) <==> StandsAlone(sessions, policy, repository, s) {
      MaximumStandsAlone(sessions, policy, repository, candidates, s);
    }
    SomeCandidateExactly(sessions, policy, repository, candidates);
    NothingGovernedExactly(policy);
    NoCandidateWithoutKnown(sessions, policy, repository);
  }

  lemma SomeCandidateExactly(sessions: seq<ListedSession>, policy: LineagePolicy, repository: string,
                             candidates: multiset<ListedSession>)
    requires AreCandidates(candidates, sessions, Governed(policy), repository)
    ensures candidates != multiset{} <==> exists x | x in sessions :: MayBeGoverned(x, policy, repository)
  {
    forall x ensures x in candidates <==> x in sessions && MayBeGoverned(x, policy, repository) {
      GovernedExactly(x, policy, repository);
      assert x in sessions <==> multiset(sessions)[x] > 0;
    }
    if candidates != multiset{} {
      var x :| x in candidates;
    }
  }

  lemma NothingGovernedExactly(policy: LineagePolicy)
    ensures Governed(policy) == {} <==> forall f | f in policy.knownFingerprints :: AllSpace(f)
  {
    forall f ensures Strip(f) == "" <==> AllSpace(f) {
      StripIsEmptyExactly(f);
    }
    if f :| f in policy.knownFingerprints && !AllSpace(f) {
      assert Lower(Strip(f)) in Governed(policy);
    }
  }

  lemma NoCandidateWithoutKnown(sessions: seq<ListedSession>, policy: LineagePolicy, repository: string)
    ensures (forall f | f in policy.knownFingerprints :: AllSpace(f)) ==>
      forall x | x in sessions :: !MayBeGoverned(x, policy, repository)
  {
    forall x | x in sessions && MayBeGoverned(x, policy, repository)
      ensures exists f | f in policy.knownFingerprints :: !AllSpace(f)
    {
      var i :| 0 <= i < |policy.knownFingerprints| && Knows(policy.knownFingerprints[i], x.fingerprint);
      assert policy.knownFingerprints[i] in policy.knownFingerprints;
    }
  }

  /** What is said of the branch of a session: it agrees unless another one is expected, and then it is
      missing or has drifted. */
  lemma BranchIsJudgedExactly(s: ListedSession, policy: LineagePolicy)
    ensures BranchOf(s, policy) == BranchAgrees <==> AllSpace(policy.startingBranch) || Strip(s.branch) == Strip(policy.startingBranch)
    ensures BranchOf(s, policy) == BranchMissing <==> !AllSpace(policy.startingBranch) && AllSpace(s.branch)
  {
    StripIsEmptyExactly(policy.startingBranch);
    StripIsEmptyExactly(s.branch);
  }

  /** The order in which the provider lists its sessions is irrelevant. */
  lemma ListingOrderIsIrrelevant(a: seq<ListedSession>, b: seq<ListedSession>, policy: LineagePolicy, repository: string)
    requires multiset(a) == multiset(b)
    ensures MatchLineageSession(a, policy, repository) == MatchLineageSession(b, policy, repository)
  {
    var candidates := multiset(Candidates(a, Governed(policy), repository));
    CandidatesAreExact(a, Governed(policy), repository);
    MatchIsUniqueMaximum(a, policy, repository, candidates);
    MatchIsUniqueMaximum(b, policy, repository, candidates);
  }

  // ---------------------------------------------------------------------------
  // The loop
  // ---------------------------------------------------------------------------

  method ExactCandidates(sessions: seq<ListedSession>, policy: LineagePolicy, repository: string)
    returns (candidates: seq<ListedSession>)
    ensures candidates == Candidates(sessions, Governed(policy), repository)
    ensures AreCandidates(multiset(candidates), sessions, Governed(policy), repository)
  {
    var expected, governed := Lower(Strip(repository)), Governed(policy);
    candidates := [];
    for i := 0 to |sessions|
      invariant candidates == Candidates(sessions[..i], governed, repository)
    {
      var s := sessions[i];
      assert sessions[..i + 1][..i] == sessions[..i];
      if Lower(Strip(s.repository)) != expected { continue; }
      if Lower(Strip(s.fingerprint)) !in governed { continue; }
      candidates := candidates + [s];
    }
    assert sessions[..|sessions|] == sessions;
    CandidatesAreExact(sessions, governed, repository);
  }
}
