/** Binding, accounting and clearing a confirmed generation, with faults at every store update, and
    the reconciliation that adopts the created session from a provider listing. */
module GenerationProtocol {
  import opened Wrappers
  import opened Text
  import opened Records
  import opened StateStore
  import opened ClaimProtocol
  import opened ClaimExecution
  import opened LaneCalls
  import opened LaneCallExecution

  // ---------------------------------------------------------------------------
  // The provider's listing
  // ---------------------------------------------------------------------------

  datatype Session = Session(repository: string, startingBranch: string, title: string, name: string)

  const MARKER_LENGTH: nat := 12

  function Bracketed(marker: string): string {
    "[" + marker + "]"
  }

  /** The title under which a generation is created. */
  function CreatedTitle(title: string, key: TransitionKey): string {
    title + " " + Bracketed(Prefix(key, MARKER_LENGTH))
  }

  predicate SessionMatches(session: Session, t: PendingTransition) {
    && Lower(session.repository) == Lower(t.repository)
    && session.startingBranch == t.startingBranch
    && Contains(session.title, Bracketed(t.marker))
    && Strip(session.name) != ""
  }

  function MatchesOf(inventory: seq<Session>, t: PendingTransition): seq<Session> {
    if inventory == [] then []
    else
      var init, last := inventory[..|inventory| - 1], inventory[|inventory| - 1];
      if SessionMatches(last, t) then MatchesOf(init, t) + [last] else MatchesOf(init, t)
  }

  method MatchingSessions(inventory: seq<Session>, t: PendingTransition) returns (result: seq<Session>)
    ensures result == MatchesOf(inventory, t)
  {
    result := [];
    for i := 0 to |inventory|
      invariant result == MatchesOf(inventory[..i], t)
    {
      assert inventory[..i + 1][..i] == inventory[..i];
      var session := inventory[i];
      if Lower(session.repository) != Lower(t.repository) { continue; }
      if session.startingBranch != t.startingBranch { continue; }
      if !Contains(session.title, Bracketed(t.marker)) { continue; }
      if Strip(session.name) == "" { continue; }
      result := result + [session];
    }
    assert inventory[..|inventory|] == inventory;
  }

  /** The bracketed marker stands in the title from some index on. */
  predicate CarriesMarker(title: string, marker: string) {
    exists i :: 0 <= i < |title| && MarkerAt(title, marker, i)
  }

  predicate MarkerAt(title: string, marker: string, i: nat) {
    && i + |marker| + 2 <= |title| && title[i] == '[' && title[i + 1 + |marker|] == ']'
    && forall j :: 0 <= j < |marker| ==> title[i + 1 + j] == marker[j]
  }

  /** A listed session that may be the one of the transition: on its repository up to case and its
      branch, named, and with its marker in the title. */
  ghost predicate MayBeOf(s: Session, t: PendingTransition) {
    && SameUpToCase(s.repository, t.repository) && s.startingBranch == t.startingBranch
    && !AllSpace(s.name) && CarriesMarker(s.title, t.marker)
  }

  lemma OccursExactlyAtMarker(title: string, marker: string, i: nat)
    ensures OccursAt(title, Bracketed(marker), i) <==> MarkerAt(title, marker, i)
  {
    var needle := Bracketed(marker);
    assert needle[0] == '[' && needle[1 + |marker|] == ']' && forall j :: 0 <= j < |marker| ==> needle[1 + j] == marker[j];
    if OccursAt(title, needle, i) {
      assert title[i] == title[i..i + |needle|][0] && title[i + 1 + |marker|] == title[i..i + |needle|][1 + |marker|];
      forall j | 0 <= j < |marker| ensures title[i + 1 + j] == marker[j] {
        assert title[i + 1 + j] == title[i..i + |needle|][1 + j];
      }
    } else if MarkerAt(title, marker, i) {
      forall j | 0 <= j < |needle| ensures title[i..i + |needle|][j] == needle[j] {
        assert 1 <= j <= |marker| ==> title[i + 1 + (j - 1)] == marker[j - 1];
      }
    }
  }

  lemma MatchesExactlyWhatMayBe(s: Session, t: PendingTransition)
    ensures SessionMatches(s, t) <==> MayBeOf(s, t)
  {
    LowerEqualExactlyUpToCase(s.repository, t.repository);
    StripIsEmptyExactly(s.name);
    if i :| 0 <= i <= |s.title| && OccursAt(s.title, Bracketed(t.marker), i) {
      OccursExactlyAtMarker(s.title, t.marker, i);
    }
    if i :| 0 <= i < |s.title| && MarkerAt(s.title, t.marker, i) {
      OccursExactlyAtMarker(s.title, t.marker, i);
    }
  }

  /** The positions, in order, at which a listing shows a session that may be the one. */
  ghost predicate ShownAt(positions: seq<nat>, inventory: seq<Session>, t: PendingTransition) {
    && (forall a, b :: 0 <= a < b < |positions| ==> positions[a] < positions[b])
    && (forall a :: 0 <= a < |positions| ==> positions[a] < |inventory| && MayBeOf(inventory[positions[a]], t))
    && (forall i :: 0 <= i < |inventory| && MayBeOf(inventory[i], t) ==> i in positions)
  }

  /** The matches are exactly the listed sessions that may be the one, in order and as often as listed. */
  lemma {:induction false} MatchesAreTheShown(inventory: seq<Session>, t: PendingTransition) returns (positions: seq<nat>)
    ensures ShownAt(positions, inventory, t) && |MatchesOf(inventory, t)| == |positions|
    ensures forall a :: 0 <= a < |positions| ==> MatchesOf(inventory, t)[a] == inventory[positions[a]]
  {
    positions := [];
    if inventory != [] {
      var n := |inventory| - 1;
      var before := MatchesAreTheShown(inventory[..n], t);
      MatchesExactlyWhatMayBe(inventory[n], t);
      if SessionMatches(inventory[n], t) {
        OneMoreShown(inventory, t, before);
        positions := before + [n];
      } else {
        NoneMoreShown(inventory, t, before);
        positions := before;
      }
    }
  }

  lemma OneMoreShown(inventory: seq<Session>, t: PendingTransition, before: seq<nat>)
    requires inventory != [] && ShownAt(before, inventory[..|inventory| - 1], t) && MayBeOf(inventory[|inventory| - 1], t)
    ensures ShownAt(before + [|inventory| - 1], inventory, t)
  {
    var n := |inventory| - 1;
    var positions := before + [n];
    forall i | 0 <= i < |inventory| && MayBeOf(inventory[i], t) ensures i in positions {
      assert i < n ==> inventory[..n][i] == inventory[i];
    }
    forall a | 0 <= a < |positions| ensures positions[a] < |inventory| && MayBeOf(inventory[positions[a]], t) {
      if a < |before| { assert inventory[..n][before[a]] == inventory[before[a]]; }
    }
    assert forall a :: 0 <= a < |before| ==> before[a] < n;
  }

  lemma NoneMoreShown(inventory: seq<Session>, t: PendingTransition, before: seq<nat>)
    requires inventory != [] && ShownAt(before, inventory[..|inventory| - 1], t) && !MayBeOf(inventory[|inventory| - 1], t)
    ensures ShownAt(before, inventory, t)
  {
    var n := |inventory| - 1;
    forall i | 0 <= i < |inventory| && MayBeOf(inventory[i], t) ensures i in before {
      assert inventory[..n][i] == inventory[i];
    }
    forall a | 0 <= a < |before| ensures before[a] < |inventory| && MayBeOf(inventory[before[a]], t) {
      assert inventory[..n][before[a]] == inventory[before[a]];
    }
  }

  /** No match exactly if no listed session may be the one; one exactly if one listing may be, and then
      that one. */
  lemma MatchCountIsShown(inventory: seq<Session>, t: PendingTransition)
    ensures MatchesOf(inventory, t) == [] <==> forall i :: 0 <= i < |inventory| ==> !MayBeOf(inventory[i], t)
    ensures |MatchesOf(inventory, t)| == 1 <==> exists i :: OnlyShown(inventory, t, i)
    ensures forall i :: OnlyShown(inventory, t, i) ==> MatchesOf(inventory, t) == [inventory[i]]
  {
    var positions := MatchesAreTheShown(inventory, t);
    if |positions| > 0 {
      assert MayBeOf(inventory[positions[0]], t);
    }
    if |positions| == 1 {
      assert OnlyShown(inventory, t, positions[0]);
    }
    forall i | OnlyShown(inventory, t, i) ensures MatchesOf(inventory, t) == [inventory[i]] {
      assert i in positions;
      var last := |positions| - 1;
      assert positions[0] == i == positions[last];
    }
  }

  /** The listing shows one session that may be the one, at `i`. */
  ghost predicate OnlyShown(inventory: seq<Session>, t: PendingTransition, i: int) {
    && 0 <= i < |inventory| && MayBeOf(inventory[i], t)
    && forall j :: 0 <= j < |inventory| && MayBeOf(inventory[j], t) ==> j == i
  }

  /** A session created for a transition is found by the marker persisted with the transition. */
  lemma CreatedSessionMatches(created: Session, t: PendingTransition, title: string)
    requires created.title == CreatedTitle(title, t.transitionKey)
    requires t.marker == Prefix(t.transitionKey, MARKER_LENGTH)
    requires created.repository == t.repository && created.startingBranch == t.startingBranch
    requires Strip(created.name) != ""
    ensures SessionMatches(created, t)
  {
    assert OccursAt(created.title, Bracketed(t.marker), |title| + 1);
  }

  // ---------------------------------------------------------------------------
  // The hand-off
  // ---------------------------------------------------------------------------

  /** The lane of a logical lineage and the lane its project is accounted on. */
  datatype Lineage = Lineage(laneId: LaneId, budgetLane: LaneId, project: string, route: string, workstreamId: string)

  function BindCall(l: Lineage, t: PendingTransition, fp: Fingerprint): LaneCall {
    BindGeneration(l.laneId, l.project, l.route, l.workstreamId, t.nextGeneration, fp, t.transitionKey)
  }

  function AccountCall(l: Lineage, t: PendingTransition, key: OperationKey): LaneCall {
    AccountGeneration(l.budgetLane, l.project, l.route, key, t.transitionKey)
  }

  function ClearCall(l: Lineage, t: PendingTransition): LaneCall {
    ClearPending(l.laneId, t.transitionKey)
  }

  /** An update may go through, raise without effect, or take effect and then raise. */
  datatype Fault = Fine | Skipped | AnswerLost

  function Suffer(doc: Doc, call: LaneCall, fault: Fault): (Doc, bool) {
    match fault
    case Fine => (CallOutcome(doc, call, []).0, CallOutcome(doc, call, []).1.Ok?)
    case Skipped => (doc, false)
    case AnswerLost => (CallOutcome(doc, call, []).0, false)
  }

  datatype HandOffFaults = HandOffFaults(bind: Fault, account: Fault, clear: Fault)

  const NO_FAULTS := HandOffFaults(Fine, Fine, Fine)

  /** Bind, account, clear; the first failure stops the sequence. */
  function HandOff(doc: Doc, l: Lineage, t: PendingTransition, fp: Fingerprint, key: OperationKey,
                   faults: HandOffFaults): (Doc, bool)
  {
    var (bound, ok1) := Suffer(doc, BindCall(l, t, fp), faults.bind);
    if !ok1 then (bound, false)
    else
      var (counted, ok2) := Suffer(bound, AccountCall(l, t, key), faults.account);
      if !ok2 then (counted, false)
      else Suffer(counted, ClearCall(l, t), faults.clear)
  }

  /** A resolution saves the operation first and the lane second; it may stop in between. */
  datatype ResolveFault = ResolveFine | NothingSaved | OperationOnly | ResolveAnswerLost

  function SufferResolve(doc: Doc, lane: LaneId, key: OperationKey, resolution: Resolution, fault: ResolveFault): (Doc, bool) {
    match fault
    case ResolveFine =>
      var (after, pc) := RunResolve(doc, lane, key, resolution, ResolveStart);
      (after, pc.Resolved?)
    case ResolveAnswerLost => (RunResolve(doc, lane, key, resolution, ResolveStart).0, false)
    case NothingSaved => (doc, false)
    case OperationOnly =>
      (match ReadOperation(doc, key)
       case Found(_, op) =>
         if op.laneId == lane && ResolveOperation(op, resolution).Ok? then
           (WriteOperation(doc, key, ResolveOperation(op, resolution).value), false)
         else (doc, false)
       case _ => (doc, false))
  }

  // ---------------------------------------------------------------------------
  // Execution after a confirmed create, and reconciliation
  // ---------------------------------------------------------------------------

  /** The hand-off after a confirmed create; a failure records UNKNOWN. */
  function FinishCreate(doc: Doc, l: Lineage, t: PendingTransition, fp: Fingerprint, key: OperationKey,
                        faults: HandOffFaults, unknown: ResolveFault): (Doc, bool)
  {
    var (after, ok) := HandOff(doc, l, t, fp, key, faults);
    if ok then (after, true)
    else (SufferResolve(after, l.laneId, key, RecordUnknown(map[]), unknown).0, false)
  }

  datatype ReconcileDecision =
    | UnknownNotYetObserved
    | AmbiguousDuplicate
    | BindingRequired
    | Reconciled(fingerprint: Fingerprint)
    | ReconcileRaised

  datatype ReconcileFaults = ReconcileFaults(readback: ResolveFault, handOff: HandOffFaults, unknown: ResolveFault)

  const NO_RECONCILE_FAULTS := ReconcileFaults(ResolveFine, NO_FAULTS, ResolveFine)

  predicate CompletePending(t: PendingTransition) {
    && t.repository != "" && t.sourceName != "" && t.startingBranch != "" && t.marker != ""
    && t.transitionKey != "" && t.nextGeneration >= 1
  }

  /** The operation and transition an UNKNOWN generation lane waits for. */
  function PendingState(doc: Doc, lane: LaneId): Option<(OperationKey, PendingTransition)> {
    match ReadLane(doc, lane)
    case Found(_, r) =>
      if r.unknownWrite.Some? && r.evidence.pending.Some? && CompletePending(r.evidence.pending.value)
      then Some((r.unknownWrite.value, r.evidence.pending.value)) else None
    case _ => None
  }

  /** Adopts the one matching session; never issues a second create. */
  function Reconcile(doc: Doc, l: Lineage, inventory: seq<Session>, faults: ReconcileFaults): (Doc, ReconcileDecision) {
    match PendingState(doc, l.laneId)
    case None => (doc, ReconcileRaised)
    case Some((key, t)) =>
      var matches := MatchesOf(inventory, t);
      if matches == [] then (doc, UnknownNotYetObserved)
      else if |matches| != 1 then (doc, AmbiguousDuplicate)
      else
        var fp := SessionFingerprint(matches[0].name);
        var (confirmed, ok) := SufferResolve(doc, l.laneId, key, ReadBack(Some(true), map[]), faults.readback);
        if !ok then (confirmed, ReconcileRaised)
        else
          var (after, done) := HandOff(confirmed, l, t, fp, key, faults.handOff);
          if done then (after, Reconciled(fp))
          else
            var (saved, recorded) := SufferResolve(after, l.laneId, key, RecordUnknown(map[]), faults.unknown);
            (saved, if recorded then BindingRequired else ReconcileRaised)
  }

  datatype Attempt = Attempt(inventory: seq<Session>, faults: ReconcileFaults)

  /** Reconciliations one after the other. */
  function Attempts(doc: Doc, l: Lineage, attempts: seq<Attempt>): Doc {
    if attempts == [] then doc
    else
      var last := attempts[|attempts| - 1];
      Reconcile(Attempts(doc, l, attempts[..|attempts| - 1]), l, last.inventory, last.faults).0
  }
}
