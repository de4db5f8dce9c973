/** The recovery of a generation among rivals: whatever other runners write between any two store calls,
    as long as they leave the lane's evidence, its UNKNOWN mark, the operation and the retention of its
    count alone, they do no more than a fault would, so the recovery converges among them as well. */
module RivalRecovery {
  import opened Wrappers
  import opened Records
  import opened StateStore
  import opened ClaimProtocol
  import opened ClaimExecution
  import opened LaneCalls
  import opened LaneCallExecution
  import opened ControlSystem
  import opened ControlInvariants
  import opened GenerationProtocol
  import opened GenerationConvergence

  /** What the rivals make of the document between two store calls. */
  type Drift = Doc -> Doc

  // ---------------------------------------------------------------------------
  // What rivals leave alone
  // ---------------------------------------------------------------------------

  /** What the recovery of a generation depends on: the lane's evidence and UNKNOWN mark, whether the
      generation is counted and its count still in the window, and the operation. */
  datatype View = View(evidence: Evidence, unknown: Option<OperationKey>, counted: bool, version: nat, operation: OperationRecord)

  /** A lane on which the generation is being recovered. */
  predicate Recovering(doc: Doc, l: Lineage, t: PendingTransition, key: OperationKey) {
    && l.budgetLane != l.laneId && CompletePending(t)
    && ReadLane(doc, l.laneId).Found? && !ReadLane(doc, l.budgetLane).Corrupt?
    && (EvidenceAt(doc, l.laneId).pending == None || EvidenceAt(doc, l.laneId).pending == Some(t))
    && (ReadLane(doc, l.laneId).record.unknownWrite == None || ReadLane(doc, l.laneId).record.unknownWrite == Some(key))
    && ReadOperation(doc, key).Found? && ReadOperation(doc, key).record.laneId == l.laneId
  }

  function ViewOf(doc: Doc, l: Lineage, t: PendingTransition, key: OperationKey): Option<View> {
    if Recovering(doc, l, t, key) then
      Some(View(EvidenceAt(doc, l.laneId), ReadLane(doc, l.laneId).record.unknownWrite,
                AlreadyAccounted(EvidenceAt(doc, l.budgetLane).accounting, key, t.transitionKey),
                ReadOperation(doc, key).version, ReadOperation(doc, key).record))
    else None
  }

  function Viewer(l: Lineage, t: PendingTransition, key: OperationKey): Doc -> Option<View> {
    (doc: Doc) => ViewOf(doc, l, t, key)
  }

  /** The drift leaves the view alone and rewrites no version. */
  ghost predicate Benign<V(!new)>(drift: Drift, view: Doc -> V) {
    forall doc :: view(drift(doc)) == view(doc) && NoRewrite(doc, drift(doc))
  }

  lemma SameIsNoRewrite(doc: Doc)
    ensures NoRewrite(doc, doc)
  {
  }

  /** No interference that leaves the view alone and rewrites no version is left out: there is a benign
      drift that does just that. */
  lemma InterferenceIsADrift<V(!new)>(before: Doc, after: Doc, view: Doc -> V) returns (drift: Drift)
    requires view(after) == view(before) && NoRewrite(before, after)
    ensures Benign(drift, view) && drift(before) == after
  {
    drift := doc => if doc == before then after else doc;
    forall doc ensures view(drift(doc)) == view(doc) && NoRewrite(doc, drift(doc)) {
      SameIsNoRewrite(doc);
    }
  }

  /** So every stretch of a run that leaves the view alone is a drift, whatever it does besides. */
  lemma StretchOfRunIsADrift<V(!new)>(run: seq<Action>, n: nat, view: Doc -> V) returns (drift: Drift)
    requires Legal(run) && n <= |run| && Legal(run[..n])
    requires view(After(run[..n]).doc) == view(After(run).doc)
    ensures Benign(drift, view) && drift(After(run[..n]).doc) == After(run).doc
  {
    VersionNamesContents(run, n);
    drift := InterferenceIsADrift(After(run[..n]).doc, After(run).doc, view);
  }

  /** Every lane write is such interference that keeps evidence and UNKNOWN mark of the lane and, on the
      counter's lane, whether the generation is counted; counting other generations is. */
  lemma LaneWriteKeepsView(doc: Doc, lane: LaneId, record: LaneRecord, l: Lineage, t: PendingTransition, key: OperationKey)
    requires ViewOf(doc, l, t, key).Some? && record.laneId == lane
    requires lane == l.laneId ==>
      record.evidence == EvidenceAt(doc, lane) && record.unknownWrite == ReadLane(doc, lane).record.unknownWrite
    requires lane == l.budgetLane ==>
      (AlreadyAccounted(record.evidence.accounting, key, t.transitionKey)
       <==> AlreadyAccounted(EvidenceAt(doc, lane).accounting, key, t.transitionKey))
    ensures ViewOf(WriteLane(doc, lane, record), l, t, key) == ViewOf(doc, l, t, key)
    ensures NoRewrite(doc, WriteLane(doc, lane, record))
  {
  }

  // ---------------------------------------------------------------------------
  // One update among rivals
  // ---------------------------------------------------------------------------

  /** Rivals strike before an update and during each of its attempts. */
  datatype CallRivals = CallRivals(before: Drift, during: nat -> Drift)

  ghost predicate BenignCall<V(!new)>(r: CallRivals, view: Doc -> V) {
    Benign(r.before, view) && BenignSteps(r.during, view)
  }

  ghost predicate BenignSteps<V(!new)>(r: nat -> Drift, view: Doc -> V) {
    forall n: nat :: Benign(r(n), view)
  }

  /** Read, plan, swap; re-read after a version conflict, at most `limit` times. */
  function Contended(doc: Doc, lane: LaneId, planner: Planner, limit: nat, during: nat -> Drift, attempt: nat)
    : (Doc, Result<Status, StoreError>)
    requires attempt < limit
    decreases limit - attempt
  {
    match planner(ReadLane(doc, lane))
    case Answer(status) => (doc, Ok(status))
    case Raise(e) => (doc, Err(e))
    case Write(expected, record, onSuccess) =>
      var now := during(attempt)(doc);
      match LaneSwapError(now, lane, expected, record)
      case None => (WriteLane(now, lane, record), Ok(onSuccess))
      case Some(e) =>
        if e == VersionConflict && attempt + 1 < limit then Contended(now, lane, planner, limit, during, attempt + 1)
        else (now, Err(e))
  }

  /** The loop of the lane updates, with rivals that write what they like instead of given records. */
  lemma {:induction false} RetryIsContended(doc: Doc, lane: LaneId, planner: Planner, limit: nat, rivals: seq<Batch>, attempt: nat)
    requires attempt < limit
    ensures Retry(doc, lane, planner, limit, rivals, attempt) == Contended(doc, lane, planner, limit, DriftsOf(rivals), attempt)
    decreases limit - attempt
  {
    if attempt + 1 < limit {
      RetryIsContended(Applied(doc, BatchAt(rivals, attempt)), lane, planner, limit, rivals, attempt + 1);
    }
  }

  function DriftsOf(rivals: seq<Batch>): nat -> Drift {
    (n: nat) => (doc: Doc) => Applied(doc, BatchAt(rivals, n))
  }

  /** An update among rivals ends as planned on a document they left, or gives up and leaves that one. */
  lemma {:induction false} ContendedEndsAsPlanned<V(!new)>(doc: Doc, lane: LaneId, planner: Planner, limit: nat,
                                                           during: nat -> Drift, attempt: nat, view: Doc -> V)
    returns (before: Doc)
    requires attempt < limit && WritesAtReadVersion(planner, lane) && BenignSteps(during, view)
    ensures view(before) == view(doc)
    ensures
      var (after, result) := Contended(doc, lane, planner, limit, during, attempt);
      EndsAsPlanned(before, lane, planner, after, result) || (after == before && result.Err?)
    decreases limit - attempt
  {
    before := doc;
    if planner(ReadLane(doc, lane)).Write? {
      before := during(attempt)(doc);
      assert view(before) == view(doc) && NoRewrite(doc, before) by {
        assert Benign(during(attempt), view);
      }
      if LaneVersion(before, lane) == LaneVersion(doc, lane) {
        assert ReadLane(before, lane) == ReadLane(doc, lane);
      } else if attempt + 1 < limit {
        before := ContendedEndsAsPlanned(before, lane, planner, limit, during, attempt + 1, view);
      }
    }
  }

  function CallAmong(doc: Doc, call: LaneCall, r: CallRivals): (Doc, Result<Status, StoreError>) {
    Contended(r.before(doc), call.laneId, PlannerOf(call), MaxAttempts(call), r.during, 0)
  }

  function SufferAmong(doc: Doc, call: LaneCall, fault: Fault, r: CallRivals): (Doc, bool) {
    match fault
    case Fine => (CallAmong(doc, call, r).0, CallAmong(doc, call, r).1.Ok?)
    case Skipped => (r.before(doc), false)
    case AnswerLost => (CallAmong(doc, call, r).0, false)
  }

  lemma PlannedOnce(before: Doc, lane: LaneId, planner: Planner, x: (Doc, Result<Status, StoreError>), y: (Doc, Result<Status, StoreError>))
    requires EndsAsPlanned(before, lane, planner, x.0, x.1) && EndsAsPlanned(before, lane, planner, y.0, y.1)
    ensures x == y
  {
  }

  /** An update among rivals is the update alone on a document they left, or changes nothing. */
  lemma CallAmongIsCallOrNothing<V(!new)>(doc: Doc, call: LaneCall, r: CallRivals, view: Doc -> V) returns (before: Doc)
    requires BenignCall(r, view)
    ensures view(before) == view(doc)
    ensures CallAmong(doc, call, r) == CallOutcome(before, call, [])
         || (CallAmong(doc, call, r).0 == before && CallAmong(doc, call, r).1.Err?)
  {
    CallsWriteAtReadVersion(call);
    var drifted := r.before(doc);
    assert view(drifted) == view(doc);
    var planner, limit := PlannerOf(call), MaxAttempts(call);
    before := ContendedEndsAsPlanned(drifted, call.laneId, planner, limit, r.during, 0, view);
    AloneEndsAsPlanned(before, call);
    if EndsAsPlanned(before, call.laneId, planner, CallAmong(doc, call, r).0, CallAmong(doc, call, r).1) {
      PlannedOnce(before, call.laneId, planner, CallAmong(doc, call, r), CallOutcome(before, call, []));
    }
  }

  /** Rivals do no more than a fault would. */
  lemma RivalsActAsFault<V(!new)>(doc: Doc, call: LaneCall, fault: Fault, r: CallRivals, view: Doc -> V)
    returns (before: Doc, alike: Fault)
    requires BenignCall(r, view)
    ensures view(before) == view(doc) && SufferAmong(doc, call, fault, r) == Suffer(before, call, alike)
  {
    alike := fault;
    if fault == Skipped {
      before := r.before(doc);
    } else {
      before := CallAmongIsCallOrNothing(doc, call, r, view);
      if CallAmong(doc, call, r) != CallOutcome(before, call, []) { alike := Skipped; }
    }
  }

  // ---------------------------------------------------------------------------
  // What the updates make of the view
  // ---------------------------------------------------------------------------

  /** Two runs end alike: with the same view, and both well or both badly. */
  predicate SameEnd(x: (Doc, bool), y: (Doc, bool), view: Doc -> Option<View>) {
    view(x.0) == view(y.0) && view(x.0).Some? && x.1 == y.1
  }

  /** The view after a binding, if it goes through. */
  function BoundView(v: View, t: PendingTransition, fp: Fingerprint): Option<View> {
    var e := v.evidence;
    if e.generation == t.nextGeneration && e.fingerprint.Some? then
      if e.fingerprint == Some(fp) && (e.transitionKey == None || e.transitionKey == Some(t.transitionKey)) then Some(v) else None
    else if e.generation > t.nextGeneration || (e.generation != 0 && t.nextGeneration != e.generation + 1) then None
    else Some(v.(evidence := BoundEvidence(e, t, fp), unknown := None))
  }

  lemma BindMakesBoundView(a: Doc, l: Lineage, t: PendingTransition, fp: Fingerprint, key: OperationKey)
    requires ViewOf(a, l, t, key).Some?
    ensures
      var (after, result) := CallOutcome(a, BindCall(l, t, fp), []);
      var v := ViewOf(a, l, t, key).value;
      && (result.Ok? <==> BoundView(v, t, fp).Some?)
      && ViewOf(after, l, t, key) == if result.Ok? then BoundView(v, t, fp) else Some(v)
  {
    AloneEndsAsPlanned(a, BindCall(l, t, fp));
  }

  lemma BindSeesView(a: Doc, b: Doc, l: Lineage, t: PendingTransition, fp: Fingerprint, key: OperationKey, fault: Fault)
    requires ViewOf(a, l, t, key).Some? && ViewOf(a, l, t, key) == ViewOf(b, l, t, key)
    ensures SameEnd(Suffer(a, BindCall(l, t, fp), fault), Suffer(b, BindCall(l, t, fp), fault), Viewer(l, t, key))
  {
    BindMakesBoundView(a, l, t, fp, key);
    BindMakesBoundView(b, l, t, fp, key);
  }

  /** What accounting makes of the view: the generation is counted. */
  lemma AccountMarksCounted(a: Doc, l: Lineage, t: PendingTransition, key: OperationKey)
    requires ViewOf(a, l, t, key).Some?
    ensures
      var (after, result) := CallOutcome(a, AccountCall(l, t, key), []);
      result.Ok? && ViewOf(after, l, t, key) == Some(ViewOf(a, l, t, key).value.(counted := true))
  {
    AloneEndsAsPlanned(a, AccountCall(l, t, key));
    WindowedKeepsNewest(EvidenceAt(a, l.budgetLane).accounting.operations, key);
  }

  lemma AccountSeesView(a: Doc, b: Doc, l: Lineage, t: PendingTransition, key: OperationKey, fault: Fault)
    requires ViewOf(a, l, t, key).Some? && ViewOf(a, l, t, key) == ViewOf(b, l, t, key)
    ensures SameEnd(Suffer(a, AccountCall(l, t, key), fault), Suffer(b, AccountCall(l, t, key), fault), Viewer(l, t, key))
  {
    AccountMarksCounted(a, l, t, key);
    AccountMarksCounted(b, l, t, key);
  }

  lemma ClearDropsMark(a: Doc, l: Lineage, t: PendingTransition, key: OperationKey)
    requires ViewOf(a, l, t, key).Some?
    ensures
      var (after, result) := CallOutcome(a, ClearCall(l, t), []);
      var v := ViewOf(a, l, t, key).value;
      result.Ok? && ViewOf(after, l, t, key) == Some(v.(evidence := v.evidence.(pending := None)))
  {
    AloneEndsAsPlanned(a, ClearCall(l, t));
  }

  lemma ClearSeesView(a: Doc, b: Doc, l: Lineage, t: PendingTransition, key: OperationKey, fault: Fault)
    requires ViewOf(a, l, t, key).Some? && ViewOf(a, l, t, key) == ViewOf(b, l, t, key)
    ensures SameEnd(Suffer(a, ClearCall(l, t), fault), Suffer(b, ClearCall(l, t), fault), Viewer(l, t, key))
  {
    ClearDropsMark(a, l, t, key);
    ClearDropsMark(b, l, t, key);
  }

  // ---------------------------------------------------------------------------
  // The hand-off among rivals
  // ---------------------------------------------------------------------------

  datatype HandOffRivals = HandOffRivals(bind: CallRivals, account: CallRivals, clear: CallRivals)

  ghost predicate BenignHandOff(r: HandOffRivals, view: Doc -> Option<View>) {
    BenignCall(r.bind, view) && BenignCall(r.account, view) && BenignCall(r.clear, view)
  }

  function AccountAndClearAmong(doc: Doc, l: Lineage, t: PendingTransition, key: OperationKey, faults: HandOffFaults, r: HandOffRivals)
    : (Doc, bool)
  {
    var (counted, ok) := SufferAmong(doc, AccountCall(l, t, key), faults.account, r.account);
    if !ok then (counted, false) else SufferAmong(counted, ClearCall(l, t), faults.clear, r.clear)
  }

  /** Bind, account, clear; the first failure stops the sequence. */
  function HandOffAmong(doc: Doc, l: Lineage, t: PendingTransition, fp: Fingerprint, key: OperationKey,
                        faults: HandOffFaults, r: HandOffRivals): (Doc, bool)
  {
    var (bound, ok) := SufferAmong(doc, BindCall(l, t, fp), faults.bind, r.bind);
    if !ok then (bound, false) else AccountAndClearAmong(bound, l, t, key, faults, r)
  }

  lemma BindActsAsFault(doc: Doc, alone: Doc, l: Lineage, t: PendingTransition, fp: Fingerprint, key: OperationKey,
                        fault: Fault, r: CallRivals) returns (alike: Fault)
    requires ViewOf(doc, l, t, key).Some? && ViewOf(doc, l, t, key) == ViewOf(alone, l, t, key)
    requires BenignCall(r, Viewer(l, t, key))
    ensures SameEnd(SufferAmong(doc, BindCall(l, t, fp), fault, r), Suffer(alone, BindCall(l, t, fp), alike), Viewer(l, t, key))
  {
    var before;
    before, alike := RivalsActAsFault(doc, BindCall(l, t, fp), fault, r, Viewer(l, t, key));
    assert ViewOf(before, l, t, key) == Viewer(l, t, key)(before) == Viewer(l, t, key)(doc);
    BindSeesView(before, alone, l, t, fp, key, alike);
  }

  lemma AccountActsAsFault(doc: Doc, alone: Doc, l: Lineage, t: PendingTransition, key: OperationKey, fault: Fault, r: CallRivals)
    returns (alike: Fault)
    requires ViewOf(doc, l, t, key).Some? && ViewOf(doc, l, t, key) == ViewOf(alone, l, t, key)
    requires BenignCall(r, Viewer(l, t, key))
    ensures SameEnd(SufferAmong(doc, AccountCall(l, t, key), fault, r), Suffer(alone, AccountCall(l, t, key), alike), Viewer(l, t, key))
  {
    var before;
    before, alike := RivalsActAsFault(doc, AccountCall(l, t, key), fault, r, Viewer(l, t, key));
    assert ViewOf(before, l, t, key) == Viewer(l, t, key)(before) == Viewer(l, t, key)(doc);
    AccountSeesView(before, alone, l, t, key, alike);
  }

  lemma ClearActsAsFault(doc: Doc, alone: Doc, l: Lineage, t: PendingTransition, key: OperationKey, fault: Fault, r: CallRivals)
    returns (alike: Fault)
    requires ViewOf(doc, l, t, key).Some? && ViewOf(doc, l, t, key) == ViewOf(alone, l, t, key)
    requires BenignCall(r, Viewer(l, t, key))
    ensures SameEnd(SufferAmong(doc, ClearCall(l, t), fault, r), Suffer(alone, ClearCall(l, t), alike), Viewer(l, t, key))
  {
    var before;
    before, alike := RivalsActAsFault(doc, ClearCall(l, t), fault, r, Viewer(l, t, key));
    assert ViewOf(before, l, t, key) == Viewer(l, t, key)(before) == Viewer(l, t, key)(doc);
    ClearSeesView(before, alone, l, t, key, alike);
  }

  lemma AccountAndClearActAsFaults(doc: Doc, alone: Doc, l: Lineage, t: PendingTransition, key: OperationKey,
                                   faults: HandOffFaults, r: HandOffRivals) returns (alike: HandOffFaults)
    requires ViewOf(doc, l, t, key).Some? && ViewOf(doc, l, t, key) == ViewOf(alone, l, t, key)
    requires BenignHandOff(r, Viewer(l, t, key))
    ensures SameEnd(AccountAndClearAmong(doc, l, t, key, faults, r), AccountAndClear(alone, l, t, key, alike), Viewer(l, t, key))
  {
    var account := AccountActsAsFault(doc, alone, l, t, key, faults.account, r.account);
    alike := faults.(account := account);
    var (counted, ok) := SufferAmong(doc, AccountCall(l, t, key), faults.account, r.account);
    if ok {
      var clear := ClearActsAsFault(counted, Suffer(alone, AccountCall(l, t, key), account).0, l, t, key, faults.clear, r.clear);
      alike := alike.(clear := clear);
    }
  }

  /** A hand-off among rivals is, as far as the view goes, one without rivals under other faults. */
  lemma HandOffActsAsFaults(doc: Doc, alone: Doc, l: Lineage, t: PendingTransition, fp: Fingerprint, key: OperationKey,
                            faults: HandOffFaults, r: HandOffRivals) returns (alike: HandOffFaults)
    requires ViewOf(doc, l, t, key).Some? && ViewOf(doc, l, t, key) == ViewOf(alone, l, t, key)
    requires BenignHandOff(r, Viewer(l, t, key))
    ensures SameEnd(HandOffAmong(doc, l, t, fp, key, faults, r), HandOff(alone, l, t, fp, key, alike), Viewer(l, t, key))
  {
    var bind := BindActsAsFault(doc, alone, l, t, fp, key, faults.bind, r.bind);
    alike := faults.(bind := bind);
    var (bound, ok) := SufferAmong(doc, BindCall(l, t, fp), faults.bind, r.bind);
    if ok {
      var boundAlone := Suffer(alone, BindCall(l, t, fp), bind).0;
      var rest := AccountAndClearActAsFaults(bound, boundAlone, l, t, key, faults, r);
      alike := rest.(bind := bind);
      assert HandOff(alone, l, t, fp, key, alike) == AccountAndClear(boundAlone, l, t, key, rest);
    }
  }

  // ---------------------------------------------------------------------------
  // Resolutions among rivals
  // ---------------------------------------------------------------------------

  /** One step of a resolution, rivals first. */
  function ResolveStepAmong(doc: Doc, lane: LaneId, key: OperationKey, resolution: Resolution, pc: ResolvePc, drift: Drift)
    : (Doc, ResolvePc)
  {
    var step := StepResolve(drift(doc), lane, key, resolution, pc);
    (Apply(drift(doc), step.change), step.pc)
  }

  /** Two steps: reading and saving the operation, or reading and saving the lane. */
  function TwoStepsAmong(doc: Doc, lane: LaneId, key: OperationKey, resolution: Resolution, pc: ResolvePc, first: Drift, second: Drift)
    : (Doc, ResolvePc)
  {
    var (read, next) := ResolveStepAmong(doc, lane, key, resolution, pc, first);
    ResolveStepAmong(read, lane, key, resolution, next, second)
  }

  function ResolveAmong(doc: Doc, lane: LaneId, key: OperationKey, resolution: Resolution, fault: ResolveFault, r: nat -> Drift)
    : (Doc, bool)
  {
    if fault == NothingSaved then (r(0)(doc), false)
    else
      var (saved, pc) := TwoStepsAmong(doc, lane, key, resolution, ResolveStart, r(0), r(1));
      if fault == OperationOnly then (saved, false)
      else
        var (after, end) := TwoStepsAmong(saved, lane, key, resolution, pc, r(2), r(3));
        (after, fault == ResolveFine && end.Resolved?)
  }

  /** The view once the operation was saved. */
  function SavedView(v: View, resolution: Resolution): View {
    match ResolveOperation(v.operation, resolution)
    case Ok(op) => v.(version := v.version + 1, operation := op)
    case Err(_) => v
  }

  /** The view once the lane was saved as well. */
  function ResolvedView(v: View, key: OperationKey, resolution: Resolution): View {
    if ResolveOperation(v.operation, resolution).Err? then v
    else SavedView(v, resolution).(unknown := MarkAfter(key, resolution))
  }

  function MarkAfter(key: OperationKey, resolution: Resolution): Option<OperationKey> {
    if resolution.RecordUnknown? || resolution.observed.None? then Some(key) else None
  }

  /** What a save of the operation makes of the view when rivals strike between its read and its write. */
  lemma SaveMakesSavedView(first: Doc, second: Doc, l: Lineage, t: PendingTransition, key: OperationKey, resolution: Resolution)
    requires ViewOf(first, l, t, key).Some? && ViewOf(second, l, t, key) == ViewOf(first, l, t, key)
    ensures
      var read := StepResolve(first, l.laneId, key, resolution, ResolveStart);
      var save := StepResolve(second, l.laneId, key, resolution, read.pc);
      var v := ViewOf(first, l, t, key).value;
      && read.change == NoChange
      && ViewOf(Apply(second, save.change), l, t, key) == Some(SavedView(v, resolution))
      && (match ResolveOperation(v.operation, resolution)
          case Ok(op) => save.pc == OperationSaved(op)
          case Err(_) => save.pc.ResolveFailed?)
  {
  }

  /** And a save of the lane: it goes through, or the rivals wrote the lane and nothing changes. */
  lemma LinkMakesResolvedView(third: Doc, fourth: Doc, l: Lineage, t: PendingTransition, key: OperationKey,
                              resolution: Resolution, op: OperationRecord)
    requires ViewOf(third, l, t, key).Some? && ViewOf(fourth, l, t, key) == ViewOf(third, l, t, key) && NoRewrite(third, fourth)
    ensures
      var read := StepResolve(third, l.laneId, key, resolution, OperationSaved(op));
      var link := StepResolve(fourth, l.laneId, key, resolution, read.pc);
      var v := ViewOf(third, l, t, key).value;
      && read.change == NoChange
      && (link.pc.Resolved? || link.pc.ResolveFailed?)
      && ViewOf(Apply(fourth, link.change), l, t, key)
         == Some(if link.pc.Resolved? then v.(unknown := MarkAfter(key, resolution)) else v)
  {
  }

  lemma SaveAmong(doc: Doc, l: Lineage, t: PendingTransition, key: OperationKey, resolution: Resolution, first: Drift, second: Drift)
    requires ViewOf(doc, l, t, key).Some? && Benign(first, Viewer(l, t, key)) && Benign(second, Viewer(l, t, key))
    ensures
      var (saved, pc) := TwoStepsAmong(doc, l.laneId, key, resolution, ResolveStart, first, second);
      var v := ViewOf(doc, l, t, key).value;
      && ViewOf(saved, l, t, key) == Some(SavedView(v, resolution))
      && (match ResolveOperation(v.operation, resolution)
          case Ok(op) => pc == OperationSaved(op)
          case Err(_) => pc.ResolveFailed?)
  {
    var one := first(doc);
    var two := second(one);
    assert Viewer(l, t, key)(two) == Viewer(l, t, key)(one) == Viewer(l, t, key)(doc);
    SaveMakesSavedView(one, two, l, t, key, resolution);
  }

  lemma LinkAmong(doc: Doc, l: Lineage, t: PendingTransition, key: OperationKey, resolution: Resolution, op: OperationRecord,
                  third: Drift, fourth: Drift)
    requires ViewOf(doc, l, t, key).Some? && Benign(third, Viewer(l, t, key)) && Benign(fourth, Viewer(l, t, key))
    ensures
      var (after, end) := TwoStepsAmong(doc, l.laneId, key, resolution, OperationSaved(op), third, fourth);
      var v := ViewOf(doc, l, t, key).value;
      ViewOf(after, l, t, key) == Some(if end.Resolved? then v.(unknown := MarkAfter(key, resolution)) else v)
  {
    var three := third(doc);
    var four := fourth(three);
    assert Viewer(l, t, key)(four) == Viewer(l, t, key)(three) == Viewer(l, t, key)(doc);
    LinkMakesResolvedView(three, four, l, t, key, resolution, op);
  }

  lemma FailedStaysFailed(doc: Doc, l: Lineage, t: PendingTransition, key: OperationKey, resolution: Resolution, pc: ResolvePc,
                          third: Drift, fourth: Drift)
    requires pc.ResolveFailed? && Benign(third, Viewer(l, t, key)) && Benign(fourth, Viewer(l, t, key))
    ensures
      var (after, end) := TwoStepsAmong(doc, l.laneId, key, resolution, pc, third, fourth);
      ViewOf(after, l, t, key) == ViewOf(doc, l, t, key) && end == pc
  {
    assert Viewer(l, t, key)(fourth(third(doc))) == Viewer(l, t, key)(third(doc)) == Viewer(l, t, key)(doc);
  }

  lemma SaveAlone(doc: Doc, l: Lineage, t: PendingTransition, key: OperationKey, resolution: Resolution)
    requires ViewOf(doc, l, t, key).Some?
    ensures
      var v := ViewOf(doc, l, t, key).value;
      ViewOf(SufferResolve(doc, l.laneId, key, resolution, OperationOnly).0, l, t, key) == Some(SavedView(v, resolution))
  {
  }

  lemma LinkAlone(saved: Doc, l: Lineage, t: PendingTransition, key: OperationKey, resolution: Resolution, op: OperationRecord)
    requires ViewOf(saved, l, t, key).Some?
    ensures
      var linked := WriteLane(saved, l.laneId, ResolveLane(ReadLane(saved, l.laneId).record, key, op, resolution));
      ViewOf(linked, l, t, key) == Some(ViewOf(saved, l, t, key).value.(unknown := MarkAfter(key, resolution)))
  {
  }

  /** What a resolution without rivals makes of the view. */
  lemma AloneMakesResolvedView(doc: Doc, l: Lineage, t: PendingTransition, key: OperationKey, resolution: Resolution)
    requires ViewOf(doc, l, t, key).Some?
    ensures
      var v := ViewOf(doc, l, t, key).value;
      var (after, ok) := SufferResolve(doc, l.laneId, key, resolution, ResolveFine);
      && (ok <==> ResolveOperation(v.operation, resolution).Ok?)
      && ViewOf(after, l, t, key) == Some(ResolvedView(v, key, resolution))
  {
    var op := ResolveOperation(ReadOperation(doc, key).record, resolution);
    ResolveAlone(doc, l.laneId, key, resolution);
    SaveAlone(doc, l, t, key, resolution);
    if op.Ok? {
      assert ReadLane(WriteOperation(doc, key, op.value), l.laneId) == ReadLane(doc, l.laneId);
      LinkAlone(WriteOperation(doc, key, op.value), l, t, key, resolution, op.value);
    }
  }

  /** A resolution among rivals is, as far as the view goes, one without rivals under some fault. */
  lemma ResolveActsAsFault(doc: Doc, alone: Doc, l: Lineage, t: PendingTransition, key: OperationKey, resolution: Resolution,
                           fault: ResolveFault, r: nat -> Drift) returns (alike: ResolveFault)
    requires ViewOf(doc, l, t, key).Some? && ViewOf(doc, l, t, key) == ViewOf(alone, l, t, key)
    requires BenignSteps(r, Viewer(l, t, key))
    ensures SameEnd(ResolveAmong(doc, l.laneId, key, resolution, fault, r), SufferResolve(alone, l.laneId, key, resolution, alike),
                    Viewer(l, t, key))
  {
    alike := fault;
    assert forall n: nat :: Benign(r(n), Viewer(l, t, key));
    AloneMakesResolvedView(alone, l, t, key, resolution);
    SaveAlone(alone, l, t, key, resolution);
    if fault == NothingSaved {
      assert Viewer(l, t, key)(r(0)(doc)) == Viewer(l, t, key)(doc);
    } else {
      SaveAmong(doc, l, t, key, resolution, r(0), r(1));
      var (saved, pc) := TwoStepsAmong(doc, l.laneId, key, resolution, ResolveStart, r(0), r(1));
      if pc.OperationSaved? && fault != OperationOnly {
        LinkAmong(saved, l, t, key, resolution, pc.operation, r(2), r(3));
        if !TwoStepsAmong(saved, l.laneId, key, resolution, pc, r(2), r(3)).1.Resolved? { alike := OperationOnly; }
      } else if fault != OperationOnly {
        FailedStaysFailed(saved, l, t, key, resolution, pc, r(2), r(3));
      }
    }
  }
}
