/** How the functions of the generation protocol end when they never call the provider, and what the
    reconciliations do after their look at the store, in every run. */
module ScriptEnds {
  import opened Wrappers
  import opened Text
  import opened Records
  import opened StateStore
  import opened ClaimProtocol
  import opened LaneCalls
  import opened EffectKeys
  import opened GenerationProtocol
  import opened InitialRecovery
  import opened ProtocolScripts
  import opened ScriptTraces
  import opened ScriptOutcomes

  // ---------------------------------------------------------------------------
  // Without a provider call
  // ---------------------------------------------------------------------------

  /** The script is over, and it never called the provider. */
  ghost predicate EndedUncalled(run: seq<ScriptAction>, sid: ScriptId)
    requires LegalScripts(run)
  {
    sid in AfterScripts(run).scripts && AfterScripts(run).scripts[sid].program == End && Called !in Trace(run, sid)
  }

  /** The updates were run in order, until one of them did not go well. */
  predicate PreparationFailed(trace: seq<Deed>, calls: seq<LaneCall>) {
    && 0 < |trace| <= |calls| && !WentWell(trace[|trace| - 1])
    && forall i :: 0 <= i < |trace| ==> IsUpdate(trace[i], calls[i]) && (i < |trace| - 1 ==> WentWell(trace[i]))
  }

  /** The lane was prepared, and the claim denied. */
  predicate ClaimRefused(trace: seq<Deed>, calls: seq<LaneCall>, request: ClaimRequest) {
    && |trace| > |calls| && Prepared(trace[..|calls|], calls)
    && IsClaim(trace[|calls|], request) && !WentWell(trace[|calls|])
  }

  lemma {:induction false} UncalledEnds(calls: seq<LaneCall>, claim: Program, trace: seq<Deed>)
    requires claim.Claim? && claim.claimed.WriteProvider?
    requires Completes(PreparedClaim(calls, claim), trace) && Called !in trace
    ensures PreparationFailed(trace, calls) || ClaimRefused(trace, calls, claim.request)
    ensures ClaimRefused(trace, calls, claim.request) ==>
      Completes(if Replays(trace[|calls|]) then claim.replayed else claim.denied, trace[|calls| + 1..])
  {
    if calls == [] {
      ClaimFirst(claim, trace);
      var rest := trace[1..];
      assert trace == [trace[0]] + rest;
      if WentWell(trace[0]) { CallFirst(claim.claimed, rest); }
    } else {
      UpdateEnds(calls[0], PreparedClaim(calls[1..], claim), End, trace);
      var rest, n := trace[1..], |calls|;
      assert trace == [trace[0]] + rest;
      if WentWell(trace[0]) {
        UncalledEnds(calls[1..], claim, rest);
        OneMoreUpdate(trace, calls, claim.request);
        if ClaimRefused(rest, calls[1..], claim.request) { assert rest[n - 1 + 1..] == trace[n + 1..]; }
      } else {
        CompletesStep(End, rest);
      }
    }
  }

  lemma OneMoreUpdate(trace: seq<Deed>, calls: seq<LaneCall>, request: ClaimRequest)
    requires trace != [] && calls != [] && IsUpdate(trace[0], calls[0]) && WentWell(trace[0])
    ensures PreparationFailed(trace[1..], calls[1..]) ==> PreparationFailed(trace, calls)
    ensures ClaimRefused(trace[1..], calls[1..], request) <==> ClaimRefused(trace, calls, request)
  {
    var rest, n := trace[1..], |calls|;
    if |trace| >= n {
      assert trace[..n] == [trace[0]] + rest[..n - 1] && calls == [calls[0]] + calls[1..];
      assert forall i :: 0 <= i < n - 1 ==> rest[..n - 1][i] == trace[..n][i + 1] && calls[1..][i] == calls[i + 1];
    }
  }

  /** A create of a later generation that never called: its preparation failed, or its claim was denied.
      Then it closed the lane, and, told that the operation is confirmed, recorded it as UNKNOWN. */
  lemma UncalledNextIsClosed(run: seq<ScriptAction>, sid: ScriptId, g: NextGeneration, t: PendingTransition, d: Details,
                             answer: ProviderAnswer)
    requires LegalScripts(run) && EndedUncalled(run, sid)
    requires AfterScripts(run).scripts[sid].script == CreateNext(g, t, d, answer)
    ensures
      var (trace, lane) := (Trace(run, sid), LanesOf(g.lineage).laneId);
      var calls := [PersistPending(lane, t), AuthorizeLane(lane)];
      || PreparationFailed(trace, calls)
      || (ClaimRefused(trace, calls, NextRequest(g, d)) && RefusedNext(trace[2], trace[3..], lane, NextKey(g)))
  {
    var trace, l, request := Trace(run, sid), LanesOf(g.lineage), NextRequest(g, d);
    var calls := [PersistPending(l.laneId, t), AuthorizeLane(l.laneId)];
    ScriptsFollowPrograms(run, sid);
    NextIsPrepared(l, t, request, answer);
    UncalledEnds(calls, NextClaim(l, t, request, answer), trace);
    if !PreparationFailed(trace, calls) {
      RefusedNextEnds(l, t, request, answer, trace[2], trace[3..]);
    }
  }

  predicate RefusedNext(claim: Deed, after: seq<Deed>, lane: LaneId, key: OperationKey)
    requires claim.Ran? && claim.runner.Claimer? && claim.runner.claim.Done?
  {
    if Replays(claim) then
      && after != [] && IsUpdate(after[0], RestoreShadow(lane))
      && if WentWell(after[0]) then |after| == 2 && IsResolution(after[1], lane, key, RecordUnknown(map[])) else |after| == 1
    else ClosedOnly(after, lane)
  }

  lemma RefusedNextEnds(l: Lineage, t: PendingTransition, request: ClaimRequest, answer: ProviderAnswer, claim: Deed,
                        after: seq<Deed>)
    requires IsClaim(claim, request)
    requires Completes(if Replays(claim) then NextClaim(l, t, request, answer).replayed else NextClaim(l, t, request, answer).denied,
                       after)
    ensures RefusedNext(claim, after, l.laneId, request.operationKey)
  {
    if Replays(claim) {
      ClosingEnds(l.laneId, RecordingUnknown(l.laneId, request.operationKey, End), after);
      if WentWell(after[0]) {
        UnknownEnds(l.laneId, request.operationKey, End, after[1..]);
        CompletesStep(End, after[1..][1..]);
      }
    } else {
      TailEnds(Closing(l.laneId, End), l.laneId, true, after);
    }
  }

  /** A first create that never called: its preparation failed, or its claim was denied and it closed the
      lane. */
  lemma UncalledFirstIsClosed(run: seq<ScriptAction>, sid: ScriptId, g: FirstGeneration, t: PendingTransition, d: Details,
                              answer: ProviderAnswer)
    requires LegalScripts(run) && EndedUncalled(run, sid)
    requires AfterScripts(run).scripts[sid].script == CreateInitial(g, t, d, answer)
    ensures
      var (trace, l) := (Trace(run, sid), LanesOf(g.lineage));
      var calls := [EnsureInitial(l.laneId, l.project, l.route, l.workstreamId), PersistPendingInitial(l.laneId, t),
                    AuthorizeLane(l.laneId)];
      || PreparationFailed(trace, calls)
      || (ClaimRefused(trace, calls, FirstRequest(g, t.taskSpecDigest, d)) && ClosedOnly(trace[4..], l.laneId))
  {
    var trace, l, request := Trace(run, sid), LanesOf(g.lineage), FirstRequest(g, t.taskSpecDigest, d);
    var calls := [EnsureInitial(l.laneId, l.project, l.route, l.workstreamId), PersistPendingInitial(l.laneId, t),
                  AuthorizeLane(l.laneId)];
    ScriptsFollowPrograms(run, sid);
    FirstIsPrepared(l, t, request, answer);
    UncalledEnds(calls, FirstClaim(l, t, request, answer), trace);
    if !PreparationFailed(trace, calls) {
      TailEnds(Closing(l.laneId, End), l.laneId, true, trace[4..]);
    }
  }

  /** And a message. */
  lemma UncalledMessageIsClosed(run: seq<ScriptAction>, sid: ScriptId, lane: LaneId, request: ClaimRequest, answer: ProviderAnswer)
    requires LegalScripts(run) && EndedUncalled(run, sid)
    requires AfterScripts(run).scripts[sid].script == SendMessage(lane, request, answer)
    ensures
      var trace := Trace(run, sid);
      || PreparationFailed(trace, [AuthorizeLane(lane)])
      || (ClaimRefused(trace, [AuthorizeLane(lane)], request) && ClosedOnly(trace[2..], lane))
  {
    var trace := Trace(run, sid);
    ScriptsFollowPrograms(run, sid);
    MessageIsPrepared(lane, request, answer);
    UncalledEnds([AuthorizeLane(lane)], MessageClaim(lane, request, answer), trace);
    if !PreparationFailed(trace, [AuthorizeLane(lane)]) {
      TailEnds(Closing(lane, End), lane, true, trace[2..]);
    }
  }

  // ---------------------------------------------------------------------------
  // Reconciliations
  // ---------------------------------------------------------------------------

  /** The script looked at the store, and is over. */
  ghost predicate LookedAndEnded(run: seq<ScriptAction>, sid: ScriptId, question: Question)
    requires LegalScripts(run)
  {
    && sid in AfterScripts(run).scripts && AfterScripts(run).scripts[sid].program == End
    && AfterScripts(run).scripts[sid].script == ReconcileFromStore(question)
  }

  lemma LookFirst(run: seq<ScriptAction>, sid: ScriptId, question: Question) returns (doc: Doc)
    requires LegalScripts(run) && LookedAndEnded(run, sid, question)
    ensures Trace(run, sid) != [] && Trace(run, sid)[0] == Looked(doc)
    ensures Completes(Answered(doc, question), Trace(run, sid)[1..])
  {
    ScriptsFollowPrograms(run, sid);
    CompletesStep(Look(question), Trace(run, sid));
    doc := Trace(run, sid)[0].doc;
  }

  /** A later generation is adopted: its creation is confirmed, and handed off if that went well. */
  predicate AdoptedNext(after: seq<Deed>, l: Lineage, t: PendingTransition, key: OperationKey, session: string) {
    && after != [] && IsResolution(after[0], l.laneId, key, ReadBack(Some(true), map[]))
    && if WentWell(after[0]) then HandedOff(after[1..], NextCalls(l, t, session, key), l.laneId, key, false) else |after| == 1
  }

  /** A first generation is adopted. */
  predicate AdoptedFirst(after: seq<Deed>, l: Lineage, t: PendingTransition, key: OperationKey, session: string) {
    && after != [] && IsResolution(after[0], l.laneId, key, ReadBack(Some(true), map[]))
    && if WentWell(after[0]) then HandedOff(after[1..], FirstCalls(l, t, Strip(session), key), l.laneId, key, false)
       else |after| == 1
  }

  lemma AdoptingEnds(l: Lineage, t: PendingTransition, key: OperationKey, inventory: seq<Session>, initial: bool, after: seq<Deed>)
    requires Completes(Adopting(l, t, key, inventory, initial), after)
    ensures |MatchesOf(inventory, t)| != 1 ==> after == []
    ensures |MatchesOf(inventory, t)| == 1 && !initial ==> AdoptedNext(after, l, t, key, MatchesOf(inventory, t)[0].name)
    ensures |MatchesOf(inventory, t)| == 1 && initial ==> AdoptedFirst(after, l, t, key, MatchesOf(inventory, t)[0].name)
  {
    var matches, lane := MatchesOf(inventory, t), l.laneId;
    if |matches| != 1 {
      CompletesStep(End, after);
    } else if initial {
      var name := Strip(matches[0].name);
      FirstHandOffIs(l, t, name, key, End);
      ConfirmingEnds(lane, key, HandingOffInitial(l, t, SessionFingerprint(name), key, End), End, after);
      CompletesStep(if WentWell(after[0]) then HandingOffInitial(l, t, SessionFingerprint(name), key, End) else End, after[1..]);
      if WentWell(after[0]) { HandOffEnds(FirstCalls(l, t, name, key), lane, key, End, false, after[1..]); }
    } else {
      var name := matches[0].name;
      NextHandOffIs(l, t, name, key);
      ConfirmingEnds(lane, key, HandingOff(l, t, SessionFingerprint(name), key), End, after);
      CompletesStep(if WentWell(after[0]) then HandingOff(l, t, SessionFingerprint(name), key) else End, after[1..]);
      if WentWell(after[0]) { HandOffEnds(NextCalls(l, t, name, key), lane, key, End, false, after[1..]); }
    }
  }

  /** A reconciliation of a later generation does nothing but look, unless it sees a pending transition and
      one session that may be its; that one it adopts. */
  lemma NextReconciliationAdopts(run: seq<ScriptAction>, sid: ScriptId, l: Lineage, inventory: seq<Session>) returns (doc: Doc)
    requires LegalScripts(run) && LookedAndEnded(run, sid, UnknownGeneration(l, inventory))
    ensures Trace(run, sid) != [] && Trace(run, sid)[0] == Looked(doc)
    ensures
      var (seen, after) := (PendingState(doc, l.laneId), Trace(run, sid)[1..]);
      if seen.Some? && |MatchesOf(inventory, seen.value.1)| == 1
      then AdoptedNext(after, l, seen.value.1, seen.value.0, MatchesOf(inventory, seen.value.1)[0].name)
      else after == []
  {
    doc := LookFirst(run, sid, UnknownGeneration(l, inventory));
    match PendingState(doc, l.laneId)
    case None => CompletesStep(End, Trace(run, sid)[1..]);
    case Some((key, t)) => AdoptingEnds(l, t, key, inventory, false, Trace(run, sid)[1..]);
  }

  /** The same of a first generation whose transition is pending. */
  lemma FirstReconciliationAdopts(run: seq<ScriptAction>, sid: ScriptId, l: Lineage, inventory: seq<Session>) returns (doc: Doc)
    requires LegalScripts(run) && LookedAndEnded(run, sid, UnknownInitial(l, inventory))
    ensures Trace(run, sid) != [] && Trace(run, sid)[0] == Looked(doc)
    ensures
      var (seen, after) := (PendingInitialState(doc, l.laneId), Trace(run, sid)[1..]);
      if seen.Some? && |MatchesOf(inventory, seen.value.1)| == 1
      then AdoptedFirst(after, l, seen.value.1, seen.value.0, MatchesOf(inventory, seen.value.1)[0].name)
      else after == []
  {
    doc := LookFirst(run, sid, UnknownInitial(l, inventory));
    match PendingInitialState(doc, l.laneId)
    case None => CompletesStep(End, Trace(run, sid)[1..]);
    case Some((key, t)) => AdoptingEnds(l, t, key, inventory, true, Trace(run, sid)[1..]);
  }

  /** The transition a stale reconciliation goes by: that of the receipt, under the caller's authority and
      without a lease that still holds. */
  function StaleSeen(doc: Doc, l: Lineage, caller: StaleCaller): Option<(OperationKey, PendingTransition)> {
    match StaleOperation(doc, l)
    case None => None
    case Some(op) =>
      match RecordedTransition(op, caller)
      case None => None
      case Some(t) => if caller.authorized && LeaseIsOver(doc, l.laneId, op.key, caller.now) then Some((op.key, t)) else None
  }

  /** And of one that is known by its receipt only. */
  lemma StaleReconciliationAdopts(run: seq<ScriptAction>, sid: ScriptId, l: Lineage, caller: StaleCaller, inventory: seq<Session>)
    returns (doc: Doc)
    requires LegalScripts(run) && LookedAndEnded(run, sid, StaleInitial(l, caller, inventory))
    ensures Trace(run, sid) != [] && Trace(run, sid)[0] == Looked(doc)
    ensures
      var (seen, after) := (StaleSeen(doc, l, caller), Trace(run, sid)[1..]);
      if seen.Some? && |MatchesOf(inventory, seen.value.1)| == 1
      then AdoptedFirst(after, l, seen.value.1, seen.value.0, MatchesOf(inventory, seen.value.1)[0].name)
      else after == []
  {
    doc := LookFirst(run, sid, StaleInitial(l, caller, inventory));
    match StaleSeen(doc, l, caller)
    case None => CompletesStep(End, Trace(run, sid)[1..]);
    case Some((key, t)) => AdoptingEnds(l, t, key, inventory, true, Trace(run, sid)[1..]);
  }

  /** An observation that went well is followed by putting back the pending transition that was seen before
      it, if there was one. */
  lemma ObservationPutsBack(run: seq<ScriptAction>, sid: ScriptId, call: LaneCall) returns (doc: Doc)
    requires LegalScripts(run) && LookedAndEnded(run, sid, BeforeObserving(call))
    ensures |Trace(run, sid)| > 1 && Trace(run, sid)[0] == Looked(doc) && IsUpdate(Trace(run, sid)[1], call)
    ensures
      var (seen, after) := (ReadLane(doc, call.laneId), Trace(run, sid)[2..]);
      if WentWell(Trace(run, sid)[1]) && seen.Found? && seen.record.evidence.pending.Some?
      then |after| == 1
           && IsUpdate(after[0], RestoreObserved(seen.record.laneId, seen.record.evidence.pending.value, seen.record.unknownWrite))
      else after == []
  {
    doc := LookFirst(run, sid, BeforeObserving(call));
    var rest := Trace(run, sid)[1..];
    var back := match ReadLane(doc, call.laneId)
      case Found(_, r) =>
        if r.evidence.pending.Some? then Run(Update(RestoreObserved(r.laneId, r.evidence.pending.value, r.unknownWrite)), End, End)
        else End
      case _ => End;
    UpdateEnds(call, back, End, rest);
    assert rest[1..] == Trace(run, sid)[2..];
    if WentWell(rest[0]) && back.Run? {
      UpdateEnds(back.runner.call, End, End, rest[1..]);
      CompletesStep(End, rest[1..][1..]);
    } else {
      CompletesStep(End, rest[1..]);
    }
  }
}
