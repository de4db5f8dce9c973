/** At most one claim per operation between two authoritative "not observed" readbacks, under
    every interleaving and crash. */
module AtMostOnce {
  import opened Wrappers
  import opened Multisets
  import opened Records
  import opened StateStore
  import opened ClaimProtocol
  import opened ControlSystem
  import opened ControlInvariants

  /** The operation read before the claim was absent, or not observed and with the same digest. */
  ghost predicate ClearedToExecute(req: ClaimRequest, existing: Read<OperationRecord>) {
    existing.Found? ==>
      && existing.record.requestDigest == req.requestDigest
      && existing.record.state == ReconciledNotObserved
  }

  ghost predicate ClaimCleared(req: ClaimRequest, pc: ClaimPc) {
    match pc
    case Authorized(_, existing, _) => ClearedToExecute(req, existing)
    case Leased(_, existing, _, _) => ClearedToExecute(req, existing)
    case Consuming(_, existing, _, _, _, _, _) => ClearedToExecute(req, existing)
    case Persisting(_, existing, _, _, _) => ClearedToExecute(req, existing)
    case _ => true
  }

  /** The claimant has written its IN_FLIGHT record. */
  ghost predicate HasPersisted(pc: ClaimPc) {
    || pc.Persisted? || pc.Linking?
    || (pc.Done? && !pc.decision.Denied?)
  }

  ghost predicate HasSaved(pc: ResolvePc) {
    !pc.ResolveStart? && !pc.OperationSaving?
  }

  ghost predicate AllCleared(s: System) {
    forall id :: id in s.slots && s.slots[id].runner.Claimer? ==>
      ClaimCleared(s.slots[id].runner.request, s.slots[id].runner.claim)
  }

  ghost predicate PersistedFor(s: System, id: RunnerId, k: OperationKey) {
    && id in s.slots && s.slots[id].runner.Claimer?
    && s.slots[id].runner.request.operationKey == k && HasPersisted(s.slots[id].runner.claim)
  }

  ghost predicate ClaimedFor(s: System, id: RunnerId, k: OperationKey) {
    id in s.slots && IsClaimed(s.slots[id].runner) && s.slots[id].runner.request.operationKey == k
  }

  ghost predicate SavedBy(s: System, id: RunnerId) {
    id in s.slots && s.slots[id].runner.Resolver? && HasSaved(s.slots[id].runner.resolve)
  }

  /** The ledgers hold exactly the runners whose program counters say so. */
  ghost predicate LedgersMatchRunners(s: System) {
    && (forall id, k :: id in At(s.history.inFlight, k) <==> PersistedFor(s, id, k))
    && (forall id, k :: id in At(s.history.claimed, k) <==> ClaimedFor(s, id, k))
    && (forall id, k :: id in At(s.history.notObserved, k) ==> SavedBy(s, id))
    && (forall id, k :: id in At(s.history.written, k) ==> ClaimedFor(s, id, k))
  }

  /** The attempt counter and the bound on claims of one operation. */
  ghost predicate CountsMatch(doc: Doc, h: History, k: OperationKey) {
    var claims, resets := |At(h.inFlight, k)|, |At(h.notObserved, k)|;
    if k in doc.operations then
      && doc.operations[k].record.Some?
      && var op := doc.operations[k].record.value;
         && op.attempt == claims
         && claims <= 1 + resets
         && (op.state == ReconciledNotObserved ==> claims <= resets)
    else claims == 0 && resets == 0
  }

  /** A runner that persisted IN_FLIGHT carries the stored request digest. */
  ghost predicate DigestMatches(s: System, id: RunnerId, k: OperationKey) {
    && k in s.doc.operations && s.doc.operations[k].record.Some?
    && id in s.slots && s.slots[id].runner.Claimer?
    && s.slots[id].runner.request.requestDigest == s.doc.operations[k].record.value.requestDigest
  }

  ghost predicate OperationsMatchLedgers(s: System) {
    && (forall k :: CountsMatch(s.doc, s.history, k))
    && (forall id, k :: id in At(s.history.inFlight, k) ==> DigestMatches(s, id, k))
  }

  // ---------------------------------------------------------------------------
  // What a single move does to operations
  // ---------------------------------------------------------------------------

  /** A claim's write starts the operation or retries one that was read back as not observed. */
  ghost predicate ClaimWrites(doc: Doc, req: ClaimRequest, op: OperationRecord) {
    && op.state == InFlight
    && op.requestDigest == req.requestDigest
    && if req.operationKey in doc.operations then
         && doc.operations[req.operationKey].record.Some?
         && var before := doc.operations[req.operationKey].record.value;
            && before.state == ReconciledNotObserved
            && before.requestDigest == req.requestDigest
            && op == before.(state := op.state, owner := op.owner, attempt := before.attempt + 1,
                             reconciliationRequired := op.reconciliationRequired, receipt := op.receipt)
       else op.attempt == 1
  }

  /** A resolution keeps attempt and digest; it sets "not observed" only from an ambiguous state. */
  ghost predicate ResolutionWrites(doc: Doc, key: OperationKey, resolution: Resolution, op: OperationRecord) {
    && key in doc.operations && doc.operations[key].record.Some?
    && var before := doc.operations[key].record.value;
       && op == before.(state := op.state, reconciliationRequired := op.reconciliationRequired,
                        receipt := op.receipt, readback := op.readback)
       && (op.state == ReconciledNotObserved <==> resolution.ReadBack? && resolution.observed == Some(false))
       && (resolution.ReadBack? ==> before.state == InFlight || before.state == Unknown)
  }

  ghost predicate ClaimMoves(doc: Doc, req: ClaimRequest, pc: ClaimPc, step: ClaimStep) {
    && (ClaimCleared(req, pc) ==> ClaimCleared(req, step.pc))
    && (HasPersisted(step.pc) <==> HasPersisted(pc) || step.change.OperationWrite?)
    && (step.change.OperationWrite? ==>
          !HasPersisted(pc) && step.change.key == req.operationKey && ClaimWrites(doc, req, step.change.operation))
  }

  ghost predicate ResolveMoves(doc: Doc, key: OperationKey, resolution: Resolution, pc: ResolvePc, step: ResolveStep) {
    && (HasSaved(pc) ==> HasSaved(step.pc))
    && (step.change.OperationWrite? ==>
          && !HasSaved(pc) && HasSaved(step.pc) && step.change.key == key
          && ResolutionWrites(doc, key, resolution, step.change.operation))
  }

  ghost predicate WellMoved(doc: Doc, before: Runner, move: Move) {
    match before
    case Claimer(req, pc, wrote) =>
      && move.runner.Claimer? && move.runner.request == req && move.runner.wrote == wrote
      && ClaimMoves(doc, req, pc, ClaimStep(move.change, move.runner.claim))
      && (IsClaimed(before) ==> move.runner == before)
    case Resolver(lane, key, resolution, pc) =>
      && move.runner.Resolver? && move.runner.key == key && move.runner.resolution == resolution
      && ResolveMoves(doc, key, resolution, pc, ResolveStep(move.change, move.runner.resolve))
    case Writer(call, _) => move.runner.Writer? && !move.change.OperationWrite?
  }

  lemma ClaimStepMoves(doc: Doc, req: ClaimRequest, pc: ClaimPc)
    requires WellStored(doc) && PcFits(req, pc) && ClaimFresh(doc, req, pc) && ClaimCleared(req, pc)
    ensures ClaimMoves(doc, req, pc, StepClaim(doc, req, pc))
  {
    if pc.Persisting? { PersistMoves(doc, req, pc); } else { QuietStepMoves(doc, req, pc); }
  }

  lemma PersistMoves(doc: Doc, req: ClaimRequest, pc: ClaimPc)
    requires WellStored(doc) && ClaimFresh(doc, req, pc) && ClaimCleared(req, pc) && pc.Persisting?
    ensures ClaimMoves(doc, req, pc, PersistInFlight(doc, req, pc))
  {
  }

  lemma QuietStepMoves(doc: Doc, req: ClaimRequest, pc: ClaimPc)
    requires PcFits(req, pc) && ClaimCleared(req, pc) && !pc.Persisting?
    ensures ClaimMoves(doc, req, pc, StepClaim(doc, req, pc))
  {
  }

  lemma ResolveStepMoves(doc: Doc, lane: LaneId, key: OperationKey, resolution: Resolution, pc: ResolvePc)
    requires WellStored(doc) && ResolveFresh(doc, lane, key, resolution, pc)
    ensures ResolveMoves(doc, key, resolution, pc, StepResolve(doc, lane, key, resolution, pc))
  {
  }

  lemma MoveIsWellMoved(doc: Doc, runner: Runner)
    requires WellStored(doc) && Fresh(doc, runner) && RunnerFits(runner)
    requires runner.Claimer? ==> ClaimCleared(runner.request, runner.claim)
    ensures WellMoved(doc, runner, MoveOf(doc, runner))
  {
    match runner
    case Claimer(req, pc, _) => ClaimStepMoves(doc, req, pc);
    case Resolver(lane, key, resolution, pc) => ResolveStepMoves(doc, lane, key, resolution, pc);
    case Writer(_, _) =>
  }

  // ---------------------------------------------------------------------------
  // Preservation
  // ---------------------------------------------------------------------------

  lemma LedgersMatchRunnersMoved(s: System, id: RunnerId, move: Move)
    requires LedgersMatchRunners(s) && id in s.slots && WellMoved(s.doc, s.slots[id].runner, move)
    ensures LedgersMatchRunners(Moved(s, id, move))
  {
    var t := Moved(s, id, move);
    var before := s.slots[id].runner;
    forall j, k ensures j in At(t.history.inFlight, k) <==> PersistedFor(t, j, k) {
      assert j in At(s.history.inFlight, k) <==> PersistedFor(s, j, k);
    }
    forall j, k ensures j in At(t.history.claimed, k) <==> ClaimedFor(t, j, k) {
      assert j in At(s.history.claimed, k) <==> ClaimedFor(s, j, k);
    }
    forall j, k | j in At(t.history.notObserved, k) ensures SavedBy(t, j) {
      assert j in At(s.history.notObserved, k) ==> SavedBy(s, j);
    }
    forall j, k | j in At(t.history.written, k) ensures ClaimedFor(t, j, k) {
      assert ClaimedFor(s, j, k);
    }
  }

  lemma ClaimKeepsCounts(s: System, id: RunnerId, move: Move, k: OperationKey)
    requires LedgersMatchRunners(s) && CountsMatch(s.doc, s.history, k)
    requires id in s.slots && s.slots[id].runner.Claimer? && WellMoved(s.doc, s.slots[id].runner, move)
    requires move.change.OperationWrite? && move.change.key == k
    ensures CountsMatch(Moved(s, id, move).doc, Moved(s, id, move).history, k)
  {
    var t := Moved(s, id, move);
    assert !PersistedFor(s, id, k);
    assert At(t.history.inFlight, k) == At(s.history.inFlight, k) + {id};
    assert At(t.history.notObserved, k) == At(s.history.notObserved, k);
  }

  lemma ResolutionKeepsCounts(s: System, id: RunnerId, move: Move, k: OperationKey)
    requires LedgersMatchRunners(s) && CountsMatch(s.doc, s.history, k)
    requires id in s.slots && s.slots[id].runner.Resolver? && WellMoved(s.doc, s.slots[id].runner, move)
    requires move.change.OperationWrite? && move.change.key == k
    ensures CountsMatch(Moved(s, id, move).doc, Moved(s, id, move).history, k)
  {
    var t := Moved(s, id, move);
    assert !SavedBy(s, id);
    assert At(t.history.inFlight, k) == At(s.history.inFlight, k);
  }

  lemma CountsMatchMoved(s: System, id: RunnerId, move: Move, k: OperationKey)
    requires LedgersMatchRunners(s) && CountsMatch(s.doc, s.history, k)
    requires id in s.slots && WellMoved(s.doc, s.slots[id].runner, move)
    ensures CountsMatch(Moved(s, id, move).doc, Moved(s, id, move).history, k)
  {
    var t := Moved(s, id, move);
    if move.change.OperationWrite? && move.change.key == k {
      if s.slots[id].runner.Claimer? {
        ClaimKeepsCounts(s, id, move, k);
      } else {
        ResolutionKeepsCounts(s, id, move, k);
      }
    } else {
      assert At(t.history.inFlight, k) == At(s.history.inFlight, k);
      assert At(t.history.notObserved, k) == At(s.history.notObserved, k);
    }
  }

  lemma OperationsMatchLedgersMoved(s: System, id: RunnerId, move: Move)
    requires LedgersMatchRunners(s) && OperationsMatchLedgers(s)
    requires id in s.slots && WellMoved(s.doc, s.slots[id].runner, move)
    ensures OperationsMatchLedgers(Moved(s, id, move))
  {
    var t := Moved(s, id, move);
    forall k ensures CountsMatch(t.doc, t.history, k) {
      CountsMatchMoved(s, id, move, k);
    }
    forall j, k | j in At(t.history.inFlight, k) ensures DigestMatches(t, j, k) {
      assert j in At(s.history.inFlight, k) ==> DigestMatches(s, j, k);
    }
  }

  ghost predicate ClaimsSafe(s: System) {
    && Sound(s)
    && AllCleared(s)
    && LedgersMatchRunners(s)
    && OperationsMatchLedgers(s)
  }

  lemma ClaimsSafeKept(s: System, action: Action)
    requires ClaimsSafe(s) && Enabled(s, action)
    ensures ClaimsSafe(Perform(s, action))
  {
    SoundKept(s, action);
    if action.Step? {
      var move := MoveOf(s.doc, s.slots[action.id].runner);
      MoveIsWellMoved(s.doc, s.slots[action.id].runner);
      LedgersMatchRunnersMoved(s, action.id, move);
      OperationsMatchLedgersMoved(s, action.id, move);
    } else {
      LedgersMatchRunnersIdle(s, action);
      OperationsMatchLedgersIdle(s, action);
    }
  }

  lemma OperationsMatchLedgersIdle(s: System, action: Action)
    requires OperationsMatchLedgers(s) && Enabled(s, action) && !action.Step?
    ensures OperationsMatchLedgers(Perform(s, action))
  {
    var t := Perform(s, action);
    forall k ensures CountsMatch(t.doc, t.history, k) {
      assert CountsMatch(s.doc, s.history, k);
    }
    forall j, k | j in At(t.history.inFlight, k) ensures DigestMatches(t, j, k) {
      assert DigestMatches(s, j, k);
    }
  }

  lemma LedgersMatchRunnersIdle(s: System, action: Action)
    requires LedgersMatchRunners(s) && Enabled(s, action) && !action.Step?
    ensures LedgersMatchRunners(Perform(s, action))
  {
    var t := Perform(s, action);
    forall j, k ensures j in At(t.history.inFlight, k) <==> PersistedFor(t, j, k) {
      assert j in At(s.history.inFlight, k) <==> PersistedFor(s, j, k);
    }
    forall j, k ensures j in At(t.history.claimed, k) <==> ClaimedFor(t, j, k) {
      assert j in At(s.history.claimed, k) <==> ClaimedFor(s, j, k);
    }
    forall j, k | j in At(t.history.notObserved, k) ensures SavedBy(t, j) {
      assert SavedBy(s, j);
    }
    forall j, k | j in At(t.history.written, k) ensures ClaimedFor(t, j, k) {
      assert j in At(s.history.written, k) ==> ClaimedFor(s, j, k);
    }
  }

  // ---------------------------------------------------------------------------
  // The theorems
  // ---------------------------------------------------------------------------

  lemma {:induction false} AlwaysClaimsSafe(run: seq<Action>)
    requires Legal(run)
    ensures ClaimsSafe(After(run))
  {
    if run != [] {
      AlwaysClaimsSafe(run[..|run| - 1]);
      ClaimsSafeKept(After(run[..|run| - 1]), run[|run| - 1]);
    }
  }

  /** Provider writes and CLAIMED answers are bounded by one plus the "not observed" readbacks;
      the stored attempt counts the IN_FLIGHT writes exactly. */
  lemma AtMostOnePerReset(run: seq<Action>, k: OperationKey)
    requires Legal(run)
    ensures
      var s := After(run);
      && At(s.history.written, k) <= At(s.history.claimed, k) <= At(s.history.inFlight, k)
      && |At(s.history.written, k)| <= |At(s.history.claimed, k)| <= 1 + |At(s.history.notObserved, k)|
      && (k in s.doc.operations ==>
            ReadOperation(s.doc, k).Found? && ReadOperation(s.doc, k).record.attempt == |At(s.history.inFlight, k)|)
      && (k !in s.doc.operations ==> At(s.history.inFlight, k) == {})
  {
    AlwaysClaimsSafe(run);
    var s := After(run);
    assert CountsMatch(s.doc, s.history, k);
    forall id | id in At(s.history.written, k) ensures id in At(s.history.claimed, k) {
      assert ClaimedFor(s, id, k);
    }
    forall id | id in At(s.history.claimed, k) ensures id in At(s.history.inFlight, k) {
      assert ClaimedFor(s, id, k) && PersistedFor(s, id, k);
    }
    SubsetSize(At(s.history.written, k), At(s.history.claimed, k));
    SubsetSize(At(s.history.claimed, k), At(s.history.inFlight, k));
  }

  /** The runner would record that the operation was not observed. */
  predicate RecordsNotObserved(runner: Runner, k: OperationKey) {
    runner.Resolver? && runner.key == k && runner.resolution.ReadBack? && runner.resolution.observed == Some(false)
  }

  ghost predicate NeverRecordsNotObserved(run: seq<Action>, k: OperationKey) {
    forall i :: 0 <= i < |run| && run[i].Spawn? ==> !RecordsNotObserved(run[i].runner, k)
  }

  ghost predicate NoResets(s: System, k: OperationKey) {
    && (forall id :: id in s.slots ==> !RecordsNotObserved(s.slots[id].runner, k))
    && At(s.history.notObserved, k) == {}
  }

  lemma {:induction false} NoResetsWithoutNotObserved(run: seq<Action>, k: OperationKey)
    requires Legal(run) && NeverRecordsNotObserved(run, k)
    ensures NoResets(After(run), k)
  {
    if run != [] {
      var init, last := run[..|run| - 1], run[|run| - 1];
      assert NeverRecordsNotObserved(init, k) by {
        forall i | 0 <= i < |init| && init[i].Spawn? ensures !RecordsNotObserved(init[i].runner, k) {
          assert run[i] == init[i];
        }
      }
      NoResetsWithoutNotObserved(init, k);
      assert last == run[|run| - 1];
    }
  }

  /** In every run in which nobody records that the operation was not observed, the provider is written
      at most once for it. */
  lemma CreateSessionAtMostOnce(run: seq<Action>, k: OperationKey)
    requires Legal(run) && NeverRecordsNotObserved(run, k)
    ensures |At(After(run).history.written, k)| <= 1
  {
    NoResetsWithoutNotObserved(run, k);
    AtMostOnePerReset(run, k);
  }

  /** Operations never disappear and never change their request digest, lane or action. */
  ghost predicate KeepsIdentity(before: Doc, after: Doc) {
    forall k :: k in before.operations && before.operations[k].record.Some? ==>
      && k in after.operations && after.operations[k].record.Some?
      && var b, a := before.operations[k].record.value, after.operations[k].record.value;
         && a.requestDigest == b.requestDigest && a.laneId == b.laneId
         && a.action == b.action && a.workstreamId == b.workstreamId
         && a.attempt >= b.attempt
  }

  lemma MoveKeepsIdentity(doc: Doc, before: Runner, move: Move)
    requires WellMoved(doc, before, move)
    ensures KeepsIdentity(doc, Apply(doc, move.change))
  {
  }

  lemma IdentityKept(s: System, action: Action)
    requires ClaimsSafe(s) && Enabled(s, action)
    ensures KeepsIdentity(s.doc, Perform(s, action).doc)
  {
    if action.Step? {
      MoveIsWellMoved(s.doc, s.slots[action.id].runner);
      MoveKeepsIdentity(s.doc, s.slots[action.id].runner, MoveOf(s.doc, s.slots[action.id].runner));
    }
  }

  /** The identity of a stored operation is the same at every later point of the run. */
  lemma {:induction false} OperationIdentityIsConstant(run: seq<Action>, i: nat)
    requires Legal(run) && i <= |run|
    ensures Legal(run[..i])
    ensures KeepsIdentity(After(run[..i]).doc, After(run).doc)
  {
    if i == |run| {
      assert run[..i] == run;
    } else {
      var init := run[..|run| - 1];
      assert init[..i] == run[..i];
      OperationIdentityIsConstant(init, i);
      AlwaysClaimsSafe(init);
      IdentityKept(After(init), run[|run| - 1]);
    }
  }

  /** All provider writes of one operation carry the same request digest. */
  lemma WritesCarryOneDigest(run: seq<Action>, k: OperationKey, i: RunnerId, j: RunnerId)
    requires Legal(run)
    requires i in At(After(run).history.written, k) && j in At(After(run).history.written, k)
    ensures i in After(run).slots && j in After(run).slots
    ensures After(run).slots[i].runner.Claimer? && After(run).slots[j].runner.Claimer?
    ensures After(run).slots[i].runner.request.requestDigest == After(run).slots[j].runner.request.requestDigest
  {
    AtMostOnePerReset(run, k);
    AlwaysClaimsSafe(run);
    assert DigestMatches(After(run), i, k) && DigestMatches(After(run), j, k);
  }
}
