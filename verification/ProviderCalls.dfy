/** How often the scripts of the generation protocol call the provider. */
module ProviderCalls {
  import opened Wrappers
  import opened Records
  import opened ClaimProtocol
  import opened ControlSystem
  import opened Multisets
  import opened AtMostOnce
  import opened EffectKeys
  import opened ProtocolScripts

  /** How many provider calls the scripts of a run made on the strength of a claim of the key. */
  ghost function Calls(run: seq<ScriptAction>, k: OperationKey): nat
    requires LegalScripts(run)
  {
    if run == [] then 0
    else
      var init, last := run[..|run| - 1], run[|run| - 1];
      Calls(init, k) + (if CallsFor(AfterScripts(init), last, k) then 1 else 0)
  }

  /** The script action is a provider call for the key. */
  predicate CallsFor(s: ScriptedSystem, a: ScriptAction, k: OperationKey) {
    && a.CallProvider? && a.sid in s.scripts && RequestOf(s.scripts[a.sid].script).Some?
    && RequestOf(s.scripts[a.sid].script).value.operationKey == k
  }

  // ---------------------------------------------------------------------------
  // A script's runner claims the script's request
  // ---------------------------------------------------------------------------

  predicate IsClaimer(s: System, rid: RunnerId, request: ClaimRequest) {
    rid in s.slots && s.slots[rid].runner.Claimer? && s.slots[rid].runner.request == request
  }

  ghost predicate ChildFits(s: ScriptedSystem, sid: ScriptId)
    requires sid in s.scripts
  {
    var live := s.scripts[sid];
    && (live.program.Claim? && live.child.Some? ==> IsClaimer(s.base, live.child.value, live.program.request))
    && (live.program.WriteProvider? && live.child.Some? ==>
          RequestOf(live.script).Some? && IsClaimer(s.base, live.child.value, RequestOf(live.script).value))
  }

  ghost predicate ChildrenFit(s: ScriptedSystem) {
    forall sid :: sid in s.scripts ==> ChildFits(s, sid)
  }

  lemma ClaimersStay(s: System, action: Action, rid: RunnerId, request: ClaimRequest)
    requires Enabled(s, action) && IsClaimer(s, rid, request)
    ensures IsClaimer(Perform(s, action), rid, request)
  {
  }

  lemma BaseKeepsClaimers(s: ScriptedSystem, a: ScriptAction, rid: RunnerId, request: ClaimRequest)
    requires ScriptEnabled(s, a) && IsClaimer(s.base, rid, request)
    ensures IsClaimer(PerformScript(s, a).base, rid, request)
  {
    if BaseOf(s, a).Some? { ClaimersStay(s.base, BaseOf(s, a).value, rid, request); }
  }

  lemma ChildFitsKept(s: ScriptedSystem, a: ScriptAction, sid: ScriptId)
    requires AllHonest(s) && ChildrenFit(s) && ScriptEnabled(s, a) && sid in PerformScript(s, a).scripts
    ensures ChildFits(PerformScript(s, a), sid)
  {
    if Subject(a) != Some(sid) {
      OthersAreLeftAlone(s, a, sid);
      IdleChildFits(s, a, sid);
    } else {
      match a
      case Begin(_, _) => BegunChildFits(s, a);
      case Advance(_) => AdvancedChildFits(s, a);
      case Move(_) => IdleChildFits(s, a, sid);
      case Kill(_) => IdleChildFits(s, a, sid);
      case _ => ChildlessFits(s, a);
    }
  }

  lemma ChildlessFits(s: ScriptedSystem, a: ScriptAction)
    requires ScriptEnabled(s, a) && (a.Launch? || a.CallProvider? || a.Answer?)
    ensures ChildFits(PerformScript(s, a), a.sid)
  {
  }

  lemma BegunChildFits(s: ScriptedSystem, a: ScriptAction)
    requires AllHonest(s) && a.Begin? && ScriptEnabled(s, a)
    ensures ChildFits(PerformScript(s, a), a.sid)
  {
    assert HonestLive(s.scripts[a.sid]);
  }

  lemma IdleChildFits(s: ScriptedSystem, a: ScriptAction, sid: ScriptId)
    requires ChildrenFit(s) && ScriptEnabled(s, a) && sid in s.scripts && sid in PerformScript(s, a).scripts
    requires PerformScript(s, a).scripts[sid] == s.scripts[sid].(alive := PerformScript(s, a).scripts[sid].alive)
    ensures ChildFits(PerformScript(s, a), sid)
  {
    var live := s.scripts[sid];
    assert ChildFits(s, sid);
    if live.child.Some? {
      if live.program.Claim? { BaseKeepsClaimers(s, a, live.child.value, live.program.request); }
      if live.program.WriteProvider? { BaseKeepsClaimers(s, a, live.child.value, RequestOf(live.script).value); }
    }
  }

  lemma AdvancedChildFits(s: ScriptedSystem, a: ScriptAction)
    requires AllHonest(s) && ChildrenFit(s) && a.Advance? && ScriptEnabled(s, a)
    ensures ChildFits(PerformScript(s, a), a.sid)
  {
    var live := s.scripts[a.sid];
    assert ChildFits(s, a.sid);
    ContinuesHonestly(live.program, s.base.slots[live.child.value].runner, RequestOf(live.script));
  }

  lemma {:induction false} AlwaysChildrenFit(run: seq<ScriptAction>)
    requires LegalScripts(run)
    ensures ChildrenFit(AfterScripts(run))
  {
    if run != [] {
      var init, last := run[..|run| - 1], run[|run| - 1];
      AlwaysChildrenFit(init);
      AlwaysHonest(init);
      forall sid | sid in AfterScripts(run).scripts ensures ChildFits(AfterScripts(run), sid) {
        ChildFitsKept(AfterScripts(init), last, sid);
      }
    }
  }

  // ---------------------------------------------------------------------------
  // Who wrote
  // ---------------------------------------------------------------------------

  /** Whoever is in the ledger of provider writes has written, and may not write again. */
  ghost predicate WritersWrote(s: System) {
    forall k, j :: j in At(s.history.written, k) ==> j in s.slots && s.slots[j].runner.Claimer? && s.slots[j].runner.wrote
  }

  lemma WritersWroteKept(s: System, action: Action)
    requires WritersWrote(s) && Enabled(s, action)
    ensures WritersWrote(Perform(s, action))
  {
    var t := Perform(s, action);
    forall k, j | j in At(t.history.written, k) ensures j in t.slots && t.slots[j].runner.Claimer? && t.slots[j].runner.wrote {
      assert j in At(s.history.written, k) || (action.ProviderWrite? && j == action.id);
    }
  }

  lemma {:induction false} AlwaysWritersWrote(run: seq<ScriptAction>)
    requires LegalScripts(run)
    ensures WritersWrote(AfterScripts(run).base)
  {
    if run != [] {
      var init, last := run[..|run| - 1], run[|run| - 1];
      AlwaysWritersWrote(init);
      var base := BaseOf(AfterScripts(init), last);
      if base.Some? { WritersWroteKept(AfterScripts(init).base, base.value); }
    }
  }

  // ---------------------------------------------------------------------------
  // Calls are provider writes
  // ---------------------------------------------------------------------------

  lemma WrittenGrows(s: System, action: Action, k: OperationKey)
    requires Enabled(s, action)
    ensures At(s.history.written, k) <= At(Perform(s, action).history.written, k)
  {
  }

  /** A call for a key adds a runner to those who wrote for it. */
  lemma CallIsWritten(s: ScriptedSystem, a: ScriptAction, k: OperationKey)
    requires ChildrenFit(s) && WritersWrote(s.base) && ScriptEnabled(s, a) && CallsFor(s, a, k)
    ensures
      var before, after := At(s.base.history.written, k), At(PerformScript(s, a).base.history.written, k);
      |after| == |before| + 1
  {
    var rid := s.scripts[a.sid].child.value;
    assert ChildFits(s, a.sid);
    assert rid !in At(s.base.history.written, k);
    assert At(PerformScript(s, a).base.history.written, k) == At(s.base.history.written, k) + {rid};
  }

  lemma {:induction false} CallsAreWritten(run: seq<ScriptAction>, k: OperationKey)
    requires LegalScripts(run)
    ensures Calls(run, k) <= |At(AfterScripts(run).base.history.written, k)|
  {
    if run != [] {
      var init, last := run[..|run| - 1], run[|run| - 1];
      var s := AfterScripts(init);
      CallsAreWritten(init, k);
      if CallsFor(s, last, k) {
        AlwaysChildrenFit(init);
        AlwaysWritersWrote(init);
        CallIsWritten(s, last, k);
      } else if BaseOf(s, last).Some? {
        WrittenGrows(s.base, BaseOf(s, last).value, k);
        SubsetSize(At(s.base.history.written, k), At(AfterScripts(run).base.history.written, k));
      }
    }
  }

  lemma CreationCalledAtMostOnce(run: seq<ScriptAction>, k: OperationKey)
    requires LegalScripts(run) && CreatesSession(k)
    ensures Calls(run, k) <= |At(AfterScripts(run).base.history.written, k)| <= 1
  {
    ScriptedRunIsLegal(run);
    ScriptsNeverRecordNotObserved(run, k);
    CreateSessionAtMostOnce(BaseRun(run), k);
    CallsAreWritten(run, k);
  }

  /** The creates of a generation all claim its key, and no other create does. */
  lemma CreatesClaimTheirGeneration(script: Script, g: NextGeneration, f: FirstGeneration)
    ensures script.CreateNext? || script.CreateInitial? ==> RequestOf(script).Some?
    ensures script.CreateNext? ==>
      && (RequestOf(script).value.operationKey == NextKey(g) <==> script.next == g)
      && RequestOf(script).value.operationKey != FirstKey(f)
    ensures script.CreateInitial? ==>
      && (RequestOf(script).value.operationKey == FirstKey(f) <==> script.first == f)
      && RequestOf(script).value.operationKey != NextKey(g)
  {
    if script.CreateNext? {
      NextKeyNamesGeneration(script.next, g);
      FirstKeyNamesGeneration(f, f, script.next);
    }
    if script.CreateInitial? {
      FirstKeyNamesGeneration(script.first, f, g);
    }
  }

  /** However the create, send, reconcile and observe functions interleave, with whatever else runs on
      the store, and wherever they crash: the provider is asked at most once to create the session of a
      next generation, which is one lineage, generation, predecessor, source and branch. */
  lemma NextGenerationCreatedAtMostOnce(run: seq<ScriptAction>, g: NextGeneration)
    requires LegalScripts(run)
    ensures Calls(run, NextKey(g)) <= 1
  {
    CreationCalledAtMostOnce(run, NextKey(g));
  }

  /** And at most once for a first generation. */
  lemma FirstGenerationCreatedAtMostOnce(run: seq<ScriptAction>, g: FirstGeneration)
    requires LegalScripts(run)
    ensures Calls(run, FirstKey(g)) <= 1
  {
    CreationCalledAtMostOnce(run, FirstKey(g));
  }
}
