/** What a script has done so far: the runners it waited for, its provider call and its looks at the store,
    in order; and that what is left of it is what its program leaves after those. */
module ScriptTraces {
  import opened Wrappers
  import opened StateStore
  import opened ControlSystem
  import opened ProtocolScripts

  /** One thing a script did. */
  datatype Deed =
    | Ran(rid: RunnerId, runner: Runner)
    | Called
    | Looked(doc: Doc)

  // ---------------------------------------------------------------------------
  // Programs and traces
  // ---------------------------------------------------------------------------

  /** The same call, claim or resolution, at whatever point. */
  predicate SameTask(a: Runner, b: Runner) {
    || (a.Claimer? && b.Claimer? && a.request == b.request)
    || (a.Resolver? && b.Resolver? && a.laneId == b.laneId && a.key == b.key && a.resolution == b.resolution)
    || (a.Writer? && b.Writer? && a.call == b.call)
  }

  /** The program does this next. */
  predicate Fits(program: Program, e: Deed) {
    match e
    case Ran(_, runner) => Spawns(program) && SameTask(runner, ChildOf(program)) && Over(runner)
    case Called => program.WriteProvider?
    case Looked(_) => program.Look?
  }

  /** What is left of the program then. */
  function Passed(program: Program, e: Deed): Program
    requires Fits(program, e)
  {
    match e
    case Ran(_, runner) => Continue(program, runner)
    case Called => program.rest
    case Looked(doc) => Answered(doc, program.question)
  }

  predicate Follows(program: Program, trace: seq<Deed>)
    decreases |trace|, 0
  {
    trace == [] || (Follows(program, trace[..|trace| - 1]) && Fits(Left(program, trace[..|trace| - 1]), trace[|trace| - 1]))
  }

  function Left(program: Program, trace: seq<Deed>): Program
    requires Follows(program, trace)
    decreases |trace|, 1
  {
    if trace == [] then program else Passed(Left(program, trace[..|trace| - 1]), trace[|trace| - 1])
  }

  /** The first deed may be taken off. */
  lemma {:induction false} FirstDeed(program: Program, trace: seq<Deed>)
    requires Follows(program, trace) && trace != []
    ensures Fits(program, trace[0]) && Follows(Passed(program, trace[0]), trace[1..])
    ensures Left(program, trace) == Left(Passed(program, trace[0]), trace[1..])
  {
    var init := trace[..|trace| - 1];
    if init == [] {
      assert trace[1..] == [];
    } else {
      FirstDeed(program, init);
      var rest := trace[1..];
      assert rest[..|rest| - 1] == init[1..] && init[0] == trace[0];
    }
  }

  /** The program was followed to its end. */
  predicate Completes(program: Program, trace: seq<Deed>) {
    Follows(program, trace) && Left(program, trace) == End
  }

  lemma CompletesStep(program: Program, trace: seq<Deed>)
    requires Completes(program, trace)
    ensures program == End <==> trace == []
    ensures trace != [] ==> Fits(program, trace[0]) && Completes(Passed(program, trace[0]), trace[1..])
  {
    if trace != [] { FirstDeed(program, trace); }
  }

  // ---------------------------------------------------------------------------
  // Traces of runs
  // ---------------------------------------------------------------------------

  /** What a script did in the run. */
  ghost function Trace(run: seq<ScriptAction>, sid: ScriptId): seq<Deed>
    requires LegalScripts(run)
  {
    if run == [] then []
    else
      var init, last := run[..|run| - 1], run[|run| - 1];
      Trace(init, sid) + Adds(AfterScripts(init), last, sid)
  }

  /** What an action adds to the trace of a script. */
  ghost function Adds(s: ScriptedSystem, a: ScriptAction, sid: ScriptId): seq<Deed>
    requires ScriptEnabled(s, a)
  {
    match a
    case Advance(x) =>
      if x == sid then [Ran(s.scripts[sid].child.value, s.base.slots[s.scripts[sid].child.value].runner)] else []
    case CallProvider(x) => if x == sid then [Called] else []
    case Answer(x) => if x == sid then [Looked(s.base.doc)] else []
    case _ => []
  }

  /** The runner at work for a script does what its program says. */
  ghost predicate ChildAtWork(s: ScriptedSystem, live: Live) {
    Spawns(live.program) && live.child.Some? ==>
      live.child.value in s.base.slots && SameTask(s.base.slots[live.child.value].runner, ChildOf(live.program))
  }

  ghost predicate ChildrenAtWork(s: ScriptedSystem) {
    forall sid :: sid in s.scripts ==> ChildAtWork(s, s.scripts[sid])
  }

  lemma TasksStay(s: System, action: Action, rid: RunnerId, q: Runner)
    requires Enabled(s, action) && rid in s.slots && SameTask(s.slots[rid].runner, q)
    ensures rid in Perform(s, action).slots && SameTask(Perform(s, action).slots[rid].runner, q)
  {
  }

  lemma BaseKeepsTasks(s: ScriptedSystem, a: ScriptAction, rid: RunnerId, q: Runner)
    requires ScriptEnabled(s, a) && rid in s.base.slots && SameTask(s.base.slots[rid].runner, q)
    ensures rid in PerformScript(s, a).base.slots && SameTask(PerformScript(s, a).base.slots[rid].runner, q)
  {
    if BaseOf(s, a).Some? { TasksStay(s.base, BaseOf(s, a).value, rid, q); }
  }

  lemma IdleChildAtWork(s: ScriptedSystem, a: ScriptAction, live: Live)
    requires ScriptEnabled(s, a) && ChildAtWork(s, live)
    ensures ChildAtWork(PerformScript(s, a), live)
  {
    if Spawns(live.program) && live.child.Some? {
      BaseKeepsTasks(s, a, live.child.value, ChildOf(live.program));
    }
  }

  lemma SubjectAtWork(s: ScriptedSystem, a: ScriptAction, sid: ScriptId)
    requires ScriptEnabled(s, a) && ChildrenAtWork(s) && Subject(a) == Some(sid) && sid in LiveAfter(s, a)
    ensures ChildAtWork(PerformScript(s, a), LiveAfter(s, a)[sid])
  {
    match a
    case Begin(_, rid) => assert PerformScript(s, a).base.slots[rid].runner == ChildOf(s.scripts[sid].program);
    case Move(_) => IdleChildAtWork(s, a, s.scripts[sid]);
    case Kill(_) => IdleChildAtWork(s, a, s.scripts[sid]);
    case _ =>
  }

  lemma {:induction false} AlwaysAtWork(run: seq<ScriptAction>)
    requires LegalScripts(run)
    ensures ChildrenAtWork(AfterScripts(run))
  {
    if run != [] {
      var init, last := run[..|run| - 1], run[|run| - 1];
      var s := AfterScripts(init);
      AlwaysAtWork(init);
      forall sid | sid in LiveAfter(s, last) ensures ChildAtWork(PerformScript(s, last), LiveAfter(s, last)[sid]) {
        if Subject(last) == Some(sid) {
          SubjectAtWork(s, last, sid);
        } else {
          OthersAreLeftAlone(s, last, sid);
          IdleChildAtWork(s, last, s.scripts[sid]);
        }
      }
    }
  }

  /** The trace grows by what was added, if anything. */
  lemma FollowsOneMore(program: Program, trace: seq<Deed>, added: seq<Deed>, after: Program)
    requires Follows(program, trace)
    requires if added == [] then after == Left(program, trace)
             else |added| == 1 && Fits(Left(program, trace), added[0]) && after == Passed(Left(program, trace), added[0])
    ensures Follows(program, trace + added) && after == Left(program, trace + added)
  {
    if added == [] {
      assert trace + added == trace;
    } else {
      assert added == [added[0]];
      FollowsOneDeed(program, trace, added[0]);
    }
  }

  lemma FollowsOneDeed(program: Program, trace: seq<Deed>, e: Deed)
    requires Follows(program, trace) && Fits(Left(program, trace), e)
    ensures Follows(program, trace + [e]) && Left(program, trace + [e]) == Passed(Left(program, trace), e)
  {
    var longer := trace + [e];
    assert longer[..|longer| - 1] == trace;
  }

  /** An action of a script appends what it adds to the trace, and moves the program on by it. */
  lemma DeedFits(s: ScriptedSystem, a: ScriptAction, sid: ScriptId)
    requires ScriptEnabled(s, a) && ChildrenAtWork(s) && sid in s.scripts && sid in LiveAfter(s, a)
    ensures
      var added := Adds(s, a, sid);
      if added == [] then LiveAfter(s, a)[sid].program == s.scripts[sid].program
      else |added| == 1 && Fits(s.scripts[sid].program, added[0])
           && LiveAfter(s, a)[sid].program == Passed(s.scripts[sid].program, added[0])
    ensures LiveAfter(s, a)[sid].script == s.scripts[sid].script
  {
    assert ChildAtWork(s, s.scripts[sid]);
  }

  lemma {:induction false} UnknownHasNoTrace(run: seq<ScriptAction>, sid: ScriptId)
    requires LegalScripts(run) && sid !in AfterScripts(run).scripts
    ensures Trace(run, sid) == []
  {
    if run != [] {
      UnknownAddsNothing(AfterScripts(run[..|run| - 1]), run[|run| - 1], sid);
      UnknownHasNoTrace(run[..|run| - 1], sid);
    }
  }

  lemma UnknownAddsNothing(s: ScriptedSystem, a: ScriptAction, sid: ScriptId)
    requires ScriptEnabled(s, a) && sid !in LiveAfter(s, a)
    ensures sid !in s.scripts && Adds(s, a, sid) == []
  {
  }

  /** In every run what is left of a script is what its program leaves after what it did. */
  lemma {:induction false} ScriptsFollowPrograms(run: seq<ScriptAction>, sid: ScriptId)
    requires LegalScripts(run) && sid in AfterScripts(run).scripts
    ensures
      var live := AfterScripts(run).scripts[sid];
      Follows(ProgramOf(live.script), Trace(run, sid)) && live.program == Left(ProgramOf(live.script), Trace(run, sid))
  {
    var init, last := run[..|run| - 1], run[|run| - 1];
    var s := AfterScripts(init);
    if sid in s.scripts {
      ScriptsFollowPrograms(init, sid);
      AlwaysAtWork(init);
      DeedFits(s, last, sid);
      FollowsOneMore(ProgramOf(s.scripts[sid].script), Trace(init, sid), Adds(s, last, sid), LiveAfter(s, last)[sid].program);
    } else {
      UnknownHasNoTrace(init, sid);
      LaunchStarts(s, last, sid);
    }
  }

  lemma LaunchStarts(s: ScriptedSystem, a: ScriptAction, sid: ScriptId)
    requires ScriptEnabled(s, a) && sid !in s.scripts && sid in LiveAfter(s, a)
    ensures Adds(s, a, sid) == [] && LiveAfter(s, a)[sid].program == ProgramOf(LiveAfter(s, a)[sid].script)
  {
  }

  /** Whoever a script waited for is over, and stays as it ended. */
  lemma {:induction false} RanStaysOver(run: seq<ScriptAction>, sid: ScriptId, i: nat)
    requires LegalScripts(run) && i < |Trace(run, sid)| && Trace(run, sid)[i].Ran?
    ensures
      var e := Trace(run, sid)[i];
      Over(e.runner) && e.rid in AfterScripts(run).base.slots && SameEnd(AfterScripts(run).base.slots[e.rid].runner, e.runner)
  {
    var init, last := run[..|run| - 1], run[|run| - 1];
    var s := AfterScripts(init);
    if i < |Trace(init, sid)| {
      RanStaysOver(init, sid, i);
      var e := Trace(init, sid)[i];
      assert Trace(run, sid)[i] == e;
      EndStays(s, last, e.rid, e.runner);
    } else {
      EndStays(s, last, Trace(run, sid)[i].rid, Trace(run, sid)[i].runner);
    }
  }

  /** The runner ended the same way; a claimant may have written to the provider since. */
  predicate SameEnd(a: Runner, b: Runner) {
    a == b || (a.Claimer? && b.Claimer? && a.request == b.request && a.claim == b.claim)
  }

  lemma EndStays(s: ScriptedSystem, a: ScriptAction, rid: RunnerId, runner: Runner)
    requires ScriptEnabled(s, a) && rid in s.base.slots && SameEnd(s.base.slots[rid].runner, runner) && Over(runner)
    ensures rid in PerformScript(s, a).base.slots && SameEnd(PerformScript(s, a).base.slots[rid].runner, runner)
  {
    if BaseOf(s, a).Some? { OverStays(s.base, BaseOf(s, a).value, rid, runner); }
  }

  lemma OverStays(s: System, action: Action, rid: RunnerId, runner: Runner)
    requires Enabled(s, action) && rid in s.slots && SameEnd(s.slots[rid].runner, runner) && Over(runner)
    ensures rid in Perform(s, action).slots && SameEnd(Perform(s, action).slots[rid].runner, runner)
  {
  }
}
