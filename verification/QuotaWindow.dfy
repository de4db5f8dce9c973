/** The rolling quota window and the budget on it: what the gate in front of every create counts, and
    the bound it enforces over whole runs. */
module QuotaWindow {
  import opened Wrappers
  import opened Records
  import opened Multisets

  /** A provider task: the timestamp each known field parses to, in the order the fields are tried. */
  type Task = seq<Option<int>>

  /** The first field that parses. */
  function Timestamp(task: Task): Option<int> {
    if task == [] then None
    else if task[0].Some? then task[0]
    else Timestamp(task[1..])
  }

  /** The readable timestamps of an inventory. */
  function Timestamps(tasks: seq<Task>): seq<int> {
    if tasks == [] then []
    else
      var before := Timestamps(tasks[..|tasks| - 1]);
      match Timestamp(tasks[|tasks| - 1])
      case None => before
      case Some(t) => before + [t]
  }

  /** How many of the times lie in the half-open interval (low, high]. */
  function Within(times: seq<int>, low: int, high: int): nat {
    if times == [] then 0
    else
      var last := times[|times| - 1];
      Within(times[..|times| - 1], low, high) + (if low < last <= high then 1 else 0)
  }

  // ---------------------------------------------------------------------------
  // Observation
  // ---------------------------------------------------------------------------

  datatype QuotaError = InvalidWindow | InvalidBudget

  datatype WindowObservation = WindowObservation(
    startedAt: int, observedAt: int, current: nat, historical: nat, unknown: nat, total: nat)
  {
    predicate ConsumptionKnown() {
      unknown == 0
    }

    function ProvenUsed(): Option<nat> {
      if ConsumptionKnown() then Some(current) else None
    }
  }

  /** What an observation of `window` seconds up to `now` counts. */
  ghost predicate Observes(tasks: seq<Task>, now: int, window: int, o: WindowObservation) {
    && o.startedAt == now - window && o.observedAt == now
    && o.current == Within(Timestamps(tasks), now - window, now)
    && o.current + o.historical == |Timestamps(tasks)|
    && o.current + o.historical + o.unknown == o.total == |tasks|
  }

  method FirstTimestamp(task: Task) returns (timestamp: Option<int>)
    ensures timestamp == Timestamp(task)
  {
    timestamp := None;
    var i := 0;
    while i < |task|
      invariant 0 <= i <= |task| && timestamp == None && Timestamp(task) == Timestamp(task[i..])
    {
      timestamp := task[i];
      if timestamp.Some? { return; }
      i := i + 1;
    }
  }

  method ObserveRollingQuotaWindow(tasks: seq<Task>, now: int, window: int)
    returns (r: Result<WindowObservation, QuotaError>)
    ensures r.Err? <==> window <= 0
    ensures r.Ok? ==> Observes(tasks, now, window, r.value)
  {
    if window <= 0 { return Err(InvalidWindow); }
    var cutoff := now - window;
    var current, historical, unknown, total := 0, 0, 0, 0;
    for i := 0 to |tasks|
      invariant total == i && current + historical + unknown == i
      invariant current == Within(Timestamps(tasks[..i]), cutoff, now)
      invariant current + historical == |Timestamps(tasks[..i])|
    {
      assert tasks[..i + 1][..i] == tasks[..i];
      total := total + 1;
      var timestamp := FirstTimestamp(tasks[i]);
      if timestamp.None? {
        unknown := unknown + 1;
      } else {
        var before := Timestamps(tasks[..i]);
        assert (before + [timestamp.value])[..|before|] == before;
        if cutoff < timestamp.value <= now {
          current := current + 1;
        } else {
          historical := historical + 1;
        }
      }
    }
    assert tasks[..|tasks|] == tasks;
    r := Ok(WindowObservation(cutoff, now, current, historical, unknown, total));
  }

  // ---------------------------------------------------------------------------
  // Budget and policy
  // ---------------------------------------------------------------------------

  datatype ProviderWindow = ProviderWindow(
    known: bool, proven: Option<int>, enumerated: Option<int>, hardLimitReached: bool)

  /** What to do when the window's consumption is unknown, once the policy text is normalised. */
  datatype UnknownWindowPolicy = Deny | AllowUnlessCeilingReached | Unrecognised

  datatype BudgetState =
    | BoundaryReached
    | CeilingUnresolved
    | ConsumptionUnknown
    | AvailableByOwnerPolicy
    | EvidenceInconsistent
    | CapacityAvailable
    | ReserveReached

  datatype Budget = Budget(state: BudgetState, safeRemaining: Option<int>, headroom: Option<int>,
                           hardCeilingReached: bool, allowsNewTask: bool)

  function Max(a: int, b: int): int {
    if a < b then b else a
  }

  function OrZero(a: Option<int>): int {
    match a
    case None => 0
    case Some(n) => n
  }

  function EvaluateTaskBudget(ceiling: Option<int>, reserve: int, provider: ProviderWindow, unknown: UnknownWindowPolicy)
    : Result<Budget, QuotaError>
  {
    if ceiling.Some? && ceiling.value < 0 then Err(InvalidBudget)
    else if reserve < 0 then Err(InvalidBudget)
    else if ceiling.Some? && reserve > ceiling.value then Err(InvalidBudget)
    else if provider.enumerated.Some? && provider.enumerated.value < 0 then Err(InvalidBudget)
    else if provider.proven.Some? && provider.proven.value < 0 then Err(InvalidBudget)
    else if unknown == Unrecognised then Err(InvalidBudget)
    else
      var observed := Max(OrZero(provider.enumerated), OrZero(provider.proven));
      var limit := if ceiling.Some? then Max(0, ceiling.value - reserve) else 0;
      if provider.hardLimitReached || (ceiling.Some? && observed >= limit) then
        Ok(Budget(BoundaryReached, if provider.known then Some(0) else None, Some(0), true, false))
      else if ceiling.None? then
        Ok(Budget(CeilingUnresolved, None, None, false, false))
      else if !provider.known then
        if unknown == Deny then
          Ok(Budget(ConsumptionUnknown, None, Some(Max(0, limit - observed)), false, false))
        else
          Ok(Budget(AvailableByOwnerPolicy, None, Some(Max(0, limit - observed)), false, true))
      else if provider.proven.None? then Err(InvalidBudget)
      else if provider.enumerated.Some? && provider.enumerated.value > provider.proven.value then
        Ok(Budget(EvidenceInconsistent, None, None, false, false))
      else
        var remaining := Max(0, limit - provider.proven.value);
        Ok(Budget(if remaining > 0 then CapacityAvailable else ReserveReached,
                  Some(remaining), Some(remaining), false, remaining > 0))
  }

  /** The capacity part of a project's policy, after precedence between its sources. */
  datatype CapacityPolicy = CapacityPolicy(
    ceiling: Option<nat>, reserveTarget: nat, reserveIsHard: bool, unknownWindow: UnknownWindowPolicy)

  datatype GenerationGrant = GenerationGrant(necessaryAuthorized: bool, effectAuthorized: bool)

  /** The durable effect state of the lane: an unresolved write or action blocks every new effect. */
  datatype EffectState = EffectState(unknownWrite: bool, actionInFlight: bool, operation: Option<OperationState>)
  {
    predicate Blocks() {
      unknownWrite || actionInFlight || operation == Some(InFlight) || operation == Some(OperationState.Unknown)
    }
  }

  datatype ExecutionPolicy = ExecutionPolicy(grant: GenerationGrant, budget: Budget)
  {
    predicate GenerationAllowed() {
      && grant.necessaryAuthorized && grant.effectAuthorized
      && budget.allowsNewTask && !budget.hardCeilingReached
    }
  }

  function HardReserve(policy: CapacityPolicy): nat {
    if policy.reserveIsHard then policy.reserveTarget else 0
  }

  function ResolveExecutionPolicy(policy: CapacityPolicy, grant: GenerationGrant, provider: ProviderWindow,
                                  state: EffectState): Result<ExecutionPolicy, QuotaError>
  {
    if policy.ceiling.Some? && policy.reserveTarget > policy.ceiling.value then Err(InvalidBudget)
    else
      match EvaluateTaskBudget(policy.ceiling, HardReserve(policy), provider, policy.unknownWindow)
      case Err(e) => Err(e)
      case Ok(budget) =>
        Ok(ExecutionPolicy(if state.Blocks() then grant.(effectAuthorized := false) else grant, budget))
  }

  /** What the provider observation is when it comes from an inventory listing. */
  function ObservedWindow(o: WindowObservation, hardLimitReached: bool): ProviderWindow {
    ProviderWindow(o.ConsumptionKnown(), o.ProvenUsed(), Some(o.current), hardLimitReached)
  }

  /** The gate in front of a create, on an observation of the inventory. */
  predicate GateAllows(policy: CapacityPolicy, grant: GenerationGrant, o: WindowObservation, hardLimitReached: bool,
                       state: EffectState)
  {
    var resolved := ResolveExecutionPolicy(policy, grant, ObservedWindow(o, hardLimitReached), state);
    resolved.Ok? && resolved.value.GenerationAllowed()
  }

  /** The gate opens exactly when the grant is complete, nothing is unresolved or refused, the policy
      is well formed, and what the window holds leaves room under the ceiling less the hard
      reserve; unreadable timestamps close it unless the owner's policy says otherwise. */
  lemma GateAllowsExactlyWhen(policy: CapacityPolicy, grant: GenerationGrant, o: WindowObservation,
                              hardLimitReached: bool, state: EffectState)
    ensures GateAllows(policy, grant, o, hardLimitReached, state) <==>
      && grant.necessaryAuthorized && grant.effectAuthorized && !hardLimitReached
      && !state.unknownWrite && !state.actionInFlight
      && state.operation != Some(InFlight) && state.operation != Some(OperationState.Unknown)
      && policy.ceiling.Some? && policy.reserveTarget <= policy.ceiling.value
      && o.current < policy.ceiling.value - (if policy.reserveIsHard then policy.reserveTarget else 0)
      && (policy.unknownWindow == AllowUnlessCeilingReached || (policy.unknownWindow == Deny && o.unknown == 0))
  {
  }

  /** What is known to be used of the window. */
  function KnownUse(provider: ProviderWindow): int {
    Max(if provider.enumerated.Some? then provider.enumerated.value else 0, if provider.proven.Some? then provider.proven.value else 0)
  }

  predicate SoundAsk(ceiling: Option<int>, reserve: int, provider: ProviderWindow, unknown: UnknownWindowPolicy) {
    && 0 <= reserve && (ceiling.Some? ==> reserve <= ceiling.value)
    && (provider.enumerated.Some? ==> 0 <= provider.enumerated.value) && (provider.proven.Some? ==> 0 <= provider.proven.value)
    && unknown != Unrecognised
  }

  /** Neither the provider nor the ceiling less the reserve has been reached. */
  predicate RoomIsLeft(ceiling: Option<int>, reserve: int, provider: ProviderWindow) {
    ceiling.Some? && !provider.hardLimitReached && KnownUse(provider) < ceiling.value - reserve
  }

  /** The budget is an error exactly for a malformed question, or for a known window without a proven
      count where there is room; a task is allowed exactly where room is left and the window is known and
      consistent, or unknown and the owner allows that; and what remains is the ceiling less the reserve
      less what is proven. */
  lemma BudgetExactly(ceiling: Option<int>, reserve: int, provider: ProviderWindow, unknown: UnknownWindowPolicy)
    ensures
      var r := EvaluateTaskBudget(ceiling, reserve, provider, unknown);
      && (r.Err? <==>
            || !SoundAsk(ceiling, reserve, provider, unknown)
            || (RoomIsLeft(ceiling, reserve, provider) && provider.known && provider.proven == None))
      && (r.Ok? ==>
            && (r.value.allowsNewTask <==>
                  && RoomIsLeft(ceiling, reserve, provider)
                  && if provider.known then provider.enumerated.Some? ==> provider.enumerated.value <= provider.proven.value
                     else unknown == AllowUnlessCeilingReached)
            && (r.value.hardCeilingReached <==>
                  provider.hardLimitReached || (ceiling.Some? && ceiling.value - reserve <= KnownUse(provider)))
            && (r.value.state == CeilingUnresolved <==> ceiling == None && !provider.hardLimitReached)
            && (r.value.state == EvidenceInconsistent <==>
                  && RoomIsLeft(ceiling, reserve, provider) && provider.known && provider.proven.Some?
                  && provider.enumerated.Some? && provider.enumerated.value > provider.proven.value)
            && (r.value.allowsNewTask && provider.known ==>
                  r.value.safeRemaining == Some(ceiling.value - reserve - provider.proven.value))
            && (r.value.allowsNewTask && !provider.known ==>
                  r.value.safeRemaining == None && r.value.headroom == Some(ceiling.value - reserve - KnownUse(provider))))
  {
  }

  // ---------------------------------------------------------------------------
  // Counting
  // ---------------------------------------------------------------------------

  lemma {:induction false} WithinConcat(a: seq<int>, b: seq<int>, low: int, high: int)
    ensures Within(a + b, low, high) == Within(a, low, high) + Within(b, low, high)
  {
    if b == [] {
      assert a + b == a;
    } else {
      WithinConcat(a, b[..|b| - 1], low, high);
      assert (a + b)[..|a + b| - 1] == a + b[..|b| - 1];
    }
  }

  lemma WithinOneOut(b: seq<int>, k: nat, low: int, high: int)
    requires k < |b|
    ensures Within(b, low, high) == Within(b[..k] + b[k + 1..], low, high) + (if low < b[k] <= high then 1 else 0)
  {
    assert b == b[..k] + [b[k]] + b[k + 1..];
    WithinConcat(b[..k] + [b[k]], b[k + 1..], low, high);
    WithinConcat(b[..k], [b[k]], low, high);
    WithinConcat(b[..k], b[k + 1..], low, high);
  }

  /** Counting respects inclusion of multisets. */
  lemma {:induction false} WithinMonotone(a: seq<int>, b: seq<int>, low: int, high: int)
    requires multiset(a) <= multiset(b)
    ensures Within(a, low, high) <= Within(b, low, high)
  {
    if a != [] {
      var n := |a| - 1;
      var k := TakeOut(a, b);
      WithinMonotone(a[..n], b[..k] + b[k + 1..], low, high);
      WithinOneOut(b, k, low, high);
    }
  }

  lemma {:induction false} TimestampsConcat(a: seq<Task>, b: seq<Task>)
    ensures Timestamps(a + b) == Timestamps(a) + Timestamps(b)
  {
    if b == [] {
      assert a + b == a;
    } else {
      TimestampsConcat(a, b[..|b| - 1]);
      assert (a + b)[..|a + b| - 1] == a + b[..|b| - 1];
    }
  }

  /** A listed task with a readable timestamp that is not in (low, high]. */
  predicate Outside(task: Task, low: int, high: int) {
    Timestamp(task).Some? && !(low < Timestamp(task).value <= high)
  }

  lemma {:induction false} OutsideCountsNothing(extra: seq<Task>, low: int, high: int)
    requires forall i :: 0 <= i < |extra| ==> Outside(extra[i], low, high)
    ensures Within(Timestamps(extra), low, high) == 0 && |Timestamps(extra)| == |extra|
  {
    if extra != [] {
      var before := Timestamps(extra[..|extra| - 1]);
      assert Outside(extra[|extra| - 1], low, high);
      OutsideCountsNothing(extra[..|extra| - 1], low, high);
      WithinConcat(before, [Timestamp(extra[|extra| - 1]).value], low, high);
    }
  }

  lemma TasksOutsideAddNothing(a: seq<Task>, b: seq<Task>, extra: seq<Task>, low: int, high: int)
    requires forall i :: 0 <= i < |extra| ==> Outside(extra[i], low, high)
    ensures Within(Timestamps(a + extra + b), low, high) == Within(Timestamps(a + b), low, high)
    ensures |Timestamps(a + extra + b)| == |Timestamps(a + b)| + |extra|
  {
    OutsideCountsNothing(extra, low, high);
    TimestampsConcat(a, b);
    TimestampsConcat(a + extra, b);
    TimestampsConcat(a, extra);
    WithinConcat(Timestamps(a), Timestamps(b), low, high);
    WithinConcat(Timestamps(a) + Timestamps(extra), Timestamps(b), low, high);
    WithinConcat(Timestamps(a), Timestamps(extra), low, high);
  }

  // ---------------------------------------------------------------------------
  // What an observation counts
  // ---------------------------------------------------------------------------

  /** The task's timestamp is the one its first readable field holds. */
  predicate StampedAt(task: Task, t: int) {
    exists i :: 0 <= i < |task| && task[i] == Some(t) && forall j :: 0 <= j < i ==> task[j] == None
  }

  predicate Unreadable(task: Task) {
    forall i :: 0 <= i < |task| ==> task[i] == None
  }

  lemma {:induction false} TimestampExactly(task: Task, t: int)
    ensures Timestamp(task) == Some(t) <==> StampedAt(task, t)
    ensures Timestamp(task) == None <==> Unreadable(task)
  {
    if task != [] && task[0].None? {
      var rest := task[1..];
      TimestampExactly(rest, t);
      if i :| 0 <= i < |rest| && rest[i] == Some(t) && forall j :: 0 <= j < i ==> rest[j] == None {
        assert task[i + 1] == Some(t) && forall j :: 1 <= j < i + 1 ==> task[j] == rest[j - 1];
      }
      if i :| 0 <= i < |task| && task[i] == Some(t) && forall j :: 0 <= j < i ==> task[j] == None {
        assert rest[i - 1] == Some(t) && forall j :: 0 <= j < i - 1 ==> rest[j] == task[j + 1];
      }
      if Unreadable(rest) {
        assert forall i :: 1 <= i < |task| ==> task[i] == rest[i - 1];
      }
    }
    if task != [] && task[0].Some? && Timestamp(task) == Some(t) { assert task[0] == Some(t); }
  }

  /** The tasks stamped in (low, high], by their place in the listing. */
  ghost function StampedWithin(tasks: seq<Task>, low: int, high: int): set<nat> {
    set i: nat | i < |tasks| && Timestamp(tasks[i]).Some? && low < Timestamp(tasks[i]).value <= high
  }

  lemma {:induction false} WithinCountsTasks(tasks: seq<Task>, low: int, high: int)
    ensures Within(Timestamps(tasks), low, high) == |StampedWithin(tasks, low, high)|
  {
    if tasks != [] {
      var n := |tasks| - 1;
      var before, last := tasks[..n], Timestamp(tasks[n]);
      WithinCountsTasks(before, low, high);
      if last.Some? { WithinConcat(Timestamps(before), [last.value], low, high); }
      if last.Some? && low < last.value <= high {
        assert StampedWithin(tasks, low, high) == StampedWithin(before, low, high) + {n};
      } else {
        assert StampedWithin(tasks, low, high) == StampedWithin(before, low, high);
      }
    }
  }

  /** The tasks without a readable timestamp, by their place in the listing. */
  ghost function UnreadableAmong(tasks: seq<Task>): set<nat> {
    set i: nat | i < |tasks| && Unreadable(tasks[i])
  }

  lemma {:induction false} UnreadableAreMissing(tasks: seq<Task>)
    ensures |Timestamps(tasks)| + |UnreadableAmong(tasks)| == |tasks|
  {
    if tasks != [] {
      var n := |tasks| - 1;
      var before := tasks[..n];
      UnreadableAreMissing(before);
      TimestampExactly(tasks[n], 0);
      if Unreadable(tasks[n]) {
        assert UnreadableAmong(tasks) == UnreadableAmong(before) + {n};
      } else {
        assert UnreadableAmong(tasks) == UnreadableAmong(before);
      }
    }
  }

  /** An observation counts as current the tasks stamped after the cutoff and not after now, as unknown
      those without a readable timestamp, and as historical all others. */
  lemma ObservationCounts(tasks: seq<Task>, now: int, window: int, o: WindowObservation)
    requires Observes(tasks, now, window, o)
    ensures o.current == |StampedWithin(tasks, now - window, now)|
    ensures o.unknown == |UnreadableAmong(tasks)|
    ensures o.historical == |tasks| - o.current - o.unknown
    ensures forall i: nat, t: int :: i < |tasks| && StampedAt(tasks[i], t) ==>
      (i in StampedWithin(tasks, now - window, now) <==> now - window < t <= now)
  {
    WithinCountsTasks(tasks, now - window, now);
    UnreadableAreMissing(tasks);
    forall i: nat, t: int | i < |tasks| && StampedAt(tasks[i], t)
      ensures i in StampedWithin(tasks, now - window, now) <==> now - window < t <= now
    {
      TimestampExactly(tasks[i], t);
    }
  }

  // ---------------------------------------------------------------------------
  // What the decision depends on
  // ---------------------------------------------------------------------------

  /** Listing further tasks with readable timestamps outside the window, old or in the future, never
      changes the decision. */
  lemma TasksOutsideWindowDoNotCount(policy: CapacityPolicy, grant: GenerationGrant, hardLimitReached: bool,
                                     state: EffectState, now: int, window: int, a: seq<Task>, b: seq<Task>, extra: seq<Task>,
                                     without: WindowObservation, with: WindowObservation)
    requires forall i :: 0 <= i < |extra| ==> Outside(extra[i], now - window, now)
    requires Observes(a + b, now, window, without) && Observes(a + extra + b, now, window, with)
    ensures GateAllows(policy, grant, with, hardLimitReached, state)
       <==> GateAllows(policy, grant, without, hardLimitReached, state)
  {
    TasksOutsideAddNothing(a, b, extra, now - window, now);
    GateAllowsExactlyWhen(policy, grant, without, hardLimitReached, state);
    GateAllowsExactlyWhen(policy, grant, with, hardLimitReached, state);
  }

  // ---------------------------------------------------------------------------
  // The bound over whole runs
  // ---------------------------------------------------------------------------

  /** A create: when it passed the gate, the inventory it was judged on, and the observation of it. */
  datatype Create = Create(at: int, inventory: seq<Task>, observation: WindowObservation,
                           grant: GenerationGrant, hardLimitReached: bool, state: EffectState)

  function Times(creates: seq<Create>): seq<int> {
    if creates == [] then [] else Times(creates[..|creates| - 1]) + [creates[|creates| - 1].at]
  }

  /** The create passed the gate on an observation of an inventory that lists every one of the
      `earlier` creates with its time, whatever else it lists. */
  ghost predicate PassedGate(policy: CapacityPolicy, window: int, earlier: seq<int>, create: Create) {
    && Observes(create.inventory, create.at, window, create.observation)
    && multiset(earlier) <= multiset(Timestamps(create.inventory))
    && GateAllows(policy, create.grant, create.observation, create.hardLimitReached, create.state)
  }

  /** Every create passed the gate at its own time, and times do not go back. */
  ghost predicate GatedRun(policy: CapacityPolicy, window: int, creates: seq<Create>) {
    creates == [] ||
    (var earlier, last := creates[..|creates| - 1], creates[|creates| - 1];
     && GatedRun(policy, window, earlier)
     && PassedGate(policy, window, Times(earlier), last)
     && (earlier != [] ==> earlier[|earlier| - 1].at <= last.at))
  }

  lemma {:induction false} TimesDoNotGoBack(policy: CapacityPolicy, window: int, creates: seq<Create>, i: nat)
    requires GatedRun(policy, window, creates) && i < |Times(creates)|
    ensures creates != [] && Times(creates)[i] <= creates[|creates| - 1].at
  {
    var earlier := creates[..|creates| - 1];
    if i < |Times(earlier)| {
      TimesDoNotGoBack(policy, window, earlier, i);
    }
  }

  lemma {:induction false} WiderCountsMore(times: seq<int>, low: int, high: int, low': int, high': int)
    requires forall i :: 0 <= i < |times| && low < times[i] <= high ==> low' < times[i] <= high'
    ensures Within(times, low, high) <= Within(times, low', high')
  {
    if times != [] {
      WiderCountsMore(times[..|times| - 1], low, high, low', high');
    }
  }

  lemma PassedNeedsLimit(policy: CapacityPolicy, window: int, earlier: seq<int>, create: Create)
    requires PassedGate(policy, window, earlier, create)
    ensures policy.ceiling.Some? && HardReserve(policy) < policy.ceiling.value
  {
    GateAllowsExactlyWhen(policy, create.grant, create.observation, create.hardLimitReached, create.state);
  }

  /** One create fits: the creates before it that share a window with it leave room for it. */
  lemma CreateFitsLimit(policy: CapacityPolicy, window: int, last: Create, earlier: seq<int>, start: int)
    requires PassedGate(policy, window, earlier, last)
    requires forall i :: 0 <= i < |earlier| ==> earlier[i] <= last.at
    requires start < last.at <= start + window
    ensures policy.ceiling.Some?
    ensures Within(earlier, start, start + window) < policy.ceiling.value - HardReserve(policy)
  {
    GateAllowsExactlyWhen(policy, last.grant, last.observation, last.hardLimitReached, last.state);
    WiderCountsMore(earlier, start, start + window, last.at - window, last.at);
    WithinMonotone(earlier, Timestamps(last.inventory), last.at - window, last.at);
  }

  /** No half-open window of the quota's length ever holds more creates than the ceiling less the
      hard reserve. */
  lemma {:induction false} WindowNeverExceedsLimit(policy: CapacityPolicy, window: int, creates: seq<Create>, start: int)
    requires window > 0 && GatedRun(policy, window, creates) && creates != []
    ensures policy.ceiling.Some?
    ensures Within(Times(creates), start, start + window) <= policy.ceiling.value - HardReserve(policy)
  {
    var n := |creates| - 1;
    var earlier, last := Times(creates[..n]), creates[n];
    assert Times(creates)[..|Times(creates)| - 1] == earlier;
    if start < last.at <= start + window {
      forall i | 0 <= i < |earlier| ensures earlier[i] <= last.at {
        TimesDoNotGoBack(policy, window, creates[..n], i);
      }
      CreateFitsLimit(policy, window, last, earlier, start);
    } else if n > 0 {
      WindowNeverExceedsLimit(policy, window, creates[..n], start);
    } else {
      PassedNeedsLimit(policy, window, Times(creates[..n]), last);
    }
  }

  lemma {:induction false} WithinSplits(times: seq<int>, low: int, middle: int, high: int)
    requires low <= middle <= high
    ensures Within(times, low, high) == Within(times, low, middle) + Within(times, middle, high)
  {
    if times != [] {
      WithinSplits(times[..|times| - 1], low, middle, high);
    }
  }

  lemma {:induction false} WithinOfAbsentTime(times: seq<int>, t: int)
    requires t !in times
    ensures Within(times, t - 1, t) == 0
  {
    if times != [] {
      WithinOfAbsentTime(times[..|times| - 1], t);
    }
  }

  /** No half-open window of this length holds more than the limit. */
  ghost predicate KeepsLimit(times: seq<int>, window: int, limit: int) {
    forall low, high :: high == low + window ==> Within(times, low, high) <= limit
  }

  lemma GatedRunKeepsLimit(policy: CapacityPolicy, window: int, creates: seq<Create>)
    requires window > 0 && GatedRun(policy, window, creates) && creates != []
    ensures policy.ceiling.Some? && KeepsLimit(Times(creates), window, policy.ceiling.value - HardReserve(policy))
  {
    WindowNeverExceedsLimit(policy, window, creates, 0);
    forall low, high | high == low + window
      ensures Within(Times(creates), low, high) <= policy.ceiling.value - HardReserve(policy)
    {
      WindowNeverExceedsLimit(policy, window, creates, low);
    }
  }

  /** What two half-open windows one tick apart say about the closed window they cover together. */
  lemma ClosedFromHalfOpen(times: seq<int>, window: int, start: int, limit: int)
    requires window > 0 && KeepsLimit(times, window, limit)
    ensures Within(times, start - 1, start + window) <= 2 * limit
    ensures start !in times || start + window !in times ==> Within(times, start - 1, start + window) <= limit
  {
    WithinSplits(times, start - 1, start, start + window);
    WithinSplits(times, start - 1, start, start - 1 + window);
    WithinSplits(times, start - 1, start + window - 1, start + window);
    if start !in times {
      WithinOfAbsentTime(times, start);
    }
    if start + window !in times {
      WithinOfAbsentTime(times, start + window);
    }
  }

  /** A window closed at both ends, [start, start + window], is not what the gate counts: it can hold up
      to twice the limit, and more than the limit only if creates lie at both of its ends. */
  lemma ClosedWindowNeverExceedsTwice(policy: CapacityPolicy, window: int, creates: seq<Create>, start: int)
    requires window > 0 && GatedRun(policy, window, creates) && creates != []
    ensures policy.ceiling.Some?
    ensures Within(Times(creates), start - 1, start + window) <= 2 * (policy.ceiling.value - HardReserve(policy))
    ensures start !in Times(creates) || start + window !in Times(creates) ==>
      Within(Times(creates), start - 1, start + window) <= policy.ceiling.value - HardReserve(policy)
  {
    GatedRunKeepsLimit(policy, window, creates);
    ClosedFromHalfOpen(Times(creates), window, start, policy.ceiling.value - HardReserve(policy));
  }

  /** The listing of tasks created at these times. */
  function Listing(times: seq<int>): seq<Task> {
    seq(|times|, i requires 0 <= i < |times| => [Some(times[i])])
  }

  lemma {:induction false} ListingShows(times: seq<int>)
    ensures Timestamps(Listing(times)) == times
  {
    if times != [] {
      var n := |times| - 1;
      ListingShows(times[..n]);
      assert Listing(times)[..n] == Listing(times[..n]);
    }
  }

  /** The n-th create of a run that fills the window ending at 0 and the one ending at `window`. */
  function Filler(limit: nat, window: int, earlier: seq<int>): Create {
    var at := if |earlier| < limit then 0 else window;
    var current := Within(earlier, at - window, at);
    Create(at, Listing(earlier),
           WindowObservation(at - window, at, current, if current <= |earlier| then |earlier| - current else 0, 0, |earlier|),
           GenerationGrant(true, true), false, EffectState(false, false, None))
  }

  /** The bound on closed windows is met: whatever the limit, a gated run holds twice as many creates
      in one of them, the limit at 0 and the limit at the window's end. */
  lemma ClosedWindowsCanHoldTwice(limit: nat, window: int) returns (policy: CapacityPolicy, creates: seq<Create>)
    requires window > 0 && limit > 0
    ensures GatedRun(policy, window, creates)
    ensures policy.ceiling == Some(limit) && HardReserve(policy) == 0
    ensures Within(Times(creates), -1, window) == 2 * limit
  {
    policy := CapacityPolicy(Some(limit), 0, false, Deny);
    creates := [];
    while |creates| < 2 * limit
      invariant |Times(creates)| == |creates| <= 2 * limit && GatedRun(policy, window, creates)
      invariant Within(Times(creates), -window, 0) == Within(Times(creates), -1, 0) == if |creates| < limit then |creates| else limit
      invariant Within(Times(creates), 0, window) == if |creates| < limit then 0 else |creates| - limit
      invariant creates != [] ==> creates[|creates| - 1].at == if |creates| <= limit then 0 else window
    {
      creates := AddFiller(policy, limit, window, creates);
    }
    WithinSplits(Times(creates), -1, 0, window);
  }

  lemma AddFiller(policy: CapacityPolicy, limit: nat, window: int, creates: seq<Create>) returns (longer: seq<Create>)
    requires window > 0 && limit > 0 && policy == CapacityPolicy(Some(limit), 0, false, Deny)
    requires |Times(creates)| == |creates| < 2 * limit && GatedRun(policy, window, creates)
    requires Within(Times(creates), -window, 0) == if |creates| < limit then |creates| else limit
    requires Within(Times(creates), 0, window) == if |creates| < limit then 0 else |creates| - limit
    requires creates != [] ==> creates[|creates| - 1].at == if |creates| <= limit then 0 else window
    ensures GatedRun(policy, window, longer) && |longer| == |creates| + 1
    ensures Times(longer) == Times(creates) + [if |creates| < limit then 0 else window]
    ensures longer[|creates|].at == if |creates| < limit then 0 else window
  {
    var earlier := Times(creates);
    var last := Filler(limit, window, earlier);
    ListingShows(earlier);
    longer := creates + [last];
    assert longer[..|creates|] == creates;
    GateAllowsExactlyWhen(policy, last.grant, last.observation, last.hardLimitReached, last.state);
    assert PassedGate(policy, window, earlier, last);
  }
}
