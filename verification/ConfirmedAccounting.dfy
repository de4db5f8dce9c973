/** The confirmed-generation counter: exactly once per key within its window, over every
    interleaving of retrying callers. */
module ConfirmedAccounting {
  import opened Records
  import opened StateStore
  import opened ClaimProtocol
  import opened LaneCalls
  import opened ControlSystem
  import opened ControlInvariants
  import opened GenerationChain

  type AccountedPair = (OperationKey, TransitionKey)

  /** The pairs counted on a lane during a run, oldest first. */
  ghost function AccountedPairs(run: seq<Action>, lane: LaneId): seq<AccountedPair>
    requires Legal(run)
  {
    if run == [] then []
    else
      var init, last := run[..|run| - 1], run[|run| - 1];
      var was, now := EvidenceAt(After(init).doc, lane).accounting, EvidenceAt(After(run).doc, lane).accounting;
      if now != was && last.Step? && After(init).slots[last.id].runner.Writer?
         && After(init).slots[last.id].runner.call.AccountGeneration?
      then
        var call := After(init).slots[last.id].runner.call;
        AccountedPairs(init, lane) + [(call.operationKey, call.transitionKey)]
      else AccountedPairs(init, lane)
  }

  function Newest<T>(items: seq<T>): seq<T> {
    if |items| <= ACCOUNTING_WINDOW then items else items[|items| - ACCOUNTING_WINDOW..]
  }

  function Operations(pairs: seq<AccountedPair>): seq<OperationKey> {
    seq(|pairs|, i requires 0 <= i < |pairs| => pairs[i].0)
  }

  function Transitions(pairs: seq<AccountedPair>): seq<TransitionKey> {
    seq(|pairs|, i requires 0 <= i < |pairs| => pairs[i].1)
  }

  /** Pairs fewer than a window apart share neither key. */
  predicate LocallyDistinct(pairs: seq<AccountedPair>) {
    forall i, j :: 0 <= i < j < |pairs| && j - i <= ACCOUNTING_WINDOW ==>
      pairs[i].0 != pairs[j].0 && pairs[i].1 != pairs[j].1
  }

  /** The stored evidence is the newest window of the pairs counted so far. */
  ghost predicate Reflects(a: Accounting, pairs: seq<AccountedPair>) {
    && a.count == |pairs|
    && a.operations == Newest(Operations(pairs))
    && a.transitions == Newest(Transitions(pairs))
    && LocallyDistinct(pairs)
  }

  /** The retained keys are those of the pairs behind the skipped ones. */
  lemma RetainedAt(a: Accounting, pairs: seq<AccountedPair>) returns (skipped: nat)
    requires Reflects(a, pairs)
    ensures |pairs| == skipped + |a.operations| && |a.transitions| == |a.operations|
    ensures skipped == if |pairs| <= ACCOUNTING_WINDOW then 0 else |pairs| - ACCOUNTING_WINDOW
    ensures forall k :: 0 <= k < |a.operations| ==>
      a.operations[k] == pairs[skipped + k].0 && a.transitions[k] == pairs[skipped + k].1
  {
    skipped := |pairs| - |a.operations|;
  }

  predicate AmongNewest(pairs: seq<AccountedPair>, op: OperationKey, t: TransitionKey) {
    exists i :: 0 <= i < |pairs| && |pairs| - i <= ACCOUNTING_WINDOW && (pairs[i].0 == op || pairs[i].1 == t)
  }

  /** A key is retained exactly while it is among the newest window. */
  lemma RetainedExactly(a: Accounting, pairs: seq<AccountedPair>, op: OperationKey, t: TransitionKey)
    requires Reflects(a, pairs)
    ensures AlreadyAccounted(a, op, t) <==> AmongNewest(pairs, op, t)
  {
    if AlreadyAccounted(a, op, t) { RetainedIsNew(a, pairs, op, t); }
    if AmongNewest(pairs, op, t) { NewIsRetained(a, pairs, op, t); }
  }

  lemma RetainedIsNew(a: Accounting, pairs: seq<AccountedPair>, op: OperationKey, t: TransitionKey)
    requires Reflects(a, pairs) && AlreadyAccounted(a, op, t)
    ensures AmongNewest(pairs, op, t)
  {
    var skipped := RetainedAt(a, pairs);
    if op in a.operations {
      var k :| 0 <= k < |a.operations| && a.operations[k] == op;
      assert pairs[skipped + k].0 == op;
    } else {
      var k :| 0 <= k < |a.transitions| && a.transitions[k] == t;
      assert pairs[skipped + k].1 == t;
    }
  }

  lemma NewIsRetained(a: Accounting, pairs: seq<AccountedPair>, op: OperationKey, t: TransitionKey)
    requires Reflects(a, pairs) && AmongNewest(pairs, op, t)
    ensures AlreadyAccounted(a, op, t)
  {
    var skipped := RetainedAt(a, pairs);
    var i :| 0 <= i < |pairs| && |pairs| - i <= ACCOUNTING_WINDOW && (pairs[i].0 == op || pairs[i].1 == t);
    assert a.operations[i - skipped] == pairs[i].0 && a.transitions[i - skipped] == pairs[i].1;
  }

  lemma CountedReflects(a: Accounting, pairs: seq<AccountedPair>, op: OperationKey, t: TransitionKey)
    requires Reflects(a, pairs) && !AlreadyAccounted(a, op, t)
    ensures Reflects(Counted(a, op, t), pairs + [(op, t)])
  {
    var longer := pairs + [(op, t)];
    RetainedExactly(a, pairs, op, t);
    assert Operations(longer) == Operations(pairs) + [op];
    assert Transitions(longer) == Transitions(pairs) + [t];
    forall i, j | 0 <= i < j < |longer| && j - i <= ACCOUNTING_WINDOW
      ensures longer[i].0 != longer[j].0 && longer[i].1 != longer[j].1
    {
      if j == |pairs| {
        assert longer[i] == pairs[i] && |pairs| - i <= ACCOUNTING_WINDOW;
      }
    }
  }

  lemma WriteFinishesCall(doc: Doc, runner: Runner)
    requires runner.Writer? && MoveOf(doc, runner).change != NoChange
    ensures
      var after := MoveOf(doc, runner).runner;
      after.Writer? && after.call == runner.call && after.writer.Finished?
  {
  }

  /** The counter of a lane that is not being observed moves only by a call that counts its pair and
      is finished by that. */
  lemma AccountingMoved(s: System, id: RunnerId, lane: LaneId)
    requires id in s.slots && Sound(s) && RunnerFits(s.slots[id].runner) && !ObservesLane(s.slots[id].runner, lane)
    ensures
      var runner, move := s.slots[id].runner, MoveOf(s.doc, s.slots[id].runner);
      var was, now := EvidenceAt(s.doc, lane).accounting, EvidenceAt(Moved(s, id, move).doc, lane).accounting;
      now != was ==>
        && IsAccount(runner, lane) && FinishedAccount(move.runner, lane) && PairOf(move.runner) == PairOf(runner)
        && !AlreadyAccounted(was, PairOf(runner).0, PairOf(runner).1)
        && now == Counted(was, PairOf(runner).0, PairOf(runner).1)
  {
    var runner := s.slots[id].runner;
    MoveIsFresh(s.doc, runner);
    MoveIsEvidenceMove(s.doc, runner);
    var move := MoveOf(s.doc, runner);
    if runner.Writer? && move.change != NoChange { WriteFinishesCall(s.doc, runner); }
    AccountingOfMove(s, id, move, lane);
  }

  lemma AccountingOfMove(s: System, id: RunnerId, move: Move, lane: LaneId)
    requires id in s.slots && EvidenceMove(s.doc, s.slots[id].runner, move.change) && ProperChange(move.change)
    requires !ObservesLane(s.slots[id].runner, lane)
    requires s.slots[id].runner.Writer? && move.change.LaneWrite? ==> move.change.lane == s.slots[id].runner.call.laneId
    ensures
      var runner := s.slots[id].runner;
      var was, now := EvidenceAt(s.doc, lane).accounting, EvidenceAt(Moved(s, id, move).doc, lane).accounting;
      now != was ==>
        && IsAccount(runner, lane) && move.change != NoChange
        && !AlreadyAccounted(was, PairOf(runner).0, PairOf(runner).1)
        && now == Counted(was, PairOf(runner).0, PairOf(runner).1)
  {
  }

  predicate IsAccount(runner: Runner, lane: LaneId) {
    runner.Writer? && runner.call.AccountGeneration? && runner.call.laneId == lane
  }

  /** A counting call on the lane that was answered: accounted, or already accounted. */
  predicate FinishedAccount(runner: Runner, lane: LaneId) {
    IsAccount(runner, lane) && runner.writer.Finished?
  }

  function PairOf(runner: Runner): AccountedPair
    requires runner.Writer? && runner.call.AccountGeneration?
  {
    (runner.call.operationKey, runner.call.transitionKey)
  }

  /** In every run that does not observe the counter's lane as a lineage, the stored counter and lists
      are those of the pairs counted. */
  lemma {:induction false} AccountingReflectsRun(run: seq<Action>, lane: LaneId)
    requires Legal(run) && Unobserved(run, lane)
    ensures Reflects(EvidenceAt(After(run).doc, lane).accounting, AccountedPairs(run, lane))
  {
    if run != [] {
      var init, last := run[..|run| - 1], run[|run| - 1];
      AccountingReflectsRun(init, lane);
      AlwaysSound(init);
      var s := After(init);
      if last.Step? {
        NobodyObserves(init, lane, last.id);
        AccountingMoved(s, last.id, lane);
        CountedOrKept(run, lane);
        if EvidenceAt(After(run).doc, lane).accounting != EvidenceAt(s.doc, lane).accounting {
          var pair := PairOf(s.slots[last.id].runner);
          CountedReflects(EvidenceAt(s.doc, lane).accounting, AccountedPairs(init, lane), pair.0, pair.1);
        }
      }
    }
  }

  /** What the last action adds to the pairs counted. */
  lemma CountedOrKept(run: seq<Action>, lane: LaneId)
    requires Legal(run) && run != [] && run[|run| - 1].Step? && Unobserved(run, lane)
    ensures
      var init, id := run[..|run| - 1], run[|run| - 1].id;
      var runner := After(init).slots[id].runner;
      if EvidenceAt(After(run).doc, lane).accounting == EvidenceAt(After(init).doc, lane).accounting
      then AccountedPairs(run, lane) == AccountedPairs(init, lane)
      else IsAccount(runner, lane) && AccountedPairs(run, lane) == AccountedPairs(init, lane) + [PairOf(runner)]
  {
    var init, id := run[..|run| - 1], run[|run| - 1].id;
    AlwaysSound(init);
    NobodyObserves(init, lane, id);
    AccountingMoved(After(init), id, lane);
  }

  lemma ReflectedListsAreWindows(a: Accounting, pairs: seq<AccountedPair>)
    requires Reflects(a, pairs)
    ensures |a.operations| == |a.transitions| == (if a.count <= ACCOUNTING_WINDOW then a.count else ACCOUNTING_WINDOW)
    ensures forall i, j :: 0 <= i < j < |a.operations| ==> a.operations[i] != a.operations[j]
    ensures forall i, j :: 0 <= i < j < |a.transitions| ==> a.transitions[i] != a.transitions[j]
  {
    var skipped := |pairs| - |a.operations|;
    assert forall k :: 0 <= k < |a.operations| ==>
      a.operations[k] == pairs[skipped + k].0 && a.transitions[k] == pairs[skipped + k].1;
  }

  /** Both lists keep min(count, 512) keys without duplicates. */
  lemma ListsAreWindows(run: seq<Action>, lane: LaneId)
    requires Legal(run) && Unobserved(run, lane)
    ensures
      var a := EvidenceAt(After(run).doc, lane).accounting;
      && |a.operations| == |a.transitions| == (if a.count <= ACCOUNTING_WINDOW then a.count else ACCOUNTING_WINDOW)
      && (forall i, j :: 0 <= i < j < |a.operations| ==> a.operations[i] != a.operations[j])
      && (forall i, j :: 0 <= i < j < |a.transitions| ==> a.transitions[i] != a.transitions[j])
  {
    AccountingReflectsRun(run, lane);
    ReflectedListsAreWindows(EvidenceAt(After(run).doc, lane).accounting, AccountedPairs(run, lane));
  }

  // ---------------------------------------------------------------------------
  // Finished calls
  // ---------------------------------------------------------------------------

  /** The pairs of all calls on the lane that were answered, "accounted" or "already accounted". */
  ghost function FinishedPairs(s: System, lane: LaneId): set<AccountedPair> {
    set id | id in s.slots && FinishedAccount(s.slots[id].runner, lane) :: PairOf(s.slots[id].runner)
  }

  predicate SharesKey(pairs: seq<AccountedPair>, pair: AccountedPair) {
    exists i :: 0 <= i < |pairs| && (pairs[i].0 == pair.0 || pairs[i].1 == pair.1)
  }

  /** A call that finishes in this step was counted by it, or found one of its keys retained. */
  lemma FinishingIsCounted(run: seq<Action>, lane: LaneId)
    requires Legal(run) && run != [] && run[|run| - 1].Step? && Unobserved(run, lane)
    requires FinishedAccount(After(run).slots[run[|run| - 1].id].runner, lane)
    requires !FinishedAccount(After(run[..|run| - 1]).slots[run[|run| - 1].id].runner, lane)
    ensures SharesKey(AccountedPairs(run, lane), PairOf(After(run).slots[run[|run| - 1].id].runner))
  {
    var init, id := run[..|run| - 1], run[|run| - 1].id;
    var runner := After(init).slots[id].runner;
    AlwaysSound(init);
    AccountingReflectsRun(init, lane);
    CountedOrKept(run, lane);
    if runner.writer.Reading? {
      AnsweredIsRetained(After(init).doc, runner, AccountedPairs(init, lane));
    } else {
      WrittenIsCounted(After(init), id, lane);
      var n := |AccountedPairs(init, lane)|;
      assert AccountedPairs(run, lane)[n] == PairOf(runner);
    }
  }

  lemma AnsweredIsRetained(doc: Doc, runner: Runner, pairs: seq<AccountedPair>)
    requires WellStored(doc) && runner.Writer? && runner.call.AccountGeneration? && runner.writer.Reading?
    requires Reflects(EvidenceAt(doc, runner.call.laneId).accounting, pairs)
    requires MoveOf(doc, runner).runner.writer.Finished?
    ensures SharesKey(pairs, PairOf(runner)) && MoveOf(doc, runner).change == NoChange
  {
    RetainedExactly(EvidenceAt(doc, runner.call.laneId).accounting, pairs, PairOf(runner).0, PairOf(runner).1);
  }

  lemma WrittenIsCounted(s: System, id: RunnerId, lane: LaneId)
    requires Sound(s) && id in s.slots && IsAccount(s.slots[id].runner, lane) && s.slots[id].runner.writer.Swapping?
    requires MoveOf(s.doc, s.slots[id].runner).runner.writer.Finished?
    ensures EvidenceAt(Moved(s, id, MoveOf(s.doc, s.slots[id].runner)).doc, lane).accounting.count
         == EvidenceAt(s.doc, lane).accounting.count + 1
  {
    assert Fresh(s.doc, s.slots[id].runner);
  }

  /** Every answered call has its operation or its transition among the pairs counted. */
  lemma {:induction false} FinishedSharesKey(run: seq<Action>, lane: LaneId, id: RunnerId)
    requires Legal(run) && Unobserved(run, lane)
    requires id in After(run).slots && FinishedAccount(After(run).slots[id].runner, lane)
    ensures SharesKey(AccountedPairs(run, lane), PairOf(After(run).slots[id].runner))
  {
    var init, last := run[..|run| - 1], run[|run| - 1];
    if id in After(init).slots && FinishedAccount(After(init).slots[id].runner, lane) {
      FinishedSharesKey(init, lane, id);
      var pairs := AccountedPairs(init, lane);
      assert AccountedPairs(run, lane)[..|pairs|] == pairs;
      var pair := PairOf(After(init).slots[id].runner);
      var i :| 0 <= i < |pairs| && (pairs[i].0 == pair.0 || pairs[i].1 == pair.1);
      assert AccountedPairs(run, lane)[i] == pairs[i];
      FinishedStays(init, last, id);
    } else {
      FinishingIsCounted(run, lane);
    }
  }

  lemma FinishedStays(init: seq<Action>, last: Action, id: RunnerId)
    requires Legal(init) && Enabled(After(init), last) && id in After(init).slots
    requires After(init).slots[id].runner.Writer? && After(init).slots[id].runner.writer.Finished?
    ensures id in Perform(After(init), last).slots
    ensures Perform(After(init), last).slots[id].runner == After(init).slots[id].runner
  {
  }

  /** Every pair counted is that of an answered call. */
  lemma {:induction false} CountedIsFinished(run: seq<Action>, lane: LaneId, i: nat)
    requires Legal(run) && Unobserved(run, lane) && i < |AccountedPairs(run, lane)|
    ensures AccountedPairs(run, lane)[i] in FinishedPairs(After(run), lane)
  {
    var init, last := run[..|run| - 1], run[|run| - 1];
    if i < |AccountedPairs(init, lane)| {
      CountedIsFinished(init, lane, i);
      var pair := AccountedPairs(init, lane)[i];
      assert AccountedPairs(run, lane)[i] == pair;
      var id :| id in After(init).slots && FinishedAccount(After(init).slots[id].runner, lane)
                && PairOf(After(init).slots[id].runner) == pair;
      FinishedStays(init, last, id);
    } else {
      AlwaysSound(init);
      NobodyObserves(init, lane, last.id);
      AccountingMoved(After(init), last.id, lane);
      assert FinishedAccount(After(run).slots[last.id].runner, lane);
    }
  }

  /** No two answered calls share exactly one of their keys. */
  ghost predicate KeysBelongTogether(pairs: set<AccountedPair>) {
    forall p, q :: p in pairs && q in pairs ==> (p.0 == q.0 <==> p.1 == q.1)
  }

  /** Exactly once: when no two answered calls share exactly one key, the pairs counted are those of
      the answered calls, and their number is the count if and only if no pair was replayed after a full
      window of newer ones. */
  lemma AnsweredCallsAreCountedOnce(run: seq<Action>, lane: LaneId)
    requires Legal(run) && Unobserved(run, lane) && KeysBelongTogether(FinishedPairs(After(run), lane))
    ensures
      var count, pairs := EvidenceAt(After(run).doc, lane).accounting.count, AccountedPairs(run, lane);
      && FinishedPairs(After(run), lane) == (set p | p in pairs)
      && (count == |FinishedPairs(After(run), lane)| <==> !ReplayedLate(pairs))
  {
    var pairs, finished := AccountedPairs(run, lane), FinishedPairs(After(run), lane);
    forall p | p in pairs ensures p in finished {
      var i :| 0 <= i < |pairs| && pairs[i] == p;
      CountedIsFinished(run, lane, i);
    }
    forall p | p in finished ensures p in pairs {
      var id :| id in After(run).slots && FinishedAccount(After(run).slots[id].runner, lane)
                && PairOf(After(run).slots[id].runner) == p;
      FinishedSharesKey(run, lane, id);
      var i :| 0 <= i < |pairs| && (pairs[i].0 == p.0 || pairs[i].1 == p.1);
      assert pairs[i] in finished;
    }
    assert finished == (set p | p in pairs);
    CountIsDistinctPairs(run, lane);
  }

  /** A pair counted again comes more than a window after its first count. */
  predicate ReplayedLate(pairs: seq<AccountedPair>) {
    exists i, j :: 0 <= i < j < |pairs| && j - i > ACCOUNTING_WINDOW && pairs[i] == pairs[j]
  }

  lemma {:induction false} DistinctSize(pairs: seq<AccountedPair>)
    ensures |set p | p in pairs| <= |pairs|
    ensures |set p | p in pairs| == |pairs| <==> forall i, j :: 0 <= i < j < |pairs| ==> pairs[i] != pairs[j]
  {
    if pairs != [] {
      var init, last := pairs[..|pairs| - 1], pairs[|pairs| - 1];
      DistinctSize(init);
      SetOfLonger(init, last);
      assert pairs == init + [last];
      if last in init {
        var i :| 0 <= i < |init| && init[i] == last;
        assert pairs[i] == pairs[|pairs| - 1];
      } else {
        assert forall i :: 0 <= i < |init| ==> pairs[i] == init[i];
      }
    }
  }

  lemma SetOfLonger(init: seq<AccountedPair>, last: AccountedPair)
    ensures |set p | p in init + [last]| == |set p | p in init| + (if last in init then 0 else 1)
  {
    assert (set p | p in init + [last]) == (set p | p in init) + {last};
    if last in init {
      assert (set p | p in init + [last]) == (set p | p in init);
    }
  }

  /** The counter is the number of distinct pairs counted exactly when no pair was replayed after
      a full window of newer ones. */
  lemma CountIsDistinctPairs(run: seq<Action>, lane: LaneId)
    requires Legal(run) && Unobserved(run, lane)
    ensures
      var count, pairs := EvidenceAt(After(run).doc, lane).accounting.count, AccountedPairs(run, lane);
      count == |set p | p in pairs| <==> !ReplayedLate(pairs)
  {
    AccountingReflectsRun(run, lane);
    DistinctSize(AccountedPairs(run, lane));
  }

  /** When a call is counted: exactly when neither key is among the newest window counted. */
  lemma CountedExactlyWhenNotRetained(run: seq<Action>, call: LaneCall)
    requires Legal(run) && call.AccountGeneration? && call.transitionKey != "" && Unobserved(run, call.laneId)
    ensures
      var plan := PlanCall(ReadLane(After(run).doc, call.laneId), call);
      var pairs := AccountedPairs(run, call.laneId);
      plan.Write? <==> !AmongNewest(pairs, call.operationKey, call.transitionKey)
  {
    AlwaysSound(run);
    AccountingReflectsRun(run, call.laneId);
    RetainedExactly(EvidenceAt(After(run).doc, call.laneId).accounting, AccountedPairs(run, call.laneId),
                    call.operationKey, call.transitionKey);
  }
}
