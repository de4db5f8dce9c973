/** A canary grant never yields more CLAIMED answers than effects it allows. */
module CanaryBound {
  import opened Wrappers
  import opened Records
  import opened StateStore
  import opened ClaimProtocol
  import opened ControlSystem
  import opened ControlInvariants

  function GrantsOf(doc: Doc, lane: LaneId): seq<CanaryGrant> {
    if lane in doc.lanes && doc.lanes[lane].record.Some? then doc.lanes[lane].record.value.grants else []
  }

  /** The claimant has not reached the point where it draws from a grant. */
  predicate BeforeDraw(pc: ClaimPc) {
    pc.Start? || pc.LaneChecked? || pc.Authorized? || pc.Leased? || pc.Consuming?
  }

  /** The grant a claimant has drawn from and still builds on. */
  function DrawnGrant(pc: ClaimPc): Option<nat> {
    match pc
    case Persisting(_, _, _, _, drawn) => drawn
    case Persisted(_, _, _, drawn) => drawn
    case Linking(_, _, drawn, _, _) => drawn
    case Done(Claimed(_, _, drawn)) => drawn
    case _ => None
  }

  /** In CANARY mode, and only there, a claim goes through a grant. */
  predicate ModeDecidesDraw(pc: ClaimPc) {
    match pc
    case Leased(lane, _, _, _) => lane.mode == Canary
    case Consuming(lane, _, _, _, _, _, _) => lane.mode == Canary
    case Persisting(lane, _, _, _, drawn) => lane.mode == Canary <==> drawn.Some?
    case _ => true
  }

  predicate Draws(before: Runner, change: Change) {
    before.Claimer? && before.claim.Consuming? && change.LaneWrite?
  }

  ghost predicate DrawMove(before: Runner, move: Move)
    requires before.Claimer?
  {
    && move.runner.Claimer? && move.runner.request == before.request
    && (ModeDecidesDraw(before.claim) ==> ModeDecidesDraw(move.runner.claim))
    && (BeforeDraw(move.runner.claim) ==> BeforeDraw(before.claim) && !Draws(before, move.change))
    && (if Draws(before, move.change) then DrawnGrant(move.runner.claim) == Some(before.claim.index)
        else DrawnGrant(move.runner.claim).Some? ==> DrawnGrant(move.runner.claim) == DrawnGrant(before.claim))
    && (IsClaimed(before) ==> move.runner == before)
  }

  /** What one move may do to the grants of the lane it writes. */
  ghost predicate GrantMove(doc: Doc, before: Runner, move: Move) {
    && (before.Claimer? ==> DrawMove(before, move))
    && (!before.Claimer? ==> !move.runner.Claimer?)
    && (move.change.LaneWrite? ==>
          var was, now := GrantsOf(doc, move.change.lane), move.change.record.grants;
          if Draws(before, move.change) then
            && move.change.lane == before.request.laneId
            && before.claim.index < |was| == |now| && !was[before.claim.index].Consumed()
            && now == was[before.claim.index := now[before.claim.index]]
            && now[before.claim.index] == was[before.claim.index].(
                 consumedCount := was[before.claim.index].consumedCount + 1,
                 consumedKeys := was[before.claim.index].consumedKeys + [before.request.operationKey])
          else
            && |was| <= |now| && now[..|was|] == was
            && forall i :: |was| <= i < |now| ==> now[i].Balanced())
  }

  lemma ClaimDrawMove(doc: Doc, req: ClaimRequest, pc: ClaimPc, wrote: bool)
    requires PcFits(req, pc)
    ensures DrawMove(Claimer(req, pc, wrote), MoveOf(doc, Claimer(req, pc, wrote)))
  {
  }

  lemma ClaimGrantMove(doc: Doc, req: ClaimRequest, pc: ClaimPc, wrote: bool)
    requires WellStored(doc) && PcFits(req, pc) && ClaimFresh(doc, req, pc)
    ensures GrantMove(doc, Claimer(req, pc, wrote), MoveOf(doc, Claimer(req, pc, wrote)))
  {
    ClaimDrawMove(doc, req, pc, wrote);
    var move := MoveOf(doc, Claimer(req, pc, wrote));
    if move.change.LaneWrite? && !pc.Consuming? {
      assert move.change.record.grants == GrantsOf(doc, move.change.lane);
    }
  }

  lemma ResolveGrantMove(doc: Doc, runner: Runner)
    requires WellStored(doc) && Fresh(doc, runner) && runner.Resolver?
    ensures GrantMove(doc, runner, MoveOf(doc, runner))
  {
    var move := MoveOf(doc, runner);
    if move.change.LaneWrite? {
      assert move.change.record.grants == GrantsOf(doc, move.change.lane);
    }
  }

  lemma WriterGrantMove(doc: Doc, runner: Runner)
    requires WellStored(doc) && Fresh(doc, runner) && runner.Writer?
    ensures GrantMove(doc, runner, MoveOf(doc, runner))
  {
    var move := MoveOf(doc, runner);
    if move.change.LaneWrite? && !runner.call.OtherEdit? {
      assert move.change.record.grants == GrantsOf(doc, move.change.lane);
    }
  }

  lemma MoveIsGrantMove(doc: Doc, runner: Runner)
    requires WellStored(doc) && Fresh(doc, runner) && RunnerFits(runner)
    ensures GrantMove(doc, runner, MoveOf(doc, runner))
  {
    match runner
    case Claimer(req, pc, wrote) => ClaimGrantMove(doc, req, pc, wrote);
    case Resolver(_, _, _, _) => ResolveGrantMove(doc, runner);
    case Writer(_, _) => WriterGrantMove(doc, runner);
  }

  // ---------------------------------------------------------------------------
  // The grant ledgers
  // ---------------------------------------------------------------------------

  ghost predicate GrantCounts(doc: Doc, h: History, ref: GrantRef) {
    var grants := GrantsOf(doc, ref.0);
    if ref.1 < |grants| then
      grants[ref.1].Balanced() && |At(h.drawn, ref)| <= grants[ref.1].consumedCount
    else At(h.drawn, ref) == {}
  }

  ghost predicate PastDraw(s: System, id: RunnerId) {
    id in s.slots && s.slots[id].runner.Claimer? && !BeforeDraw(s.slots[id].runner.claim)
  }

  ghost predicate DrawersKnown(s: System) {
    && (forall id, ref :: id in At(s.history.drawn, ref) ==> PastDraw(s, id))
    && (forall id :: id in s.slots && s.slots[id].runner.Claimer? && DrawnGrant(s.slots[id].runner.claim).Some? ==>
          id in At(s.history.drawn, (s.slots[id].runner.request.laneId, DrawnGrant(s.slots[id].runner.claim).value)))
    && (forall id, ref :: id in At(s.history.canaryClaims, ref) ==> id in At(s.history.drawn, ref))
    && (forall id :: id in s.slots && s.slots[id].runner.Claimer? ==> ModeDecidesDraw(s.slots[id].runner.claim))
  }

  ghost predicate GrantsSafe(s: System) {
    && Sound(s)
    && (forall ref :: GrantCounts(s.doc, s.history, ref))
    && DrawersKnown(s)
  }

  lemma GrantCountsMoved(s: System, id: RunnerId, move: Move, ref: GrantRef)
    requires id in s.slots && GrantMove(s.doc, s.slots[id].runner, move)
    requires GrantCounts(s.doc, s.history, ref) && DrawersKnown(s)
    ensures GrantCounts(Moved(s, id, move).doc, Moved(s, id, move).history, ref)
  {
    var t := Moved(s, id, move);
    var before := s.slots[id].runner;
    if Draws(before, move.change) && ref == (before.request.laneId, before.claim.index) {
      assert !PastDraw(s, id);
      assert At(t.history.drawn, ref) == At(s.history.drawn, ref) + {id};
    } else {
      assert At(t.history.drawn, ref) == At(s.history.drawn, ref);
      if move.change.LaneWrite? && move.change.lane == ref.0 {
        var was, now := GrantsOf(s.doc, ref.0), move.change.record.grants;
        assert GrantsOf(t.doc, ref.0) == now;
        assert ref.1 < |was| ==> now[ref.1] == was[ref.1] by {
          if ref.1 < |was| && !Draws(before, move.change) {
            assert now[..|was|][ref.1] == now[ref.1];
          }
        }
      } else {
        assert GrantsOf(t.doc, ref.0) == GrantsOf(s.doc, ref.0);
      }
    }
  }

  lemma DrawnAfterMove(s: System, id: RunnerId, move: Move, ref: GrantRef)
    requires id in s.slots
    ensures
      var before := s.slots[id].runner;
      At(Moved(s, id, move).history.drawn, ref)
      == At(s.history.drawn, ref)
       + (if Draws(before, move.change) && ref == (before.request.laneId, before.claim.index) then {id} else {})
  {
  }

  lemma DrawersStayPast(s: System, id: RunnerId, move: Move, j: RunnerId, ref: GrantRef)
    requires id in s.slots && GrantMove(s.doc, s.slots[id].runner, move) && DrawersKnown(s)
    requires j in At(Moved(s, id, move).history.drawn, ref)
    ensures PastDraw(Moved(s, id, move), j)
  {
    DrawnAfterMove(s, id, move, ref);
    assert j in At(s.history.drawn, ref) ==> PastDraw(s, j);
  }

  lemma DrawsAreRecorded(s: System, id: RunnerId, move: Move, j: RunnerId)
    requires id in s.slots && GrantMove(s.doc, s.slots[id].runner, move) && DrawersKnown(s)
    requires j in s.slots && Moved(s, id, move).slots[j].runner.Claimer?
    ensures
      var t := Moved(s, id, move);
      && ModeDecidesDraw(t.slots[j].runner.claim)
      && (DrawnGrant(t.slots[j].runner.claim).Some? ==>
            j in At(t.history.drawn, (t.slots[j].runner.request.laneId, DrawnGrant(t.slots[j].runner.claim).value)))
  {
    var runner := Moved(s, id, move).slots[j].runner;
    if DrawnGrant(runner.claim).Some? {
      DrawnAfterMove(s, id, move, (runner.request.laneId, DrawnGrant(runner.claim).value));
    }
  }

  lemma DrawersKnownMoved(s: System, id: RunnerId, move: Move)
    requires id in s.slots && GrantMove(s.doc, s.slots[id].runner, move) && DrawersKnown(s)
    ensures DrawersKnown(Moved(s, id, move))
  {
    var t := Moved(s, id, move);
    forall j, ref | j in At(t.history.drawn, ref) ensures PastDraw(t, j) {
      DrawersStayPast(s, id, move, j, ref);
    }
    forall j | j in t.slots && t.slots[j].runner.Claimer?
      ensures ModeDecidesDraw(t.slots[j].runner.claim)
      ensures DrawnGrant(t.slots[j].runner.claim).Some? ==>
        j in At(t.history.drawn, (t.slots[j].runner.request.laneId, DrawnGrant(t.slots[j].runner.claim).value))
    {
      DrawsAreRecorded(s, id, move, j);
    }
    forall j, ref | j in At(t.history.canaryClaims, ref) ensures j in At(t.history.drawn, ref) {
      DrawnAfterMove(s, id, move, ref);
    }
  }

  lemma GrantsSafeKept(s: System, action: Action)
    requires GrantsSafe(s) && Enabled(s, action)
    ensures GrantsSafe(Perform(s, action))
  {
    SoundKept(s, action);
    var t := Perform(s, action);
    if action.Step? {
      var move := MoveOf(s.doc, s.slots[action.id].runner);
      MoveIsGrantMove(s.doc, s.slots[action.id].runner);
      DrawersKnownMoved(s, action.id, move);
      forall ref ensures GrantCounts(t.doc, t.history, ref) {
        GrantCountsMoved(s, action.id, move, ref);
      }
    } else {
      forall ref ensures GrantCounts(t.doc, t.history, ref) {
        assert GrantCounts(s.doc, s.history, ref);
      }
      forall j, ref | j in At(t.history.drawn, ref) ensures PastDraw(t, j) {
        assert PastDraw(s, j);
      }
    }
  }

  lemma {:induction false} AlwaysGrantsSafe(run: seq<Action>)
    requires Legal(run)
    ensures GrantsSafe(After(run))
  {
    if run != [] {
      AlwaysGrantsSafe(run[..|run| - 1]);
      GrantsSafeKept(After(run[..|run| - 1]), run[|run| - 1]);
    }
  }

  /** In every reachable state each grant's counter is the length of its key list and within its
      maximum, and at least the number of claims answered CLAIMED on its strength. */
  lemma ClaimsStayWithinGrant(run: seq<Action>, lane: LaneId, i: nat)
    requires Legal(run) && i < |GrantsOf(After(run).doc, lane)|
    ensures
      var grant := GrantsOf(After(run).doc, lane)[i];
      && |At(After(run).history.canaryClaims, (lane, i))| <= grant.consumedCount
      && grant.consumedCount == |grant.consumedKeys|
      && grant.consumedCount <= grant.maximumEffectCount
  {
    AlwaysGrantsSafe(run);
    var s := After(run);
    assert GrantCounts(s.doc, s.history, (lane, i));
    var claims, drawn := At(s.history.canaryClaims, (lane, i)), At(s.history.drawn, (lane, i));
    assert drawn == claims + (drawn - claims);
  }

  /** A claimant about to persist on a CANARY lane has drawn from a grant, and its draw is counted. */
  lemma CanaryClaimsDraw(run: seq<Action>, id: RunnerId)
    requires Legal(run) && id in After(run).slots && After(run).slots[id].runner.Claimer?
    requires After(run).slots[id].runner.claim.Persisting?
    requires After(run).slots[id].runner.claim.lane.mode == Canary
    ensures
      var runner := After(run).slots[id].runner;
      && runner.claim.drawn.Some?
      && id in At(After(run).history.drawn, (runner.request.laneId, runner.claim.drawn.value))
  {
    AlwaysGrantsSafe(run);
  }
}
