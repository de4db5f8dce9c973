/** Acquisition times are chosen by the caller. Which of them let a lease be granted before the end of
    one granted earlier, and the run in which that happens. */
module LeaseReordering {
  import opened Wrappers
  import opened Records
  import opened StateStore
  import opened ClaimProtocol
  import opened LaneCalls
  import opened ControlSystem
  import opened LeaseExclusion

  /** A lease that had not ended when a later one was granted: the one granted right after it took it
      over at or after its expiry, and the later one was acquired before that expiry. */
  lemma ReorderedOnlyWhenClockGoesBack(run: seq<Action>, lane: LaneId, i: nat, j: nat)
    requires Legal(run) && i < j < |LeasesOf(After(run).history.leases, lane)|
    requires
      var log := LeasesOf(After(run).history.leases, lane);
      !EndedBefore(After(run).history.freed, log[i].lease, log[j].lease)
    ensures
      var log := LeasesOf(After(run).history.leases, lane);
      && i + 1 < j
      && log[j].lease.acquiredAt < log[i].lease.expiresAt <= log[i + 1].lease.acquiredAt
  {
    LaterLeaseImpliesEnd(run, lane, i, j);
  }

  // ---------------------------------------------------------------------------
  // The run
  // ---------------------------------------------------------------------------

  ghost predicate Reachable(s: System) {
    exists run :: Legal(run) && After(run) == s
  }

  lemma Next(s: System, action: Action) returns (t: System)
    requires Reachable(s) && Enabled(s, action)
    ensures t == Perform(s, action) && Reachable(t)
  {
    t := Perform(s, action);
    var run :| Legal(run) && After(run) == s;
    var longer := run + [action];
    assert longer[..|longer| - 1] == run;
    assert After(longer) == t;
  }

  function Log(s: System, lane: LaneId): seq<LeaseGrant> {
    LeasesOf(s.history.leases, lane)
  }

  /** The lane can be read and takes claims that carry their own authority. */
  predicate Open(s: System, lane: LaneId) {
    && ReadLane(s.doc, lane).Found?
    && var r := ReadLane(s.doc, lane).record;
       r.mode == ActiveAutoSafe && r.project == "" && r.route == "" && r.workstreamId == ""
  }

  function Request(lane: LaneId, action: string, ttl: int, now: int): ClaimRequest {
    var effect := EffectIdentity(lane, "", "", "", action, map[]);
    ClaimRequest(lane, "", EffectOperationKey(effect), action, "", ttl, map[], Some(effect),
                 Some(MutationAuthorization(effect, "", true, true, true, None)), map[], None, now)
  }

  lemma LaneIsOpened(lane: LaneId) returns (t: System)
    ensures Reachable(t) && Open(t, lane) && t.slots.Keys == {0} && t.doc.operations == map[]
    ensures LaneLease(t.doc, lane).None? && Log(t, lane) == [] && t.history.freed == {}
  {
    assert Legal([]) && After([]) == INITIAL;
    var call := OtherEdit(lane, FreshLane(lane, "", "", "").(mode := ActiveAutoSafe));
    t := Next(INITIAL, Spawn(0, Writer(call, Reading(0))));
    t := Next(t, Step(0));
    t := Next(t, Step(0));
  }

  predicate Stands(s: System, id: RunnerId, req: ClaimRequest, pc: ClaimPc) {
    id in s.slots && s.slots[id] == Slot(Claimer(req, pc, false), true)
  }

  /** A claimant of a new operation on an open lane is authorised. */
  lemma ClaimantIsAuthorized(s: System, id: RunnerId, lane: LaneId, action: string, ttl: int, now: int)
    returns (t: System, pc: ClaimPc)
    requires Reachable(s) && id !in s.slots && Open(s, lane)
    requires Request(lane, action, ttl, now).operationKey !in s.doc.operations
    ensures Reachable(t) && t.doc == s.doc && t.history == s.history && t.slots.Keys == s.slots.Keys + {id}
    ensures Stands(t, id, Request(lane, action, ttl, now), pc)
    ensures pc.Authorized? && pc.lane.mode == ActiveAutoSafe && pc.existing.Missing?
  {
    var req := Request(lane, action, ttl, now);
    pc := ClaimChecksPass(s, lane, action, ttl, now);
    t := Next(s, Spawn(id, Claimer(req, Start, false)));
    t := ClaimantReads(t, id, req, Start, LaneChecked(ReadLane(s.doc, lane).record));
    t := ClaimantReads(t, id, req, LaneChecked(ReadLane(s.doc, lane).record), pc);
  }

  /** A step of a claimant that only reads. */
  lemma ClaimantReads(s: System, id: RunnerId, req: ClaimRequest, pc: ClaimPc, next: ClaimPc) returns (t: System)
    requires Reachable(s) && Stands(s, id, req, pc) && PcFits(req, pc)
    requires StepClaim(s.doc, req, pc) == ClaimStep(NoChange, next)
    requires pc.Start? || pc.LaneChecked?
    requires !next.Done?
    ensures Reachable(t) && Stands(t, id, req, next) && t.doc == s.doc && t.history == s.history && t.slots.Keys == s.slots.Keys
  {
    t := Next(s, Step(id));
  }

  lemma ClaimChecksPass(s: System, lane: LaneId, action: string, ttl: int, now: int) returns (pc: ClaimPc)
    requires Open(s, lane) && Request(lane, action, ttl, now).operationKey !in s.doc.operations
    ensures
      var req, record := Request(lane, action, ttl, now), ReadLane(s.doc, lane).record;
      && CheckLane(s.doc, req) == ClaimStep(NoChange, LaneChecked(record))
      && CheckOperation(s.doc, req, record) == ClaimStep(NoChange, pc)
      && pc.Authorized? && pc.lane.mode == ActiveAutoSafe && pc.existing.Missing?
  {
    pc := CheckOperation(s.doc, Request(lane, action, ttl, now), ReadLane(s.doc, lane).record).pc;
  }

  /** An authorised claimant takes a lease that is free or over. */
  lemma AuthorizedTakesLease(s: System, id: RunnerId, req: ClaimRequest, pc: ClaimPc) returns (t: System, next: ClaimPc)
    requires Reachable(s) && Stands(s, id, req, pc) && Open(s, req.laneId) && req.ttl > 0 && req.effect.Some?
    requires pc.Authorized? && pc.lane.mode == ActiveAutoSafe && pc.existing.Missing?
    requires LaneLease(s.doc, req.laneId).None? || req.now >= LaneLease(s.doc, req.laneId).value.expiresAt
    ensures Reachable(t) && Open(t, req.laneId) && t.doc.operations == s.doc.operations && t.history.freed == s.history.freed
    ensures LaneLease(t.doc, req.laneId) == Some(NewLease(s.doc, req.laneId, req.owner, req.operationKey, req.ttl, req.now))
    ensures Log(t, req.laneId) == Log(s, req.laneId) + [LeaseGrant(id, LaneLease(t.doc, req.laneId).value)]
    ensures t.slots.Keys == s.slots.Keys && Stands(t, id, req, next) && next.Persisting? && next.existing.Missing?
  {
    var step := TakeLease(s.doc, req, pc);
    assert step.change.LaneWrite?;
    t := Next(s, Step(id));
    next := step.pc;
  }

  /** A claimant of a new operation takes the lease of an open lane whose lease is free or over. */
  lemma LeaseIsTaken(s: System, id: RunnerId, lane: LaneId, action: string, ttl: int, now: int)
    returns (t: System, pc: ClaimPc)
    requires Reachable(s) && id !in s.slots && Open(s, lane) && ttl > 0
    requires Request(lane, action, ttl, now).operationKey !in s.doc.operations
    requires LaneLease(s.doc, lane).None? || now >= LaneLease(s.doc, lane).value.expiresAt
    ensures Reachable(t) && Open(t, lane) && t.doc.operations == s.doc.operations && t.history.freed == s.history.freed
    ensures LaneLease(t.doc, lane)
         == Some(NewLease(s.doc, lane, "", Request(lane, action, ttl, now).operationKey, ttl, now))
    ensures Log(t, lane) == Log(s, lane) + [LeaseGrant(id, LaneLease(t.doc, lane).value)]
    ensures t.slots.Keys == s.slots.Keys + {id}
    ensures Stands(t, id, Request(lane, action, ttl, now), pc) && pc.Persisting? && pc.existing.Missing?
  {
    t, pc := ClaimantIsAuthorized(s, id, lane, action, ttl, now);
    t, pc := AuthorizedTakesLease(t, id, Request(lane, action, ttl, now), pc);
  }

  /** The claimant persists its operation. */
  lemma OperationIsPersisted(s: System, id: RunnerId, req: ClaimRequest, pc: ClaimPc) returns (t: System)
    requires Reachable(s) && Stands(s, id, req, pc) && pc.Persisting? && pc.existing.Missing?
    requires s.doc.operations == map[]
    ensures Reachable(t) && t.doc.lanes == s.doc.lanes && t.history.freed == s.history.freed
    ensures Log(t, req.laneId) == Log(s, req.laneId) && t.slots.Keys == s.slots.Keys
    ensures t.doc.operations.Keys == {req.operationKey} && InFlightFor(t.doc, req.operationKey, req.laneId)
  {
    assert PersistInFlight(s.doc, req, pc).change.OperationWrite?;
    t := Next(s, Step(id));
  }

  predicate InFlightFor(doc: Doc, key: OperationKey, lane: LaneId) {
    var read := ReadOperation(doc, key);
    read.Found? && read.record.state == InFlight && read.record.laneId == lane
  }

  predicate Resolves(s: System, id: RunnerId, lane: LaneId, key: OperationKey, pc: ResolvePc) {
    id in s.slots && s.slots[id] == Slot(Resolver(lane, key, ReadBack(Some(true), map[]), pc), true)
  }

  /** Reading an operation back as observed frees the lease that was taken for it. */
  lemma LeaseIsFreed(s: System, id: RunnerId, lane: LaneId, key: OperationKey) returns (t: System)
    requires Reachable(s) && id !in s.slots && Open(s, lane) && InFlightFor(s.doc, key, lane)
    requires LaneLease(s.doc, lane).Some? && LaneLease(s.doc, lane).value.operationKey == key
    ensures Reachable(t) && Open(t, lane) && LaneLease(t.doc, lane).None? && t.slots.Keys == s.slots.Keys + {id}
    ensures t.doc.operations.Keys == s.doc.operations.Keys && Log(t, lane) == Log(s, lane)
    ensures t.history.freed == s.history.freed + {LaneLease(s.doc, lane).value.id}
  {
    var u, op := OperationIsReadBack(s, id, lane, key);
    var resolution := ReadBack(Some(true), map[]);
    var step := StepResolve(u.doc, lane, key, resolution, OperationSaved(op));
    u := ResolverReads(u, id, lane, key, OperationSaved(op), step.pc);
    t := ResolverFreesLane(u, id, lane, key, step.pc);
  }

  /** A step of the resolver that only reads. */
  lemma ResolverReads(s: System, id: RunnerId, lane: LaneId, key: OperationKey, pc: ResolvePc, next: ResolvePc) returns (t: System)
    requires Reachable(s) && Resolves(s, id, lane, key, pc)
    requires StepResolve(s.doc, lane, key, ReadBack(Some(true), map[]), pc) == ResolveStep(NoChange, next)
    ensures Reachable(t) && Resolves(t, id, lane, key, next)
    ensures t.doc == s.doc && t.history == s.history && t.slots.Keys == s.slots.Keys
  {
    t := Next(s, Step(id));
  }

  lemma ResolverFreesLane(s: System, id: RunnerId, lane: LaneId, key: OperationKey, pc: ResolvePc) returns (t: System)
    requires Reachable(s) && Resolves(s, id, lane, key, pc) && Open(s, lane) && LaneLease(s.doc, lane).Some?
    requires pc.LaneSaving? && pc.version == LaneVersion(s.doc, lane)
    requires pc.updated.lease.None? && pc.updated == ReadLane(s.doc, lane).record.(
      receipt := pc.updated.receipt, unknownWrite := None, lease := None, actionInFlight := None)
    ensures Reachable(t) && Open(t, lane) && LaneLease(t.doc, lane).None? && t.slots.Keys == s.slots.Keys
    ensures t.doc.operations == s.doc.operations && Log(t, lane) == Log(s, lane)
    ensures t.history.freed == s.history.freed + {LaneLease(s.doc, lane).value.id}
  {
    assert StepResolve(s.doc, lane, key, ReadBack(Some(true), map[]), pc).change == LaneWrite(lane, pc.updated);
    t := Next(s, Step(id));
  }

  lemma OperationIsReadBack(s: System, id: RunnerId, lane: LaneId, key: OperationKey) returns (t: System, op: OperationRecord)
    requires Reachable(s) && id !in s.slots && InFlightFor(s.doc, key, lane)
    ensures Reachable(t) && Resolves(t, id, lane, key, OperationSaved(op)) && t.slots.Keys == s.slots.Keys + {id}
    ensures t.doc.operations.Keys == s.doc.operations.Keys && t.doc.lanes == s.doc.lanes
    ensures Log(t, lane) == Log(s, lane) && t.history.freed == s.history.freed
  {
    var resolution := ReadBack(Some(true), map[]);
    t := Next(s, Spawn(id, Resolver(lane, key, resolution, ResolveStart)));
    var step := StepResolve(s.doc, lane, key, resolution, ResolveStart);
    op := step.pc.operation;
    t := ResolverReads(t, id, lane, key, ResolveStart, step.pc);
    t := ResolverSavesOperation(t, id, lane, key, step.pc);
  }

  lemma ResolverSavesOperation(s: System, id: RunnerId, lane: LaneId, key: OperationKey, pc: ResolvePc) returns (t: System)
    requires Reachable(s) && Resolves(s, id, lane, key, pc) && key in s.doc.operations
    requires pc.OperationSaving? && OperationSwapError(s.doc, key, pc.version, pc.operation).None?
    ensures Reachable(t) && Resolves(t, id, lane, key, OperationSaved(pc.operation)) && t.slots.Keys == s.slots.Keys
    ensures t.doc.operations.Keys == s.doc.operations.Keys && t.doc.lanes == s.doc.lanes
    ensures Log(t, lane) == Log(s, lane) && t.history.freed == s.history.freed
  {
    t := Next(s, Step(id));
  }

  /** Whenever a first lease's expiry lies after the third acquisition and not after the second, there
      is a run of three claims in which the third lease is granted although the first had neither been
      freed nor expired at that time. */
  lemma ClockGoingBackReordersLeases(lane: LaneId, ttl: int, first: int, second: int, third: int) returns (run: seq<Action>)
    requires ttl > 0 && third < first + ttl <= second
    ensures Legal(run)
    ensures
      var log := LeasesOf(After(run).history.leases, lane);
      && |log| == 3 && !EndedBefore(After(run).history.freed, log[0].lease, log[2].lease)
      && log[0].lease.acquiredAt == first && log[0].lease.expiresAt == first + ttl
      && log[1].lease.acquiredAt == second && log[2].lease.acquiredAt == third
  {
    var s := TwoLeases(lane, ttl, first, second);
    var t, pc := LeaseIsTaken(s, 4, lane, "a", ttl, third);
    run :| Legal(run) && After(run) == t;
  }

  lemma LeaseIsTakenOver(lane: LaneId, ttl: int, first: int, second: int) returns (t: System, pc: ClaimPc)
    requires ttl > 0 && first + ttl <= second
    ensures Reachable(t) && Open(t, lane) && t.slots.Keys == {0, 1, 2} && t.doc.operations == map[]
    ensures LaneLease(t.doc, lane).Some? && |Log(t, lane)| == 2 && t.history.freed == {}
    ensures Log(t, lane)[1].lease == LaneLease(t.doc, lane).value
    ensures LaneLease(t.doc, lane).value.operationKey == Request(lane, "b", ttl, second).operationKey
    ensures Log(t, lane)[0].lease.id != Log(t, lane)[1].lease.id
    ensures Log(t, lane)[0].lease.acquiredAt == first && Log(t, lane)[0].lease.expiresAt == first + ttl
    ensures Log(t, lane)[1].lease.acquiredAt == second
    ensures Stands(t, 2, Request(lane, "b", ttl, second), pc) && pc.Persisting? && pc.existing.Missing?
  {
    t := LaneIsOpened(lane);
    t, pc := LeaseIsTaken(t, 1, lane, "a", ttl, first);
    assert LaneLease(t.doc, lane).value.operationKey.effect.action == "a";
    t, pc := LeaseIsTaken(t, 2, lane, "b", ttl, second);
    assert LaneLease(t.doc, lane).value.operationKey.effect.action == "b";
  }

  /** A first lease is taken over when it is over, and the second one is freed by a readback. */
  lemma TwoLeases(lane: LaneId, ttl: int, first: int, second: int) returns (t: System)
    requires ttl > 0 && first + ttl <= second
    ensures Reachable(t) && Open(t, lane) && LaneLease(t.doc, lane).None? && t.slots.Keys == {0, 1, 2, 3}
    ensures t.doc.operations.Keys == {Request(lane, "b", ttl, second).operationKey}
    ensures |Log(t, lane)| == 2 && t.history.freed == {Log(t, lane)[1].lease.id}
    ensures Log(t, lane)[0].lease.id != Log(t, lane)[1].lease.id
    ensures Log(t, lane)[0].lease.acquiredAt == first && Log(t, lane)[0].lease.expiresAt == first + ttl
    ensures Log(t, lane)[1].lease.acquiredAt == second
  {
    var pc: ClaimPc;
    t, pc := LeaseIsTakenOver(lane, ttl, first, second);
    t := OperationIsPersisted(t, 2, Request(lane, "b", ttl, second), pc);
    t := LeaseIsFreed(t, 3, lane, Request(lane, "b", ttl, second).operationKey);
  }
}
