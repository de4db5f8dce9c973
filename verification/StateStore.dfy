/** The versioned document store: one locked call is one atomic step on a pair of maps. */
module StateStore {
  import opened Wrappers
  import opened Records

  /** A stored record with its version; None stands for a payload that does not parse. */
  datatype Entry<T> = Entry(version: nat, record: Option<T>)

  datatype Doc = Doc(
    lanes: map<LaneId, Entry<LaneRecord>>,
    operations: map<OperationKey, Entry<OperationRecord>>,
    revision: nat)

  const EMPTY_DOC := Doc(map[], map[], 0)

  datatype Read<T> = Missing | Corrupt | Found(version: nat, record: T)

  datatype StoreError =
    | Unavailable
    | VersionConflict
    | LeaseCollision
    | IdentityMismatch
    | InvalidTtl
    | Refused

  function LaneVersion(doc: Doc, lane: LaneId): nat {
    if lane in doc.lanes then doc.lanes[lane].version else 0
  }

  function OperationVersion(doc: Doc, key: OperationKey): nat {
    if key in doc.operations then doc.operations[key].version else 0
  }

  function ReadLane(doc: Doc, lane: LaneId): Read<LaneRecord> {
    if lane !in doc.lanes then Missing
    else match doc.lanes[lane].record
      case None => Corrupt
      case Some(r) => if r.laneId != lane then Corrupt else Found(doc.lanes[lane].version, r)
  }

  function ReadOperation(doc: Doc, key: OperationKey): Read<OperationRecord> {
    if key !in doc.operations then Missing
    else match doc.operations[key].record
      case None => Corrupt
      case Some(r) => if r.key != key then Corrupt else Found(doc.operations[key].version, r)
  }

  /** What a lane's evidence is, missing lanes included. */
  function EvidenceAt(doc: Doc, lane: LaneId): Evidence {
    match ReadLane(doc, lane)
    case Found(_, r) => r.evidence
    case _ => NO_EVIDENCE
  }

  /** The only two ways a store call changes the document. */
  function WriteLane(doc: Doc, lane: LaneId, record: LaneRecord): Doc {
    doc.(lanes := doc.lanes[lane := Entry(LaneVersion(doc, lane) + 1, Some(record))],
         revision := doc.revision + 1)
  }

  function WriteOperation(doc: Doc, key: OperationKey, record: OperationRecord): Doc {
    doc.(operations := doc.operations[key := Entry(OperationVersion(doc, key) + 1, Some(record))],
         revision := doc.revision + 1)
  }

  /** Every lane and every operation but these two is as it was. */
  ghost predicate OthersUntouched(doc: Doc, after: Doc, lane: LaneId, key: OperationKey) {
    && (forall l :: l != lane ==> (l in after.lanes <==> l in doc.lanes))
    && (forall l :: l != lane && l in doc.lanes ==> after.lanes[l] == doc.lanes[l])
    && (forall k :: k != key ==> (k in after.operations <==> k in doc.operations))
    && (forall k :: k != key && k in doc.operations ==> after.operations[k] == doc.operations[k])
  }

  /** Why a compare-and-swap is refused, in the order the store checks. */
  function LaneSwapError(doc: Doc, lane: LaneId, expected: int, record: LaneRecord): Option<StoreError> {
    if record.laneId != lane then Some(IdentityMismatch)
    else if LaneVersion(doc, lane) != expected then Some(VersionConflict)
    else if lane in doc.lanes && doc.lanes[lane].record.None? then Some(Unavailable)
    else None
  }

  function OperationSwapError(doc: Doc, key: OperationKey, expected: int, record: OperationRecord): Option<StoreError> {
    if record.key != key then Some(IdentityMismatch)
    else if OperationVersion(doc, key) != expected then Some(VersionConflict)
    else if key in doc.operations && doc.operations[key].record.None? then Some(Unavailable)
    else None
  }

  /** The lease an acquisition at this document would write. */
  function NewLease(doc: Doc, lane: LaneId, owner: string, key: OperationKey, ttl: int, now: int): Lease {
    Lease(LeaseId(lane, owner, key, now, LaneVersion(doc, lane) + 1), owner, key, now, now + ttl)
  }

  function LeaseError(doc: Doc, lane: LaneId, ttl: int, now: int): Option<StoreError> {
    if ttl <= 0 then Some(InvalidTtl)
    else match ReadLane(doc, lane)
      case Missing => Some(Unavailable)
      case Corrupt => Some(Unavailable)
      case Found(_, r) =>
        if r.lease.Some? && now < r.lease.value.expiresAt then Some(LeaseCollision) else None
  }

  function WithLease(record: LaneRecord, lease: Lease): LaneRecord {
    record.(lease := Some(lease),
            actionInFlight := Some(lease.operationKey),
            operationKey := Some(lease.operationKey))
  }

  function WithoutLease(record: LaneRecord): LaneRecord {
    record.(lease := None, actionInFlight := None)
  }

  // ---------------------------------------------------------------------------
  // No lost update: what one write does to versions and to the revision counter
  // ---------------------------------------------------------------------------

  /** The sum of the versions of all entries. */
  ghost function SumVersions<K, T>(entries: map<K, Entry<T>>): nat
    decreases |entries|
  {
    if entries == map[] then 0
    else
      var k :| k in entries;
      entries[k].version + SumVersions(entries - {k})
  }

  /** Any key may be taken out first. */
  lemma {:induction false} SumVersionsWithout<K, T>(entries: map<K, Entry<T>>, k: K)
    requires k in entries
    ensures SumVersions(entries) == entries[k].version + SumVersions(entries - {k})
    decreases |entries|
  {
    var j :| j in entries && SumVersions(entries) == entries[j].version + SumVersions(entries - {j});
    if j != k {
      SumVersionsWithout(entries - {j}, k);
      SumVersionsWithout(entries - {k}, j);
      assert entries - {j} - {k} == entries - {k} - {j};
    }
  }

  lemma SumVersionsUpdated<K, T>(entries: map<K, Entry<T>>, k: K, entry: Entry<T>)
    ensures SumVersions(entries[k := entry])
         == SumVersions(entries) + entry.version - (if k in entries then entries[k].version else 0)
  {
    SumVersionsWithout(entries[k := entry], k);
    if k in entries {
      SumVersionsWithout(entries, k);
      assert entries[k := entry] - {k} == entries - {k};
    } else {
      assert entries[k := entry] - {k} == entries;
    }
  }

  /** The revision counter is the sum of all lane and operation versions. */
  ghost predicate RevisionCounts(doc: Doc) {
    doc.revision == SumVersions(doc.lanes) + SumVersions(doc.operations)
  }

  lemma LaneWriteKeepsRevision(doc: Doc, lane: LaneId, record: LaneRecord)
    requires RevisionCounts(doc)
    ensures RevisionCounts(WriteLane(doc, lane, record))
  {
    SumVersionsUpdated(doc.lanes, lane, Entry(LaneVersion(doc, lane) + 1, Some(record)));
  }

  lemma OperationWriteKeepsRevision(doc: Doc, key: OperationKey, op: OperationRecord)
    requires RevisionCounts(doc)
    ensures RevisionCounts(WriteOperation(doc, key, op))
  {
    SumVersionsUpdated(doc.operations, key, Entry(OperationVersion(doc, key) + 1, Some(op)));
  }

  /** The store object: two maps and a revision counter rewritten in place. */
  class DeterministicStateStore {
    var workstreams: map<LaneId, Entry<LaneRecord>>
    var operations: map<OperationKey, Entry<OperationRecord>>
    var storeRevision: nat

    function Contents(): Doc
      reads this
    {
      Doc(workstreams, operations, storeRevision)
    }

    ghost predicate Valid()
      reads this
    {
      RevisionCounts(Contents())
    }

    /** A freshly initialised document. */
    constructor ()
      ensures Valid() && Contents() == EMPTY_DOC
    {
      workstreams, operations, storeRevision := map[], map[], 0;
    }

    method ReadWorkstream(lane: LaneId) returns (read: Read<LaneRecord>)
      ensures read == ReadLane(Contents(), lane)
    {
      if lane !in workstreams { return Missing; }
      var entry := workstreams[lane];
      match entry.record
      case None => read := Corrupt;
      case Some(record) =>
        read := if record.laneId != lane then Corrupt else Found(entry.version, record);
    }

    method ReadOperationRecord(key: OperationKey) returns (read: Read<OperationRecord>)
      ensures read == ReadOperation(Contents(), key)
    {
      if key !in operations { return Missing; }
      var entry := operations[key];
      match entry.record
      case None => read := Corrupt;
      case Some(record) =>
        read := if record.key != key then Corrupt else Found(entry.version, record);
    }

    /** A write succeeds only at the version its writer named; a refused call changes nothing. */
    method CompareAndSwapWorkstream(lane: LaneId, expected: int, record: LaneRecord)
      returns (saved: Result<nat, StoreError>)
      requires Valid()
      modifies this
      ensures Valid()
      ensures saved.Ok? <==> LaneSwapError(old(Contents()), lane, expected, record).None?
      ensures saved.Ok? ==>
        && saved.value == expected + 1
        && Contents() == WriteLane(old(Contents()), lane, record)
      ensures saved.Err? ==>
        && LaneSwapError(old(Contents()), lane, expected, record) == Some(saved.error)
        && Contents() == old(Contents())
    {
      if record.laneId != lane { return Err(IdentityMismatch); }
      var actual := 0;
      if lane in workstreams { actual := workstreams[lane].version; }
      if actual != expected { return Err(VersionConflict); }
      if lane in workstreams && workstreams[lane].record.None? { return Err(Unavailable); }
      SumVersionsUpdated(workstreams, lane, Entry(actual + 1, Some(record)));
      workstreams := workstreams[lane := Entry(actual + 1, Some(record))];
      storeRevision := storeRevision + 1;
      saved := Ok(actual + 1);
    }

    method CompareAndSwapOperation(key: OperationKey, expected: int, record: OperationRecord)
      returns (saved: Result<nat, StoreError>)
      requires Valid()
      modifies this
      ensures Valid()
      ensures saved.Ok? <==> OperationSwapError(old(Contents()), key, expected, record).None?
      ensures saved.Ok? ==>
        && saved.value == expected + 1
        && Contents() == WriteOperation(old(Contents()), key, record)
      ensures saved.Err? ==>
        && OperationSwapError(old(Contents()), key, expected, record) == Some(saved.error)
        && Contents() == old(Contents())
    {
      if record.key != key { return Err(IdentityMismatch); }
      var actual := 0;
      if key in operations { actual := operations[key].version; }
      if actual != expected { return Err(VersionConflict); }
      if key in operations && operations[key].record.None? { return Err(Unavailable); }
      SumVersionsUpdated(operations, key, Entry(actual + 1, Some(record)));
      operations := operations[key := Entry(actual + 1, Some(record))];
      storeRevision := storeRevision + 1;
      saved := Ok(actual + 1);
    }

    /** Grants the lane's lease unless an unexpired one is held; stale leases are replaced. */
    method AcquireLease(lane: LaneId, owner: string, key: OperationKey, ttl: int, now: int)
      returns (lease: Result<(Lease, bool), StoreError>)
      requires Valid()
      modifies this
      ensures Valid()
      ensures lease.Ok? <==> LeaseError(old(Contents()), lane, ttl, now).None?
      ensures lease.Ok? ==>
        var doc := old(Contents());
        && lease.value.0 == NewLease(doc, lane, owner, key, ttl, now)
        && ReadLane(doc, lane).Found?
        && (lease.value.1 <==> ReadLane(doc, lane).record.lease.Some?)
        && Contents() == WriteLane(doc, lane, WithLease(ReadLane(doc, lane).record, lease.value.0))
      ensures lease.Err? ==>
        && LeaseError(old(Contents()), lane, ttl, now) == Some(lease.error)
        && Contents() == old(Contents())
    {
      if ttl <= 0 { return Err(InvalidTtl); }
      var read := ReadWorkstream(lane);
      if !read.Found? { return Err(Unavailable); }
      var record, version := read.record, read.version;
      var stale := false;
      if record.lease.Some? {
        if now < record.lease.value.expiresAt { return Err(LeaseCollision); }
        stale := true;
      }
      var granted := Lease(LeaseId(lane, owner, key, now, version + 1), owner, key, now, now + ttl);
      record := record.(lease := Some(granted), actionInFlight := Some(key), operationKey := Some(key));
      SumVersionsUpdated(workstreams, lane, Entry(version + 1, Some(record)));
      workstreams := workstreams[lane := Entry(version + 1, Some(record))];
      storeRevision := storeRevision + 1;
      lease := Ok((granted, stale));
    }

    /** Frees the lane only for the holder named by the lease id; an unleased lane is left alone. */
    method ReleaseLease(lane: LaneId, leaseId: LeaseId) returns (error: Option<StoreError>)
      requires Valid()
      modifies this
      ensures Valid()
      ensures
        var doc := old(Contents());
        match ReadLane(doc, lane)
        case Found(_, r) =>
          if r.lease.None? then error.None? && Contents() == doc
          else if r.lease.value.id != leaseId then error == Some(LeaseCollision) && Contents() == doc
          else error.None? && Contents() == WriteLane(doc, lane, WithoutLease(r))
        case _ => error == Some(Unavailable) && Contents() == doc
    {
      var read := ReadWorkstream(lane);
      if !read.Found? { return Some(Unavailable); }
      if read.record.lease.None? { return None; }
      if read.record.lease.value.id != leaseId { return Some(LeaseCollision); }
      var saved := CompareAndSwapWorkstream(lane, read.version,
                                            read.record.(lease := None, actionInFlight := None));
      match saved
      case Ok(_) => error := None;
      case Err(e) => error := Some(e);
    }
  }
}
