/** Branch serialization over a list of write receipts, and the recovery that frees it: exactly the
    conflicts that started at the live head go away. */
module BranchRecovery {
  import opened Wrappers

  datatype WriteState =
    | Planned | Executing | InFlight | Unknown
    | Confirmed | Rejected | Cancelled | NotObserved | OtherState

  predicate Active(state: WriteState) {
    state == Planned || state == Executing || state == InFlight || state == Unknown
  }

  /** A write receipt; the id is empty when the receipt names no operation. */
  datatype WriteReceipt = WriteReceipt(
    id: string, repository: Option<string>, ref: Option<string>, state: WriteState, startSha: string,
    recoveredAt: Option<string>)

  datatype Branch = Branch(repository: string, ref: string)

  predicate OnBranch(r: WriteReceipt, branch: Branch) {
    r.repository == Some(branch.repository) && r.ref == Some(branch.ref)
  }

  // ---------------------------------------------------------------------------
  // Specification
  // ---------------------------------------------------------------------------

  predicate HasId(latest: seq<WriteReceipt>, id: string) {
    exists i :: 0 <= i < |latest| && latest[i].id == id
  }

  /** The list with the receipt in the place of its operation, or behind the others. */
  function Upsert(latest: seq<WriteReceipt>, r: WriteReceipt): seq<WriteReceipt> {
    if latest == [] then [r]
    else if latest[0].id == r.id then [r] + latest[1..]
    else [latest[0]] + Upsert(latest[1..], r)
  }

  /** The newest receipt of every operation, in order of first appearance, on top of `latest`. */
  function LatestOver(latest: seq<WriteReceipt>, records: seq<WriteReceipt>): seq<WriteReceipt> {
    if records == [] then latest
    else
      var last := records[|records| - 1];
      var before := LatestOver(latest, records[..|records| - 1]);
      if last.id == "" then before else Upsert(before, last)
  }

  function Latest(records: seq<WriteReceipt>): seq<WriteReceipt> {
    LatestOver([], records)
  }

  predicate Conflicting(r: WriteReceipt, branch: Branch, operation: string) {
    r.id != operation && OnBranch(r, branch) && Active(r.state)
  }

  datatype Conflict = Conflict(id: string, state: WriteState)

  /** All receipts, or all but those of a branch that started at a SHA. */
  datatype Selection = All | AllBut(branch: Branch, startSha: string)

  predicate Keeps(keep: Selection, asked: Branch, r: WriteReceipt) {
    keep.All? || !(asked == keep.branch && r.startSha == keep.startSha)
  }

  /** The conflicts among the newest receipts that also pass `keep`, in order. */
  function ConflictsAmong(latest: seq<WriteReceipt>, branch: Branch, operation: string, keep: Selection): seq<Conflict> {
    if latest == [] then []
    else
      var last := latest[|latest| - 1];
      var before := ConflictsAmong(latest[..|latest| - 1], branch, operation, keep);
      if Conflicting(last, branch, operation) && Keeps(keep, branch, last) then before + [Conflict(last.id, last.state)] else before
  }

  function Conflicts(records: seq<WriteReceipt>, branch: Branch, operation: string): seq<Conflict> {
    ConflictsAmong(Latest(records), branch, operation, All)
  }

  /** An active receipt of the branch that started at the live head. */
  predicate Recoverable(r: WriteReceipt, branch: Branch, live: string) {
    OnBranch(r, branch) && Active(r.state) && r.startSha == live
  }

  function Recover(r: WriteReceipt, live: string): WriteReceipt {
    r.(state := Cancelled, recoveredAt := Some(live))
  }

  function RecoveriesOf(latest: seq<WriteReceipt>, branch: Branch, live: string): seq<WriteReceipt> {
    if latest == [] then []
    else
      var last := latest[|latest| - 1];
      var before := RecoveriesOf(latest[..|latest| - 1], branch, live);
      if Recoverable(last, branch, live) then before + [Recover(last, live)] else before
  }

  /** The receipts a recovery emits. */
  function Recoveries(records: seq<WriteReceipt>, branch: Branch, live: string): seq<WriteReceipt> {
    RecoveriesOf(Latest(records), branch, live)
  }

  // ---------------------------------------------------------------------------
  // The list of newest receipts
  // ---------------------------------------------------------------------------

  ghost predicate Keyed(latest: seq<WriteReceipt>) {
    && (forall i :: 0 <= i < |latest| ==> latest[i].id != "")
    && (forall i, j :: 0 <= i < j < |latest| ==> latest[i].id != latest[j].id)
  }

  lemma {:induction false} UpsertReplaces(latest: seq<WriteReceipt>, r: WriteReceipt, k: nat)
    requires Keyed(latest) && k < |latest| && latest[k].id == r.id
    ensures Upsert(latest, r) == latest[k := r]
  {
    if k > 0 {
      UpsertReplaces(latest[1..], r, k - 1);
    }
  }

  lemma {:induction false} UpsertAppends(latest: seq<WriteReceipt>, r: WriteReceipt)
    requires !HasId(latest, r.id)
    ensures Upsert(latest, r) == latest + [r]
  {
    if latest != [] {
      assert latest[0].id != r.id;
      forall i | 0 <= i < |latest| - 1 ensures latest[1..][i].id != r.id {
        assert latest[1..][i] == latest[i + 1];
      }
      UpsertAppends(latest[1..], r);
    }
  }

  lemma UpsertKeyed(latest: seq<WriteReceipt>, r: WriteReceipt)
    requires Keyed(latest) && r.id != ""
    ensures Keyed(Upsert(latest, r))
  {
    if HasId(latest, r.id) {
      var k :| 0 <= k < |latest| && latest[k].id == r.id;
      UpsertReplaces(latest, r, k);
    } else {
      UpsertAppends(latest, r);
    }
  }

  lemma {:induction false} LatestKeyed(records: seq<WriteReceipt>)
    ensures Keyed(Latest(records))
  {
    if records != [] {
      var last := records[|records| - 1];
      LatestKeyed(records[..|records| - 1]);
      if last.id != "" {
        UpsertKeyed(Latest(records[..|records| - 1]), last);
      }
    }
  }

  lemma {:induction false} LatestAppended(a: seq<WriteReceipt>, b: seq<WriteReceipt>)
    ensures Latest(a + b) == LatestOver(Latest(a), b)
  {
    if b == [] {
      assert a + b == a;
    } else {
      LatestAppended(a, b[..|b| - 1]);
      assert (a + b)[..|a + b| - 1] == a + b[..|b| - 1];
    }
  }

  // ---------------------------------------------------------------------------
  // Recovery
  // ---------------------------------------------------------------------------

  function AfterRecovery(r: WriteReceipt, branch: Branch, live: string): WriteReceipt {
    if Recoverable(r, branch, live) then Recover(r, live) else r
  }

  function AllAfterRecovery(latest: seq<WriteReceipt>, branch: Branch, live: string): seq<WriteReceipt> {
    seq(|latest|, i requires 0 <= i < |latest| => AfterRecovery(latest[i], branch, live))
  }

  /** The first `n` receipts as recovery leaves them, the others as they were. */
  function RecoveredUpTo(latest: seq<WriteReceipt>, branch: Branch, live: string, n: nat): seq<WriteReceipt>
    requires n <= |latest|
  {
    AllAfterRecovery(latest, branch, live)[..n] + latest[n..]
  }

  lemma RecoveredKeyed(latest: seq<WriteReceipt>, branch: Branch, live: string, n: nat)
    requires Keyed(latest) && n < |latest|
    ensures
      var now := RecoveredUpTo(latest, branch, live, n);
      Keyed(now) && |now| == |latest| && now[n] == latest[n]
  {
    var now := RecoveredUpTo(latest, branch, live, n);
    assert forall i :: 0 <= i < |latest| ==> now[i].id == latest[i].id;
  }

  lemma RecoveredDiffersAt(latest: seq<WriteReceipt>, branch: Branch, live: string, n: nat)
    requires n < |latest|
    ensures
      var now := RecoveredUpTo(latest, branch, live, n);
      |now| == |latest| && now[n] == latest[n]
      && RecoveredUpTo(latest, branch, live, n + 1) == now[n := AfterRecovery(latest[n], branch, live)]
  {
  }

  lemma RecoverOneMore(latest: seq<WriteReceipt>, branch: Branch, live: string, n: nat)
    requires Keyed(latest) && n < |latest|
    ensures
      var next := RecoveredUpTo(latest, branch, live, n + 1);
      next == if Recoverable(latest[n], branch, live)
              then Upsert(RecoveredUpTo(latest, branch, live, n), Recover(latest[n], live))
              else RecoveredUpTo(latest, branch, live, n)
  {
    RecoveredKeyed(latest, branch, live, n);
    RecoveredDiffersAt(latest, branch, live, n);
    UpsertReplaces(RecoveredUpTo(latest, branch, live, n), Recover(latest[n], live), n);
  }

  /** Appending the recoveries of the first `n` newest receipts rewrites those and leaves the others. */
  lemma {:induction false} RecoveriesRewriteInPlace(latest: seq<WriteReceipt>, branch: Branch, live: string, n: nat)
    requires Keyed(latest) && n <= |latest|
    ensures LatestOver(latest, RecoveriesOf(latest[..n], branch, live)) == RecoveredUpTo(latest, branch, live, n)
  {
    if n > 0 {
      RecoveriesRewriteInPlace(latest, branch, live, n - 1);
      RecoverOneMore(latest, branch, live, n - 1);
      assert latest[..n][..n - 1] == latest[..n - 1];
      var emitted := RecoveriesOf(latest[..n - 1], branch, live);
      assert (emitted + [Recover(latest[n - 1], live)])[..|emitted|] == emitted;
    }
  }

  lemma LatestAfterRecovery(records: seq<WriteReceipt>, branch: Branch, live: string)
    ensures Latest(records + Recoveries(records, branch, live)) == AllAfterRecovery(Latest(records), branch, live)
  {
    var latest := Latest(records);
    LatestKeyed(records);
    LatestAppended(records, Recoveries(records, branch, live));
    RecoveriesRewriteInPlace(latest, branch, live, |latest|);
    assert latest[..|latest|] == latest;
  }

  lemma {:induction false} RemainingAmong(latest: seq<WriteReceipt>, branch: Branch, live: string, asked: Branch, operation: string)
    ensures ConflictsAmong(AllAfterRecovery(latest, branch, live), asked, operation, All)
         == ConflictsAmong(latest, asked, operation, AllBut(branch, live))
  {
    if latest != [] {
      var n := |latest| - 1;
      RemainingAmong(latest[..n], branch, live, asked, operation);
      var all := AllAfterRecovery(latest, branch, live);
      assert all[..n] == AllAfterRecovery(latest[..n], branch, live);
      assert all[n] == AfterRecovery(latest[n], branch, live);
    }
  }

  /** With the recoveries appended, what still conflicts is, in the same order, exactly what
      conflicted before and is on another branch or started elsewhere than at the live head. */
  lemma RecoveryFreesExactly(records: seq<WriteReceipt>, branch: Branch, live: string, asked: Branch, operation: string)
    ensures Conflicts(records + Recoveries(records, branch, live), asked, operation)
         == ConflictsAmong(Latest(records), asked, operation, AllBut(branch, live))
  {
    LatestAfterRecovery(records, branch, live);
    RemainingAmong(Latest(records), branch, live, asked, operation);
  }

  lemma {:induction false} NothingLeftToRecover(latest: seq<WriteReceipt>, branch: Branch, live: string)
    ensures RecoveriesOf(AllAfterRecovery(latest, branch, live), branch, live) == []
  {
    if latest != [] {
      var n := |latest| - 1;
      NothingLeftToRecover(latest[..n], branch, live);
      assert AllAfterRecovery(latest, branch, live)[..n] == AllAfterRecovery(latest[..n], branch, live);
    }
  }

  /** A second recovery at the same head emits nothing. */
  lemma SecondRecoveryEmitsNothing(records: seq<WriteReceipt>, branch: Branch, live: string)
    ensures Recoveries(records + Recoveries(records, branch, live), branch, live) == []
  {
    LatestAfterRecovery(records, branch, live);
    NothingLeftToRecover(Latest(records), branch, live);
  }

  lemma {:induction false} FreeExactlyWhen(latest: seq<WriteReceipt>, branch: Branch, operation: string, keep: Selection)
    ensures ConflictsAmong(latest, branch, operation, keep) == [] <==>
      forall r :: r in latest && Conflicting(r, branch, operation) ==> !Keeps(keep, branch, r)
  {
    if latest != [] {
      var before, last := latest[..|latest| - 1], latest[|latest| - 1];
      assert latest == before + [last];
      FreeExactlyWhen(before, branch, operation, keep);
    }
  }

  /** The branch is free after recovery exactly when every conflicting operation had started at the
      live head. */
  lemma BranchIsFreedExactlyWhen(records: seq<WriteReceipt>, branch: Branch, live: string, operation: string)
    ensures Conflicts(records + Recoveries(records, branch, live), branch, operation) == [] <==>
      forall r :: r in Latest(records) && Conflicting(r, branch, operation) ==> r.startSha == live
  {
    RecoveryFreesExactly(records, branch, live, branch, operation);
    FreeExactlyWhen(Latest(records), branch, operation, AllBut(branch, live));
  }

  // ---------------------------------------------------------------------------
  // Which receipts count
  // ---------------------------------------------------------------------------

  /** The receipt at `i` is the newest one of its operation. */
  predicate NewestAt(records: seq<WriteReceipt>, i: nat) {
    i < |records| && records[i].id != "" && forall j :: i < j < |records| ==> records[j].id != records[i].id
  }

  predicate IsNewest(records: seq<WriteReceipt>, r: WriteReceipt) {
    exists i :: 0 <= i < |records| && NewestAt(records, i) && records[i] == r
  }

  lemma NewestLonger(before: seq<WriteReceipt>, last: WriteReceipt, r: WriteReceipt)
    ensures IsNewest(before + [last], r) <==>
      (last.id != "" && r == last) || (IsNewest(before, r) && r.id != last.id)
  {
    var all := before + [last];
    if i :| 0 <= i < |all| && NewestAt(all, i) && all[i] == r && i < |before| {
      assert all[|before|].id != r.id;
      assert forall j :: i < j < |before| ==> all[j] == before[j];
      assert NewestAt(before, i);
    }
    if last.id != "" && r == last { assert NewestAt(all, |before|); }
    if IsNewest(before, r) && r.id != last.id {
      var i :| 0 <= i < |before| && NewestAt(before, i) && before[i] == r;
      assert NewestAt(all, i);
    }
  }

  lemma UpsertMembers(latest: seq<WriteReceipt>, last: WriteReceipt, r: WriteReceipt)
    requires Keyed(latest)
    ensures r in Upsert(latest, last) <==> r == last || (r in latest && r.id != last.id)
  {
    if HasId(latest, last.id) {
      var k :| 0 <= k < |latest| && latest[k].id == last.id;
      UpsertReplaces(latest, last, k);
      if r in latest && r.id != last.id {
        var i :| 0 <= i < |latest| && latest[i] == r;
        assert latest[k := last][i] == r;
      }
      assert latest[k := last][k] == last;
    } else {
      UpsertAppends(latest, last);
    }
  }

  /** The newest receipts are those that no later one of the same operation follows. */
  lemma {:induction false} LatestAreTheNewest(records: seq<WriteReceipt>, r: WriteReceipt)
    ensures r in Latest(records) <==> IsNewest(records, r)
  {
    if records != [] {
      var before, last := records[..|records| - 1], records[|records| - 1];
      assert records == before + [last];
      LatestAreTheNewest(before, r);
      LatestKeyed(before);
      NewestLonger(before, last, r);
      if last.id != "" {
        UpsertMembers(Latest(before), last, r);
      } else if IsNewest(before, r) {
        var i :| 0 <= i < |before| && NewestAt(before, i) && before[i] == r;
      }
    }
  }

  /** The one operation is named before the other. */
  predicate AppearsBefore(records: seq<WriteReceipt>, x: string, y: string) {
    exists i :: 0 <= i < |records| && records[i].id == x && forall j :: 0 <= j <= i ==> records[j].id != y
  }

  lemma AppearsBeforeLonger(before: seq<WriteReceipt>, last: WriteReceipt, x: string, y: string)
    requires AppearsBefore(before, x, y)
    ensures AppearsBefore(before + [last], x, y)
  {
    var i :| 0 <= i < |before| && before[i].id == x && forall j :: 0 <= j <= i ==> before[j].id != y;
    var all := before + [last];
    assert all[i].id == x && forall j :: 0 <= j <= i ==> all[j] == before[j];
  }

  /** Whoever is named has a newest receipt. */
  lemma {:induction false} NamedHasLatest(records: seq<WriteReceipt>, i: nat)
    requires i < |records| && records[i].id != ""
    ensures HasId(Latest(records), records[i].id)
  {
    var before, last := records[..|records| - 1], records[|records| - 1];
    LatestKeyed(before);
    if i < |before| { NamedHasLatest(before, i); }
    if last.id != "" {
      if HasId(Latest(before), last.id) {
        var k :| 0 <= k < |Latest(before)| && Latest(before)[k].id == last.id;
        UpsertReplaces(Latest(before), last, k);
        ReplacingKeepsIds(Latest(before), k, last, records[i].id);
      } else {
        UpsertAppends(Latest(before), last);
        AppendingKeepsIds(Latest(before), last, records[i].id);
      }
    }
  }

  lemma AppendingKeepsIds(latest: seq<WriteReceipt>, last: WriteReceipt, id: string)
    requires HasId(latest, id) || id == last.id
    ensures HasId(latest + [last], id)
  {
    if id == last.id {
      assert (latest + [last])[|latest|].id == id;
    } else {
      var i :| 0 <= i < |latest| && latest[i].id == id;
      assert (latest + [last])[i].id == id;
    }
  }

  /** The newest receipts are in the order in which their operations were first named. */
  lemma {:induction false} LatestInOrderOfNaming(records: seq<WriteReceipt>, a: nat, b: nat)
    requires a < b < |Latest(records)|
    ensures AppearsBefore(records, Latest(records)[a].id, Latest(records)[b].id)
  {
    var before, last := records[..|records| - 1], records[|records| - 1];
    var latest := Latest(before);
    assert records == before + [last];
    LatestKeyed(before);
    if last.id != "" && HasId(latest, last.id) {
      var k :| 0 <= k < |latest| && latest[k].id == last.id;
      UpsertReplaces(latest, last, k);
    } else if last.id != "" {
      UpsertAppends(latest, last);
    }
    if b < |latest| {
      LatestInOrderOfNaming(before, a, b);
      AppearsBeforeLonger(before, last, latest[a].id, latest[b].id);
    } else {
      NewlyNamedIsLast(before, last, a);
    }
  }

  lemma NewlyNamedIsLast(before: seq<WriteReceipt>, last: WriteReceipt, a: nat)
    requires last.id != "" && !HasId(Latest(before), last.id) && a < |Latest(before)|
    ensures AppearsBefore(before + [last], Latest(before)[a].id, last.id)
  {
    var r, all := Latest(before)[a], before + [last];
    LatestAreTheNewest(before, r);
    var i :| 0 <= i < |before| && NewestAt(before, i) && before[i] == r;
    forall j | 0 <= j <= i ensures all[j].id != last.id {
      if before[j].id == last.id { NamedHasLatest(before, j); }
    }
    assert all[i].id == r.id;
  }

  /** The write may still change the branch: it is planned, running, or of unknown outcome. */
  predicate StillOpen(state: WriteState) {
    state !in {Confirmed, Rejected, Cancelled, NotObserved, OtherState}
  }

  /** The receipt stands in the way of an operation on the branch. */
  predicate StandsInTheWay(records: seq<WriteReceipt>, r: WriteReceipt, branch: Branch, operation: string) {
    && IsNewest(records, r) && r.id != operation && StillOpen(r.state)
    && r.repository == Some(branch.repository) && r.ref == Some(branch.ref)
  }

  lemma {:induction false} ConflictMembers(latest: seq<WriteReceipt>, branch: Branch, operation: string, x: Conflict)
    ensures x in ConflictsAmong(latest, branch, operation, All) <==>
      exists r | r in latest :: Conflicting(r, branch, operation) && x == Conflict(r.id, r.state)
  {
    if latest != [] {
      var before, last := latest[..|latest| - 1], latest[|latest| - 1];
      assert latest == before + [last];
      ConflictMembers(before, branch, operation, x);
    }
  }

  /** The conflicts of an operation are exactly the other operations whose newest receipt on the branch is
      still open. */
  lemma ConflictsExactly(records: seq<WriteReceipt>, branch: Branch, operation: string, x: Conflict)
    ensures x in Conflicts(records, branch, operation) <==>
      exists r :: StandsInTheWay(records, r, branch, operation) && x == Conflict(r.id, r.state)
  {
    ConflictMembers(Latest(records), branch, operation, x);
    forall r ensures r in Latest(records) <==> IsNewest(records, r) {
      LatestAreTheNewest(records, r);
    }
  }

  lemma {:induction false} RecoveryMembers(latest: seq<WriteReceipt>, branch: Branch, live: string, x: WriteReceipt)
    ensures x in RecoveriesOf(latest, branch, live) <==>
      exists r | r in latest :: Recoverable(r, branch, live) && x == Recover(r, live)
  {
    if latest != [] {
      var before, last := latest[..|latest| - 1], latest[|latest| - 1];
      assert latest == before + [last];
      RecoveryMembers(before, branch, live, x);
    }
  }

  /** A recovery cancels exactly the open newest receipts of the branch that started at the live head,
      and says at which head. */
  lemma RecoveriesExactly(records: seq<WriteReceipt>, branch: Branch, live: string, x: WriteReceipt)
    ensures x in Recoveries(records, branch, live) <==>
      exists r ::
        && IsNewest(records, r) && StillOpen(r.state) && r.startSha == live
        && r.repository == Some(branch.repository) && r.ref == Some(branch.ref)
        && x == r.(state := Cancelled, recoveredAt := Some(live))
  {
    RecoveryMembers(Latest(records), branch, live, x);
    forall r ensures r in Latest(records) <==> IsNewest(records, r) {
      LatestAreTheNewest(records, r);
    }
  }

  // ---------------------------------------------------------------------------
  // The loops
  // ---------------------------------------------------------------------------

  /** The map and the order of ids hold the newest receipts. */
  ghost predicate Holds(order: seq<string>, newest: map<string, WriteReceipt>, latest: seq<WriteReceipt>) {
    && Keyed(latest) && |order| == |latest|
    && (forall i :: 0 <= i < |latest| ==> order[i] == latest[i].id && order[i] in newest && newest[order[i]] == latest[i])
    && (forall id :: id in newest ==> HasId(latest, id))
  }

  lemma HoldsAfterReplacing(order: seq<string>, newest: map<string, WriteReceipt>, latest: seq<WriteReceipt>, r: WriteReceipt)
    requires Holds(order, newest, latest) && r.id != "" && r.id in newest
    ensures Holds(order, newest[r.id := r], Upsert(latest, r))
  {
    var k :| 0 <= k < |latest| && latest[k].id == r.id;
    UpsertReplaces(latest, r, k);
    HoldsReplaced(order, newest, latest, r, k);
  }

  lemma HoldsReplaced(order: seq<string>, newest: map<string, WriteReceipt>, latest: seq<WriteReceipt>, r: WriteReceipt, k: nat)
    requires Holds(order, newest, latest) && k < |latest| && latest[k].id == r.id
    ensures Holds(order, newest[r.id := r], latest[k := r])
  {
    forall id | id in newest ensures HasId(latest[k := r], id) {
      ReplacingKeepsIds(latest, k, r, id);
    }
  }

  lemma ReplacingKeepsIds(latest: seq<WriteReceipt>, k: nat, r: WriteReceipt, id: string)
    requires k < |latest| && latest[k].id == r.id && HasId(latest, id)
    ensures HasId(latest[k := r], id)
  {
    var i :| 0 <= i < |latest| && latest[i].id == id;
    assert latest[k := r][i].id == id;
  }

  lemma HoldsAfterAppending(order: seq<string>, newest: map<string, WriteReceipt>, latest: seq<WriteReceipt>, r: WriteReceipt)
    requires Holds(order, newest, latest) && r.id != "" && r.id !in newest
    ensures Holds(order + [r.id], newest[r.id := r], Upsert(latest, r))
  {
    assert !HasId(latest, r.id);
    UpsertAppends(latest, r);
    forall id | id in newest[r.id := r] ensures HasId(latest + [r], id) {
      if id == r.id {
        assert (latest + [r])[|latest|].id == id;
      } else {
        var i :| 0 <= i < |latest| && latest[i].id == id;
        assert (latest + [r])[i].id == id;
      }
    }
  }

  method LatestRecords(records: seq<WriteReceipt>) returns (result: seq<WriteReceipt>)
    ensures result == Latest(records)
  {
    var newest: map<string, WriteReceipt> := map[];
    var order: seq<string> := [];
    for i := 0 to |records|
      invariant Holds(order, newest, Latest(records[..i]))
    {
      var r := records[i];
      assert records[..i + 1][..i] == records[..i];
      if r.id != "" {
        if r.id !in newest {
          HoldsAfterAppending(order, newest, Latest(records[..i]), r);
          order := order + [r.id];
        } else {
          HoldsAfterReplacing(order, newest, Latest(records[..i]), r);
        }
        newest := newest[r.id := r];
      }
    }
    assert records[..|records|] == records;
    result := seq(|order|, i requires 0 <= i < |order| && order[i] in newest => newest[order[i]]);
  }

  method EvaluateBranchSerialization(branch: Branch, operation: string, records: seq<WriteReceipt>)
    returns (available: bool, conflicts: seq<Conflict>)
    ensures conflicts == Conflicts(records, branch, operation)
    ensures available <==> conflicts == []
  {
    var latest := LatestRecords(records);
    conflicts := [];
    for i := 0 to |latest|
      invariant conflicts == ConflictsAmong(latest[..i], branch, operation, All)
    {
      var r := latest[i];
      assert latest[..i + 1][..i] == latest[..i];
      if r.id == operation { continue; }
      if r.repository != Some(branch.repository) || r.ref != Some(branch.ref) { continue; }
      if !Active(r.state) { continue; }
      conflicts := conflicts + [Conflict(r.id, r.state)];
    }
    assert latest[..|latest|] == latest;
    available := conflicts == [];
  }

  method RecoverUnobservedOperations(records: seq<WriteReceipt>, branch: Branch, live: string)
    returns (recovered: seq<WriteReceipt>)
    ensures recovered == Recoveries(records, branch, live)
  {
    var latest := LatestRecords(records);
    recovered := [];
    for i := 0 to |latest|
      invariant recovered == RecoveriesOf(latest[..i], branch, live)
    {
      var r := latest[i];
      assert latest[..i + 1][..i] == latest[..i];
      if r.repository != Some(branch.repository) || r.ref != Some(branch.ref) { continue; }
      if !Active(r.state) { continue; }
      if r.startSha != live { continue; }
      var replacement := r.(state := Cancelled);
      replacement := replacement.(recoveredAt := Some(live));
      recovered := recovered + [replacement];
    }
    assert latest[..|latest|] == latest;
  }
}
