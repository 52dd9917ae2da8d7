/** The single worker-lock row: acquire, release, and release-only-if-idle, each one transaction. */
module WorkerLocks {
  import opened Outcomes
  import opened RunModels
  import opened RunStore
  import opened RunQueue

  datatype IdleHandoff = WorkAvailable | Released | OwnershipLost

  /** `alive` holds the pids for which the operating system still has a process. */
  predicate Stale(owner: LockOwner, now: int, staleAfter: nat, alive: set<nat>) {
    now - owner.acquiredAt >= staleAfter || owner.pid !in alive
  }

  /** Whether an acquire at `now` is refused: somebody holds the row and is not stale. */
  predicate Refuses(row: Option<LockOwner>, now: int, staleAfter: nat, alive: set<nat>) {
    row.Some? && !Stale(row.value, now, staleAfter, alive)
  }

  function Acquired(row: Option<LockOwner>, requested: LockOwner, staleAfter: nat, alive: set<nat>): Option<LockOwner> {
    if Refuses(row, requested.acquiredAt, staleAfter, alive) then row else Some(requested)
  }

  function ReleasedBy(row: Option<LockOwner>, owner: LockOwner): Option<LockOwner> {
    if row == Some(owner) then None else row
  }

  function Handoff(db: Db, owner: LockOwner): (Option<LockOwner>, IdleHandoff) {
    if db.workerLock != Some(owner) then (db.workerLock, OwnershipLost)
    else if Waiting(db.runs) != {} then (db.workerLock, WorkAvailable)
    else (None, Released)
  }

  class RunWorkerLockStore {
    const database: LocalDatabase

    constructor (database: LocalDatabase)
      ensures this.database == database
    {
      this.database := database;
    }

    method Acquire(owner: string, pid: nat, now: int, staleAfter: nat, alive: set<nat>)
      returns (lease: Option<RunWorkerLease>)
      modifies database`workerLock
      ensures database.workerLock == Acquired(old(database.workerLock), LockOwner(owner, pid, now), staleAfter, alive)
      ensures lease.None? <==> Refuses(old(database.workerLock), now, staleAfter, alive)
      ensures lease.Some? ==>
                && fresh(lease.value) && lease.value.store == this && lease.value.owner == LockOwner(owner, pid, now)
                && database.workerLock == Some(lease.value.owner)
      ensures old(database.workerLock).None? ==> lease.Some?
      ensures old(database.workerLock).Some? ==>
                var current := old(database.workerLock).value;
                lease.Some? <==> now - current.acquiredAt >= staleAfter || current.pid !in alive
      ensures lease.None? ==> database.workerLock == old(database.workerLock)
    {
      var requested := LockOwner(owner, pid, now);
      if database.workerLock.Some? {
        var current := database.workerLock.value;
        if !Stale(current, now, staleAfter, alive) {
          return None;
        }
      }
      database.workerLock := Some(requested);
      var granted := new RunWorkerLease(requested, this);
      lease := Some(granted);
    }

    method Release(owner: LockOwner)
      modifies database`workerLock
      ensures database.workerLock == ReleasedBy(old(database.workerLock), owner)
    {
      if database.workerLock.None? {
        return;
      }
      if database.workerLock.value != owner {
        return;
      }
      database.workerLock := None;
    }

    method ReleaseIfIdle(owner: LockOwner) returns (outcome: IdleHandoff)
      modifies database`workerLock
      ensures (database.workerLock, outcome) == Handoff(old(database.Tables()), owner)
      ensures outcome.OwnershipLost? <==> old(database.workerLock) != Some(owner)
      ensures outcome.WorkAvailable? <==> old(database.workerLock) == Some(owner) && Waiting(database.runs) != {}
      ensures database.workerLock == if outcome.Released? then None else old(database.workerLock)
    {
      if database.workerLock.None? {
        return OwnershipLost;
      }
      if database.workerLock.value != owner {
        return OwnershipLost;
      }
      var next := NextQueuedRun(database);
      if next.Some? {
        return WorkAvailable;
      }
      database.workerLock := None;
      outcome := Released;
    }
  }

  class RunWorkerLease {
    const owner: LockOwner
    const store: RunWorkerLockStore

    constructor (owner: LockOwner, store: RunWorkerLockStore)
      ensures this.owner == owner && this.store == store
    {
      this.owner, this.store := owner, store;
    }

    method Release()
      modifies store.database`workerLock
      ensures store.database.workerLock == ReleasedBy(old(store.database.workerLock), owner)
    {
      store.Release(owner);
    }
  }

  // ---- Safety over histories with takeovers ---------------------------------------------------

  datatype LockCall =
    | AcquireCall(requested: LockOwner, staleAfter: nat, alive: set<nat>)
    | ReleaseCall(owner: LockOwner)
    | HandoffCall(owner: LockOwner, idle: bool)

  /** The row after a history; a handoff deletes it only when the queue is idle. */
  function Row(calls: seq<LockCall>): Option<LockOwner> {
    if |calls| == 0 then None
    else
      var row := Row(calls[..|calls| - 1]);
      match calls[|calls| - 1]
      case AcquireCall(requested, staleAfter, alive) => Acquired(row, requested, staleAfter, alive)
      case ReleaseCall(owner) => ReleasedBy(row, owner)
      case HandoffCall(owner, idle) => if idle then ReleasedBy(row, owner) else row
  }

  /** No two acquires present the same owner tuple. */
  predicate DistinctRequests(calls: seq<LockCall>) {
    forall i, j :: 0 <= i < j < |calls| && calls[i].AcquireCall? && calls[j].AcquireCall? ==> calls[i].requested != calls[j].requested
  }

  /** The acquire at `i` was granted: its caller holds a lease from then on. */
  predicate Granted(calls: seq<LockCall>, i: nat)
    requires i < |calls|
  {
    calls[i].AcquireCall? && !Refuses(Row(calls[..i]), calls[i].requested.acquiredAt, calls[i].staleAfter, calls[i].alive)
  }

  /** A held row is that of the last acquire ever granted. */
  lemma {:induction false} RowWasGranted(calls: seq<LockCall>) returns (holder: nat)
    requires Row(calls).Some?
    ensures holder < |calls| && Granted(calls, holder) && calls[holder].requested == Row(calls).value
    ensures forall later: nat :: holder < later < |calls| ==> !Granted(calls, later)
  {
    var before, last := calls[..|calls| - 1], |calls| - 1;
    if Granted(calls, last) {
      holder := last;
    } else {
      holder := RowWasGranted(before);
      forall i: nat | i < last ensures Granted(calls, i) == Granted(before, i) {
        assert calls[..i] == before[..i];
      }
    }
  }

  predicate Holds(calls: seq<LockCall>, i: nat) {
    i < |calls| && Granted(calls, i) && Row(calls) == Some(calls[i].requested)
  }

  /** At any moment of any history a held row matches exactly one of the leases ever granted, and that is the last of them. */
  lemma {:induction false} OneLeaseMatches(calls: seq<LockCall>)
    requires DistinctRequests(calls) && Row(calls).Some?
    ensures exists i: nat :: Holds(calls, i) && (forall j: nat :: Holds(calls, j) ==> j == i)
                        && forall later :: i < later < |calls| ==> !Granted(calls, later)
  {
    var holder := RowWasGranted(calls);
    assert Holds(calls, holder);
  }

  // ---- What ends a lease ------------------------------------------------------------------------

  /** A call that takes the row away from an owner who holds it. */
  predicate Displaces(call: LockCall, owner: LockOwner) {
    match call
    case AcquireCall(requested, staleAfter, alive) =>
      requested != owner && (requested.acquiredAt - owner.acquiredAt >= staleAfter || owner.pid !in alive)
    case ReleaseCall(released) => released == owner
    case HandoffCall(handed, idle) => idle && handed == owner
  }

  predicate Undisturbed(calls: seq<LockCall>, from: nat, owner: LockOwner) {
    forall k :: from <= k < |calls| ==> !Displaces(calls[k], owner)
  }

  lemma {:induction false} GrantedHolds(calls: seq<LockCall>, i: nat)
    requires i < |calls| && Granted(calls, i)
    ensures Row(calls[..i + 1]) == Some(calls[i].requested)
  {
    assert calls[..i + 1][..i] == calls[..i];
  }

  /** After any history, an acquire takes an absent row; and it takes a held one from its owner if and only if `stale_after` has
      passed since that acquired it, or its process is gone. */
  lemma {:induction false} AcquireTakesExactlyStaleRows(calls: seq<LockCall>, requested: LockOwner, staleAfter: nat, alive: set<nat>)
    requires Row(calls) != Some(requested)
    ensures var after := Row(calls + [AcquireCall(requested, staleAfter, alive)]);
            && (after == Some(requested) || after == Row(calls))
            && (after == Some(requested) <==>
                Row(calls).None? || requested.acquiredAt - Row(calls).value.acquiredAt >= staleAfter || Row(calls).value.pid !in alive)
  {
    assert (calls + [AcquireCall(requested, staleAfter, alive)])[..|calls|] == calls;
  }

  /** A row that nothing displaces stays, from whatever moment on. */
  lemma {:induction false} UndisturbedStays(calls: seq<LockCall>, held: nat, owner: LockOwner)
    requires held <= |calls| && Row(calls[..held]) == Some(owner) && Undisturbed(calls, held, owner)
    ensures Row(calls) == Some(owner)
  {
    if held == |calls| {
      assert calls[..held] == calls;
    } else {
      var before := calls[..|calls| - 1];
      assert before[..held] == calls[..held];
      UndisturbedStays(before, held, owner);
      assert !Displaces(calls[|calls| - 1], owner);
    }
  }

  /** A live owner keeps the row over any history in which every later acquire comes before `stale_after` has passed since its
      own, and in which nobody gives its own lease back. */
  lemma {:induction false} NoEarlyTakeover(calls: seq<LockCall>, i: nat)
    requires i < |calls| && Granted(calls, i)
    requires forall k :: i < k < |calls| && calls[k].AcquireCall? ==>
               calls[i].requested.pid in calls[k].alive && calls[k].requested.acquiredAt - calls[i].requested.acquiredAt < calls[k].staleAfter
    requires forall k :: i < k < |calls| && !calls[k].AcquireCall? ==> calls[k].owner != calls[i].requested
    ensures Row(calls) == Some(calls[i].requested)
  {
    GrantedHolds(calls, i);
    UndisturbedStays(calls, i + 1, calls[i].requested);
  }

  /** With distinct requests a lease holds the row exactly as long as nothing has displaced it: no stale takeover, no
      release, no idle handoff. */
  lemma {:induction false} LeaseHoldsUntilDisplaced(calls: seq<LockCall>, i: nat)
    requires DistinctRequests(calls) && i < |calls| && Granted(calls, i)
    ensures Row(calls) == Some(calls[i].requested) <==> Undisturbed(calls, i + 1, calls[i].requested)
  {
    GrantedHolds(calls, i);
    var owner := calls[i].requested;
    if Undisturbed(calls, i + 1, owner) {
      UndisturbedStays(calls, i + 1, owner);
    } else {
      var k :| i + 1 <= k < |calls| && Displaces(calls[k], owner);
      assert calls[..k + 1][..k] == calls[..k];
      assert Row(calls[..k + 1]) != Some(owner);
      LostLeaseStaysLost(calls, i, k + 1);
    }
  }

  /** Once the row is not a lease's own any more, it never is again: so neither release of a superseded
      or already released lease ever touches a successor's row. */
  lemma {:induction false} LostLeaseStaysLost(calls: seq<LockCall>, i: nat, lost: nat)
    requires DistinctRequests(calls) && i < lost <= |calls| && calls[i].AcquireCall?
    requires Row(calls[..lost]) != Some(calls[i].requested)
    ensures Row(calls) != Some(calls[i].requested)
    ensures ReleasedBy(Row(calls), calls[i].requested) == Row(calls)
    ensures forall db: Db :: db.workerLock == Row(calls) ==> Handoff(db, calls[i].requested) == (Row(calls), OwnershipLost)
  {
    if lost == |calls| {
      assert calls[..lost] == calls;
    } else {
      var before := calls[..|calls| - 1];
      assert before[..lost] == calls[..lost];
      LostLeaseStaysLost(before, i, lost);
    }
  }

  // ---- When requests are not distinct -----------------------------------------------------------

  /** An acquire after the loss that presented the same tuple, was granted, and has not been displaced since. */
  predicate Reissued(calls: seq<LockCall>, lost: nat, owner: LockOwner, j: nat) {
    lost <= j < |calls| && Granted(calls, j) && calls[j].requested == owner && Undisturbed(calls, j + 1, owner)
  }

  /** Without distinct requests, a lease that was lost deletes the row of another exactly when an equal tuple was granted
      after the loss and still holds. */
  lemma {:induction false} LostLeaseDeletesExactlyItsEqual(calls: seq<LockCall>, i: nat, lost: nat)
    requires i < lost <= |calls| && Granted(calls, i) && Row(calls[..lost]) != Some(calls[i].requested)
    ensures ReleasedBy(Row(calls), calls[i].requested) != Row(calls) <==> exists j: nat :: Reissued(calls, lost, calls[i].requested, j)
  {
    var owner := calls[i].requested;
    forall j: nat | Reissued(calls, lost, owner, j) ensures Row(calls) == Some(owner) {
      GrantedHolds(calls, j);
      UndisturbedStays(calls, j + 1, owner);
    }
    if Row(calls) == Some(owner) {
      var j := LastGrantAfter(calls, lost, owner);
    }
  }

  lemma {:induction false} LastGrantAfter(calls: seq<LockCall>, lost: nat, owner: LockOwner) returns (j: nat)
    requires lost <= |calls| && Row(calls[..lost]) != Some(owner) && Row(calls) == Some(owner)
    ensures Reissued(calls, lost, owner, j)
  {
    assert calls[..|calls|] == calls;
    var before, last := calls[..|calls| - 1], |calls| - 1;
    assert before[..lost] == calls[..lost];
    if Granted(calls, last) {
      j := last;
    } else {
      j := LastGrantAfter(before, lost, owner);
      assert before[..j] == calls[..j];
      forall k | j + 1 <= k < |calls| ensures !Displaces(calls[k], owner) {
        if k < last {
          assert before[k] == calls[k];
        }
      }
    }
  }

  /** So of two granted leases the earlier one deletes the row of the later exactly when their tuples are equal. */
  lemma {:induction false} EarlierDeletesExactlyItsEqual(calls: seq<LockCall>, i: nat, j: nat)
    requires i < j < |calls| && Granted(calls, i) && Holds(calls, j)
    ensures ReleasedBy(Row(calls), calls[i].requested) != Row(calls) <==> calls[i].requested == calls[j].requested
  {
  }

  /** It can happen: two drains of one live process, under one name and at one reading of the clock. The first hands the row
      back when idle, the second acquires it, and the release at the end of the first deletes it. */
  lemma EqualTupleDeletesSuccessor(owner: LockOwner, staleAfter: nat, alive: set<nat>)
    requires staleAfter > 0 && owner.pid in alive
    ensures var acquire := AcquireCall(owner, staleAfter, alive);
            var calls := [acquire, HandoffCall(owner, true), acquire];
            Granted(calls, 0) && Holds(calls, 2) && Row(calls + [ReleaseCall(calls[0].requested)]) == None
  {
    var acquire := AcquireCall(owner, staleAfter, alive);
    var calls := [acquire, HandoffCall(owner, true), acquire];
    assert calls[..0] == [] && calls[..1] == [acquire] && calls[..2] == [acquire, HandoffCall(owner, true)];
    assert calls[..1][..0] == [] && calls[..2][..1] == calls[..1];
    assert Row(calls[..1]) == Some(owner) && Row(calls[..2]) == None;
    assert (calls + [ReleaseCall(owner)])[..3] == calls;
  }
}
