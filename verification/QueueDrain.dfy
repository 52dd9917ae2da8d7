/** Any number of enqueuers and workers interleaving on one database: who is left to run what is queued.
    No crashes and no stale takeovers; every transaction of the store and every decision of the drain loop is a step. */
module QueueDrain {
  import opened Outcomes
  import opened Timestamps
  import opened RunModels
  import opened RunStore
  import opened RunHistory
  import opened RunQueue
  import opened WorkerLocks

  /** Where a worker process is. `Leaving` is the `finally` that releases the lease;
      `done` counts the runs this drain has processed. */
  datatype Worker =
    | Starting(maxRuns: Option<nat>)
    | Looping(owner: LockOwner, maxRuns: Option<nat>, done: nat)
    | Handing(owner: LockOwner, maxRuns: Option<nat>, done: nat)
    | Executing(owner: LockOwner, maxRuns: Option<nat>, done: nat, runId: string)
    | Leaving(owner: LockOwner)
    | Stopped

  /** `enqueuers` have queued a run and not yet spawned the worker for it. Workers are named by pid. */
  datatype Sys = Sys(db: Db, enqueuers: set<nat>, workers: map<nat, Worker>)

  const START := Sys(EMPTY_DB, {}, map[])

  datatype Step =
    | Enqueue(enqueuer: nat, op: StoreOp, now: Instant)
    | Spawn(enqueuer: nat, pid: nat, maxRuns: Option<nat>)
    | SpawnFails(enqueuer: nat)
    | TryAcquire(pid: nat, name: string, at: int)
    | Look(pid: nat)
    | HandOff(pid: nat)
    | Settle(pid: nat)
    | Leave(pid: nat)
    | Raise(pid: nat)
    | Other(op: StoreOp, now: Instant)

  /** The run a worker that looks now would execute. */
  ghost function Next(s: Sys): string
    requires Waiting(s.db.runs) != {}
  {
    SomeoneIsNext(s.db.runs);
    var runId :| IsNext(s.db.runs, runId); runId
  }

  lemma SomeoneIsNext(runs: map<string, RunRow>)
    requires Waiting(runs) != {}
    ensures exists runId :: IsNext(runs, runId)
  {
    SomeoneIsFirst(runs, Waiting(runs));
    var first :| first in Waiting(runs) && forall other :: other in Waiting(runs) && other != first ==>
      AheadOf(runs[first].createdAt, first, runs[other].createdAt, other);
    assert IsNext(runs, first);
  }

  predicate Ended(db: Db, runId: string) {
    runId in db.runs && Terminal(db.runs[runId].record.status)
  }

  /** The one way `run_queued` comes back with a run that has not ended: its executor is gone,
      its cancellation was requested, and nobody confirmed it in time. */
  predicate CancelPending(db: Db, runId: string) {
    runId in db.runs && db.runs[runId].record.cancellationRequestedAt.Some? && db.runs[runId].record.execution.Some?
  }

  ghost predicate Enabled(s: Sys, step: Step) {
    match step
    case Enqueue(_, op, _) => op.QueueRun? && Admissible(s.db, op)
    case Spawn(enqueuer, pid, _) => enqueuer in s.enqueuers && (pid in s.workers ==> s.workers[pid].Stopped?)
    case SpawnFails(enqueuer) => enqueuer in s.enqueuers
    case TryAcquire(pid, _, _) => pid in s.workers && s.workers[pid].Starting?
    case Look(pid) => pid in s.workers && s.workers[pid].Looping?
    case HandOff(pid) => pid in s.workers && s.workers[pid].Handing?
    case Settle(pid) =>
      pid in s.workers && s.workers[pid].Executing?
      && (Ended(s.db, s.workers[pid].runId) || CancelPending(s.db, s.workers[pid].runId))
    case Leave(pid) => pid in s.workers && s.workers[pid].Leaving?
    case Raise(pid) => pid in s.workers && (s.workers[pid].Starting? || Draining(s.workers[pid]))
    case Other(op, _) => !op.QueueRun? && Admissible(s.db, op)
  }

  /** `while max_runs is None or len(processed) < max_runs` */
  predicate MayContinue(maxRuns: Option<nat>, done: nat) {
    maxRuns.None? || done < maxRuns.value
  }

  ghost function Do(s: Sys, step: Step): Sys
    requires Enabled(s, step)
  {
    match step
    case Enqueue(enqueuer, op, now) => s.(db := Apply(s.db, op, now).0, enqueuers := s.enqueuers + {enqueuer})
    case Spawn(enqueuer, pid, maxRuns) =>
      s.(enqueuers := s.enqueuers - {enqueuer}, workers := s.workers[pid := Starting(maxRuns)])
    case SpawnFails(enqueuer) => s.(enqueuers := s.enqueuers - {enqueuer})
    case TryAcquire(pid, name, at) =>
      var owner := LockOwner(name, pid, at);
      if s.db.workerLock.Some? then s.(workers := s.workers[pid := Stopped])
      else s.(db := s.db.(workerLock := Some(owner)), workers := s.workers[pid := Looping(owner, s.workers[pid].maxRuns, 0)])
    case Look(pid) =>
      var w := s.workers[pid];
      var next := if !MayContinue(w.maxRuns, w.done) then Leaving(w.owner)
                  else if Waiting(s.db.runs) == {} then Handing(w.owner, w.maxRuns, w.done)
                  else Executing(w.owner, w.maxRuns, w.done, Next(s));
      s.(workers := s.workers[pid := next])
    case HandOff(pid) =>
      var w := s.workers[pid];
      var (row, outcome) := Handoff(s.db, w.owner);
      var next := if outcome == WorkAvailable then Looping(w.owner, w.maxRuns, w.done) else Leaving(w.owner);
      s.(db := s.db.(workerLock := row), workers := s.workers[pid := next])
    case Settle(pid) =>
      var w := s.workers[pid];
      var next := if Ended(s.db, w.runId) then Looping(w.owner, w.maxRuns, w.done + 1) else Leaving(w.owner);
      s.(workers := s.workers[pid := next])
    case Leave(pid) =>
      s.(db := s.db.(workerLock := ReleasedBy(s.db.workerLock, s.workers[pid].owner)), workers := s.workers[pid := Stopped])
    case Raise(pid) =>
      s.(workers := s.workers[pid := if s.workers[pid].Starting? then Stopped else Leaving(s.workers[pid].owner)])
    case Other(op, now) => s.(db := Apply(s.db, op, now).0)
  }

  ghost predicate Legal(steps: seq<Step>)
    decreases |steps|, 0
  {
    |steps| == 0 || (Legal(steps[..|steps| - 1]) && Enabled(Reached(steps[..|steps| - 1]), steps[|steps| - 1]))
  }

  ghost function Reached(steps: seq<Step>): Sys
    requires Legal(steps)
    decreases |steps|, 1
  {
    if |steps| == 0 then START else Do(Reached(steps[..|steps| - 1]), steps[|steps| - 1])
  }

  // ---- Invariants -------------------------------------------------------------------------------

  /** Between a granted acquire and the end of the drain. */
  predicate Draining(w: Worker) {
    w.Looping? || w.Handing? || w.Executing?
  }

  predicate HasOwner(w: Worker) {
    Draining(w) || w.Leaving?
  }

  /** A draining worker holds the row, under its own pid. */
  predicate DrainersHold(s: Sys) {
    forall pid {:trigger s.workers[pid]} :: pid in s.workers ==>
      && (HasOwner(s.workers[pid]) ==> s.workers[pid].owner.pid == pid)
      && (Draining(s.workers[pid]) ==> s.db.workerLock == Some(s.workers[pid].owner))
  }

  /** The row always belongs to a worker that has not stopped. */
  predicate RowIsHeld(s: Sys) {
    s.db.workerLock.Some? ==>
      var pid := s.db.workerLock.value.pid;
      pid in s.workers && HasOwner(s.workers[pid]) && s.workers[pid].owner == s.db.workerLock.value
  }

  ghost predicate SysInv(s: Sys) {
    Inv(s.db) && DrainersHold(s) && RowIsHeld(s)
  }

  /** Somebody who will still try to acquire: an enqueuer before its spawn, or a worker before its acquire. */
  predicate Coming(s: Sys) {
    s.enqueuers != {} || exists pid :: pid in s.workers && s.workers[pid].Starting?
  }

  /** Runs wait, nobody holds the lock, and nobody is coming. */
  predicate Stranded(s: Sys) {
    Waiting(s.db.runs) != {} && s.db.workerLock.None? && !Coming(s)
  }

  /** The drain loop gives up the lock without the in-transaction emptiness check: `max_runs` is reached, the executed run is not
      terminal, or an exception leaves it; or one ends the worker before it has the lock. */
  ghost predicate GivesUp(s: Sys, step: Step) {
    && Enabled(s, step)
    && (step.Raise? || ((step.Look? || step.Settle?) && Do(s, step).workers[step.pid].Leaving?))
  }

  lemma LockOnlyKeepsInv(db: Db, row: Option<LockOwner>)
    requires Inv(db)
    ensures Inv(db.(workerLock := row))
  {
    var after := db.(workerLock := row);
    forall runId | runId in after.runs ensures RunOk(after, runId) {
      assert RunOk(db, runId);
    }
  }

  lemma ApplyKeepsLock(db: Db, op: StoreOp, now: Instant)
    ensures Apply(db, op, now).0.workerLock == db.workerLock
  {
  }

  lemma StepKeepsSysInv(s: Sys, step: Step)
    requires SysInv(s) && Enabled(s, step)
    ensures SysInv(Do(s, step))
  {
    match step {
      case Enqueue(_, op, now) => StepKeepsInv(s.db, op, now); ApplyKeepsLock(s.db, op, now);
      case Other(op, now) => StepKeepsInv(s.db, op, now); ApplyKeepsLock(s.db, op, now);
      case TryAcquire(pid, name, at) => LockOnlyKeepsInv(s.db, Some(LockOwner(name, pid, at)));
      case HandOff(pid) => LockOnlyKeepsInv(s.db, Handoff(s.db, s.workers[pid].owner).0);
      case Leave(pid) => LockOnlyKeepsInv(s.db, ReleasedBy(s.db.workerLock, s.workers[pid].owner));
      case _ =>
    }
  }

  /** At most one worker drains at a time, in every reachable state. */
  lemma {:induction false} OneDrainer(steps: seq<Step>, p: nat, q: nat)
    requires Legal(steps)
    requires var s := Reached(steps); p in s.workers && q in s.workers && Draining(s.workers[p]) && Draining(s.workers[q])
    ensures p == q
  {
    ReachedIsSound(steps);
  }

  lemma {:induction false} ReachedIsSound(steps: seq<Step>)
    requires Legal(steps)
    ensures SysInv(Reached(steps))
  {
    if |steps| > 0 {
      ReachedIsSound(steps[..|steps| - 1]);
      StepKeepsSysInv(Reached(steps[..|steps| - 1]), steps[|steps| - 1]);
    }
  }

  // ---- Who is stranded, and when ------------------------------------------------------------------

  /** No transaction but queueing puts a run into the queue. */
  lemma OthersOnlyShrink(db: Db, op: StoreOp, now: Instant)
    requires Inv(db) && Admissible(db, op) && !op.QueueRun?
    ensures Waiting(Apply(db, op, now).0.runs) <= Waiting(db.runs)
  {
    OpMovesOwnRun(db, op, now);
  }

  /** The ways to leave waiting runs to nobody: a lease released while its row still stands, with runs waiting and nobody coming;
      and the only expected worker that never gets spawned, or ends before it tries for the lock. */
  predicate Abandons(s: Sys, step: Step) {
    && Waiting(s.db.runs) != {}
    && (forall pid :: pid in s.workers && s.workers[pid].Starting? ==> step == Raise(pid))
    && match step
       case Leave(pid) => pid in s.workers && s.workers[pid].Leaving? && s.enqueuers == {}
                          && s.db.workerLock == Some(s.workers[pid].owner)
       case SpawnFails(enqueuer) => s.enqueuers == {enqueuer} && s.db.workerLock.None?
       case Raise(pid) => pid in s.workers && s.workers[pid].Starting? && s.enqueuers == {} && s.db.workerLock.None?
       case _ => false
  }

  lemma ComingSurvives(s: Sys, after: Sys, pid: nat)
    requires Coming(s) && after.enqueuers == s.enqueuers
    requires forall other :: other in s.workers && other != pid ==> other in after.workers && after.workers[other] == s.workers[other]
    requires pid in s.workers ==> !s.workers[pid].Starting?
    ensures Coming(after)
  {
    if s.enqueuers == {} {
      var other :| other in s.workers && s.workers[other].Starting?;
      assert after.workers[other].Starting?;
    }
  }

  lemma LastOneRaises(s: Sys, pid: nat)
    requires Enabled(s, Raise(pid)) && s.workers[pid].Starting?
    ensures Coming(Do(s, Raise(pid))) <==> s.enqueuers != {} || exists other :: other in s.workers && other != pid && s.workers[other].Starting?
  {
    var after := Do(s, Raise(pid));
    forall other | other in s.workers && other != pid ensures after.workers[other] == s.workers[other] {
    }
  }

  /** A step strands runs if and only if it abandons them. */
  lemma StrandsExactlyWhenAbandoned(s: Sys, step: Step)
    requires SysInv(s) && Enabled(s, step) && !Stranded(s)
    ensures Stranded(Do(s, step)) <==> Abandons(s, step)
  {
    var after := Do(s, step);
    match step {
      case Enqueue(_, op, now) =>
      case Other(op, now) =>
        OthersOnlyShrink(s.db, op, now);
        ApplyKeepsLock(s.db, op, now);
      case Spawn(enqueuer, pid, maxRuns) =>
        assert after.workers[pid].Starting?;
      case SpawnFails(enqueuer) =>
      case TryAcquire(pid, name, at) =>
      case Look(pid) =>
        if Coming(s) { ComingSurvives(s, after, pid); }
      case HandOff(pid) =>
        if Coming(s) { ComingSurvives(s, after, pid); }
      case Settle(pid) =>
        if Coming(s) { ComingSurvives(s, after, pid); }
      case Leave(pid) =>
        if Coming(s) { ComingSurvives(s, after, pid); }
      case Raise(pid) =>
        if s.workers[pid].Starting? {
          LastOneRaises(s, pid);
        } else if Coming(s) {
          ComingSurvives(s, after, pid);
        }
    }
  }

  /** No worker gave up and no spawn failed anywhere in the history. */
  ghost predicate Clean(steps: seq<Step>)
    requires Legal(steps)
  {
    |steps| == 0
    || (Clean(steps[..|steps| - 1])
        && !steps[|steps| - 1].SpawnFails? && !GivesUp(Reached(steps[..|steps| - 1]), steps[|steps| - 1]))
  }

  /** Workers that leave after a clean drain hold no row. */
  predicate LeaversHoldNothing(s: Sys) {
    forall pid {:trigger s.workers[pid]} :: pid in s.workers && s.workers[pid].Leaving? ==>
      s.db.workerLock != Some(s.workers[pid].owner)
  }

  lemma CleanStepKeepsLeavers(s: Sys, step: Step)
    requires SysInv(s) && Enabled(s, step) && LeaversHoldNothing(s) && !step.SpawnFails? && !GivesUp(s, step)
    ensures LeaversHoldNothing(Do(s, step))
  {
    if step.Enqueue? || step.Other? {
      ApplyKeepsLock(s.db, step.op, step.now);
    }
  }

  /** Unless a worker gave up early or a spawn failed, no reachable state strands a queued run:
      while runs wait, somebody holds the lock or is still coming for it. */
  lemma {:induction false} NoRunIsStranded(steps: seq<Step>)
    requires Legal(steps) && Clean(steps)
    ensures !Stranded(Reached(steps)) && LeaversHoldNothing(Reached(steps))
  {
    if |steps| > 0 {
      var before, step := steps[..|steps| - 1], steps[|steps| - 1];
      NoRunIsStranded(before);
      ReachedIsSound(before);
      StrandsExactlyWhenAbandoned(Reached(before), step);
      CleanStepKeepsLeavers(Reached(before), step);
    }
  }

  /** The premise is needed: whenever a worker stops over an unconfirmed cancellation while another run waits
      and nobody is coming, two steps strand that run. */
  lemma UnconfirmedCancellationStrands(s: Sys, pid: nat)
    requires SysInv(s) && pid in s.workers && s.workers[pid].Executing?
    requires CancelPending(s.db, s.workers[pid].runId) && !Ended(s.db, s.workers[pid].runId)
    requires Waiting(s.db.runs) != {} && !Coming(s)
    ensures GivesUp(s, Settle(pid)) && Enabled(Do(s, Settle(pid)), Leave(pid))
    ensures Stranded(Do(Do(s, Settle(pid)), Leave(pid)))
  {
    var settled := Do(s, Settle(pid));
    StepKeepsSysInv(s, Settle(pid));
    assert Abandons(settled, Leave(pid));
    StrandsExactlyWhenAbandoned(settled, Leave(pid));
  }

  // ---- Histories that strand --------------------------------------------------------------------

  lemma {:induction false} Extended(steps: seq<Step>, step: Step)
    requires Legal(steps) && Enabled(Reached(steps), step)
    ensures Legal(steps + [step]) && Reached(steps + [step]) == Do(Reached(steps), step)
  {
    assert (steps + [step])[..|steps|] == steps;
  }

  /** The names a concrete history uses. */
  datatype Cast = Cast(first: string, second: string, repositoryId: string, spec: RunSpec, now: Instant, execution: RunExecutionRef,
                       name: string, pid: nat, other: nat, at: int, limit: Option<nat>)

  predicate ValidCast(c: Cast) {
    c.first != c.second && c.pid != c.other && (c.limit.Some? ==> c.limit.value > 0)
  }

  function Queueing(c: Cast, runId: string): StoreOp {
    QueueRun(runId, c.repositoryId, c.spec, None)
  }

  function OwnerOf(c: Cast): LockOwner {
    LockOwner(c.name, c.pid, c.at)
  }

  /** One run, queued and being executed by the one worker. */
  predicate FirstExecutes(s: Sys, c: Cast) {
    && s.enqueuers == {} && s.workers == map[c.pid := Executing(OwnerOf(c), c.limit, 0, c.first)]
    && s.db.workerLock == Some(OwnerOf(c)) && s.db.runs.Keys == {c.first}
  }

  lemma FirstStarts(c: Cast) returns (steps: seq<Step>)
    requires ValidCast(c)
    ensures Legal(steps) && FirstExecutes(Reached(steps), c)
    ensures Reached(steps).db.runs[c.first].record.status == Queued
  {
    steps := [];
    Extended(steps, Enqueue(0, Queueing(c, c.first), c.now));
    steps := steps + [Enqueue(0, Queueing(c, c.first), c.now)];
    var row := Reached(steps).db.runs[c.first];
    assert Reached(steps).db.runs == map[c.first := row] && Waiting(map[c.first := row]) == {c.first};
    Extended(steps, Spawn(0, c.pid, c.limit));
    steps := steps + [Spawn(0, c.pid, c.limit)];
    Extended(steps, TryAcquire(c.pid, c.name, c.at));
    steps := steps + [TryAcquire(c.pid, c.name, c.at)];
    Extended(steps, Look(c.pid));
    steps := steps + [Look(c.pid)];
  }

  lemma CancellationIsRequested(c: Cast, before: seq<Step>) returns (steps: seq<Step>)
    requires Legal(before) && FirstExecutes(Reached(before), c) && Reached(before).db.runs[c.first].record.status == Queued
    ensures Legal(steps) && FirstExecutes(Reached(steps), c)
    ensures CancelPending(Reached(steps).db, c.first) && !Ended(Reached(steps).db, c.first)
  {
    steps := before;
    var mark, request := MarkRunning(c.first, Some(c.execution)), PrepareCancel(c.first);
    ReachedIsSound(steps);
    RequestIsPending(Reached(steps).db, c.first, c.execution, c.now);
    Extended(steps, Other(mark, c.now));
    steps := steps + [Other(mark, c.now)];
    Extended(steps, Other(request, c.now));
    steps := steps + [Other(request, c.now)];
  }

  lemma RequestIsPending(db: Db, runId: string, execution: RunExecutionRef, now: Instant)
    requires Inv(db) && runId in db.runs && db.runs[runId].record.status == Queued
    ensures var running := Apply(db, MarkRunning(runId, Some(execution)), now).0;
            var after := Apply(running, PrepareCancel(runId), now).0;
            && CancelPending(after, runId) && !Ended(after, runId)
            && running.workerLock == after.workerLock == db.workerLock && running.runs.Keys == after.runs.Keys == db.runs.Keys
  {
    assert RunOk(db, runId);
  }

  lemma SecondIsQueued(c: Cast, before: seq<Step>) returns (steps: seq<Step>)
    requires ValidCast(c) && Legal(before) && FirstExecutes(Reached(before), c)
    ensures Legal(steps)
    ensures var s := Reached(steps);
            && s.enqueuers == {} && s.workers == map[c.pid := Executing(OwnerOf(c), c.limit, 0, c.first), c.other := Stopped]
            && s.db.workerLock == Some(OwnerOf(c)) && s.db.runs.Keys == {c.first, c.second} && c.second in Waiting(s.db.runs)
            && s.db.runs[c.first] == Reached(before).db.runs[c.first]
  {
    steps := before;
    Extended(steps, Enqueue(0, Queueing(c, c.second), c.now));
    steps := steps + [Enqueue(0, Queueing(c, c.second), c.now)];
    Extended(steps, Spawn(0, c.other, None));
    steps := steps + [Spawn(0, c.other, None)];
    Extended(steps, TryAcquire(c.other, c.name, c.at));
    steps := steps + [TryAcquire(c.other, c.name, c.at)];
  }

  /** Stranding is reached: a worker executes a run whose cancellation is requested and never confirmed, a second run is queued
      and its worker refused, and the first worker stops. */
  lemma StrandedByCancellation(c: Cast) returns (steps: seq<Step>)
    requires ValidCast(c)
    ensures Legal(steps) && Stranded(Reached(steps)) && c.second in Waiting(Reached(steps).db.runs)
  {
    steps := FirstStarts(c);
    steps := CancellationIsRequested(c, steps);
    steps := SecondIsQueued(c, steps);
    var s := Reached(steps);
    ReachedIsSound(steps);
    UnconfirmedCancellationStrands(s, c.pid);
    Extended(steps, Settle(c.pid));
    steps := steps + [Settle(c.pid)];
    Extended(steps, Leave(c.pid));
    steps := steps + [Leave(c.pid)];
  }

  /** So it is by a run limit of one: the worker stops after the first run, while a second is waiting. */
  lemma StrandedByRunLimit(c: Cast) returns (steps: seq<Step>)
    requires ValidCast(c) && c.limit == Some(1)
    ensures Legal(steps) && Stranded(Reached(steps)) && c.second in Waiting(Reached(steps).db.runs)
  {
    steps := FirstStarts(c);
    steps := SecondIsQueued(c, steps);
    steps := FirstEnds(c, steps);
    var s := Reached(steps);
    Extended(steps, Look(c.pid));
    steps := steps + [Look(c.pid)];
    assert GivesUp(s, Look(c.pid));
    Extended(steps, Leave(c.pid));
    steps := steps + [Leave(c.pid)];
  }

  lemma FinishingEnds(db: Db, runId: string, other: string, now: Instant)
    requires Inv(db) && runId in db.runs && other in Waiting(db.runs) && other != runId
    ensures var after := Apply(db, FinishRunOp(runId, Done, None, None, None), now).0;
            Ended(after, runId) && other in Waiting(after.runs) && after.workerLock == db.workerLock
  {
    assert RunOk(db, runId);
  }

  lemma FirstEnds(c: Cast, before: seq<Step>) returns (steps: seq<Step>)
    requires ValidCast(c) && Legal(before)
    requires var s := Reached(before);
             && s.enqueuers == {} && s.workers == map[c.pid := Executing(OwnerOf(c), c.limit, 0, c.first), c.other := Stopped]
             && s.db.workerLock == Some(OwnerOf(c)) && c.first in s.db.runs && c.second in Waiting(s.db.runs)
    ensures Legal(steps)
    ensures var s := Reached(steps);
            && s.enqueuers == {} && s.workers == map[c.pid := Looping(OwnerOf(c), c.limit, 1), c.other := Stopped]
            && s.db.workerLock == Some(OwnerOf(c)) && c.second in Waiting(s.db.runs)
  {
    steps := before;
    var finish := Other(FinishRunOp(c.first, Done, None, None, None), c.now);
    ReachedIsSound(steps);
    FinishingEnds(Reached(steps).db, c.first, c.second, c.now);
    Extended(steps, finish);
    steps := steps + [finish];
    EndedSettles(Reached(steps), c);
    Extended(steps, Settle(c.pid));
    steps := steps + [Settle(c.pid)];
  }

  lemma EndedSettles(s: Sys, c: Cast)
    requires c.pid in s.workers && s.workers[c.pid] == Executing(OwnerOf(c), c.limit, 0, c.first) && Ended(s.db, c.first)
    ensures Enabled(s, Settle(c.pid))
    ensures Do(s, Settle(c.pid)) == s.(workers := s.workers[c.pid := Looping(OwnerOf(c), c.limit, 1)])
  {
  }

  /** So is it by a spawn that fails: two steps from the start. */
  lemma StrandedByFailedSpawn(c: Cast)
    ensures var steps := [Enqueue(0, Queueing(c, c.first), c.now), SpawnFails(0)]; Legal(steps) && Stranded(Reached(steps))
  {
    Extended([], Enqueue(0, Queueing(c, c.first), c.now));
    var steps := [] + [Enqueue(0, Queueing(c, c.first), c.now)];
    var row := Reached(steps).db.runs[c.first];
    assert Reached(steps).db.runs == map[c.first := row] && c.first in Waiting(map[c.first := row]);
    Extended(steps, SpawnFails(0));
    assert steps + [SpawnFails(0)] == [Enqueue(0, Queueing(c, c.first), c.now), SpawnFails(0)];
  }

  /** And by an exception: the worker spawned for the run ends before it tries for the lock. */
  lemma StrandedByException(c: Cast)
    ensures var steps := [Enqueue(0, Queueing(c, c.first), c.now), Spawn(0, c.pid, c.limit), Raise(c.pid)];
            Legal(steps) && Stranded(Reached(steps))
  {
    Extended([], Enqueue(0, Queueing(c, c.first), c.now));
    var queued := [] + [Enqueue(0, Queueing(c, c.first), c.now)];
    var row := Reached(queued).db.runs[c.first];
    assert Reached(queued).db.runs == map[c.first := row] && c.first in Waiting(map[c.first := row]);
    Extended(queued, Spawn(0, c.pid, c.limit));
    var spawned := queued + [Spawn(0, c.pid, c.limit)];
    Extended(spawned, Raise(c.pid));
    assert spawned + [Raise(c.pid)] == [Enqueue(0, Queueing(c, c.first), c.now), Spawn(0, c.pid, c.limit), Raise(c.pid)];
  }
}
