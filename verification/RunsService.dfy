/** The service layer over the store: whole histories of calls, and the terminal telemetry they attempt. */
module RunsService {
  import opened Outcomes
  import opened Text
  import opened Timestamps
  import opened RunModels
  import opened RunTransitions
  import opened RunEvents
  import opened RunStore
  import opened RunHistory

  /** The database and the records terminal telemetry was attempted for, oldest first. */
  datatype World = World(db: Db, attempts: seq<RunRecord>)

  datatype Call = Call(op: StoreOp, now: Instant)

  /** Whether the service calls `capture_terminal_telemetry` after this reply.
      `finish` asks only whether the record changed; both cancellations ask for a terminal status too. */
  predicate Captures(op: StoreOp, reply: Reply) {
    reply.Changed? && reply.transition.changed
    && (op.FinishRunOp? || ((op.PrepareCancel? || op.FinishCancel?) && Terminal(reply.transition.record.status)))
  }

  function Serve(world: World, call: Call): World {
    var (db, reply) := Apply(world.db, call.op, call.now);
    World(db, if Captures(call.op, reply) then world.attempts + [reply.transition.record] else world.attempts)
  }

  function After(calls: seq<Call>): World {
    if |calls| == 0 then World(EMPTY_DB, []) else Serve(After(calls[..|calls| - 1]), calls[|calls| - 1])
  }

  /** Every call is one that callers may make in the state it meets. */
  predicate Legal(calls: seq<Call>) {
    |calls| == 0
    || (Legal(calls[..|calls| - 1]) && Admissible(After(calls[..|calls| - 1]).db, calls[|calls| - 1].op))
  }

  function AttemptsFor(attempts: seq<RunRecord>, runId: string): seq<RunRecord> {
    if |attempts| == 0 then []
    else
      var before := AttemptsFor(attempts[..|attempts| - 1], runId);
      var last := attempts[|attempts| - 1];
      if last.runId == runId then before + [last] else before
  }

  /** No attempt before the end; at the end exactly one, with the status the run keeps. */
  predicate TelemetryExact(world: World, runId: string) {
    var attempts := AttemptsFor(world.attempts, runId);
    if runId in world.db.runs && Terminal(world.db.runs[runId].record.status)
    then |attempts| == 1 && attempts[0].status == world.db.runs[runId].record.status
    else attempts == []
  }

  class RunsService {
    const store: RunStore
    var attempts: seq<RunRecord>

    constructor (store: RunStore)
      ensures this.store == store && attempts == []
    {
      this.store := store;
      attempts := [];
    }

    predicate Connected()
      reads this
    {
      store.Connected()
    }

    ghost function State(): World
      reads this, store.database
    {
      World(store.database.Tables(), attempts)
    }

    method Finish(runId: string, status: RunStatus, summary: Option<string>, error: Option<string>,
                  failureCategory: Option<RunFailureCategory>, now: Instant) returns (reply: Reply)
      requires Connected()
      modifies this, store.database
      ensures State() == Serve(old(State()), Call(FinishRunOp(runId, status, summary, error, failureCategory), now))
      ensures reply == Apply(old(State()).db, FinishRunOp(runId, status, summary, error, failureCategory), now).1
    {
      reply := store.Finish(runId, status, summary, error, failureCategory, now);
      if reply.Changed? && reply.transition.changed {
        CaptureTerminalTelemetry(reply.transition.record);
      }
    }

    method PrepareCancellation(runId: string, now: Instant) returns (reply: Reply)
      requires Connected()
      modifies this, store.database
      ensures State() == Serve(old(State()), Call(PrepareCancel(runId), now))
      ensures reply == Apply(old(State()).db, PrepareCancel(runId), now).1
    {
      var record := store.Read(runId);
      if record.Err? {
        return Refused(record.error);
      }
      reply := store.PrepareCancellation(runId, now);
      if reply.Changed? && reply.transition.changed && Terminal(reply.transition.record.status) {
        CaptureTerminalTelemetry(reply.transition.record);
      }
    }

    method FinishCancellation(runId: string, executionId: string, now: Instant) returns (reply: Reply)
      requires Connected()
      modifies this, store.database
      ensures State() == Serve(old(State()), Call(FinishCancel(runId, executionId), now))
      ensures reply == Apply(old(State()).db, FinishCancel(runId, executionId), now).1
    {
      reply := store.FinishCancellation(runId, executionId, now);
      if reply.Changed? && reply.transition.changed && Terminal(reply.transition.record.status) {
        CaptureTerminalTelemetry(reply.transition.record);
      }
    }

    /** Delivery may fail without a trace; only the attempt is recorded. */
    method CaptureTerminalTelemetry(record: RunRecord)
      modifies this`attempts
      ensures attempts == old(attempts) + [record]
    {
      attempts := attempts + [record];
    }
  }

  // ---- Histories --------------------------------------------------------------------------------

  lemma {:induction false} ReachableStoresAreSound(calls: seq<Call>)
    requires Legal(calls)
    ensures Inv(After(calls).db)
  {
    if |calls| > 0 {
      ReachableStoresAreSound(calls[..|calls| - 1]);
      StepKeepsInv(After(calls[..|calls| - 1]).db, calls[|calls| - 1].op, calls[|calls| - 1].now);
    }
  }

  /** In every reachable store a run's log is numbered 1..n, lists in that order,
      and replays to the status of its record. */
  lemma {:induction false} LogReplaysToRecord(calls: seq<Call>, runId: string)
    requires Legal(calls) && runId in After(calls).db.runs
    ensures var db := After(calls).db;
            var log := Log(db.events, runId);
            && (forall i :: 0 <= i < |log| ==> log[i].sequence == i + 1)
            && Replay(log) == At(db.runs[runId].record.status)
            && RecordOk(db.runs[runId].record)
            && ColumnsAgree(db.runs[runId])
  {
    ReachableStoresAreSound(calls);
    var db := After(calls).db;
    RunIsSound(db, runId);
    DenseRowsAreOrdered(RowsOf(db.events, runId));
  }

  /** Between any two moments of a history every run only moves forward, and its log only grows. */
  lemma {:induction false} HistoryMovesForward(calls: seq<Call>, moment: nat)
    requires Legal(calls) && moment <= |calls|
    ensures Legal(calls[..moment])
    ensures Future(After(calls[..moment]).db, After(calls).db)
  {
    if moment == |calls| {
      assert calls[..moment] == calls;
    } else {
      var before := calls[..|calls| - 1];
      HistoryMovesForward(before, moment);
      assert before[..moment] == calls[..moment];
      ReachableStoresAreSound(before);
      StepIsFuture(After(before).db, calls[|calls| - 1].op, calls[|calls| - 1].now);
      FutureIsTransitive(After(calls[..moment]).db, After(before).db, After(calls).db);
    }
  }

  /** No STATUS message leaves a life where it was. */
  lemma AdvanceMoves(status: RunStatus, message: string)
    ensures Advance(At(status), message) != At(status)
  {
  }

  lemma {:induction false} EventReplay(db: Db, runId: string, kind: RunEventKind, message: string, harnessEvent: Option<string>, now: Instant)
    requires Dense(RowsOf(db.events, runId)) && runId in db.runs && db.runs[runId].record.runId == runId
    requires Strip(message) != ""
    ensures var after := ApplyRecordEvent(db, runId, kind, message, harnessEvent, now).0;
            && after.runs[runId].record.status == db.runs[runId].record.status
            && Replay(Log(after.events, runId))
               == if kind == StatusEvent then Advance(Replay(RowsOf(db.events, runId)), Strip(message))
                  else Replay(RowsOf(db.events, runId))
  {
    var rows := RowsOf(db.events, runId);
    DenseRowsAreOrdered(rows);
    AppendExtendsLog(db.events, runId, now, kind, Strip(message), harnessEvent, runId);
    ReplayAppend(rows, RunLogEvent(runId, |rows| + 1, now, kind, Strip(message), harnessEvent));
  }

  /** Recording a non-blank event keeps the log replaying to the record if and only if it is not a STATUS event. */
  lemma {:induction false} OnlyStatusEventsBreakReplay(calls: seq<Call>, runId: string, kind: RunEventKind, message: string,
                                    harnessEvent: Option<string>, now: Instant)
    requires Legal(calls) && runId in After(calls).db.runs && Strip(message) != ""
    ensures var after := ApplyRecordEvent(After(calls).db, runId, kind, message, harnessEvent, now).0;
            Replay(Log(after.events, runId)) == At(after.runs[runId].record.status) <==> kind != StatusEvent
  {
    ReachableStoresAreSound(calls);
    var db := After(calls).db;
    RunIsSound(db, runId);
    EventReplay(db, runId, kind, message, harnessEvent, now);
    AdvanceMoves(db.runs[runId].record.status, Strip(message));
  }

  lemma {:induction false} RunIsSound(db: Db, runId: string)
    requires Inv(db) && runId in db.runs
    ensures Dense(RowsOf(db.events, runId)) && RunOk(db, runId)
  {
  }

  // ---- Telemetry --------------------------------------------------------------------------------

  function TerminalStatus(db: Db, runId: string): Option<RunStatus> {
    if runId in db.runs && Terminal(db.runs[runId].record.status) then Some(db.runs[runId].record.status) else None
  }

  /** A reply captures telemetry exactly when its transaction took some run into a terminal status. */
  lemma CapturesMarkEndings(db: Db, op: StoreOp, now: Instant, runId: string)
    requires Admissible(db, op)
    requires forall id :: id in db.runs ==> db.runs[id].record.runId == id
    ensures var (after, reply) := Apply(db, op, now);
            if Captures(op, reply) && reply.transition.record.runId == runId
            then TerminalStatus(db, runId) == None && TerminalStatus(after, runId) == Some(reply.transition.record.status)
            else TerminalStatus(after, runId) == TerminalStatus(db, runId)
  {
    if op.FinishRunOp? || op.PrepareCancel? || op.FinishCancel? {
      EndingMarks(db, op, now, runId);
    } else {
      NothingElseEnds(db, op, now, runId);
    }
  }

  lemma EndingMarks(db: Db, op: StoreOp, now: Instant, runId: string)
    requires Admissible(db, op) && (op.FinishRunOp? || op.PrepareCancel? || op.FinishCancel?)
    requires op.runId in db.runs ==> db.runs[op.runId].record.runId == op.runId
    ensures var (after, reply) := Apply(db, op, now);
            if Captures(op, reply) && reply.transition.record.runId == runId
            then TerminalStatus(db, runId) == None && TerminalStatus(after, runId) == Some(reply.transition.record.status)
            else TerminalStatus(after, runId) == TerminalStatus(db, runId)
  {
  }

  lemma NothingElseEnds(db: Db, op: StoreOp, now: Instant, runId: string)
    requires Admissible(db, op) && !op.FinishRunOp? && !op.PrepareCancel? && !op.FinishCancel?
    requires forall id :: id in db.runs ==> db.runs[id].record.runId == id
    ensures !Captures(op, Apply(db, op, now).1) && TerminalStatus(Apply(db, op, now).0, runId) == TerminalStatus(db, runId)
  {
  }

  lemma {:induction false} AttemptsAppend(attempts: seq<RunRecord>, record: RunRecord, runId: string)
    ensures AttemptsFor(attempts + [record], runId)
            == if record.runId == runId then AttemptsFor(attempts, runId) + [record] else AttemptsFor(attempts, runId)
  {
    assert (attempts + [record])[..|attempts|] == attempts;
  }

  /** Terminal telemetry is attempted exactly once for a run that has ended, never for one that has not. */
  lemma {:induction false} TerminalTelemetryOnce(calls: seq<Call>, runId: string)
    requires Legal(calls)
    ensures TelemetryExact(After(calls), runId)
  {
    if |calls| > 0 {
      var before, call := calls[..|calls| - 1], calls[|calls| - 1];
      TerminalTelemetryOnce(before, runId);
      ReachableStoresAreSound(before);
      var world := After(before);
      RunsAreKeyed(world.db);
      CapturesMarkEndings(world.db, call.op, call.now, runId);
      var reply := Apply(world.db, call.op, call.now).1;
      if Captures(call.op, reply) {
        AttemptsAppend(world.attempts, reply.transition.record, runId);
      }
    }
  }

  lemma RunsAreKeyed(db: Db)
    requires Inv(db)
    ensures forall id :: id in db.runs ==> db.runs[id].record.runId == id
  {
    forall id | id in db.runs ensures db.runs[id].record.runId == id {
      assert RunOk(db, id);
    }
  }
}
