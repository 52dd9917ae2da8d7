/** What each call of the run store answers and leaves behind, in every reachable store and in the fields of the record
    it meets: which record, which event, and whether terminal telemetry is attempted. */
module RunAnswers {
  import opened Outcomes
  import opened Text
  import opened Timestamps
  import opened RunModels
  import opened RunTransitions
  import opened RunEvents
  import opened RunStore
  import opened RunHistory
  import opened RunsService
  import opened RunQueue

  /** The row of one run was written with agreeing columns, and no other row or the lock has changed. */
  ghost predicate RowWritten(before: Db, after: Db, record: RunRecord, spec: Option<RunSpec>) {
    && record.runId in after.runs && after.runs[record.runId].record == record && after.runs[record.runId].spec == spec
    && after.runs[record.runId].status == record.status && after.runs[record.runId].createdAt == record.createdAt
    && after.workerLock == before.workerLock
    && (forall other :: other != record.runId ==> (other in after.runs <==> other in before.runs))
    && (forall other :: other != record.runId && other in before.runs ==> after.runs[other] == before.runs[other])
  }

  /** The log of one run is longer by one event with the next number, and no other log has changed. */
  ghost predicate EventWritten(before: Db, after: Db, runId: string, now: Instant, kind: RunEventKind, message: string, harnessEvent: Option<string>)
  {
    && Log(after.events, runId) ==
       Log(before.events, runId) + [RunLogEvent(runId, |Log(before.events, runId)| + 1, now, kind, message, harnessEvent)]
    && forall other :: other != runId ==> Log(after.events, other) == Log(before.events, other)
  }

  lemma {:induction false} CommitWrites(db: Db, record: RunRecord, spec: Option<RunSpec>, now: Instant, note: Option<Note>)
    requires Inv(db) && (record.runId in db.runs ==> db.runs[record.runId].record.createdAt == record.createdAt)
    ensures var after := Committed(db, record.runId, record, spec, now, note);
            && RowWritten(db, after, record, spec)
            && (note.None? ==> after.events == db.events)
            && (note.Some? ==> EventWritten(db, after, record.runId, now, note.value.kind, note.value.message, note.value.harnessEvent))
  {
    WrittenRecordIsRead(db.runs, record, spec);
    assert record.runId in db.runs ==> RunOk(db, record.runId);
    if note.Some? {
      forall other ensures
        var after := Committed(db, record.runId, record, spec, now, note);
        Log(after.events, other) == if other == record.runId
          then Log(db.events, other) + [RunLogEvent(other, |Log(db.events, other)| + 1, now, note.value.kind, note.value.message, note.value.harnessEvent)]
          else Log(db.events, other)
      {
        AppendExtendsLog(db.events, record.runId, now, note.value.kind, note.value.message, note.value.harnessEvent, other);
      }
    }
  }

  /** The commit of each call, in a world as it is: what `CommitWrites` is about. */
  lemma QueueCommits(world: World, runId: string, repositoryId: string, spec: RunSpec, title: Option<string>, now: Instant)
    ensures var record := NewRecord(runId, repositoryId, spec.kind, if title.Some? && title.value != "" then title else spec.title, now);
            Serve(world, Call(QueueRun(runId, repositoryId, spec, title), now)) ==
            World(Committed(world.db, runId, record, Some(spec), now, Some(Note(StatusEvent, QueuedMessage(spec.kind), None))), world.attempts)
  {
  }

  lemma EventCommits(world: World, runId: string, kind: RunEventKind, message: string, harnessEvent: Option<string>, now: Instant)
    requires runId in world.db.runs && Strip(message) != ""
    ensures var op := RecordEvent(runId, kind, message, harnessEvent);
            && Serve(world, Call(op, now)) ==
               World(Committed(world.db, runId, world.db.runs[runId].record.(updatedAt := now), world.db.runs[runId].spec, now,
                               Some(Note(kind, Strip(message), harnessEvent))), world.attempts)
            && Apply(world.db, op, now).1 ==
               Logged(RunLogEvent(runId, NextSequence(world.db.events, runId), now, kind, Strip(message), harnessEvent))
  {
  }

  lemma StartCommits(world: World, runId: string, execution: Option<RunExecutionRef>, now: Instant)
    requires runId in world.db.runs && world.db.runs[runId].record.status == Queued
    ensures var op := MarkRunning(runId, execution);
            var started := world.db.runs[runId].record.(status := Running, updatedAt := now, startedAt := Some(now), execution := execution);
            && Serve(world, Call(op, now)) ==
               World(Committed(world.db, runId, started, world.db.runs[runId].spec, now, Some(Note(StatusEvent, "running", None))), world.attempts)
            && Apply(world.db, op, now).1 == Changed(Transition(started, true, None))
  {
  }

  function EndWord(status: RunStatus): string {
    if status == Done then "done" else if status == Failed then "failed" else "cancelled"
  }

  lemma FinishCommits(world: World, runId: string, status: RunStatus, summary: Option<string>, error: Option<string>,
                      category: Option<RunFailureCategory>, now: Instant)
    requires runId in world.db.runs && Terminal(status) && !Terminal(world.db.runs[runId].record.status)
    ensures var op := FinishRunOp(runId, status, summary, error, category);
            var ended := world.db.runs[runId].record.(status := status, summary := summary, error := error, failureCategory := category,
                                                      updatedAt := now, finishedAt := Some(now));
            && Serve(world, Call(op, now)) ==
               World(Committed(world.db, runId, ended, world.db.runs[runId].spec, now, Some(Note(StatusEvent, EndWord(status), None))),
                     world.attempts + [ended])
            && Apply(world.db, op, now).1 == Changed(Transition(ended, true, None))
  {
  }

  lemma CancelCommits(world: World, runId: string, now: Instant)
    requires runId in world.db.runs && world.db.runs[runId].record.status == Queued
    ensures var ended := world.db.runs[runId].record.(status := Cancelled, updatedAt := now, finishedAt := Some(now));
            && Serve(world, Call(PrepareCancel(runId), now)) ==
               World(Committed(world.db, runId, ended, world.db.runs[runId].spec, now, Some(Note(StatusEvent, "cancelled", None))),
                     world.attempts + [ended])
            && Apply(world.db, PrepareCancel(runId), now).1 == Changed(Transition(ended, true, None))
  {
  }

  lemma RequestCommits(world: World, runId: string, now: Instant)
    requires runId in world.db.runs
    requires var record := world.db.runs[runId].record;
             record.status == Running && record.execution.Some? && record.cancellationRequestedAt.None?
    ensures var asked := world.db.runs[runId].record.(cancellationRequestedAt := Some(now), updatedAt := now);
            && Serve(world, Call(PrepareCancel(runId), now)) ==
               World(Committed(world.db, runId, asked, world.db.runs[runId].spec, now, Some(Note(MessageEvent, "cancellation requested", None))),
                     world.attempts)
            && Apply(world.db, PrepareCancel(runId), now).1 == Changed(Transition(asked, true, asked.execution))
  {
  }

  lemma ConfirmCommits(world: World, runId: string, executionId: string, now: Instant)
    requires runId in world.db.runs
    requires var record := world.db.runs[runId].record;
             record.status == Running && record.execution.Some? && record.execution.value.executionId == executionId
             && record.cancellationRequestedAt.Some?
    ensures var op := FinishCancel(runId, executionId);
            var ended := world.db.runs[runId].record.(status := Cancelled, updatedAt := now, finishedAt := Some(now));
            && Serve(world, Call(op, now)) ==
               World(Committed(world.db, runId, ended, world.db.runs[runId].spec, now, Some(Note(StatusEvent, "cancelled", None))),
                     world.attempts + [ended])
            && Apply(world.db, op, now).1 == Changed(Transition(ended, true, None))
  {
  }

  /** A run as a reachable store has it. */
  lemma {:induction false} ReachedRun(calls: seq<Call>, runId: string)
    requires Legal(calls) && runId in After(calls).db.runs
    ensures var db := After(calls).db;
            Inv(db) && RecordOk(db.runs[runId].record) && db.runs[runId].record.runId == runId && ColumnsAgree(db.runs[runId])
  {
    ReachableStoresAreSound(calls);
    assert RunOk(After(calls).db, runId);
  }

  /** A call about a run the store does not have is refused and changes nothing. */
  lemma {:induction false} MissingRunIsRefused(calls: seq<Call>, op: StoreOp, now: Instant)
    requires !op.CreateRun? && !op.QueueRun? && op.runId !in After(calls).db.runs
    ensures Serve(After(calls), Call(op, now)) == After(calls)
    ensures Apply(After(calls).db, op, now).1 == Refused(NotFound(op.runId))
  {
  }

  /** The first record of a run: queued, untouched since its creation, and nothing else said of it. */
  predicate NewlyQueued(record: RunRecord, runId: string, repositoryId: string, kind: RunKind, title: Option<string>, now: Instant) {
    && record.runId == runId && record.repositoryId == repositoryId && record.kind == kind && record.status == Queued
    && record.title == title && record.createdAt == now && record.updatedAt == now
    && record.summary.None? && record.error.None? && record.failureCategory.None? && record.startedAt.None? && record.finishedAt.None?
    && record.harnessTranscript.None? && record.execution.None? && record.cancellationRequestedAt.None?
  }

  predicate QueuedNotice(message: string, kind: RunKind) {
    message == match kind case Build => "queued build" case Ingest => "queued ingest" case Garden => "queued garden"
  }

  lemma NoticeOfKind(kind: RunKind)
    ensures QueuedNotice(QueuedMessage(kind), kind)
  {
  }

  /** Queueing a run with a new id: a newly queued record under the given title, or else the title of its spec; it waits; and its
      log is one STATUS event. */
  lemma {:induction false} QueueAnswers(calls: seq<Call>, runId: string, repositoryId: string, spec: RunSpec, title: Option<string>, now: Instant)
    requires Legal(calls) && runId !in After(calls).db.runs
    ensures var before := After(calls);
            var after := Serve(before, Call(QueueRun(runId, repositoryId, spec, title), now));
            && runId in after.db.runs
            && var record := after.db.runs[runId].record;
               && NewlyQueued(record, runId, repositoryId, spec.kind, if title.Some? && title.value != "" then title else spec.title, now)
               && RowWritten(before.db, after.db, record, Some(spec)) && after.attempts == before.attempts
               && runId in Waiting(after.db.runs)
               && |Log(after.db.events, runId)| == |Log(before.db.events, runId)| + 1
               && exists message :: QueuedNotice(message, spec.kind)
                                    && EventWritten(before.db, after.db, runId, now, StatusEvent, message, None)
  {
    ReachableStoresAreSound(calls);
    var record := NewRecord(runId, repositoryId, spec.kind, if title.Some? && title.value != "" then title else spec.title, now);
    NoticeOfKind(spec.kind);
    QueueCommits(After(calls), runId, repositoryId, spec, title, now);
    CommitWrites(After(calls).db, record, Some(spec), now, Some(Note(StatusEvent, QueuedMessage(spec.kind), None)));
  }

  /** Creating a run: the same without a spec, so it never waits. */
  lemma {:induction false} CreateAnswers(calls: seq<Call>, runId: string, repositoryId: string, kind: RunKind, title: Option<string>, now: Instant)
    requires Legal(calls) && runId !in After(calls).db.runs
    ensures var before := After(calls);
            var after := Serve(before, Call(CreateRun(runId, repositoryId, kind, title), now));
            && runId in after.db.runs
            && var record := after.db.runs[runId].record;
               && NewlyQueued(record, runId, repositoryId, kind, title, now)
               && RowWritten(before.db, after.db, record, None) && after.attempts == before.attempts
               && runId !in Waiting(after.db.runs)
               && exists message :: QueuedNotice(message, kind) && EventWritten(before.db, after.db, runId, now, StatusEvent, message, None)
  {
    ReachableStoresAreSound(calls);
    NoticeOfKind(kind);
    CommitWrites(After(calls).db, NewRecord(runId, repositoryId, kind, title, now), None, now, Some(Note(StatusEvent, QueuedMessage(kind), None)));
  }

  /** Recording a blank event is refused and changes nothing. */
  lemma {:induction false} BlankEventIsRefused(calls: seq<Call>, runId: string, kind: RunEventKind, message: string, harnessEvent: Option<string>,
                                               now: Instant)
    requires runId in After(calls).db.runs && Strip(message) == ""
    ensures var op := RecordEvent(runId, kind, message, harnessEvent);
            Serve(After(calls), Call(op, now)) == After(calls) && Apply(After(calls).db, op, now).1 == Refused(EmptyMessage)
  {
  }

  /** Recording any other logs it stripped, with the given kind and provider event, and answers that; of the record only the time of its
      last update changes. */
  lemma {:induction false} EventAnswers(calls: seq<Call>, runId: string, kind: RunEventKind, message: string, harnessEvent: Option<string>, now: Instant)
    requires Legal(calls) && runId in After(calls).db.runs && Strip(message) != ""
    ensures var before := After(calls);
            var op := RecordEvent(runId, kind, message, harnessEvent);
            var after := Serve(before, Call(op, now));
            && RowWritten(before.db, after.db, before.db.runs[runId].record.(updatedAt := now), before.db.runs[runId].spec)
            && EventWritten(before.db, after.db, runId, now, kind, Strip(message), harnessEvent)
            && after.attempts == before.attempts
  {
    ReachedRun(calls, runId);
    EventCommits(After(calls), runId, kind, message, harnessEvent, now);
    var row := After(calls).db.runs[runId];
    CommitWrites(After(calls).db, row.record.(updatedAt := now), row.spec, now, Some(Note(kind, Strip(message), harnessEvent)));
  }

  lemma {:induction false} EventIsAnswered(calls: seq<Call>, runId: string, kind: RunEventKind, message: string, harnessEvent: Option<string>, now: Instant)
    requires Legal(calls) && runId in After(calls).db.runs && Strip(message) != ""
    ensures Apply(After(calls).db, RecordEvent(runId, kind, message, harnessEvent), now).1 ==
            Logged(RunLogEvent(runId, |Log(After(calls).db.events, runId)| + 1, now, kind, Strip(message), harnessEvent))
  {
    ReachedRun(calls, runId);
    EventCommits(After(calls), runId, kind, message, harnessEvent, now);
    DenseRowsAreOrdered(RowsOf(After(calls).db.events, runId));
  }

  /** Marking a queued run running: it runs from now on under the given executor, with one STATUS event "running". */
  lemma {:induction false} QueuedRunIsStarted(calls: seq<Call>, runId: string, execution: Option<RunExecutionRef>, now: Instant)
    requires Legal(calls) && runId in After(calls).db.runs && After(calls).db.runs[runId].record.status == Queued
    ensures var before := After(calls);
            var op := MarkRunning(runId, execution);
            var after, reply := Serve(before, Call(op, now)), Apply(before.db, op, now).1;
            var started := before.db.runs[runId].record.(status := Running, updatedAt := now, startedAt := Some(now), execution := execution);
            && RowWritten(before.db, after.db, started, before.db.runs[runId].spec)
            && EventWritten(before.db, after.db, runId, now, StatusEvent, "running", None)
            && after.attempts == before.attempts && reply == Changed(Transition(started, true, None))
  {
    ReachedRun(calls, runId);
    StartCommits(After(calls), runId, execution, now);
    var row := After(calls).db.runs[runId];
    CommitWrites(After(calls).db, row.record.(status := Running, updatedAt := now, startedAt := Some(now), execution := execution), row.spec, now,
                 Some(Note(StatusEvent, "running", None)));
  }

  /** Any other run is left alone: a running one is refused to another executor, an ended one to everybody. */
  lemma {:induction false} OthersAreNotStarted(calls: seq<Call>, runId: string, execution: Option<RunExecutionRef>, now: Instant)
    requires Legal(calls) && runId in After(calls).db.runs && After(calls).db.runs[runId].record.status != Queued
    ensures var before := After(calls);
            var record := before.db.runs[runId].record;
            && Serve(before, Call(MarkRunning(runId, execution), now)) == before
            && Apply(before.db, MarkRunning(runId, execution), now).1 ==
               if record.status != Running then Refused(CannotStart(record.status))
               else if execution.Some? && record.execution != execution then Refused(AnotherExecutor(runId))
               else Changed(Transition(record, false, None))
  {
    ReachedRun(calls, runId);
  }

  /** Recording a harness transcript changes the record in that and in the time of its last update, and logs nothing. */
  lemma {:induction false} TranscriptAnswers(calls: seq<Call>, runId: string, transcript: string, now: Instant)
    requires Legal(calls) && runId in After(calls).db.runs
    ensures var before := After(calls);
            var after := Serve(before, Call(RecordHarnessTranscript(runId, transcript), now));
            var record, spec := before.db.runs[runId].record, before.db.runs[runId].spec;
            && RowWritten(before.db, after.db, record.(harnessTranscript := Some(transcript), updatedAt := now), spec)
            && after.db.events == before.db.events && after.attempts == before.attempts
  {
    ReachedRun(calls, runId);
    var row := After(calls).db.runs[runId];
    CommitWrites(After(calls).db, row.record.(harnessTranscript := Some(transcript), updatedAt := now), row.spec, now, None);
  }

  /** Finishing a run: one that has ended is left alone; any other takes the given status, summary, error and failure category and the
      time it finished, with one STATUS event that names the status, and one attempt at telemetry. */
  lemma {:induction false} FinishAnswers(calls: seq<Call>, runId: string, status: RunStatus, summary: Option<string>, error: Option<string>,
                                         category: Option<RunFailureCategory>, now: Instant)
    requires Legal(calls) && runId in After(calls).db.runs && Terminal(status)
    ensures var before := After(calls);
            var op := FinishRunOp(runId, status, summary, error, category);
            var after, reply := Serve(before, Call(op, now)), Apply(before.db, op, now).1;
            var record, spec := before.db.runs[runId].record, before.db.runs[runId].spec;
            if Terminal(record.status) then after == before && reply == Changed(Transition(record, false, None))
            else
              var ended := record.(status := status, summary := summary, error := error, failureCategory := category,
                                   updatedAt := now, finishedAt := Some(now));
              && RowWritten(before.db, after.db, ended, spec) && runId !in Waiting(after.db.runs)
              && EventWritten(before.db, after.db, runId, now, StatusEvent, EndWord(status), None)
              && after.attempts == before.attempts + [ended] && reply == Changed(Transition(ended, true, None))
  {
    ReachedRun(calls, runId);
    var row := After(calls).db.runs[runId];
    var ended := row.record.(status := status, summary := summary, error := error, failureCategory := category,
                             updatedAt := now, finishedAt := Some(now));
    if !Terminal(row.record.status) {
      FinishCommits(After(calls), runId, status, summary, error, category, now);
      CommitWrites(After(calls).db, ended, row.spec, now, Some(Note(StatusEvent, EndWord(status), None)));
    }
  }

  /** Cancelling a queued run ends it at once: it waits no more, its log gains one STATUS event "cancelled", and one attempt at
      telemetry is made; nobody has to be terminated. */
  lemma {:induction false} QueuedRunIsCancelled(calls: seq<Call>, runId: string, now: Instant)
    requires Legal(calls) && runId in After(calls).db.runs && After(calls).db.runs[runId].record.status == Queued
    ensures var before := After(calls);
            var after, reply := Serve(before, Call(PrepareCancel(runId), now)), Apply(before.db, PrepareCancel(runId), now).1;
            var ended := before.db.runs[runId].record.(status := Cancelled, updatedAt := now, finishedAt := Some(now));
            && RowWritten(before.db, after.db, ended, before.db.runs[runId].spec)
            && runId !in Waiting(after.db.runs)
            && EventWritten(before.db, after.db, runId, now, StatusEvent, "cancelled", None)
            && after.attempts == before.attempts + [ended] && reply == Changed(Transition(ended, true, None))
  {
    ReachedRun(calls, runId);
    CancelCommits(After(calls), runId, now);
    var row := After(calls).db.runs[runId];
    CommitWrites(After(calls).db, row.record.(status := Cancelled, updatedAt := now, finishedAt := Some(now)), row.spec, now,
                 Some(Note(StatusEvent, "cancelled", None)));
  }

  /** Cancelling a run that runs under a known executor: the first time the request is recorded with one MESSAGE event, later nothing
      changes; either way the answer names the executor to terminate. Without an executor it is refused. */
  lemma {:induction false} RunningRunIsAsked(calls: seq<Call>, runId: string, now: Instant)
    requires Legal(calls) && runId in After(calls).db.runs && After(calls).db.runs[runId].record.status == Running
    ensures var before := After(calls);
            var after, reply := Serve(before, Call(PrepareCancel(runId), now)), Apply(before.db, PrepareCancel(runId), now).1;
            var record, spec := before.db.runs[runId].record, before.db.runs[runId].spec;
            && after.attempts == before.attempts
            && (record.execution.None? ==> after == before && reply == Refused(NoExecutionIdentity(runId)))
            && (record.execution.Some? && record.cancellationRequestedAt.Some? ==>
                  after == before && reply == Changed(Transition(record, false, record.execution)))
            && (record.execution.Some? && record.cancellationRequestedAt.None? ==>
                  var asked := record.(cancellationRequestedAt := Some(now), updatedAt := now);
                  && RowWritten(before.db, after.db, asked, spec)
                  && EventWritten(before.db, after.db, runId, now, MessageEvent, "cancellation requested", None)
                  && reply == Changed(Transition(asked, true, record.execution)))
  {
    ReachedRun(calls, runId);
    var row := After(calls).db.runs[runId];
    if row.record.execution.Some? && row.record.cancellationRequestedAt.None? {
      RequestCommits(After(calls), runId, now);
      CommitWrites(After(calls).db, row.record.(cancellationRequestedAt := Some(now), updatedAt := now), row.spec, now,
                   Some(Note(MessageEvent, "cancellation requested", None)));
    }
  }

  /** Cancelling a run that has ended changes nothing. */
  lemma {:induction false} EndedRunStaysEnded(calls: seq<Call>, runId: string, executionId: string, now: Instant)
    requires runId in After(calls).db.runs && Terminal(After(calls).db.runs[runId].record.status)
    ensures var before := After(calls);
            var record := before.db.runs[runId].record;
            && Serve(before, Call(PrepareCancel(runId), now)) == before
            && Apply(before.db, PrepareCancel(runId), now).1 == Changed(Transition(record, false, None))
            && Serve(before, Call(FinishCancel(runId, executionId), now)) == before
            && Apply(before.db, FinishCancel(runId, executionId), now).1 == Changed(Transition(record, false, None))
  {
  }

  /** The run was asked to stop and still runs under the executor that is named. */
  predicate AwaitsConfirmation(record: RunRecord, executionId: string) {
    record.status == Running && record.execution.Some? && record.execution.value.executionId == executionId && record.cancellationRequestedAt.Some?
  }

  /** Finishing such a cancellation ends the run cancelled, with one STATUS event "cancelled" and one attempt at telemetry. */
  lemma {:induction false} ConfirmedCancellationEnds(calls: seq<Call>, runId: string, executionId: string, now: Instant)
    requires Legal(calls) && runId in After(calls).db.runs && AwaitsConfirmation(After(calls).db.runs[runId].record, executionId)
    ensures var before := After(calls);
            var op := FinishCancel(runId, executionId);
            var after, reply := Serve(before, Call(op, now)), Apply(before.db, op, now).1;
            var ended := before.db.runs[runId].record.(status := Cancelled, updatedAt := now, finishedAt := Some(now));
            && RowWritten(before.db, after.db, ended, before.db.runs[runId].spec)
            && EventWritten(before.db, after.db, runId, now, StatusEvent, "cancelled", None)
            && after.attempts == before.attempts + [ended] && reply == Changed(Transition(ended, true, None))
  {
    ReachedRun(calls, runId);
    ConfirmCommits(After(calls), runId, executionId, now);
    var row := After(calls).db.runs[runId];
    CommitWrites(After(calls).db, row.record.(status := Cancelled, updatedAt := now, finishedAt := Some(now)), row.spec, now,
                 Some(Note(StatusEvent, "cancelled", None)));
  }

  /** Any other cancellation of a run that has not ended is refused for the first reason that holds, and changes nothing. */
  lemma {:induction false} OtherCancellationsAreRefused(calls: seq<Call>, runId: string, executionId: string, now: Instant)
    requires Legal(calls) && runId in After(calls).db.runs && !Terminal(After(calls).db.runs[runId].record.status)
    requires !AwaitsConfirmation(After(calls).db.runs[runId].record, executionId)
    ensures var before := After(calls);
            var op := FinishCancel(runId, executionId);
            var record := before.db.runs[runId].record;
            && Serve(before, Call(op, now)) == before
            && Apply(before.db, op, now).1 ==
               Refused(if record.status == Queued then CannotFinishCancellation(Queued)
                       else if record.execution.None? || record.execution.value.executionId != executionId then ExecutionChanged(runId)
                       else NoCancellationRequest(runId))
  {
    ReachedRun(calls, runId);
  }
}
