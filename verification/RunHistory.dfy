/** What every reachable run store keeps: the log replays to the record, terminal states absorb,
    and terminal telemetry is attempted exactly once per terminal run. */
module RunHistory {
  import opened Outcomes
  import opened Text
  import opened Timestamps
  import opened RunModels
  import opened RunTransitions
  import opened RunEvents
  import opened RunStore

  // ---- Replaying a log -----------------------------------------------------------------

  datatype Life = Absent | At(status: RunStatus) | Broken

  /** The only legal order of STATUS messages: queued, then running if at all, then one terminal status. */
  function Advance(life: Life, message: string): Life {
    if life.Absent? then
      if message == QueuedMessage(Build) || message == QueuedMessage(Ingest) || message == QueuedMessage(Garden)
      then At(Queued) else Broken
    else if life.Broken? || Terminal(life.status) then Broken
    else if message == "running" && life.status == Queued then At(Running)
    else if message == "done" then At(Done)
    else if message == "failed" then At(Failed)
    else if message == "cancelled" then At(Cancelled)
    else Broken
  }

  function Replay(log: seq<RunLogEvent>): Life {
    if |log| == 0 then Absent
    else
      var event := log[|log| - 1];
      var before := Replay(log[..|log| - 1]);
      if event.kind == StatusEvent then Advance(before, event.message) else before
  }

  // ---- The invariant ----------------------------------------------------------------------

  predicate RecordOk(record: RunRecord) {
    && (record.status == Queued ==> record.startedAt.None? && record.execution.None?)
    && (record.status == Running ==> record.startedAt.Some?)
    && (record.finishedAt.Some? <==> Terminal(record.status))
    && (record.execution.Some? ==> record.startedAt.Some?)
    && (record.cancellationRequestedAt.Some? ==> record.execution.Some?)
    && (record.failureCategory.Some? ==> record.status == Failed)
  }

  /** The columns the queries read say what the stored record says. */
  predicate ColumnsAgree(row: RunRow) {
    && row.repositoryId == row.record.repositoryId
    && row.kind == row.record.kind
    && row.status == row.record.status
    && row.title == row.record.title
    && row.createdAt == row.record.createdAt
    && row.updatedAt == row.record.updatedAt
  }

  ghost predicate RunOk(db: Db, runId: string)
    requires runId in db.runs
  {
    var row := db.runs[runId];
    && row.record.runId == runId
    && RecordOk(row.record)
    && ColumnsAgree(row)
    && Replay(RowsOf(db.events, runId)) == At(row.record.status)
  }

  ghost predicate LogsDense(events: seq<RunLogEvent>) {
    forall runId :: Dense(RowsOf(events, runId))
  }

  predicate EventsHaveRuns(db: Db) {
    forall i :: 0 <= i < |db.events| ==> db.events[i].runId in db.runs
  }

  ghost predicate Inv(db: Db) {
    && LogsDense(db.events)
    && EventsHaveRuns(db)
    && (forall runId {:trigger RunOk(db, runId)} :: runId in db.runs ==> RunOk(db, runId))
  }

  /** What callers of the store guarantee: fresh ids (they carry a random part), the checks
      `FinishRunRequest` makes, and no STATUS event through `record_event`. */
  predicate Admissible(db: Db, op: StoreOp) {
    match op
    case CreateRun(runId, _, _, _) => runId !in db.runs
    case QueueRun(runId, _, _, _) => runId !in db.runs
    case RecordEvent(_, kind, _, _) => kind != StatusEvent
    case FinishRunOp(_, status, _, _, category) => Terminal(status) && (category.Some? <==> status == Failed)
    case _ => true
  }

  lemma {:induction false} ReplayAppend(log: seq<RunLogEvent>, event: RunLogEvent)
    ensures Replay(log + [event])
            == if event.kind == StatusEvent then Advance(Replay(log), event.message) else Replay(log)
  {
    assert (log + [event])[..|log|] == log;
  }

  function Replayed(db: Db, runId: string): Life {
    Replay(RowsOf(db.events, runId))
  }

  /** The log side of a commit: numbering stays dense, other logs stay put, a note extends this one. */
  lemma {:induction false} CommittedRows(db: Db, runId: string, record: RunRecord, spec: Option<RunSpec>, now: Instant, note: Option<Note>,
                      other: string)
    requires LogsDense(db.events)
    ensures var after := Committed(db, runId, record, spec, now, note);
            && Dense(RowsOf(after.events, other))
            && (other != runId || note.None? ==> RowsOf(after.events, other) == RowsOf(db.events, other))
            && (note.Some? && note.value.kind != StatusEvent ==> Replayed(after, runId) == Replayed(db, runId))
            && (note.Some? && note.value.kind == StatusEvent ==>
                  Replayed(after, runId) == Advance(Replayed(db, runId), note.value.message))
  {
    if note.Some? {
      var events := db.events;
      AppendExtendsLog(events, runId, now, note.value.kind, note.value.message, note.value.harnessEvent, other);
      AppendExtendsLog(events, runId, now, note.value.kind, note.value.message, note.value.harnessEvent, runId);
      DenseRowsAreOrdered(RowsOf(events, other));
      DenseRowsAreOrdered(RowsOf(events, runId));
      ReplayAppend(RowsOf(events, runId), RunLogEvent(runId, |RowsOf(events, runId)| + 1, now, note.value.kind,
                                                      note.value.message, note.value.harnessEvent));
    }
  }

  /** What a write leaves behind: the record and spec can be read back and no other row moves; the columns agree with the
      record exactly when the row is new or the record keeps the creation time it was first stored with. */
  lemma WrittenRecordIsRead(runs: map<string, RunRow>, record: RunRecord, spec: Option<RunSpec>)
    ensures var after, id := Upserted(runs, record, spec), record.runId;
            && id in after && after[id].record == record && after[id].spec == spec
            && (forall other :: other != id ==> (other in after <==> other in runs) && (other in runs ==> after[other] == runs[other]))
            && (ColumnsAgree(after[id]) <==> (id in runs ==> runs[id].createdAt == record.createdAt))
  {
  }

  lemma CommittedRunIsOk(db: Db, runId: string, record: RunRecord, spec: Option<RunSpec>, now: Instant, note: Option<Note>)
    requires Inv(db) && record.runId == runId && RecordOk(record)
    requires runId in db.runs ==> record.createdAt == db.runs[runId].record.createdAt
    requires (if note.Some? && note.value.kind == StatusEvent then Advance(Replayed(db, runId), note.value.message)
              else Replayed(db, runId)) == At(record.status)
    ensures RunOk(Committed(db, runId, record, spec, now, note), runId)
  {
    CommittedRows(db, runId, record, spec, now, note, runId);
    WrittenRecordIsRead(db.runs, record, spec);
    assert runId in db.runs ==> RunOk(db, runId);
  }

  lemma OtherRunsStayOk(db: Db, runId: string, record: RunRecord, spec: Option<RunSpec>, now: Instant, note: Option<Note>, other: string)
    requires Inv(db) && record.runId == runId && other in db.runs && other != runId
    ensures RunOk(Committed(db, runId, record, spec, now, note), other)
  {
    CommittedRows(db, runId, record, spec, now, note, other);
    assert RunOk(db, other);
  }

  lemma CommitKeepsInv(db: Db, runId: string, record: RunRecord, spec: Option<RunSpec>, now: Instant, note: Option<Note>)
    requires Inv(db) && record.runId == runId && RecordOk(record)
    requires runId in db.runs ==> record.createdAt == db.runs[runId].record.createdAt
    requires runId !in db.runs ==> note.Some?
    requires (if note.Some? && note.value.kind == StatusEvent then Advance(Replayed(db, runId), note.value.message)
              else Replayed(db, runId)) == At(record.status)
    ensures Inv(Committed(db, runId, record, spec, now, note))
  {
    var after := Committed(db, runId, record, spec, now, note);
    forall other ensures Dense(RowsOf(after.events, other)) {
      CommittedRows(db, runId, record, spec, now, note, other);
    }
    forall other | other in after.runs ensures RunOk(after, other) {
      if other == runId {
        CommittedRunIsOk(db, runId, record, spec, now, note);
      } else {
        OtherRunsStayOk(db, runId, record, spec, now, note, other);
      }
    }
  }

  lemma CreateKeepsInv(db: Db, runId: string, repositoryId: string, kind: RunKind, title: Option<string>,
                       spec: Option<RunSpec>, now: Instant)
    requires Inv(db) && runId !in db.runs
    ensures Inv(ApplyCreate(db, runId, repositoryId, kind, title, spec, now).0)
  {
    RowsAreOwn(db.events, runId);
    var record := NewRecord(runId, repositoryId, kind, title, now);
    CommitKeepsInv(db, runId, record, spec, now, StatusNote(QueuedMessage(kind)));
  }

  /** Nothing refuses an id that exists: its record is overwritten under the old creation time and its log gets one more
      event, which leaves a sound store if and only if the id was new. */
  lemma {:induction false} CreateIsSoundForNewIds(db: Db, runId: string, repositoryId: string, kind: RunKind, title: Option<string>,
                                                  spec: Option<RunSpec>, now: Instant)
    requires Inv(db)
    ensures var after := ApplyCreate(db, runId, repositoryId, kind, title, spec, now).0;
            && after.runs[runId].record == NewRecord(runId, repositoryId, kind, title, now)
            && after.runs[runId].createdAt == (if runId in db.runs then db.runs[runId].createdAt else now)
            && |Log(after.events, runId)| == |Log(db.events, runId)| + 1
            && (Inv(after) <==> runId !in db.runs)
  {
    var note := QueuedMessage(kind);
    AppendExtendsLog(db.events, runId, now, StatusEvent, note, None, runId);
    DenseRowsAreOrdered(RowsOf(db.events, runId));
    if runId !in db.runs {
      CreateKeepsInv(db, runId, repositoryId, kind, title, spec, now);
    } else {
      assert RunOk(db, runId);
      CommittedRows(db, runId, NewRecord(runId, repositoryId, kind, title, now), spec, now, StatusNote(note), runId);
      SecondQueuedBreaks(db.runs[runId].record.status, kind);
      var after := ApplyCreate(db, runId, repositoryId, kind, title, spec, now).0;
      assert !RunOk(after, runId);
    }
  }

  lemma SecondQueuedBreaks(status: RunStatus, kind: RunKind)
    ensures Advance(At(status), QueuedMessage(kind)) == Broken
  {
    assert QueuedMessage(kind)[0] == 'q';
    assert "running"[0] == 'r' && "done"[0] == 'd' && "failed"[0] == 'f' && "cancelled"[0] == 'c';
  }

  lemma SettleKeepsInv(db: Db, runId: string, now: Instant, outcome: Result<Transition, RunError>, message: string)
    requires Inv(db) && runId in db.runs
    requires outcome.Ok? && outcome.value.changed ==>
               var record := outcome.value.record;
               && record.runId == runId && RecordOk(record) && record.createdAt == db.runs[runId].record.createdAt
               && Advance(At(db.runs[runId].record.status), message) == At(record.status)
    ensures Inv(Settled(db, runId, db.runs[runId].spec, now, outcome, message).0)
  {
    assert RunOk(db, runId);
    if outcome.Ok? && outcome.value.changed {
      CommitKeepsInv(db, runId, outcome.value.record, db.runs[runId].spec, now, StatusNote(message));
    }
  }

  lemma FinishKeepsInv(db: Db, runId: string, status: RunStatus, summary: Option<string>, error: Option<string>,
                       category: Option<RunFailureCategory>, now: Instant)
    requires Inv(db) && runId in db.runs && Terminal(status) && (category.Some? <==> status == Failed)
    ensures Inv(ApplyFinish(db, runId, status, summary, error, category, now).0)
  {
    assert RunOk(db, runId);
    SettleKeepsInv(db, runId, now, Ok(FinishRun(db.runs[runId].record, status, summary, error, category, now)),
                   StatusText(status));
  }

  lemma PrepareCancelKeepsInv(db: Db, runId: string, now: Instant)
    requires Inv(db) && runId in db.runs
    ensures Inv(ApplyPrepareCancel(db, runId, now).0)
  {
    assert RunOk(db, runId);
    var planned := PrepareCancellation(db.runs[runId].record, now);
    if planned.Ok? && planned.value.0.changed {
      var (plan, message) := planned.value;
      CommitKeepsInv(db, runId, plan.record, db.runs[runId].spec, now, CancellationNote(plan.record.status, message));
    }
  }

  lemma EventKeepsInv(db: Db, runId: string, kind: RunEventKind, message: string, harnessEvent: Option<string>, now: Instant)
    requires Inv(db) && runId in db.runs && kind != StatusEvent
    ensures Inv(ApplyRecordEvent(db, runId, kind, message, harnessEvent, now).0)
  {
    assert RunOk(db, runId);
    var row := db.runs[runId];
    CommitKeepsInv(db, runId, row.record.(updatedAt := now), row.spec, now, Some(Note(kind, Strip(message), harnessEvent)));
  }

  lemma MarkRunningKeepsInv(db: Db, runId: string, execution: Option<RunExecutionRef>, now: Instant)
    requires Inv(db) && runId in db.runs
    ensures Inv(ApplyMarkRunning(db, runId, execution, now).0)
  {
    assert RunOk(db, runId);
    SettleKeepsInv(db, runId, now, StartRun(db.runs[runId].record, now, execution), "running");
  }

  lemma TranscriptKeepsInv(db: Db, runId: string, transcript: string, now: Instant)
    requires Inv(db) && runId in db.runs
    ensures Inv(ApplyTranscript(db, runId, transcript, now).0)
  {
    assert RunOk(db, runId);
    var row := db.runs[runId];
    CommitKeepsInv(db, runId, AttachHarnessTranscript(row.record, transcript, now), row.spec, now, None);
  }

  lemma FinishCancelKeepsInv(db: Db, runId: string, executionId: string, now: Instant)
    requires Inv(db) && runId in db.runs
    ensures Inv(ApplyFinishCancel(db, runId, executionId, now).0)
  {
    assert RunOk(db, runId);
    SettleKeepsInv(db, runId, now, FinishCancellation(db.runs[runId].record, executionId, now), "cancelled");
  }

  /** Every transaction keeps the invariant. */
  lemma StepKeepsInv(db: Db, op: StoreOp, now: Instant)
    requires Inv(db) && Admissible(db, op)
    ensures Inv(Apply(db, op, now).0)
  {
    match op {
      case CreateRun(runId, repositoryId, kind, title) => CreateKeepsInv(db, runId, repositoryId, kind, title, None, now);
      case QueueRun(runId, repositoryId, spec, title) =>
        CreateKeepsInv(db, runId, repositoryId, spec.kind, QueuedTitle(title, spec), Some(spec), now);
      case RecordEvent(runId, kind, message, harnessEvent) =>
        if runId in db.runs { EventKeepsInv(db, runId, kind, message, harnessEvent, now); }
      case MarkRunning(runId, execution) =>
        if runId in db.runs { MarkRunningKeepsInv(db, runId, execution, now); }
      case RecordHarnessTranscript(runId, transcript) =>
        if runId in db.runs { TranscriptKeepsInv(db, runId, transcript, now); }
      case FinishRunOp(runId, status, summary, error, category) =>
        if runId in db.runs { FinishKeepsInv(db, runId, status, summary, error, category, now); }
      case PrepareCancel(runId) =>
        if runId in db.runs { PrepareCancelKeepsInv(db, runId, now); }
      case FinishCancel(runId, executionId) =>
        if runId in db.runs { FinishCancelKeepsInv(db, runId, executionId, now); }
    }
  }

  // ---- What never changes once written --------------------------------------------------------

  /** `later` is a legal future of `earlier` for the same run. */
  predicate RecordFuture(earlier: RunRecord, later: RunRecord) {
    && later.runId == earlier.runId && later.repositoryId == earlier.repositoryId && later.kind == earlier.kind
    && later.title == earlier.title && later.createdAt == earlier.createdAt
    && (earlier.status != Queued ==> later.status != Queued)
    && (earlier.startedAt.Some? ==> later.startedAt == earlier.startedAt && later.execution == earlier.execution)
    && (earlier.cancellationRequestedAt.Some? ==> later.cancellationRequestedAt == earlier.cancellationRequestedAt)
    && (Terminal(earlier.status) ==>
          later == earlier.(updatedAt := later.updatedAt, harnessTranscript := later.harnessTranscript))
  }

  predicate RunFuture(earlier: Db, later: Db, runId: string)
    requires runId in earlier.runs
  {
    && runId in later.runs
    && later.runs[runId].spec == earlier.runs[runId].spec
    && RecordFuture(earlier.runs[runId].record, later.runs[runId].record)
    && Log(earlier.events, runId) <= Log(later.events, runId)
  }

  ghost predicate Future(earlier: Db, later: Db) {
    forall runId {:trigger RunFuture(earlier, later, runId)} :: runId in earlier.runs ==> RunFuture(earlier, later, runId)
  }

  lemma CommitIsFuture(db: Db, runId: string, record: RunRecord, spec: Option<RunSpec>, now: Instant, note: Option<Note>)
    requires LogsDense(db.events) && record.runId == runId
    requires runId in db.runs ==> RecordFuture(db.runs[runId].record, record) && spec == db.runs[runId].spec
    ensures Future(db, Committed(db, runId, record, spec, now, note))
  {
    var after := Committed(db, runId, record, spec, now, note);
    forall other | other in db.runs ensures RunFuture(db, after, other) {
      assert Log(db.events, other) <= Log(after.events, other) by {
        if note.Some? {
          AppendExtendsLog(db.events, runId, now, note.value.kind, note.value.message, note.value.harnessEvent, other);
        }
      }
    }
  }

  lemma SettleIsFuture(db: Db, runId: string, now: Instant, outcome: Result<Transition, RunError>, message: string)
    requires LogsDense(db.events) && runId in db.runs && db.runs[runId].record.runId == runId
    requires outcome.Ok? && outcome.value.changed ==> RecordFuture(db.runs[runId].record, outcome.value.record)
    ensures Future(db, Settled(db, runId, db.runs[runId].spec, now, outcome, message).0)
  {
    if outcome.Ok? && outcome.value.changed {
      CommitIsFuture(db, runId, outcome.value.record, db.runs[runId].spec, now, StatusNote(message));
    }
  }

  lemma PrepareCancelIsFuture(db: Db, runId: string, now: Instant)
    requires LogsDense(db.events) && runId in db.runs && db.runs[runId].record.runId == runId
    requires RecordOk(db.runs[runId].record)
    ensures Future(db, ApplyPrepareCancel(db, runId, now).0)
  {
    var planned := PrepareCancellation(db.runs[runId].record, now);
    if planned.Ok? && planned.value.0.changed {
      var (plan, message) := planned.value;
      CommitIsFuture(db, runId, plan.record, db.runs[runId].spec, now, CancellationNote(plan.record.status, message));
    }
  }

  lemma CreateIsFuture(db: Db, runId: string, repositoryId: string, kind: RunKind, title: Option<string>,
                       spec: Option<RunSpec>, now: Instant)
    requires LogsDense(db.events) && runId !in db.runs
    ensures Future(db, ApplyCreate(db, runId, repositoryId, kind, title, spec, now).0)
  {
    CommitIsFuture(db, runId, NewRecord(runId, repositoryId, kind, title, now), spec, now, StatusNote(QueuedMessage(kind)));
  }

  lemma EventIsFuture(db: Db, runId: string, kind: RunEventKind, message: string, harnessEvent: Option<string>, now: Instant)
    requires LogsDense(db.events) && runId in db.runs && db.runs[runId].record.runId == runId
    requires RecordOk(db.runs[runId].record)
    ensures Future(db, ApplyRecordEvent(db, runId, kind, message, harnessEvent, now).0)
  {
    var record, spec := db.runs[runId].record, db.runs[runId].spec;
    CommitIsFuture(db, runId, record.(updatedAt := now), spec, now, Some(Note(kind, Strip(message), harnessEvent)));
  }

  /** A step adds to logs, never rewrites identity, execution or a request, and leaves terminal runs terminal. */
  lemma StepIsFuture(db: Db, op: StoreOp, now: Instant)
    requires Inv(db) && Admissible(db, op)
    ensures Future(db, Apply(db, op, now).0)
  {
    match op {
      case CreateRun(runId, repositoryId, kind, title) => CreateIsFuture(db, runId, repositoryId, kind, title, None, now);
      case QueueRun(runId, repositoryId, spec, title) =>
        CreateIsFuture(db, runId, repositoryId, spec.kind, QueuedTitle(title, spec), Some(spec), now);
      case _ =>
        if op.runId in db.runs {
          assert RunOk(db, op.runId);
          if op.FinishRunOp? || op.PrepareCancel? || op.FinishCancel? {
            EndingIsFuture(db, op, now);
          } else {
            WorkingIsFuture(db, op, now);
          }
        }
    }
  }

  lemma EndingIsFuture(db: Db, op: StoreOp, now: Instant)
    requires op.FinishRunOp? || op.PrepareCancel? || op.FinishCancel?
    requires LogsDense(db.events) && op.runId in db.runs && db.runs[op.runId].record.runId == op.runId
    requires RecordOk(db.runs[op.runId].record) && Admissible(db, op)
    ensures Future(db, Apply(db, op, now).0)
  {
    var record := db.runs[op.runId].record;
    match op {
      case FinishRunOp(runId, status, summary, error, category) =>
        SettleIsFuture(db, runId, now, Ok(FinishRun(record, status, summary, error, category, now)), StatusText(status));
      case PrepareCancel(runId) => PrepareCancelIsFuture(db, runId, now);
      case FinishCancel(runId, executionId) =>
        SettleIsFuture(db, runId, now, FinishCancellation(record, executionId, now), "cancelled");
    }
  }

  lemma WorkingIsFuture(db: Db, op: StoreOp, now: Instant)
    requires op.RecordEvent? || op.MarkRunning? || op.RecordHarnessTranscript?
    requires LogsDense(db.events) && op.runId in db.runs && db.runs[op.runId].record.runId == op.runId
    requires RecordOk(db.runs[op.runId].record)
    ensures Future(db, Apply(db, op, now).0)
  {
    var record, spec := db.runs[op.runId].record, db.runs[op.runId].spec;
    match op {
      case RecordEvent(runId, kind, message, harnessEvent) =>
        EventIsFuture(db, runId, kind, message, harnessEvent, now);
      case MarkRunning(runId, execution) => SettleIsFuture(db, runId, now, StartRun(record, now, execution), "running");
      case RecordHarnessTranscript(runId, transcript) =>
        CommitIsFuture(db, runId, AttachHarnessTranscript(record, transcript, now), spec, now, None);
    }
  }

  lemma FutureIsTransitive(a: Db, b: Db, c: Db)
    requires Future(a, b) && Future(b, c)
    ensures Future(a, c)
  {
    forall runId | runId in a.runs ensures RunFuture(a, c, runId) {
      assert RunFuture(a, b, runId) && RunFuture(b, c, runId);
    }
  }
}
