/** The run tables of the local database and the transactions of `RunStore`.
    Every transaction is one atomic step; `Apply` says what each one leaves behind. */
module RunStore {
  import opened Outcomes
  import opened Text
  import opened Timestamps
  import opened RunModels
  import opened RunTransitions
  import opened RunEvents

  /** The columns of `runs`: what queries filter and order by, beside the stored record and spec.
      The two instants are held as their ISO text, which is what queries compare. */
  datatype RunRow = RunRow(repositoryId: string, kind: RunKind, status: RunStatus, title: Option<string>,
                           createdAt: Instant, updatedAt: Instant, record: RunRecord, spec: Option<RunSpec>)

  datatype Db = Db(runs: map<string, RunRow>, events: seq<RunLogEvent>, workerLock: Option<LockOwner>)

  const EMPTY_DB := Db(map[], [], None)

  datatype StoreOp =
    | CreateRun(newId: string, repositoryId: string, kind: RunKind, title: Option<string>)
    | QueueRun(newId: string, repositoryId: string, spec: RunSpec, title: Option<string>)
    | RecordEvent(runId: string, eventKind: RunEventKind, message: string, harnessEvent: Option<string>)
    | MarkRunning(runId: string, execution: Option<RunExecutionRef>)
    | RecordHarnessTranscript(runId: string, transcript: string)
    | FinishRunOp(runId: string, status: RunStatus, summary: Option<string>, error: Option<string>,
                  failureCategory: Option<RunFailureCategory>)
    | PrepareCancel(runId: string)
    | FinishCancel(runId: string, executionId: string)

  datatype Reply = Changed(transition: Transition) | Logged(event: RunLogEvent) | Refused(error: RunError)

  /** An event to append in the same transaction as the record write. */
  datatype Note = Note(kind: RunEventKind, message: string, harnessEvent: Option<string>)

  /** INSERT ... ON CONFLICT(run_id) DO UPDATE: an update keeps the created_at column. */
  function Upserted(runs: map<string, RunRow>, record: RunRecord, spec: Option<RunSpec>): map<string, RunRow> {
    var createdAt := if record.runId in runs then runs[record.runId].createdAt else record.createdAt;
    runs[record.runId := RunRow(record.repositoryId, record.kind, record.status, record.title,
                                createdAt, record.updatedAt, record, spec)]
  }

  function Committed(db: Db, runId: string, record: RunRecord, spec: Option<RunSpec>, now: Instant, note: Option<Note>): Db {
    Db(Upserted(db.runs, record, spec),
       if note.None? then db.events
       else Appended(db.events, runId, now, note.value.kind, note.value.message, note.value.harnessEvent),
       db.workerLock)
  }

  function StatusNote(message: string): Option<Note> {
    Some(Note(StatusEvent, message, None))
  }

  /** A cancellation that ends the run is a status change; a mere request is a message. */
  function CancellationNote(status: RunStatus, message: Option<string>): Option<Note> {
    if message.None? then None
    else Some(Note(if status == Cancelled then StatusEvent else MessageEvent, message.value, None))
  }

  /** The title a queued run gets: Python's `title or spec.title`. */
  function QueuedTitle(title: Option<string>, spec: RunSpec): Option<string> {
    if title.Some? && title.value != "" then title else spec.title
  }

  /** What a status transaction leaves behind: nothing on a conflict or a no-op, else record and event together. */
  function Settled(db: Db, runId: string, spec: Option<RunSpec>, now: Instant, outcome: Result<Transition, RunError>,
                   message: string): (Db, Reply)
  {
    match outcome
    case Err(e) => (db, Refused(e))
    case Ok(t) => (if t.changed then Committed(db, runId, t.record, spec, now, StatusNote(message)) else db, Changed(t))
  }

  function ApplyCreate(db: Db, runId: string, repositoryId: string, kind: RunKind, title: Option<string>,
                       spec: Option<RunSpec>, now: Instant): (Db, Reply)
  {
    var record := NewRecord(runId, repositoryId, kind, title, now);
    (Committed(db, runId, record, spec, now, StatusNote(QueuedMessage(kind))), Changed(Transition(record, true, None)))
  }

  function ApplyRecordEvent(db: Db, runId: string, kind: RunEventKind, message: string, harnessEvent: Option<string>,
                            now: Instant): (Db, Reply)
  {
    if runId !in db.runs then (db, Refused(NotFound(runId)))
    else if Strip(message) == "" then (db, Refused(EmptyMessage))
    else
      var row := db.runs[runId];
      var event := RunLogEvent(runId, NextSequence(db.events, runId), now, kind, Strip(message), harnessEvent);
      (Committed(db, runId, row.record.(updatedAt := now), row.spec, now, Some(Note(kind, Strip(message), harnessEvent))),
       Logged(event))
  }

  function ApplyMarkRunning(db: Db, runId: string, execution: Option<RunExecutionRef>, now: Instant): (Db, Reply) {
    if runId !in db.runs then (db, Refused(NotFound(runId)))
    else Settled(db, runId, db.runs[runId].spec, now, StartRun(db.runs[runId].record, now, execution), "running")
  }

  function ApplyTranscript(db: Db, runId: string, transcript: string, now: Instant): (Db, Reply) {
    if runId !in db.runs then (db, Refused(NotFound(runId)))
    else
      var updated := AttachHarnessTranscript(db.runs[runId].record, transcript, now);
      (Committed(db, runId, updated, db.runs[runId].spec, now, None), Changed(Transition(updated, true, None)))
  }

  function ApplyFinish(db: Db, runId: string, status: RunStatus, summary: Option<string>, error: Option<string>,
                       category: Option<RunFailureCategory>, now: Instant): (Db, Reply)
  {
    if runId !in db.runs then (db, Refused(NotFound(runId)))
    else Settled(db, runId, db.runs[runId].spec, now,
                 Ok(FinishRun(db.runs[runId].record, status, summary, error, category, now)), StatusText(status))
  }

  function ApplyPrepareCancel(db: Db, runId: string, now: Instant): (Db, Reply) {
    if runId !in db.runs then (db, Refused(NotFound(runId)))
    else
      match PrepareCancellation(db.runs[runId].record, now)
      case Err(e) => (db, Refused(e))
      case Ok((plan, message)) =>
        var note := CancellationNote(plan.record.status, message);
        (if plan.changed then Committed(db, runId, plan.record, db.runs[runId].spec, now, note) else db, Changed(plan))
  }

  function ApplyFinishCancel(db: Db, runId: string, executionId: string, now: Instant): (Db, Reply) {
    if runId !in db.runs then (db, Refused(NotFound(runId)))
    else Settled(db, runId, db.runs[runId].spec, now,
                 FinishCancellation(db.runs[runId].record, executionId, now), "cancelled")
  }

  function Apply(db: Db, op: StoreOp, now: Instant): (Db, Reply) {
    match op
    case CreateRun(runId, repositoryId, kind, title) => ApplyCreate(db, runId, repositoryId, kind, title, None, now)
    case QueueRun(runId, repositoryId, spec, title) =>
      ApplyCreate(db, runId, repositoryId, spec.kind, QueuedTitle(title, spec), Some(spec), now)
    case RecordEvent(runId, kind, message, harnessEvent) => ApplyRecordEvent(db, runId, kind, message, harnessEvent, now)
    case MarkRunning(runId, execution) => ApplyMarkRunning(db, runId, execution, now)
    case RecordHarnessTranscript(runId, transcript) => ApplyTranscript(db, runId, transcript, now)
    case FinishRunOp(runId, status, summary, error, category) => ApplyFinish(db, runId, status, summary, error, category, now)
    case PrepareCancel(runId) => ApplyPrepareCancel(db, runId, now)
    case FinishCancel(runId, executionId) => ApplyFinishCancel(db, runId, executionId, now)
  }

  class LocalDatabase {
    var runs: map<string, RunRow>
    var events: seq<RunLogEvent>
    var workerLock: Option<LockOwner>

    constructor ()
      ensures Tables() == EMPTY_DB
    {
      runs, events, workerLock := map[], [], None;
    }

    ghost function Tables(): Db
      reads this
    {
      Db(runs, events, workerLock)
    }
  }

  class RunEventStore {
    const database: LocalDatabase

    constructor (database: LocalDatabase)
      ensures this.database == database
    {
      this.database := database;
    }

    /** INSERT at the next sequence number; an empty message never becomes an event. */
    method AppendOnConnection(runId: string, timestamp: Instant, kind: RunEventKind, message: string,
                              harnessEvent: Option<string>) returns (result: Result<RunLogEvent, RunError>)
      modifies database`events
      ensures Strip(message) == "" ==> result == Err(EmptyMessage) && database.events == old(database.events)
      ensures Strip(message) != "" ==>
                && database.events == Appended(old(database.events), runId, timestamp, kind, Strip(message), harnessEvent)
                && result == Ok(database.events[|database.events| - 1])
    {
      if Strip(message) == "" {
        return Err(EmptyMessage);
      }
      var event := RunLogEvent(runId, NextSequence(database.events, runId), timestamp, kind, Strip(message), harnessEvent);
      database.events := database.events + [event];
      result := Ok(event);
    }

    method List(runId: string) returns (rows: seq<RunLogEvent>)
      ensures rows == Log(database.events, runId)
      ensures Ascending(rows) && multiset(rows) == multiset(RowsOf(database.events, runId))
      ensures Dense(RowsOf(database.events, runId)) ==>
                rows == RowsOf(database.events, runId) && forall i :: 0 <= i < |rows| ==> rows[i].sequence == i + 1
    {
      OrderedFacts(RowsOf(database.events, runId));
      if Dense(RowsOf(database.events, runId)) {
        DenseRowsAreOrdered(RowsOf(database.events, runId));
      }
      rows := OrderBySequence(RowsOf(database.events, runId));
    }
  }

  /** Messages the store itself writes are never blank, so appending them cannot fail. */
  lemma StatusTextIsStripped(status: RunStatus)
    ensures Strip(StatusText(status)) == StatusText(status) != ""
  {
    StripKeeps(StatusText(status));
  }

  lemma QueuedMessageIsStripped(kind: RunKind)
    ensures Strip(QueuedMessage(kind)) == QueuedMessage(kind) != ""
  {
    StripKeeps(QueuedMessage(kind));
  }

  lemma CancellationNoteIsStripped(record: RunRecord, now: Instant)
    ensures var planned := PrepareCancellation(record, now);
            planned.Ok? && planned.value.1.Some? ==>
            var message := planned.value.1.value; Strip(message) == message != ""
  {
    StripKeeps("cancelled");
    StripKeeps("cancellation requested");
  }

  class RunStore {
    const database: LocalDatabase
    const eventStore: RunEventStore

    constructor (database: LocalDatabase)
      ensures this.database == database && eventStore.database == database && fresh(eventStore)
    {
      this.database := database;
      eventStore := new RunEventStore(database);
    }

    predicate Connected() {
      eventStore.database == database
    }

    method Create(runId: string, repositoryId: string, kind: RunKind, title: Option<string>, now: Instant)
      returns (record: RunRecord)
      requires Connected()
      modifies database
      ensures (database.Tables(), Changed(Transition(record, true, None)))
              == ApplyCreate(old(database.Tables()), runId, repositoryId, kind, title, None, now)
    {
      QueuedMessageIsStripped(kind);
      record := NewRecord(runId, repositoryId, kind, title, now);
      WriteRecordOnConnection(record, None);
      AppendNote(runId, now, Note(StatusEvent, QueuedMessage(kind), None));
    }

    method Queue(runId: string, repositoryId: string, spec: RunSpec, title: Option<string>, now: Instant)
      returns (record: RunRecord)
      requires Connected()
      modifies database
      ensures (database.Tables(), Changed(Transition(record, true, None)))
              == ApplyCreate(old(database.Tables()), runId, repositoryId, spec.kind, QueuedTitle(title, spec), Some(spec), now)
    {
      QueuedMessageIsStripped(spec.kind);
      record := NewRecord(runId, repositoryId, spec.kind, QueuedTitle(title, spec), now);
      WriteRecordOnConnection(record, Some(spec));
      AppendNote(runId, now, Note(StatusEvent, QueuedMessage(spec.kind), None));
    }

    method Read(runId: string) returns (result: Result<RunRecord, RunError>)
      ensures result == if runId in database.runs then Ok(database.runs[runId].record) else Err(NotFound(runId))
    {
      result := if runId in database.runs then Ok(database.runs[runId].record) else Err(NotFound(runId));
    }

    method RecordEvent(runId: string, kind: RunEventKind, message: string, harnessEvent: Option<string>, now: Instant)
      returns (reply: Reply)
      requires Connected()
      modifies database
      ensures (database.Tables(), reply)
              == ApplyRecordEvent(old(database.Tables()), runId, kind, message, harnessEvent, now)
    {
      if runId !in database.runs {
        return Refused(NotFound(runId));
      }
      var row := database.runs[runId];
      var appended := eventStore.AppendOnConnection(runId, now, kind, message, harnessEvent);
      if appended.Err? {
        return Refused(appended.error);
      }
      WriteRecordOnConnection(row.record.(updatedAt := appended.value.timestamp), row.spec);
      reply := Logged(appended.value);
    }

    method MarkRunning(runId: string, execution: Option<RunExecutionRef>, now: Instant) returns (reply: Reply)
      requires Connected()
      modifies database
      ensures (database.Tables(), reply) == ApplyMarkRunning(old(database.Tables()), runId, execution, now)
    {
      if runId !in database.runs {
        return Refused(NotFound(runId));
      }
      var row := database.runs[runId];
      var running := StartRun(row.record, now, execution);
      if running.Err? {
        return Refused(running.error);
      }
      if running.value.changed {
        StatusTextIsStripped(Running);
        WriteRecordOnConnection(running.value.record, row.spec);
        AppendNote(runId, now, Note(StatusEvent, StatusText(Running), None));
      }
      reply := Changed(running.value);
    }

    method RecordHarnessTranscript(runId: string, transcript: string, now: Instant) returns (reply: Reply)
      modifies database
      ensures (database.Tables(), reply)
              == ApplyTranscript(old(database.Tables()), runId, transcript, now)
    {
      if runId !in database.runs {
        return Refused(NotFound(runId));
      }
      var row := database.runs[runId];
      var updated := AttachHarnessTranscript(row.record, transcript, now);
      WriteRecordOnConnection(updated, row.spec);
      reply := Changed(Transition(updated, true, None));
    }

    method Finish(runId: string, status: RunStatus, summary: Option<string>, error: Option<string>,
                  failureCategory: Option<RunFailureCategory>, now: Instant) returns (reply: Reply)
      requires Connected()
      modifies database
      ensures (database.Tables(), reply)
              == ApplyFinish(old(database.Tables()), runId, status, summary, error, failureCategory, now)
    {
      if runId !in database.runs {
        return Refused(NotFound(runId));
      }
      var row := database.runs[runId];
      var result := FinishRun(row.record, status, summary, error, failureCategory, now);
      if result.changed {
        StatusTextIsStripped(status);
        WriteRecordOnConnection(result.record, row.spec);
        AppendNote(runId, now, Note(StatusEvent, StatusText(status), None));
      }
      reply := Changed(result);
    }

    method PrepareCancellation(runId: string, now: Instant) returns (reply: Reply)
      requires Connected()
      modifies database
      ensures (database.Tables(), reply) == ApplyPrepareCancel(old(database.Tables()), runId, now)
    {
      if runId !in database.runs {
        return Refused(NotFound(runId));
      }
      var row := database.runs[runId];
      var planned := RunTransitions.PrepareCancellation(row.record, now);
      if planned.Err? {
        return Refused(planned.error);
      }
      var (plan, message) := planned.value;
      if plan.changed {
        CancellationNoteIsStripped(row.record, now);
        WriteRecordOnConnection(plan.record, row.spec);
        var note := CancellationNote(plan.record.status, message);
        if note.Some? {
          AppendNote(runId, now, note.value);
        }
      }
      reply := Changed(plan);
    }

    method FinishCancellation(runId: string, executionId: string, now: Instant) returns (reply: Reply)
      requires Connected()
      modifies database
      ensures (database.Tables(), reply) == ApplyFinishCancel(old(database.Tables()), runId, executionId, now)
    {
      if runId !in database.runs {
        return Refused(NotFound(runId));
      }
      var row := database.runs[runId];
      var result := RunTransitions.FinishCancellation(row.record, executionId, now);
      if result.Err? {
        return Refused(result.error);
      }
      if result.value.changed {
        StatusTextIsStripped(Cancelled);
        WriteRecordOnConnection(result.value.record, row.spec);
        AppendNote(runId, now, Note(StatusEvent, StatusText(Cancelled), None));
      }
      reply := Changed(result.value);
    }

    /** Append one of the store's own messages. */
    method AppendNote(runId: string, now: Instant, note: Note)
      requires Connected() && Strip(note.message) == note.message != ""
      modifies database`events
      ensures database.events
              == Appended(old(database.events), runId, now, note.kind, note.message, note.harnessEvent)
    {
      var event := eventStore.AppendOnConnection(runId, now, note.kind, note.message, note.harnessEvent);
    }

    method WriteRecordOnConnection(record: RunRecord, spec: Option<RunSpec>)
      modifies database`runs
      ensures database.runs == Upserted(old(database.runs), record, spec)
    {
      var columns := RunRow(record.repositoryId, record.kind, record.status, record.title,
                            record.createdAt, record.updatedAt, record, spec);
      if record.runId in database.runs {
        columns := columns.(createdAt := database.runs[record.runId].createdAt);
      }
      database.runs := database.runs[record.runId := columns];
    }
  }
}
