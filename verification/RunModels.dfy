/** Records, events and statuses of local runs, and the store's error replies. */
module RunModels {
  import opened Outcomes
  import opened Timestamps

  datatype RunKind = Build | Ingest | Garden

  datatype RunStatus = Queued | Running | Done | Failed | Cancelled

  datatype RunFailureCategory =
    HarnessReadiness | ProviderExecution | SourcePreparation | MutationSafety | WikiValidation | Indexing | InternalError

  datatype RunEventKind = StatusEvent | MessageEvent | ToolEvent | OutputEvent | ErrorEvent

  datatype RunExecutionRef = RunExecutionRef(executionId: string, pid: nat, processStartedAt: Instant)

  datatype RunSpec = RunSpec(kind: RunKind, harness: string, model: string, inputs: seq<string>,
                             title: Option<string>, guidance: Option<string>, autoCommit: bool)

  datatype RunRecord = RunRecord(
    runId: string,
    repositoryId: string,
    kind: RunKind,
    status: RunStatus,
    title: Option<string>,
    summary: Option<string>,
    error: Option<string>,
    failureCategory: Option<RunFailureCategory>,
    createdAt: Instant,
    updatedAt: Instant,
    startedAt: Option<Instant>,
    finishedAt: Option<Instant>,
    harnessTranscript: Option<string>,
    execution: Option<RunExecutionRef>,
    cancellationRequestedAt: Option<Instant>)

  /** `harnessEvent` is the serialised provider event, which the store never looks into. */
  datatype RunLogEvent = RunLogEvent(
    runId: string,
    sequence: nat,
    timestamp: Instant,
    kind: RunEventKind,
    message: string,
    harnessEvent: Option<string>)

  datatype QueuedRun = QueuedRun(record: RunRecord, spec: Option<RunSpec>)

  datatype LockOwner = LockOwner(owner: string, pid: nat, acquiredAt: int)

  datatype RunError =
    | NotFound(runId: string)
    | AnotherExecutor(runId: string)
    | CannotStart(from: RunStatus)
    | NoExecutionIdentity(runId: string)
    | CannotFinishCancellation(from: RunStatus)
    | ExecutionChanged(runId: string)
    | NoCancellationRequest(runId: string)
    | EmptyMessage

  predicate Terminal(status: RunStatus) {
    status == Done || status == Failed || status == Cancelled
  }

  function StatusText(status: RunStatus): string {
    match status
    case Queued => "queued"
    case Running => "running"
    case Done => "done"
    case Failed => "failed"
    case Cancelled => "cancelled"
  }

  function KindText(kind: RunKind): string {
    match kind
    case Build => "build"
    case Ingest => "ingest"
    case Garden => "garden"
  }

  /** A record as `new_run_record` builds it. */
  function NewRecord(runId: string, repositoryId: string, kind: RunKind, title: Option<string>, now: Instant): RunRecord {
    RunRecord(runId, repositoryId, kind, Queued, title, None, None, None, now, now, None, None, None, None, None)
  }
}
