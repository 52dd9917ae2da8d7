/** The life cycle of one run record: record in, changed copy or conflict out. */
module RunTransitions {
  import opened Outcomes
  import opened Timestamps
  import opened RunModels

  /** The record after the transition, whether it was changed at all,
      and for a cancellation plan the process to terminate. */
  datatype Transition = Transition(record: RunRecord, changed: bool, execution: Option<RunExecutionRef>)

  function QueuedMessage(kind: RunKind): string {
    "queued " + KindText(kind)
  }

  function StartRun(record: RunRecord, now: Instant, execution: Option<RunExecutionRef>): Result<Transition, RunError> {
    if record.status == Running then
      if execution.Some? && record.execution != execution then Err(AnotherExecutor(record.runId))
      else Ok(Transition(record, false, None))
    else if record.status != Queued then Err(CannotStart(record.status))
    else Ok(Transition(record.(status := Running, updatedAt := now, startedAt := Some(now), execution := execution), true, None))
  }

  function AttachHarnessTranscript(record: RunRecord, transcript: string, now: Instant): RunRecord {
    record.(harnessTranscript := Some(transcript), updatedAt := now)
  }

  function FinishRun(record: RunRecord, status: RunStatus, summary: Option<string>, error: Option<string>,
                     failureCategory: Option<RunFailureCategory>, now: Instant): Transition
  {
    if Terminal(record.status) then Transition(record, false, None)
    else Transition(record.(status := status, summary := summary, error := error, failureCategory := failureCategory,
                            updatedAt := now, finishedAt := Some(now)), true, None)
  }

  function CancelledRun(record: RunRecord, now: Instant): RunRecord {
    record.(status := Cancelled, updatedAt := now, finishedAt := Some(now))
  }

  /** The event message, when there is one, says which kind of event the store appends. */
  function PrepareCancellation(record: RunRecord, now: Instant): Result<(Transition, Option<string>), RunError> {
    if Terminal(record.status) then Ok((Transition(record, false, None), None))
    else if record.status == Queued then Ok((Transition(CancelledRun(record, now), true, None), Some("cancelled")))
    else if record.execution.None? then Err(NoExecutionIdentity(record.runId))
    else if record.cancellationRequestedAt.Some? then Ok((Transition(record, false, record.execution), None))
    else Ok((Transition(record.(cancellationRequestedAt := Some(now), updatedAt := now), true, record.execution),
             Some("cancellation requested")))
  }

  function FinishCancellation(record: RunRecord, executionId: string, now: Instant): Result<Transition, RunError> {
    if Terminal(record.status) then Ok(Transition(record, false, None))
    else if record.status != Running then Err(CannotFinishCancellation(record.status))
    else if record.execution.None? || record.execution.value.executionId != executionId then Err(ExecutionChanged(record.runId))
    else if record.cancellationRequestedAt.None? then Err(NoCancellationRequest(record.runId))
    else Ok(Transition(CancelledRun(record, now), true, None))
  }

  // ---- Laws across transitions ------------------------------------------------------------------

  /** How a run ended, as a reader of its record sees it. */
  datatype Ending = Ending(status: RunStatus, summary: Option<string>, error: Option<string>,
                           failureCategory: Option<RunFailureCategory>, finishedAt: Option<Instant>)

  function EndingOf(record: RunRecord): Ending {
    Ending(record.status, record.summary, record.error, record.failureCategory, record.finishedAt)
  }

  /** Of two endings the first one wins: it is recorded as it was given, and nothing that comes later changes or restarts the run. */
  lemma FirstEndingWins(record: RunRecord, first: Ending, at: Instant, later: Instant, second: Ending, executionId: string,
                        execution: Option<RunExecutionRef>)
    requires Terminal(first.status)
    ensures var ended := FinishRun(record, first.status, first.summary, first.error, first.failureCategory, at);
            && ended.changed == !Terminal(record.status)
            && EndingOf(ended.record) == (if ended.changed then first.(finishedAt := Some(at)) else EndingOf(record))
            && ended.record.execution == record.execution && ended.record.cancellationRequestedAt == record.cancellationRequestedAt
            && FinishRun(ended.record, second.status, second.summary, second.error, second.failureCategory, later)
               == Transition(ended.record, false, None)
            && PrepareCancellation(ended.record, later) == Ok((Transition(ended.record, false, None), None))
            && FinishCancellation(ended.record, executionId, later) == Ok(Transition(ended.record, false, None))
            && StartRun(ended.record, later, execution).Err?
  {
  }

  /** A running run is cancelled in two steps by its own executor only: the plan names that executor, asking again changes
      nothing, and finishing goes through exactly when the executor is the planned one, and keeps what the run had told. */
  lemma CancellationTakesTwoSteps(record: RunRecord, at: Instant, again: Instant, executionId: string)
    requires record.status == Running
    ensures FinishCancellation(record, executionId, again).Ok? <==>
            record.execution.Some? && record.execution.value.executionId == executionId && record.cancellationRequestedAt.Some?
    ensures PrepareCancellation(record, at).Ok? <==> record.execution.Some?
    ensures record.execution.Some? ==>
              var plan := PrepareCancellation(record, at).value.0;
              var ended := FinishCancellation(plan.record, executionId, again);
              && plan.execution == record.execution && plan.record.status == Running
              && PrepareCancellation(plan.record, again) == Ok((Transition(plan.record, false, record.execution), None))
              && (ended.Ok? <==> record.execution.value.executionId == executionId)
              && (ended.Ok? ==> ended.value.changed
                                && EndingOf(ended.value.record) == EndingOf(record).(status := Cancelled, finishedAt := Some(again))
                                && ended.value.record.cancellationRequestedAt ==
                                   if record.cancellationRequestedAt.Some? then record.cancellationRequestedAt else Some(at))
  {
  }

  /** A run is started once, from the queue; a second start is let through only for nobody else, and changes nothing. */
  lemma StartedOnce(record: RunRecord, at: Instant, execution: Option<RunExecutionRef>, again: Instant, other: Option<RunExecutionRef>)
    requires record.status == Queued
    ensures var started := StartRun(record, at, execution);
            && started.Ok? && started.value.changed && started.value.record.startedAt == Some(at)
            && started.value.record.execution == execution
            && (StartRun(started.value.record, again, other).Ok? <==> other.None? || other == execution)
            && (StartRun(started.value.record, again, other).Ok? ==>
                  StartRun(started.value.record, again, other) == Ok(Transition(started.value.record, false, None)))
  {
  }
}
