/** Archived job records: the JSON file each job has, and how it is finished. */
module JobRecords {
  import opened Outcomes

  datatype JobStatus = Queued | Running | Done | Failed | Cancelled

  datatype JobRecord = JobRecord(
    id: string,
    status: JobStatus,
    pid: nat,
    startedAt: int,
    finishedAt: Option<int>,
    durationMs: Option<nat>,
    providerSessionId: Option<string>,
    summary: Option<string>,
    error: Option<string>)

  /** What a harness run came back with; the provider session and summary travel with it. */
  datatype HarnessResult = HarnessResult(success: bool, error: Option<string>, providerSessionId: Option<string>, summary: Option<string>)

  predicate Ended(status: JobStatus) {
    status == Done || status == Failed || status == Cancelled
  }

  function OrElse<T>(a: Option<T>, b: Option<T>): Option<T> {
    if a.Some? then a else b
  }

  function FinishJobRecord(record: JobRecord, status: JobStatus, finishedAt: int, providerSessionId: Option<string>,
                           summary: Option<string>, error: Option<string>): JobRecord
  {
    var elapsed := finishedAt - record.startedAt;
    record.(status := status,
            providerSessionId := OrElse(providerSessionId, record.providerSessionId),
            finishedAt := Some(finishedAt),
            durationMs := Some(if elapsed < 0 then 0 else elapsed),
            summary := summary,
            error := error)
  }

  function QueuedRecord(id: string, queuedAt: int): JobRecord {
    JobRecord(id, Queued, 0, queuedAt, None, None, None, None, None)
  }

  function RunningRecord(existing: JobRecord, pid: nat, startedAt: int): JobRecord {
    existing.(status := Running, pid := pid, startedAt := startedAt, finishedAt := None, durationMs := None,
              summary := None, error := None)
  }

  /** What `finishCancelled` writes: a record that is already cancelled stays as it is. */
  function CancelledRecord(record: JobRecord, finishedAt: int): JobRecord {
    if record.status == Cancelled then record else FinishJobRecord(record, Cancelled, finishedAt, None, None, None)
  }

  function FailedRecord(record: JobRecord, finishedAt: int, error: string): JobRecord {
    FinishJobRecord(record, Failed, finishedAt, None, None, Some(error))
  }

  /** Finishing keeps who ran and since when, never loses a known session, never gives a negative duration, and finishing the
      result again in the same way changes nothing; a cancelled record stays as it is. */
  lemma FinishedRecordIsStable(record: JobRecord, status: JobStatus, at: int, session: Option<string>, summary: Option<string>,
                               error: Option<string>, later: int)
    ensures var finished := FinishJobRecord(record, status, at, session, summary, error);
            && finished.id == record.id && finished.pid == record.pid && finished.startedAt == record.startedAt
            && finished.status == status && finished.summary == summary && finished.error == error
            && (session.Some? ==> finished.providerSessionId == session)
            && finished.finishedAt == Some(at) && finished.durationMs.Some?
            && (at >= record.startedAt ==> record.startedAt + finished.durationMs.value == at)
            && (at < record.startedAt ==> finished.durationMs.value == 0)
            && (finished.providerSessionId.None? <==> session.None? && record.providerSessionId.None?)
            && (session.None? ==> finished.providerSessionId == record.providerSessionId)
            && FinishJobRecord(finished, status, at, session, summary, error) == finished
            && (status == Cancelled ==> CancelledRecord(finished, later) == finished)
  {
  }

  /** A cancelled record says nothing but that and when, and keeps its session; a failed one tells why; a claimed one is running under
      its worker with nothing told yet; a queued one has no process. */
  lemma RecordsSay(record: JobRecord, at: int, error: string, pid: nat, id: string)
    ensures record.status == Cancelled ==> CancelledRecord(record, at) == record
    ensures record.status != Cancelled ==>
              var cancelled := CancelledRecord(record, at);
              cancelled.status == Cancelled && cancelled.finishedAt == Some(at) && cancelled.summary.None? && cancelled.error.None?
              && cancelled.providerSessionId == record.providerSessionId
    ensures var failed := FailedRecord(record, at, error);
            failed.status == Failed && failed.finishedAt == Some(at) && failed.summary.None? && failed.error == Some(error)
            && failed.providerSessionId == record.providerSessionId
    ensures var running := RunningRecord(record, pid, at);
            running.status == Running && running.pid == pid && running.startedAt == at && running.finishedAt.None? && running.durationMs.None?
            && running.summary.None? && running.error.None? && running.id == record.id && running.providerSessionId == record.providerSessionId
    ensures var queued := QueuedRecord(id, at);
            queued.status == Queued && queued.id == id && queued.pid == 0 && queued.startedAt == at && queued.finishedAt.None?
            && queued.providerSessionId.None? && queued.summary.None? && queued.error.None?
  {
  }
}
