/** The archived job protocol as interleaved file operations: enqueuers, workers under one lock,
    cancellers with a sticky marker and a signal, and session writers that read, modify and write back unsynchronised.
    Taking the lock, from nobody or from a dead holder, and giving it back are atomic; a worker may end anywhere. */
module JobProtocol {
  import opened Outcomes
  import opened JobRecords

  type JobId = string

  /** The three places where a worker asks whether its job was cancelled. */
  datatype Stage = BeforeClaim | AfterClaim | Final(result: HarnessResult, retried: bool)

  datatype Worker =
    | Spawned
    | Scanning
    | ReadingSpec(job: JobId)
    | Claiming(job: JobId)
    | CheckRead(job: JobId, stage: Stage, fallback: JobRecord)
    | CheckMarker(job: JobId, stage: Stage, fallback: JobRecord, current: Option<JobRecord>)
    | WritingCancelled(job: JobId, stage: Stage, fallback: JobRecord, record: JobRecord)
    | WritingRunning(job: JobId, record: JobRecord)
    | EnteringHarness(job: JobId, running: JobRecord)
    | InHarness(job: JobId, running: JobRecord)
    | AwaitingWrites(job: JobId, running: JobRecord, result: HarnessResult, retried: bool)
    | WritingFinal(job: JobId, running: JobRecord, record: JobRecord, result: HarnessResult, retried: bool)
    | FailRead(job: JobId)
    | FailWrite(job: JobId, record: JobRecord)
    | Releasing
    | Escaping
    | Rechecking
    | Gone

  /** `persistProviderSessionId`: about to read, then about to write what it made of what it read. */
  datatype SessionWrite = Reading(job: JobId, fallback: JobRecord, sessionId: string) | Writing(job: JobId, record: JobRecord)

  /** `runJobsCancel` after it read a record that had not ended: marker, then a signal to the record's process, then the record. */
  datatype Canceller =
    | Marking(job: JobId, record: JobRecord)
    | Signalling(job: JobId, record: JobRecord)
    | Overwriting(job: JobId, record: JobRecord)

  /** What `startQueuedJob` handed back: the status of its last write and the harness success it reports. */
  datatype Outcome = Outcome(status: JobStatus, success: bool)

  datatype State = State(
    records: map<JobId, JobRecord>,
    markers: set<JobId>,
    lock: Option<nat>,
    enqueuers: map<JobId, JobRecord>,
    workers: map<nat, Worker>,
    writes: map<nat, SessionWrite>,
    cancellers: map<nat, Canceller>,
    starts: map<JobId, nat>,
    outcomes: map<JobId, Outcome>)

  const EMPTY := State(map[], {}, None, map[], map[], map[], map[], map[], map[])

  function Starts(s: State, job: JobId): nat {
    if job in s.starts then s.starts[job] else 0
  }

  function Read(s: State, job: JobId): Option<JobRecord> {
    if job in s.records then Some(s.records[job]) else None
  }

  function QueuedJobs(s: State): set<JobId> {
    set job | job in s.records && s.records[job].status == Queued
  }

  /** Oldest first; ties fall where the directory listing put them. */
  predicate OldestQueued(s: State, job: JobId) {
    job in QueuedJobs(s) && forall other :: other in QueuedJobs(s) ==> s.records[job].startedAt <= s.records[other].startedAt
  }

  datatype Step =
    | Enqueue(job: JobId, at: int)
    | SpawnWorker(job: JobId, pid: nat)
    | SpawnThrows(job: JobId, at: int, error: string)
    | TryAcquire(pid: nat)
    | Scan(pid: nat, found: Option<JobId>)
    | SpecRead(pid: nat)
    | Claim(pid: nat)
    | ReadForCheck(pid: nat)
    | TestMarker(pid: nat, at: int)
    | WriteCancelled(pid: nat)
    | WriteRunning(pid: nat)
    | StartHarness(pid: nat)
    | EmitSession(pid: nat, write: nat, sessionId: string)
    | HarnessReturns(pid: nat, result: HarnessResult)
    | WritesSettle(pid: nat)
    | WriteFinal(pid: nat)
    | Throw(pid: nat, error: string)
    | ReadForFailure(pid: nat, at: int, error: string)
    | WriteFailure(pid: nat)
    | Release(pid: nat)
    | Recheck(pid: nat)
    | SessionReads(write: nat)
    | SessionWrites(write: nat)
    | CancelReads(canceller: nat, job: JobId)
    | CancelMarks(canceller: nat)
    | CancelSignals(canceller: nat, handled: bool)
    | CancelWrites(canceller: nat, at: int)
    | Escape(pid: nat)
    | Kill(pid: nat)

  predicate Settled(s: State, job: JobId) {
    forall w {:trigger s.writes[w]} :: w in s.writes ==> s.writes[w].job != job
  }

  /** Places from which an exception inside the job's processing escapes its current step. */
  predicate MayThrow(w: Worker) {
    w.ReadingSpec? || w.Claiming? || w.WritingCancelled? || w.WritingRunning? || w.EnteringHarness? || w.AwaitingWrites? || w.WritingFinal?
  }

  /** Places from which an exception leaves `runJobWorker`: those of `markQueuedJobFailed`, the listing and the lock itself. */
  predicate MayEscape(w: Worker) {
    w.FailRead? || w.FailWrite? || w.Scanning? || w.Releasing? || w.Escaping? || w.Rechecking? || w.Spawned?
  }

  predicate Alive(s: State, pid: nat) {
    pid in s.workers && !s.workers[pid].Gone?
  }

  /** The lock is refused while its holder lives; a dead holder's lock is stale and is taken over. */
  predicate Refused(s: State) {
    s.lock.Some? && Alive(s, s.lock.value)
  }

  /** The worker a canceller's signal reaches; only a record that was running carries a process. */
  function Target(s: State, canceller: nat): Option<nat>
    requires canceller in s.cancellers
  {
    var pid := s.cancellers[canceller].record.pid;
    if pid > 0 && Alive(s, pid) then Some(pid) else None
  }

  predicate Enabled(s: State, step: Step) {
    match step
    case Enqueue(job, _) => job !in s.records && job !in s.starts && job !in s.outcomes && job !in s.markers
    case SpawnWorker(job, pid) => job in s.enqueuers && pid > 0 && pid !in s.workers
    case SpawnThrows(job, _, _) => job in s.enqueuers
    case TryAcquire(pid) => pid in s.workers && s.workers[pid].Spawned?
    case Scan(pid, found) =>
      pid in s.workers && s.workers[pid].Scanning?
      && if found.Some? then OldestQueued(s, found.value) else QueuedJobs(s) == {}
    case SpecRead(pid) => pid in s.workers && s.workers[pid].ReadingSpec?
    case Claim(pid) => pid in s.workers && s.workers[pid].Claiming?
    case ReadForCheck(pid) => pid in s.workers && s.workers[pid].CheckRead?
    case TestMarker(pid, _) => pid in s.workers && s.workers[pid].CheckMarker?
    case WriteCancelled(pid) => pid in s.workers && s.workers[pid].WritingCancelled?
    case WriteRunning(pid) => pid in s.workers && s.workers[pid].WritingRunning?
    case StartHarness(pid) => pid in s.workers && s.workers[pid].EnteringHarness?
    case EmitSession(pid, write, _) => pid in s.workers && s.workers[pid].InHarness? && write !in s.writes
    case HarnessReturns(pid, _) => pid in s.workers && s.workers[pid].InHarness?
    case WritesSettle(pid) => pid in s.workers && s.workers[pid].AwaitingWrites? && Settled(s, s.workers[pid].job)
    case WriteFinal(pid) => pid in s.workers && s.workers[pid].WritingFinal?
    case Throw(pid, _) => pid in s.workers && MayThrow(s.workers[pid])
    case ReadForFailure(pid, _, _) => pid in s.workers && s.workers[pid].FailRead?
    case WriteFailure(pid) => pid in s.workers && s.workers[pid].FailWrite?
    case Release(pid) => pid in s.workers && (s.workers[pid].Releasing? || s.workers[pid].Escaping?)
    case Recheck(pid) => pid in s.workers && s.workers[pid].Rechecking?
    case SessionReads(write) => write in s.writes && s.writes[write].Reading?
    case SessionWrites(write) => write in s.writes && s.writes[write].Writing?
    case CancelReads(canceller, job) => canceller !in s.cancellers && job in s.records
    case CancelMarks(canceller) => canceller in s.cancellers && s.cancellers[canceller].Marking?
    case CancelSignals(canceller, handled) =>
      canceller in s.cancellers && s.cancellers[canceller].Signalling?
      && (handled ==> Target(s, canceller).Some? && s.workers[Target(s, canceller).value].InHarness?)
    case CancelWrites(canceller, _) => canceller in s.cancellers && s.cancellers[canceller].Overwriting?
    case Escape(pid) => pid in s.workers && MayEscape(s.workers[pid])
    case Kill(pid) => Alive(s, pid)
  }

  // ---- One step -----------------------------------------------------------------------------------

  function Moved(s: State, pid: nat, w: Worker): State {
    s.(workers := s.workers[pid := w])
  }

  function Written(s: State, job: JobId, record: JobRecord): State {
    s.(records := s.records[job := record])
  }

  function Failure(error: string): HarnessResult {
    HarnessResult(false, Some(error), None, None)
  }

  /** Where a worker goes once it knows whether its job was cancelled. */
  function AfterCheck(s: State, pid: nat, job: JobId, stage: Stage, fallback: JobRecord, current: Option<JobRecord>, at: int): Worker {
    var base := if current.Some? then current.value else fallback;
    if (current.Some? && current.value.status == Cancelled) || job in s.markers
    then WritingCancelled(job, stage, fallback, CancelledRecord(base, at))
    else match stage
      case BeforeClaim => WritingRunning(job, RunningRecord(fallback, pid, at))
      case AfterClaim => EnteringHarness(job, fallback)
      case Final(result, retried) =>
        var status := if result.success then Done else Failed;
        WritingFinal(job, fallback, FinishJobRecord(base, status, at, result.providerSessionId, result.summary, result.error),
                     result, retried)
  }

  /** The executor catches one failure and finishes as failed; anything else reaches the drain loop. */
  function Caught(w: Worker, error: string): Worker
    requires MayThrow(w)
  {
    match w
    case EnteringHarness(job, running) => AwaitingWrites(job, running, Failure(error), true)
    case AwaitingWrites(job, running, _, retried) =>
      if retried then FailRead(job) else AwaitingWrites(job, running, Failure(error), true)
    case WritingCancelled(job, stage, fallback, _) =>
      if stage.Final? && !stage.retried then AwaitingWrites(job, fallback, Failure(error), true) else FailRead(job)
    case WritingFinal(job, running, _, _, retried) =>
      if retried then FailRead(job) else AwaitingWrites(job, running, Failure(error), true)
    case _ => FailRead(w.job)
  }

  predicate ByWorker(step: Step) {
    !(step.Enqueue? || step.SpawnWorker? || step.SpawnThrows? || step.SessionReads? || step.SessionWrites?
      || step.CancelReads? || step.CancelMarks? || step.CancelSignals? || step.CancelWrites?)
  }

  /** The one file operation a worker's step may perform. */
  datatype Effect =
    | Nothing
    | SetLock(lock: Option<nat>)
    | WriteRecord(job: JobId, record: JobRecord)
    | WriteLast(job: JobId, record: JobRecord, outcome: Outcome)
    | CountStart(job: JobId)
    | Emit(write: nat, session: SessionWrite)

  function Perform(s: State, effect: Effect): State {
    match effect
    case Nothing => s
    case SetLock(lock) => s.(lock := lock)
    case WriteRecord(job, record) => Written(s, job, record)
    case WriteLast(job, record, outcome) => Written(s, job, record).(outcomes := s.outcomes[job := outcome])
    case CountStart(job) => s.(starts := s.starts[job := Starts(s, job) + 1])
    case Emit(write, session) => s.(writes := s.writes[write := session])
  }

  /** A success is not reported for a job whose last record says cancelled. */
  function Reported(status: JobStatus, success: bool): Outcome {
    Outcome(status, if status == Cancelled && success then false else success)
  }

  function EffectOf(s: State, step: Step): Effect
    requires Enabled(s, step) && ByWorker(step)
  {
    var w := s.workers[step.pid];
    match step
    case TryAcquire(pid) => if Refused(s) then Nothing else SetLock(Some(pid))
    case Release(_) => SetLock(None)
    case WriteCancelled(_) => WriteLast(w.job, w.record, Reported(w.record.status, w.stage.Final? && w.stage.result.success))
    case WriteFinal(_) => WriteLast(w.job, w.record, Reported(w.record.status, w.result.success))
    case WriteRunning(_) => WriteRecord(w.job, w.record)
    case WriteFailure(_) => WriteRecord(w.job, w.record)
    case StartHarness(_) => CountStart(w.job)
    case EmitSession(_, write, sessionId) => Emit(write, Reading(w.job, w.running, sessionId))
    case _ => Nothing
  }

  function NextWorker(s: State, step: Step): Worker
    requires Enabled(s, step) && ByWorker(step)
  {
    var w := s.workers[step.pid];
    match step
    case TryAcquire(_) => if Refused(s) then Gone else Scanning
    case Scan(_, found) => if found.Some? then ReadingSpec(found.value) else Releasing
    case SpecRead(_) => Claiming(w.job)
    case Claim(_) =>
      var existing := Read(s, w.job);
      if existing.Some? && existing.value.status == Queued then CheckRead(w.job, BeforeClaim, existing.value) else Scanning
    case ReadForCheck(_) => CheckMarker(w.job, w.stage, w.fallback, Read(s, w.job))
    case TestMarker(pid, at) => AfterCheck(s, pid, w.job, w.stage, w.fallback, w.current, at)
    case WriteCancelled(_) => Scanning
    case WriteRunning(_) => CheckRead(w.job, AfterClaim, w.record)
    case StartHarness(_) => InHarness(w.job, w.running)
    case EmitSession(_, _, _) => w
    case HarnessReturns(_, result) => AwaitingWrites(w.job, w.running, result, false)
    case WritesSettle(_) => CheckRead(w.job, Final(w.result, w.retried), w.running)
    case WriteFinal(_) => Scanning
    case Throw(_, error) => Caught(w, error)
    case ReadForFailure(_, at, error) =>
      var current := Read(s, w.job);
      if current.Some? && current.value.status == Queued then FailWrite(w.job, FailedRecord(current.value, at, error)) else Scanning
    case WriteFailure(_) => Scanning
    case Release(_) => if w.Releasing? then Rechecking else Gone
    case Recheck(_) => if QueuedJobs(s) == {} then Gone else Spawned
    case Escape(_) => if w.FailRead? || w.FailWrite? || w.Scanning? then Escaping else Gone
    case Kill(_) => Gone
  }

  function WorkerStep(s: State, step: Step): State
    requires Enabled(s, step) && ByWorker(step)
  {
    Perform(Moved(s, step.pid, NextWorker(s, step)), EffectOf(s, step))
  }

  /** What the steps of enqueuers, session writers and cancellers make of each part of the state. */
  function RecordsAfter(s: State, step: Step): map<JobId, JobRecord>
    requires Enabled(s, step) && !ByWorker(step)
  {
    match step
    case Enqueue(job, at) => s.records[job := QueuedRecord(job, at)]
    case SpawnThrows(job, at, error) => s.records[job := FailedRecord(s.enqueuers[job], at, error)]
    case SessionWrites(write) => s.records[s.writes[write].job := s.writes[write].record]
    case CancelWrites(canceller, at) =>
      var c := s.cancellers[canceller];
      s.records[c.job := FinishJobRecord(c.record, Cancelled, at, None, None, None)]
    case _ => s.records
  }

  function EnqueuersAfter(s: State, step: Step): map<JobId, JobRecord>
    requires Enabled(s, step) && !ByWorker(step)
  {
    match step
    case Enqueue(job, at) => s.enqueuers[job := QueuedRecord(job, at)]
    case SpawnWorker(job, _) => s.enqueuers - {job}
    case SpawnThrows(job, _, _) => s.enqueuers - {job}
    case _ => s.enqueuers
  }

  function WorkersAfter(s: State, step: Step): map<nat, Worker>
    requires Enabled(s, step) && !ByWorker(step)
  {
    match step
    case SpawnWorker(_, pid) => s.workers[pid := Spawned]
    case CancelSignals(canceller, handled) =>
      if handled || Target(s, canceller).None? then s.workers else s.workers[Target(s, canceller).value := Gone]
    case _ => s.workers
  }

  function WritesAfter(s: State, step: Step): map<nat, SessionWrite>
    requires Enabled(s, step) && !ByWorker(step)
  {
    match step
    case SessionReads(write) =>
      var r := s.writes[write];
      var record := if r.job in s.records then s.records[r.job] else r.fallback;
      if record.providerSessionId.Some? then s.writes - {write}
      else s.writes[write := Writing(r.job, record.(providerSessionId := Some(r.sessionId)))]
    case SessionWrites(write) => s.writes - {write}
    case _ => s.writes
  }

  function CancellersAfter(s: State, step: Step): map<nat, Canceller>
    requires Enabled(s, step) && !ByWorker(step)
  {
    match step
    case CancelReads(canceller, job) =>
      if Ended(s.records[job].status) then s.cancellers else s.cancellers[canceller := Marking(job, s.records[job])]
    case CancelMarks(canceller) => s.cancellers[canceller := Signalling(s.cancellers[canceller].job, s.cancellers[canceller].record)]
    case CancelSignals(canceller, _) => s.cancellers[canceller := Overwriting(s.cancellers[canceller].job, s.cancellers[canceller].record)]
    case CancelWrites(canceller, _) => s.cancellers - {canceller}
    case _ => s.cancellers
  }

  function OutsideStep(s: State, step: Step): State
    requires Enabled(s, step) && !ByWorker(step)
  {
    s.(records := RecordsAfter(s, step), enqueuers := EnqueuersAfter(s, step), workers := WorkersAfter(s, step),
       writes := WritesAfter(s, step), cancellers := CancellersAfter(s, step),
       markers := if step.CancelMarks? then s.markers + {s.cancellers[step.canceller].job} else s.markers)
  }

  function Do(s: State, step: Step): State
    requires Enabled(s, step)
  {
    if ByWorker(step) then WorkerStep(s, step) else OutsideStep(s, step)
  }

  predicate Legal(steps: seq<Step>)
    decreases |steps|, 0
  {
    |steps| == 0 || (Legal(steps[..|steps| - 1]) && Enabled(Reached(steps[..|steps| - 1]), steps[|steps| - 1]))
  }

  function Reached(steps: seq<Step>): State
    requires Legal(steps)
    decreases |steps|, 1
  {
    if |steps| == 0 then EMPTY else Do(Reached(steps[..|steps| - 1]), steps[|steps| - 1])
  }

  // ---- Invariants ---------------------------------------------------------------------------------

  /** Between a granted acquire and the release. */
  predicate Holding(w: Worker) {
    !w.Spawned? && !w.Rechecking? && !w.Gone?
  }

  /** The job left the queue for good. */
  predicate Claimed(s: State, job: JobId) {
    job in s.records && s.records[job].status != Queued
  }

  predicate StageOk(s: State, job: JobId, stage: Stage) {
    && job in s.records
    && (!stage.Final? ==> Starts(s, job) == 0)
    && (!stage.BeforeClaim? ==> Claimed(s, job))
  }

  predicate JobOk(s: State, w: Worker) {
    match w
    case CheckRead(job, stage, _) => StageOk(s, job, stage)
    case CheckMarker(job, stage, _, _) => StageOk(s, job, stage)
    case WritingCancelled(job, stage, _, record) => StageOk(s, job, stage) && record.status == Cancelled
    case WritingRunning(job, record) => Starts(s, job) == 0 && job in s.records && record.status == Running
    case EnteringHarness(job, _) => Starts(s, job) == 0 && Claimed(s, job)
    case InHarness(job, _) => Claimed(s, job)
    case AwaitingWrites(job, _, _, _) => Claimed(s, job)
    case WritingFinal(job, _, record, result, _) => Claimed(s, job) && record.status == if result.success then Done else Failed
    case FailWrite(job, record) => record.status == Failed
    case _ => true
  }

  predicate WorkerOk(s: State, pid: nat)
    requires pid in s.workers
  {
    (Holding(s.workers[pid]) ==> s.lock == Some(pid)) && JobOk(s, s.workers[pid])
  }

  predicate WriteOk(s: State, write: nat)
    requires write in s.writes
  {
    var r := s.writes[write];
    Claimed(s, r.job) && (r.Writing? ==> r.record.status != Queued)
  }

  predicate StartsOk(s: State, job: JobId) {
    Starts(s, job) <= 1 && (Starts(s, job) > 0 ==> Claimed(s, job))
  }

  ghost predicate Inv(s: State) {
    && (forall pid {:trigger WorkerOk(s, pid)} :: pid in s.workers ==> WorkerOk(s, pid))
    && (forall write {:trigger WriteOk(s, write)} :: write in s.writes ==> WriteOk(s, write))
    && (forall job {:trigger StartsOk(s, job)} :: StartsOk(s, job))
  }

  /** Jobs that left the queue stay out of it, and records stay. */
  ghost predicate Forward(s: State, after: State) {
    && (forall job {:trigger Claimed(after, job)} {:trigger Claimed(s, job)} :: Claimed(s, job) ==> Claimed(after, job))
    && s.records.Keys <= after.records.Keys
  }

  lemma WorkerStepForward(s: State, step: Step)
    requires Enabled(s, step) && ByWorker(step) && WorkerOk(s, step.pid)
    ensures Forward(s, WorkerStep(s, step))
  {
  }

  lemma OutsideForward(s: State, step: Step)
    requires Enabled(s, step) && !ByWorker(step) && (step.SessionWrites? ==> WriteOk(s, step.write))
    ensures Forward(s, OutsideStep(s, step))
  {
    assert forall job :: Claimed(s, job) ==> job in RecordsAfter(s, step) && RecordsAfter(s, step)[job].status != Queued;
  }

  /** Nothing but `startBackgroundJob`, on a fresh id, ever writes a queued record. */
  lemma StepForward(s: State, step: Step)
    requires Inv(s) && Enabled(s, step)
    ensures Forward(s, Do(s, step))
  {
    if ByWorker(step) {
      assert WorkerOk(s, step.pid);
      WorkerStepForward(s, step);
    } else {
      if step.SessionWrites? {
        assert WriteOk(s, step.write);
      }
      OutsideForward(s, step);
    }
  }

  lemma WorkerStarts(s: State, step: Step, job: JobId)
    requires Enabled(s, step) && ByWorker(step)
    ensures Starts(WorkerStep(s, step), job)
            == Starts(s, job) + if step.StartHarness? && s.workers[step.pid].job == job then 1 else 0
  {
    assert EffectOf(s, step).CountStart? <==> step.StartHarness?;
  }

  lemma OutsideStarts(s: State, step: Step)
    requires Enabled(s, step) && !ByWorker(step)
    ensures var after := OutsideStep(s, step);
            after.starts == s.starts && after.lock == s.lock && after.outcomes == s.outcomes && s.markers <= after.markers
  {
  }

  lemma OutsideWorkers(s: State, step: Step)
    requires Enabled(s, step) && !ByWorker(step)
    ensures var after := OutsideStep(s, step);
            && (forall pid :: pid in s.workers ==> pid in after.workers && (after.workers[pid] == s.workers[pid] || after.workers[pid].Gone?))
            && (forall pid :: pid in after.workers && pid !in s.workers ==> after.workers[pid].Spawned?)
  {
  }

  lemma WorkerFrame(s: State, step: Step, other: nat)
    requires Enabled(s, step) && ByWorker(step) && other in s.workers && other != step.pid
    requires WorkerOk(s, step.pid) && WorkerOk(s, other)
    ensures var after := WorkerStep(s, step);
            && other in after.workers && after.workers[other] == s.workers[other]
            && (Holding(s.workers[other]) ==> after.lock == s.lock && !step.StartHarness?)
  {
  }

  predicate HasJob(w: Worker) {
    Holding(w) && !w.Scanning? && !w.Releasing? && !w.Escaping?
  }

  lemma UntouchedStaysOk(s: State, after: State, pid: nat)
    requires pid in s.workers && WorkerOk(s, pid) && pid in after.workers && after.workers[pid] == s.workers[pid]
    requires Holding(s.workers[pid]) ==> after.lock == s.lock
    requires HasJob(s.workers[pid]) ==> Starts(after, s.workers[pid].job) == Starts(s, s.workers[pid].job)
    requires Forward(s, after)
    ensures WorkerOk(after, pid)
  {
    if HasJob(s.workers[pid]) {
      assert Claimed(s, s.workers[pid].job) ==> Claimed(after, s.workers[pid].job);
    }
  }

  lemma OwnWorkerStaysOk(s: State, step: Step)
    requires Enabled(s, step) && ByWorker(step) && WorkerOk(s, step.pid)
    requires step.Claim? ==> StartsOk(s, s.workers[step.pid].job)
    ensures WorkerOk(WorkerStep(s, step), step.pid)
  {
    NextJobIsOk(s, step);
    assert Holding(NextWorker(s, step)) ==> WorkerStep(s, step).lock == Some(step.pid);
  }

  lemma NextJobIsOk(s: State, step: Step)
    requires Enabled(s, step) && ByWorker(step) && JobOk(s, s.workers[step.pid])
    requires step.Claim? ==> StartsOk(s, s.workers[step.pid].job)
    ensures JobOk(WorkerStep(s, step), NextWorker(s, step))
  {
    if step.TestMarker? {
      CheckedJobIsOk(s, step);
    } else if step.Throw? {
      CaughtJobIsOk(s, step);
    } else {
      OtherNextJobIsOk(s, step);
    }
  }

  lemma CheckedJobIsOk(s: State, step: Step)
    requires Enabled(s, step) && step.TestMarker? && JobOk(s, s.workers[step.pid])
    ensures JobOk(WorkerStep(s, step), NextWorker(s, step))
  {
  }

  lemma CaughtJobIsOk(s: State, step: Step)
    requires Enabled(s, step) && step.Throw? && JobOk(s, s.workers[step.pid])
    ensures JobOk(WorkerStep(s, step), NextWorker(s, step))
  {
  }

  lemma OtherNextJobIsOk(s: State, step: Step)
    requires Enabled(s, step) && ByWorker(step) && !step.TestMarker? && !step.Throw? && JobOk(s, s.workers[step.pid])
    requires step.Claim? ==> StartsOk(s, s.workers[step.pid].job)
    ensures JobOk(WorkerStep(s, step), NextWorker(s, step))
  {
  }

  lemma OutsideWorkerStaysOk(s: State, step: Step, pid: nat)
    requires Inv(s) && Enabled(s, step) && !ByWorker(step) && pid in OutsideStep(s, step).workers
    ensures WorkerOk(OutsideStep(s, step), pid)
  {
    StepForward(s, step);
    OutsideStarts(s, step);
    OutsideWorkers(s, step);
    if pid in s.workers && OutsideStep(s, step).workers[pid] == s.workers[pid] {
      assert WorkerOk(s, pid);
      UntouchedStaysOk(s, OutsideStep(s, step), pid);
    }
  }

  lemma OtherWorkerStaysOk(s: State, step: Step, pid: nat)
    requires Inv(s) && Enabled(s, step) && ByWorker(step) && pid in s.workers && pid != step.pid
    ensures WorkerOk(WorkerStep(s, step), pid)
  {
    StepForward(s, step);
    assert WorkerOk(s, step.pid) && WorkerOk(s, pid);
    WorkerFrame(s, step, pid);
    if HasJob(s.workers[pid]) {
      WorkerStarts(s, step, s.workers[pid].job);
    }
    UntouchedStaysOk(s, WorkerStep(s, step), pid);
  }

  lemma WorkersStayOk(s: State, step: Step, pid: nat)
    requires Inv(s) && Enabled(s, step) && pid in Do(s, step).workers
    ensures WorkerOk(Do(s, step), pid)
  {
    if !ByWorker(step) {
      OutsideWorkerStaysOk(s, step, pid);
    } else if pid == step.pid {
      assert WorkerOk(s, pid);
      if step.Claim? {
        assert StartsOk(s, s.workers[pid].job);
      }
      OwnWorkerStaysOk(s, step);
    } else {
      WorkerLeavesOthers(s, step);
      OtherWorkerStaysOk(s, step, pid);
    }
  }

  lemma OwnWriteStaysOk(s: State, step: Step, write: nat)
    requires Enabled(s, step) && ByWorker(step) && WorkerOk(s, step.pid)
    ensures var after := WorkerStep(s, step);
            write in after.writes ==>
              if write in s.writes then after.writes[write] == s.writes[write]
              else after.writes[write].Reading? && Claimed(s, after.writes[write].job)
  {
  }

  lemma OutsideWriteStaysOk(s: State, step: Step, write: nat)
    requires Enabled(s, step) && !ByWorker(step) && (write in s.writes ==> WriteOk(s, write))
    ensures var after := OutsideStep(s, step);
            write in after.writes ==>
              write in s.writes && after.writes[write].job == s.writes[write].job
              && (after.writes[write].Writing? ==> after.writes[write].record.status != Queued)
  {
  }

  lemma WritesStayOk(s: State, step: Step, write: nat)
    requires Inv(s) && Enabled(s, step) && write in Do(s, step).writes
    ensures WriteOk(Do(s, step), write)
  {
    StepForward(s, step);
    var job := Do(s, step).writes[write].job;
    assert write in s.writes ==> WriteOk(s, write);
    if ByWorker(step) {
      assert WorkerOk(s, step.pid);
      OwnWriteStaysOk(s, step, write);
    } else {
      OutsideWriteStaysOk(s, step, write);
    }
    assert Claimed(s, job) ==> Claimed(Do(s, step), job);
  }

  lemma StartsStayOk(s: State, step: Step, job: JobId)
    requires Inv(s) && Enabled(s, step)
    ensures StartsOk(Do(s, step), job)
  {
    assert StartsOk(s, job);
    StepForward(s, step);
    assert Claimed(s, job) ==> Claimed(Do(s, step), job);
    if ByWorker(step) {
      assert WorkerOk(s, step.pid);
      WorkerStarts(s, step, job);
    } else {
      OutsideStarts(s, step);
    }
  }

  lemma StepKeepsInv(s: State, step: Step)
    requires Inv(s) && Enabled(s, step)
    ensures Inv(Do(s, step))
  {
    var after := Do(s, step);
    forall pid | pid in after.workers ensures WorkerOk(after, pid) {
      WorkersStayOk(s, step, pid);
    }
    forall write | write in after.writes ensures WriteOk(after, write) {
      WritesStayOk(s, step, write);
    }
    forall job ensures StartsOk(after, job) {
      StartsStayOk(s, step, job);
    }
  }

  lemma {:induction false} ReachedIsSound(steps: seq<Step>)
    requires Legal(steps)
    ensures Inv(Reached(steps))
  {
    if |steps| > 0 {
      ReachedIsSound(steps[..|steps| - 1]);
      StepKeepsInv(Reached(steps[..|steps| - 1]), steps[|steps| - 1]);
    }
  }

  /** Over every interleaving the harness starts at most once for a job. */
  lemma {:induction false} HarnessStartsAtMostOnce(steps: seq<Step>, job: JobId)
    requires Legal(steps)
    ensures Starts(Reached(steps), job) <= 1
  {
    ReachedIsSound(steps);
    assert StartsOk(Reached(steps), job);
  }

  // ---- No lost wakeup -----------------------------------------------------------------------------

  /** Somebody who will still look at the queue. */
  predicate SomeoneActive(s: State) {
    exists pid {:trigger Alive(s, pid)} :: pid in s.workers && Alive(s, pid)
  }

  /** The lock is held by a worker that will release it and then look again, or by a dead one from whom it can be taken. */
  predicate LockIsHeld(s: State) {
    s.lock.Some? ==> s.lock.value in s.workers && (Holding(s.workers[s.lock.value]) || s.workers[s.lock.value].Gone?)
  }

  predicate Unclaimed(s: State, job: JobId) {
    job in QueuedJobs(s) && job !in s.enqueuers
  }

  /** A queued job's own enqueuer has yet to spawn a worker, or some worker is still around. */
  predicate WillBeSeen(s: State, job: JobId) {
    Unclaimed(s, job) ==> SomeoneActive(s)
  }

  /** The worker a step ends before it could look at the queue once more: killed, signalled outside its harness,
      or left by an exception. */
  function Victim(s: State, step: Step): Option<nat>
    requires Enabled(s, step)
  {
    match step
    case Kill(pid) => Some(pid)
    case CancelSignals(canceller, handled) => if handled then None else Target(s, canceller)
    case Escape(pid) => if NextWorker(s, step).Gone? then Some(pid) else None
    case Release(pid) => if s.workers[pid].Escaping? then Some(pid) else None
    case _ => None
  }

  predicate LastAlive(s: State, pid: nat) {
    forall other {:trigger Alive(s, other)} :: other in s.workers && other != pid ==> !Alive(s, other)
  }

  /** The step ends the last worker there is while the job waits and its enqueuer has done its part. */
  predicate Loses(s: State, step: Step, job: JobId)
    requires Enabled(s, step)
  {
    Victim(s, step).Some? && LastAlive(s, Victim(s, step).value) && Unclaimed(s, job)
  }

  lemma LockStaysHeld(s: State, step: Step)
    requires Inv(s) && Enabled(s, step) && LockIsHeld(s)
    ensures LockIsHeld(Do(s, step))
  {
    if ByWorker(step) {
      assert WorkerOk(s, step.pid);
      HoldersStay(s, step);
    } else {
      OutsideStarts(s, step);
      OutsideWorkers(s, step);
    }
  }

  lemma HoldersStay(s: State, step: Step)
    requires Enabled(s, step) && ByWorker(step) && LockIsHeld(s) && WorkerOk(s, step.pid)
    ensures LockIsHeld(WorkerStep(s, step))
  {
    var next, effect := NextWorker(s, step), EffectOf(s, step);
    NextHolds(s, step);
    assert WorkerStep(s, step).lock == if effect.SetLock? then effect.lock else s.lock;
    WorkerLeavesOthers(s, step);
  }

  lemma NextHolds(s: State, step: Step)
    requires Enabled(s, step) && ByWorker(step)
    ensures EffectOf(s, step).SetLock? <==> step.Release? || (step.TryAcquire? && !Refused(s))
    ensures step.TryAcquire? && !Refused(s) ==> Holding(NextWorker(s, step)) && EffectOf(s, step) == SetLock(Some(step.pid))
    ensures step.Release? ==> EffectOf(s, step) == SetLock(None)
    ensures Holding(s.workers[step.pid]) && !step.Release? ==> Holding(NextWorker(s, step)) || NextWorker(s, step).Gone?
  {
  }

  lemma WorkerLeavesOthers(s: State, step: Step)
    requires Enabled(s, step) && ByWorker(step)
    ensures var after := WorkerStep(s, step);
            && after.enqueuers == s.enqueuers && after.markers == s.markers
            && after.workers == s.workers[step.pid := NextWorker(s, step)]
  {
  }

  /** A worker's step ends its process only when the lock is refused to it by a live holder, when its recheck found the queue
      empty, or when it is the step's victim; and a victim's end changes no record. */
  lemma WorkerLeavesWhenDone(s: State, step: Step)
    requires Enabled(s, step) && ByWorker(step) && NextWorker(s, step).Gone?
    ensures (step.TryAcquire? && Refused(s)) || (step.Recheck? && QueuedJobs(s) == {}) || Victim(s, step) == Some(step.pid)
    ensures WorkerStep(s, step).records == s.records
  {
  }

  lemma OnlyVictimsAreLost(s: State, step: Step, job: JobId)
    requires Enabled(s, step) && ByWorker(step) && LockIsHeld(s) && !Loses(s, step, job)
    ensures WillBeSeen(WorkerStep(s, step), job)
  {
    WorkerLeavesOthers(s, step);
    var after := WorkerStep(s, step);
    if !NextWorker(s, step).Gone? {
      assert Alive(after, step.pid);
    } else {
      WorkerLeavesWhenDone(s, step);
      if step.TryAcquire? && Refused(s) {
        assert Holding(s.workers[s.lock.value]) && Alive(after, s.lock.value);
      } else if Victim(s, step).Some? && Unclaimed(s, job) {
        var other :| other in s.workers && other != step.pid && Alive(s, other);
        assert Alive(after, other);
      }
    }
  }

  lemma StaysUnclaimed(s: State, step: Step, job: JobId)
    requires Enabled(s, step) && !ByWorker(step) && (step.SessionWrites? ==> WriteOk(s, step.write))
    ensures Unclaimed(OutsideStep(s, step), job) ==> Unclaimed(s, job) || step.SpawnWorker?
    ensures Victim(s, step).Some? ==> OutsideStep(s, step).workers == s.workers[Victim(s, step).value := Gone]
    ensures Victim(s, step).None? && !step.SpawnWorker? ==> OutsideStep(s, step).workers == s.workers
  {
  }

  lemma SeenStaysOutside(s: State, step: Step, job: JobId)
    requires Enabled(s, step) && !ByWorker(step) && WillBeSeen(s, job) && !Loses(s, step, job)
    requires step.SessionWrites? ==> WriteOk(s, step.write)
    ensures WillBeSeen(OutsideStep(s, step), job)
  {
    var after := OutsideStep(s, step);
    OutsideWorkers(s, step);
    StaysUnclaimed(s, step, job);
    if step.SpawnWorker? {
      assert Alive(after, step.pid);
    } else if Victim(s, step).Some? {
      if Unclaimed(s, job) {
        var other :| other in s.workers && other != Victim(s, step).value && Alive(s, other);
        assert Alive(after, other);
      }
    } else if SomeoneActive(s) {
      var pid :| pid in s.workers && Alive(s, pid);
      assert Alive(after, pid);
    }
  }

  lemma LosingLeavesNobody(s: State, step: Step, job: JobId)
    requires Enabled(s, step) && Loses(s, step, job)
    ensures !WillBeSeen(Do(s, step), job)
  {
    var after, victim := Do(s, step), Victim(s, step).value;
    if ByWorker(step) {
      WorkerLeavesOthers(s, step);
      WorkerLeavesWhenDone(s, step);
    }
    forall pid ensures !Alive(after, pid) {
      assert pid in s.workers && pid != victim ==> !Alive(s, pid);
    }
  }

  /** A step loses a job's wakeup if and only if it ends the last live worker, by a kill, an unhandled signal or an escaping
      exception, while the job is queued and its enqueuer has spawned already. */
  lemma LosesExactlyTheLastWorker(s: State, step: Step, job: JobId)
    requires Inv(s) && LockIsHeld(s) && Enabled(s, step) && WillBeSeen(s, job)
    ensures !WillBeSeen(Do(s, step), job) <==> Loses(s, step, job)
  {
    if Loses(s, step, job) {
      LosingLeavesNobody(s, step, job);
    } else if ByWorker(step) {
      OnlyVictimsAreLost(s, step, job);
    } else {
      if step.SessionWrites? {
        assert WriteOk(s, step.write);
      }
      SeenStaysOutside(s, step, job);
    }
  }

  /** No step of the history ended the last worker over a job. */
  predicate Unbroken(steps: seq<Step>, job: JobId)
    requires Legal(steps)
  {
    |steps| == 0
    || (Unbroken(steps[..|steps| - 1], job) && !Loses(Reached(steps[..|steps| - 1]), steps[|steps| - 1], job))
  }

  /** As long as no step ends the last worker over it, every queued job in every reachable state is still going to be looked at:
      by the worker its own enqueuer is about to spawn, by one about to acquire, by the holder of the lock, or by one before
      its recheck. */
  lemma {:induction false} NoWakeupIsLost(steps: seq<Step>, job: JobId)
    requires Legal(steps) && Unbroken(steps, job)
    ensures LockIsHeld(Reached(steps)) && WillBeSeen(Reached(steps), job)
  {
    if |steps| > 0 {
      var before, step := steps[..|steps| - 1], steps[|steps| - 1];
      NoWakeupIsLost(before, job);
      ReachedIsSound(before);
      LockStaysHeld(Reached(before), step);
      LosesExactlyTheLastWorker(Reached(before), step, job);
    }
  }

  /** What a step does to its own worker, to the records and to the markers. */
  lemma OwnStep(s: State, step: Step)
    requires Enabled(s, step) && ByWorker(step)
    ensures var after, effect := Do(s, step), EffectOf(s, step);
            && step.pid in after.workers && after.workers[step.pid] == NextWorker(s, step) && after.markers == s.markers
            && after.records == if effect.WriteRecord? || effect.WriteLast? then s.records[effect.job := effect.record] else s.records
  {
    WorkerLeavesOthers(s, step);
    PerformWrites(Moved(s, step.pid, NextWorker(s, step)), EffectOf(s, step));
  }

  lemma PerformWrites(s: State, effect: Effect)
    ensures Perform(s, effect).records ==
            if effect.WriteRecord? || effect.WriteLast? then s.records[effect.job := effect.record] else s.records
  {
  }

  // ---- Cancellation is sticky -----------------------------------------------------------------------

  /** The marker stands and the post-claim check has not been passed without it. */
  predicate CancelledBeforeStart(s: State, job: JobId) {
    && job in s.markers && Starts(s, job) == 0
    && forall pid {:trigger s.workers[pid]} :: pid in s.workers ==> !(s.workers[pid].EnteringHarness? && s.workers[pid].job == job)
  }

  /** The marker stands, the final check has not been passed without it, and no other result was handed back. */
  predicate CancelledBeforeEnd(s: State, job: JobId) {
    && job in s.markers
    && (forall pid {:trigger s.workers[pid]} :: pid in s.workers ==> !(s.workers[pid].WritingFinal? && s.workers[pid].job == job))
    && (job in s.outcomes ==> s.outcomes[job] == Outcome(Cancelled, false))
  }

  lemma BeforeStartIsStable(s: State, step: Step, job: JobId)
    requires Enabled(s, step) && CancelledBeforeStart(s, job)
    ensures CancelledBeforeStart(Do(s, step), job)
  {
    if ByWorker(step) {
      WorkerStarts(s, step, job);
      WorkerStartCheck(s, step, job);
    } else {
      OutsideStarts(s, step);
      OutsideWorkers(s, step);
    }
  }

  lemma WorkerStartCheck(s: State, step: Step, job: JobId)
    requires Enabled(s, step) && ByWorker(step) && CancelledBeforeStart(s, job)
    ensures var after := WorkerStep(s, step);
            && after.markers == s.markers
            && forall pid :: pid in after.workers ==> !(after.workers[pid].EnteringHarness? && after.workers[pid].job == job)
  {
    NextIsNoEntry(s, step, job);
    WorkerLeavesOthers(s, step);
  }

  lemma NextIsNoEntry(s: State, step: Step, job: JobId)
    requires Enabled(s, step) && ByWorker(step) && job in s.markers
    requires !(s.workers[step.pid].EnteringHarness? && s.workers[step.pid].job == job)
    ensures var next := NextWorker(s, step); !(next.EnteringHarness? && next.job == job)
  {
  }

  lemma BeforeEndIsStable(s: State, step: Step, job: JobId)
    requires Inv(s) && Enabled(s, step) && CancelledBeforeEnd(s, job)
    ensures CancelledBeforeEnd(Do(s, step), job)
  {
    if ByWorker(step) {
      assert WorkerOk(s, step.pid);
      WorkerEndCheck(s, step, job);
    } else {
      OutsideStarts(s, step);
      OutsideWorkers(s, step);
    }
  }

  lemma WorkerEndCheck(s: State, step: Step, job: JobId)
    requires Enabled(s, step) && ByWorker(step) && WorkerOk(s, step.pid) && CancelledBeforeEnd(s, job)
    ensures CancelledBeforeEnd(WorkerStep(s, step), job)
  {
    var next, effect := NextWorker(s, step), EffectOf(s, step);
    assert !(next.WritingFinal? && next.job == job) by { NextIsNoFinal(s, step, job); }
    assert effect.WriteLast? && effect.job == job ==> effect.outcome == Outcome(Cancelled, false) by { LastIsCancelled(s, step, job); }
    PerformKeepsEnd(s, step.pid, next, effect, job);
  }

  lemma PerformKeepsEnd(s: State, pid: nat, next: Worker, effect: Effect, job: JobId)
    requires CancelledBeforeEnd(s, job) && !(next.WritingFinal? && next.job == job)
    requires effect.WriteLast? && effect.job == job ==> effect.outcome == Outcome(Cancelled, false)
    ensures CancelledBeforeEnd(Perform(Moved(s, pid, next), effect), job)
  {
  }

  lemma NextIsNoFinal(s: State, step: Step, job: JobId)
    requires Enabled(s, step) && ByWorker(step) && job in s.markers
    requires !(s.workers[step.pid].WritingFinal? && s.workers[step.pid].job == job)
    ensures var next := NextWorker(s, step); !(next.WritingFinal? && next.job == job)
  {
  }

  lemma LastIsCancelled(s: State, step: Step, job: JobId)
    requires Enabled(s, step) && ByWorker(step) && JobOk(s, s.workers[step.pid])
    requires !(s.workers[step.pid].WritingFinal? && s.workers[step.pid].job == job)
    ensures var effect := EffectOf(s, step); effect.WriteLast? && effect.job == job ==> effect.outcome == Outcome(Cancelled, false)
  {
  }

  /** A marker made before the post-claim check keeps the harness from ever running, in every future. */
  lemma {:induction false} MarkerStopsTheStart(steps: seq<Step>, moment: nat, job: JobId)
    requires Legal(steps) && moment <= |steps| && Legal(steps[..moment]) && CancelledBeforeStart(Reached(steps[..moment]), job)
    ensures Starts(Reached(steps), job) == 0 && CancelledBeforeStart(Reached(steps), job)
  {
    if moment == |steps| {
      assert steps[..moment] == steps;
    } else {
      var before := steps[..|steps| - 1];
      assert before[..moment] == steps[..moment];
      MarkerStopsTheStart(before, moment, job);
      BeforeStartIsStable(Reached(before), steps[|steps| - 1], job);
    }
  }

  /** A marker made before the final check makes whatever the worker hands back later a cancelled record and no success,
      whatever session writers did to the record in between. */
  lemma {:induction false} MarkerDecidesTheEnd(steps: seq<Step>, moment: nat, job: JobId)
    requires Legal(steps) && moment <= |steps| && Legal(steps[..moment]) && CancelledBeforeEnd(Reached(steps[..moment]), job)
    ensures var s := Reached(steps);
            CancelledBeforeEnd(s, job) && (job in s.outcomes ==> s.outcomes[job] == Outcome(Cancelled, false))
  {
    if moment == |steps| {
      assert steps[..moment] == steps;
    } else {
      var before := steps[..|steps| - 1];
      assert before[..moment] == steps[..moment];
      MarkerDecidesTheEnd(before, moment, job);
      ReachedIsSound(before);
      BeforeEndIsStable(Reached(before), steps[|steps| - 1], job);
    }
  }
}
