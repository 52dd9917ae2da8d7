/** What can go wrong in the archived job protocol, as histories that reach it: a cancelled job that ends failed,
    and an ordinary cancel that loses the wakeup of another job. */
module JobFailures {
  import opened Outcomes
  import opened JobRecords
  import opened JobProtocol
  import opened JobRest

  lemma {:induction false} Extended(steps: seq<Step>, step: Step)
    requires Legal(steps) && Enabled(Reached(steps), step)
    ensures Legal(steps + [step]) && Reached(steps + [step]) == Do(Reached(steps), step)
  {
    assert (steps + [step])[..|steps|] == steps;
  }

  /** Steps that can be taken one after the other, and where they lead. */
  predicate Possible(s: State, steps: seq<Step>)
    decreases |steps|
  {
    steps == [] || (Enabled(s, steps[0]) && Possible(Do(s, steps[0]), steps[1..]))
  }

  function Ran(s: State, steps: seq<Step>): State
    requires Possible(s, steps)
    decreases |steps|
  {
    if steps == [] then s else Ran(Do(s, steps[0]), steps[1..])
  }

  lemma {:induction false} RanFirst(s: State, step: Step, rest: seq<Step>)
    requires Enabled(s, step) && Possible(Do(s, step), rest)
    ensures Possible(s, [step] + rest) && Ran(s, [step] + rest) == Ran(Do(s, step), rest)
  {
    assert ([step] + rest)[1..] == rest;
  }

  /** The steps of a worker that cannot read the spec of the job it has taken up. */
  function Failing(pid: nat, at: int, error: string): seq<Step> {
    [Throw(pid, error)] + ([ReadForFailure(pid, at, error)] + ([WriteFailure(pid)] + []))
  }

  /** The steps of a worker that can, and finds the marker before its claim. */
  function Cancelling(pid: nat, at: int): seq<Step> {
    [SpecRead(pid)] + ([Claim(pid)] + ([ReadForCheck(pid)] + ([TestMarker(pid, at)] + ([WriteCancelled(pid)] + []))))
  }

  /** A marked job that a worker has taken up and still finds queued. */
  predicate MarkedAndQueued(s: State, job: JobId) {
    job in s.markers && job in QueuedJobs(s)
  }

  /** Undisturbed, a worker that has taken up a marked job ends it failed when it cannot read the spec: then neither the marker nor
      the record is asked. */
  lemma {:induction false} UnreadableSpecFails(s: State, pid: nat, at: int, error: string)
    requires pid in s.workers && s.workers[pid].ReadingSpec? && MarkedAndQueued(s, s.workers[pid].job)
    ensures Possible(s, Failing(pid, at, error))
    ensures var job, after := s.workers[pid].job, Ran(s, Failing(pid, at, error));
            job in after.markers && job in after.records && after.records[job].status == Failed
  {
    OwnStep(s, Throw(pid, error));
    QueuedJobIsFailed(Do(s, Throw(pid, error)), pid, s.workers[pid].job, at, error);
    RanFirst(s, Throw(pid, error), [ReadForFailure(pid, at, error)] + ([WriteFailure(pid)] + []));
  }

  lemma {:induction false} QueuedJobIsFailed(s: State, pid: nat, job: JobId, at: int, error: string)
    requires pid in s.workers && s.workers[pid] == FailRead(job) && MarkedAndQueued(s, job)
    ensures var steps := [ReadForFailure(pid, at, error)] + ([WriteFailure(pid)] + []);
            && Possible(s, steps)
            && var after := Ran(s, steps); job in after.markers && job in after.records && after.records[job].status == Failed
  {
    var failing := Do(s, ReadForFailure(pid, at, error));
    OwnStep(s, ReadForFailure(pid, at, error));
    OwnStep(failing, WriteFailure(pid));
    RanFirst(failing, WriteFailure(pid), []);
    RanFirst(s, ReadForFailure(pid, at, error), [WriteFailure(pid)] + []);
  }

  /** And ends it cancelled when it can. */
  lemma {:induction false} ReadableSpecCancels(s: State, pid: nat, at: int)
    requires pid in s.workers && s.workers[pid].ReadingSpec? && MarkedAndQueued(s, s.workers[pid].job)
    ensures Possible(s, Cancelling(pid, at))
    ensures var job, after := s.workers[pid].job, Ran(s, Cancelling(pid, at));
            job in after.markers && job in after.records && after.records[job].status == Cancelled
  {
    var job := s.workers[pid].job;
    var claiming := Do(s, SpecRead(pid));
    OwnStep(s, SpecRead(pid));
    var reading := Do(claiming, Claim(pid));
    OwnStep(claiming, Claim(pid));
    MarkedCheckCancels(reading, pid, job, reading.records[job], at);
    RanFirst(claiming, Claim(pid), [ReadForCheck(pid)] + ([TestMarker(pid, at)] + ([WriteCancelled(pid)] + [])));
    RanFirst(s, SpecRead(pid), [Claim(pid)] + ([ReadForCheck(pid)] + ([TestMarker(pid, at)] + ([WriteCancelled(pid)] + []))));
  }

  lemma {:induction false} MarkedCheckCancels(s: State, pid: nat, job: JobId, fallback: JobRecord, at: int)
    requires pid in s.workers && s.workers[pid] == CheckRead(job, BeforeClaim, fallback) && job in s.markers && job in s.records
    ensures var steps := [ReadForCheck(pid)] + ([TestMarker(pid, at)] + ([WriteCancelled(pid)] + []));
            && Possible(s, steps)
            && var after := Ran(s, steps); job in after.markers && job in after.records && after.records[job].status == Cancelled
  {
    var testing := Do(s, ReadForCheck(pid));
    OwnStep(s, ReadForCheck(pid));
    var writing := Do(testing, TestMarker(pid, at));
    OwnStep(testing, TestMarker(pid, at));
    OwnStep(writing, WriteCancelled(pid));
    RanFirst(writing, WriteCancelled(pid), []);
    RanFirst(testing, TestMarker(pid, at), [WriteCancelled(pid)] + []);
    RanFirst(s, ReadForCheck(pid), [TestMarker(pid, at)] + ([WriteCancelled(pid)] + []));
  }

  /** One job, taken up by the one worker, which reads its spec next. */
  predicate TakenUp(s: State, job: JobId, at: int, pid: nat) {
    && s.records == map[job := QueuedRecord(job, at)] && s.workers == map[pid := ReadingSpec(job)] && s.lock == Some(pid)
    && s.enqueuers == map[] && s.cancellers == map[] && s.markers == {} && s.starts == map[] && s.outcomes == map[]
  }

  lemma TakesUp(job: JobId, at: int, pid: nat) returns (steps: seq<Step>)
    requires pid > 0
    ensures Legal(steps) && TakenUp(Reached(steps), job, at, pid)
  {
    steps := [];
    Extended(steps, Enqueue(job, at));
    steps := steps + [Enqueue(job, at)];
    Extended(steps, SpawnWorker(job, pid));
    steps := steps + [SpawnWorker(job, pid)];
    Extended(steps, TryAcquire(pid));
    steps := steps + [TryAcquire(pid)];
    Extended(steps, Scan(pid, Some(job)));
    steps := steps + [Scan(pid, Some(job))];
  }

  /** A cancelled job can end failed: its spec cannot be read, and between the read and the write of `markQueuedJobFailed` the
      canceller marks it and writes it cancelled. */
  lemma CancelledJobEndsFailed(job: JobId, at: int, pid: nat, error: string) returns (steps: seq<Step>)
    requires pid > 0
    ensures Legal(steps)
    ensures var s := Reached(steps);
            s.cancellers == map[] && job in s.markers && job in s.records && s.records[job].status == Failed
  {
    steps := FailureIsRead(job, at, pid, error);
    steps := CancelsQueued(job, at, steps);
    Extended(steps, WriteFailure(pid));
    OwnStep(Reached(steps), WriteFailure(pid));
    steps := steps + [WriteFailure(pid)];
  }

  lemma FailureIsRead(job: JobId, at: int, pid: nat, error: string) returns (steps: seq<Step>)
    requires pid > 0
    ensures Legal(steps)
    ensures var s, queued := Reached(steps), QueuedRecord(job, at);
            && s.workers == map[pid := FailWrite(job, FailedRecord(queued, at, error))] && s.cancellers == map[0 := Marking(job, queued)]
  {
    steps := TakesUp(job, at, pid);
    Extended(steps, CancelReads(0, job));
    steps := steps + [CancelReads(0, job)];
    assert Reached(steps).workers == map[pid := ReadingSpec(job)] && Reached(steps).records == map[job := QueuedRecord(job, at)];
    Extended(steps, Throw(pid, error));
    steps := steps + [Throw(pid, error)];
    assert Reached(steps).workers == map[pid := FailRead(job)];
    Extended(steps, ReadForFailure(pid, at, error));
    steps := steps + [ReadForFailure(pid, at, error)];
  }

  lemma CancelsQueued(job: JobId, at: int, before: seq<Step>) returns (steps: seq<Step>)
    requires Legal(before)
    requires var s := Reached(before); s.cancellers == map[0 := Marking(job, QueuedRecord(job, at))]
    ensures Legal(steps)
    ensures var s, after := Reached(before), Reached(steps);
            && after.cancellers == map[] && after.markers == s.markers + {job} && after.workers == s.workers
            && job in after.records && after.records[job].status == Cancelled
  {
    steps := before;
    Extended(steps, CancelMarks(0));
    steps := steps + [CancelMarks(0)];
    Extended(steps, CancelSignals(0, false));
    steps := steps + [CancelSignals(0, false)];
    Extended(steps, CancelWrites(0, at));
    steps := steps + [CancelWrites(0, at)];
  }

  /** The claim is written: the record carries the worker's process, and its harness has not started. */
  predicate JustClaimed(s: State, job: JobId, at: int, pid: nat) {
    var running := RunningRecord(QueuedRecord(job, at), pid, at);
    && s.records == map[job := running] && s.workers == map[pid := CheckRead(job, AfterClaim, running)] && s.lock == Some(pid)
    && s.enqueuers == map[] && s.cancellers == map[] && s.markers == {} && s.starts == map[] && s.outcomes == map[]
  }

  lemma Claims(job: JobId, at: int, pid: nat) returns (steps: seq<Step>)
    requires pid > 0
    ensures Legal(steps) && JustClaimed(Reached(steps), job, at, pid)
  {
    steps := Checks(job, at, pid);
    Extended(steps, ReadForCheck(pid));
    steps := steps + [ReadForCheck(pid)];
    Extended(steps, TestMarker(pid, at));
    steps := steps + [TestMarker(pid, at)];
    Extended(steps, WriteRunning(pid));
    steps := steps + [WriteRunning(pid)];
  }

  lemma Checks(job: JobId, at: int, pid: nat) returns (steps: seq<Step>)
    requires pid > 0
    ensures Legal(steps)
    ensures var s, queued := Reached(steps), QueuedRecord(job, at);
            && s.records == map[job := queued] && s.workers == map[pid := CheckRead(job, BeforeClaim, queued)] && s.lock == Some(pid)
            && s.enqueuers == map[] && s.cancellers == map[] && s.markers == {} && s.starts == map[] && s.outcomes == map[]
  {
    steps := TakesUp(job, at, pid);
    Extended(steps, SpecRead(pid));
    steps := steps + [SpecRead(pid)];
    Extended(steps, Claim(pid));
    steps := steps + [Claim(pid)];
  }

  /** An ordinary cancel loses the wakeup of another job: it reads a job that is claimed but not yet in its harness, a second job
      is queued and its worker refused the lock, and the signal ends the first worker. */
  lemma CancelLosesAWakeup(job: JobId, other: JobId, at: int, pid: nat, second: nat) returns (steps: seq<Step>)
    requires job != other && pid > 0 && second > 0 && pid != second
    ensures Legal(steps) && !WillBeSeen(Reached(steps), other)
  {
    steps := ClaimedIsMarked(job, at, pid);
    steps := OtherIsRefused(job, other, at, pid, second, steps);
    var s := Reached(steps);
    assert Target(s, 0) == Some(pid);
    Extended(steps, CancelSignals(0, false));
    LosingLeavesNobody(s, CancelSignals(0, false), other);
    steps := steps + [CancelSignals(0, false)];
  }

  lemma ClaimedIsMarked(job: JobId, at: int, pid: nat) returns (steps: seq<Step>)
    requires pid > 0
    ensures Legal(steps)
    ensures var s, running := Reached(steps), RunningRecord(QueuedRecord(job, at), pid, at);
            && s.workers == map[pid := CheckRead(job, AfterClaim, running)] && s.lock == Some(pid)
            && s.records == map[job := running] && s.cancellers == map[0 := Signalling(job, running)] && s.markers == {job}
            && s.enqueuers == map[] && s.starts == map[] && s.outcomes == map[]
  {
    steps := Claims(job, at, pid);
    Extended(steps, CancelReads(0, job));
    steps := steps + [CancelReads(0, job)];
    Extended(steps, CancelMarks(0));
    steps := steps + [CancelMarks(0)];
  }

  lemma OtherIsRefused(job: JobId, other: JobId, at: int, pid: nat, second: nat, before: seq<Step>) returns (steps: seq<Step>)
    requires Legal(before) && pid > 0 && second > 0 && pid != second
    requires var s := Reached(before);
             && s.workers.Keys == {pid} && !s.workers[pid].Gone? && s.lock == Some(pid) && s.enqueuers == map[]
             && other !in s.records && other !in s.starts && other !in s.outcomes && other !in s.markers
    ensures Legal(steps)
    ensures var s, after := Reached(before), Reached(steps);
            && after.workers == s.workers[second := Gone] && after.cancellers == s.cancellers && Unclaimed(after, other)
  {
    steps := before;
    Extended(steps, Enqueue(other, at));
    steps := steps + [Enqueue(other, at)];
    Extended(steps, SpawnWorker(other, second));
    steps := steps + [SpawnWorker(other, second)];
    Extended(steps, TryAcquire(second));
    steps := steps + [TryAcquire(second)];
  }

  // ---- A spawn that fails after the cancellation ------------------------------------------------------

  /** A worker spawned for another job has taken up this one, whose own enqueuer has not spawned yet. */
  predicate TakenUpEarly(s: State, job: JobId, other: JobId, at: int, pid: nat) {
    && s.records == map[other := QueuedRecord(other, at), job := QueuedRecord(job, at)] && s.workers == map[pid := ReadingSpec(job)]
    && s.enqueuers == map[job := QueuedRecord(job, at)] && s.cancellers == map[] && s.markers == {} && s.writes == map[]
  }

  lemma BothQueued(job: JobId, other: JobId, at: int, pid: nat) returns (steps: seq<Step>)
    requires job != other && pid > 0
    ensures Legal(steps)
    ensures var s := Reached(steps);
            && s.records == map[other := QueuedRecord(other, at), job := QueuedRecord(job, at)] && s.workers == map[pid := Spawned]
            && s.enqueuers == map[job := QueuedRecord(job, at)] && s.cancellers == map[] && s.markers == {} && s.writes == map[]
            && s.lock == None
  {
    steps := [];
    Extended(steps, Enqueue(other, at));
    steps := steps + [Enqueue(other, at)];
    Extended(steps, SpawnWorker(other, pid));
    steps := steps + [SpawnWorker(other, pid)];
    Extended(steps, Enqueue(job, at));
    steps := steps + [Enqueue(job, at)];
  }

  lemma SameAgeIsOldest(s: State, job: JobId, other: JobId, at: int)
    requires s.records == map[other := QueuedRecord(other, at), job := QueuedRecord(job, at)]
    ensures OldestQueued(s, job)
  {
  }

  lemma AcquiresEarly(job: JobId, other: JobId, at: int, pid: nat) returns (steps: seq<Step>)
    requires job != other && pid > 0
    ensures Legal(steps)
    ensures var s := Reached(steps);
            && s.records == map[other := QueuedRecord(other, at), job := QueuedRecord(job, at)] && s.workers == map[pid := Scanning]
            && s.enqueuers == map[job := QueuedRecord(job, at)] && s.cancellers == map[] && s.markers == {} && s.writes == map[]
  {
    steps := BothQueued(job, other, at, pid);
    Extended(steps, TryAcquire(pid));
    steps := steps + [TryAcquire(pid)];
  }

  lemma TakesUpEarly(job: JobId, other: JobId, at: int, pid: nat) returns (steps: seq<Step>)
    requires job != other && pid > 0
    ensures Legal(steps) && TakenUpEarly(Reached(steps), job, other, at, pid)
  {
    steps := AcquiresEarly(job, other, at, pid);
    SameAgeIsOldest(Reached(steps), job, other, at);
    Extended(steps, Scan(pid, Some(job)));
    steps := steps + [Scan(pid, Some(job))];
  }

  /** The canceller has read and marked the queued job. */
  predicate MarkedEarly(s: State, job: JobId, at: int, pid: nat, w: Worker) {
    && job in s.records && s.records[job] == QueuedRecord(job, at) && s.workers == map[pid := w]
    && s.enqueuers == map[job := QueuedRecord(job, at)] && s.cancellers == map[0 := Signalling(job, QueuedRecord(job, at))]
    && s.markers == {job} && s.writes == map[]
  }

  lemma MarksEarly(job: JobId, other: JobId, at: int, pid: nat) returns (steps: seq<Step>)
    requires job != other && pid > 0
    ensures Legal(steps) && MarkedEarly(Reached(steps), job, at, pid, ReadingSpec(job))
  {
    steps := TakesUpEarly(job, other, at, pid);
    Extended(steps, CancelReads(0, job));
    steps := steps + [CancelReads(0, job)];
    Extended(steps, CancelMarks(0));
    steps := steps + [CancelMarks(0)];
  }

  lemma ChecksEarly(job: JobId, at: int, pid: nat, before: seq<Step>) returns (steps: seq<Step>)
    requires Legal(before) && MarkedEarly(Reached(before), job, at, pid, ReadingSpec(job))
    ensures Legal(steps)
    ensures var queued := QueuedRecord(job, at);
            MarkedEarly(Reached(steps), job, at, pid, CheckMarker(job, BeforeClaim, queued, Some(queued)))
  {
    steps := before;
    Extended(steps, SpecRead(pid));
    steps := steps + [SpecRead(pid)];
    Extended(steps, Claim(pid));
    steps := steps + [Claim(pid)];
    Extended(steps, ReadForCheck(pid));
    steps := steps + [ReadForCheck(pid)];
  }

  lemma TestsEarly(job: JobId, at: int, pid: nat, before: seq<Step>) returns (steps: seq<Step>)
    requires Legal(before)
    requires var queued := QueuedRecord(job, at);
             MarkedEarly(Reached(before), job, at, pid, CheckMarker(job, BeforeClaim, queued, Some(queued)))
    ensures Legal(steps)
    ensures var queued := QueuedRecord(job, at);
            MarkedEarly(Reached(steps), job, at, pid, WritingCancelled(job, BeforeClaim, queued, CancelledRecord(queued, at)))
  {
    steps := before;
    Extended(steps, TestMarker(pid, at));
    steps := steps + [TestMarker(pid, at)];
  }

  /** The worker has written the job cancelled and left it. */
  predicate CancelledEarly(s: State, job: JobId, at: int, pid: nat) {
    && job in s.records && s.records[job].status == Cancelled && s.workers == map[pid := Scanning]
    && s.enqueuers == map[job := QueuedRecord(job, at)] && s.cancellers == map[0 := Signalling(job, QueuedRecord(job, at))]
    && s.markers == {job} && s.writes == map[] && job in s.outcomes && s.outcomes[job] == Outcome(Cancelled, false)
  }

  lemma CancelsEarly(job: JobId, other: JobId, at: int, pid: nat) returns (steps: seq<Step>)
    requires job != other && pid > 0
    ensures Legal(steps) && CancelledEarly(Reached(steps), job, at, pid)
  {
    steps := MarksEarly(job, other, at, pid);
    steps := ChecksEarly(job, at, pid, steps);
    steps := TestsEarly(job, at, pid, steps);
    WritesEarly(Reached(steps), job, at, pid);
    Extended(steps, WriteCancelled(pid));
    steps := steps + [WriteCancelled(pid)];
  }

  lemma WritesEarly(s: State, job: JobId, at: int, pid: nat)
    requires var queued := QueuedRecord(job, at);
             MarkedEarly(s, job, at, pid, WritingCancelled(job, BeforeClaim, queued, CancelledRecord(queued, at)))
    ensures Enabled(s, WriteCancelled(pid)) && CancelledEarly(Do(s, WriteCancelled(pid)), job, at, pid)
  {
  }

  /** A cancelled job with a readable spec can end failed as well: a worker spawned for another job takes it up, finds the marker and
      writes it cancelled, the canceller does too, and then the spawn for the job itself fails. Nobody is left on it. */
  lemma FailedSpawnOverwritesCancelled(job: JobId, other: JobId, at: int, pid: nat, error: string) returns (steps: seq<Step>)
    requires job != other && pid > 0
    ensures Legal(steps)
    ensures var s := Reached(steps);
            && job in s.markers && job in s.outcomes && s.outcomes[job] == Outcome(Cancelled, false) && AtRest(s, job)
            && job in s.records && s.records[job].status == Failed
  {
    steps := CancelsEarly(job, other, at, pid);
    Extended(steps, CancelSignals(0, false));
    steps := steps + [CancelSignals(0, false)];
    Extended(steps, CancelWrites(0, at));
    steps := steps + [CancelWrites(0, at)];
    Extended(steps, SpawnThrows(job, at, error));
    steps := steps + [SpawnThrows(job, at, error)];
  }
}
