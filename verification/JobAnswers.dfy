/** What the interleaved protocol writes where nobody disturbs it: how a result, a failure, a session and a cancellation end up in the record. */
module JobAnswers {
  import opened Outcomes
  import opened JobRecords
  import opened JobProtocol
  import opened JobRest
  import opened JobFailures

  /** From the moment a worker has its answer to its last write. */
  function Finishing(pid: nat, at: int): seq<Step> {
    [WritesSettle(pid)] + ([ReadForCheck(pid)] + ([TestMarker(pid, at)] + ([WriteFinal(pid)] + [])))
  }

  /** Nobody has cancelled the job, and no session is still being written. */
  predicate Undisturbed(s: State, job: JobId) {
    Settled(s, job) && job in s.records && s.records[job].status != Cancelled && job !in s.markers
  }

  lemma Settles(s: State, pid: nat)
    requires pid in s.workers && s.workers[pid].AwaitingWrites? && Settled(s, s.workers[pid].job)
    ensures var w, step := s.workers[pid], WritesSettle(pid);
            Enabled(s, step) && Do(s, step) == s.(workers := s.workers[pid := CheckRead(w.job, Final(w.result, w.retried), w.running)])
  {
  }

  lemma Reads(s: State, pid: nat)
    requires pid in s.workers && s.workers[pid].CheckRead? && s.workers[pid].job in s.records
    ensures var w, step := s.workers[pid], ReadForCheck(pid);
            Enabled(s, step)
            && Do(s, step) == s.(workers := s.workers[pid := CheckMarker(w.job, w.stage, w.fallback, Some(s.records[w.job]))])
  {
  }

  /** What an undisturbed end makes of the record. */
  predicate Ends(record: JobRecord, was: JobRecord, result: HarnessResult, at: int) {
    && record.status == (if result.success then Done else Failed)
    && record.summary == result.summary && record.error == result.error && record.finishedAt == Some(at)
    && record.providerSessionId == (if result.providerSessionId.Some? then result.providerSessionId else was.providerSessionId)
    && record.id == was.id && record.pid == was.pid && record.startedAt == was.startedAt
  }

  lemma Tests(s: State, pid: nat, at: int)
    requires pid in s.workers && s.workers[pid].CheckMarker? && s.workers[pid].stage.Final? && s.workers[pid].current.Some?
    requires s.workers[pid].current.value.status != Cancelled && s.workers[pid].job !in s.markers
    ensures var w, step := s.workers[pid], TestMarker(pid, at);
            && Enabled(s, step) && pid in Do(s, step).workers
            && var w' := Do(s, step).workers[pid];
               && w'.WritingFinal? && w'.job == w.job && w'.result == w.stage.result && w'.retried == w.stage.retried
               && Ends(w'.record, w.current.value, w.stage.result, at)
               && Do(s, step) == s.(workers := s.workers[pid := w'])
  {
  }

  lemma Writes(s: State, pid: nat)
    requires pid in s.workers && s.workers[pid].WritingFinal? && s.workers[pid].record.status != Cancelled
    ensures var w, step := s.workers[pid], WriteFinal(pid);
            && Enabled(s, step)
            && Do(s, step) == s.(workers := s.workers[pid := Scanning], records := s.records[w.job := w.record],
                                 outcomes := s.outcomes[w.job := Outcome(w.record.status, w.result.success)])
  {
  }

  lemma LastStays(workers: map<nat, Worker>, pid: nat, earlier: Worker, later: Worker)
    ensures workers[pid := earlier][pid := later] == workers[pid := later]
  {
  }

  lemma {:induction false} Chained(s: State, a: Step, b: Step, c: Step, d: Step)
    requires Enabled(s, a)
    requires Enabled(Do(s, a), b)
    requires Enabled(Do(Do(s, a), b), c)
    requires Enabled(Do(Do(Do(s, a), b), c), d)
    ensures var steps := [a] + ([b] + ([c] + ([d] + [])));
            Possible(s, steps) && Ran(s, steps) == Do(Do(Do(Do(s, a), b), c), d)
  {
    RanFirst(Do(Do(Do(s, a), b), c), d, []);
    RanFirst(Do(Do(s, a), b), c, [d] + []);
    RanFirst(Do(s, a), b, [c] + ([d] + []));
    RanFirst(s, a, [b] + ([c] + ([d] + [])));
  }

  /** An undisturbed worker writes what its harness answered, and reports success exactly when the harness did. */
  lemma {:induction false} ResultIsWritten(s: State, pid: nat, at: int)
    requires pid in s.workers && s.workers[pid].AwaitingWrites? && Undisturbed(s, s.workers[pid].job)
    ensures Possible(s, Finishing(pid, at))
    ensures var w, after := s.workers[pid], Ran(s, Finishing(pid, at));
            && w.job in after.records && Ends(after.records[w.job], s.records[w.job], w.result, at)
            && after == s.(records := s.records[w.job := after.records[w.job]], workers := s.workers[pid := Scanning],
                           outcomes := s.outcomes[w.job := Outcome(after.records[w.job].status, w.result.success)])
  {
    var checking := Do(s, WritesSettle(pid));
    Settles(s, pid);
    var testing := Do(checking, ReadForCheck(pid));
    Reads(checking, pid);
    LastStays(s.workers, pid, checking.workers[pid], testing.workers[pid]);
    var writing := Do(testing, TestMarker(pid, at));
    Tests(testing, pid, at);
    LastStays(s.workers, pid, testing.workers[pid], writing.workers[pid]);
    Writes(writing, pid);
    LastStays(s.workers, pid, writing.workers[pid], Scanning);
    Chained(s, WritesSettle(pid), ReadForCheck(pid), TestMarker(pid, at), WriteFinal(pid));
  }

  /** A worker between its claim and its last write, none of whose failures has been caught yet. */
  predicate CatchesOnce(w: Worker) {
    w.EnteringHarness? || (w.AwaitingWrites? && !w.retried) || (w.WritingFinal? && !w.retried)
  }

  lemma FailureIsCaught(s: State, pid: nat, error: string)
    requires pid in s.workers && CatchesOnce(s.workers[pid])
    ensures Enabled(s, Throw(pid, error)) && pid in Do(s, Throw(pid, error)).workers
    ensures var w, caught := s.workers[pid], Do(s, Throw(pid, error));
            var w' := caught.workers[pid];
            && caught == s.(workers := s.workers[pid := w']) && w'.AwaitingWrites? && w'.job == w.job
            && w'.result == HarnessResult(false, Some(error), None, None)
  {
  }

  /** A first failure there ends the job failed, with the error and no success. */
  lemma {:induction false} FirstThrowFailsTheJob(s: State, pid: nat, at: int, error: string)
    requires pid in s.workers && CatchesOnce(s.workers[pid]) && Undisturbed(s, s.workers[pid].job)
    ensures Possible(s, [Throw(pid, error)] + Finishing(pid, at))
    ensures var job, after := s.workers[pid].job, Ran(s, [Throw(pid, error)] + Finishing(pid, at));
            && job in after.records && after.records[job].status == Failed && after.records[job].error == Some(error)
            && after.records[job].summary.None? && after.records[job].finishedAt == Some(at)
            && after.outcomes == s.outcomes[job := Outcome(Failed, false)]
            && after.workers == s.workers[pid := Scanning]
  {
    var caught := Do(s, Throw(pid, error));
    FailureIsCaught(s, pid, error);
    ResultIsWritten(caught, pid, at);
    LastStays(s.workers, pid, caught.workers[pid], Scanning);
    RanFirst(s, Throw(pid, error), Finishing(pid, at));
  }

  /** A second one is left to the drain, which fails queued jobs only: the record of a claimed job stays as it is. */
  lemma {:induction false} SecondThrowWritesNothing(s: State, pid: nat, at: int, first: string, second: string)
    requires pid in s.workers && (s.workers[pid].AwaitingWrites? || s.workers[pid].WritingFinal?) && s.workers[pid].retried
    requires s.workers[pid].job in s.records && s.records[s.workers[pid].job].status != Queued
    ensures var steps := [Throw(pid, first)] + ([ReadForFailure(pid, at, second)] + []);
            && Possible(s, steps)
            && Ran(s, steps) == s.(workers := s.workers[pid := Scanning])
  {
    var failing := Do(s, Throw(pid, first));
    OwnStep(s, Throw(pid, first));
    OwnStep(failing, ReadForFailure(pid, at, second));
    RanFirst(failing, ReadForFailure(pid, at, second), []);
    RanFirst(s, Throw(pid, first), [ReadForFailure(pid, at, second)] + []);
    assert s.workers[pid := FailRead(s.workers[pid].job)][pid := Scanning] == s.workers[pid := Scanning];
  }

  /** The first session to be written stays: a later one is dropped, and the first changes nothing else of the record it read. */
  lemma {:induction false} FirstSessionStays(s: State, write: nat)
    requires write in s.writes && s.writes[write].Reading?
    ensures var r := s.writes[write];
            var was := if r.job in s.records then s.records[r.job] else r.fallback;
            && (was.providerSessionId.Some? ==> Do(s, SessionReads(write)) == s.(writes := s.writes - {write}))
            && (was.providerSessionId.None? ==>
                  var steps := [SessionReads(write)] + ([SessionWrites(write)] + []);
                  && Possible(s, steps)
                  && Ran(s, steps).records == s.records[r.job := was.(providerSessionId := Some(r.sessionId))]
                  && Ran(s, steps).writes == s.writes - {write})
  {
    var reading := Do(s, SessionReads(write));
    if write in reading.writes {
      RanFirst(reading, SessionWrites(write), []);
      RanFirst(s, SessionReads(write), [SessionWrites(write)] + []);
    }
  }

  function CancellingIt(canceller: nat, job: JobId, handled: bool, at: int): seq<Step> {
    [CancelReads(canceller, job)] + ([CancelMarks(canceller)] + ([CancelSignals(canceller, handled)] + ([CancelWrites(canceller, at)] + [])))
  }

  lemma CancelIsMarked(s: State, canceller: nat, job: JobId)
    requires canceller !in s.cancellers && job in s.records && !Ended(s.records[job].status)
    ensures var read, mark := CancelReads(canceller, job), CancelMarks(canceller);
            && Enabled(s, read) && Enabled(Do(s, read), mark)
            && Do(Do(s, read), mark) == s.(markers := s.markers + {job},
                                           cancellers := s.cancellers[canceller := Signalling(job, s.records[job])])
  {
    var read := Do(s, CancelReads(canceller, job));
    assert read == s.(cancellers := s.cancellers[canceller := Marking(job, s.records[job])]);
    assert read.cancellers[canceller := Signalling(job, s.records[job])] == s.cancellers[canceller := Signalling(job, s.records[job])];
  }

  lemma CancelIsSignalled(s: State, canceller: nat, handled: bool)
    requires canceller in s.cancellers && s.cancellers[canceller].Signalling?
    requires var pid := s.cancellers[canceller].record.pid; handled ==> pid > 0 && pid in s.workers && s.workers[pid].InHarness?
    ensures var c, step := s.cancellers[canceller], CancelSignals(canceller, handled);
            var signalled := c.record.pid > 0 && c.record.pid in s.workers && !s.workers[c.record.pid].Gone?;
            && Enabled(s, step)
            && Do(s, step) == s.(cancellers := s.cancellers[canceller := Overwriting(c.job, c.record)],
                                 workers := if signalled && !handled then s.workers[c.record.pid := Gone] else s.workers)
  {
  }

  lemma CancelIsWritten(s: State, canceller: nat, at: int)
    requires canceller in s.cancellers && s.cancellers[canceller].Overwriting?
    ensures var c, step := s.cancellers[canceller], CancelWrites(canceller, at);
            && Enabled(s, step) && c.job in Do(s, step).records
            && var record := Do(s, step).records[c.job];
               && CancelledOver(record, c.record, at)
               && Do(s, step) == s.(cancellers := s.cancellers - {canceller}, records := s.records[c.job := record])
  {
  }

  /** The signal and the record, one after the other. */
  lemma SignalAndRecord(s: State, canceller: nat, handled: bool, at: int)
    requires canceller in s.cancellers && s.cancellers[canceller].Signalling?
    requires var pid := s.cancellers[canceller].record.pid; handled ==> pid > 0 && pid in s.workers && s.workers[pid].InHarness?
    ensures var c, signal, write := s.cancellers[canceller], CancelSignals(canceller, handled), CancelWrites(canceller, at);
            var pid := c.record.pid;
            && Enabled(s, signal) && Enabled(Do(s, signal), write)
            && var after := Do(Do(s, signal), write);
               && c.job in after.records && CancelledOver(after.records[c.job], c.record, at)
               && after == s.(cancellers := s.cancellers - {canceller}, records := s.records[c.job := after.records[c.job]],
                              workers := if pid > 0 && pid in s.workers && !s.workers[pid].Gone? && !handled then s.workers[pid := Gone]
                                         else s.workers)
  {
    CancelIsSignalled(s, canceller, handled);
    var overwriting := Do(s, CancelSignals(canceller, handled));
    CancelIsWritten(overwriting, canceller, at);
    assert overwriting.cancellers - {canceller} == s.cancellers - {canceller};
  }

  predicate CancelledOver(record: JobRecord, was: JobRecord, at: int) {
    && record.status == Cancelled && record.finishedAt == Some(at) && record.error.None? && record.summary.None?
    && record.providerSessionId == was.providerSessionId
  }

  /** A job that has ended is not cancelled any more. */
  lemma EndedIsLeftAlone(s: State, canceller: nat, job: JobId)
    requires canceller !in s.cancellers && job in s.records && Ended(s.records[job].status)
    ensures Do(s, CancelReads(canceller, job)) == s
  {
  }

  /** What a cancellation that was not disturbed leaves behind. */
  predicate LeftByCancel(after: State, s: State, job: JobId, handled: bool, at: int)
    requires job in s.records
  {
    var pid := s.records[job].pid;
    && job in after.records && CancelledOver(after.records[job], s.records[job], at)
    && after.records == s.records[job := after.records[job]] && after.markers == s.markers + {job}
    && after.workers == (if pid > 0 && pid in s.workers && !s.workers[pid].Gone? && !handled then s.workers[pid := Gone] else s.workers)
    && after.cancellers == s.cancellers && after.lock == s.lock && after.writes == s.writes && after.starts == s.starts
    && after.enqueuers == s.enqueuers && after.outcomes == s.outcomes
  }

  lemma CancelLeaves(s: State, marked: State, canceller: nat, job: JobId, handled: bool, at: int)
    requires canceller !in s.cancellers && job in s.records
    requires var pid := s.records[job].pid; handled ==> pid > 0 && pid in s.workers && s.workers[pid].InHarness?
    requires marked == s.(markers := s.markers + {job}, cancellers := s.cancellers[canceller := Signalling(job, s.records[job])])
    ensures var signal, write := CancelSignals(canceller, handled), CancelWrites(canceller, at);
            && Enabled(marked, signal) && Enabled(Do(marked, signal), write)
            && LeftByCancel(Do(Do(marked, signal), write), s, job, handled, at)
  {
    SignalAndRecord(marked, canceller, handled, at);
    assert marked.cancellers - {canceller} == s.cancellers;
  }

  /** A cancellation leaves the marker and a cancelled record, and ends the process the record names unless that handles the signal. */
  lemma {:induction false} CancelEndsTheJob(s: State, canceller: nat, job: JobId, handled: bool, at: int)
    requires canceller !in s.cancellers && job in s.records && !Ended(s.records[job].status)
    requires var pid := s.records[job].pid; handled ==> pid > 0 && pid in s.workers && s.workers[pid].InHarness?
    ensures var steps := CancellingIt(canceller, job, handled, at);
            Possible(s, steps) && LeftByCancel(Ran(s, steps), s, job, handled, at)
  {
    CancelIsMarked(s, canceller, job);
    CancelLeaves(s, Do(Do(s, CancelReads(canceller, job)), CancelMarks(canceller)), canceller, job, handled, at);
    Chained(s, CancelReads(canceller, job), CancelMarks(canceller), CancelSignals(canceller, handled), CancelWrites(canceller, at));
  }
}
