/** What overwrites the record of a cancelled job, and what the record says once everybody has left the job. */
module JobRest {
  import opened Outcomes
  import opened JobRecords
  import opened JobProtocol

  // ---- One step -----------------------------------------------------------------------------------

  /** The writes that leave something else than cancelled in the record of a job: the claim, the final write and the failure write
      of a worker, the failure write of the enqueuer, and a session write of what was read before. */
  predicate Overwrites(s: State, step: Step, job: JobId)
    requires Enabled(s, step)
  {
    match step
    case WriteRunning(pid) => s.workers[pid].job == job
    case WriteFinal(pid) => s.workers[pid].job == job
    case WriteFailure(pid) => s.workers[pid].job == job
    case SpawnThrows(spawning, _, _) => spawning == job
    case SessionWrites(write) => s.writes[write].job == job && s.writes[write].record.status != Cancelled
    case _ => false
  }

  /** The writes that leave it cancelled. */
  predicate Cancels(s: State, step: Step, job: JobId)
    requires Enabled(s, step)
  {
    match step
    case WriteCancelled(pid) => s.workers[pid].job == job
    case CancelWrites(canceller, _) => s.cancellers[canceller].job == job
    case _ => false
  }

  lemma WorkerOverwrites(s: State, step: Step, job: JobId)
    requires Enabled(s, step) && ByWorker(step) && JobOk(s, s.workers[step.pid]) && job in s.records
    ensures var after := WorkerStep(s, step);
            && job in after.records
            && (Overwrites(s, step, job) ==> after.records[job].status != Cancelled)
            && (Cancels(s, step, job) ==> after.records[job].status == Cancelled)
            && (!Overwrites(s, step, job) && !Cancels(s, step, job) ==> after.records[job] == s.records[job])
  {
    OwnStep(s, step);
    WrittenByWorker(s, step, job);
  }

  lemma WrittenByWorker(s: State, step: Step, job: JobId)
    requires Enabled(s, step) && ByWorker(step) && JobOk(s, s.workers[step.pid])
    ensures var effect := EffectOf(s, step);
            if (effect.WriteRecord? || effect.WriteLast?) && effect.job == job
            then (Overwrites(s, step, job) <==> effect.record.status != Cancelled) && (Cancels(s, step, job) <==> effect.record.status == Cancelled)
            else !Overwrites(s, step, job) && !Cancels(s, step, job)
  {
  }

  lemma OutsideOverwrites(s: State, step: Step, job: JobId)
    requires Enabled(s, step) && !ByWorker(step) && job in s.records
    ensures var after := OutsideStep(s, step);
            && job in after.records
            && (Overwrites(s, step, job) ==> after.records[job].status != Cancelled)
            && (Cancels(s, step, job) ==> after.records[job].status == Cancelled)
            && (!Overwrites(s, step, job) && !Cancels(s, step, job) ==>
                  after.records[job] == s.records[job] || after.records[job].status == Cancelled)
  {
  }

  /** A cancelled record stops saying so if and only if the step is one of those writes. */
  lemma CancelledIsOverwrittenExactly(s: State, step: Step, job: JobId)
    requires Inv(s) && Enabled(s, step) && job in s.records && s.records[job].status == Cancelled
    ensures var after := Do(s, step);
            job in after.records && (after.records[job].status != Cancelled <==> Overwrites(s, step, job))
  {
    if ByWorker(step) {
      assert WorkerOk(s, step.pid);
      WorkerOverwrites(s, step, job);
    } else {
      OutsideOverwrites(s, step, job);
    }
  }

  // ---- A job marked before its first check --------------------------------------------------------

  predicate WorksOn(w: Worker, job: JobId) {
    HasJob(w) && w.job == job
  }

  /** The worker has not got past the check before the claim. */
  predicate BeforeItsCheck(w: Worker) {
    w.ReadingSpec? || w.Claiming? || w.FailRead? || w.FailWrite?
    || ((w.CheckRead? || w.CheckMarker? || w.WritingCancelled?) && w.stage.BeforeClaim?)
  }

  /** The job was never claimed, and nobody is about to. */
  predicate NotStarted(s: State, job: JobId) {
    && job in s.records && (s.records[job].status == Queued || s.records[job].status == Cancelled || s.records[job].status == Failed)
    && (forall pid {:trigger s.workers[pid]} :: pid in s.workers && WorksOn(s.workers[pid], job) ==> BeforeItsCheck(s.workers[pid]))
    && Settled(s, job)
  }

  predicate MarkedUnstarted(s: State, job: JobId) {
    job in s.markers && NotStarted(s, job)
  }

  /** The failure writes a job can get that was never claimed. */
  predicate Fails(s: State, step: Step, job: JobId)
    requires Enabled(s, step)
  {
    (step.WriteFailure? || step.SpawnThrows?) && Overwrites(s, step, job)
  }

  lemma NextIsBeforeItsCheck(s: State, step: Step, job: JobId)
    requires Enabled(s, step) && ByWorker(step) && job in s.markers
    requires WorksOn(s.workers[step.pid], job) ==> BeforeItsCheck(s.workers[step.pid])
    ensures WorksOn(NextWorker(s, step), job) ==> BeforeItsCheck(NextWorker(s, step))
  {
  }

  lemma EmitsForOthers(s: State, step: Step, job: JobId)
    requires Enabled(s, step) && ByWorker(step) && Settled(s, job)
    requires WorksOn(s.workers[step.pid], job) ==> BeforeItsCheck(s.workers[step.pid])
    ensures Settled(WorkerStep(s, step), job)
  {
  }

  lemma WorkerKeepsUnstarted(s: State, step: Step, job: JobId)
    requires Inv(s) && Enabled(s, step) && ByWorker(step) && MarkedUnstarted(s, job)
    ensures var after := WorkerStep(s, step);
            && MarkedUnstarted(after, job)
            && (Fails(s, step, job) ==> after.records[job].status == Failed)
            && (Cancels(s, step, job) ==> after.records[job].status == Cancelled)
            && (!Fails(s, step, job) && !Cancels(s, step, job) ==> after.records[job] == s.records[job])
  {
    assert WorkerOk(s, step.pid);
    NextIsBeforeItsCheck(s, step, job);
    EmitsForOthers(s, step, job);
    WorkerLeavesOthers(s, step);
    WorkerRecord(s, step, job);
  }

  lemma WorkerRecord(s: State, step: Step, job: JobId)
    requires Enabled(s, step) && ByWorker(step) && JobOk(s, s.workers[step.pid]) && job in s.records
    requires WorksOn(s.workers[step.pid], job) ==> BeforeItsCheck(s.workers[step.pid])
    ensures var after := WorkerStep(s, step);
            && job in after.records
            && (Fails(s, step, job) ==> after.records[job].status == Failed)
            && (Cancels(s, step, job) ==> after.records[job].status == Cancelled)
            && (!Fails(s, step, job) && !Cancels(s, step, job) ==> after.records[job] == s.records[job])
  {
    OnlyFailuresOverwrite(s, step, job);
    WorkerOverwrites(s, step, job);
    if step.WriteFailure? {
      OwnStep(s, step);
    }
  }

  lemma OnlyFailuresOverwrite(s: State, step: Step, job: JobId)
    requires Enabled(s, step) && ByWorker(step)
    requires WorksOn(s.workers[step.pid], job) ==> BeforeItsCheck(s.workers[step.pid])
    ensures Overwrites(s, step, job) ==> step.WriteFailure?
  {
  }

  lemma OutsideKeepsUnstarted(s: State, step: Step, job: JobId)
    requires Enabled(s, step) && !ByWorker(step) && MarkedUnstarted(s, job)
    ensures var after := OutsideStep(s, step);
            && MarkedUnstarted(after, job)
            && (Fails(s, step, job) ==> after.records[job].status == Failed)
            && (Cancels(s, step, job) ==> after.records[job].status == Cancelled)
            && (!Fails(s, step, job) && !Cancels(s, step, job) ==> after.records[job] == s.records[job])
  {
    OutsideStarts(s, step);
    OutsideWorkers(s, step);
    OutsideRecord(s, step, job);
    OutsideSettled(s, step, job);
  }

  lemma OutsideRecord(s: State, step: Step, job: JobId)
    requires Enabled(s, step) && !ByWorker(step) && job in s.records && Settled(s, job)
    ensures var after := OutsideStep(s, step);
            && job in after.records
            && (Fails(s, step, job) ==> after.records[job].status == Failed)
            && (Cancels(s, step, job) ==> after.records[job].status == Cancelled)
            && (!Fails(s, step, job) && !Cancels(s, step, job) ==> after.records[job] == s.records[job])
  {
  }

  lemma OutsideSettled(s: State, step: Step, job: JobId)
    requires Enabled(s, step) && !ByWorker(step) && Settled(s, job)
    ensures Settled(OutsideStep(s, step), job)
  {
  }

  // ---- Every mark is followed by a write -----------------------------------------------------------

  predicate CarriedBy(s: State, job: JobId, canceller: nat) {
    canceller in s.cancellers && s.cancellers[canceller].job == job && !s.cancellers[canceller].Marking?
  }

  /** The canceller that made a mark has still to write, or the job has left the queue. */
  ghost predicate MarkIsCarried(s: State, job: JobId) {
    job in s.markers ==> Claimed(s, job) || exists canceller :: CarriedBy(s, job, canceller)
  }

  lemma CarriedStep(s: State, step: Step, job: JobId)
    requires Inv(s) && Enabled(s, step) && MarkIsCarried(s, job)
    ensures MarkIsCarried(Do(s, step), job)
  {
    StepForward(s, step);
    var after := Do(s, step);
    if ByWorker(step) {
      OwnStep(s, step);
      WorkerKeepsCancellers(s, step);
      if job in after.markers && !Claimed(s, job) {
        var canceller :| CarriedBy(s, job, canceller);
        assert CarriedBy(after, job, canceller);
      }
      assert Claimed(s, job) ==> Claimed(after, job);
    } else {
      OutsideCarries(s, step, job);
    }
  }

  lemma WorkerKeepsCancellers(s: State, step: Step)
    requires Enabled(s, step) && ByWorker(step)
    ensures WorkerStep(s, step).cancellers == s.cancellers
  {
  }

  lemma OutsideCarries(s: State, step: Step, job: JobId)
    requires Inv(s) && Enabled(s, step) && !ByWorker(step) && MarkIsCarried(s, job) && Forward(s, OutsideStep(s, step))
    ensures MarkIsCarried(OutsideStep(s, step), job)
  {
    var after := OutsideStep(s, step);
    assert Claimed(s, job) ==> Claimed(after, job);
    if job in after.markers && !Claimed(after, job) {
      if step.CancelMarks? && s.cancellers[step.canceller].job == job {
        assert CarriedBy(after, job, step.canceller);
      } else {
        var canceller :| CarriedBy(s, job, canceller);
        OtherCarrierStays(s, step, job, canceller);
        assert CarriedBy(after, job, canceller);
      }
    }
  }

  lemma OtherCarrierStays(s: State, step: Step, job: JobId, canceller: nat)
    requires Enabled(s, step) && !ByWorker(step) && CarriedBy(s, job, canceller) && !Claimed(OutsideStep(s, step), job)
    ensures CarriedBy(OutsideStep(s, step), job, canceller)
  {
  }

  lemma {:induction false} MarksAreCarried(steps: seq<Step>, job: JobId)
    requires Legal(steps)
    ensures MarkIsCarried(Reached(steps), job)
  {
    if |steps| > 0 {
      var before := steps[..|steps| - 1];
      MarksAreCarried(before, job);
      ReachedIsSound(before);
      CarriedStep(Reached(before), steps[|steps| - 1], job);
    }
  }

  // ---- The record at rest -------------------------------------------------------------------------

  /** Nobody is left who would write the record: no enqueuer, worker, session write or canceller. */
  predicate AtRest(s: State, job: JobId) {
    && job !in s.enqueuers && Settled(s, job)
    && (forall pid {:trigger s.workers[pid]} :: pid in s.workers ==> !WorksOn(s.workers[pid], job))
    && (forall canceller {:trigger s.cancellers[canceller]} :: canceller in s.cancellers ==> s.cancellers[canceller].job != job)
  }

  /** Since a moment the last write about a job, if there was any, was a failure write. */
  predicate FailedSince(steps: seq<Step>, moment: nat, job: JobId)
    requires Legal(steps) && moment <= |steps|
    decreases |steps|
  {
    |steps| > moment &&
    var before, step := steps[..|steps| - 1], steps[|steps| - 1];
    Fails(Reached(before), step, job) || (!Cancels(Reached(before), step, job) && FailedSince(before, moment, job))
  }

  lemma {:induction false} StatusFollows(steps: seq<Step>, moment: nat, job: JobId)
    requires Legal(steps) && moment <= |steps| && Legal(steps[..moment])
    requires MarkedUnstarted(Reached(steps[..moment]), job) && Reached(steps[..moment]).records[job].status == Queued
    ensures MarkedUnstarted(Reached(steps), job)
    ensures Reached(steps).records[job].status == Failed <==> FailedSince(steps, moment, job)
  {
    if moment == |steps| {
      assert steps[..moment] == steps;
    } else {
      var before, step := steps[..|steps| - 1], steps[|steps| - 1];
      assert before[..moment] == steps[..moment];
      StatusFollows(before, moment, job);
      ReachedIsSound(before);
      if ByWorker(step) {
        WorkerKeepsUnstarted(Reached(before), step, job);
      } else {
        OutsideKeepsUnstarted(Reached(before), step, job);
      }
    }
  }

  /** A job that is marked while queued and before its first check, once nobody is left on it, reads failed if a failure write of a
      worker or of its enqueuer came after the last cancelled write, and cancelled if not. */
  lemma {:induction false} MarkedRecordAtRest(steps: seq<Step>, moment: nat, job: JobId)
    requires Legal(steps) && moment <= |steps| && Legal(steps[..moment])
    requires MarkedUnstarted(Reached(steps[..moment]), job) && Reached(steps[..moment]).records[job].status == Queued
    requires AtRest(Reached(steps), job)
    ensures job in Reached(steps).records
    ensures Reached(steps).records[job].status == if FailedSince(steps, moment, job) then Failed else Cancelled
  {
    StatusFollows(steps, moment, job);
    MarksAreCarried(steps, job);
    var s := Reached(steps);
    assert forall canceller :: !CarriedBy(s, job, canceller);
  }

  /** And what an ended record says at rest it says for good. */
  lemma RestIsFinal(s: State, step: Step, job: JobId)
    requires Inv(s) && Enabled(s, step) && AtRest(s, job) && job in s.records && Ended(s.records[job].status)
    ensures var after := Do(s, step); AtRest(after, job) && job in after.records && after.records[job] == s.records[job]
  {
    if ByWorker(step) {
      WorkerStaysAway(s, step, job);
    } else {
      OutsideStaysAway(s, step, job);
      OutsideWorkers(s, step);
    }
  }

  lemma WorkerStaysAway(s: State, step: Step, job: JobId)
    requires Enabled(s, step) && ByWorker(step) && AtRest(s, job) && job in s.records && Ended(s.records[job].status)
    ensures var after := WorkerStep(s, step); AtRest(after, job) && job in after.records && after.records[job] == s.records[job]
  {
    OwnStep(s, step);
    WorkerLeavesOthers(s, step);
    WorkerKeepsCancellers(s, step);
    NextWorksElsewhere(s, step, job);
  }

  lemma NextWorksElsewhere(s: State, step: Step, job: JobId)
    requires Enabled(s, step) && ByWorker(step) && !WorksOn(s.workers[step.pid], job) && !(job in QueuedJobs(s)) && Settled(s, job)
    ensures !WorksOn(NextWorker(s, step), job)
    ensures Settled(WorkerStep(s, step), job)
    ensures var effect := EffectOf(s, step); effect.WriteRecord? || effect.WriteLast? ==> effect.job != job
  {
  }

  lemma OutsideStaysAway(s: State, step: Step, job: JobId)
    requires Enabled(s, step) && !ByWorker(step) && AtRest(s, job) && job in s.records && Ended(s.records[job].status)
    ensures var after := OutsideStep(s, step);
            && job !in after.enqueuers && Settled(after, job) && job in after.records && after.records[job] == s.records[job]
            && forall canceller :: canceller in after.cancellers ==> after.cancellers[canceller].job != job
  {
  }
}
