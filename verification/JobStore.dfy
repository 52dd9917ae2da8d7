/** The archived worker as it runs alone: the drain, claim, execute and finish code over one jobs directory. */
module JobStore {
  import opened Outcomes
  import opened JobRecords

  function QueuedIn(records: map<string, JobRecord>): set<string> {
    set job | job in records && records[job].status == JobStatus.Queued
  }

  /** The record a cancellation or a final write starts from: the file if there is one, else the caller's copy. */
  function Base(records: map<string, JobRecord>, job: string, fallback: JobRecord): JobRecord {
    if job in records then records[job] else fallback
  }

  /** Whether a check at this moment would see a cancellation. */
  predicate SeesCancel(records: map<string, JobRecord>, markers: set<string>, job: string) {
    (job in records && records[job].status == Cancelled) || job in markers
  }

  /** The terminal record an undisturbed run of a claimed job leaves, and whether its harness ran. */
  function FinalRecord(running: JobRecord, markers: set<string>, result: HarnessResult, at: int): JobRecord {
    if running.id in markers then CancelledRecord(running, at)
    else FinishJobRecord(running, if result.success then Done else Failed, at, result.providerSessionId, result.summary, result.error)
  }

  /** How a job that nobody cancelled has ended: as its harness said, with what the harness told of it. */
  predicate EndedAs(record: JobRecord, queued: JobRecord, harness: HarnessResult) {
    && record.status == (if harness.success then Done else Failed)
    && record.summary == harness.summary && record.error == harness.error && record.id == queued.id && record.finishedAt.Some?
    && record.providerSessionId == (if harness.providerSessionId.Some? then harness.providerSessionId else queued.providerSessionId)
  }

  /** When a canceller's marker appears while the worker is on a job. */
  datatype Arrival = Never | BetweenChecks | DuringHarness

  /** The harness is reached exactly when no marker is there at either check. */
  predicate HarnessRuns(job: string, markers: set<string>, canceller: Arrival) {
    job !in markers && !canceller.BetweenChecks?
  }

  /** Distinct known jobs in the order they were queued. */
  predicate OldestFirst(records: map<string, JobRecord>, ran: seq<string>) {
    && (forall i :: 0 <= i < |ran| ==> ran[i] in records)
    && (forall i, j :: 0 <= i < j < |ran| ==> ran[i] != ran[j] && records[ran[i]].startedAt <= records[ran[j]].startedAt)
  }

  class JobStore {
    var records: map<string, JobRecord>
    var markers: set<string>
    var locked: bool
    /** Jobs whose harness was started, in order. */
    var harnessRuns: seq<string>

    /** Every record is stored under its own id. */
    predicate Valid()
      reads this
    {
      forall job :: job in records ==> records[job].id == job
    }

    method CancelledRecordIfRequested(job: string, fallback: JobRecord, at: int) returns (cancelled: Option<JobRecord>)
      modifies this`records
      ensures cancelled.Some? <==> (job in old(records) && old(records)[job].status == Cancelled) || job in markers
      ensures cancelled.None? ==> records == old(records)
      ensures cancelled.Some? ==>
                && cancelled.value == CancelledRecord(Base(old(records), job, fallback), at)
                && cancelled.value.status == Cancelled
                && cancelled.value.id == (if job in old(records) then old(records)[job] else fallback).id
                && records == old(records)[job := cancelled.value]
    {
      var current := if job in records then Some(records[job]) else None;
      if !(current.Some? && current.value.status == Cancelled) && job !in markers {
        return None;
      }
      var record := FinishCancelled(job, if current.Some? then current.value else fallback, at);
      cancelled := Some(record);
    }

    method FinishCancelled(job: string, fallback: JobRecord, at: int) returns (record: JobRecord)
      modifies this`records
      ensures record == CancelledRecord(fallback, at) && records == old(records)[job := record]
    {
      record := fallback;
      if fallback.status != Cancelled {
        record := FinishJobRecord(fallback, Cancelled, at, None, None, None);
      }
      records := records[job := record];
    }

    method FinishUnlessCancelled(job: string, fallback: JobRecord, status: JobStatus, at: int, result: HarnessResult)
      returns (record: JobRecord)
      modifies this`records
      ensures records == old(records)[job := record]
      ensures var base := Base(old(records), job, fallback);
              record == if SeesCancel(old(records), markers, job) then CancelledRecord(base, at)
                        else FinishJobRecord(base, status, at, result.providerSessionId, result.summary, result.error)
      ensures job in old(records) && old(records)[job].status == Cancelled ==> record == old(records)[job]
      ensures job in markers ==> record.status == Cancelled
      ensures job !in markers && (job in old(records) ==> old(records)[job].status != Cancelled) ==>
                record.status == status && record.summary == result.summary && record.error == result.error
                && record.finishedAt == Some(at)
      ensures record.id == (if job in old(records) then old(records)[job] else fallback).id
    {
      var current := if job in records then Some(records[job]) else None;
      var base := if current.Some? then current.value else fallback;
      if (current.Some? && current.value.status == Cancelled) || job in markers {
        record := FinishCancelled(job, base, at);
        return;
      }
      record := FinishJobRecord(base, status, at, result.providerSessionId, result.summary, result.error);
      records := records[job := record];
    }

    /** `onEvent` for an event that carries a provider session: the first session to be written wins. */
    method PersistProviderSessionId(job: string, fallback: JobRecord, sessionId: string)
      modifies this`records
      ensures var before := if job in old(records) then old(records)[job] else fallback;
              if before.providerSessionId.Some? then records == old(records)
              else records == old(records)[job := before.(providerSessionId := Some(sessionId))]
    {
      var record := if job in records then records[job] else fallback;
      if record.providerSessionId.Some? {
        return;
      }
      records := records[job := record.(providerSessionId := Some(sessionId))];
    }

    /** The harness result reported for a finished job: a cancelled one is never a success. */
    method ExecuteStartedJob(job: string, started: JobRecord, harness: HarnessResult, cancelledMeanwhile: bool, at: int)
      returns (record: JobRecord, success: bool)
      requires job in records && records[job] == started && started.id == job && started.status == Running
      modifies this`records, this`markers, this`harnessRuns
      ensures markers == old(markers) + (if cancelledMeanwhile then {job} else {})
      ensures record == FinalRecord(started, markers, harness, at)
      ensures records == old(records)[job := record]
      ensures harnessRuns == old(harnessRuns) + [job]
      ensures success <==> record.status == Done
      ensures success <==> harness.success && job !in markers
      ensures job !in markers ==> EndedAs(record, started, harness) && record.finishedAt == Some(at)
    {
      harnessRuns := harnessRuns + [job];
      if cancelledMeanwhile {
        markers := markers + {job};
      }
      record := FinishUnlessCancelled(job, started, if harness.success then Done else Failed, at, harness);
      success := harness.success;
      if record.status == Cancelled && success {
        success := false;
      }
    }

    /** Claim between two checks, then execute. `None` means the job was no longer queued. */
    method StartQueuedJob(job: string, pid: nat, harness: HarnessResult, canceller: Arrival, at: int)
      returns (result: Option<(JobRecord, bool)>)
      requires Valid()
      modifies this`records, this`markers, this`harnessRuns
      ensures Valid()
      ensures result.None? <==> job !in QueuedIn(old(records))
      ensures result.None? ==> records == old(records) && markers == old(markers) && harnessRuns == old(harnessRuns)
      ensures result.Some? ==>
                var (record, success) := result.value;
                && records == old(records)[job := record] && Ended(record.status)
                && old(markers) <= markers <= old(markers) + {job}
                && (job !in old(markers) ==> (job in markers <==> !canceller.Never?))
                && (record.status == Cancelled <==> job in markers)
                && (success <==> record.status == Done)
                && harnessRuns == old(harnessRuns) + (if job in old(markers) || canceller == BetweenChecks then [] else [job])
                && (HarnessRuns(job, old(markers), canceller) ==>
                      record == FinalRecord(RunningRecord(old(records)[job], pid, at), markers, harness, at))
                && (success <==> harness.success && job !in markers)
                && (job !in markers ==> EndedAs(record, old(records)[job], harness) && record.pid == pid && record.startedAt == at)
    {
      if job !in records || records[job].status != JobStatus.Queued {
        return None;
      }
      var existing := records[job];
      var beforeClaim := CancelledRecordIfRequested(job, existing, at);
      if beforeClaim.Some? {
        return Some((beforeClaim.value, false));
      }
      var running := RunningRecord(existing, pid, at);
      records := records[job := running];
      if canceller.BetweenChecks? {
        markers := markers + {job};
      }
      var afterClaim := CancelledRecordIfRequested(job, running, at);
      if afterClaim.Some? {
        return Some((afterClaim.value, false));
      }
      var record, success := ExecuteStartedJob(job, running, harness, canceller.DuringHarness?, at);
      result := Some((record, success));
    }

    method MarkQueuedJobFailed(job: string, at: int, error: string)
      requires Valid()
      modifies this`records
      ensures Valid()
      ensures records == if job in QueuedIn(old(records)) then old(records)[job := FailedRecord(old(records)[job], at, error)]
                         else old(records)
    {
      if job !in records || records[job].status != JobStatus.Queued {
        return;
      }
      records := records[job := FailedRecord(records[job], at, error)];
    }

    method OldestQueuedJob() returns (oldest: Option<string>)
      ensures oldest.None? <==> QueuedIn(records) == {}
      ensures oldest.Some? ==>
                && oldest.value in QueuedIn(records)
                && forall other :: other in QueuedIn(records) ==> records[oldest.value].startedAt <= records[other].startedAt
    {
      var queued := set job | job in records && records[job].status == JobStatus.Queued;
      if queued == {} {
        return None;
      }
      OldestExists(records, queued);
      var first :| first in queued && forall other :: other in queued ==> records[first].startedAt <= records[other].startedAt;
      oldest := Some(first);
    }

    /** One turn of the drain: start the job, or fail it when its spec cannot be read. */
    method ProcessJob(job: string, hasSpec: bool, pid: nat, harness: HarnessResult, canceller: Arrival, at: int)
      requires Valid() && job in QueuedIn(records)
      modifies this`records, this`markers, this`harnessRuns
      ensures Valid()
      ensures job in records && records == old(records)[job := records[job]] && Ended(records[job].status)
      ensures old(markers) <= markers <= old(markers) + {job}
      ensures !hasSpec ==> records[job].status == Failed && records[job].error.Some? && markers == old(markers)
      ensures hasSpec ==> (records[job].status == Cancelled <==> job in markers)
      ensures hasSpec && job !in markers ==> EndedAs(records[job], old(records)[job], harness)
      ensures harnessRuns == old(harnessRuns) + if hasSpec && HarnessRuns(job, old(markers), canceller) then [job] else []
    {
      if hasSpec {
        var result := StartQueuedJob(job, pid, harness, canceller, at);
        assert records[job] == result.value.0;
      } else {
        MarkQueuedJobFailed(job, at, "cannot read job spec");
      }
    }

    /** The inner loop of `runJobWorker`, under the lock. It terminates, stops because the queue is empty, everything that waited
        has ended, the harness ran once, oldest first, for exactly the jobs with a readable spec that no canceller reached before
        their second check, and nothing else changed. */
    method Drain(pid: nat, specs: set<string>, harness: string -> HarnessResult, cancellers: string -> Arrival, at: int)
      returns (ghost ran: seq<string>)
      requires Valid() && locked
      modifies this`records, this`markers, this`harnessRuns
      ensures Valid() && harnessRuns == old(harnessRuns) + ran && QueuedIn(records) == {}
      ensures Drained(old(records), old(markers), specs, harness, cancellers, records, markers, ran)
    {
      ran := [];
      ghost var initial := records;
      ghost var early := markers;
      while true
        invariant Valid()
        invariant harnessRuns == old(harnessRuns) + ran
        invariant Drained(initial, early, specs, harness, cancellers, records, markers, ran)
        decreases |QueuedIn(records)|
      {
        var oldest := OldestQueuedJob();
        if oldest.None? {
          break;
        }
        var job := oldest.value;
        ghost var before, marked, ranBefore := records, markers, ran;
        ProcessJob(job, job in specs, pid, harness(job), cancellers(job), at);
        ran := ran + if job in specs && HarnessRuns(job, marked, cancellers(job)) then [job] else [];
        DrainedOneMore(initial, early, specs, harness, cancellers, before, marked, ranBefore, job, records, markers, ran);
      }
    }

    /** What enqueuers and other workers did between a release and the recheck after it. */
    method Meanwhile(gap: Gap)
      requires Valid() && Fresh(gap.queued, records.Keys)
      modifies this`records, this`locked
      ensures Valid() && records == old(records) + gap.queued && locked == gap.taken
    {
      records := records + gap.queued;
      locked := gap.taken;
    }

    /** One round of `runJobWorker`: acquire, drain, release, and what others did before the recheck, if they did anything. */
    method Round(pid: nat, specs: set<string>, harness: string -> HarnessResult, cancellers: string -> Arrival, at: int, gap: Option<Gap>,
                 ghost known: map<string, JobRecord>, ghost early: set<string>, ghost ran: seq<string>)
      returns (ghost more: seq<string>)
      requires Valid() && !locked && Settled(known, early, specs, harness, cancellers, records, markers, ran)
      requires gap.Some? ==> Fresh(gap.value.queued, known.Keys)
      modifies this
      ensures Valid() && harnessRuns == old(harnessRuns) + more
      ensures gap.None? ==> QueuedIn(records) == {} && !locked
      ensures Settled(KnownAfter(known, gap), early, specs, harness, cancellers, records, markers, ran + more)
    {
      locked := true;
      ghost var before, marked := records, markers;
      more := Drain(pid, specs, harness, cancellers, at);
      SettledAfterDrain(known, early, specs, harness, cancellers, before, marked, ran, records, markers, more);
      locked := false;
      if gap.Some? {
        SettledWithNew(known, early, specs, harness, cancellers, records, markers, ran + more, gap.value.queued);
        Meanwhile(gap.value);
      }
    }

    /** The round of the gap that comes next, if there is one; `initial` is where the worker began. */
    method NextRound(pid: nat, specs: set<string>, harness: string -> HarnessResult, cancellers: string -> Arrival, at: int, gaps: seq<Gap>, round: nat,
                     ghost initial: map<string, JobRecord>, ghost known: map<string, JobRecord>, ghost early: set<string>, ghost ran: seq<string>)
      returns (next: nat, ghost later: map<string, JobRecord>, ghost more: seq<string>)
      requires Valid() && !locked && round <= |gaps| && Extends(known, initial) && FreshGaps(gaps[round..], known.Keys)
      requires Settled(known, early, specs, harness, cancellers, records, markers, ran)
      modifies this
      ensures Valid() && harnessRuns == old(harnessRuns) + more
      ensures if round < |gaps| then next == round + 1 else next == round && QueuedIn(records) == {} && !locked
      ensures Extends(later, initial) && FreshGaps(gaps[next..], later.Keys)
      ensures Settled(later, early, specs, harness, cancellers, records, markers, ran + more)
    {
      next, later := round, known;
      var gap := None;
      if round < |gaps| {
        gap, next := Some(gaps[round]), round + 1;
        FreshLater(gaps, round, known.Keys);
        later := KnownAfter(known, gap);
      }
      more := Round(pid, specs, harness, cancellers, at, gap, known, early, ran);
    }

    /** `runJobWorker`: rounds until the recheck finds nothing or another worker holds the lock; `known` is every job there ever was,
        each as the drains left it. */
    method RunJobWorker(pid: nat, specs: set<string>, harness: string -> HarnessResult, cancellers: string -> Arrival, at: int,
                        gaps: seq<Gap>)
      returns (ghost ran: seq<string>, ghost known: map<string, JobRecord>)
      requires Valid() && FreshGaps(gaps, records.Keys)
      modifies this
      ensures Valid() && harnessRuns == old(harnessRuns) + ran
      ensures old(locked) ==> locked && records == old(records) && markers == old(markers) && ran == []
      ensures !old(locked) ==> QueuedIn(records) == {} || locked
      ensures Extends(known, old(records))
      ensures Settled(known, old(markers), specs, harness, cancellers, records, markers, ran)
    {
      ran, known := [], records;
      SettledAtFirst(records, markers, specs, harness, cancellers);
      if locked {
        return;
      }
      var round := 0;
      assert gaps[round..] == gaps;
      while true
        invariant round <= |gaps| && Valid() && !locked
        invariant harnessRuns == old(harnessRuns) + ran
        invariant Extends(known, old(records)) && FreshGaps(gaps[round..], known.Keys)
        invariant Settled(known, old(markers), specs, harness, cancellers, records, markers, ran)
        decreases |gaps| - round
      {
        ghost var more;
        round, known, more := NextRound(pid, specs, harness, cancellers, at, gaps, round, old(records), known, old(markers), ran);
        ran := ran + more;
        var oldest := OldestQueuedJob();
        if oldest.None? {
          return;
        }
        if locked {
          return;
        }
      }
    }
  }

  function KnownAfter(known: map<string, JobRecord>, gap: Option<Gap>): map<string, JobRecord> {
    if gap.Some? then known + gap.value.queued else known
  }

  predicate Extends(known: map<string, JobRecord>, initial: map<string, JobRecord>) {
    initial.Keys <= known.Keys && forall job :: job in initial ==> known[job] == initial[job]
  }

  /** Jobs queued, and whether another worker took the lock. */
  datatype Gap = Gap(queued: map<string, JobRecord>, taken: bool)

  /** New jobs under ids nobody has used. */
  predicate Fresh(queued: map<string, JobRecord>, known: set<string>) {
    && queued.Keys !! known
    && forall job :: job in queued ==> queued[job].id == job && queued[job].status == JobStatus.Queued
  }

  predicate FreshGaps(gaps: seq<Gap>, known: set<string>)
    decreases |gaps|
  {
    gaps == [] || (Fresh(gaps[0].queued, known) && FreshGaps(gaps[1..], known + gaps[0].queued.Keys))
  }

  lemma {:induction false} FreshLater(gaps: seq<Gap>, round: nat, known: set<string>)
    requires round < |gaps| && FreshGaps(gaps[round..], known)
    ensures Fresh(gaps[round].queued, known)
    ensures FreshGaps(gaps[round + 1..], known + gaps[round].queued.Keys)
  {
    assert gaps[round..][1..] == gaps[round + 1..];
  }

  /** Every job there ever was, and what became of it; only those were marked or ran. */
  ghost predicate Settled(initial: map<string, JobRecord>, early: set<string>, specs: set<string>, harness: string -> HarnessResult, cancellers: string -> Arrival,
                          records: map<string, JobRecord>, markers: set<string>, ran: seq<string>)
  {
    && records.Keys == initial.Keys && early <= markers <= early + initial.Keys
    && (forall i :: 0 <= i < |ran| ==> ran[i] in initial)
    && (forall job {:trigger JobDrained(initial, early, specs, harness, cancellers, records, markers, ran, job)} ::
          job in initial ==> JobDrained(initial, early, specs, harness, cancellers, records, markers, ran, job))
  }

  /** How far a drain has come since `initial` and `early`: what left the queue has ended, what ran is known, oldest first. */
  ghost predicate Drained(initial: map<string, JobRecord>, early: set<string>, specs: set<string>, harness: string -> HarnessResult, cancellers: string -> Arrival,
                          records: map<string, JobRecord>, markers: set<string>, ran: seq<string>)
  {
    && Settled(initial, early, specs, harness, cancellers, records, markers, ran)
    && QueuedIn(records) <= QueuedIn(initial)
    && OldestFirst(initial, ran)
    && (forall i, job :: 0 <= i < |ran| && job in QueuedIn(records) ==> initial[ran[i]].startedAt <= initial[job].startedAt)
  }

  ghost predicate JobDrained(initial: map<string, JobRecord>, early: set<string>, specs: set<string>, harness: string -> HarnessResult, cancellers: string -> Arrival,
                             records: map<string, JobRecord>, markers: set<string>, ran: seq<string>, job: string)
    requires job in initial && job in records
  {
    if initial[job].status != JobStatus.Queued || records[job].status == JobStatus.Queued then
      records[job] == initial[job] && job !in ran && (job in markers <==> job in early)
    else
      && Ended(records[job].status)
      && (job in specs && job !in markers ==> EndedAs(records[job], initial[job], harness(job)))
      && (if job in specs then records[job].status == Cancelled <==> job in markers
          else records[job].status == Failed && (job in markers <==> job in early))
      && (job in ran <==> job in specs && HarnessRuns(job, early, cancellers(job)))
  }

  lemma SettledAtFirst(records: map<string, JobRecord>, markers: set<string>, specs: set<string>, harness: string -> HarnessResult, cancellers: string -> Arrival)
    ensures Settled(records, markers, specs, harness, cancellers, records, markers, [])
  {
    forall job | job in records ensures JobDrained(records, markers, specs, harness, cancellers, records, markers, [], job) {
    }
  }

  lemma SettledAfterDrain(known: map<string, JobRecord>, early: set<string>, specs: set<string>, harness: string -> HarnessResult, cancellers: string -> Arrival,
                          before: map<string, JobRecord>, marked: set<string>, ran: seq<string>,
                          records: map<string, JobRecord>, markers: set<string>, more: seq<string>)
    requires Settled(known, early, specs, harness, cancellers, before, marked, ran)
    requires Drained(before, marked, specs, harness, cancellers, records, markers, more)
    ensures Settled(known, early, specs, harness, cancellers, records, markers, ran + more)
  {
    forall job | job in known ensures JobDrained(known, early, specs, harness, cancellers, records, markers, ran + more, job) {
      assert JobDrained(known, early, specs, harness, cancellers, before, marked, ran, job);
      assert JobDrained(before, marked, specs, harness, cancellers, records, markers, more, job);
      assert job in ran + more <==> job in ran || job in more;
    }
  }

  lemma SettledWithNew(known: map<string, JobRecord>, early: set<string>, specs: set<string>, harness: string -> HarnessResult, cancellers: string -> Arrival,
                       records: map<string, JobRecord>, markers: set<string>, ran: seq<string>, queued: map<string, JobRecord>)
    requires Settled(known, early, specs, harness, cancellers, records, markers, ran)
    requires Fresh(queued, known.Keys)
    ensures Settled(known + queued, early, specs, harness, cancellers, records + queued, markers, ran)
  {
    forall job | job in known + queued
      ensures JobDrained(known + queued, early, specs, harness, cancellers, records + queued, markers, ran, job)
    {
      if job in known {
        assert JobDrained(known, early, specs, harness, cancellers, records, markers, ran, job);
      }
    }
  }

  /** Where the queue came to be empty, every job that waited has ended, a job whose spec cannot be read has failed, and every other
      one is cancelled exactly when it is marked; the harness ran for exactly the jobs it should have, and jobs that did not wait
      are as they were. */
  lemma DrainedToTheEnd(initial: map<string, JobRecord>, early: set<string>, specs: set<string>, harness: string -> HarnessResult, cancellers: string -> Arrival,
                        records: map<string, JobRecord>, markers: set<string>, ran: seq<string>, job: string)
    requires Settled(initial, early, specs, harness, cancellers, records, markers, ran) && QueuedIn(records) == {} && job in initial
    ensures initial[job].status != JobStatus.Queued ==> records[job] == initial[job]
    ensures initial[job].status == JobStatus.Queued ==>
              && Ended(records[job].status)
              && (job !in specs ==> records[job].status == Failed)
              && (records[job].status == Cancelled <==> job in specs && job in markers)
              && (job in specs && job !in markers ==> EndedAs(records[job], initial[job], harness(job)))
              && (records[job].status == Done <==> job in specs && job !in markers && harness(job).success)
    ensures job in ran <==> initial[job].status == JobStatus.Queued && job in specs && job !in early && cancellers(job) != BetweenChecks
  {
    assert JobDrained(initial, early, specs, harness, cancellers, records, markers, ran, job);
    assert job !in QueuedIn(records);
  }

  /** A job that waits and is marked before its turn comes ends cancelled if and only if its spec can be read. */
  lemma MarkedJobNeedsItsSpec(initial: map<string, JobRecord>, early: set<string>, specs: set<string>, harness: string -> HarnessResult, cancellers: string -> Arrival,
                              records: map<string, JobRecord>, markers: set<string>, ran: seq<string>, job: string)
    requires Settled(initial, early, specs, harness, cancellers, records, markers, ran) && QueuedIn(records) == {}
    requires job in QueuedIn(initial) && job in early
    ensures job in markers && job !in ran
    ensures records[job].status == if job in specs then Cancelled else Failed
  {
    DrainedToTheEnd(initial, early, specs, harness, cancellers, records, markers, ran, job);
  }

  lemma DrainedOneMore(initial: map<string, JobRecord>, early: set<string>, specs: set<string>, harness: string -> HarnessResult, cancellers: string -> Arrival,
                       records: map<string, JobRecord>, markers: set<string>, ran: seq<string>, job: string,
                       records': map<string, JobRecord>, markers': set<string>, ran': seq<string>)
    requires Drained(initial, early, specs, harness, cancellers, records, markers, ran)
    requires job in QueuedIn(records)
    requires forall other :: other in QueuedIn(records) ==> records[job].startedAt <= records[other].startedAt
    requires job in records' && records' == records[job := records'[job]] && Ended(records'[job].status)
    requires markers <= markers' <= markers + {job}
    requires job in specs ==> (records'[job].status == Cancelled <==> job in markers')
    requires job !in specs ==> records'[job].status == Failed && markers' == markers
    requires job in specs && job !in markers' ==> EndedAs(records'[job], records[job], harness(job))
    requires ran' == ran + if job in specs && HarnessRuns(job, markers, cancellers(job)) then [job] else []
    ensures Drained(initial, early, specs, harness, cancellers, records', markers', ran')
    ensures QueuedIn(records') == QueuedIn(records) - {job}
  {
    assert JobDrained(initial, early, specs, harness, cancellers, records, markers, ran, job);
    forall other | other in initial ensures JobDrained(initial, early, specs, harness, cancellers, records', markers', ran', other) {
      assert JobDrained(initial, early, specs, harness, cancellers, records, markers, ran, other);
      assert other != job ==> (other in ran' <==> other in ran);
    }
    forall other | other in QueuedIn(records') ensures other in QueuedIn(records) && initial[other] == records[other] {
      assert JobDrained(initial, early, specs, harness, cancellers, records, markers, ran, other);
    }
    forall i | 0 <= i < |ran| ensures ran[i] != job {
      assert ran[i] in ran;
    }
  }

  lemma {:induction false} OldestExists(records: map<string, JobRecord>, candidates: set<string>)
    requires candidates != {} && candidates <= records.Keys
    ensures exists first :: first in candidates && forall other :: other in candidates ==> records[first].startedAt <= records[other].startedAt
    decreases |candidates|
  {
    var pick :| pick in candidates;
    var rest := candidates - {pick};
    if rest == {} {
      assert candidates == {pick};
    } else {
      OldestExists(records, rest);
      var first :| first in rest && forall other :: other in rest ==> records[first].startedAt <= records[other].startedAt;
      var winner := if records[pick].startedAt <= records[first].startedAt then pick else first;
      assert forall other :: other in candidates ==> other == pick || other in rest;
      assert winner in candidates;
    }
  }
}
