/** The sync ledger: one cursor per transcript, moved by jobs that each absorb one byte range of a growing file. */
module SyncLedger {
  import opened Outcomes
  import opened SyncCursors
  import opened JobRecords

  type Key = string
  type JobId = string
  type Sha = seq<Byte> -> string

  datatype LedgerStatus = Absorbed | Pending | Failing | NeedsAttention

  /** Ledger statuses "done", "pending", "failed" and "needs_attention"; pending fields are optional one by one, as read. */
  datatype Entry = Entry(
    status: LedgerStatus,
    last: Cursor,
    pendingToSize: Option<nat>,
    pendingToLine: Option<nat>,
    pendingPrefixHash: Option<string>,
    pendingJobId: Option<JobId>,
    lastJobId: Option<JobId>,
    lastError: Option<string>)

  /** An absorb job with the range its context note asked it to absorb. */
  datatype Job = Job(key: Key, from: Cursor, to: Cursor, status: JobStatus, error: string)

  datatype Decision = Skip(reason: string) | Mismatch(entry: Entry) | Ready(fromLine: nat, toLine: nat)

  datatype StartResult = Started(jobId: JobId) | StartFailed(error: string)

  function Or<T>(a: Option<T>, b: T): T {
    if a.Some? then a.value else b
  }

  function ClearPending(entry: Entry): Entry {
    entry.(pendingToSize := None, pendingToLine := None, pendingPrefixHash := None, pendingJobId := None)
  }

  /** One entry against the record of the job it waits for, if that record can be read. */
  function Reconciled(entry: Entry, job: Option<Job>): Entry {
    if entry.status != Pending || entry.pendingJobId.None? || job.None? || !Ended(job.value.status) then entry
    else if job.value.status == Done then
      ClearPending(entry.(status := Absorbed,
                          last := Cursor(Or(entry.pendingToSize, entry.last.size), Or(entry.pendingToLine, entry.last.line),
                                         Or(entry.pendingPrefixHash, entry.last.prefixHash)),
                          lastJobId := entry.pendingJobId))
    else ClearPending(entry.(status := Failing, lastJobId := entry.pendingJobId, lastError := Some(job.value.error)))
  }

  function FreshEntry(cursor: Cursor): Entry {
    Entry(Absorbed, cursor, None, None, None, None, None, None)
  }

  function Evaluate(entry: Entry, content: seq<Byte>, sha: Sha): Decision {
    if entry.status == Pending then Skip("sync-already-pending")
    else if |content| <= entry.last.size then Skip("unchanged")
    else if sha(Prefix(content, entry.last.size)) != entry.last.prefixHash then
      Mismatch(entry.(status := NeedsAttention, lastError := Some("transcript prefix no longer matches ledger cursor")))
    else Ready(entry.last.line + 1, CountLines(content))
  }

  function EndCursor(content: seq<Byte>, sha: Sha): Cursor {
    Cursor(|content|, CountLines(content), sha(content))
  }

  /** What `enqueueAbsorb` makes of the entry once the job was started, or could not be. */
  function Enqueued(entry: Entry, content: seq<Byte>, result: StartResult, sha: Sha): Entry {
    match result
    case StartFailed(error) => entry.(status := Failing, lastError := Some(error))
    case Started(jobId) =>
      var to := EndCursor(content, sha);
      entry.(status := Pending, pendingToSize := Some(to.size), pendingToLine := Some(to.line),
             pendingPrefixHash := Some(to.prefixHash), pendingJobId := Some(jobId), lastJobId := Some(jobId), lastError := None)
  }

  function AfterDecision(entry: Entry, content: seq<Byte>, result: StartResult, sha: Sha): Entry {
    match Evaluate(entry, content, sha)
    case Skip(_) => entry
    case Mismatch(marked) => marked
    case Ready(_, _) => Enqueued(entry, content, result, sha)
  }

  function JobOf(jobs: map<JobId, Job>, entry: Entry): Option<Job> {
    if entry.pendingJobId.Some? && entry.pendingJobId.value in jobs then Some(jobs[entry.pendingJobId.value]) else None
  }

  function ReconcileAll(ledger: map<Key, Entry>, jobs: map<JobId, Job>): map<Key, Entry> {
    map key | key in ledger :: Reconciled(ledger[key], JobOf(jobs, ledger[key]))
  }

  /** The entry a sweep evaluates: the ledger's, or a fresh one for a transcript the ledger does not know. */
  function EntryFor(ledger: map<Key, Entry>, key: Key, first: Cursor): Entry {
    if key in ledger then ledger[key] else FreshEntry(first)
  }

  /** A transcript that changed under its cursor is flagged, and only then: any difference in the absorbed prefix shows,
      short of a hash collision with what was absorbed. */
  lemma RewritesAreDetected(entry: Entry, absorbed: seq<Byte>, content: seq<Byte>, sha: Sha)
    requires entry.status != Pending && |content| > entry.last.size
    requires |absorbed| == entry.last.size && entry.last.prefixHash == sha(absorbed)
    requires sha(content[..|absorbed|]) == sha(absorbed) ==> content[..|absorbed|] == absorbed
    ensures Evaluate(entry, content, sha).Mismatch? <==> content[..|absorbed|] != absorbed
    ensures Evaluate(entry, content, sha).Ready? <==> absorbed <= content
  {
    assert Prefix(content, |absorbed|) == content[..|absorbed|];
  }

  /** A transcript the ledger does not know has absorbed what its first cursor says and waits for nothing, so only what lies beyond is new. */
  lemma UnknownTranscriptStartsAt(ledger: map<Key, Entry>, key: Key, first: Cursor, content: seq<Byte>, sha: Sha)
    requires key !in ledger
    ensures var entry := EntryFor(ledger, key, first);
            && entry.status == Absorbed && entry.last == first && entry.pendingJobId.None? && entry.lastJobId.None? && entry.lastError.None?
            && entry.pendingToSize.None? && entry.pendingToLine.None? && entry.pendingPrefixHash.None?
            && (Evaluate(entry, content, sha).Skip? <==> |content| <= first.size)
  {
  }

  /** What a sweep answers for a transcript, and what it leaves in the entry of one that changed under its cursor. */
  lemma DecisionTells(entry: Entry, content: seq<Byte>, sha: Sha)
    ensures entry.status == Pending ==> Evaluate(entry, content, sha) == Skip("sync-already-pending")
    ensures entry.status != Pending && |content| <= entry.last.size ==> Evaluate(entry, content, sha) == Skip("unchanged")
    ensures entry.status != Pending && |content| > entry.last.size && sha(content[..entry.last.size]) != entry.last.prefixHash ==>
              Evaluate(entry, content, sha).Mismatch?
              && Evaluate(entry, content, sha).entry
                 == Entry(NeedsAttention, entry.last, entry.pendingToSize, entry.pendingToLine, entry.pendingPrefixHash, entry.pendingJobId,
                          entry.lastJobId, Some("transcript prefix no longer matches ledger cursor"))
    ensures entry.status != Pending && |content| > entry.last.size && sha(content[..entry.last.size]) == entry.last.prefixHash ==>
              Evaluate(entry, content, sha) == Ready(entry.last.line + 1, CountLines(content))
  {
  }

  // ---- The sweep, the jobs and the growing files as one system ---------------------------------------

  /** Besides the files: where each transcript's first cursor stood and what the file was then, and the jobs started for it,
      in order. */
  datatype State = State(
    contents: map<Key, seq<Byte>>,
    ledger: map<Key, Entry>,
    jobs: map<JobId, Job>,
    starts: map<Key, Cursor>,
    origins: map<Key, seq<Byte>>,
    offered: map<Key, seq<JobId>>)

  const EMPTY := State(map[], map[], map[], map[], map[], map[])

  /** One candidate of a sweep in sync mode is one step: starting the job and writing the ledger are not torn apart. */
  datatype Step =
    | Append(key: Key, bytes: seq<Byte>)
    | Sweep(key: Key, first: Cursor, result: StartResult)
    | SweepUnreadable
    | JobMoves(jobId: JobId, status: JobStatus, error: string)

  predicate Enabled(s: State, step: Step, sha: Sha) {
    match step
    case Append(_, _) => true
    case Sweep(key, first, result) =>
      && key in s.contents
      && (key !in s.ledger ==> Computed(first, s.contents[key], sha))
      && (result.Started? ==> result.jobId !in s.jobs)
    case SweepUnreadable => true
    case JobMoves(jobId, status, _) => jobId in s.jobs && !Ended(s.jobs[jobId].status) && status != Queued
  }

  function OfferedTo(s: State, key: Key): seq<JobId> {
    if key in s.offered then s.offered[key] else []
  }

  function Swept(s: State, key: Key, first: Cursor, result: StartResult, sha: Sha): State
    requires key in s.contents
  {
    var ledger, content := ReconcileAll(s.ledger, s.jobs), s.contents[key];
    var entry := EntryFor(ledger, key, first);
    var swept := s.(ledger := ledger[key := AfterDecision(entry, content, result, sha)],
                    starts := if key in s.ledger then s.starts else s.starts[key := first],
                    origins := if key in s.ledger then s.origins else s.origins[key := content],
                    offered := s.offered[key := OfferedTo(s, key)]);
    if Evaluate(entry, content, sha).Ready? && result.Started?
    then swept.(jobs := s.jobs[result.jobId := Job(key, entry.last, EndCursor(content, sha), Queued, "")],
                offered := s.offered[key := OfferedTo(s, key) + [result.jobId]])
    else swept
  }

  function Do(s: State, step: Step, sha: Sha): State
    requires Enabled(s, step, sha)
  {
    match step
    case Append(key, bytes) => s.(contents := s.contents[key := (if key in s.contents then s.contents[key] else []) + bytes])
    case Sweep(key, first, result) => Swept(s, key, first, result, sha)
    case SweepUnreadable => s.(ledger := ReconcileAll(s.ledger, s.jobs))
    case JobMoves(jobId, status, error) => s.(jobs := s.jobs[jobId := s.jobs[jobId].(status := status, error := error)])
  }

  predicate Legal(steps: seq<Step>, sha: Sha)
    decreases |steps|, 0
  {
    |steps| == 0
    || (Legal(steps[..|steps| - 1], sha) && Enabled(Reached(steps[..|steps| - 1], sha), steps[|steps| - 1], sha))
  }

  function Reached(steps: seq<Step>, sha: Sha): State
    requires Legal(steps, sha)
    decreases |steps|, 1
  {
    if |steps| == 0 then EMPTY else Do(Reached(steps[..|steps| - 1], sha), steps[|steps| - 1], sha)
  }

  // ---- Ranges that follow each other ------------------------------------------------------------------

  /** The cursor after some jobs: each one that ended done moved it to its end, every other left it where it was. */
  function CursorAfter(ids: seq<JobId>, jobs: map<JobId, Job>, start: Cursor): Cursor {
    if ids == [] then start
    else var id := ids[|ids| - 1];
      if id in jobs && jobs[id].status == Done then jobs[id].to else CursorAfter(ids[..|ids| - 1], jobs, start)
  }

  /** Each job was offered the bytes from the cursor its predecessors left to somewhere further on. */
  predicate Chained(ids: seq<JobId>, jobs: map<JobId, Job>, start: Cursor) {
    forall i {:trigger ids[i]} :: 0 <= i < |ids| ==>
      && ids[i] in jobs
      && jobs[ids[i]].from == CursorAfter(ids[..i], jobs, start)
      && jobs[ids[i]].from.size < jobs[ids[i]].to.size
  }

  /** The first `count` jobs have ended. */
  predicate FirstEnded(ids: seq<JobId>, count: nat, jobs: map<JobId, Job>)
    requires count <= |ids|
  {
    forall i {:trigger ids[i]} :: 0 <= i < count ==> ids[i] in jobs && Ended(jobs[ids[i]].status)
  }

  /** Jobs that have ended change no more, so what they left of the cursor does not either. */
  lemma {:induction false} CursorStays(ids: seq<JobId>, jobs: map<JobId, Job>, jobs': map<JobId, Job>, start: Cursor)
    requires forall i {:trigger ids[i]} :: 0 <= i < |ids| ==> ids[i] in jobs && ids[i] in jobs' && jobs[ids[i]] == jobs'[ids[i]]
    ensures CursorAfter(ids, jobs, start) == CursorAfter(ids, jobs', start)
  {
    if ids != [] {
      var init := ids[..|ids| - 1];
      assert forall i :: 0 <= i < |init| ==> init[i] == ids[i];
      CursorStays(init, jobs, jobs', start);
    }
  }

  /** Only the last job may still move, and that changes nothing about the cursors the others were offered. */
  lemma ChainStays(ids: seq<JobId>, jobs: map<JobId, Job>, jobs': map<JobId, Job>, start: Cursor)
    requires Chained(ids, jobs, start)
    requires forall i {:trigger ids[i]} :: 0 <= i < |ids| ==>
               && ids[i] in jobs' && jobs[ids[i]].from == jobs'[ids[i]].from && jobs[ids[i]].to == jobs'[ids[i]].to
               && (i < |ids| - 1 ==> jobs[ids[i]] == jobs'[ids[i]])
    ensures Chained(ids, jobs', start)
  {
    forall i | 0 <= i < |ids| ensures jobs'[ids[i]].from == CursorAfter(ids[..i], jobs', start) {
      assert forall k :: 0 <= k < i ==> ids[..i][k] == ids[k];
      CursorStays(ids[..i], jobs, jobs', start);
    }
  }

  lemma {:induction false} ChainGrows(ids: seq<JobId>, id: JobId, jobs: map<JobId, Job>, start: Cursor)
    requires Chained(ids, jobs, start) && id in jobs
    requires jobs[id].from == CursorAfter(ids, jobs, start) && jobs[id].from.size < jobs[id].to.size
    ensures Chained(ids + [id], jobs, start)
  {
    var more := ids + [id];
    forall i | 0 <= i < |more| ensures more[i] in jobs && jobs[more[i]].from == CursorAfter(more[..i], jobs, start)
                                       && jobs[more[i]].from.size < jobs[more[i]].to.size {
      if i < |ids| {
        assert more[..i] == ids[..i] && more[i] == ids[i];
      } else {
        assert more[..i] == ids;
      }
    }
  }

  // ---- The invariant of one transcript ------------------------------------------------------------------

  predicate WaitsFor(entry: Entry, id: JobId, jobs: map<JobId, Job>, content: seq<Byte>, sha: Sha) {
    && entry.pendingJobId == Some(id) && id in jobs && jobs[id].from == entry.last
    && entry.pendingToSize == Some(jobs[id].to.size) && entry.pendingToLine == Some(jobs[id].to.line)
    && entry.pendingPrefixHash == Some(jobs[id].to.prefixHash)
    && jobs[id].from.size < jobs[id].to.size && Describes(jobs[id].to, content, sha)
  }

  /** The first cursor was made from what is still the beginning of the file. */
  predicate StartOk(start: Cursor, origin: seq<Byte>, content: seq<Byte>, sha: Sha) {
    origin <= content && Computed(start, origin, sha)
  }

  /** The file is long enough for the first cursor, and its hash is right for it. */
  predicate Fits(start: Cursor, content: seq<Byte>, sha: Sha) {
    start.size <= |content| && start.prefixHash == sha(content[..start.size])
  }

  predicate EntryOk(entry: Entry, content: seq<Byte>, ids: seq<JobId>, jobs: map<JobId, Job>, start: Cursor, origin: seq<Byte>, sha: Sha) {
    && StartOk(start, origin, content, sha) && Chained(ids, jobs, start)
    && (entry.last == start || Describes(entry.last, content, sha))
    && (ids != [] ==> Fits(start, content, sha))
    && (entry.status == NeedsAttention ==> start.size < |content| && !Fits(start, content, sha))
    && if entry.status == Pending
       then |ids| > 0 && WaitsFor(entry, ids[|ids| - 1], jobs, content, sha) && FirstEnded(ids, |ids| - 1, jobs)
       else FirstEnded(ids, |ids|, jobs) && CursorAfter(ids, jobs, start) == entry.last
  }

  predicate KeyOk(s: State, key: Key, sha: Sha)
    requires key in s.ledger
  {
    && key in s.contents && key in s.starts && key in s.origins && key in s.offered
    && EntryOk(s.ledger[key], s.contents[key], s.offered[key], s.jobs, s.starts[key], s.origins[key], sha)
  }

  predicate JobIsOffered(s: State, id: JobId)
    requires id in s.jobs
  {
    s.jobs[id].key in s.offered && id in s.offered[s.jobs[id].key]
  }

  ghost predicate Inv(s: State, sha: Sha) {
    && (forall key {:trigger KeyOk(s, key, sha)} :: key in s.ledger ==> KeyOk(s, key, sha))
    && (forall key {:trigger key in s.offered} :: key in s.offered ==> key in s.ledger)
    && (forall id {:trigger JobIsOffered(s, id)} :: id in s.jobs ==> JobIsOffered(s, id))
  }

  /** Appending never disturbs what a cursor says about the bytes before it. */
  lemma AppendKeepsCursor(cursor: Cursor, content: seq<Byte>, bytes: seq<Byte>, sha: Sha)
    requires Describes(cursor, content, sha)
    ensures Describes(cursor, content + bytes, sha)
  {
    assert (content + bytes)[..cursor.size] == content[..cursor.size];
  }

  lemma AppendKeepsEntry(entry: Entry, content: seq<Byte>, bytes: seq<Byte>, ids: seq<JobId>, jobs: map<JobId, Job>, start: Cursor, origin: seq<Byte>,
                         sha: Sha)
    requires EntryOk(entry, content, ids, jobs, start, origin, sha)
    ensures EntryOk(entry, content + bytes, ids, jobs, start, origin, sha)
  {
    assert start.size <= |content| ==> (content + bytes)[..start.size] == content[..start.size];
    if entry.last != start {
      AppendKeepsCursor(entry.last, content, bytes, sha);
    }
    if entry.status == Pending {
      AppendKeepsCursor(jobs[ids[|ids| - 1]].to, content, bytes, sha);
    }
  }

  lemma ReconcileKeepsEntry(entry: Entry, content: seq<Byte>, ids: seq<JobId>, jobs: map<JobId, Job>, start: Cursor, origin: seq<Byte>,
                            sha: Sha)
    requires EntryOk(entry, content, ids, jobs, start, origin, sha)
    ensures EntryOk(Reconciled(entry, JobOf(jobs, entry)), content, ids, jobs, start, origin, sha)
  {
    if Reconciled(entry, JobOf(jobs, entry)) != entry {
      var last := |ids| - 1;
      assert jobs[ids[last]].from == CursorAfter(ids[..last], jobs, start);
    }
  }

  /** Taking in new jobs or later states of unfinished ones leaves the settled part of a transcript alone. */
  lemma JobsKeepEntry(entry: Entry, content: seq<Byte>, ids: seq<JobId>, jobs: map<JobId, Job>, jobs': map<JobId, Job>, start: Cursor, origin: seq<Byte>,
                      sha: Sha)
    requires EntryOk(entry, content, ids, jobs, start, origin, sha)
    requires forall id {:trigger jobs[id]} :: id in jobs ==>
               && id in jobs' && jobs[id].from == jobs'[id].from && jobs[id].to == jobs'[id].to
               && (Ended(jobs[id].status) ==> jobs'[id] == jobs[id])
    ensures EntryOk(entry, content, ids, jobs', start, origin, sha)
  {
    ChainStays(ids, jobs, jobs', start);
    if entry.status != Pending {
      CursorStays(ids, jobs, jobs', start);
    }
  }

  /** The decision and the start: `jobs'` holds the started job, if one was started. */
  lemma SweepKeepsEntry(entry: Entry, content: seq<Byte>, ids: seq<JobId>, jobs: map<JobId, Job>, start: Cursor, origin: seq<Byte>,
                        result: StartResult, key: Key, sha: Sha)
    requires EntryOk(entry, content, ids, jobs, start, origin, sha) && (result.Started? ==> result.jobId !in jobs)
    ensures var started := Evaluate(entry, content, sha).Ready? && result.Started?;
            var jobs' := if started then jobs[result.jobId := Job(key, entry.last, EndCursor(content, sha), Queued, "")] else jobs;
            var ids' := if started then ids + [result.jobId] else ids;
            EntryOk(AfterDecision(entry, content, result, sha), content, ids', jobs', start, origin, sha)
  {
    if Evaluate(entry, content, sha).Ready? && result.Started? {
      var jobs' := jobs[result.jobId := Job(key, entry.last, EndCursor(content, sha), Queued, "")];
      JobsKeepEntry(entry, content, ids, jobs, jobs', start, origin, sha);
      assert content[..|content|] == content;
      ChainGrows(ids, result.jobId, jobs', start);
    }
  }
  /** A sweep over another transcript reconciles this one too, and may add a job that is not its own. */
  lemma SweepElsewhere(s: State, step: Step, key: Key, sha: Sha)
    requires Enabled(s, step, sha) && step.Sweep? && key in s.ledger && KeyOk(s, key, sha) && step.key != key
    ensures KeyOk(Do(s, step, sha), key, sha)
  {
    var entry, content, ids, start := s.ledger[key], s.contents[key], s.offered[key], s.starts[key];
    ReconcileKeepsEntry(entry, content, ids, s.jobs, start, s.origins[key], sha);
    JobsKeepEntry(Reconciled(entry, JobOf(s.jobs, entry)), content, ids, s.jobs, Do(s, step, sha).jobs, start, s.origins[key], sha);
  }

  lemma SweepHere(s: State, step: Step, sha: Sha)
    requires Enabled(s, step, sha) && step.Sweep?
    requires step.key in s.ledger ==> KeyOk(s, step.key, sha)
    requires step.key !in s.ledger ==> step.key !in s.offered
    ensures KeyOk(Do(s, step, sha), step.key, sha)
  {
    var key, content := step.key, s.contents[step.key];
    if key in s.ledger {
      var entry := s.ledger[key];
      ReconcileKeepsEntry(entry, content, s.offered[key], s.jobs, s.starts[key], s.origins[key], sha);
      SweepKeepsEntry(Reconciled(entry, JobOf(s.jobs, entry)), content, s.offered[key], s.jobs, s.starts[key], s.origins[key], step.result, key, sha);
    } else {
      SweepKeepsEntry(FreshEntry(step.first), content, [], s.jobs, step.first, content, step.result, key, sha);
    }
  }

  lemma OthersKeepKey(s: State, step: Step, key: Key, sha: Sha)
    requires Enabled(s, step, sha) && !step.Sweep? && key in s.ledger && KeyOk(s, key, sha)
    ensures KeyOk(Do(s, step, sha), key, sha)
  {
    var entry, content, ids, start := s.ledger[key], s.contents[key], s.offered[key], s.starts[key];
    match step
    case Append(_, bytes) => AppendKeepsEntry(entry, content, bytes, ids, s.jobs, start, s.origins[key], sha);
    case SweepUnreadable => ReconcileKeepsEntry(entry, content, ids, s.jobs, start, s.origins[key], sha);
    case JobMoves(_, _, _) => JobsKeepEntry(entry, content, ids, s.jobs, Do(s, step, sha).jobs, start, s.origins[key], sha);
  }

  lemma KeyStaysOk(s: State, step: Step, key: Key, sha: Sha)
    requires Inv(s, sha) && Enabled(s, step, sha) && key in Do(s, step, sha).ledger
    ensures KeyOk(Do(s, step, sha), key, sha)
  {
    assert key in s.ledger ==> KeyOk(s, key, sha);
    if !step.Sweep? {
      OthersKeepKey(s, step, key, sha);
    } else if step.key == key {
      SweepHere(s, step, sha);
    } else {
      SweepElsewhere(s, step, key, sha);
    }
  }

  lemma JobStaysOffered(s: State, step: Step, id: JobId, sha: Sha)
    requires Enabled(s, step, sha) && id in Do(s, step, sha).jobs
    requires id in s.jobs ==> JobIsOffered(s, id)
    ensures JobIsOffered(Do(s, step, sha), id)
  {
    if step.Sweep? && id !in s.jobs {
      assert id == step.result.jobId;
      var ids := OfferedTo(s, step.key) + [id];
      assert ids[|ids| - 1] == id;
    }
  }

  lemma StepKeepsInv(s: State, step: Step, sha: Sha)
    requires Inv(s, sha) && Enabled(s, step, sha)
    ensures Inv(Do(s, step, sha), sha)
  {
    var after := Do(s, step, sha);
    forall key | key in after.ledger ensures KeyOk(after, key, sha) {
      KeyStaysOk(s, step, key, sha);
    }
    forall id | id in after.jobs ensures JobIsOffered(after, id) {
      assert id in s.jobs ==> JobIsOffered(s, id);
      JobStaysOffered(s, step, id, sha);
    }
    forall key | key in after.offered ensures key in after.ledger {
      assert key in s.offered ==> key in s.ledger;
    }
  }

  lemma {:induction false} ReachedIsSound(steps: seq<Step>, sha: Sha)
    requires Legal(steps, sha)
    ensures Inv(Reached(steps, sha), sha)
  {
    if |steps| > 0 {
      ReachedIsSound(steps[..|steps| - 1], sha);
      StepKeepsInv(Reached(steps[..|steps| - 1], sha), steps[|steps| - 1], sha);
    }
  }

  // ---- What follows for a transcript ------------------------------------------------------------------

  datatype Range = Range(from: nat, to: nat)

  /** The byte ranges of the jobs that ended done, in the order the jobs were started. */
  function DoneRanges(ids: seq<JobId>, jobs: map<JobId, Job>): seq<Range> {
    if ids == [] then []
    else var id := ids[|ids| - 1];
      DoneRanges(ids[..|ids| - 1], jobs)
      + if id in jobs && jobs[id].status == Done then [Range(jobs[id].from.size, jobs[id].to.size)] else []
  }

  /** Non-empty ranges that follow each other from one end to the other. */
  predicate Tiles(ranges: seq<Range>, from: nat, to: nat) {
    if ranges == [] then from == to
    else var last := ranges[|ranges| - 1];
      last.from < last.to == to && Tiles(ranges[..|ranges| - 1], from, last.from)
  }

  lemma {:induction false} ChainTiles(ids: seq<JobId>, jobs: map<JobId, Job>, start: Cursor)
    requires Chained(ids, jobs, start)
    ensures Tiles(DoneRanges(ids, jobs), start.size, CursorAfter(ids, jobs, start).size)
  {
    if ids != [] {
      var init, id := ids[..|ids| - 1], ids[|ids| - 1];
      assert forall i :: 0 <= i < |init| ==> init[i] == ids[i] && init[..i] == ids[..i];
      ChainTiles(init, jobs, start);
      var ranges := DoneRanges(init, jobs);
      if jobs[id].status == Done {
        assert (ranges + [Range(jobs[id].from.size, jobs[id].to.size)])[..|ranges|] == ranges;
        assert jobs[id].from == CursorAfter(init, jobs, start);
      } else {
        assert DoneRanges(ids, jobs) == ranges;
      }
    }
  }

  /** A tiling puts every position between its ends into exactly one range, and no other position into any. */
  lemma {:induction false} TilesCoverOnce(ranges: seq<Range>, from: nat, to: nat, byte: nat)
    requires Tiles(ranges, from, to)
    ensures from <= to
    ensures from <= byte < to <==> exists i :: 0 <= i < |ranges| && ranges[i].from <= byte < ranges[i].to
    ensures forall i, j :: 0 <= i < j < |ranges| ==> ranges[i].to <= ranges[j].from
    ensures forall i :: 0 <= i < |ranges| ==> ranges[i].to <= to
  {
    if ranges != [] {
      var init, last := ranges[..|ranges| - 1], ranges[|ranges| - 1];
      TilesCoverOnce(init, from, last.from, byte);
      if from <= byte < last.from {
        var i :| 0 <= i < |init| && init[i].from <= byte < init[i].to;
        assert ranges[i] == init[i];
      }
      forall i | 0 <= i < |ranges| && ranges[i].from <= byte < ranges[i].to ensures from <= byte < to {
        if i < |init| {
          assert init[i] == ranges[i];
        }
      }
    }
  }

  /** Over every run on append-only files the ranges of the jobs that ended done tile the transcript from its first cursor,
      and each byte they cover was absorbed by exactly one of them. */
  lemma {:induction false} DoneJobsTile(steps: seq<Step>, key: Key, byte: nat, sha: Sha)
    requires Legal(steps, sha) && key in Reached(steps, sha).ledger
    ensures var s := Reached(steps, sha);
            && key in s.offered && key in s.starts
            && var ranges := DoneRanges(s.offered[key], s.jobs);
               var end := CursorAfter(s.offered[key], s.jobs, s.starts[key]).size;
               && Tiles(ranges, s.starts[key].size, end)
               && (s.starts[key].size <= byte < end <==> exists i :: 0 <= i < |ranges| && ranges[i].from <= byte < ranges[i].to)
               && (forall i, j :: 0 <= i < j < |ranges| ==> ranges[i].to <= ranges[j].from)
  {
    var s := Reached(steps, sha);
    ReachedIsSound(steps, sha);
    assert KeyOk(s, key, sha);
    ChainTiles(s.offered[key], s.jobs, s.starts[key]);
    TilesCoverOnce(DoneRanges(s.offered[key], s.jobs), s.starts[key].size,
                   CursorAfter(s.offered[key], s.jobs, s.starts[key]).size, byte);
  }

  /** The job after one that did not end done gets the same first byte again; after one that did, the byte behind it. */
  lemma {:induction false} NextJobContinues(steps: seq<Step>, key: Key, i: nat, sha: Sha)
    requires Legal(steps, sha) && key in Reached(steps, sha).ledger
    requires i + 1 < |OfferedTo(Reached(steps, sha), key)|
    ensures var s := Reached(steps, sha);
            var ids := OfferedTo(s, key);
            && ids[i] in s.jobs && ids[i + 1] in s.jobs && Ended(s.jobs[ids[i]].status)
            && s.jobs[ids[i + 1]].from == if s.jobs[ids[i]].status == Done then s.jobs[ids[i]].to else s.jobs[ids[i]].from
  {
    var s := Reached(steps, sha);
    ReachedIsSound(steps, sha);
    assert KeyOk(s, key, sha);
    var ids := s.offered[key];
    assert ids[..i + 1][..i] == ids[..i];
    assert s.jobs[ids[i + 1]].from == CursorAfter(ids[..i + 1], s.jobs, s.starts[key]);
    assert s.jobs[ids[i]].from == CursorAfter(ids[..i], s.jobs, s.starts[key]);
  }

  lemma UnendedIsAwaited(entry: Entry, content: seq<Byte>, ids: seq<JobId>, jobs: map<JobId, Job>, start: Cursor, origin: seq<Byte>,
                        id: JobId, sha: Sha)
    requires EntryOk(entry, content, ids, jobs, start, origin, sha) && id in ids && id in jobs && !Ended(jobs[id].status)
    ensures entry.status == Pending && ids[|ids| - 1] == id
  {
    var i :| 0 <= i < |ids| && ids[i] == id;
  }

  /** A job that has not ended is the last one started for its transcript, the ledger waits for it, and while it does
      every sweep passes the transcript by. */
  lemma {:induction false} OnePendingJob(steps: seq<Step>, id: JobId, content: seq<Byte>, sha: Sha)
    requires Legal(steps, sha) && id in Reached(steps, sha).jobs && !Ended(Reached(steps, sha).jobs[id].status)
    ensures var s := Reached(steps, sha);
            var key := s.jobs[id].key;
            && key in s.ledger && s.ledger[key].status == Pending && s.ledger[key].pendingJobId == Some(id)
            && Evaluate(s.ledger[key], content, sha) == Skip("sync-already-pending")
  {
    var s := Reached(steps, sha);
    ReachedIsSound(steps, sha);
    var key := s.jobs[id].key;
    assert JobIsOffered(s, id) && key in s.offered;
    assert KeyOk(s, key, sha);
    UnendedIsAwaited(s.ledger[key], s.contents[key], s.offered[key], s.jobs, s.starts[key], s.origins[key], id, sha);
  }

  // ---- What follows from a first cursor that does not describe its file ---------------------------------

  /** What a sweep finds of a transcript in a reachable state. */
  lemma {:induction false} KeyIsOk(steps: seq<Step>, key: Key, sha: Sha)
    requires Legal(steps, sha) && key in Reached(steps, sha).ledger
    ensures KeyOk(Reached(steps, sha), key, sha)
  {
    ReachedIsSound(steps, sha);
    assert KeyOk(Reached(steps, sha), key, sha);
  }

  /** The hash does not confuse the file the first cursor was made from with a longer beginning of it. */
  predicate Distinguished(s: State, key: Key, sha: Sha)
    requires key in s.contents && key in s.starts && key in s.origins
  {
    sha(Prefix(s.contents[key], s.starts[key].size)) == sha(s.origins[key]) ==> Prefix(s.contents[key], s.starts[key].size) == s.origins[key]
  }

  /** The first cursor lies beyond the file it was made from, and the file has grown past it since. */
  predicate Overtaken(s: State, key: Key)
    requires key in s.contents && key in s.starts && key in s.origins
  {
    |s.origins[key]| < s.starts[key].size < |s.contents[key]|
  }

  lemma OvertakenDoesNotFit(s: State, key: Key, sha: Sha)
    requires key in s.ledger && KeyOk(s, key, sha) && Distinguished(s, key, sha)
    ensures s.starts[key].size < |s.contents[key]| ==> (!Fits(s.starts[key], s.contents[key], sha) <==> Overtaken(s, key))
  {
    var start, origin, content := s.starts[key], s.origins[key], s.contents[key];
    if start.size <= |origin| {
      assert content[..start.size] == origin[..start.size];
    }
  }

  /** A sweep flags a transcript that was only appended to if and only if the file has grown past a first cursor that lay beyond it;
      and then no job was ever started for it. */
  lemma {:induction false} FlaggedExactly(steps: seq<Step>, key: Key, sha: Sha)
    requires Legal(steps, sha) && key in Reached(steps, sha).ledger
    ensures var s := Reached(steps, sha);
            && KeyOk(s, key, sha)
            && (Distinguished(s, key, sha) ==>
                  && (Evaluate(s.ledger[key], s.contents[key], sha).Mismatch? <==> Overtaken(s, key))
                  && (s.ledger[key].status == NeedsAttention ==> Overtaken(s, key))
                  && (Overtaken(s, key) ==> s.offered[key] == []))
  {
    var s := Reached(steps, sha);
    KeyIsOk(steps, key, sha);
    if Distinguished(s, key, sha) {
      OvertakenDoesNotFit(s, key, sha);
    }
  }

  /** A first cursor and its origin stay, and the file only grows: so what is flagged once stays flagged. */
  lemma {:induction false} FirstCursorStays(steps: seq<Step>, moment: nat, key: Key, sha: Sha)
    requires Legal(steps, sha) && moment <= |steps| && Legal(steps[..moment], sha) && key in Reached(steps[..moment], sha).ledger
    ensures var earlier, later := Reached(steps[..moment], sha), Reached(steps, sha);
            && key in later.ledger && KeyOk(earlier, key, sha) && KeyOk(later, key, sha)
            && later.starts[key] == earlier.starts[key] && later.origins[key] == earlier.origins[key]
            && earlier.contents[key] <= later.contents[key] && (Overtaken(earlier, key) ==> Overtaken(later, key))
  {
    if moment == |steps| {
      assert steps[..moment] == steps;
      KeyIsOk(steps, key, sha);
    } else {
      var before := steps[..|steps| - 1];
      assert before[..moment] == steps[..moment];
      FirstCursorStays(before, moment, key, sha);
      StepKeepsStart(Reached(before, sha), steps[|steps| - 1], key, sha);
      KeyIsOk(steps, key, sha);
    }
  }

  lemma StepKeepsStart(s: State, step: Step, key: Key, sha: Sha)
    requires Enabled(s, step, sha) && key in s.ledger && KeyOk(s, key, sha)
    ensures var after := Do(s, step, sha);
            && key in after.ledger && key in after.starts && key in after.origins && key in after.contents
            && after.starts[key] == s.starts[key] && after.origins[key] == s.origins[key] && s.contents[key] <= after.contents[key]
  {
  }

  lemma {:induction false} CursorIsBeyondStart(ids: seq<JobId>, jobs: map<JobId, Job>, start: Cursor)
    requires Chained(ids, jobs, start)
    ensures CursorAfter(ids, jobs, start).size >= start.size
  {
    ChainTiles(ids, jobs, start);
    TilesCoverOnce(DoneRanges(ids, jobs), start.size, CursorAfter(ids, jobs, start).size, 0);
  }

  /** Bytes before the first cursor are offered to no job, whether the cursor describes them or not. */
  lemma {:induction false} BytesBeforeStartAreNotOffered(steps: seq<Step>, key: Key, id: JobId, sha: Sha)
    requires Legal(steps, sha) && key in Reached(steps, sha).ledger && id in OfferedTo(Reached(steps, sha), key)
    ensures var s := Reached(steps, sha); key in s.starts && id in s.jobs && s.jobs[id].from.size >= s.starts[key].size
  {
    var s := Reached(steps, sha);
    KeyIsOk(steps, key, sha);
    var ids := s.offered[key];
    var i :| 0 <= i < |ids| && ids[i] == id;
    assert s.jobs[ids[i]].from == CursorAfter(ids[..i], s.jobs, s.starts[key]);
    assert forall k :: 0 <= k < i ==> ids[..i][k] == ids[k] && ids[..i][..k] == ids[..k];
    assert Chained(ids[..i], s.jobs, s.starts[key]);
    CursorIsBeyondStart(ids[..i], s.jobs, s.starts[key]);
  }

  /** The ledger's cursor describes the absorbed prefix of a transcript that was only appended to if and only if a job has ended done
      for it or its first cursor described the file it was made from. */
  lemma {:induction false} CursorsDescribe(steps: seq<Step>, key: Key, sha: Sha)
    requires Legal(steps, sha) && key in Reached(steps, sha).ledger
    ensures var s := Reached(steps, sha);
            && KeyOk(s, key, sha)
            && (Distinguished(s, key, sha) ==>
                  (Describes(s.ledger[key].last, s.contents[key], sha) <==>
                   s.ledger[key].last != s.starts[key] || Describes(s.starts[key], s.origins[key], sha)))
  {
    var s := Reached(steps, sha);
    KeyIsOk(steps, key, sha);
    var start, origin, content := s.starts[key], s.origins[key], s.contents[key];
    if start.size <= |origin| {
      assert content[..start.size] == origin[..start.size];
    }
  }

  lemma {:induction false} Extended(steps: seq<Step>, step: Step, sha: Sha)
    requires Legal(steps, sha) && Enabled(Reached(steps, sha), step, sha)
    ensures Legal(steps + [step], sha) && Reached(steps + [step], sha) == Do(Reached(steps, sha), step, sha)
  {
    assert (steps + [step])[..|steps|] == steps;
  }

  lemma FirstSweep(key: Key, content: seq<Byte>, first: Cursor, result: StartResult, sha: Sha) returns (steps: seq<Step>)
    requires first.size > |content| && first.prefixHash == sha(content)
    ensures Legal(steps, sha)
    ensures var s := Reached(steps, sha); s.contents == map[key := content] && s.ledger == map[key := FreshEntry(first)] && s.jobs == map[]
  {
    steps := [];
    Extended(steps, Append(key, content), sha);
    steps := steps + [Append(key, content)];
    assert Reached(steps, sha).contents[key] == content;
    Extended(steps, Sweep(key, first, result), sha);
    steps := steps + [Sweep(key, first, result)];
  }

  /** It happens: a transcript whose first line is malformed and short, and a recent second line. The first sweep sets its cursor
      beyond the file, and the first sweep after the file has grown flags it. */
  lemma {:induction false} MalformedTranscriptIsFlagged(key: Key, result: StartResult, sha: Sha) returns (steps: seq<Step>)
    requires sha([128, 10, 97, 98]) != sha([128, 10, 97])
    ensures Legal(steps, sha) && key in Reached(steps, sha).ledger && Reached(steps, sha).ledger[key].status == NeedsAttention
  {
    var content: seq<Byte> := [128, 10, 97];
    var first := Cursor(4, 1, sha(content));
    steps := FirstSweep(key, content, first, result, sha);
    Extended(steps, Append(key, [98, 99]), sha);
    steps := steps + [Append(key, [98, 99])];
    assert Prefix(Reached(steps, sha).contents[key], 4) == [128, 10, 97, 98];
    Extended(steps, Sweep(key, first, result), sha);
    steps := steps + [Sweep(key, first, result)];
  }
}
