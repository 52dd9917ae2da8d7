/** One sweep over the transcript candidates: eligibility, repository locks, ledgers and the summary. */
module SyncSweep {
  import opened Outcomes
  import opened SyncCursors
  import opened SyncLedger
  import JobRecords

  type Repo = string
  type Ledger = map<Key, Entry>

  datatype Mode = Sync | Status

  datatype Candidate = Candidate(app: string, sessionId: string, transcriptPath: string, repoRoot: Repo, mtimeMs: int)

  /** A candidate and what the sweep meets when its turn comes: job records, the file, and how starting a job would end. */
  datatype Turn = Turn(
    candidate: Candidate,
    internalSession: bool,
    lockFree: bool,
    jobs: map<JobId, Job>,
    content: Result<seq<Byte>, string>,
    first: Cursor,
    start: StartResult)

  datatype Args = Args(syncSince: Option<int>, quietMs: int, mode: Mode, now: int)

  datatype Line = Line(transcriptPath: string, reason: string)
  datatype ReadyLine = ReadyLine(transcriptPath: string, fromLine: nat, toLine: nat)
  datatype StartedLine = StartedLine(transcriptPath: string, jobId: JobId, fromLine: nat, toLine: nat)

  datatype Summary = Summary(scanned: nat, eligible: nat, ready: seq<ReadyLine>, started: seq<StartedLine>, skipped: seq<Line>,
                             needsAttention: seq<Line>)

  function LedgerKey(candidate: Candidate): Key {
    candidate.app + ":" + candidate.transcriptPath
  }

  /** Why a candidate is passed over before its repository is touched. */
  function Refusal(turn: Turn, args: Args): Option<string> {
    if args.syncSince.Some? && turn.candidate.mtimeMs < args.syncSince.value then Some("before-automation-activation")
    else if args.now - turn.candidate.mtimeMs < args.quietMs then Some("quiet-window")
    else if turn.internalSession then Some("internal-almanac-session")
    else None
  }

  /** The repositories whose lock the sweep holds after some turns. */
  function Held(turns: seq<Turn>, args: Args): set<Repo> {
    if turns == [] then {}
    else
      var before, turn := Held(turns[..|turns| - 1], args), turns[|turns| - 1];
      if args.mode == Sync && Refusal(turn, args).None? && turn.lockFree then before + {turn.candidate.repoRoot} else before
  }

  /** Whether a turn gets as far as its ledger, given the locks held before it. */
  predicate Admitted(turn: Turn, held: set<Repo>, args: Args) {
    Refusal(turn, args).None? && (args.mode == Sync ==> turn.candidate.repoRoot in held || turn.lockFree)
  }

  /** What one admitted turn makes of its ledger; in status mode nothing is started. */
  function TurnLedger(ledger: Ledger, turn: Turn, mode: Mode, sha: Sha): Ledger {
    var reconciled, key := ReconcileAll(ledger, turn.jobs), LedgerKey(turn.candidate);
    if turn.content.Err? then reconciled
    else
      var entry := EntryFor(reconciled, key, turn.first);
      var decision := Evaluate(entry, turn.content.value, sha);
      reconciled[key := if decision.Mismatch? then decision.entry
                        else if decision.Ready? && mode == Sync then Enqueued(entry, turn.content.value, turn.start, sha)
                        else entry]
  }

  function Loaded(files: map<Repo, Ledger>, repo: Repo): Ledger {
    if repo in files then files[repo] else map[]
  }

  /** A repository's ledger in memory after some turns. */
  function LedgerAfter(files: map<Repo, Ledger>, turns: seq<Turn>, repo: Repo, args: Args, sha: Sha): Ledger {
    if turns == [] then Loaded(files, repo)
    else
      var init, turn := turns[..|turns| - 1], turns[|turns| - 1];
      var before := LedgerAfter(files, init, repo, args, sha);
      if turn.candidate.repoRoot == repo && Admitted(turn, Held(init, args), args) then TurnLedger(before, turn, args.mode, sha)
      else before
  }

  /** In sync mode a turn moves the ledger exactly as a sweep step of the protocol does. */
  lemma TurnIsSweepStep(s: State, turn: Turn, sha: Sha)
    requires turn.content.Ok? && LedgerKey(turn.candidate) in s.contents && s.contents[LedgerKey(turn.candidate)] == turn.content.value
    requires turn.jobs == s.jobs
    requires Enabled(s, Sweep(LedgerKey(turn.candidate), turn.first, turn.start), sha)
    ensures TurnLedger(s.ledger, turn, Sync, sha) == Do(s, Sweep(LedgerKey(turn.candidate), turn.first, turn.start), sha).ledger
  {
  }

  /** `reconcileLedger`: every entry in turn, in any order. */
  method ReconcileLedger(ledger: Ledger, jobs: map<JobId, Job>) returns (reconciled: Ledger)
    ensures reconciled == ReconcileAll(ledger, jobs)
  {
    reconciled := ledger;
    var left := ledger.Keys;
    while left != {}
      invariant left <= ledger.Keys && reconciled.Keys == ledger.Keys
      invariant forall key :: key in left ==> reconciled[key] == ledger[key]
      invariant forall key :: key in ledger && key !in left ==> reconciled[key] == Reconciled(ledger[key], JobOf(jobs, ledger[key]))
      decreases |left|
    {
      var key :| key in left;
      left := left - {key};
      reconciled := reconciled[key := Reconciled(reconciled[key], JobOf(jobs, reconciled[key]))];
    }
  }

  /** A turn's contribution to the summary. */
  datatype Verdict = Passed(reason: string) | Attention(reason: string) | ReadyFor(fromLine: nat, toLine: nat)
                   | StartedAs(jobId: JobId, fromLine: nat, toLine: nat) | CouldNotStart

  /** The verdict on a turn that got to its ledger. */
  function Judged(ledger: Ledger, turn: Turn, mode: Mode, sha: Sha): Verdict {
    if turn.content.Err? then Attention(turn.content.error)
    else match Evaluate(EntryFor(ReconcileAll(ledger, turn.jobs), LedgerKey(turn.candidate), turn.first), turn.content.value, sha)
      case Skip(reason) => Passed(reason)
      case Mismatch(_) => Attention("prefix-mismatch")
      case Ready(fromLine, toLine) =>
        if mode == Status then ReadyFor(fromLine, toLine)
        else if turn.start.Started? then StartedAs(turn.start.jobId, fromLine, toLine)
        else CouldNotStart
  }

  function VerdictIn(ledger: Ledger, turn: Turn, held: set<Repo>, args: Args, sha: Sha): Verdict {
    if Refusal(turn, args).Some? then Passed(Refusal(turn, args).value)
    else if !Admitted(turn, held, args) then Passed("sync-already-running")
    else Judged(ledger, turn, args.mode, sha)
  }

  /** The verdict on the last of some turns. */
  function VerdictOn(files: map<Repo, Ledger>, turns: seq<Turn>, args: Args, sha: Sha): Verdict
    requires turns != []
  {
    var init, turn := turns[..|turns| - 1], turns[|turns| - 1];
    VerdictIn(LedgerAfter(files, init, turn.candidate.repoRoot, args, sha), turn, Held(init, args), args, sha)
  }

  function Counted(summary: Summary, turn: Turn, verdict: Verdict): Summary {
    var path := turn.candidate.transcriptPath;
    match verdict
    case Passed(reason) => summary.(skipped := summary.skipped + [Line(path, reason)])
    case Attention(reason) => summary.(needsAttention := summary.needsAttention + [Line(path, reason)])
    case ReadyFor(fromLine, toLine) =>
      summary.(eligible := summary.eligible + 1, ready := summary.ready + [ReadyLine(path, fromLine, toLine)])
    case StartedAs(jobId, fromLine, toLine) =>
      summary.(eligible := summary.eligible + 1, started := summary.started + [StartedLine(path, jobId, fromLine, toLine)])
    case CouldNotStart =>
      summary.(eligible := summary.eligible + 1, needsAttention := summary.needsAttention + [Line(path, "absorb-start-failed")])
  }

  function Verdicts(files: map<Repo, Ledger>, turns: seq<Turn>, args: Args, sha: Sha): seq<Verdict> {
    if turns == [] then [] else Verdicts(files, turns[..|turns| - 1], args, sha) + [VerdictOn(files, turns, args, sha)]
  }

  function Summarised(turns: seq<Turn>, verdicts: seq<Verdict>, scanned: nat): Summary {
    if turns == [] || verdicts == [] then Summary(scanned, 0, [], [], [], [])
    else Counted(Summarised(turns[..|turns| - 1], verdicts[..|verdicts| - 1], scanned), turns[|turns| - 1], verdicts[|verdicts| - 1])
  }

  function StartFailures(verdicts: seq<Verdict>): nat {
    if verdicts == [] then 0
    else StartFailures(verdicts[..|verdicts| - 1]) + if verdicts[|verdicts| - 1].CouldNotStart? then 1 else 0
  }

  /** Status mode starts nothing, sync mode reports nothing as merely ready. */
  predicate FitsMode(verdict: Verdict, mode: Mode) {
    if mode == Sync then !verdict.ReadyFor? else !verdict.StartedAs? && !verdict.CouldNotStart?
  }

  lemma {:induction false} VerdictsFitMode(files: map<Repo, Ledger>, turns: seq<Turn>, args: Args, sha: Sha)
    ensures |Verdicts(files, turns, args, sha)| == |turns|
    ensures forall verdict :: verdict in Verdicts(files, turns, args, sha) ==> FitsMode(verdict, args.mode)
  {
    if turns != [] {
      VerdictsFitMode(files, turns[..|turns| - 1], args, sha);
      assert FitsMode(VerdictOn(files, turns, args, sha), args.mode);
    }
  }

  lemma CountedAddsUp(summary: Summary, turn: Turn, verdict: Verdict)
    ensures var after := Counted(summary, turn, verdict);
            && |after.ready| + |after.started| + |after.skipped| + |after.needsAttention|
               == |summary.ready| + |summary.started| + |summary.skipped| + |summary.needsAttention| + 1
            && after.eligible - |after.ready| - |after.started|
               == summary.eligible - |summary.ready| - |summary.started| + (if verdict.CouldNotStart? then 1 else 0)
            && |after.needsAttention| >= |summary.needsAttention| + (if verdict.CouldNotStart? then 1 else 0)
            && after.scanned == summary.scanned
            && (!verdict.ReadyFor? ==> after.ready == summary.ready) && (!verdict.StartedAs? ==> after.started == summary.started)
  {
  }

  /** Every scanned candidate is in exactly one list, and the eligible ones are those ready, started or failing to start. */
  lemma {:induction false} SummaryAddsUp(turns: seq<Turn>, verdicts: seq<Verdict>, scanned: nat, mode: Mode)
    requires |turns| == |verdicts| && forall verdict :: verdict in verdicts ==> FitsMode(verdict, mode)
    ensures var summary := Summarised(turns, verdicts, scanned);
            && summary.scanned == scanned
            && |turns| == |summary.ready| + |summary.started| + |summary.skipped| + |summary.needsAttention|
            && summary.eligible == |summary.ready| + |summary.started| + StartFailures(verdicts)
            && StartFailures(verdicts) <= |summary.needsAttention|
            && (if mode == Sync then summary.ready == [] else summary.started == [] && StartFailures(verdicts) == 0)
  {
    if turns != [] {
      var last := |turns| - 1;
      assert FitsMode(verdicts[last], mode);
      SummaryAddsUp(turns[..last], verdicts[..last], scanned, mode);
      CountedAddsUp(Summarised(turns[..last], verdicts[..last], scanned), turns[last], verdicts[last]);
    }
  }

  /** A transcript the sweep reports as started is pending on that job in the ledger it leaves. */
  lemma StartedIsPending(ledger: Ledger, turn: Turn, sha: Sha)
    requires Judged(ledger, turn, Sync, sha).StartedAs?
    ensures var after, key := TurnLedger(ledger, turn, Sync, sha), LedgerKey(turn.candidate);
            && key in after && after[key].status == Pending && after[key].pendingJobId == Some(turn.start.jobId)
            && after[key].pendingToSize == Some(|turn.content.value|) && after[key].pendingToLine == Some(Judged(ledger, turn, Sync, sha).toLine)
            && after[key].last.line + 1 == Judged(ledger, turn, Sync, sha).fromLine
  {
  }

  // ---- The verdicts in the fields of a turn ---------------------------------------------------------

  /** Touched since the automation was activated. */
  predicate SinceActivation(turn: Turn, args: Args) {
    args.syncSince.None? || turn.candidate.mtimeMs >= args.syncSince.value
  }

  predicate IsQuiet(turn: Turn, args: Args) {
    args.now - turn.candidate.mtimeMs >= args.quietMs
  }

  predicate Eligible(turn: Turn, args: Args) {
    SinceActivation(turn, args) && IsQuiet(turn, args) && !turn.internalSession
  }

  /** The lock of its repository was free at an earlier eligible turn of the sweep, or is now; a status sweep takes none. */
  predicate LockIsOurs(turns: seq<Turn>, i: nat, args: Args)
    requires i < |turns|
  {
    args.mode == Sync ==>
      exists j :: 0 <= j <= i && turns[j].candidate.repoRoot == turns[i].candidate.repoRoot && Eligible(turns[j], args) && turns[j].lockFree
  }

  /** The entry a turn meets: the ledger's, settled against the jobs, or a new one. */
  function EntryMet(files: map<Repo, Ledger>, turns: seq<Turn>, i: nat, args: Args, sha: Sha): Entry
    requires i < |turns|
  {
    var turn := turns[i];
    EntryFor(ReconcileAll(LedgerAfter(files, turns[..i], turn.candidate.repoRoot, args, sha), turn.jobs), LedgerKey(turn.candidate), turn.first)
  }

  predicate Grown(entry: Entry, content: seq<Byte>) {
    |content| > entry.last.size
  }

  predicate PrefixIsAbsorbed(entry: Entry, content: seq<Byte>, sha: Sha) {
    entry.last.size <= |content| && sha(content[..entry.last.size]) == entry.last.prefixHash
  }

  lemma {:induction false} HeldInFields(turns: seq<Turn>, args: Args, repo: Repo)
    ensures repo in Held(turns, args) <==>
            args.mode == Sync && exists j :: 0 <= j < |turns| && turns[j].candidate.repoRoot == repo && Eligible(turns[j], args) && turns[j].lockFree
  {
    if turns != [] {
      var init, last := turns[..|turns| - 1], |turns| - 1;
      HeldInFields(init, args, repo);
      assert forall j :: 0 <= j < last ==> init[j] == turns[j];
      assert Refusal(turns[last], args).None? <==> Eligible(turns[last], args);
    }
  }

  lemma {:induction false} AdmittedInFields(turns: seq<Turn>, i: nat, args: Args)
    requires i < |turns|
    ensures Admitted(turns[i], Held(turns[..i], args), args) <==> Eligible(turns[i], args) && LockIsOurs(turns, i, args)
  {
    HeldInFields(turns[..i], args, turns[i].candidate.repoRoot);
    assert forall j :: 0 <= j < i ==> turns[..i][j] == turns[j];
    assert Refusal(turns[i], args).None? <==> Eligible(turns[i], args);
  }

  lemma {:induction false} VerdictAt(files: map<Repo, Ledger>, turns: seq<Turn>, args: Args, sha: Sha, i: nat)
    requires i < |turns|
    ensures |Verdicts(files, turns, args, sha)| == |turns|
    ensures Verdicts(files, turns, args, sha)[i] ==
            VerdictIn(LedgerAfter(files, turns[..i], turns[i].candidate.repoRoot, args, sha), turns[i], Held(turns[..i], args), args, sha)
  {
    var init := turns[..|turns| - 1];
    VerdictsFitMode(files, turns, args, sha);
    VerdictsFitMode(files, init, args, sha);
    if i < |init| {
      VerdictAt(files, init, args, sha, i);
      assert init[..i] == turns[..i];
    }
  }

  /** A turn that is passed over is told the first reason that holds, each on its own condition. */
  lemma {:induction false} PassedExactly(files: map<Repo, Ledger>, turns: seq<Turn>, args: Args, sha: Sha, i: nat)
    requires i < |turns|
    ensures |Verdicts(files, turns, args, sha)| == |turns|
    ensures var verdict, turn, entry := Verdicts(files, turns, args, sha)[i], turns[i], EntryMet(files, turns, i, args, sha);
            && (!SinceActivation(turn, args) <==> verdict == Passed("before-automation-activation"))
            && (SinceActivation(turn, args) && !IsQuiet(turn, args) <==> verdict == Passed("quiet-window"))
            && (SinceActivation(turn, args) && IsQuiet(turn, args) && turn.internalSession <==> verdict == Passed("internal-almanac-session"))
            && (Eligible(turn, args) && !LockIsOurs(turns, i, args) <==> verdict == Passed("sync-already-running"))
            && (Eligible(turn, args) && LockIsOurs(turns, i, args) && turn.content.Ok? && entry.status == Pending
                <==> verdict == Passed("sync-already-pending"))
            && (Eligible(turn, args) && LockIsOurs(turns, i, args) && turn.content.Ok? && entry.status != Pending && !Grown(entry, turn.content.value)
                <==> verdict == Passed("unchanged"))
  {
    VerdictAt(files, turns, args, sha, i);
    AdmittedInFields(turns, i, args);
    ReasonsDiffer();
  }

  lemma ReasonsDiffer()
    ensures |"before-automation-activation"| == 28 && |"quiet-window"| == 12 && |"internal-almanac-session"| == 24
    ensures "sync-already-running"[13] == 'r' && "sync-already-pending"[13] == 'p' && |"sync-already-running"| == |"sync-already-pending"| == 20
    ensures |"unchanged"| == 9
  {
  }

  /** A turn is ready, or started, or has failed to start, exactly when nothing speaks against it: then it is offered the lines behind its
      cursor up to the last one there is. */
  lemma {:induction false} ReadyExactly(files: map<Repo, Ledger>, turns: seq<Turn>, args: Args, sha: Sha, i: nat)
    requires i < |turns|
    ensures |Verdicts(files, turns, args, sha)| == |turns|
    ensures var verdict, turn, entry := Verdicts(files, turns, args, sha)[i], turns[i], EntryMet(files, turns, i, args, sha);
            var ready := Eligible(turn, args) && LockIsOurs(turns, i, args) && turn.content.Ok? && entry.status != Pending
                         && Grown(entry, turn.content.value) && PrefixIsAbsorbed(entry, turn.content.value, sha);
            && (ready && args.mode == Status <==> verdict.ReadyFor?)
            && (ready && args.mode == Sync && turn.start.Started? <==> verdict.StartedAs?)
            && (ready && args.mode == Sync && turn.start.StartFailed? <==> verdict.CouldNotStart?)
            && (verdict.ReadyFor? ==> verdict == ReadyFor(entry.last.line + 1, CountLines(turn.content.value)))
            && (verdict.StartedAs? ==> verdict == StartedAs(turn.start.jobId, entry.last.line + 1, CountLines(turn.content.value)))
  {
    VerdictAt(files, turns, args, sha, i);
    AdmittedInFields(turns, i, args);
  }

  /** And it needs attention exactly when its file cannot be read, or its absorbed prefix has changed. */
  lemma {:induction false} AttentionExactly(files: map<Repo, Ledger>, turns: seq<Turn>, args: Args, sha: Sha, i: nat)
    requires i < |turns|
    ensures |Verdicts(files, turns, args, sha)| == |turns|
    ensures var verdict, turn, entry := Verdicts(files, turns, args, sha)[i], turns[i], EntryMet(files, turns, i, args, sha);
            var reached := Eligible(turn, args) && LockIsOurs(turns, i, args);
            && (verdict.Attention? <==>
                  reached && (turn.content.Err? || (entry.status != Pending && Grown(entry, turn.content.value)
                                                    && !PrefixIsAbsorbed(entry, turn.content.value, sha))))
            && (verdict.Attention? ==> verdict == Attention(if turn.content.Err? then turn.content.error else "prefix-mismatch"))
  {
    VerdictAt(files, turns, args, sha, i);
    AdmittedInFields(turns, i, args);
  }

  /** Where the verdict on a turn ends up in the summary. */
  predicate Told(summary: Summary, path: string, verdict: Verdict) {
    match verdict
    case Passed(reason) => Line(path, reason) in summary.skipped
    case Attention(reason) => Line(path, reason) in summary.needsAttention
    case ReadyFor(fromLine, toLine) => ReadyLine(path, fromLine, toLine) in summary.ready
    case StartedAs(jobId, fromLine, toLine) => StartedLine(path, jobId, fromLine, toLine) in summary.started
    case CouldNotStart => Line(path, "absorb-start-failed") in summary.needsAttention
  }

  predicate StartedBy(turn: Turn, verdict: Verdict, line: StartedLine) {
    verdict.StartedAs? && line == StartedLine(turn.candidate.transcriptPath, verdict.jobId, verdict.fromLine, verdict.toLine)
  }

  predicate ReadyBy(turn: Turn, verdict: Verdict, line: ReadyLine) {
    verdict.ReadyFor? && line == ReadyLine(turn.candidate.transcriptPath, verdict.fromLine, verdict.toLine)
  }

  predicate SkippedBy(turn: Turn, verdict: Verdict, line: Line) {
    verdict.Passed? && line == Line(turn.candidate.transcriptPath, verdict.reason)
  }

  lemma CountedTells(summary: Summary, turn: Turn, verdict: Verdict)
    ensures Told(Counted(summary, turn, verdict), turn.candidate.transcriptPath, verdict)
    ensures forall path, other :: Told(summary, path, other) ==> Told(Counted(summary, turn, verdict), path, other)
    ensures forall line :: line in Counted(summary, turn, verdict).started && line !in summary.started ==> StartedBy(turn, verdict, line)
    ensures forall line :: line in Counted(summary, turn, verdict).ready && line !in summary.ready ==> ReadyBy(turn, verdict, line)
    ensures forall line :: line in Counted(summary, turn, verdict).skipped && line !in summary.skipped ==> SkippedBy(turn, verdict, line)
  {
  }

  /** The summary tells the verdict on every turn. */
  lemma {:induction false} SummaryTells(turns: seq<Turn>, verdicts: seq<Verdict>, scanned: nat)
    requires |turns| == |verdicts|
    ensures forall i :: 0 <= i < |turns| ==> Told(Summarised(turns, verdicts, scanned), turns[i].candidate.transcriptPath, verdicts[i])
  {
    if turns != [] {
      var last := |turns| - 1;
      var init, before := turns[..last], verdicts[..last];
      SummaryTells(init, before, scanned);
      CountedTells(Summarised(init, before, scanned), turns[last], verdicts[last]);
      assert forall i :: 0 <= i < last ==> init[i] == turns[i] && before[i] == verdicts[i];
    }
  }

  /** And a transcript in its lists of started, ready and skipped ones has that verdict. */
  lemma {:induction false} ListsAreTold(turns: seq<Turn>, verdicts: seq<Verdict>, scanned: nat)
    requires |turns| == |verdicts|
    ensures var summary := Summarised(turns, verdicts, scanned);
            && (forall line :: line in summary.started ==> exists i :: 0 <= i < |turns| && StartedBy(turns[i], verdicts[i], line))
            && (forall line :: line in summary.ready ==> exists i :: 0 <= i < |turns| && ReadyBy(turns[i], verdicts[i], line))
            && (forall line :: line in summary.skipped ==> exists i :: 0 <= i < |turns| && SkippedBy(turns[i], verdicts[i], line))
  {
    if turns != [] {
      var last := |turns| - 1;
      var init, before := turns[..last], verdicts[..last];
      ListsAreTold(init, before, scanned);
      assert forall line :: line in Summarised(init, before, scanned).started ==> exists i :: 0 <= i < |init| && StartedBy(init[i], before[i], line);
      assert forall line :: line in Summarised(init, before, scanned).ready ==> exists i :: 0 <= i < |init| && ReadyBy(init[i], before[i], line);
      assert forall line :: line in Summarised(init, before, scanned).skipped ==> exists i :: 0 <= i < |init| && SkippedBy(init[i], before[i], line);
      var told, summary := Summarised(init, before, scanned), Summarised(turns, verdicts, scanned);
      CountedTells(told, turns[last], verdicts[last]);
      forall line | line in summary.started ensures exists i :: 0 <= i < |turns| && StartedBy(turns[i], verdicts[i], line) {
        if line in told.started {
          var i :| 0 <= i < last && StartedBy(init[i], before[i], line);
          assert StartedBy(turns[i], verdicts[i], line);
        }
      }
      forall line | line in summary.ready ensures exists i :: 0 <= i < |turns| && ReadyBy(turns[i], verdicts[i], line) {
        if line in told.ready {
          var i :| 0 <= i < last && ReadyBy(init[i], before[i], line);
          assert ReadyBy(turns[i], verdicts[i], line);
        }
      }
      forall line | line in summary.skipped ensures exists i :: 0 <= i < |turns| && SkippedBy(turns[i], verdicts[i], line) {
        if line in told.skipped {
          var i :| 0 <= i < last && SkippedBy(init[i], before[i], line);
          assert SkippedBy(turns[i], verdicts[i], line);
        }
      }
    }
  }

  /** What settling does to an entry that waits for a job. */
  lemma ReconciledInFields(entry: Entry, job: Option<Job>)
    requires entry.status == Pending && entry.pendingJobId.Some? && entry.pendingToSize.Some? && entry.pendingToLine.Some? && entry.pendingPrefixHash.Some?
    ensures var after := Reconciled(entry, job);
            if job.None? || job.value.status == JobRecords.JobStatus.Queued || job.value.status == JobRecords.JobStatus.Running then after == entry
            else
              && after.pendingToSize.None? && after.pendingToLine.None? && after.pendingPrefixHash.None? && after.pendingJobId.None?
              && after.lastJobId == entry.pendingJobId
              && if job.value.status == JobRecords.JobStatus.Done
                 then after.status == Absorbed && after.last == Cursor(entry.pendingToSize.value, entry.pendingToLine.value, entry.pendingPrefixHash.value)
                 else after.status == Failing && after.last == entry.last && after.lastError == Some(job.value.error)
  {
  }

  /** A sweep starts from the ledger on disk, or from none. */
  lemma {:induction false} LedgerStartsOnDisk(files: map<Repo, Ledger>, repo: Repo, args: Args, sha: Sha)
    ensures repo in files ==> LedgerAfter(files, [], repo, args, sha) == files[repo]
    ensures repo !in files ==> LedgerAfter(files, [], repo, args, sha) == map[]
  {
  }

  /** Every entry of the ledger is settled against the record of the very job it waits for, if there is one and it has ended. */
  lemma EntryIsSettled(ledger: Ledger, jobs: map<JobId, Job>, key: Key)
    requires key in ledger
    ensures ReconcileAll(ledger, jobs).Keys == ledger.Keys
    ensures var was, after := ledger[key], ReconcileAll(ledger, jobs)[key];
            if was.status == Pending && was.pendingJobId.Some? && was.pendingJobId.value in jobs then
              match jobs[was.pendingJobId.value].status
              case Queued => after == was
              case Running => after == was
              case Done =>
                after.status == Absorbed && after.lastJobId == was.pendingJobId && NothingPending(after) && after.lastError == was.lastError
                && (was.pendingToSize.Some? ==> after.last.size == was.pendingToSize.value)
                && (was.pendingToSize.None? ==> after.last.size == was.last.size)
                && (was.pendingToLine.Some? ==> after.last.line == was.pendingToLine.value)
                && (was.pendingToLine.None? ==> after.last.line == was.last.line)
                && (was.pendingPrefixHash.Some? ==> after.last.prefixHash == was.pendingPrefixHash.value)
                && (was.pendingPrefixHash.None? ==> after.last.prefixHash == was.last.prefixHash)
              case _ =>
                after.status == Failing && after.lastJobId == was.pendingJobId && NothingPending(after) && after.last == was.last
                && after.lastError == Some(jobs[was.pendingJobId.value].error)
            else after == was
  {
  }

  predicate NothingPending(entry: Entry) {
    entry.pendingToSize.None? && entry.pendingToLine.None? && entry.pendingPrefixHash.None? && entry.pendingJobId.None?
  }

  /** A turn touches the entry under its app and path, and settles the others. */
  lemma TurnTouchesItsEntry(ledger: Ledger, turn: Turn, mode: Mode, sha: Sha, key: Key)
    ensures var after := TurnLedger(ledger, turn, mode, sha);
            && (key != turn.candidate.app + ":" + turn.candidate.transcriptPath ==>
                  (key in after <==> key in ledger) && (key in ledger ==> after[key] == ReconcileAll(ledger, turn.jobs)[key]))
            && (turn.content.Err? ==> after == ReconcileAll(ledger, turn.jobs))
  {
  }

  /** What a start leaves in the ledger: the same cursor as before, and the whole transcript pending on the new job. */
  lemma StartInFields(ledger: Ledger, turn: Turn, sha: Sha)
    requires turn.content.Ok? && turn.start.Started?
    ensures var key, content := turn.candidate.app + ":" + turn.candidate.transcriptPath, turn.content.value;
            var after := TurnLedger(ledger, turn, Sync, sha);
            var met := if key in ledger then ReconcileAll(ledger, turn.jobs)[key] else Entry(Absorbed, turn.first, None, None, None, None, None, None);
            met.status != Pending && |content| > met.last.size && sha(content[..met.last.size]) == met.last.prefixHash ==>
              key in after && after[key] == Entry(Pending, met.last, Some(|content|), Some(CountLines(content)), Some(sha(content)),
                                                  Some(turn.start.jobId), Some(turn.start.jobId), None)
  {
    EntryForIs(ReconcileAll(ledger, turn.jobs), LedgerKey(turn.candidate), turn.first);
  }

  lemma EntryForIs(ledger: Ledger, key: Key, first: Cursor)
    ensures EntryFor(ledger, key, first) == if key in ledger then ledger[key] else Entry(Absorbed, first, None, None, None, None, None, None)
  {
  }

  /** What a start that fails leaves in the ledger: the same cursor, to be offered again, and the error. */
  lemma FailedStartInFields(ledger: Ledger, turn: Turn, sha: Sha)
    requires Judged(ledger, turn, Sync, sha).CouldNotStart?
    ensures var after, key := TurnLedger(ledger, turn, Sync, sha), LedgerKey(turn.candidate);
            && key in after && after[key].status == Failing && after[key].lastError == Some(turn.start.error)
            && after[key].last == EntryFor(ReconcileAll(ledger, turn.jobs), key, turn.first).last
  {
  }

  /** The part of the loop body after eligibility and lock: reconcile, read, evaluate, and start a job if it comes to that. */
  method TakeTurn(ledger: Ledger, turn: Turn, args: Args, sha: Sha, summary: Summary) returns (after: Ledger, counted: Summary, write: bool)
    ensures after == TurnLedger(ledger, turn, args.mode, sha)
    ensures counted == Counted(summary, turn, Judged(ledger, turn, args.mode, sha))
    ensures write <==> args.mode == Sync && counted.eligible == summary.eligible + 1
    ensures counted.eligible == summary.eligible || counted.eligible == summary.eligible + 1
  {
    var path, key := turn.candidate.transcriptPath, LedgerKey(turn.candidate);
    write := false;
    after := ReconcileLedger(ledger, turn.jobs);
    if turn.content.Err? {
      counted := summary.(needsAttention := summary.needsAttention + [Line(path, turn.content.error)]);
      return;
    }
    var entry := EntryFor(after, key, turn.first);
    var decision := Evaluate(entry, turn.content.value, sha);
    after := after[key := if decision.Mismatch? then decision.entry else entry];
    match decision
    case Skip(reason) => counted := summary.(skipped := summary.skipped + [Line(path, reason)]);
    case Mismatch(_) => counted := summary.(needsAttention := summary.needsAttention + [Line(path, "prefix-mismatch")]);
    case Ready(fromLine, toLine) =>
      counted := summary.(eligible := summary.eligible + 1);
      if args.mode == Status {
        counted := counted.(ready := summary.ready + [ReadyLine(path, fromLine, toLine)]);
        return;
      }
      after := after[key := Enqueued(entry, turn.content.value, turn.start, sha)];
      write := true;
      if turn.start.StartFailed? {
        counted := counted.(needsAttention := summary.needsAttention + [Line(path, "absorb-start-failed")]);
      } else {
        counted := counted.(started := summary.started + [StartedLine(path, turn.start.jobId, fromLine, toLine)]);
      }
  }

  class SyncSweeper {
    /** The ledger files, by repository. */
    var files: map<Repo, Ledger>
    var locks: set<Repo>

    /** The writes that close a sweep: every ledger that was loaded. */
    method WriteLedgers(ledgers: map<Repo, Ledger>)
      modifies this`files
      ensures files == old(files) + ledgers
    {
      var left := ledgers.Keys;
      while left != {}
        invariant left <= ledgers.Keys
        invariant files == old(files) + map repo | repo in ledgers && repo !in left :: ledgers[repo]
        decreases |left|
      {
        var repo :| repo in left;
        left := left - {repo};
        files := files[repo := ledgers[repo]];
      }
    }

    /** The loop body for one candidate; `initial` is the disk as the sweep found it. */
    method ProcessCandidate(turn: Turn, args: Args, sha: Sha, summary: Summary, ledgers: map<Repo, Ledger>, held: set<Repo>,
                            ghost initial: map<Repo, Ledger>)
      returns (counted: Summary, loaded: map<Repo, Ledger>, holding: set<Repo>)
      requires turn.lockFree ==> turn.candidate.repoRoot in held || turn.candidate.repoRoot !in locks
      requires OnDisk(initial, ledgers, held, args.mode, files)
      modifies this
      ensures OnDisk(initial, loaded, holding, args.mode, files)
      ensures holding == held + if args.mode == Sync && Refusal(turn, args).None? && turn.lockFree then {turn.candidate.repoRoot} else {}
      ensures locks == old(locks) + (holding - held)
      ensures var ledger := InHand(initial, ledgers, turn.candidate.repoRoot);
              && loaded == (if Admitted(turn, held, args)
                            then ledgers[turn.candidate.repoRoot := TurnLedger(ledger, turn, args.mode, sha)] else ledgers)
              && counted == Counted(summary, turn, VerdictIn(ledger, turn, held, args, sha))
      ensures var repo := turn.candidate.repoRoot;
              args.mode == Sync && counted.eligible > summary.eligible ==> repo in loaded && repo in files && files[repo] == loaded[repo]
    {
      counted, loaded, holding := summary, ledgers, held;
      var repo, path := turn.candidate.repoRoot, turn.candidate.transcriptPath;
      if Refusal(turn, args).Some? {
        counted := summary.(skipped := summary.skipped + [Line(path, Refusal(turn, args).value)]);
        return;
      }
      if args.mode == Sync && repo !in held {
        if !turn.lockFree {
          counted := summary.(skipped := summary.skipped + [Line(path, "sync-already-running")]);
          return;
        }
        locks := locks + {repo};
        holding := held + {repo};
      }
      LedgerIsInHand(initial, ledgers, held, args.mode, files, repo);
      var ledger := if repo in ledgers then ledgers[repo] else Loaded(files, repo);
      var write;
      ledger, counted, write := TakeTurn(ledger, turn, args, sha, summary);
      OneMoreOnDisk(initial, ledgers, held, args.mode, files, repo, ledger, holding, write);
      loaded := ledgers[repo := ledger];
      if write {
        files := files[repo := ledger];
      }
    }

    /** The loop of `executeSyncSweep` over its candidates. */
    method VisitCandidates(turns: seq<Turn>, args: Args, sha: Sha) returns (summary: Summary, ledgers: map<Repo, Ledger>, held: set<Repo>)
      requires forall i :: 0 <= i < |turns| && turns[i].lockFree ==> turns[i].candidate.repoRoot !in locks
      modifies this
      ensures Visited(old(files), turns, args, sha, |turns|, summary, ledgers, held)
      ensures OnDisk(old(files), ledgers, held, args.mode, files)
      ensures locks == old(locks) + held && old(locks) !! held
    {
      summary := Summary(|turns|, 0, [], [], [], []);
      ledgers, held := map[], {};
      for i := 0 to |turns|
        invariant Visited(old(files), turns[..i], args, sha, |turns|, summary, ledgers, held)
        invariant OnDisk(old(files), ledgers, held, args.mode, files)
        invariant locks == old(locks) + held && old(locks) !! held
      {
        ghost var before, loaded, holding := summary, ledgers, held;
        summary, ledgers, held := ProcessCandidate(turns[i], args, sha, summary, ledgers, held, old(files));
        VisitedNext(old(files), turns, i, args, sha, before, loaded, holding, summary, ledgers, held);
      }
      assert turns[..|turns|] == turns;
    }

    /** `executeSyncSweep`: the summary is the fold of the verdicts, all locks are given back, and the ledgers on disk change
        only in sync mode and only in repositories whose lock was granted, where each is the fold of its turns. */
    method ExecuteSyncSweep(turns: seq<Turn>, args: Args, sha: Sha) returns (summary: Summary)
      requires forall i :: 0 <= i < |turns| && turns[i].lockFree ==> turns[i].candidate.repoRoot !in locks
      modifies this
      ensures locks == old(locks)
      ensures summary == Summarised(turns, Verdicts(old(files), turns, args, sha), |turns|)
      ensures args.mode == Status ==> files == old(files)
      ensures args.mode == Sync ==>
                && files.Keys == old(files).Keys + Held(turns, args)
                && forall repo :: repo in files ==>
                     files[repo] == if repo in Held(turns, args) then LedgerAfter(old(files), turns, repo, args, sha) else old(files)[repo]
    {
      var ledgers, held;
      summary, ledgers, held := VisitCandidates(turns, args, sha);
      if args.mode == Sync {
        SweepIsWritten(old(files), turns, args, sha, ledgers, held, files);
        WriteLedgers(ledgers);
      }
      locks := locks - held;
    }
  }

  /** Mid-sweep the disk differs from the start only in loaded ledgers, and those are locked in sync mode. */
  ghost predicate OnDisk(initial: map<Repo, Ledger>, ledgers: map<Repo, Ledger>, held: set<Repo>, mode: Mode, files: map<Repo, Ledger>) {
    if mode == Status then files == initial && held == {}
    else
      && ledgers.Keys == held && initial.Keys <= files.Keys <= initial.Keys + held
      && forall repo :: repo in files && repo !in held ==> files[repo] == initial[repo]
  }

  lemma LedgerIsInHand(initial: map<Repo, Ledger>, ledgers: map<Repo, Ledger>, held: set<Repo>, mode: Mode, files: map<Repo, Ledger>, repo: Repo)
    requires OnDisk(initial, ledgers, held, mode, files)
    ensures (if repo in ledgers then ledgers[repo] else Loaded(files, repo)) == InHand(initial, ledgers, repo)
  {
  }

  lemma OneMoreOnDisk(initial: map<Repo, Ledger>, ledgers: map<Repo, Ledger>, held: set<Repo>, mode: Mode, files: map<Repo, Ledger>,
                      repo: Repo, ledger: Ledger, holding: set<Repo>, write: bool)
    requires OnDisk(initial, ledgers, held, mode, files)
    requires if mode == Status then holding == held && !write else holding == held + {repo}
    ensures OnDisk(initial, ledgers[repo := ledger], holding, mode, if write then files[repo := ledger] else files)
  {
  }

  lemma {:induction false} SweepIsWritten(initial: map<Repo, Ledger>, turns: seq<Turn>, args: Args, sha: Sha, ledgers: map<Repo, Ledger>, held: set<Repo>,
                       files: map<Repo, Ledger>)
    requires OnDisk(initial, ledgers, held, Sync, files) && InMemory(initial, turns, args, sha, ledgers)
    ensures var written := files + ledgers;
            && written.Keys == initial.Keys + held
            && forall repo :: repo in written ==>
                 written[repo] == if repo in held then LedgerAfter(initial, turns, repo, args, sha) else initial[repo]
  {
  }

  /** A loaded ledger is the fold of its turns, and one not loaded had none. */
  ghost predicate InMemory(initial: map<Repo, Ledger>, turns: seq<Turn>, args: Args, sha: Sha, ledgers: map<Repo, Ledger>) {
    forall repo {:trigger LedgerAfter(initial, turns, repo, args, sha)} ::
      LedgerAfter(initial, turns, repo, args, sha) == if repo in ledgers then ledgers[repo] else Loaded(initial, repo)
  }

  /** What a sweep has in hand after some turns. */
  ghost predicate Visited(initial: map<Repo, Ledger>, turns: seq<Turn>, args: Args, sha: Sha, scanned: nat,
                          summary: Summary, ledgers: map<Repo, Ledger>, held: set<Repo>)
  {
    && summary == Summarised(turns, Verdicts(initial, turns, args, sha), scanned)
    && held == Held(turns, args) && InMemory(initial, turns, args, sha, ledgers)
  }

  lemma VisitedNext(initial: map<Repo, Ledger>, turns: seq<Turn>, i: nat, args: Args, sha: Sha,
                    summary: Summary, ledgers: map<Repo, Ledger>, held: set<Repo>,
                    counted: Summary, loaded: map<Repo, Ledger>, holding: set<Repo>)
    requires i < |turns| && Visited(initial, turns[..i], args, sha, |turns|, summary, ledgers, held)
    requires holding == held + if args.mode == Sync && Refusal(turns[i], args).None? && turns[i].lockFree then {turns[i].candidate.repoRoot} else {}
    requires var ledger := InHand(initial, ledgers, turns[i].candidate.repoRoot);
             && loaded == (if Admitted(turns[i], held, args)
                           then ledgers[turns[i].candidate.repoRoot := TurnLedger(ledger, turns[i], args.mode, sha)] else ledgers)
             && counted == Counted(summary, turns[i], VerdictIn(ledger, turns[i], held, args, sha))
    ensures Visited(initial, turns[..i + 1], args, sha, |turns|, counted, loaded, holding)
  {
    OneMoreTurn(initial, turns, i, |turns|, args, sha, ledgers);
  }

  function InHand(initial: map<Repo, Ledger>, ledgers: map<Repo, Ledger>, repo: Repo): Ledger {
    if repo in ledgers then ledgers[repo] else Loaded(initial, repo)
  }

  lemma {:induction false} OneMoreInMemory(initial: map<Repo, Ledger>, turns: seq<Turn>, i: nat, args: Args, sha: Sha, ledgers: map<Repo, Ledger>)
    requires i < |turns| && InMemory(initial, turns[..i], args, sha, ledgers)
    ensures var turn := turns[i];
            InMemory(initial, turns[..i + 1], args, sha,
                     if Admitted(turn, Held(turns[..i], args), args)
                     then ledgers[turn.candidate.repoRoot := TurnLedger(InHand(initial, ledgers, turn.candidate.repoRoot), turn, args.mode, sha)]
                     else ledgers)
  {
    var more, turn := turns[..i + 1], turns[i];
    assert more[..i] == turns[..i] && more[i] == turn;
    var after := if Admitted(turn, Held(turns[..i], args), args)
                 then ledgers[turn.candidate.repoRoot := TurnLedger(InHand(initial, ledgers, turn.candidate.repoRoot), turn, args.mode, sha)]
                 else ledgers;
    forall repo ensures LedgerAfter(initial, more, repo, args, sha) == InHand(initial, after, repo) {
      assert LedgerAfter(initial, turns[..i], repo, args, sha) == InHand(initial, ledgers, repo);
    }
  }

  lemma {:induction false} OneMoreCounted(initial: map<Repo, Ledger>, turns: seq<Turn>, i: nat, scanned: nat, args: Args, sha: Sha)
    requires i < |turns|
    ensures Summarised(turns[..i + 1], Verdicts(initial, turns[..i + 1], args, sha), scanned)
            == Counted(Summarised(turns[..i], Verdicts(initial, turns[..i], args, sha), scanned), turns[i],
                       VerdictOn(initial, turns[..i + 1], args, sha))
  {
    var more := turns[..i + 1];
    assert more[..i] == turns[..i];
    VerdictsFitMode(initial, turns[..i], args, sha);
    assert Verdicts(initial, more, args, sha)[..i] == Verdicts(initial, turns[..i], args, sha);
  }

  lemma {:induction false} OneMoreTurn(initial: map<Repo, Ledger>, turns: seq<Turn>, i: nat, scanned: nat, args: Args, sha: Sha, ledgers: map<Repo, Ledger>)
    requires i < |turns| && InMemory(initial, turns[..i], args, sha, ledgers)
    ensures var turn, held := turns[i], Held(turns[..i], args);
            var repo := turn.candidate.repoRoot;
            var ledger := InHand(initial, ledgers, repo);
            && Held(turns[..i + 1], args) == (if args.mode == Sync && Refusal(turn, args).None? && turn.lockFree then held + {repo} else held)
            && InMemory(initial, turns[..i + 1], args, sha,
                        if Admitted(turn, held, args) then ledgers[repo := TurnLedger(ledger, turn, args.mode, sha)] else ledgers)
            && Summarised(turns[..i + 1], Verdicts(initial, turns[..i + 1], args, sha), scanned)
               == Counted(Summarised(turns[..i], Verdicts(initial, turns[..i], args, sha), scanned), turn,
                          VerdictIn(ledger, turn, held, args, sha))
  {
    assert turns[..i + 1][..i] == turns[..i];
    OneMoreInMemory(initial, turns, i, args, sha, ledgers);
    OneMoreCounted(initial, turns, i, scanned, args, sha);
    var repo := turns[i].candidate.repoRoot;
    assert LedgerAfter(initial, turns[..i], repo, args, sha) == InHand(initial, ledgers, repo);
  }
}
