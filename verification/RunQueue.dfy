/** The queue queries: runs wait in the order of their created_at text, then of their ids. */
module RunQueue {
  import opened Outcomes
  import opened Text
  import opened Timestamps
  import opened RunModels
  import opened RunTransitions
  import opened RunStore
  import opened RunHistory

  /** status = 'queued' AND spec_json IS NOT NULL */
  predicate Waits(row: RunRow) {
    row.status == Queued && row.spec.Some?
  }

  function Waiting(runs: map<string, RunRow>): set<string> {
    set runId | runId in runs && Waits(runs[runId])
  }

  /** created_at < ? OR (created_at = ? AND run_id < ?), on the stored text. */
  predicate AheadOf(createdAt: Instant, runId: string, otherAt: Instant, other: string) {
    Less(Iso(createdAt), Iso(otherAt)) || (Iso(createdAt) == Iso(otherAt) && Less(runId, other))
  }

  lemma {:induction false} AheadIsTimeOrder(createdAt: Instant, runId: string, otherAt: Instant, other: string)
    ensures AheadOf(createdAt, runId, otherAt, other)
            <==> Before(createdAt, otherAt) || (createdAt == otherAt && Less(runId, other))
  {
    TextOrderIsTimeOrder(createdAt, otherAt);
  }

  /** The waiting runs ahead of a given place in the queue. */
  function WaitingAhead(runs: map<string, RunRow>, createdAt: Instant, runId: string): set<string> {
    set other | other in Waiting(runs) && AheadOf(runs[other].createdAt, other, createdAt, runId)
  }

  /** SELECT COUNT(*) of `count_queued_runs_before`. */
  function QueuedBefore(runs: map<string, RunRow>, record: RunRecord): nat {
    |WaitingAhead(runs, record.createdAt, record.runId)|
  }

  /** ORDER BY created_at ASC, run_id ASC LIMIT 1 */
  predicate IsNext(runs: map<string, RunRow>, runId: string) {
    runId in Waiting(runs)
    && forall other :: other in Waiting(runs) && other != runId ==> AheadOf(runs[runId].createdAt, runId, runs[other].createdAt, other)
  }

  // ---- The order is a strict total order ------------------------------------------------------

  lemma AheadLaws(a: Instant, idA: string, b: Instant, idB: string, c: Instant, idC: string)
    ensures !AheadOf(a, idA, a, idA)
    ensures AheadOf(a, idA, b, idB) && AheadOf(b, idB, c, idC) ==> AheadOf(a, idA, c, idC)
    ensures idA != idB ==> AheadOf(a, idA, b, idB) || AheadOf(b, idB, a, idA)
    ensures AheadOf(a, idA, b, idB) ==> !AheadOf(b, idB, a, idA)
  {
    LessLaws(Iso(a), Iso(b), Iso(c));
    LessLaws(idA, idB, idC);
    LessLaws(Iso(b), Iso(a), Iso(b));
    LessLaws(idB, idA, idB);
  }

  lemma {:induction false} LessLaws(a: string, b: string, c: string)
    ensures !Less(a, a)
    ensures Less(a, b) && Less(b, c) ==> Less(a, c)
    ensures a == b || Less(a, b) || Less(b, a)
    ensures Less(a, b) ==> !Less(b, a)
  {
    LessIrreflexive(a);
    LessTotal(a, b);
    if Less(a, b) && Less(b, c) {
      LessTransitive(a, b, c);
    }
    if Less(a, b) {
      LessAsymmetric(a, b);
    }
  }

  lemma {:induction false} SomeoneIsFirst(runs: map<string, RunRow>, candidates: set<string>)
    requires candidates != {} && candidates <= runs.Keys
    ensures exists first :: first in candidates
              && forall other :: other in candidates && other != first ==> AheadOf(runs[first].createdAt, first, runs[other].createdAt, other)
    decreases |candidates|
  {
    var pick :| pick in candidates;
    var rest := candidates - {pick};
    if rest == {} {
      assert candidates == {pick};
    } else {
      SomeoneIsFirst(runs, rest);
      var first :| first in rest
        && forall other :: other in rest && other != first ==> AheadOf(runs[first].createdAt, first, runs[other].createdAt, other);
      var winner := if AheadOf(runs[pick].createdAt, pick, runs[first].createdAt, first) then pick else first;
      forall other | other in candidates && other != winner
        ensures AheadOf(runs[winner].createdAt, winner, runs[other].createdAt, other)
      {
        AheadLaws(runs[pick].createdAt, pick, runs[first].createdAt, first, runs[other].createdAt, other);
      }
    }
  }

  // ---- The queries ----------------------------------------------------------------------------

  method NextQueuedRun(database: LocalDatabase) returns (next: Option<QueuedRun>)
    ensures next.None? <==> Waiting(database.runs) == {}
    ensures next.Some? ==>
              exists runId :: IsNext(database.runs, runId)
                && next.value == QueuedRun(database.runs[runId].record, database.runs[runId].spec)
  {
    var runs := database.runs;
    var waiting := set runId | runId in runs && Waits(runs[runId]);
    if waiting == {} {
      return None;
    }
    SomeoneIsFirst(runs, waiting);
    var first :| first in waiting
      && forall other :: other in waiting && other != first ==> AheadOf(runs[first].createdAt, first, runs[other].createdAt, other);
    assert IsNext(runs, first);
    next := Some(QueuedRun(runs[first].record, runs[first].spec));
  }

  // ---- Queue position is an exact wait bound --------------------------------------------------

  /** Nobody is ahead of a waiting run exactly when it is the one `next_queued_run` returns. */
  lemma ZeroAheadIsNext(db: Db, runId: string)
    requires Inv(db) && runId in Waiting(db.runs)
    ensures QueuedBefore(db.runs, db.runs[runId].record) == 0 <==> IsNext(db.runs, runId)
  {
    RunColumns(db, runId);
    var createdAt := db.runs[runId].createdAt;
    var ahead := WaitingAhead(db.runs, createdAt, runId);
    assert QueuedBefore(db.runs, db.runs[runId].record) == |ahead|;
    if |ahead| == 0 {
      forall other | other in Waiting(db.runs) && other != runId
        ensures AheadOf(createdAt, runId, db.runs[other].createdAt, other)
      {
        AheadLaws(createdAt, runId, db.runs[other].createdAt, other, createdAt, runId);
        assert other !in ahead;
      }
    } else {
      var other :| other in ahead;
      AheadLaws(db.runs[other].createdAt, other, createdAt, runId, createdAt, runId);
    }
  }

  lemma RunColumns(db: Db, runId: string)
    requires Inv(db) && runId in db.runs
    ensures var row := db.runs[runId];
            row.createdAt == row.record.createdAt && row.record.runId == runId && row.status == row.record.status
  {
    assert RunOk(db, runId);
  }

  /** The run a call writes, if any. */
  function Target(op: StoreOp): string {
    match op
    case CreateRun(runId, _, _, _) => runId
    case QueueRun(runId, _, _, _) => runId
    case _ => op.runId
  }

  /** A call writes its own row only, keeps a row's created_at, and only queueing adds to the queue, at time `now`. */
  ghost predicate MovesOwnRun(runs: map<string, RunRow>, after: map<string, RunRow>, own: string, queues: bool, now: Instant) {
    && (forall other :: other != own ==> (other in after <==> other in runs))
    && (forall other :: other != own && other in runs ==> after[other] == runs[other])
    && (own in runs ==> own in after && after[own].createdAt == runs[own].createdAt)
    && (own in Waiting(after) - Waiting(runs) ==> queues && after[own].createdAt == now)
  }

  lemma CommitMovesOwnRun(db: Db, runId: string, record: RunRecord, spec: Option<RunSpec>, now: Instant, note: Option<Note>)
    requires runId in db.runs && record.runId == runId
    requires record.status == Queued ==> db.runs[runId].status == Queued
    requires spec == db.runs[runId].spec
    ensures MovesOwnRun(db.runs, Committed(db, runId, record, spec, now, note).runs, runId, false, now)
  {
  }

  lemma SettleMovesOwnRun(db: Db, runId: string, now: Instant, outcome: Result<Transition, RunError>, message: string)
    requires runId in db.runs
    requires outcome.Ok? && outcome.value.changed ==>
               outcome.value.record.runId == runId && outcome.value.record.status != Queued
    ensures MovesOwnRun(db.runs, Settled(db, runId, db.runs[runId].spec, now, outcome, message).0.runs, runId, false, now)
  {
    if outcome.Ok? && outcome.value.changed {
      CommitMovesOwnRun(db, runId, outcome.value.record, db.runs[runId].spec, now, StatusNote(message));
    }
  }

  lemma CreateMovesOwnRun(db: Db, op: StoreOp, now: Instant)
    requires (op.CreateRun? || op.QueueRun?) && Admissible(db, op)
    ensures MovesOwnRun(db.runs, Apply(db, op, now).0.runs, Target(op), op.QueueRun?, now)
  {
  }

  lemma CallMovesOwnRun(db: Db, op: StoreOp, now: Instant)
    requires !op.CreateRun? && !op.QueueRun?
    requires op.runId in db.runs
    requires db.runs[op.runId].record.runId == op.runId && db.runs[op.runId].status == db.runs[op.runId].record.status
    requires Admissible(db, op)
    ensures MovesOwnRun(db.runs, Apply(db, op, now).0.runs, op.runId, false, now)
  {
    var row := db.runs[op.runId];
    var record := row.record;
    match op {
      case RecordEvent(runId, kind, message, harnessEvent) =>
        CommitMovesOwnRun(db, runId, record.(updatedAt := now), row.spec, now, Some(Note(kind, Strip(message), harnessEvent)));
      case MarkRunning(runId, execution) => SettleMovesOwnRun(db, runId, now, StartRun(record, now, execution), "running");
      case RecordHarnessTranscript(runId, transcript) =>
        CommitMovesOwnRun(db, runId, AttachHarnessTranscript(record, transcript, now), row.spec, now, None);
      case FinishRunOp(runId, status, summary, error, category) =>
        SettleMovesOwnRun(db, runId, now, Ok(FinishRun(record, status, summary, error, category, now)), StatusText(status));
      case PrepareCancel(runId) =>
        var planned := PrepareCancellation(record, now);
        if planned.Ok? && planned.value.0.changed {
          CommitMovesOwnRun(db, runId, planned.value.0.record, row.spec, now,
                            CancellationNote(planned.value.0.record.status, planned.value.1));
        }
      case FinishCancel(runId, executionId) =>
        SettleMovesOwnRun(db, runId, now, FinishCancellation(record, executionId, now), "cancelled");
    }
  }

  lemma OpMovesOwnRun(db: Db, op: StoreOp, now: Instant)
    requires Inv(db) && Admissible(db, op)
    ensures MovesOwnRun(db.runs, Apply(db, op, now).0.runs, Target(op), op.QueueRun?, now)
  {
    if op.CreateRun? || op.QueueRun? {
      CreateMovesOwnRun(db, op, now);
    } else if op.runId in db.runs {
      RunColumns(db, op.runId);
      CallMovesOwnRun(db, op, now);
    }
  }

  lemma SetsMove(before: set<string>, later: set<string>, own: string)
    requires forall other {:trigger other in before} {:trigger other in later} ::
               other != own ==> (other in before <==> other in later)
    ensures |later| == |before| - |before - later| + |later - before|
    ensures (before - later) + (later - before) <= {own}
  {
    var common := before * later;
    assert before == common + (before - later);
    assert later == common + (later - before);
  }

  /** Only the written row can enter or leave the runs ahead, and it enters only when queued no later than the place. */
  lemma OneRowMoves(runs: map<string, RunRow>, after: map<string, RunRow>, own: string, queues: bool, now: Instant,
                    createdAt: Instant, runId: string, other: string)
    requires MovesOwnRun(runs, after, own, queues, now)
    ensures var before, later := WaitingAhead(runs, createdAt, runId), WaitingAhead(after, createdAt, runId);
            && (other != own ==> (other in before <==> other in later))
            && (other in later && other !in before ==> queues && !Before(createdAt, now))
  {
    if other == own && own in after {
      AheadIsTimeOrder(after[own].createdAt, own, createdAt, runId);
    }
  }

  /** The moves of one call in the queue ahead of a place: who left, who came, and when a comer may have come. */
  ghost predicate PositionMoves(runs: map<string, RunRow>, after: map<string, RunRow>, own: string, queues: bool, now: Instant,
                                createdAt: Instant, runId: string)
  {
    var before, later := WaitingAhead(runs, createdAt, runId), WaitingAhead(after, createdAt, runId);
    && |later| == |before| - |before - later| + |later - before|
    && (before - later) + (later - before) <= {own}
    && (later - before != {} ==> queues && !Before(createdAt, now))
  }

  lemma PositionFollows(runs: map<string, RunRow>, after: map<string, RunRow>, own: string, queues: bool, now: Instant,
                        createdAt: Instant, runId: string)
    requires MovesOwnRun(runs, after, own, queues, now)
    ensures PositionMoves(runs, after, own, queues, now, createdAt, runId)
  {
    var before, later := WaitingAhead(runs, createdAt, runId), WaitingAhead(after, createdAt, runId);
    assert forall other :: other != own ==> (other in before <==> other in later) by {
      forall other ensures other != own ==> (other in before <==> other in later) {
        OneRowMoves(runs, after, own, queues, now, createdAt, runId, other);
      }
    }
    SetsMove(before, later, own);
    OneRowMoves(runs, after, own, queues, now, createdAt, runId, own);
    assert later - before != {} ==> own in later && own !in before;
  }

  /** While a run waits, each call moves its position by exactly the one run it takes from ahead or puts ahead;
      a run queued at a strictly later time is never put ahead. */
  lemma PositionIsExact(db: Db, op: StoreOp, now: Instant, runId: string)
    requires Inv(db) && Admissible(db, op)
    requires runId in db.runs && runId in Apply(db, op, now).0.runs
    ensures var after := Apply(db, op, now).0;
            var record, later := db.runs[runId].record, after.runs[runId].record;
            && QueuedBefore(db.runs, record) == |WaitingAhead(db.runs, record.createdAt, runId)|
            && QueuedBefore(after.runs, later) == |WaitingAhead(after.runs, record.createdAt, runId)|
            && PositionMoves(db.runs, after.runs, Target(op), op.QueueRun?, now, record.createdAt, runId)
  {
    var after := Apply(db, op, now).0;
    OpMovesOwnRun(db, op, now);
    PositionFollows(db.runs, after.runs, Target(op), op.QueueRun?, now, db.runs[runId].record.createdAt, runId);
    StepKeepsInv(db, op, now);
    RunColumns(db, runId);
    RunColumns(after, runId);
  }
}
