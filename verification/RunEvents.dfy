/** The append-only event table, its MAX(sequence) + 1 numbering and its ordered listing. */
module RunEvents {
  import opened Outcomes
  import opened RunModels
  import Timestamps

  /** Rows of one run in the order they were inserted. */
  function RowsOf(events: seq<RunLogEvent>, runId: string): seq<RunLogEvent>
  {
    if |events| == 0 then []
    else
      var before := RowsOf(events[..|events| - 1], runId);
      if events[|events| - 1].runId == runId then before + [events[|events| - 1]] else before
  }

  /** SELECT COALESCE(MAX(sequence), 0) */
  function MaxSequence(rows: seq<RunLogEvent>): nat {
    if |rows| == 0 then 0
    else
      var before := MaxSequence(rows[..|rows| - 1]);
      var last := rows[|rows| - 1].sequence;
      if before < last then last else before
  }

  function NextSequence(events: seq<RunLogEvent>, runId: string): nat {
    MaxSequence(RowsOf(events, runId)) + 1
  }

  function InsertBySequence(sorted: seq<RunLogEvent>, row: RunLogEvent): seq<RunLogEvent> {
    if |sorted| == 0 || sorted[|sorted| - 1].sequence <= row.sequence then sorted + [row]
    else InsertBySequence(sorted[..|sorted| - 1], row) + [sorted[|sorted| - 1]]
  }

  /** ORDER BY sequence ASC */
  function OrderBySequence(rows: seq<RunLogEvent>): seq<RunLogEvent> {
    if |rows| == 0 then []
    else InsertBySequence(OrderBySequence(rows[..|rows| - 1]), rows[|rows| - 1])
  }

  /** What `RunEventStore.list` returns. */
  function Log(events: seq<RunLogEvent>, runId: string): seq<RunLogEvent> {
    OrderBySequence(RowsOf(events, runId))
  }

  function Appended(events: seq<RunLogEvent>, runId: string, timestamp: Timestamps.Instant, kind: RunEventKind,
                    message: string, harnessEvent: Option<string>): seq<RunLogEvent>
  {
    events + [RunLogEvent(runId, NextSequence(events, runId), timestamp, kind, message, harnessEvent)]
  }

  /** Sequence numbers are exactly 1..n in insertion order. */
  predicate Dense(rows: seq<RunLogEvent>) {
    forall i :: 0 <= i < |rows| ==> rows[i].sequence == i + 1
  }

  predicate Ascending(rows: seq<RunLogEvent>) {
    forall i, j :: 0 <= i < j < |rows| ==> rows[i].sequence <= rows[j].sequence
  }

  lemma {:induction false} InsertedOnce(sorted: seq<RunLogEvent>, row: RunLogEvent)
    ensures multiset(InsertBySequence(sorted, row)) == multiset(sorted) + multiset{row}
  {
    if |sorted| > 0 && sorted[|sorted| - 1].sequence > row.sequence {
      var init, last := sorted[..|sorted| - 1], sorted[|sorted| - 1];
      InsertedOnce(init, row);
      assert sorted == init + [last];
    }
  }

  predicate AtMost(rows: seq<RunLogEvent>, bound: nat) {
    forall i :: 0 <= i < |rows| ==> rows[i].sequence <= bound
  }

  lemma {:induction false} InsertedAtMost(sorted: seq<RunLogEvent>, row: RunLogEvent, bound: nat)
    requires AtMost(sorted, bound) && row.sequence <= bound
    ensures AtMost(InsertBySequence(sorted, row), bound)
  {
    if |sorted| > 0 && sorted[|sorted| - 1].sequence > row.sequence {
      InsertedAtMost(sorted[..|sorted| - 1], row, bound);
    }
  }

  lemma {:induction false} InsertedInOrder(sorted: seq<RunLogEvent>, row: RunLogEvent)
    requires Ascending(sorted)
    ensures Ascending(InsertBySequence(sorted, row))
  {
    if |sorted| > 0 && sorted[|sorted| - 1].sequence > row.sequence {
      var init, last := sorted[..|sorted| - 1], sorted[|sorted| - 1];
      InsertedInOrder(init, row);
      InsertedAtMost(init, row, last.sequence);
    }
  }

  /** A listing loses no row, invents none, and is in sequence order. */
  lemma {:induction false} OrderedFacts(rows: seq<RunLogEvent>)
    ensures Ascending(OrderBySequence(rows)) && multiset(OrderBySequence(rows)) == multiset(rows)
  {
    if |rows| > 0 {
      var init, last := rows[..|rows| - 1], rows[|rows| - 1];
      OrderedFacts(init);
      InsertedInOrder(OrderBySequence(init), last);
      InsertedOnce(OrderBySequence(init), last);
      assert rows == init + [last];
    }
  }

  lemma {:induction false} DenseRowsAreOrdered(rows: seq<RunLogEvent>)
    requires Dense(rows)
    ensures OrderBySequence(rows) == rows
    ensures MaxSequence(rows) == |rows|
  {
    if |rows| > 0 {
      var before, last := rows[..|rows| - 1], rows[|rows| - 1];
      DenseRowsAreOrdered(before);
      LastIsAppended(before, last);
      assert before + [last] == rows;
    }
  }

  lemma {:induction false} LastIsAppended(sorted: seq<RunLogEvent>, row: RunLogEvent)
    requires |sorted| > 0 ==> sorted[|sorted| - 1].sequence <= row.sequence
    ensures InsertBySequence(sorted, row) == sorted + [row]
  {
  }

  lemma {:induction false} RowsAreOwn(events: seq<RunLogEvent>, runId: string)
    ensures forall i :: 0 <= i < |RowsOf(events, runId)| ==> RowsOf(events, runId)[i].runId == runId
    ensures (forall i :: 0 <= i < |events| ==> events[i].runId != runId) ==> RowsOf(events, runId) == []
  {
    if |events| > 0 {
      RowsAreOwn(events[..|events| - 1], runId);
    }
  }

  /** Appending leaves other runs' logs alone and extends this one's with the next number. */
  lemma {:induction false} AppendExtendsLog(events: seq<RunLogEvent>, runId: string, timestamp: Timestamps.Instant, kind: RunEventKind,
                         message: string, harnessEvent: Option<string>, other: string)
    requires Dense(RowsOf(events, runId)) && Dense(RowsOf(events, other))
    ensures var after := Appended(events, runId, timestamp, kind, message, harnessEvent);
            var event := RunLogEvent(runId, |Log(events, runId)| + 1, timestamp, kind, message, harnessEvent);
            Dense(RowsOf(after, other))
            && Log(after, other) == RowsOf(after, other)
            && Log(after, other) == if other == runId then Log(events, runId) + [event] else Log(events, other)
  {
    var after := Appended(events, runId, timestamp, kind, message, harnessEvent);
    assert after[..|after| - 1] == events;
    DenseRowsAreOrdered(RowsOf(events, runId));
    DenseRowsAreOrdered(RowsOf(events, other));
    DenseRowsAreOrdered(RowsOf(after, other));
  }
}
