/** Following a run: a poller that re-reads record and log, and must deliver the log exactly once. */
module RunAttach {
  import opened Outcomes
  import opened Timestamps
  import opened RunModels
  import opened RunEvents
  import opened RunStore
  import opened RunHistory
  import opened RunsService

  datatype Snapshot = Snapshot(record: RunRecord, events: seq<RunLogEvent>, terminal: bool)

  datatype Update = Update(record: RunRecord, events: seq<RunLogEvent>, terminal: bool)

  const TERMINAL_SETTLE_POLLS: nat := 1

  function EventsAfter(events: seq<RunLogEvent>, lastSequence: nat): seq<RunLogEvent> {
    if |events| == 0 then []
    else
      var before := EventsAfter(events[..|events| - 1], lastSequence);
      var event := events[|events| - 1];
      if event.sequence > lastSequence then before + [event] else before
  }

  predicate TerminalStatusEventSeen(events: seq<RunLogEvent>, status: RunStatus) {
    exists i :: 0 <= i < |events| && events[i].kind == StatusEvent && events[i].message == StatusText(status)
  }

  /** Whether the poller waits once more for a terminal event that should be there. */
  predicate Unsettled(poll: Snapshot, settlePolls: nat) {
    poll.terminal && settlePolls > 0 && !TerminalStatusEventSeen(poll.events, poll.record.status)
  }

  function Yield(poll: Snapshot, lastSequence: nat): seq<Update> {
    var events := EventsAfter(poll.events, lastSequence);
    if |events| > 0 || poll.terminal then [Update(poll.record, events, poll.terminal)] else []
  }

  function LastSeen(poll: Snapshot, lastSequence: nat): nat {
    var events := EventsAfter(poll.events, lastSequence);
    if |events| > 0 then MaxSequence(events) else lastSequence
  }

  /** The updates yielded for the snapshots that successive polls see. */
  function Updates(polls: seq<Snapshot>, lastSequence: nat, settlePolls: nat): seq<Update>
    decreases |polls|
  {
    if |polls| == 0 then []
    else if Unsettled(polls[0], settlePolls) then Updates(polls[1..], lastSequence, settlePolls - 1)
    else if polls[0].terminal then Yield(polls[0], lastSequence)
    else Yield(polls[0], lastSequence) + Updates(polls[1..], LastSeen(polls[0], lastSequence), settlePolls)
  }

  lemma {:induction false} UpdatesFrom(polls: seq<Snapshot>, turn: nat, lastSequence: nat, settlePolls: nat)
    requires turn < |polls|
    ensures var poll, rest := polls[turn], polls[turn + 1..];
            Updates(polls[turn..], lastSequence, settlePolls)
            == if Unsettled(poll, settlePolls) then Updates(rest, lastSequence, settlePolls - 1)
               else if poll.terminal then Yield(poll, lastSequence)
               else Yield(poll, lastSequence) + Updates(rest, LastSeen(poll, lastSequence), settlePolls)
  {
    assert polls[turn..][1..] == polls[turn + 1..];
  }

  /** One turn past the settling check: what it yields and how far it has seen. */
  method Turn(snapshot: Snapshot, lastSequence: nat) returns (yielded: seq<Update>, seen: nat)
    ensures yielded == Yield(snapshot, lastSequence) && seen == LastSeen(snapshot, lastSequence)
  {
    yielded, seen := [], lastSequence;
    var events := EventsAfter(snapshot.events, lastSequence);
    if |events| > 0 {
      seen := MaxSequence(events);
    }
    if |events| > 0 || snapshot.terminal {
      yielded := [Update(snapshot.record, events, snapshot.terminal)];
    }
  }

  predicate StaysOpen(updates: seq<Update>) {
    |updates| > 0 ==> !updates[|updates| - 1].terminal
  }

  lemma Associate(a: seq<Update>, b: seq<Update>, c: seq<Update>)
    ensures a + (b + c) == a + b + c
  {
  }

  lemma OpenUntil(updates: seq<Update>, yielded: seq<Update>, poll: Snapshot)
    requires StaysOpen(updates)
    requires if |yielded| == 0 then !poll.terminal else |yielded| == 1 && yielded[0].terminal == poll.terminal
    ensures StaysOpen(updates + yielded) <==> !poll.terminal
    ensures poll.terminal ==> |updates + yielded| > 0 && (updates + yielded)[|updates + yielded| - 1].terminal
  {
  }

  /** `stream`, with `polls` standing for what the store answers at each turn of the loop. */
  method Stream(polls: seq<Snapshot>) returns (updates: seq<Update>, finished: bool)
    ensures updates == Updates(polls, 0, TERMINAL_SETTLE_POLLS)
    ensures finished <==> |updates| > 0 && updates[|updates| - 1].terminal
  {
    var lastSequence := 0;
    var settlePolls := TERMINAL_SETTLE_POLLS;
    updates := [];
    ghost var all := Updates(polls, 0, settlePolls);
    var turn := 0;
    assert polls[turn..] == polls;
    while turn < |polls|
      invariant turn <= |polls|
      invariant updates + Updates(polls[turn..], lastSequence, settlePolls) == all
      invariant StaysOpen(updates)
    {
      var snapshot := polls[turn];
      UpdatesFrom(polls, turn, lastSequence, settlePolls);
      turn := turn + 1;
      if Unsettled(snapshot, settlePolls) {
        settlePolls := settlePolls - 1;
        continue;
      }
      var yielded;
      yielded, lastSequence := Turn(snapshot, lastSequence);
      Associate(updates, yielded, Updates(polls[turn..], lastSequence, settlePolls));
      OpenUntil(updates, yielded, snapshot);
      updates := updates + yielded;
      if snapshot.terminal {
        return updates, true;
      }
    }
    finished := false;
  }

  // ---- What polls of a real store see -----------------------------------------------------------

  /** A poll reads the record at one moment of the history and the log at the same or a later one. */
  function Seen(calls: seq<Call>, runId: string, recordAt: nat, eventsAt: nat): Snapshot
    requires recordAt <= eventsAt <= |calls| && runId in After(calls[..recordAt]).db.runs
  {
    var record := After(calls[..recordAt]).db.runs[runId].record;
    Snapshot(record, Log(After(calls[..eventsAt]).db.events, runId), Terminal(record.status))
  }

  /** Moments of the two reads of each poll: nothing else is assumed about the writers in between. */
  predicate Schedule(moments: seq<(nat, nat)>, end: nat) {
    && (forall k :: 0 <= k < |moments| ==> moments[k].0 <= moments[k].1 <= end)
    && (forall k :: 0 <= k < |moments| - 1 ==> moments[k].1 <= moments[k + 1].0)
  }

  ghost predicate PollsOf(calls: seq<Call>, runId: string, moments: seq<(nat, nat)>, polls: seq<Snapshot>) {
    && Legal(calls) && Schedule(moments, |calls|) && |polls| == |moments|
    && forall k :: 0 <= k < |polls| ==>
         runId in After(calls[..moments[k].0]).db.runs && polls[k] == Seen(calls, runId, moments[k].0, moments[k].1)
  }

  /** A snapshot whose log is numbered 1..n and which is settled whenever it is terminal. */
  predicate Sound(poll: Snapshot) {
    Dense(poll.events) && (poll.terminal ==> TerminalStatusEventSeen(poll.events, poll.record.status))
  }

  predicate Growing(polls: seq<Snapshot>) {
    && (forall k :: 0 <= k < |polls| ==> Sound(polls[k]))
    && (forall k :: 0 <= k < |polls| - 1 ==> polls[k].events <= polls[k + 1].events)
  }

  lemma {:induction false} EndedLogShowsItsEnd(log: seq<RunLogEvent>, status: RunStatus)
    requires Replay(log) == At(status) && Terminal(status)
    ensures TerminalStatusEventSeen(log, status)
  {
    var before, event := log[..|log| - 1], log[|log| - 1];
    if event.kind == StatusEvent {
      assert log[|log| - 1].message == StatusText(status);
    } else {
      EndedLogShowsItsEnd(before, status);
      var i :| 0 <= i < |before| && before[i].kind == StatusEvent && before[i].message == StatusText(status);
      assert log[i] == before[i];
    }
  }

  lemma {:induction false} PollIsSound(calls: seq<Call>, runId: string, recordAt: nat, eventsAt: nat)
    requires Legal(calls) && recordAt <= eventsAt <= |calls| && runId in After(calls[..recordAt]).db.runs
    ensures Sound(Seen(calls, runId, recordAt, eventsAt))
    ensures runId in After(calls[..eventsAt]).db.runs
  {
    HistoryMovesForward(calls, eventsAt);
    var later := calls[..eventsAt];
    HistoryMovesForward(later, recordAt);
    assert later[..recordAt] == calls[..recordAt];
    assert RunFuture(After(calls[..recordAt]).db, After(later).db, runId);
    LogReplaysToRecord(later, runId);
    var record := After(calls[..recordAt]).db.runs[runId].record;
    if Terminal(record.status) {
      EndedLogShowsItsEnd(Log(After(later).db.events, runId), record.status);
    }
  }

  lemma {:induction false} LogGrows(calls: seq<Call>, runId: string, earlier: nat, later: nat)
    requires Legal(calls) && earlier <= later <= |calls| && runId in After(calls[..earlier]).db.runs
    ensures Log(After(calls[..earlier]).db.events, runId) <= Log(After(calls[..later]).db.events, runId)
  {
    HistoryMovesForward(calls, later);
    HistoryMovesForward(calls[..later], earlier);
    assert calls[..later][..earlier] == calls[..earlier];
    assert RunFuture(After(calls[..earlier]).db, After(calls[..later]).db, runId);
  }

  lemma PollsGrow(calls: seq<Call>, runId: string, moments: seq<(nat, nat)>, polls: seq<Snapshot>)
    requires PollsOf(calls, runId, moments, polls)
    ensures Growing(polls)
  {
    forall k | 0 <= k < |polls| ensures Sound(polls[k]) {
      PollIsSound(calls, runId, moments[k].0, moments[k].1);
    }
    forall k | 0 <= k < |polls| - 1 ensures polls[k].events <= polls[k + 1].events {
      PollIsSound(calls, runId, moments[k].0, moments[k].1);
      LogGrows(calls, runId, moments[k].1, moments[k + 1].1);
    }
  }

  // ---- Exactly-once delivery --------------------------------------------------------------------

  function Delivered(updates: seq<Update>): seq<RunLogEvent> {
    if |updates| == 0 then [] else updates[0].events + Delivered(updates[1..])
  }

  /** Index of the poll the stream stops at: the first terminal one, else the last. */
  function StopsAt(polls: seq<Snapshot>): (k: nat)
    requires |polls| > 0
    ensures k < |polls|
  {
    if polls[0].terminal || |polls| == 1 then 0 else 1 + StopsAt(polls[1..])
  }

  lemma {:induction false} EventsAfterDense(events: seq<RunLogEvent>, lastSequence: nat)
    requires Dense(events)
    ensures EventsAfter(events, lastSequence) == if lastSequence <= |events| then events[lastSequence..] else []
  {
    if |events| > 0 {
      EventsAfterDense(events[..|events| - 1], lastSequence);
    }
  }

  lemma {:induction false} MaxOfTail(events: seq<RunLogEvent>, lastSequence: nat)
    requires Dense(events) && lastSequence < |events|
    ensures MaxSequence(events[lastSequence..]) == |events|
  {
    var tail := events[lastSequence..];
    if |tail| > 1 {
      MaxOfTail(events[..|events| - 1], lastSequence);
      assert tail[..|tail| - 1] == events[..|events| - 1][lastSequence..];
    } else {
      assert tail[..|tail| - 1] == [];
    }
  }

  /** One poll of a sound store yields exactly the events beyond the last one seen, and remembers the newest. */
  lemma PollYieldsRest(poll: Snapshot, lastSequence: nat, settlePolls: nat)
    requires Sound(poll) && lastSequence <= |poll.events|
    ensures !Unsettled(poll, settlePolls)
    ensures LastSeen(poll, lastSequence) == |poll.events|
    ensures Delivered(Yield(poll, lastSequence)) == poll.events[lastSequence..]
  {
    EventsAfterDense(poll.events, lastSequence);
    if lastSequence < |poll.events| {
      MaxOfTail(poll.events, lastSequence);
    }
  }

  /** What one poll adds: the events beyond the last one seen with the record they were polled with, nothing when there are none, and
      a terminal record in any case; but a terminal record whose own status event is missing is polled again while turns are left. */
  lemma PollIsTold(polls: seq<Snapshot>, lastSequence: nat, settlePolls: nat)
    requires |polls| > 0 && Dense(polls[0].events) && lastSequence <= |polls[0].events|
    ensures var poll, rest := polls[0], polls[1..];
            var updates := Updates(polls, lastSequence, settlePolls);
            var said := exists event :: event in poll.events && event.kind == StatusEvent && event.message == StatusText(poll.record.status);
            && (!poll.terminal && lastSequence < |poll.events| ==>
                  updates == [Update(poll.record, poll.events[lastSequence..], false)] + Updates(rest, |poll.events|, settlePolls))
            && (!poll.terminal && lastSequence == |poll.events| ==> updates == Updates(rest, lastSequence, settlePolls))
            && (poll.terminal && (said || settlePolls == 0) ==> updates == [Update(poll.record, poll.events[lastSequence..], true)])
            && (poll.terminal && !said && settlePolls > 0 ==> updates == Updates(rest, lastSequence, settlePolls - 1))
  {
    EventsAfterDense(polls[0].events, lastSequence);
    if lastSequence < |polls[0].events| {
      MaxOfTail(polls[0].events, lastSequence);
    }
  }

  /** A stream waits for a missing terminal event for one more poll and no longer. */
  lemma {:induction false} WaitsOnce(first: Snapshot, second: Snapshot, later: seq<Snapshot>)
    requires Dense(first.events) && Dense(second.events) && first.terminal && second.terminal
    requires forall event :: event in first.events ==> event.kind != StatusEvent || event.message != StatusText(first.record.status)
    ensures Updates([first, second] + later, 0, TERMINAL_SETTLE_POLLS) == [Update(second.record, second.events, true)]
  {
    var polls := [first, second] + later;
    assert polls[1..] == [second] + later;
    PollIsTold(polls, 0, 1);
    PollIsTold([second] + later, 0, 0);
  }

  predicate Delivers(updates: seq<Update>, last: Snapshot, lastSequence: nat) {
    && lastSequence <= |last.events|
    && Delivered(updates) == last.events[lastSequence..]
    && (forall i :: 0 <= i < |updates| - 1 ==> !updates[i].terminal)
    && (forall i :: 0 <= i < |updates| ==> updates[i].terminal || updates[i].events != [])
    && (last.terminal <==> |updates| > 0 && updates[|updates| - 1].terminal)
    && (last.terminal ==> updates[|updates| - 1].record == last.record)
  }

  lemma LaterDelivers(poll: Snapshot, rest: seq<Update>, last: Snapshot, lastSequence: nat)
    requires !poll.terminal && lastSequence <= |poll.events| && poll.events <= last.events
    requires Delivered(Yield(poll, lastSequence)) == poll.events[lastSequence..] && Delivers(rest, last, |poll.events|)
    ensures Delivers(Yield(poll, lastSequence) + rest, last, lastSequence)
  {
    DeliveredAppend(Yield(poll, lastSequence), rest);
    EventsBetween(poll.events, last.events, lastSequence);
  }

  lemma {:induction false} DeliveryFrom(polls: seq<Snapshot>, lastSequence: nat, settlePolls: nat)
    requires Growing(polls) && |polls| > 0 && lastSequence <= |polls[0].events|
    ensures Delivers(Updates(polls, lastSequence, settlePolls), polls[StopsAt(polls)], lastSequence)
    decreases |polls|
  {
    var poll := polls[0];
    assert Sound(poll);
    PollYieldsRest(poll, lastSequence, settlePolls);
    if !poll.terminal && |polls| > 1 {
      DeliveryFrom(polls[1..], |poll.events|, settlePolls);
      PrefixAt(polls);
      LaterDelivers(poll, Updates(polls[1..], |poll.events|, settlePolls), polls[StopsAt(polls)], lastSequence);
    } else {
      assert poll.terminal || Updates(polls[1..], LastSeen(poll, lastSequence), settlePolls) == [];
      assert Updates(polls, lastSequence, settlePolls) == Yield(poll, lastSequence);
    }
  }

  lemma EventsBetween(earlier: seq<RunLogEvent>, later: seq<RunLogEvent>, from: nat)
    requires earlier <= later && from <= |earlier|
    ensures later[from..] == earlier[from..] + later[|earlier|..]
  {
  }

  lemma {:induction false} DeliveredAppend(a: seq<Update>, b: seq<Update>)
    ensures Delivered(a + b) == Delivered(a) + Delivered(b)
  {
    if |a| == 0 {
      assert a + b == b;
    } else {
      assert (a + b)[1..] == a[1..] + b;
      DeliveredAppend(a[1..], b);
    }
  }

  lemma {:induction false} PrefixAt(polls: seq<Snapshot>)
    requires Growing(polls) && |polls| > 0
    ensures polls[0].events <= polls[StopsAt(polls)].events
  {
    if !polls[0].terminal && |polls| > 1 {
      PrefixAt(polls[1..]);
    }
  }

  /** However writers interleave with the polls: what is delivered is the log as of the last poll, each event once and
      in order; only the last update can be terminal, it is as soon as a poll saw a terminal record, and then the
      delivered log replays to that very status. The settling poll is never needed. */
  lemma {:induction false} AttachDeliversExactlyOnce(calls: seq<Call>, runId: string, moments: seq<(nat, nat)>, polls: seq<Snapshot>)
    requires PollsOf(calls, runId, moments, polls) && |polls| > 0
    ensures var updates := Updates(polls, 0, TERMINAL_SETTLE_POLLS);
            var stop := StopsAt(polls);
            && Delivered(updates) == Log(After(calls[..moments[stop].1]).db.events, runId)
            && Delivered(updates) <= Log(After(calls).db.events, runId)
            && (forall i :: 0 <= i < |updates| - 1 ==> !updates[i].terminal)
            && (forall i :: 0 <= i < |updates| ==> updates[i].terminal || updates[i].events != [])
            && (polls[stop].terminal <==> |updates| > 0 && updates[|updates| - 1].terminal)
            && (polls[stop].terminal ==> Replay(Delivered(updates)) == At(updates[|updates| - 1].record.status))
    ensures forall k, settlePolls :: 0 <= k < |polls| ==> !Unsettled(polls[k], settlePolls)
  {
    PollsGrow(calls, runId, moments, polls);
    DeliveryFrom(polls, 0, TERMINAL_SETTLE_POLLS);
    var stop := StopsAt(polls);
    PollIsSound(calls, runId, moments[stop].0, moments[stop].1);
    LogGrows(calls, runId, moments[stop].1, |calls|);
    assert calls[..|calls|] == calls;
    assert polls[stop].events == polls[stop].events[0..];
    if polls[stop].terminal {
      EndIsFinal(calls, runId, moments[stop].0, moments[stop].1);
    }
    forall k, settlePolls | 0 <= k < |polls| ensures !Unsettled(polls[k], settlePolls) {
      assert Sound(polls[k]);
    }
  }

  lemma {:induction false} EndIsFinal(calls: seq<Call>, runId: string, recordAt: nat, eventsAt: nat)
    requires Legal(calls) && recordAt <= eventsAt <= |calls| && runId in After(calls[..recordAt]).db.runs
    requires Terminal(After(calls[..recordAt]).db.runs[runId].record.status)
    ensures Replay(Log(After(calls[..eventsAt]).db.events, runId)) == At(After(calls[..recordAt]).db.runs[runId].record.status)
  {
    HistoryMovesForward(calls, eventsAt);
    var later := calls[..eventsAt];
    HistoryMovesForward(later, recordAt);
    assert later[..recordAt] == calls[..recordAt];
    assert RunFuture(After(calls[..recordAt]).db, After(later).db, runId);
    LogReplaysToRecord(later, runId);
  }
}
