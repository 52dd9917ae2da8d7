/** Freezing an executor's process tree while the processes in it that still run fork and exit. */
module ProcessFreeze {
  import opened Outcomes

  /** A process identity, pid and creation time together, numbered in order of creation and so never reused. */
  type Proc = nat

  /** `maker` is who forked a process; it is its parent for as long as it lives, and afterwards the process is an orphan. */
  datatype World = World(next: nat, maker: map<Proc, Proc>, live: set<Proc>, suspended: set<Proc>)

  predicate Sound(w: World) {
    && (forall p {:trigger p in w.live} :: p in w.live ==> p < w.next)
    && (forall c {:trigger w.maker[c]} :: c in w.maker ==> c < w.next && w.maker[c] < c)
    && w.suspended <= w.live
  }

  datatype Move = Fork(proc: Proc) | Exit(proc: Proc)

  /** Running processes fork; any process may go, a suspended one by a kill from outside. */
  function Moved(w: World, move: Move): World {
    match move
    case Fork(p) =>
      if p in w.live && p !in w.suspended then w.(next := w.next + 1, maker := w.maker[w.next := p], live := w.live + {w.next}) else w
    case Exit(p) => w.(live := w.live - {p}, suspended := w.suspended - {p})
  }

  function MovedAll(w: World, moves: seq<Move>): World
    decreases |moves|
  {
    if moves == [] then w else MovedAll(Moved(w, moves[0]), moves[1..])
  }

  function Forks(moves: seq<Move>): nat {
    if moves == [] then 0 else (if moves[0].Fork? then 1 else 0) + Forks(moves[1..])
  }

  /** What moves of others leave true: nothing comes back, suspended processes stay so, and whoever is new was made by
      somebody new or by somebody who was running. */
  ghost predicate Evolves(w: World, w': World) {
    && w.next <= w'.next
    && (forall c {:trigger w.maker[c]} {:trigger w'.maker[c]} :: c < w.next ==> (c in w'.maker <==> c in w.maker))
    && (forall c {:trigger w'.maker[c]} :: c in w.maker && c < w.next ==> w'.maker[c] == w.maker[c])
    && (forall p {:trigger p in w'.live} :: p in w'.live && p < w.next ==> p in w.live)
    && (forall p {:trigger p in w'.suspended} :: p in w'.suspended ==> p in w.suspended)
    && (forall p {:trigger p in w.suspended} :: p in w.suspended && p in w'.live ==> p in w'.suspended)
    && (forall c {:trigger w'.maker[c]} :: w.next <= c && c in w'.maker ==> w'.maker[c] >= w.next || (w'.maker[c] in w.live && w'.maker[c] !in w.suspended))
  }

  lemma MoveEvolves(w: World, move: Move)
    requires Sound(w)
    ensures Sound(Moved(w, move)) && Evolves(w, Moved(w, move))
  {
  }

  /** A running process of the tree that forks brings a new process into it, one that runs and that nobody has seen before. */
  lemma {:induction false} ForkGrowsTheTree(w: World, p: Proc, root: Proc)
    requires Sound(w) && InTree(w, p, root) && p !in w.suspended
    ensures var after := Moved(w, Fork(p));
            && w.next !in w.live && InTree(after, w.next, root) && w.next !in after.suspended
            && after.live == w.live + {w.next} && (forall q :: InTree(w, q, root) ==> InTree(after, q, root))
  {
    var after := Moved(w, Fork(p));
    forall q | InTree(w, q, root) ensures InTree(after, q, root) {
      ForkKeepsTree(w, p, q, root);
    }
    assert InTree(after, p, root) && after.maker[w.next] == p && p < w.next;
  }

  lemma {:induction false} ForkKeepsTree(w: World, p: Proc, q: Proc, root: Proc)
    requires Sound(w) && p in w.live && p !in w.suspended && InTree(w, q, root)
    ensures InTree(Moved(w, Fork(p)), q, root)
  {
    assert q < w.next;
    if q != root {
      ForkKeepsTree(w, p, w.maker[q], root);
    }
  }

  /** One that exits is gone from it, and frees nobody else. */
  lemma {:induction false} ExitLeavesTheTree(w: World, p: Proc, root: Proc)
    ensures var after := Moved(w, Exit(p));
            !InTree(after, p, root) && after.live == w.live - {p} && after.suspended == w.suspended - {p} && after.maker == w.maker
  {
  }

  lemma EvolvesOn(a: World, b: World, c: World)
    requires Sound(a) && Sound(b) && Sound(c) && Evolves(a, b) && Evolves(b, c)
    ensures Evolves(a, c)
  {
  }

  lemma {:induction false} MovesEvolve(w: World, moves: seq<Move>)
    requires Sound(w)
    ensures Sound(MovedAll(w, moves)) && Evolves(w, MovedAll(w, moves))
    ensures MovedAll(w, moves).next <= w.next + Forks(moves)
    decreases |moves|
  {
    if moves != [] {
      MoveEvolves(w, moves[0]);
      MovesEvolve(Moved(w, moves[0]), moves[1..]);
      EvolvesOn(w, Moved(w, moves[0]), MovedAll(w, moves));
    }
  }

  /** What is known of who made whom only grows. */
  predicate Remembers(w: World, w': World) {
    forall c {:trigger w.maker[c]} :: c in w.maker ==> c in w'.maker && w'.maker[c] == w.maker[c]
  }

  /** A living process whose chain of living parents reaches the root. */
  predicate InTree(w: World, p: Proc, root: Proc) {
    p in w.live && (p == root || (p in w.maker && w.maker[p] < p && InTree(w, w.maker[p], root)))
  }

  /** Forked by the root, or by somebody who was. */
  predicate Descends(w: World, p: Proc, root: Proc) {
    p == root || (p in w.maker && w.maker[p] < p && Descends(w, w.maker[p], root))
  }

  /** Every living child of a recorded living process, other than those still `open`, is recorded or about to be looked at. */
  predicate Closed(w: World, recorded: seq<Proc>, pending: seq<Proc>, open: set<Proc>) {
    forall c {:trigger w.maker[c]} ::
      c in w.live && c in w.maker && w.maker[c] in recorded && w.maker[c] in w.live && w.maker[c] !in open
      ==> c in recorded || c in pending
  }

  /** The root first, then everyone after the process that made it. */
  predicate MakersFirst(w: World, recorded: seq<Proc>, root: Proc) {
    forall i {:trigger recorded[i]} :: 0 <= i < |recorded| ==>
      if i == 0 then recorded[0] == root else recorded[i] in w.maker && w.maker[recorded[i]] in recorded[..i]
  }

  predicate Distinct(recorded: seq<Proc>) {
    forall i, j :: 0 <= i < j < |recorded| ==> recorded[i] != recorded[j]
  }

  /** With nothing left to look at, being closed under living children is having the whole tree. */
  lemma {:induction false} ClosedIsWhole(w: World, recorded: seq<Proc>, root: Proc, p: Proc)
    requires Closed(w, recorded, [], {}) && (root in w.live ==> root in recorded) && InTree(w, p, root)
    ensures p in recorded
  {
    if p != root {
      ClosedIsWhole(w, recorded, root, w.maker[p]);
    }
  }

  lemma {:induction false} RecordedDescend(w: World, recorded: seq<Proc>, root: Proc, i: nat)
    requires Sound(w) && MakersFirst(w, recorded, root) && i < |recorded|
    ensures Descends(w, recorded[i], root)
  {
    if i > 0 {
      var j :| 0 <= j < i && recorded[..i][j] == w.maker[recorded[i]];
      assert recorded[j] == w.maker[recorded[i]];
      RecordedDescend(w, recorded, root, j);
    }
  }

  /** What a running freeze keeps, whatever the others do. */
  predicate Freezing(w: World, recorded: seq<Proc>, pending: seq<Proc>, root: Proc) {
    && Sound(w) && Distinct(recorded) && MakersFirst(w, recorded, root)
    && (forall p {:trigger p in recorded} :: p in recorded ==> p < w.next && (p in w.live ==> p in w.suspended))
    && (forall p {:trigger p in pending} :: p in pending ==> p < w.next && (p == root || (p in w.maker && w.maker[p] in recorded)))
    && (if recorded == [] then pending == [root] else recorded[0] == root)
  }

  lemma FreezingEvolves(w: World, w': World, recorded: seq<Proc>, pending: seq<Proc>, open: set<Proc>, root: Proc)
    requires Freezing(w, recorded, pending, root) && Sound(w') && Evolves(w, w')
    ensures Freezing(w', recorded, pending, root)
    ensures Closed(w, recorded, pending, open) ==> Closed(w', recorded, pending, open)
  {
  }

  /** A process that was already recorded, or is gone, needs no second look. */
  lemma PassedBy(w: World, recorded: seq<Proc>, pending: seq<Proc>, p: Proc, root: Proc)
    requires recorded != [] && (p in recorded || p !in w.live)
    requires Freezing(w, recorded, pending + [p], root) && Closed(w, recorded, pending + [p], {})
    ensures Freezing(w, recorded, pending, root) && Closed(w, recorded, pending, {})
  {
    assert forall q :: q in pending ==> q in pending + [p];
  }

  lemma MakersStayFirst(w: World, recorded: seq<Proc>, p: Proc, root: Proc)
    requires MakersFirst(w, recorded, root)
    requires if recorded == [] then p == root else p in w.maker && w.maker[p] in recorded
    ensures MakersFirst(w, recorded + [p], root)
  {
    var more := recorded + [p];
    assert more[..|recorded|] == recorded;
    forall i | 0 < i < |recorded| ensures more[i] in w.maker && w.maker[more[i]] in more[..i] {
      assert more[i] == recorded[i] && more[..i] == recorded[..i];
    }
  }

  /** Suspending one more process leaves only its own children to be looked up. */
  lemma OneMoreRecorded(w: World, recorded: seq<Proc>, pending: seq<Proc>, p: Proc, root: Proc)
    requires Freezing(w, recorded, pending + [p], root) && Closed(w, recorded, pending + [p], {}) && p !in recorded && p in w.live
    ensures var w' := w.(suspended := w.suspended + {p});
            Freezing(w', recorded + [p], pending, root) && Closed(w', recorded + [p], pending, {p})
  {
    assert p in pending + [p];
    assert forall q :: q in pending ==> q in pending + [p];
    assert recorded != [] ==> root == recorded[0] && root in recorded;
    assert recorded == [] ==> (pending + [p])[|pending|] == p && |pending| == 0;
    MakersStayFirst(w, recorded, p, root);
  }

  lemma ChildrenFound(w: World, recorded: seq<Proc>, pending: seq<Proc>, children: seq<Proc>, p: Proc, root: Proc)
    requires Freezing(w, recorded, pending, root) && Closed(w, recorded, pending, {p}) && p in recorded
    requires forall c :: c in children <==> c in w.live && c in w.maker && w.maker[c] == p
    ensures Freezing(w, recorded, pending + children, root) && Closed(w, recorded, pending + children, {})
  {
  }

  lemma NoChildrenLeft(w: World, recorded: seq<Proc>, pending: seq<Proc>, p: Proc)
    requires Closed(w, recorded, pending, {p}) && p !in w.live
    ensures Closed(w, recorded, pending, {})
  {
  }

  function Numbers(bound: nat): set<Proc> {
    if bound == 0 then {} else Numbers(bound - 1) + {bound - 1}
  }

  lemma {:induction false} NumbersAreBelow(bound: nat)
    ensures |Numbers(bound)| == bound && forall p: Proc :: p in Numbers(bound) <==> p < bound
  {
    if bound > 0 {
      NumbersAreBelow(bound - 1);
    }
  }

  lemma {:induction false} DistinctFit(recorded: seq<Proc>, room: set<Proc>)
    requires Distinct(recorded) && forall p :: p in recorded ==> p in room
    ensures |recorded| <= |room|
  {
    if recorded != [] {
      var init, last := recorded[..|recorded| - 1], recorded[|recorded| - 1];
      DistinctFit(init, room - {last});
    }
  }

  lemma RecordedFit(w: World, recorded: seq<Proc>, pending: seq<Proc>, root: Proc)
    requires Freezing(w, recorded, pending, root)
    ensures |recorded| <= w.next
  {
    NumbersAreBelow(w.next);
    DistinctFit(recorded, Numbers(w.next));
  }

  datatype Answer = Fine | Gone | Denied

  datatype Failure = Disappeared | CouldNotFreeze

  /** What happens around one psutil call: moves of others before it, and whether the system refuses it. */
  datatype Tick = Tick(moves: seq<Move>, denied: bool)

  function ForksLeft(schedule: seq<Tick>): nat {
    if schedule == [] then 0 else Forks(schedule[0].moves) + ForksLeft(schedule[1..])
  }

  predicate NeverDenied(schedule: seq<Tick>) {
    forall i :: 0 <= i < |schedule| ==> !schedule[i].denied
  }

  /** The operating system as psutil shows it: every call comes after one more tick of the schedule. */
  class ProcessTable {
    var world: World
    var schedule: seq<Tick>
    /** Resume calls so far, each with its answer. */
    ghost var attempts: seq<(Proc, Answer)>

    predicate Valid()
      reads this
    {
      Sound(world)
    }

    /** Processes that exist or may still be forked. */
    function Bound(): nat
      reads this
    {
      world.next + ForksLeft(schedule)
    }

    method Elapse() returns (denied: bool)
      requires Valid()
      modifies `world, `schedule
      ensures Valid() && Evolves(old(world), world) && Bound() <= old(Bound())
      ensures old(schedule) == [] ==> !denied && world == old(world) && schedule == []
      ensures old(schedule) != [] ==>
                var tick := old(schedule)[0];
                denied == tick.denied && world == MovedAll(old(world), tick.moves) && schedule == old(schedule)[1..]
      ensures NeverDenied(old(schedule)) ==> !denied && NeverDenied(schedule)
    {
      denied := false;
      if schedule != [] {
        denied := schedule[0].denied;
        MovesEvolve(world, schedule[0].moves);
        world := MovedAll(world, schedule[0].moves);
        schedule := schedule[1..];
      }
    }

    method Suspend(p: Proc) returns (answer: Answer, ghost found: World)
      requires Valid()
      modifies `world, `schedule
      ensures Valid() && Evolves(old(world), found) && Sound(found) && Bound() <= old(Bound())
      ensures answer.Gone? <==> p !in found.live
      ensures answer.Denied? <==> p in found.live && old(schedule) != [] && old(schedule)[0].denied
      ensures NeverDenied(old(schedule)) ==> !answer.Denied? && NeverDenied(schedule)
      ensures world == if answer.Fine? then found.(suspended := found.suspended + {p}) else found
    {
      var denied := Elapse();
      found := world;
      if p !in world.live {
        return Gone, found;
      }
      if denied {
        return Denied, found;
      }
      world := world.(suspended := world.suspended + {p});
      answer := Fine;
    }

    method Children(p: Proc) returns (answer: Answer, children: seq<Proc>)
      requires Valid()
      modifies `world, `schedule
      ensures Valid() && Evolves(old(world), world) && Bound() <= old(Bound())
      ensures answer.Gone? <==> p !in world.live
      ensures answer.Denied? <==> p in world.live && old(schedule) != [] && old(schedule)[0].denied
      ensures NeverDenied(old(schedule)) ==> !answer.Denied? && NeverDenied(schedule)
      ensures answer.Fine? ==> forall c :: c in children <==> c in world.live && c in world.maker && world.maker[c] == p
    {
      var denied := Elapse();
      children := [];
      if p !in world.live {
        return Gone, [];
      }
      if denied {
        return Denied, [];
      }
      for c := 0 to world.next
        invariant forall k :: k in children <==> k < c && k in world.live && k in world.maker && world.maker[k] == p
      {
        if c in world.live && c in world.maker && world.maker[c] == p {
          children := children + [c];
        }
      }
      answer := Fine;
    }

    method Resume(p: Proc) returns (answer: Answer)
      requires Valid()
      modifies this
      ensures Valid() && Remembers(old(world), world)
      ensures forall q :: q in world.suspended ==> q in old(world).suspended
      ensures p in world.suspended ==> answer.Denied?
      ensures answer.Gone? <==> p !in world.live
      ensures answer.Denied? <==> p in world.live && old(schedule) != [] && old(schedule)[0].denied
      ensures attempts == old(attempts) + [(p, answer)]
    {
      var denied := Elapse();
      answer := if p !in world.live then Gone else if denied then Denied else Fine;
      if answer.Fine? {
        world := world.(suspended := world.suspended - {p});
      }
      attempts := attempts + [(p, answer)];
    }

    /** `resume_processes`: one attempt for each, whatever the attempts before came to. */
    method ResumeProcesses(processes: seq<Proc>)
      requires Valid()
      modifies this
      ensures Valid() && Remembers(old(world), world)
      ensures forall q :: q in world.suspended ==> q in old(world).suspended
      ensures Resumed(old(attempts), attempts, processes, world)
    {
      for i := 0 to |processes|
        invariant Valid() && Remembers(old(world), world)
        invariant forall q :: q in world.suspended ==> q in old(world).suspended
        invariant Resumed(old(attempts), attempts, processes[..i], world)
      {
        ghost var before := attempts;
        var answer := Resume(processes[i]);
        assert attempts[|before|] == (processes[i], answer);
      }
      assert processes[..|processes|] == processes;
    }

    /** The body of the freeze loop for a process not seen before: suspend it, record it, and queue its children. */
    method Visit(process: Proc, processes: seq<Proc>, pending: seq<Proc>, root: Proc)
      returns (answer: Answer, recorded: seq<Proc>, waiting: seq<Proc>)
      requires Valid() && process !in processes && |processes| <= world.next
      requires Freezing(world, processes, pending + [process], root) && Closed(world, processes, pending + [process], {})
      modifies `world, `schedule
      ensures Valid() && Bound() <= old(Bound())
      ensures recorded == processes || recorded == processes + [process]
      ensures MakersFirst(world, recorded, root) && Distinct(recorded)
      ensures forall p :: p in world.suspended ==> p in old(world).suspended || p in recorded
      ensures recorded == processes ==> !answer.Fine? && waiting == pending
      ensures recorded == [] && answer.Gone? ==> process !in world.live
      ensures NeverDenied(old(schedule)) ==> !answer.Denied? && NeverDenied(schedule)
      ensures !answer.Denied? && recorded != [] ==> Freezing(world, recorded, waiting, root) && Closed(world, recorded, waiting, {})
    {
      recorded, waiting := processes, pending;
      ghost var found;
      ghost var before := world;
      answer, found := Suspend(process);
      FreezingEvolves(before, found, processes, pending + [process], {}, root);
      if !answer.Fine? {
        if answer.Gone? && processes != [] {
          PassedBy(world, processes, pending, process, root);
        }
        return;
      }
      OneMoreRecorded(found, processes, pending, process, root);
      recorded := processes + [process];
      before := world;
      var children;
      answer, children := Children(process);
      FreezingEvolves(before, world, recorded, pending, {process}, root);
      if answer.Gone? {
        NoChildrenLeft(world, recorded, pending, process);
      }
      if answer.Fine? {
        ChildrenFound(world, recorded, pending, children, process, root);
        waiting := pending + children;
      }
    }

    /** `freeze_process_tree`: when it succeeds, every living process whose parents lead to the root is suspended and
        recorded, whatever forked or exited on the way; when it fails, it tries to resume every process it suspended. */
    method FreezeProcessTree(root: Proc) returns (result: Result<seq<Proc>, Failure>, ghost recorded: seq<Proc>)
      requires Valid() && root < world.next
      modifies this
      ensures Valid() && Distinct(recorded) && MakersFirst(world, recorded, root)
      ensures forall p :: p in world.suspended ==> p in old(world).suspended || p in recorded
      ensures result.Ok? ==>
                && result.value == recorded && recorded != [] && attempts == old(attempts)
                && (forall p :: InTree(world, p, root) ==> p in world.suspended && p in recorded)
      ensures NeverDenied(old(schedule)) ==> result != Err(CouldNotFreeze)
      ensures result == Err(Disappeared) ==> root !in world.live && recorded == [] && attempts == old(attempts)
      ensures result == Err(CouldNotFreeze) ==> Resumed(old(attempts), attempts, recorded, world)
    {
      var processes: seq<Proc> := [];
      var pending := [root];
      while pending != []
        invariant Freezing(world, processes, pending, root) && Closed(world, processes, pending, {})
        invariant forall p :: p in world.suspended ==> p in old(world).suspended || p in processes
        invariant attempts == old(attempts)
        invariant NeverDenied(old(schedule)) ==> NeverDenied(schedule)
        decreases Bound() - |processes|, |pending|
      {
        ghost var before := pending;
        var process := pending[|pending| - 1];
        pending := pending[..|pending| - 1];
        assert before == pending + [process];
        RecordedFit(world, processes, before, root);
        if process in processes {
          PassedBy(world, processes, pending, process, root);
          continue;
        }
        var answer;
        answer, processes, pending := Visit(process, processes, pending, root);
        if answer.Gone? && processes == [] {
          return Err(Disappeared), [];
        }
        if answer.Denied? {
          ResumeProcesses(processes);
          return Err(CouldNotFreeze), processes;
        }
      }
      forall p | InTree(world, p, root) ensures p in processes {
        ClosedIsWhole(world, processes, root, p);
      }
      result, recorded := Ok(processes), processes;
    }
  }

  /** One resume attempt was made for each process, and whoever is still suspended refused. */
  ghost predicate Resumed(before: seq<(Proc, Answer)>, after: seq<(Proc, Answer)>, processes: seq<Proc>, w: World) {
    && |after| == |before| + |processes| && before <= after
    && forall k {:trigger processes[k]} :: 0 <= k < |processes| ==>
         after[|before| + k].0 == processes[k] && (processes[k] in w.suspended ==> (processes[k], Denied) in after)
  }
}
