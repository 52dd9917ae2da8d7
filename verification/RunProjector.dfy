/** The projector as objects: steps are never changed, only replaced, and the tool map holds the very objects in the list. */
module RunProjector {
  import opened Outcomes
  import opened RunSteps

  class RunStep {
    const data: StepData

    constructor (data: StepData)
      ensures this.data == data
    {
      this.data := data;
    }
  }

  predicate Distinct(steps: seq<RunStep>) {
    forall i, j :: 0 <= i < j < |steps| ==> steps[i] != steps[j]
  }

  /** The objects of a list, value by value. */
  predicate TellsSteps(steps: seq<RunStep>, data: seq<StepData>) {
    |steps| == |data| && forall i {:trigger steps[i]} {:trigger data[i]} :: 0 <= i < |data| ==> steps[i].data == data[i]
  }

  /** Every tool entry is a tool step, and is the very object at the position the view gives for it. */
  predicate TellsTools(steps: seq<RunStep>, tools: map<string, RunStep>, positions: map<string, nat>) {
    && tools.Keys == positions.Keys
    && forall id {:trigger tools[id]} {:trigger positions[id]} :: id in tools ==>
         positions[id] < |steps| && steps[positions[id]] == tools[id] && tools[id].data.kind == Tool
  }

  class RunProjector {
    var steps: seq<RunStep>
    var tools: map<string, RunStep>
    /** The fold over values that the objects stand for. */
    ghost var view: View

    /** All step objects differ, so the position of a tool entry is the only one. */
    ghost predicate Valid()
      reads this
    {
      Distinct(steps) && TellsSteps(steps, view.steps) && TellsTools(steps, tools, view.tools)
    }

    constructor ()
      ensures Valid() && view == EMPTY_VIEW
    {
      steps, tools, view := [], map[], EMPTY_VIEW;
    }

    /** Build a validated step and append it; nothing happens when it is refused. */
    method Append(data: StepData) returns (added: bool)
      requires Valid()
      modifies `steps, `view
      ensures Valid() && added == Made(data).Some?
      ensures if added then Some(view) == Appended(old(view), data) && |steps| == |old(steps)| + 1
              else steps == old(steps) && view == old(view)
    {
      var made := Made(data);
      if made.None? {
        return false;
      }
      var step := new RunStep(made.value);
      steps := steps + [step];
      view := view.(steps := view.steps + [made.value]);
      added := true;
    }

    /** The second half of `replace_step`: every id that names the old object names the new one. */
    method RenameTools(was: RunStep, now: RunStep)
      modifies `tools
      ensures tools.Keys == old(tools).Keys
      ensures forall id {:trigger tools[id]} :: id in tools ==> tools[id] == if old(tools)[id] == was then now else old(tools)[id]
    {
      ghost var before := tools;
      var left := tools.Keys;
      while left != {}
        invariant left <= tools.Keys == before.Keys
        invariant forall id {:trigger tools[id]} :: id in tools ==>
                    tools[id] == if id !in left && before[id] == was then now else before[id]
        decreases |left|
      {
        var id :| id in left;
        left := left - {id};
        if tools[id] == was {
          tools := tools[id := now];
        }
      }
    }

    /** `replace_step`: by identity, in the list once and in the map wherever the step is named. */
    method ReplaceStep(was: RunStep, now: RunStep, ghost index: nat)
      requires Valid() && index < |steps| && steps[index] == was && now !in steps
      requires was.data.kind == Tool ==> now.data.kind == Tool
      modifies this
      ensures Valid()
      ensures steps == old(steps)[index := now] && view == Replaced(old(view), index, now.data)
    {
      var at := 0;
      while steps[at] != was
        invariant 0 <= at <= index
        decreases index - at
      {
        at := at + 1;
      }
      steps := steps[at := now];
      RenameTools(was, now);
      view := Replaced(view, index, now.data);
    }

    method AddText(e: LogEvent, h: HarnessEvent) returns (added: bool)
      requires Valid()
      modifies this
      ensures Valid() && added == RunSteps.AddText(old(view), e, h).Some?
      ensures view == if added then RunSteps.AddText(old(view), e, h).value else old(view)
    {
      if steps != [] && steps[|steps| - 1].data.kind == Assistant && steps[|steps| - 1].data.actor == h.actorLabel {
        var previous := steps[|steps| - 1].data;
        var longer := previous.(body := Some(JoinText(previous.body, h.message)));
        var step := new RunStep(longer);
        steps := steps[|steps| - 1 := step];
        view := view.(steps := view.steps[|steps| - 1 := longer]);
        return true;
      }
      added := Append(TextStep(e, h));
    }

    method AddTool(e: LogEvent, h: HarnessEvent) returns (added: bool)
      requires Valid()
      modifies this
      ensures Valid() && added == RunSteps.AddTool(old(view), e, h).Some?
      ensures view == if added then RunSteps.AddTool(old(view), e, h).value else old(view)
      ensures added ==> |steps| == |old(steps)| + 1
    {
      added := Append(ToolStep(e, h));
      if added && h.toolId.Some? {
        MadeKeeps(ToolStep(e, h));
        tools := tools[h.toolId.value := steps[|steps| - 1]];
        view := view.(tools := view.tools[h.toolId.value := |steps| - 1]);
      }
    }

    /** The step a result is for: that of its tool, or a new one. */
    method ToolStepFor(e: LogEvent, h: HarnessEvent) returns (step: Option<RunStep>, ghost index: nat)
      requires Valid()
      modifies this
      ensures Valid()
      ensures step.None? ==> view == old(view) && !Matches(old(view), h) && RunSteps.AddTool(old(view), e, h).None?
      ensures step.Some? ==> index < |steps| && steps[index] == step.value
      ensures step.Some? && Matches(old(view), h) ==> view == old(view) && index == view.tools[h.toolId.value]
      ensures step.Some? && !Matches(old(view), h) ==> Some(view) == RunSteps.AddTool(old(view), e, h) && index == |view.steps| - 1
    {
      if h.toolId.Some? && h.toolId.value in tools {
        return Some(tools[h.toolId.value]), view.tools[h.toolId.value];
      }
      var added := AddTool(e, h);
      if !added {
        return None, 0;
      }
      step, index := Some(steps[|steps| - 1]), |steps| - 1;
    }

    method AddToolResult(e: LogEvent, h: HarnessEvent) returns (added: bool)
      requires Valid()
      modifies this
      ensures Valid() && added == RunSteps.AddToolResult(old(view), e, h).Some?
      ensures view == if added then RunSteps.AddToolResult(old(view), e, h).value else old(view)
    {
      var step;
      ghost var index;
      step, index := ToolStepFor(e, h);
      if step.None? {
        return false;
      }
      var now := new RunStep(WithResult(step.value.data, e, h));
      ReplaceStep(step.value, now, index);
      added := true;
    }

    method Add(e: LogEvent) returns (added: bool)
      requires Valid()
      modifies this
      ensures Valid() && added == Added(old(view), e).Some?
      ensures view == if added then Added(old(view), e).value else old(view)
    {
      if e.harness.None? {
        added := Append(RunEventStep(e));
        return;
      }
      var h := e.harness.value;
      match h.kind
      case TextKind => added := AddText(e, h);
      case ToolUse => added := AddTool(e, h);
      case ToolResult => added := AddToolResult(e, h);
      case ToolSummary => added := AddToolResult(e, h);
      case _ =>
        added := true;
        if OtherStep(e, h).Some? {
          added := Append(OtherStep(e, h).value);
        }
    }
  }

  /** `project_run_steps`: the objects tell the fold of the events, and it fails where the fold does. */
  method ProjectRunSteps(events: seq<LogEvent>) returns (steps: Option<seq<RunStep>>)
    ensures steps.Some? <==> Projected(events).Some?
    ensures steps.Some? ==> Distinct(steps.value) && TellsSteps(steps.value, Projected(events).value.steps)
  {
    var projector := new RunProjector();
    for i := 0 to |events|
      invariant projector.Valid() && fresh(projector)
      invariant Projected(events[..i]) == Some(projector.view)
    {
      assert events[..i + 1][..i] == events[..i];
      var added := projector.Add(events[i]);
      if !added {
        FailureStays(Added, EMPTY_VIEW, events, i + 1);
        return None;
      }
    }
    assert events[..|events|] == events;
    steps := Some(projector.steps);
  }

  lemma {:induction false} FailureStays<S, E>(add: (S, E) -> Option<S>, start: S, events: seq<E>, n: nat)
    requires n <= |events| && Folded(add, start, events[..n]).None?
    ensures Folded(add, start, events).None?
    decreases |events| - n
  {
    if n < |events| {
      assert events[..n + 1][..n] == events[..n];
      FailureStays(add, start, events, n + 1);
    } else {
      assert events[..n] == events;
    }
  }
}
