/** A run's log projected into transcript steps, as a fold over values; the tool map holds positions. */
module RunSteps {
  import opened Outcomes
  import opened Text

  // ---- Events -------------------------------------------------------------------------------------

  /** A tool result: a string, or another JSON value as `str` renders it. */
  datatype JsonValue = JsonString(text: string) | JsonOther(text: string)

  datatype HarnessEventKind =
    | TextKind | ToolUse | ToolResult | ToolSummary | AgentSpawned | AgentWaitStarted | AgentCompleted
    | ErrorKind | Warning | DoneKind | ProviderSession | ContextUsage | OtherKind

  datatype ToolDisplay = ToolDisplay(kind: Option<string>, title: Option<string>, path: Option<string>, command: Option<string>,
                                     status: Option<string>, exitCode: Option<int>, durationMs: Option<nat>,
                                     summary: Option<string>, providerThreadId: Option<string>)

  datatype HarnessFailure = HarnessFailure(message: string, fix: Option<string>)

  datatype AgentTrace = AgentTrace(prompt: Option<string>, result: Option<string>)

  datatype HarnessEvent = HarnessEvent(
    kind: HarnessEventKind,
    message: string,
    status: Option<string>,
    actorLabel: Option<string>,
    toolId: Option<string>,
    toolName: Option<string>,
    toolInput: Option<string>,
    display: Option<ToolDisplay>,
    toolResult: Option<JsonValue>,
    toolIsError: bool,
    providerSessionId: Option<string>,
    failure: Option<HarnessFailure>,
    trace: Option<AgentTrace>)

  datatype LogEvent = LogEvent(sequence: nat, timestamp: int, isError: bool, message: string, harness: Option<HarnessEvent>)

  predicate TrimmedIfAny(s: Option<string>) {
    s.Some? ==> Trimmed(s.value)
  }

  predicate ValidDisplay(d: ToolDisplay) {
    TrimmedIfAny(d.kind) && TrimmedIfAny(d.title) && TrimmedIfAny(d.path) && TrimmedIfAny(d.command) && TrimmedIfAny(d.status)
    && TrimmedIfAny(d.summary) && TrimmedIfAny(d.providerThreadId)
  }

  predicate ValidHarnessEvent(h: HarnessEvent) {
    && Trimmed(h.message) && TrimmedIfAny(h.status) && TrimmedIfAny(h.actorLabel) && TrimmedIfAny(h.toolId) && TrimmedIfAny(h.toolName)
    && TrimmedIfAny(h.toolInput) && TrimmedIfAny(h.providerSessionId)
    && (h.display.Some? ==> ValidDisplay(h.display.value))
    && (h.toolResult.Some? && h.toolResult.value.JsonOther? ==> Trimmed(h.toolResult.value.text))
    && (h.failure.Some? ==> Trimmed(h.failure.value.message) && TrimmedIfAny(h.failure.value.fix))
    && (h.trace.Some? ==> TrimmedIfAny(h.trace.value.prompt) && TrimmedIfAny(h.trace.value.result))
  }

  predicate ValidEvent(e: LogEvent) {
    Trimmed(e.message) && (e.harness.Some? ==> ValidHarnessEvent(e.harness.value))
  }

  // ---- Steps --------------------------------------------------------------------------------------

  datatype StepKind = Assistant | Tool | Status | Error | Agent

  datatype StepData = StepData(
    sequence: nat,
    timestamp: int,
    kind: StepKind,
    title: string,
    body: Option<string>,
    detail: Option<string>,
    actor: Option<string>,
    tool: Option<string>,
    target: Option<string>,
    status: Option<string>,
    input: Option<string>,
    output: Option<JsonValue>,
    error: bool)

  function StripIfAny(s: Option<string>): Option<string> {
    if s.Some? then Some(Strip(s.value)) else None
  }

  predicate BlankIfAny(s: Option<string>) {
    s.Some? && Blank(s.value)
  }

  /** Building a step validates it: its texts are stripped, and a blank one is refused. Copying one does not. */
  function Made(d: StepData): Option<StepData> {
    if Blank(d.title) || BlankIfAny(d.body) || BlankIfAny(d.detail) || BlankIfAny(d.actor) || BlankIfAny(d.tool)
       || BlankIfAny(d.target) || BlankIfAny(d.status) || BlankIfAny(d.input) then None
    else Some(d.(title := Strip(d.title), body := StripIfAny(d.body), detail := StripIfAny(d.detail), actor := StripIfAny(d.actor),
                 tool := StripIfAny(d.tool), target := StripIfAny(d.target), status := StripIfAny(d.status),
                 input := StripIfAny(d.input)))
  }

  function Or(a: Option<string>, b: Option<string>): Option<string> {
    if a.Some? then a else b
  }

  function TextOrNone(s: Option<string>): Option<string> {
    if s.None? || Strip(s.value) == "" then None else Some(Strip(s.value))
  }

  /** One piece of assistant text after another, never running two lines into one. */
  function JoinText(first: Option<string>, second: string): string {
    if first.None? then second
    else if (first.value != "" && first.value[|first.value| - 1] == '\n') || (second != "" && second[0] == '\n')
    then first.value + second
    else first.value + "\n" + second
  }

  function Upper(c: char): char {
    if 'a' <= c <= 'z' then c - 'a' + 'A' else c
  }

  function Lower(c: char): char {
    if 'A' <= c <= 'Z' then c - 'A' + 'a' else c
  }

  predicate Letter(c: char) {
    'a' <= c <= 'z' || 'A' <= c <= 'Z'
  }

  /** Underscores and dashes become spaces, words are capitalised (ASCII letters only). */
  function StatusTitle(message: string): string {
    seq(|message|, i requires 0 <= i < |message| =>
      if message[i] == '_' || message[i] == '-' then ' '
      else if i > 0 && Letter(message[i - 1]) then Lower(message[i]) else Upper(message[i]))
  }

  function NatText(n: nat): string {
    (if n >= 10 then NatText(n / 10) else "") + [DIGITS[n % 10]]
  }

  function IntText(n: int): string {
    if n < 0 then "-" + NatText(-n) else NatText(n)
  }

  function JoinDots(parts: seq<string>): string {
    if |parts| == 0 then "" else if |parts| == 1 then parts[0] else parts[0] + " \U{b7} " + JoinDots(parts[1..])
  }

  function Part(s: Option<string>): seq<string> {
    if s.Some? && s.value != "" then [s.value] else []
  }

  function ToolDetail(h: HarnessEvent): Option<string> {
    if h.display.None? then None
    else
      var d := h.display.value;
      TextOrNone(Some(JoinDots(Part(d.path) + Part(d.command)
                               + (if d.exitCode.Some? then ["exit " + IntText(d.exitCode.value)] else [])
                               + (if d.durationMs.Some? then [NatText(d.durationMs.value) + "ms"] else []))))
  }

  function ToolTitle(h: HarnessEvent): string {
    var title := if h.display.Some? then TextOrNone(h.display.value.title) else None;
    var name := Or(title, TextOrNone(h.toolName));
    if name.Some? then name.value else "Tool"
  }

  function ToolKindText(h: HarnessEvent): Option<string> {
    if h.display.Some? && h.display.value.kind.Some? then h.display.value.kind else TextOrNone(h.toolName)
  }

  function ToolTarget(h: HarnessEvent): Option<string> {
    if h.display.None? then None
    else TextOrNone(Or(h.display.value.path, Or(h.display.value.command, h.display.value.providerThreadId)))
  }

  function ToolStatus(h: HarnessEvent): Option<string> {
    if h.display.Some? && h.display.value.status.Some? then h.display.value.status
    else if h.toolIsError then Some("failed")
    else if h.kind.ToolResult? || h.kind.ToolSummary? then Some("completed")
    else None
  }

  function ValuePreview(value: JsonValue): string {
    var text := Strip(value.text);
    if |text| <= 280 then text else text[..277] + "..."
  }

  function DisplaySummary(h: HarnessEvent): Option<string> {
    if h.display.Some? then TextOrNone(h.display.value.summary) else None
  }

  function ToolSummaryText(h: HarnessEvent): Option<string> {
    if DisplaySummary(h).Some? then DisplaySummary(h)
    else if h.kind.ToolUse? || h.toolResult.None? then TextOrNone(Some(h.message))
    else Some(ValuePreview(h.toolResult.value))
  }

  // ---- The fold -----------------------------------------------------------------------------------

  datatype View = View(steps: seq<StepData>, tools: map<string, nat>)

  const EMPTY_VIEW := View([], map[])

  function Plain(e: LogEvent, kind: StepKind, title: string, body: Option<string>): StepData {
    StepData(e.sequence, e.timestamp, kind, title, body, None, None, None, None, None, None, None, false)
  }

  function Appended(v: View, d: StepData): Option<View> {
    var step := Made(d);
    if step.Some? then Some(v.(steps := v.steps + [step.value])) else None
  }

  function RunEventStep(e: LogEvent): StepData {
    if e.isError then Plain(e, Error, "Error", Some(e.message)).(error := true)
    else Plain(e, Status, StatusTitle(e.message), Some(e.message))
  }

  /** Whether assistant text goes on in the last step. */
  predicate Continues(v: View, h: HarnessEvent) {
    v.steps != [] && v.steps[|v.steps| - 1].kind == Assistant && v.steps[|v.steps| - 1].actor == h.actorLabel
  }

  function TextStep(e: LogEvent, h: HarnessEvent): StepData {
    Plain(e, Assistant, if h.actorLabel.Some? then h.actorLabel.value else "Assistant", Some(h.message)).(actor := h.actorLabel)
  }

  function AddText(v: View, e: LogEvent, h: HarnessEvent): Option<View> {
    if Continues(v, h) then
      var last := v.steps[|v.steps| - 1];
      Some(v.(steps := v.steps[|v.steps| - 1 := last.(body := Some(JoinText(last.body, h.message)))]))
    else Appended(v, TextStep(e, h))
  }

  function ToolStep(e: LogEvent, h: HarnessEvent): StepData {
    Plain(e, Tool, ToolTitle(h), ToolSummaryText(h)).(
      detail := ToolDetail(h), tool := ToolKindText(h), target := ToolTarget(h), status := Or(ToolStatus(h), Some("started")),
      input := h.toolInput, error := h.toolIsError)
  }

  function AddTool(v: View, e: LogEvent, h: HarnessEvent): Option<View> {
    var added := Appended(v, ToolStep(e, h));
    if added.Some? && h.toolId.Some? then Some(added.value.(tools := v.tools[h.toolId.value := |v.steps|])) else added
  }

  /** The step a result leaves: copied, not rebuilt, so nothing is validated again. */
  function WithResult(step: StepData, e: LogEvent, h: HarnessEvent): StepData {
    step.(sequence := e.sequence, timestamp := e.timestamp, status := Or(ToolStatus(h), Or(step.status, Some("completed"))),
          output := h.toolResult, error := h.toolIsError,
          body := Or(ToolSummaryText(h), step.body), detail := Or(ToolDetail(h), step.detail))
  }

  predicate Matches(v: View, h: HarnessEvent) {
    h.toolId.Some? && h.toolId.value in v.tools && v.tools[h.toolId.value] < |v.steps|
  }

  function Replaced(v: View, index: nat, step: StepData): View
    requires index < |v.steps|
  {
    v.(steps := v.steps[index := step])
  }

  function AddToolResult(v: View, e: LogEvent, h: HarnessEvent): Option<View> {
    if Matches(v, h) then
      var index := v.tools[h.toolId.value];
      Some(Replaced(v, index, WithResult(v.steps[index], e, h)))
    else WithResultOnLast(AddTool(v, e, h), e, h)
  }

  function WithResultOnLast(added: Option<View>, e: LogEvent, h: HarnessEvent): Option<View> {
    if added.None? || |added.value.steps| == 0 then None
    else
      var last := |added.value.steps| - 1;
      Some(Replaced(added.value, last, WithResult(added.value.steps[last], e, h)))
  }

  function AgentTitle(kind: HarnessEventKind): string {
    if kind.AgentSpawned? then "Agent started" else if kind.AgentWaitStarted? then "Waiting for agent" else "Agent finished"
  }

  function AgentStatus(kind: HarnessEventKind): string {
    if kind.AgentCompleted? then "completed" else if kind.AgentWaitStarted? then "waiting" else "started"
  }

  function AgentStep(e: LogEvent, h: HarnessEvent): StepData {
    Plain(e, Agent, AgentTitle(h.kind), if h.trace.Some? then h.trace.value.result else Some(h.message)).(
      detail := if h.trace.Some? then h.trace.value.prompt else None, status := Some(AgentStatus(h.kind)))
  }

  function ErrorStep(e: LogEvent, h: HarnessEvent): StepData {
    Plain(e, Error, "Error", Some(if h.failure.Some? then h.failure.value.message else h.message)).(
      detail := if h.failure.Some? then h.failure.value.fix else None, status := h.status, error := true)
  }

  /** The step that a harness event other than text and tools appends, if any. */
  function OtherStep(e: LogEvent, h: HarnessEvent): Option<StepData> {
    match h.kind
    case AgentSpawned | AgentWaitStarted | AgentCompleted => Some(AgentStep(e, h))
    case ErrorKind => Some(ErrorStep(e, h))
    case Warning => Some(Plain(e, Status, "Warning", Some(h.message)))
    case DoneKind =>
      if h.failure.Some? then Some(ErrorStep(e, h)) else if h.message != "" then Some(Plain(e, Status, "Done", Some(h.message))) else None
    case ProviderSession =>
      if h.providerSessionId.Some? && h.providerSessionId.value != "" then Some(Plain(e, Status, "Session", h.providerSessionId)) else None
    case _ => None
  }

  function AddHarnessEvent(v: View, e: LogEvent, h: HarnessEvent): Option<View> {
    match h.kind
    case TextKind => AddText(v, e, h)
    case ToolUse => AddTool(v, e, h)
    case ToolResult => AddToolResult(v, e, h)
    case ToolSummary => AddToolResult(v, e, h)
    case _ => if OtherStep(e, h).Some? then Appended(v, OtherStep(e, h).value) else Some(v)
  }

  /** `None` where building a step is refused and the projection ends with that error. */
  function Added(v: View, e: LogEvent): Option<View> {
    if e.harness.None? then Appended(v, RunEventStep(e)) else AddHarnessEvent(v, e, e.harness.value)
  }

  /** A fold that ends with the first event it cannot take. */
  function Folded<S, E>(add: (S, E) -> Option<S>, start: S, events: seq<E>): Option<S> {
    if events == [] then Some(start)
    else
      var before := Folded(add, start, events[..|events| - 1]);
      if before.None? then None else add(before.value, events[|events| - 1])
  }

  function Projected(events: seq<LogEvent>): Option<View> {
    Folded(Added, EMPTY_VIEW, events)
  }

  // ---- What the steps keep ------------------------------------------------------------------------

  predicate ToolsOk(v: View) {
    forall id {:trigger v.tools[id]} :: id in v.tools ==> v.tools[id] < |v.steps| && v.steps[v.tools[id]].kind == Tool
  }

  predicate NoSplitText(steps: seq<StepData>) {
    forall i {:trigger steps[i]} :: 0 < i < |steps| && steps[i - 1].kind == Assistant && steps[i].kind == Assistant ==> steps[i - 1].actor != steps[i].actor
  }

  predicate ViewOk(v: View) {
    ToolsOk(v) && NoSplitText(v.steps)
  }

  lemma MadeKeeps(d: StepData)
    ensures Made(d).Some? ==> Made(d).value.kind == d.kind && (TrimmedIfAny(d.actor) ==> Made(d).value.actor == d.actor)
  {
    if d.actor.Some? && Trimmed(d.actor.value) {
      StripKeeps(d.actor.value);
    }
  }

  lemma AppendKeepsView(v: View, d: StepData)
    requires ViewOk(v) && Appended(v, d).Some?
    requires d.kind != Assistant
             || (TrimmedIfAny(d.actor) && (v.steps == [] || v.steps[|v.steps| - 1].kind != Assistant || v.steps[|v.steps| - 1].actor != d.actor))
    ensures ViewOk(Appended(v, d).value)
  {
    MadeKeeps(d);
  }

  lemma TextKeepsView(v: View, e: LogEvent, h: HarnessEvent)
    requires ViewOk(v) && TrimmedIfAny(h.actorLabel) && AddText(v, e, h).Some?
    ensures ViewOk(AddText(v, e, h).value)
  {
    if !Continues(v, h) {
      AppendKeepsView(v, TextStep(e, h));
    }
  }

  lemma ToolKeepsView(v: View, e: LogEvent, h: HarnessEvent)
    requires ViewOk(v) && AddTool(v, e, h).Some?
    ensures var after := AddTool(v, e, h).value;
            ViewOk(after) && |after.steps| == |v.steps| + 1 && after.steps[|v.steps|].kind == Tool
  {
    AppendKeepsView(v, ToolStep(e, h));
    MadeKeeps(ToolStep(e, h));
  }

  lemma ReplaceKeepsView(v: View, index: nat, e: LogEvent, h: HarnessEvent)
    requires ViewOk(v) && index < |v.steps| && v.steps[index].kind == Tool
    ensures ViewOk(Replaced(v, index, WithResult(v.steps[index], e, h)))
  {
  }

  lemma ToolResultKeepsView(v: View, e: LogEvent, h: HarnessEvent)
    requires ViewOk(v) && AddToolResult(v, e, h).Some?
    ensures ViewOk(AddToolResult(v, e, h).value)
  {
    if Matches(v, h) {
      ReplaceKeepsView(v, v.tools[h.toolId.value], e, h);
    } else {
      ToolKeepsView(v, e, h);
      ReplaceKeepsView(AddTool(v, e, h).value, |v.steps|, e, h);
    }
  }

  lemma OtherIsNotAssistant(e: LogEvent, h: HarnessEvent)
    ensures OtherStep(e, h).Some? ==> OtherStep(e, h).value.kind != Assistant
  {
  }

  lemma OtherKeepsView(v: View, e: LogEvent, h: HarnessEvent)
    requires ViewOk(v) && OtherStep(e, h).Some? && Appended(v, OtherStep(e, h).value).Some?
    ensures ViewOk(Appended(v, OtherStep(e, h).value).value)
  {
    OtherIsNotAssistant(e, h);
    AppendKeepsView(v, OtherStep(e, h).value);
  }

  lemma AddKeepsView(v: View, e: LogEvent)
    requires ViewOk(v) && ValidEvent(e) && Added(v, e).Some?
    ensures ViewOk(Added(v, e).value)
  {
    if e.harness.None? {
      AppendKeepsView(v, RunEventStep(e));
    } else {
      var h := e.harness.value;
      match h.kind
      case TextKind => TextKeepsView(v, e, h);
      case ToolUse => ToolKeepsView(v, e, h);
      case ToolResult | ToolSummary => ToolResultKeepsView(v, e, h);
      case _ =>
        if OtherStep(e, h).Some? {
          OtherKeepsView(v, e, h);
        }
    }
  }

  predicate ValidEvents(events: seq<LogEvent>) {
    forall i :: 0 <= i < |events| ==> ValidEvent(events[i])
  }

  /** After any log, every known tool id stands for a tool step, and adjacent assistant steps have different actors. */
  lemma {:induction false} ProjectionIsSound(events: seq<LogEvent>)
    requires ValidEvents(events) && Projected(events).Some?
    ensures ViewOk(Projected(events).value)
  {
    if events != [] {
      ProjectionIsSound(events[..|events| - 1]);
      AddKeepsView(Projected(events[..|events| - 1]).value, events[|events| - 1]);
    }
  }

  /** A result for a known tool id changes that one step, and of it neither what the tool is nor what it was given. */
  lemma MatchedResultChangesOneStep(v: View, e: LogEvent, h: HarnessEvent)
    requires Matches(v, h) && (h.kind.ToolResult? || h.kind.ToolSummary?)
    ensures var index := v.tools[h.toolId.value];
            && AddToolResult(v, e, h).Some?
            && var after := AddToolResult(v, e, h).value;
               && after.tools == v.tools && |after.steps| == |v.steps|
               && (forall i :: 0 <= i < |v.steps| && i != index ==> after.steps[i] == v.steps[i])
               && (var was, now := v.steps[index], after.steps[index];
                   && now.sequence == e.sequence && now.output == h.toolResult && now.status.Some?
                   && (!h.toolIsError && (h.display.Some? ==> h.display.value.status.None?) ==> now.status == Some("completed"))
                   && was == now.(sequence := was.sequence, timestamp := was.timestamp, status := was.status, body := was.body,
                                    detail := was.detail, output := was.output, error := was.error))
  {
  }

  // ---- Assistant text -----------------------------------------------------------------------------

  datatype Piece = Piece(actor: Option<string>, message: string)

  /** The text events of a log, in order. */
  function Texts(events: seq<LogEvent>): seq<Piece> {
    if events == [] then []
    else
      var last := events[|events| - 1];
      Texts(events[..|events| - 1])
      + if last.harness.Some? && last.harness.value.kind.TextKind?
        then [Piece(last.harness.value.actorLabel, last.harness.value.message)] else []
  }

  function Assistants(steps: seq<StepData>): seq<StepData> {
    if steps == [] then []
    else Assistants(steps[..|steps| - 1]) + if steps[|steps| - 1].kind == Assistant then [steps[|steps| - 1]] else []
  }

  function Flat(blocks: seq<seq<Piece>>): seq<Piece> {
    if blocks == [] then [] else Flat(blocks[..|blocks| - 1]) + blocks[|blocks| - 1]
  }

  /** The text of a block: its messages joined. */
  function BlockText(block: seq<Piece>): Option<string> {
    if block == [] then None else Some(JoinText(BlockText(block[..|block| - 1]), block[|block| - 1].message))
  }

  /** One assistant step is the joined text of one block, all of it by the step's actor. */
  predicate Tells(step: StepData, block: seq<Piece>) {
    block != [] && step.body == BlockText(block) && forall i :: 0 <= i < |block| ==> block[i].actor == step.actor
  }

  predicate TellsAll(assistants: seq<StepData>, blocks: seq<seq<Piece>>) {
    |assistants| == |blocks| && forall k {:trigger blocks[k]} :: 0 <= k < |blocks| ==> Tells(assistants[k], blocks[k])
  }

  /** A text event goes on in the last block when the last step goes on. */
  function NextBlocks(v: View, h: HarnessEvent, blocks: seq<seq<Piece>>): seq<seq<Piece>> {
    var piece := Piece(h.actorLabel, h.message);
    if Continues(v, h) && blocks != [] then blocks[|blocks| - 1 := blocks[|blocks| - 1] + [piece]] else blocks + [[piece]]
  }

  /** The blocks a log's text falls into. */
  function Blocks(events: seq<LogEvent>): seq<seq<Piece>> {
    if events == [] then []
    else
      var before, last := events[..|events| - 1], events[|events| - 1];
      var blocks := Blocks(before);
      if Projected(before).None? || last.harness.None? || !last.harness.value.kind.TextKind? then blocks
      else NextBlocks(Projected(before).value, last.harness.value, blocks)
  }

  lemma {:induction false} SameAssistants(steps: seq<StepData>, index: nat, step: StepData)
    requires index < |steps| && steps[index].kind != Assistant && step.kind != Assistant
    ensures Assistants(steps[index := step]) == Assistants(steps)
  {
    var after := steps[index := step];
    if index < |steps| - 1 {
      assert after[..|steps| - 1] == steps[..|steps| - 1][index := step];
      SameAssistants(steps[..|steps| - 1], index, step);
    } else {
      assert after[..|steps| - 1] == steps[..|steps| - 1];
    }
  }

  lemma {:induction false} AssistantsAppend(steps: seq<StepData>, step: StepData)
    ensures Assistants(steps + [step]) == Assistants(steps) + if step.kind == Assistant then [step] else []
  {
    assert (steps + [step])[..|steps|] == steps;
  }

  /** No event but text changes the assistant steps. */
  lemma OthersKeepAssistants(v: View, e: LogEvent)
    requires ViewOk(v) && Added(v, e).Some? && !(e.harness.Some? && e.harness.value.kind.TextKind?)
    ensures Assistants(Added(v, e).value.steps) == Assistants(v.steps)
  {
    var after := Added(v, e).value;
    if e.harness.None? {
      AppendKeepsAssistants(v, RunEventStep(e));
    } else {
      var h := e.harness.value;
      if h.kind.ToolUse? {
        ToolKeepsAssistants(v, e, h);
      } else if h.kind.ToolResult? || h.kind.ToolSummary? {
        if Matches(v, h) {
          var index := v.tools[h.toolId.value];
          SameAssistants(v.steps, index, WithResult(v.steps[index], e, h));
        } else {
          ToolKeepsView(v, e, h);
          ToolKeepsAssistants(v, e, h);
          var added := AddTool(v, e, h).value;
          SameAssistants(added.steps, |v.steps|, WithResult(added.steps[|v.steps|], e, h));
        }
      } else if OtherStep(e, h).Some? {
        OtherIsNotAssistant(e, h);
        AppendKeepsAssistants(v, OtherStep(e, h).value);
      }
    }
  }

  lemma AppendKeepsAssistants(v: View, d: StepData)
    requires d.kind != Assistant && Appended(v, d).Some?
    ensures Assistants(Appended(v, d).value.steps) == Assistants(v.steps)
  {
    MadeKeeps(d);
    AssistantsAppend(v.steps, Made(d).value);
  }

  lemma ToolKeepsAssistants(v: View, e: LogEvent, h: HarnessEvent)
    requires AddTool(v, e, h).Some?
    ensures Assistants(AddTool(v, e, h).value.steps) == Assistants(v.steps)
  {
    AppendKeepsAssistants(v, ToolStep(e, h));
  }

  lemma GoesOn(v: View, e: LogEvent, h: HarnessEvent, blocks: seq<seq<Piece>>)
    requires Continues(v, h) && TellsAll(Assistants(v.steps), blocks)
    ensures blocks != []
    ensures TellsAll(Assistants(AddText(v, e, h).value.steps), blocks[|blocks| - 1 := blocks[|blocks| - 1] + [Piece(h.actorLabel, h.message)]])
  {
    var init, last := v.steps[..|v.steps| - 1], v.steps[|v.steps| - 1];
    var longer := last.(body := Some(JoinText(last.body, h.message)));
    assert v.steps == init + [last] && v.steps[|v.steps| - 1 := longer] == init + [longer];
    AssistantsAppend(init, last);
    AssistantsAppend(init, longer);
    var block := blocks[|blocks| - 1];
    assert Tells(last, block);
    assert (block + [Piece(h.actorLabel, h.message)])[..|block|] == block;
    assert Tells(longer, block + [Piece(h.actorLabel, h.message)]);
  }

  lemma StartsAnew(v: View, e: LogEvent, h: HarnessEvent, blocks: seq<seq<Piece>>)
    requires !Continues(v, h) && Trimmed(h.message) && TrimmedIfAny(h.actorLabel) && AddText(v, e, h).Some?
    requires TellsAll(Assistants(v.steps), blocks)
    ensures TellsAll(Assistants(AddText(v, e, h).value.steps), blocks + [[Piece(h.actorLabel, h.message)]])
  {
    var step := Made(TextStep(e, h)).value;
    MadeKeeps(TextStep(e, h));
    StripKeeps(h.message);
    AssistantsAppend(v.steps, step);
    var block := [Piece(h.actorLabel, h.message)];
    assert block[..0] == [];
    assert Tells(step, block);
  }

  lemma FlatGrows(blocks: seq<seq<Piece>>, piece: Piece)
    ensures Flat(blocks + [[piece]]) == Flat(blocks) + [piece]
    ensures blocks != [] ==> Flat(blocks[|blocks| - 1 := blocks[|blocks| - 1] + [piece]]) == Flat(blocks) + [piece]
  {
    assert (blocks + [[piece]])[..|blocks|] == blocks;
    if blocks != [] {
      assert blocks[|blocks| - 1 := blocks[|blocks| - 1] + [piece]][..|blocks| - 1] == blocks[..|blocks| - 1];
    }
  }

  lemma {:induction false} TextIsTold(v: View, e: LogEvent, h: HarnessEvent, blocks: seq<seq<Piece>>)
    requires Trimmed(h.message) && TrimmedIfAny(h.actorLabel) && AddText(v, e, h).Some? && TellsAll(Assistants(v.steps), blocks)
    ensures TellsAll(Assistants(AddText(v, e, h).value.steps), NextBlocks(v, h, blocks))
    ensures Flat(NextBlocks(v, h, blocks)) == Flat(blocks) + [Piece(h.actorLabel, h.message)]
  {
    FlatGrows(blocks, Piece(h.actorLabel, h.message));
    if Continues(v, h) {
      GoesOn(v, e, h, blocks);
    } else {
      StartsAnew(v, e, h, blocks);
    }
  }

  /** The bodies of the assistant steps, in order, are the joined texts of consecutive blocks that make up all text events. */
  lemma {:induction false} AssistantsTellAllText(events: seq<LogEvent>)
    requires ValidEvents(events) && Projected(events).Some?
    ensures Flat(Blocks(events)) == Texts(events)
    ensures TellsAll(Assistants(Projected(events).value.steps), Blocks(events))
  {
    if events != [] {
      var before, e := events[..|events| - 1], events[|events| - 1];
      AssistantsTellAllText(before);
      ProjectionIsSound(before);
      var v, blocks := Projected(before).value, Blocks(before);
      if e.harness.Some? && e.harness.value.kind.TextKind? {
        TextIsTold(v, e, e.harness.value, blocks);
      } else {
        OthersKeepAssistants(v, e);
      }
    }
  }

  /** Messages never begin or end with a line break, so joining them always puts exactly one between them. */
  lemma MessagesJoinByLine(first: string, second: string)
    requires Trimmed(first) && Trimmed(second)
    ensures JoinText(Some(first), second) == first + "\n" + second && Trimmed(first + "\n" + second)
  {
  }

  // ---- When the projection fails --------------------------------------------------------------------

  predicate OnlySeparators(message: string) {
    forall i :: 0 <= i < |message| ==> message[i] == '_' || message[i] == '-' || Space(message[i])
  }

  /** The events no step can be built for: a status whose words are all separators, and an unmatched tool result whose own
      text is blank and that brings no display summary. */
  predicate Refused(v: View, e: LogEvent) {
    if e.harness.None? then !e.isError && OnlySeparators(e.message)
    else
      var h := e.harness.value;
      && (h.kind.ToolResult? || h.kind.ToolSummary?) && !Matches(v, h)
      && DisplaySummary(h).None? && h.toolResult.Some? && Blank(h.toolResult.value.text)
  }

  lemma TitleIsBlank(message: string)
    ensures Blank(StatusTitle(message)) <==> OnlySeparators(message)
  {
    var title := StatusTitle(message);
    forall i | 0 <= i < |message| ensures Space(title[i]) <==> message[i] == '_' || message[i] == '-' || Space(message[i]) {
    }
  }

  lemma GivenIsNotBlank(s: Option<string>)
    requires TrimmedIfAny(s)
    ensures !BlankIfAny(s)
  {
    if s.Some? {
      TrimmedIsNotBlank(s.value);
    }
  }

  lemma TextOrNoneIsTrimmed(s: Option<string>)
    ensures TrimmedIfAny(TextOrNone(s)) && !BlankIfAny(TextOrNone(s))
  {
    if s.Some? {
      StripTrims(s.value);
    }
    GivenIsNotBlank(TextOrNone(s));
  }

  lemma PreviewIsBlank(value: JsonValue)
    ensures Blank(ValuePreview(value)) <==> Blank(value.text)
  {
    StripTrims(value.text);
    var text := Strip(value.text);
    if text != "" {
      TrimmedIsNotBlank(text);
      assert ValuePreview(value)[0] == text[0];
    }
  }

  lemma ToolTitleIsGiven(h: HarnessEvent)
    ensures !Blank(ToolTitle(h))
  {
    if h.display.Some? {
      TextOrNoneIsTrimmed(h.display.value.title);
    }
    TextOrNoneIsTrimmed(h.toolName);
    TrimmedIsNotBlank("Tool");
  }

  lemma ToolKindIsGiven(h: HarnessEvent)
    requires ValidHarnessEvent(h)
    ensures !BlankIfAny(ToolKindText(h))
  {
    if h.display.Some? {
      GivenIsNotBlank(h.display.value.kind);
    }
    TextOrNoneIsTrimmed(h.toolName);
  }

  lemma ToolTargetIsGiven(h: HarnessEvent)
    ensures !BlankIfAny(ToolTarget(h))
  {
    if h.display.Some? {
      TextOrNoneIsTrimmed(Or(h.display.value.path, Or(h.display.value.command, h.display.value.providerThreadId)));
    }
  }

  lemma ToolStatusIsGiven(h: HarnessEvent)
    requires ValidHarnessEvent(h)
    ensures !BlankIfAny(Or(ToolStatus(h), Some("started")))
  {
    if h.display.Some? {
      GivenIsNotBlank(h.display.value.status);
    }
    GivenIsNotBlank(Some("failed"));
    GivenIsNotBlank(Some("completed"));
    GivenIsNotBlank(Some("started"));
  }

  /** Everything of a tool step but its body is always acceptable. */
  lemma ToolStepIsMade(e: LogEvent, h: HarnessEvent)
    requires ValidHarnessEvent(h)
    ensures Made(ToolStep(e, h)).None? <==> BlankIfAny(ToolSummaryText(h))
  {
    ToolTitleIsGiven(h);
    ToolKindIsGiven(h);
    ToolTargetIsGiven(h);
    ToolStatusIsGiven(h);
    DetailIsTrimmed(h);
    GivenIsNotBlank(h.toolInput);
  }

  lemma DetailIsTrimmed(h: HarnessEvent)
    ensures !BlankIfAny(ToolDetail(h))
  {
    if h.display.Some? {
      var d := h.display.value;
      TextOrNoneIsTrimmed(Some(JoinDots(Part(d.path) + Part(d.command)
                                        + (if d.exitCode.Some? then ["exit " + IntText(d.exitCode.value)] else [])
                                        + (if d.durationMs.Some? then [NatText(d.durationMs.value) + "ms"] else []))));
    }
  }

  lemma SummaryIsBlank(h: HarnessEvent)
    ensures BlankIfAny(ToolSummaryText(h))
            <==> !h.kind.ToolUse? && DisplaySummary(h).None? && h.toolResult.Some? && Blank(h.toolResult.value.text)
  {
    TextOrNoneIsTrimmed(Some(h.message));
    if h.display.Some? {
      TextOrNoneIsTrimmed(h.display.value.summary);
    }
    if h.toolResult.Some? {
      PreviewIsBlank(h.toolResult.value);
    }
  }

  predicate TrimmedStep(d: StepData) {
    Trimmed(d.title) && TrimmedIfAny(d.body) && TrimmedIfAny(d.detail) && TrimmedIfAny(d.actor) && TrimmedIfAny(d.tool)
    && TrimmedIfAny(d.target) && TrimmedIfAny(d.status) && TrimmedIfAny(d.input)
  }

  lemma TrimmedStepIsMade(d: StepData)
    requires TrimmedStep(d)
    ensures Made(d).Some?
  {
    TrimmedIsNotBlank(d.title);
    GivenIsNotBlank(d.body);
    GivenIsNotBlank(d.detail);
    GivenIsNotBlank(d.actor);
    GivenIsNotBlank(d.tool);
    GivenIsNotBlank(d.target);
    GivenIsNotBlank(d.status);
    GivenIsNotBlank(d.input);
  }

  lemma AgentTextsAreTrimmed(kind: HarnessEventKind)
    ensures Trimmed(AgentTitle(kind)) && Trimmed(AgentStatus(kind))
  {
  }

  lemma AgentStepIsMade(e: LogEvent, h: HarnessEvent)
    requires ValidHarnessEvent(h)
    ensures Made(AgentStep(e, h)).Some?
  {
    AgentTextsAreTrimmed(h.kind);
    TrimmedStepIsMade(AgentStep(e, h));
  }

  lemma ErrorStepIsMade(e: LogEvent, h: HarnessEvent)
    requires ValidHarnessEvent(h)
    ensures Made(ErrorStep(e, h)).Some?
  {
    TrimmedStepIsMade(ErrorStep(e, h));
  }

  lemma PlainIsMade(e: LogEvent, kind: StepKind, title: string, body: Option<string>)
    requires Trimmed(title) && TrimmedIfAny(body)
    ensures Made(Plain(e, kind, title, body)).Some?
  {
    TrimmedStepIsMade(Plain(e, kind, title, body));
  }

  lemma OtherStepIsMade(e: LogEvent, h: HarnessEvent)
    requires ValidHarnessEvent(h)
    ensures OtherStep(e, h).Some? ==> Made(OtherStep(e, h).value).Some?
  {
    match h.kind
    case AgentSpawned | AgentWaitStarted | AgentCompleted => AgentStepIsMade(e, h);
    case ErrorKind => ErrorStepIsMade(e, h);
    case Warning => PlainIsMade(e, Status, "Warning", Some(h.message));
    case DoneKind =>
      ErrorStepIsMade(e, h);
      PlainIsMade(e, Status, "Done", Some(h.message));
    case ProviderSession => PlainIsMade(e, Status, "Session", h.providerSessionId);
    case _ =>
  }

  lemma TextIsMade(v: View, e: LogEvent, h: HarnessEvent)
    requires ValidHarnessEvent(h)
    ensures AddText(v, e, h).Some?
  {
    TrimmedStepIsMade(TextStep(e, h));
  }

  lemma ToolFailsExactly(v: View, e: LogEvent, h: HarnessEvent)
    requires ValidHarnessEvent(h) && e.harness == Some(h) && (h.kind.ToolUse? || h.kind.ToolResult? || h.kind.ToolSummary?)
    ensures Added(v, e).None? <==> Refused(v, e)
  {
    ToolStepIsMade(e, h);
    SummaryIsBlank(h);
  }

  /** An event ends the projection exactly when it is one of the refused ones. */
  lemma FailsExactlyWhenRefused(v: View, e: LogEvent)
    requires ValidEvent(e)
    ensures Added(v, e).None? <==> Refused(v, e)
  {
    TrimmedIsNotBlank(e.message);
    if e.harness.None? {
      TitleIsBlank(e.message);
      TrimmedIsNotBlank("Error");
    } else {
      var h := e.harness.value;
      match h.kind
      case TextKind => TextIsMade(v, e, h);
      case ToolUse | ToolResult | ToolSummary => ToolFailsExactly(v, e, h);
      case _ =>
        OtherStepIsMade(e, h);
    }
  }

  predicate FailsAt<S, E>(add: (S, E) -> Option<S>, refused: (S, E) -> bool, start: S, events: seq<E>, n: nat) {
    n < |events| && Folded(add, start, events[..n]).Some? && refused(Folded(add, start, events[..n]).value, events[n])
  }

  /** A fold fails exactly when some event is refused in the state the events before it lead to. */
  lemma {:induction false} FoldFailsExactly<S(!new), E>(add: (S, E) -> Option<S>, refused: (S, E) -> bool, start: S, events: seq<E>)
    requires forall s, e :: e in events ==> (add(s, e).None? <==> refused(s, e))
    ensures Folded(add, start, events).None? <==> exists n :: FailsAt(add, refused, start, events, n)
  {
    if events != [] {
      var last := |events| - 1;
      FoldFailsExactly(add, refused, start, events[..last]);
      assert events[last] in events;
      forall n | 0 <= n < last ensures FailsAt(add, refused, start, events[..last], n) <==> FailsAt(add, refused, start, events, n) {
        assert events[..last][..n] == events[..n];
      }
      if FailsAt(add, refused, start, events, last) {
        assert Folded(add, start, events).None?;
      }
    }
  }

  /** A log cannot be projected exactly when one of its events is refused after the events before it. */
  lemma ProjectionFailsExactly(events: seq<LogEvent>)
    requires ValidEvents(events)
    ensures Projected(events).None? <==> exists n :: FailsAt(Added, Refused, EMPTY_VIEW, events, n)
  {
    forall v, e | e in events ensures Added(v, e).None? <==> Refused(v, e) {
      FailsExactlyWhenRefused(v, e);
    }
    FoldFailsExactly(Added, Refused, EMPTY_VIEW, events);
  }

  /** For instance a status message of one underscore, in whatever state. */
  lemma UnderscoreIsRefused(v: View, sequence: nat, timestamp: int)
    ensures var e := LogEvent(sequence, timestamp, false, "_", None); ValidEvent(e) && Refused(v, e) && Added(v, e).None?
  {
    FailsExactlyWhenRefused(v, LogEvent(sequence, timestamp, false, "_", None));
  }
}
