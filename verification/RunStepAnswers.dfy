/** What each event of a run's log does to the transcript, in the fields of the event: which step it appends or changes,
    and what that step says. */
module RunStepAnswers {
  import opened Outcomes
  import opened Text
  import opened RunSteps

  /** The first text if it is given, else the second. */
  function First(a: Option<string>, b: Option<string>): Option<string> {
    match a
    case Some(_) => a
    case None => b
  }

  lemma GivenIsItself(s: Option<string>)
    requires TrimmedIfAny(s)
    ensures TextOrNone(s) == s && StripIfAny(s) == s && !BlankIfAny(s)
  {
    if s.Some? {
      StripKeeps(s.value);
      TrimmedIsNotBlank(s.value);
    }
  }

  predicate AllTrimmed(d: StepData) {
    && Trimmed(d.title) && TrimmedIfAny(d.body) && TrimmedIfAny(d.detail) && TrimmedIfAny(d.actor) && TrimmedIfAny(d.tool)
    && TrimmedIfAny(d.target) && TrimmedIfAny(d.status) && TrimmedIfAny(d.input)
  }

  lemma MadeAsGiven(d: StepData)
    requires AllTrimmed(d)
    ensures Made(d) == Some(d)
  {
    GivenIsItself(Some(d.title));
    GivenIsItself(d.body);
    GivenIsItself(d.detail);
    GivenIsItself(d.actor);
    GivenIsItself(d.tool);
    GivenIsItself(d.target);
    GivenIsItself(d.status);
    GivenIsItself(d.input);
  }

  /** The view is longer by one step, and the tools it knows are as they were. */
  predicate Appends(v: View, after: Option<View>, step: StepData) {
    after.Some? && after.value.steps == v.steps + [step] && after.value.tools == v.tools
  }

  predicate SaysOnly(step: StepData, e: LogEvent, kind: StepKind, title: string, body: Option<string>, error: bool) {
    && step.sequence == e.sequence && step.timestamp == e.timestamp && step.kind == kind && step.title == title && step.body == body
    && step.error == error && step.tool.None? && step.target.None? && step.input.None? && step.output.None?
  }

  // ---- Events without a provider event ------------------------------------------------------------

  lemma Literals()
    ensures Trimmed("Error") && Trimmed("Warning") && Trimmed("Done") && Trimmed("Session") && Trimmed("Assistant") && Trimmed("Tool")
    ensures Trimmed("failed") && Trimmed("completed") && Trimmed("started") && Trimmed("waiting")
    ensures Trimmed("Agent started") && Trimmed("Waiting for agent") && Trimmed("Agent finished")
  {
  }

  /** An error of the run is an error step with its message. */
  lemma RunErrorIsTold(v: View, e: LogEvent)
    requires ValidEvent(e) && e.harness.None? && e.isError
    ensures exists step :: Appends(v, Added(v, e), step) && SaysOnly(step, e, Error, "Error", Some(e.message), true)
                           && step.detail.None? && step.actor.None? && step.status.None?
  {
    Literals();
    var step := Plain(e, Error, "Error", Some(e.message)).(error := true);
    MadeAsGiven(step);
    assert Appends(v, Added(v, e), step);
  }

  /** Any other event of the run is a status step with its message, under a title made of its words: separators become spaces, letters
      keep what they are, and are capital exactly where a word begins. */
  lemma RunStatusIsTold(v: View, e: LogEvent)
    requires ValidEvent(e) && e.harness.None? && !e.isError && !OnlySeparators(e.message)
    ensures exists step, title :: Appends(v, Added(v, e), step) && SaysOnly(step, e, Status, Strip(title), Some(e.message), false)
                                  && step.detail.None? && step.actor.None? && step.status.None? && Titles(title, e.message)
  {
    var title := StatusTitle(e.message);
    TitleIsTold(e.message);
    TitleIsBlank(e.message);
    GivenIsItself(Some(e.message));
    var step := Plain(e, Status, Strip(title), Some(e.message));
    assert Made(Plain(e, Status, title, Some(e.message))) == Some(step);
    assert Appends(v, Added(v, e), step);
  }

  predicate Separates(c: char) {
    c == '_' || c == '-'
  }

  predicate Capital(c: char) {
    'A' <= c <= 'Z'
  }

  predicate Titles(title: string, message: string) {
    && |title| == |message|
    && forall i {:trigger title[i]} :: 0 <= i < |message| ==>
         if Separates(message[i]) then title[i] == ' '
         else Lower(title[i]) == Lower(message[i])
              && (Letter(message[i]) ==> (Capital(title[i]) <==> i == 0 || !Letter(message[i - 1])))
  }

  lemma TitleIsTold(message: string)
    ensures Titles(StatusTitle(message), message)
  {
  }

  // ---- Text ---------------------------------------------------------------------------------------

  /** Text goes on in the last step when that is the same actor's, on a new line unless there is one already; nothing else changes. */
  lemma TextGoesOn(v: View, e: LogEvent, h: HarnessEvent)
    requires e.harness == Some(h) && h.kind.TextKind? && v.steps != []
    requires var last := v.steps[|v.steps| - 1]; last.kind == Assistant && last.actor == h.actorLabel && last.body.Some?
    requires Trimmed(v.steps[|v.steps| - 1].body.value) && Trimmed(h.message)
    ensures var last := v.steps[|v.steps| - 1];
            Added(v, e) == Some(v.(steps := v.steps[..|v.steps| - 1] + [last.(body := Some(last.body.value + "\n" + h.message))]))
  {
    var last := v.steps[|v.steps| - 1];
    MessagesJoinByLine(last.body.value, h.message);
    assert v.steps[|v.steps| - 1 := last.(body := Some(last.body.value + "\n" + h.message))] ==
           v.steps[..|v.steps| - 1] + [last.(body := Some(last.body.value + "\n" + h.message))];
  }

  /** Else it is an assistant step of its own, under the actor's name if there is one. */
  lemma TextStarts(v: View, e: LogEvent, h: HarnessEvent)
    requires ValidEvent(e) && e.harness == Some(h) && h.kind.TextKind?
    requires v.steps == [] || v.steps[|v.steps| - 1].kind != Assistant || v.steps[|v.steps| - 1].actor != h.actorLabel
    ensures exists step :: Appends(v, Added(v, e), step) && step.actor == h.actorLabel
                           && SaysOnly(step, e, Assistant, if h.actorLabel.Some? then h.actorLabel.value else "Assistant", Some(h.message), false)
                           && step.detail.None? && step.status.None?
  {
    Literals();
    var step := TextStep(e, h);
    MadeAsGiven(step);
    assert Appends(v, Added(v, e), step);
  }

  // ---- Tools --------------------------------------------------------------------------------------

  const NO_DISPLAY := ToolDisplay(None, None, None, None, None, None, None, None, None)

  /** What the display of a tool says; without a display nothing. */
  function Shown(h: HarnessEvent): ToolDisplay {
    if h.display.Some? then h.display.value else NO_DISPLAY
  }

  /** Path, command, exit code and duration, as far as they are there, with dots between. */
  function DetailShown(d: ToolDisplay): seq<string> {
    (if d.path.Some? then [d.path.value] else []) + (if d.command.Some? then [d.command.value] else [])
    + (if d.exitCode.Some? then ["exit " + IntText(d.exitCode.value)] else [])
    + (if d.durationMs.Some? then [NatText(d.durationMs.value) + "ms"] else [])
  }

  predicate NamesTool(step: StepData, h: HarnessEvent) {
    && step.kind == Tool && step.actor.None? && step.input == h.toolInput
    && step.title == First(Shown(h).title, First(h.toolName, Some("Tool"))).value
    && step.tool == First(Shown(h).kind, h.toolName)
    && step.target == First(Shown(h).path, First(Shown(h).command, Shown(h).providerThreadId))
  }

  lemma TitleIsFirst(h: HarnessEvent)
    requires ValidHarnessEvent(h)
    ensures ToolTitle(h) == First(Shown(h).title, First(h.toolName, Some("Tool"))).value && Trimmed(ToolTitle(h))
  {
    Literals();
    GivenIsItself(h.toolName);
    if h.display.Some? {
      GivenIsItself(h.display.value.title);
    }
  }

  lemma KindIsFirst(h: HarnessEvent)
    requires ValidHarnessEvent(h)
    ensures ToolKindText(h) == First(Shown(h).kind, h.toolName) && TrimmedIfAny(ToolKindText(h))
  {
    GivenIsItself(h.toolName);
  }

  lemma TargetIsFirst(h: HarnessEvent)
    requires ValidHarnessEvent(h)
    ensures ToolTarget(h) == First(Shown(h).path, First(Shown(h).command, Shown(h).providerThreadId))
    ensures TrimmedIfAny(ToolTarget(h))
  {
    if h.display.Some? {
      GivenIsItself(Shown(h).path);
      GivenIsItself(Shown(h).command);
      GivenIsItself(Shown(h).providerThreadId);
    }
  }

  lemma DetailIsShown(h: HarnessEvent)
    requires ValidHarnessEvent(h)
    ensures h.display.None? || DetailShown(h.display.value) == [] ==> ToolDetail(h) == None
    ensures h.display.Some? && DetailShown(h.display.value) != [] ==> ToolDetail(h) == Some(JoinDots(DetailShown(h.display.value)))
    ensures TrimmedIfAny(ToolDetail(h))
  {
    if h.display.Some? {
      var parts := DetailShown(h.display.value);
      PartsAreTrimmed(h.display.value);
      DotsJoin(parts);
      if parts != [] {
        StripKeeps(JoinDots(parts));
      }
    }
  }

  lemma {:induction false} NumberIsTrimmed(n: nat)
    ensures Trimmed(NatText(n))
  {
    if n >= 10 {
      NumberIsTrimmed(n / 10);
    }
  }

  lemma PartsAreTrimmed(d: ToolDisplay)
    requires ValidDisplay(d)
    ensures forall i :: 0 <= i < |DetailShown(d)| ==> Trimmed(DetailShown(d)[i])
    ensures DetailShown(d) == Part(d.path) + Part(d.command) + (if d.exitCode.Some? then ["exit " + IntText(d.exitCode.value)] else [])
                              + (if d.durationMs.Some? then [NatText(d.durationMs.value) + "ms"] else [])
  {
    if d.exitCode.Some? {
      var code := d.exitCode.value;
      NumberIsTrimmed(if code < 0 then -code else code);
      var text := "exit " + IntText(code);
      assert text[0] == 'e' && text[|text| - 1] == IntText(code)[|IntText(code)| - 1];
    }
    if d.durationMs.Some? {
      NumberIsTrimmed(d.durationMs.value);
      var text := NatText(d.durationMs.value) + "ms";
      assert text[0] == NatText(d.durationMs.value)[0] && text[|text| - 1] == 's';
    }
  }

  /** The parts stand in the joined text, one after the other, with a dot between two of them. */
  lemma {:induction false} DotsJoin(parts: seq<string>)
    requires forall i :: 0 <= i < |parts| ==> Trimmed(parts[i])
    ensures parts == [] ==> JoinDots(parts) == ""
    ensures parts != [] ==> Trimmed(JoinDots(parts)) && JoinDots(parts)[0] == parts[0][0]
    ensures |parts| > 1 ==> JoinDots(parts) == parts[0] + " \U{b7} " + JoinDots(parts[1..])
    ensures |parts| == 1 ==> JoinDots(parts) == parts[0]
  {
    if |parts| > 1 {
      assert forall i :: 0 <= i < |parts[1..]| ==> parts[1..][i] == parts[i + 1];
      DotsJoin(parts[1..]);
      assert Trimmed(parts[0]);
    }
  }

  /** The text of a tool event: the summary shown, or else the result of the tool, cut after 280 characters, or else the message. */
  function SummaryShown(h: HarnessEvent): Option<string> {
    if Shown(h).summary.Some? then Shown(h).summary
    else if h.kind.ToolUse? || h.toolResult.None? then Some(h.message)
    else
      var text := Strip(h.toolResult.value.text);
      Some(if |text| <= 280 then text else text[..277] + "...")
  }

  lemma SummaryIsShown(h: HarnessEvent)
    requires ValidHarnessEvent(h)
    ensures ToolSummaryText(h) == SummaryShown(h)
  {
    GivenIsItself(Some(h.message));
    if h.display.Some? {
      GivenIsItself(h.display.value.summary);
    }
  }

  /** The status shown, or else failed for an error, or else what the event means by itself. */
  function StatusShown(h: HarnessEvent, otherwise: string): Option<string> {
    First(Shown(h).status, Some(if h.toolIsError then "failed" else otherwise))
  }

  lemma StatusIsShown(h: HarnessEvent)
    requires ValidHarnessEvent(h)
    ensures h.kind.ToolUse? ==> Or(ToolStatus(h), Some("started")) == StatusShown(h, "started")
    ensures h.kind.ToolResult? || h.kind.ToolSummary? ==> ToolStatus(h) == StatusShown(h, "completed")
    ensures TrimmedIfAny(StatusShown(h, "started")) && TrimmedIfAny(StatusShown(h, "completed"))
  {
    Literals();
  }

  /** The start of a tool is a tool step, known by its id from then on. */
  lemma ToolStartIsTold(v: View, e: LogEvent, h: HarnessEvent)
    requires ValidEvent(e) && e.harness == Some(h) && h.kind.ToolUse?
    ensures var after := Added(v, e);
            && after.Some? && |after.value.steps| == |v.steps| + 1 && after.value.steps[..|v.steps|] == v.steps
            && after.value.tools == (if h.toolId.Some? then v.tools[h.toolId.value := |v.steps|] else v.tools)
            && var step := after.value.steps[|v.steps|];
               && NamesTool(step, h) && step.sequence == e.sequence && step.timestamp == e.timestamp && step.output.None?
               && step.error == h.toolIsError && step.body == First(Shown(h).summary, Some(h.message))
               && step.status == StatusShown(h, "started") && step.detail == ToolDetail(h)
  {
    StartedToolIsMade(e, h);
  }

  lemma StartedToolIsMade(e: LogEvent, h: HarnessEvent)
    requires ValidHarnessEvent(h) && h.kind.ToolUse?
    ensures Made(ToolStep(e, h)) == Some(ToolStep(e, h)) && NamesTool(ToolStep(e, h), h)
    ensures ToolStep(e, h).status == StatusShown(h, "started")
    ensures ToolStep(e, h).body == First(Shown(h).summary, Some(h.message))
  {
    TitleIsFirst(h);
    KindIsFirst(h);
    TargetIsFirst(h);
    DetailIsShown(h);
    SummaryIsShown(h);
    StatusIsShown(h);
    MadeAsGiven(ToolStep(e, h));
  }

  /** The result of a known tool is told in its own step: when, how it ended, and what came out; a text or detail of its own replaces
      that of the start. */
  lemma ToolResultIsTold(v: View, e: LogEvent, h: HarnessEvent)
    requires ValidEvent(e) && e.harness == Some(h) && (h.kind.ToolResult? || h.kind.ToolSummary?)
    requires h.toolId.Some? && h.toolId.value in v.tools && v.tools[h.toolId.value] < |v.steps|
    ensures var index := v.tools[h.toolId.value];
            var was := v.steps[index];
            Added(v, e) == Some(v.(steps := v.steps[index := was.(
              sequence := e.sequence, timestamp := e.timestamp, status := StatusShown(h, "completed"), output := h.toolResult,
              error := h.toolIsError, body := SummaryShown(h), detail := First(ToolDetail(h), was.detail))]))
  {
    SummaryIsShown(h);
    StatusIsShown(h);
  }

  /** A result nobody waits for is a tool step of its own, ended at once. */
  lemma UnknownResultIsTold(v: View, e: LogEvent, h: HarnessEvent)
    requires ValidEvent(e) && e.harness == Some(h) && (h.kind.ToolResult? || h.kind.ToolSummary?)
    requires h.toolId.None? || h.toolId.value !in v.tools
    requires SummaryShown(h).Some? && Trimmed(SummaryShown(h).value)
    ensures var after := Added(v, e);
            && after.Some? && |after.value.steps| == |v.steps| + 1 && after.value.steps[..|v.steps|] == v.steps
            && after.value.tools == (if h.toolId.Some? then v.tools[h.toolId.value := |v.steps|] else v.tools)
            && var step := after.value.steps[|v.steps|];
               && NamesTool(step, h) && step.sequence == e.sequence && step.timestamp == e.timestamp && step.output == h.toolResult
               && step.error == h.toolIsError && step.body == SummaryShown(h) && step.status == StatusShown(h, "completed")
               && step.detail == ToolDetail(h)
  {
    EndedToolIsMade(e, h);
    StatusIsShown(h);
    var step := ToolStep(e, h);
    ResultAfterStart(v, e, h, step);
  }

  lemma ReplaceLast(steps: seq<StepData>, last: StepData, other: StepData)
    ensures (steps + [last])[|steps| := other] == steps + [other]
  {
  }

  lemma ToolIsAdded(v: View, e: LogEvent, h: HarnessEvent, step: StepData)
    requires Made(ToolStep(e, h)) == Some(step)
    ensures AddTool(v, e, h) == Some(View(v.steps + [step], if h.toolId.Some? then v.tools[h.toolId.value := |v.steps|] else v.tools))
  {
  }

  lemma ResultAfterStart(v: View, e: LogEvent, h: HarnessEvent, step: StepData)
    requires Made(ToolStep(e, h)) == Some(step) && !Matches(v, h)
    ensures AddToolResult(v, e, h) == Some(View(v.steps + [WithResult(step, e, h)],
                                                if h.toolId.Some? then v.tools[h.toolId.value := |v.steps|] else v.tools))
  {
    ToolIsAdded(v, e, h, step);
    ReplaceLast(v.steps, step, WithResult(step, e, h));
  }

  lemma EndedToolIsMade(e: LogEvent, h: HarnessEvent)
    requires ValidHarnessEvent(h) && (h.kind.ToolResult? || h.kind.ToolSummary?) && SummaryShown(h).Some? && Trimmed(SummaryShown(h).value)
    ensures Made(ToolStep(e, h)) == Some(ToolStep(e, h)) && NamesTool(ToolStep(e, h), h) && ToolSummaryText(h) == SummaryShown(h)
  {
    TitleIsFirst(h);
    KindIsFirst(h);
    TargetIsFirst(h);
    DetailIsShown(h);
    SummaryIsShown(h);
    StatusIsShown(h);
    MadeAsGiven(ToolStep(e, h));
  }

  // ---- Other events -------------------------------------------------------------------------------

  /** Helpers starting, being waited for and finishing are agent steps; a trace tells its prompt and result in place of the message. */
  lemma AgentIsTold(v: View, e: LogEvent, h: HarnessEvent)
    requires ValidEvent(e) && e.harness == Some(h) && (h.kind.AgentSpawned? || h.kind.AgentWaitStarted? || h.kind.AgentCompleted?)
    ensures exists step :: Appends(v, Added(v, e), step) && step.actor.None?
                           && SaysOnly(step, e, Agent, if h.kind.AgentSpawned? then "Agent started"
                                                       else if h.kind.AgentWaitStarted? then "Waiting for agent" else "Agent finished",
                                       if h.trace.Some? then h.trace.value.result else Some(h.message), false)
                           && step.detail == (if h.trace.Some? then h.trace.value.prompt else None)
                           && step.status == Some(if h.kind.AgentSpawned? then "started" else if h.kind.AgentWaitStarted? then "waiting" else "completed")
  {
    Literals();
    var step := AgentStep(e, h);
    MadeAsGiven(step);
    assert Appends(v, Added(v, e), step);
  }

  /** An error of the provider, and an end with a failure, are error steps; a failure tells its message and fix in place of the message. */
  lemma ErrorIsTold(v: View, e: LogEvent, h: HarnessEvent)
    requires ValidEvent(e) && e.harness == Some(h) && (h.kind.ErrorKind? || (h.kind.DoneKind? && h.failure.Some?))
    ensures exists step :: Appends(v, Added(v, e), step) && step.actor.None? && step.status == h.status
                           && SaysOnly(step, e, Error, "Error", Some(if h.failure.Some? then h.failure.value.message else h.message), true)
                           && step.detail == (if h.failure.Some? then h.failure.value.fix else None)
  {
    Literals();
    var step := ErrorStep(e, h);
    MadeAsGiven(step);
    assert Appends(v, Added(v, e), step);
  }

  lemma StatusStepIsMade(v: View, e: LogEvent, title: string, body: Option<string>)
    requires Trimmed(title) && TrimmedIfAny(body)
    ensures var step := Plain(e, Status, title, body);
            Appends(v, Appended(v, step), step) && SaysOnly(step, e, Status, title, body, false)
            && step.actor.None? && step.detail.None? && step.status.None?
  {
    MadeAsGiven(Plain(e, Status, title, body));
  }

  predicate IsStatus(step: StepData, e: LogEvent, title: string, body: Option<string>) {
    SaysOnly(step, e, Status, title, body, false) && step.actor.None? && step.detail.None? && step.status.None?
  }

  /** A warning is a status step with its message. */
  lemma WarningIsTold(v: View, e: LogEvent, h: HarnessEvent)
    requires ValidEvent(e) && e.harness == Some(h) && h.kind.Warning?
    ensures exists step :: Appends(v, Added(v, e), step) && IsStatus(step, e, "Warning", Some(h.message))
  {
    Literals();
    StatusStepIsMade(v, e, "Warning", Some(h.message));
    var step := Plain(e, Status, "Warning", Some(h.message));
    assert Appends(v, Added(v, e), step) && IsStatus(step, e, "Warning", Some(h.message));
  }

  /** So is an end without a failure. */
  lemma DoneIsTold(v: View, e: LogEvent, h: HarnessEvent)
    requires ValidEvent(e) && e.harness == Some(h) && h.kind.DoneKind? && h.failure.None?
    ensures exists step :: Appends(v, Added(v, e), step) && IsStatus(step, e, "Done", Some(h.message))
  {
    Literals();
    StatusStepIsMade(v, e, "Done", Some(h.message));
    var step := Plain(e, Status, "Done", Some(h.message));
    assert Appends(v, Added(v, e), step) && IsStatus(step, e, "Done", Some(h.message));
  }

  /** And a provider session, with its id. */
  lemma SessionIsTold(v: View, e: LogEvent, h: HarnessEvent)
    requires ValidEvent(e) && e.harness == Some(h) && h.kind.ProviderSession? && h.providerSessionId.Some?
    ensures exists step :: Appends(v, Added(v, e), step) && IsStatus(step, e, "Session", h.providerSessionId)
  {
    Literals();
    StatusStepIsMade(v, e, "Session", h.providerSessionId);
    var step := Plain(e, Status, "Session", h.providerSessionId);
    assert Appends(v, Added(v, e), step) && IsStatus(step, e, "Session", h.providerSessionId);
  }

  /** The use of context, and a session without an id, are not told. */
  lemma OthersAreNotTold(v: View, e: LogEvent, h: HarnessEvent)
    requires e.harness == Some(h) && (h.kind.ContextUsage? || h.kind.OtherKind? || (h.kind.ProviderSession? && h.providerSessionId.None?))
    ensures Added(v, e) == Some(v)
  {
  }

  /** What decimal digits are worth. */
  function Worth(digits: string): int {
    if digits == "" then 0 else 10 * Worth(digits[..|digits| - 1]) + (digits[|digits| - 1] as int - '0' as int)
  }

  lemma OneDigit(k: nat)
    requires k < 10
    ensures var digit := DIGITS[k]; '0' <= digit <= '9' && digit as int - '0' as int == k
  {
  }

  predicate AllDigits(text: string) {
    forall i :: 0 <= i < |text| ==> '0' <= text[i] <= '9'
  }

  /** One digit more at the end. */
  lemma {:induction false} WorthAppend(digits: string, last: char, all: string)
    requires AllDigits(digits) && '0' <= last <= '9' && all == digits + [last]
    ensures AllDigits(all) && Worth(all) == 10 * Worth(digits) + (last as int - '0' as int)
    ensures digits != "" ==> all[0] == digits[0]
  {
    assert all[..|all| - 1] == digits;
  }

  lemma LastDigit(n: nat) returns (before: string, last: char)
    ensures before == (if n >= 10 then NatText(n / 10) else "") && NatText(n) == before + [last]
    ensures '0' <= last <= '9' && last as int - '0' as int == n % 10
  {
    OneDigit(n % 10);
    before := if n >= 10 then NatText(n / 10) else "";
    last := DIGITS[n % 10];
  }

  lemma {:induction false} DigitsAreWorth(n: nat)
    ensures NatText(n) != "" && (NatText(n)[0] == '0' <==> n == 0) && Worth(NatText(n)) == n && AllDigits(NatText(n))
  {
    var before, last := LastDigit(n);
    if n >= 10 {
      DigitsAreWorth(n / 10);
    }
    WorthAppend(before, last, NatText(n));
  }

  /** An exit code is shown in decimal digits, with a sign only below zero and no zero in front. */
  lemma ExitCodeReadsBack(code: int)
    ensures var text := IntText(code);
            && (code >= 0 ==> Worth(text) == code && (text[0] == '0' <==> code == 0) && AllDigits(text))
            && (code < 0 ==> text[0] == '-' && |text| > 1 && text[1] != '0' && Worth(text[1..]) == -code && AllDigits(text[1..]))
  {
    if code >= 0 {
      DigitsAreWorth(code);
    } else {
      DigitsAreWorth(-code);
      assert IntText(code)[1..] == NatText(-code);
    }
  }

  const SPACES := " \t\n\r\U{0b}\U{0c}\U{1c}\U{1d}\U{1e}\U{1f}\U{85}\U{a0}\U{1680}\U{2000}\U{2001}\U{2002}\U{2003}\U{2004}\U{2005}\U{2006}\U{2007}\U{2008}\U{2009}\U{200a}\U{2028}\U{2029}\U{202f}\U{205f}\U{3000}"

  lemma SpacesAreThose(c: char)
    ensures Space(c) <==> c in SPACES
  {
    assert c in SPACES ==> exists i :: 0 <= i < |SPACES| && SPACES[i] == c;
  }

  function Texts(d: StepData): seq<Option<string>> {
    [Some(d.title), d.body, d.detail, d.actor, d.tool, d.target, d.status, d.input]
  }

  lemma StripLeavesNothing(s: string)
    ensures Blank(s) <==> Strip(s) == ""
    ensures Strip(s) == "" <==> forall c :: c in s ==> c in SPACES
  {
    StripTrims(s);
    forall i | 0 <= i < |s| ensures Space(s[i]) <==> s[i] in SPACES {
      SpacesAreThose(s[i]);
    }
    if Blank(s) {
      forall c | c in s ensures c in SPACES {
        var i :| 0 <= i < |s| && s[i] == c;
        assert Space(s[i]);
      }
    }
  }

  lemma OneBlankRefuses(d: StepData)
    ensures Made(d).None? <==> exists i :: 0 <= i < 8 && BlankIfAny(Texts(d)[i])
  {
    var t := Texts(d);
    assert t[0] == Some(d.title) && t[1] == d.body && t[2] == d.detail && t[3] == d.actor;
    assert t[4] == d.tool && t[5] == d.target && t[6] == d.status && t[7] == d.input;
  }

  /** Nothing but white space. */
  predicate Hollow(text: Option<string>) {
    text.Some? && forall c :: c in text.value ==> c in SPACES
  }

  /** A step is refused exactly when one of its eight texts is given and has nothing but white space. */
  lemma RefusedExactly(d: StepData)
    ensures Made(d).None? <==> exists i :: 0 <= i < 8 && Hollow(Texts(d)[i])
  {
    OneBlankRefuses(d);
    forall i | 0 <= i < 8 ensures BlankIfAny(Texts(d)[i]) <==> Hollow(Texts(d)[i]) {
      if Texts(d)[i].Some? {
        StripLeavesNothing(Texts(d)[i].value);
      }
    }
  }

  /** And else keeps each of them stripped, and the rest of it as given. */
  lemma KeptStripped(d: StepData)
    requires Made(d).Some?
    ensures var made := Made(d).value;
            && made.title == Strip(d.title)
            && (forall i :: 0 <= i < 8 ==> Texts(made)[i] == if Texts(d)[i].Some? then Some(Strip(Texts(d)[i].value)) else None)
            && made.sequence == d.sequence && made.timestamp == d.timestamp && made.kind == d.kind && made.output == d.output
            && made.error == d.error
  {
  }
}
