/** The archived configuration in its own words: which keys of the raw object each setting is read from, what a patch makes of it,
    and what a line of its file looks like. */
module ConfigAnswers {
  import opened Outcomes
  import opened TextLines
  import opened ConfigObjects
  import opened ConfigSchema
  import opened JsonStrings
  import opened ConfigLines
  import opened ConfigCodec
  import opened ConfigFile

  /** The object under a key, or an empty one. */
  function Nested(raw: Object, key: string): Object {
    if key in raw then (match raw[key] case JObject(fields) => fields case _ => map[]) else map[]
  }

  function FlagUnder(raw: Object, key: string, otherwise: bool): bool {
    if key in raw then (match raw[key] case JBool(flag) => flag case _ => otherwise) else otherwise
  }

  function TextUnder(raw: Object, key: string): Option<string> {
    if key in raw then (match raw[key] case JString(text) => Some(text) case _ => None) else None
  }

  predicate NamesModel(text: Option<string>) {
    text.Some? && text.value != "" && text.value != "default" && text.value != "null"
  }

  lemma NestedIsUnder(raw: Object, key: string)
    ensures Nested(raw, key) == Under(raw, key)
  {
  }

  lemma {:induction false} FlagsAreRead(raw: Object, isDate: string -> bool)
    ensures Normalized(raw, isDate).updateNotifier == FlagUnder(raw, "update_notifier", true)
    ensures Normalized(raw, isDate).autoCommit == FlagUnder(raw, "auto_commit", false)
  {
    assert PathOf(UpdateNotifier) == ["update_notifier"] && PathOf(AutoCommit) == ["auto_commit"];
  }

  lemma {:induction false} AgentIsRead(raw: Object, isDate: string -> bool)
    ensures var text := TextUnder(Nested(raw, "agent"), "default");
            Normalized(raw, isDate).agentDefault ==
            if text == Some("claude") then Claude else if text == Some("cursor") then Cursor else Codex
  {
    LookupTwo(raw, "agent", "default");
    assert PathOf(AgentDefault) == ["agent", "default"];
    assert "claude" != "cursor" by { IdTextsDiffer(Claude, Cursor); }
    assert "claude" != "codex" by { IdTextsDiffer(Claude, Codex); }
    assert "cursor" != "codex" by { IdTextsDiffer(Cursor, Codex); }
  }

  lemma {:induction false} ModelIsRead(raw: Object, id: Id, isDate: string -> bool)
    ensures var text := TextUnder(Nested(Nested(raw, "agent"), "models"), match id case Claude => "claude" case Codex => "codex" case Cursor => "cursor");
            ModelAt(Normalized(raw, isDate).models, id) == if NamesModel(text) then text else None
  {
    LookupThree(raw, "agent", "models", IdText(id));
    assert PathOf(ModelOf(id)) == ["agent", "models", IdText(id)];
  }

  lemma {:induction false} DateIsRead(raw: Object, isDate: string -> bool)
    ensures var automation := Nested(raw, "automation");
            var sync, capture := TextUnder(automation, "sync_since"), TextUnder(automation, "capture_since");
            Normalized(raw, isDate).syncSince ==
            if sync.Some? && isDate(sync.value) then sync else if capture.Some? && isDate(capture.value) then capture else None
  {
    LookupTwo(raw, "automation", "sync_since");
    LookupTwo(raw, "automation", "capture_since");
    assert PathOf(SyncSince) == ["automation", "sync_since"] && PathOf(CaptureSince) == ["automation", "capture_since"];
  }

  /** The setting each field of the configuration is read from, for every object. */
  lemma {:induction false} SettingsAreRead(raw: Object, isDate: string -> bool)
    ensures var c := Normalized(raw, isDate);
            var agent, automation := Nested(raw, "agent"), Nested(raw, "automation");
            var models := Nested(agent, "models");
            && c.updateNotifier == FlagUnder(raw, "update_notifier", true) && c.autoCommit == FlagUnder(raw, "auto_commit", false)
            && c.agentDefault == (if TextUnder(agent, "default") == Some("claude") then Claude
                                  else if TextUnder(agent, "default") == Some("cursor") then Cursor else Codex)
            && c.models.claude == (if NamesModel(TextUnder(models, "claude")) then TextUnder(models, "claude") else None)
            && c.models.codex == (if NamesModel(TextUnder(models, "codex")) then TextUnder(models, "codex") else None)
            && c.models.cursor == (if NamesModel(TextUnder(models, "cursor")) then TextUnder(models, "cursor") else None)
            && var sync, capture := TextUnder(automation, "sync_since"), TextUnder(automation, "capture_since");
               c.syncSince == if sync.Some? && isDate(sync.value) then sync else if capture.Some? && isDate(capture.value) then capture else None
  {
    FlagsAreRead(raw, isDate);
    AgentIsRead(raw, isDate);
    ModelIsRead(raw, Claude, isDate);
    ModelIsRead(raw, Codex, isDate);
    ModelIsRead(raw, Cursor, isDate);
    DateIsRead(raw, isDate);
  }

  /** The values of a patch as they are taken: an unknown provider counts as the default one, and a date that is none as none. */
  lemma PatchIsTaken(current: Config, patch: Patch, isDate: string -> bool)
    ensures var c := Patched(current, patch, isDate);
            && (patch.updateNotifier.Some? ==> c.updateNotifier == patch.updateNotifier.value)
            && (patch.updateNotifier.None? ==> c.updateNotifier == current.updateNotifier)
            && (patch.autoCommit.Some? ==> c.autoCommit == patch.autoCommit.value)
            && (patch.autoCommit.None? ==> c.autoCommit == current.autoCommit)
            && (patch.agent.Some? && patch.agent.value.default_.Some? ==>
                  var text := patch.agent.value.default_.value;
                  c.agentDefault == if text == "claude" then Claude else if text == "cursor" then Cursor else Codex)
            && (patch.agent.None? || patch.agent.value.default_.None? ==> c.agentDefault == current.agentDefault)
            && (patch.automation.Some? ==>
                  c.syncSince == if patch.automation.value.Some? && isDate(patch.automation.value.value) then patch.automation.value else None)
            && (patch.automation.None? ==> c.syncSince == current.syncSince)
            && forall id :: ModelAt(c.models, id) ==
                 if patch.agent.Some? && id in patch.agent.value.models then patch.agent.value.models[id] else ModelAt(current.models, id)
  {
    IdTextsDiffer(Claude, Cursor);
    IdTextsDiffer(Claude, Codex);
    IdTextsDiffer(Cursor, Codex);
  }

  // ---- What a file looks like ---------------------------------------------------------------------

  /** One line after the other; a new section stands under its header, and after an empty line. */
  lemma {:induction false} NextLine(pairs: seq<Assignment>, k: Known, value: Json)
    ensures LinesOf(pairs + [Assignment(k, value)]) ==
            LinesOf(pairs) + (if SectionOf(k) == SectionAtEnd(pairs) then []
                              else (if LinesOf(pairs) == [] then [] else [""]) + [HeaderText(SectionOf(k))])
            + [KeyOf(k) + " = " + ValueText(value)]
    ensures SectionAtEnd(pairs + [Assignment(k, value)]) == SectionOf(k)
  {
    LinesMore(pairs, Assignment(k, value));
  }

  /** The headers as they stand in the file. */
  lemma HeadersAreWritten()
    ensures HeaderText(["agent"]) == "[agent]" && HeaderText(["automation"]) == "[automation]" && HeaderText(["agent", "models"]) == "[agent.models]"
  {
    assert ["agent", "models"][1..] == ["models"];
    assert Dotted(["agent", "models"]) == "agent" + ['.'] + "models";
  }

  /** Text that opens with a brace is left to the reader of JSON, other text is read line by line, and nothing says nothing; what
      cannot be read counts as an empty object. */
  lemma TextIsReadAs(text: string, json: string -> Option<Object>)
    ensures var body := Trim(text);
            && (body == "" ==> RawOf(Some(text), json) == map[])
            && (body != "" && body[0] == '{' ==> RawOf(Some(text), json) == match json(body) case Some(raw) => raw case None => map[])
            && (body != "" && body[0] != '{' ==> RawOf(Some(text), json) == match ParsedToml(body) case Some(raw) => raw case None => map[])
    ensures RawOf(None, json) == map[]
  {
  }
}
