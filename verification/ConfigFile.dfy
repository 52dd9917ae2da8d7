/** The serialiser of the archived configuration step by step, and the file it writes. */
module ConfigFile {
  import opened Outcomes
  import opened TextLines
  import opened ConfigObjects
  import opened ConfigSchema
  import opened ConfigLines
  import opened ConfigCodec

  // ---- Settings in their objects ------------------------------------------------------------------------

  function ValueUnder(raw: Object, key: string): Option<Json> {
    if key in raw then Some(raw[key]) else None
  }

  function Agent(raw: Object): Object {
    Under(raw, "agent")
  }

  function ModelObject(raw: Object): Object {
    Under(Agent(raw), "models")
  }

  function Automation(raw: Object): Object {
    Under(raw, "automation")
  }

  function KeptUnder(owner: Object, k: Known): Option<Json> {
    KeptValue(k, ValueUnder(owner, KeyOf(k)))
  }

  lemma {:induction false} LookupTwo(raw: Object, a: string, b: string)
    ensures Lookup(raw, [a, b]) == ValueUnder(Under(raw, a), b)
  {
    assert [a, b][1..] == [b];
  }

  lemma {:induction false} LookupThree(raw: Object, a: string, b: string, c: string)
    ensures Lookup(raw, [a, b, c]) == ValueUnder(Under(Under(raw, a), b), c)
  {
    assert [a, b, c][1..] == [b, c];
    LookupTwo(Under(raw, a), b, c);
  }

  lemma {:induction false} KeptFlag(raw: Object, k: Known)
    requires SectionOf(k) == []
    ensures Kept(raw, k) == KeptUnder(raw, k)
  {
    assert PathOf(k) == [KeyOf(k)];
  }

  lemma {:induction false} KeptInSection(raw: Object)
    ensures Kept(raw, AgentDefault) == KeptUnder(Agent(raw), AgentDefault)
    ensures Kept(raw, SyncSince) == KeptUnder(Automation(raw), SyncSince)
  {
    LookupTwo(raw, "agent", KeyOf(AgentDefault));
    LookupTwo(raw, "automation", KeyOf(SyncSince));
    assert PathOf(AgentDefault) == ["agent", KeyOf(AgentDefault)];
    assert PathOf(SyncSince) == ["automation", KeyOf(SyncSince)];
  }

  lemma {:induction false} KeptModel(raw: Object, id: Id)
    ensures Kept(raw, ModelOf(id)) == KeptUnder(ModelObject(raw), ModelOf(id))
  {
    LookupThree(raw, "agent", "models", IdText(id));
    assert PathOf(ModelOf(id)) == ["agent", "models", IdText(id)];
  }

  // ---- The settings in the order they are written -------------------------------------------------------

  const IDS := [Claude, Codex, Cursor]

  function ModelPairs(models: Object, ids: seq<Id>): seq<Assignment> {
    if ids == [] then []
    else ModelPairs(models, ids[..|ids| - 1]) + One(ModelOf(ids[|ids| - 1]), KeptUnder(models, ModelOf(ids[|ids| - 1])))
  }

  predicate AllIn(pairs: seq<Assignment>, section: seq<string>) {
    forall i :: 0 <= i < |pairs| ==> SectionOf(pairs[i].key) == section
  }

  lemma {:induction false} ModelPairsAreModels(models: Object, ids: seq<Id>)
    ensures AllIn(ModelPairs(models, ids), SectionOf(ModelOf(Claude)))
  {
    if ids != [] {
      ModelPairsAreModels(models, ids[..|ids| - 1]);
    }
  }

  function ModelKeys(ids: seq<Id>): seq<Known> {
    if ids == [] then [] else ModelKeys(ids[..|ids| - 1]) + [ModelOf(ids[|ids| - 1])]
  }

  lemma {:induction false} ModelsInOrder(raw: Object, before: seq<Known>, ids: seq<Id>)
    ensures Collected(before + ModelKeys(ids), KeptIn(raw)) == Collected(before, KeptIn(raw)) + ModelPairs(ModelObject(raw), ids)
  {
    if ids == [] {
      assert before + ModelKeys(ids) == before;
    } else {
      var init, last := ids[..|ids| - 1], ids[|ids| - 1];
      ModelsInOrder(raw, before, init);
      NextModel(raw, before + ModelKeys(init), Collected(before, KeptIn(raw)), ModelPairs(ModelObject(raw), init), last);
      Associate(before, ModelKeys(init), [ModelOf(last)]);
    }
  }

  lemma {:induction false} Associate<T>(a: seq<T>, b: seq<T>, c: seq<T>)
    ensures a + b + c == a + (b + c)
  {
  }

  lemma {:induction false} NextModel(raw: Object, order: seq<Known>, a: seq<Assignment>, b: seq<Assignment>, id: Id)
    requires Collected(order, KeptIn(raw)) == a + b
    ensures Collected(order + [ModelOf(id)], KeptIn(raw)) == a + (b + One(ModelOf(id), KeptUnder(ModelObject(raw), ModelOf(id))))
  {
    CollectedMore(raw, order, ModelOf(id));
    KeptModel(raw, id);
  }

  lemma {:induction false} CollectedMore(raw: Object, order: seq<Known>, last: Known)
    ensures Collected(order + [last], KeptIn(raw)) == Collected(order, KeptIn(raw)) + One(last, Kept(raw, last))
  {
    assert (order + [last])[..|order|] == order;
  }

  lemma {:induction false} SectionIsNew(order: seq<Known>, value: Known -> Option<Json>, section: seq<string>)
    requires section != [] && forall k :: k in order ==> SectionOf(k) != section
    ensures SectionAtEnd(Collected(order, value)) != section
  {
    CollectedKeys(order, value);
  }

  /** The written settings, flags first, then the agent's, then the models, then the date. */
  lemma {:induction false} WrittenParts(raw: Object)
    returns (flag: seq<Assignment>, flags: seq<Assignment>, agent: seq<Assignment>, models: seq<Assignment>)
    ensures flag == One(UpdateNotifier, KeptUnder(raw, UpdateNotifier))
    ensures flags == flag + One(AutoCommit, KeptUnder(raw, AutoCommit))
    ensures agent == flags + One(AgentDefault, KeptUnder(Agent(raw), AgentDefault))
    ensures models == agent + ModelPairs(ModelObject(raw), IDS)
    ensures Written(raw) == models + One(SyncSince, KeptUnder(Automation(raw), SyncSince))
    ensures SectionAtEnd(flag) == [] && SectionAtEnd(flags) == []
    ensures SectionAtEnd(agent) != SectionOf(ModelOf(Claude)) && SectionAtEnd(models) != SectionOf(SyncSince)
  {
    var value := KeptIn(raw);
    var second, third := [UpdateNotifier, AutoCommit], [UpdateNotifier, AutoCommit, AgentDefault];
    var sixth := third + ModelKeys(IDS);
    KeysOfModels();
    flag, flags := FlagParts(raw, [UpdateNotifier], second);
    agent, models := Collected(third, value), Collected(sixth, value);
    KeptInSection(raw);
    CollectedMore(raw, second, AgentDefault);
    assert second + [AgentDefault] == third;
    ModelsInOrder(raw, third, IDS);
    DateIsLast(raw, sixth);
    SectionsAreNew(value, third, sixth);
  }

  lemma {:induction false} DateIsLast(raw: Object, sixth: seq<Known>)
    requires sixth == [UpdateNotifier, AutoCommit, AgentDefault] + [ModelOf(Claude), ModelOf(Codex), ModelOf(Cursor)]
    ensures Written(raw) == Collected(sixth, KeptIn(raw)) + One(SyncSince, Kept(raw, SyncSince))
  {
    CollectedMore(raw, sixth, SyncSince);
    assert sixth + [SyncSince] == ORDER;
  }

  lemma {:induction false} FlagParts(raw: Object, first: seq<Known>, second: seq<Known>)
    returns (flag: seq<Assignment>, flags: seq<Assignment>)
    requires first == [UpdateNotifier] && second == [UpdateNotifier, AutoCommit]
    ensures flag == One(UpdateNotifier, KeptUnder(raw, UpdateNotifier))
    ensures flags == flag + One(AutoCommit, KeptUnder(raw, AutoCommit)) && flags == Collected(second, KeptIn(raw))
    ensures SectionAtEnd(flag) == [] && SectionAtEnd(flags) == []
  {
    flag, flags := Collected(first, KeptIn(raw)), Collected(second, KeptIn(raw));
    KeptFlag(raw, UpdateNotifier);
    KeptFlag(raw, AutoCommit);
    CollectedMore(raw, [], UpdateNotifier);
    CollectedMore(raw, first, AutoCommit);
    assert [] + first == first && first + [AutoCommit] == second;
    FlagsHaveNoSection(first, KeptIn(raw));
    FlagsHaveNoSection(second, KeptIn(raw));
  }

  lemma {:induction false} KeysOfModels()
    ensures ModelKeys(IDS) == [ModelOf(Claude), ModelOf(Codex), ModelOf(Cursor)]
  {
    var one, two := [Claude], [Claude, Codex];
    assert IDS[..2] == two && two[..1] == one && one[..0] == [];
    assert ModelKeys(one) == [] + [ModelOf(Claude)];
    assert ModelKeys(two) == ModelKeys(one) + [ModelOf(Codex)];
    assert ModelKeys(IDS) == ModelKeys(two) + [ModelOf(Cursor)];
  }

  lemma {:induction false} FlagsHaveNoSection(order: seq<Known>, value: Known -> Option<Json>)
    requires forall k :: k in order ==> SectionOf(k) == []
    ensures SectionAtEnd(Collected(order, value)) == []
  {
    CollectedKeys(order, value);
  }

  lemma {:induction false} SectionsAreNew(value: Known -> Option<Json>, third: seq<Known>, sixth: seq<Known>)
    requires third == [UpdateNotifier, AutoCommit, AgentDefault]
    requires forall k :: k in sixth ==> k in third || k.ModelOf?
    ensures SectionAtEnd(Collected(third, value)) != SectionOf(ModelOf(Claude))
    ensures SectionAtEnd(Collected(sixth, value)) != SectionOf(SyncSince)
  {
    TextsDiffer();
    SectionIsNew(third, value, SectionOf(ModelOf(Claude)));
    forall k | k in sixth ensures SectionOf(k) != SectionOf(SyncSince) {
      assert SectionOf(SyncSince)[0] == "automation";
    }
    SectionIsNew(sixth, value, SectionOf(SyncSince));
  }

  // ---- Their lines --------------------------------------------------------------------------------------

  lemma {:induction false} LinesMore(pairs: seq<Assignment>, last: Assignment)
    ensures LinesOf(pairs + [last]) == LinesOf(pairs) + OwnHeader(LinesOf(pairs), SectionAtEnd(pairs), last.key) + [LineOf(last)]
    ensures SectionAtEnd(pairs + [last]) == SectionOf(last.key)
  {
    assert (pairs + [last])[..|pairs|] == pairs;
  }

  lemma {:induction false} TextsMore(pairs: seq<Assignment>, last: Assignment)
    ensures TextsOf(pairs + [last]) == TextsOf(pairs) + [LineOf(last)]
  {
    assert (pairs + [last])[..|pairs|] == pairs;
  }

  /** A section of its own at the end of the lines. */
  lemma {:induction false} GroupLines(pairs: seq<Assignment>, group: seq<Assignment>, k: Known)
    requires group != [] && AllIn(group, SectionOf(k)) && SectionAtEnd(pairs) != SectionOf(k)
    ensures LinesOf(pairs + group) == LinesOf(pairs) + HeaderLines(LinesOf(pairs), SectionOf(k)) + TextsOf(group)
    ensures SectionAtEnd(pairs + group) == SectionOf(k)
  {
    var init, last := group[..|group| - 1], group[|group| - 1];
    assert group == init + [last];
    assert SectionOf(last.key) == SectionOf(k);
    if init == [] {
      FirstInGroup(pairs, last);
      assert group == [last];
    } else {
      assert forall i :: 0 <= i < |init| ==> init[i] == group[i];
      GroupLines(pairs, init, k);
      NextInGroup(pairs, init, last, LinesOf(pairs) + HeaderLines(LinesOf(pairs), SectionOf(k)));
    }
  }

  lemma {:induction false} FirstInGroup(pairs: seq<Assignment>, last: Assignment)
    requires SectionAtEnd(pairs) != SectionOf(last.key)
    ensures LinesOf(pairs + [last]) == LinesOf(pairs) + HeaderLines(LinesOf(pairs), SectionOf(last.key)) + TextsOf([last])
    ensures SectionAtEnd(pairs + [last]) == SectionOf(last.key)
  {
    OpensItsSection(pairs, last);
    TextsMore([], last);
    assert [] + [last] == [last] && TextsOf([]) + [LineOf(last)] == [LineOf(last)];
  }

  lemma {:induction false} NextInGroup(pairs: seq<Assignment>, init: seq<Assignment>, last: Assignment, before: seq<string>)
    requires SectionAtEnd(pairs + init) == SectionOf(last.key) && LinesOf(pairs + init) == before + TextsOf(init)
    ensures LinesOf(pairs + (init + [last])) == before + TextsOf(init + [last])
    ensures SectionAtEnd(pairs + (init + [last])) == SectionOf(last.key)
  {
    StaysInSection(pairs + init, last);
    TextsMore(init, last);
    Associate(before, TextsOf(init), [LineOf(last)]);
    Associate(pairs, init, [last]);
  }

  lemma {:induction false} OpensItsSection(pairs: seq<Assignment>, last: Assignment)
    requires SectionAtEnd(pairs) != SectionOf(last.key)
    ensures LinesOf(pairs + [last]) == LinesOf(pairs) + HeaderLines(LinesOf(pairs), SectionOf(last.key)) + [LineOf(last)]
    ensures SectionAtEnd(pairs + [last]) == SectionOf(last.key)
  {
    LinesMore(pairs, last);
  }

  lemma {:induction false} StaysInSection(pairs: seq<Assignment>, last: Assignment)
    requires SectionAtEnd(pairs) == SectionOf(last.key)
    ensures LinesOf(pairs + [last]) == LinesOf(pairs) + [LineOf(last)]
    ensures SectionAtEnd(pairs + [last]) == SectionOf(last.key)
  {
    LinesMore(pairs, last);
    assert LinesOf(pairs) + [] == LinesOf(pairs);
  }

  // ---- What is pushed when ------------------------------------------------------------------------------

  lemma {:induction false} KeptText(owner: Object, k: Known)
    requires k.AgentDefault? || k.SyncSince?
    ensures var key := KeyOf(k);
            One(k, KeptUnder(owner, k)) == if key in owner && owner[key].JString? then [Assignment(k, owner[key])] else []
  {
  }

  lemma {:induction false} KeptBool(owner: Object, k: Known)
    requires k.UpdateNotifier? || k.AutoCommit?
    ensures var key := KeyOf(k);
            One(k, KeptUnder(owner, k)) == if key in owner && owner[key].JBool? then [Assignment(k, owner[key])] else []
  {
  }

  // ---- The serialiser -----------------------------------------------------------------------------------

  /** One of the two flags, when it holds a boolean. */
  method PushFlag(lines: seq<string>, raw: Object, k: Known, ghost before: seq<Assignment>) returns (more: seq<string>)
    requires lines == LinesOf(before) && (k.UpdateNotifier? || k.AutoCommit?) && SectionAtEnd(before) == []
    ensures more == LinesOf(before + One(k, KeptUnder(raw, k)))
  {
    var key := KeyOf(k);
    KeptBool(raw, k);
    more := lines;
    if key in raw && raw[key].JBool? {
      StaysInSection(before, Assignment(k, raw[key]));
      more := more + [AssignmentText(key, raw[key])];
    } else {
      assert before + [] == before;
    }
  }

  /** The header of a section of its own. */
  method PushHeader(lines: seq<string>, section: seq<string>) returns (more: seq<string>)
    ensures more == lines + HeaderLines(lines, section)
  {
    more := lines;
    if |more| > 0 {
      more := more + [""];
    }
    more := more + [HeaderText(section)];
  }

  /** A setting that opens its own section, when it holds a text. */
  method PushText(lines: seq<string>, owner: Object, k: Known, ghost before: seq<Assignment>) returns (more: seq<string>)
    requires lines == LinesOf(before) && (k.AgentDefault? || k.SyncSince?) && SectionAtEnd(before) != SectionOf(k)
    ensures more == LinesOf(before + One(k, KeptUnder(owner, k)))
  {
    var key := KeyOf(k);
    KeptText(owner, k);
    if key in owner && owner[key].JString? {
      OpensItsSection(before, Assignment(k, owner[key]));
      more := PushHeader(lines, SectionOf(k));
      more := more + [AssignmentText(key, owner[key])];
    } else {
      assert before + [] == before;
      more := lines;
    }
  }

  /** The lines of the models that have one; a null model is written as `default`. */
  method ModelLines(models: Object, ids: seq<Id>) returns (lines: seq<string>)
    ensures lines == TextsOf(ModelPairs(models, ids))
  {
    lines := [];
    for i := 0 to |ids|
      invariant lines == TextsOf(ModelPairs(models, ids[..i]))
    {
      var id := ids[i];
      NextModelPair(models, ids, i);
      if IdText(id) !in models {
        continue;
      }
      var value := ShownModel(models[IdText(id)]);
      if value.JString? && |value.text| > 0 {
        TextsMore(ModelPairs(models, ids[..i]), Assignment(ModelOf(id), value));
        lines := lines + [AssignmentText(IdText(id), value)];
      }
    }
    assert ids[..|ids|] == ids;
  }

  function ShownModel(value: Json): Json {
    if value.JNull? then JString("default") else value
  }

  lemma {:induction false} NextModelPair(models: Object, ids: seq<Id>, i: nat)
    requires i < |ids|
    ensures var id, before, after := ids[i], ModelPairs(models, ids[..i]), ModelPairs(models, ids[..i + 1]);
            if IdText(id) !in models then after == before
            else
              var value := ShownModel(models[IdText(id)]);
              if value.JString? && |value.text| > 0 then after == before + [Assignment(ModelOf(id), value)] else after == before
  {
    assert ids[..i + 1][..i] == ids[..i];
    ShownIsKept(models, ids[i]);
    Associate(ModelPairs(models, ids[..i]), [], []);
  }

  lemma {:induction false} ShownIsKept(models: Object, id: Id)
    ensures KeptUnder(models, ModelOf(id)) ==
            if IdText(id) !in models then None
            else
              var value := ShownModel(models[IdText(id)]);
              if value.JString? && |value.text| > 0 then Some(value) else None
  {
  }

  /** The models, in their own section when there are any. */
  method PushModels(lines: seq<string>, models: Object, ghost before: seq<Assignment>) returns (more: seq<string>)
    requires lines == LinesOf(before) && SectionAtEnd(before) != SectionOf(ModelOf(Claude))
    ensures more == LinesOf(before + ModelPairs(models, IDS))
  {
    var modelLines := ModelLines(models, IDS);
    ghost var group := ModelPairs(models, IDS);
    if |modelLines| > 0 {
      ModelPairsAreModels(models, IDS);
      GroupLines(before, group, ModelOf(Claude));
      more := PushHeader(lines, SectionOf(ModelOf(Claude)));
      more := more + modelLines;
    } else {
      assert before + group == before;
      more := lines;
    }
  }

  /** `serializeTomlConfig`. */
  method SerializeTomlConfig(raw: Object) returns (text: string)
    ensures text == SerializedText(raw)
  {
    ghost var flag, flags, agent, models := WrittenParts(raw);
    var lines: seq<string> := [];
    assert [] + flag == flag;
    lines := PushFlag(lines, raw, UpdateNotifier, []);
    lines := PushFlag(lines, raw, AutoCommit, flag);
    lines := PushText(lines, Agent(raw), AgentDefault, flags);
    lines := PushModels(lines, ModelObject(raw), agent);
    lines := PushText(lines, Automation(raw), SyncSince, models);
    text := Join(lines) + "\n";
  }

  // ---- The config file ----------------------------------------------------------------------------------

  lemma {:induction false} TrimmedIsTight(s: string)
    ensures Tight(Trim(s))
  {
    TrimStartFacts(s);
    TrimEndFacts(TrimStart(s));
  }

  lemma {:induction false} TrimStartFacts(s: string)
    ensures TrimStart(s) == "" || !JsSpace(TrimStart(s)[0])
  {
    if s != "" && JsSpace(s[0]) {
      TrimStartFacts(s[1..]);
    }
  }

  lemma {:induction false} TrimEndFacts(s: string)
    ensures TrimEnd(s) <= s && (TrimEnd(s) == "" || !JsSpace(TrimEnd(s)[|TrimEnd(s)| - 1]))
  {
    if s != "" && JsSpace(s[|s| - 1]) {
      TrimEndFacts(s[..|s| - 1]);
    }
  }

  lemma {:induction false} NothingIsDefault(isDate: string -> bool)
    ensures Normalized(map[], isDate) == DEFAULTS
  {
    LookupNothing(PathOf(UpdateNotifier));
    LookupNothing(PathOf(AutoCommit));
    LookupNothing(PathOf(AgentDefault));
    LookupNothing(PathOf(ModelOf(Claude)));
    LookupNothing(PathOf(ModelOf(Codex)));
    LookupNothing(PathOf(ModelOf(Cursor)));
    LookupNothing(PathOf(SyncSince));
    LookupNothing(PathOf(CaptureSince));
  }

  /** `readRawConfigObject`: a missing file, or one that cannot be parsed, is an empty object. */
  function RawOf(text: Option<string>, json: string -> Option<Object>): Object {
    if text.Some? && ReadText(text.value, json).Some? then ReadText(text.value, json).value else map[]
  }

  /** The text of the file, if it is there. */
  class ConfigFile {
    var text: Option<string>

    constructor (text: Option<string>)
      ensures this.text == text
    {
      this.text := text;
    }

    /** `readSingleConfig`: what `readRawConfigObject` reads, normalised; so the defaults for a missing, blank or malformed file. */
    method ReadSingleConfig(json: string -> Option<Object>, isDate: string -> bool) returns (config: Config)
      ensures text.None? || Trim(text.value) == "" || ReadText(text.value, json).None? ==> config == DEFAULTS
      ensures config == Normalized(RawOf(text, json), isDate)
    {
      NothingIsDefault(isDate);
      if text.None? {
        return DEFAULTS;
      }
      var trimmed := Trim(text.value);
      if trimmed == "" {
        return DEFAULTS;
      }
      TrimmedIsTight(text.value);
      TrimLeadingSpace(trimmed);
      var raw := ReadText(trimmed, json);
      config := if raw.Some? then Normalized(raw.value, isDate) else DEFAULTS;
    }

    /** `writeConfig` for a TOML path: the file then holds what the patch stores, and reads as the patched configuration
        exactly when every patched model name reads back and no date from the legacy key alone is left unpatched. */
    method WriteConfig(patch: Patch, json: string -> Option<Object>, isDate: string -> bool)
      modifies this
      ensures var raw := old(RawOf(text, json));
              var current := Normalized(raw, isDate);
              && text == Some(SerializedText(StoredPatch(raw, current, patch, isDate)))
              && (Normalized(RawOf(text, json), isDate) == Patched(current, patch, isDate) <==>
                  ModelsReadBack(patch) && (!LegacyOnly(raw, isDate) || SyncChanges(current, patch, isDate)))
    {
      var current := ReadSingleConfig(json, isDate);
      var existing := RawOf(text, json);
      var stored := StoredPatch(existing, current, patch, isDate);
      var body := SerializeTomlConfig(stored);
      RoundTrip(stored, json);
      text := Some(body);
      PatchThenRead(existing, patch, RawOf(text, json), isDate);
    }
  }
}
