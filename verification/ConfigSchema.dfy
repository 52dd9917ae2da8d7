/** The archived configuration over its raw JSON object: reading it with defaults, patching what is stored,
    and what a write and a read make of it. */
module ConfigSchema {
  import opened Outcomes
  import opened ConfigObjects

  datatype Id = Claude | Codex | Cursor

  /** The settings the configuration knows, and the legacy name of the last. */
  datatype Known = UpdateNotifier | AutoCommit | AgentDefault | ModelOf(id: Id) | SyncSince | CaptureSince

  function IdText(id: Id): string {
    match id
    case Claude => "claude"
    case Codex => "codex"
    case Cursor => "cursor"
  }

  function IdOf(text: string): Option<Id> {
    if text == "claude" then Some(Claude) else if text == "codex" then Some(Codex) else if text == "cursor" then Some(Cursor) else None
  }

  function SectionOf(k: Known): seq<string> {
    match k
    case UpdateNotifier => []
    case AutoCommit => []
    case AgentDefault => ["agent"]
    case ModelOf(_) => ["agent", "models"]
    case SyncSince => ["automation"]
    case CaptureSince => ["automation"]
  }

  function KeyOf(k: Known): string {
    match k
    case UpdateNotifier => "update_notifier"
    case AutoCommit => "auto_commit"
    case AgentDefault => "default"
    case ModelOf(id) => IdText(id)
    case SyncSince => "sync_since"
    case CaptureSince => "capture_since"
  }

  function PathOf(k: Known): Path {
    SectionOf(k) + [KeyOf(k)]
  }

  lemma {:induction false} IdTextsDiffer(a: Id, b: Id)
    ensures IdText(a) == IdText(b) <==> a == b
    ensures IdOf(IdText(a)) == Some(a)
  {
    assert IdText(Claude)[1] == 'l' && IdText(Codex)[1] == 'o' && IdText(Cursor)[1] == 'u';
  }

  /** Known paths do not lead through each other. */
  lemma {:induction false} KnownApart(a: Known, b: Known)
    ensures Apart(PathOf(a), PathOf(b)) && (PathOf(a) == PathOf(b) <==> a == b)
  {
    if a.ModelOf? && b.ModelOf? {
      IdTextsDiffer(a.id, b.id);
      assert PathOf(a)[2] == IdText(a.id) && PathOf(b)[2] == IdText(b.id);
    } else {
      OtherwiseApart(a, b);
    }
  }

  lemma {:induction false} DifferSomewhere(p: Path, q: Path, i: nat)
    requires i < |p| && i < |q| && p[i] != q[i]
    ensures Apart(p, q) && p != q
  {
  }

  lemma {:induction false} TextsDiffer()
    ensures "update_notifier" != "auto_commit" && "update_notifier" != "agent" && "update_notifier" != "automation"
    ensures "auto_commit" != "agent" && "auto_commit" != "automation" && "agent" != "automation"
    ensures "default" != "models" && "sync_since" != "capture_since"
  {
    assert "update_notifier"[0] == 'u' && "auto_commit"[1] == 'u' && "agent"[1] == 'g' && "automation"[4] == 'm' && "auto_commit"[4] == '_';
    assert "default"[0] == 'd' && "models"[0] == 'm' && "sync_since"[0] == 's' && "capture_since"[0] == 'c';
  }

  lemma {:induction false} OtherwiseApart(a: Known, b: Known)
    requires !a.ModelOf? || !b.ModelOf?
    ensures Apart(PathOf(a), PathOf(b)) && (PathOf(a) == PathOf(b) <==> a == b)
  {
    TextsDiffer();
    var p, q := PathOf(a), PathOf(b);
    if p[0] != q[0] {
      DifferSomewhere(p, q, 0);
    } else if a != b {
      DifferSomewhere(p, q, 1);
    }
  }

  function At(raw: Object, k: Known): Option<Json> {
    Lookup(raw, PathOf(k))
  }

  // ---- Reading with defaults ------------------------------------------------------------------------

  /** A model name for each provider; none means the provider's own default. */
  datatype Models = Models(claude: Option<string>, codex: Option<string>, cursor: Option<string>)

  datatype Config = Config(updateNotifier: bool, autoCommit: bool, agentDefault: Id, models: Models, syncSince: Option<string>)

  function ModelAt(models: Models, id: Id): Option<string> {
    match id
    case Claude => models.claude
    case Codex => models.codex
    case Cursor => models.cursor
  }

  const DEFAULTS := Config(true, false, Codex, Models(None, None, None), None)

  function BoolOr(value: Option<Json>, fallback: bool): bool {
    if value.Some? && value.value.JBool? then value.value.flag else fallback
  }

  function TextIn(value: Option<Json>): Option<string> {
    if value.Some? && value.value.JString? then Some(value.value.text) else None
  }

  function AgentIn(value: Option<Json>): Id {
    if TextIn(value).Some? && IdOf(TextIn(value).value).Some? then IdOf(TextIn(value).value).value else DEFAULTS.agentDefault
  }

  function ModelIn(value: Option<Json>): Option<string> {
    var text := TextIn(value);
    if text.Some? && text.value != "" && text.value != "default" && text.value != "null" then text else None
  }

  /** A timestamp counts only when `Date.parse` understands it. */
  function DateIn(value: Option<Json>, isDate: string -> bool): Option<string> {
    var text := TextIn(value);
    if text.Some? && isDate(text.value) then text else None
  }

  /** `normalizeRawConfig`. */
  function Normalized(raw: Object, isDate: string -> bool): Config {
    Config(BoolOr(At(raw, UpdateNotifier), DEFAULTS.updateNotifier),
           BoolOr(At(raw, AutoCommit), DEFAULTS.autoCommit),
           AgentIn(At(raw, AgentDefault)),
           Models(ModelIn(At(raw, ModelOf(Claude))), ModelIn(At(raw, ModelOf(Codex))), ModelIn(At(raw, ModelOf(Cursor)))),
           if DateIn(At(raw, SyncSince), isDate).Some? then DateIn(At(raw, SyncSince), isDate)
           else DateIn(At(raw, CaptureSince), isDate))
  }

  // ---- What a written configuration keeps -------------------------------------------------------------

  /** What `serializeTomlConfig` writes for the value of a setting, if it writes one. */
  function KeptValue(k: Known, value: Option<Json>): Option<Json> {
    if value.None? then None
    else match k
      case UpdateNotifier => if value.value.JBool? then value else None
      case AutoCommit => if value.value.JBool? then value else None
      case ModelOf(_) =>
        if value.value.JNull? then Some(JString("default"))
        else if value.value.JString? && value.value.text != "" then value else None
      case CaptureSince => None
      case _ => if value.value.JString? then value else None
  }

  function Kept(raw: Object, k: Known): Option<Json> {
    KeptValue(k, At(raw, k))
  }

  /** An object from which exactly the written settings of another are read. */
  ghost predicate KeepsOf(raw: Object, written: Object) {
    forall k {:trigger At(written, k)} :: At(written, k) == Kept(raw, k)
  }

  /** Only the legacy key says since when to sync. */
  predicate LegacyOnly(raw: Object, isDate: string -> bool) {
    DateIn(At(raw, SyncSince), isDate).None? && DateIn(At(raw, CaptureSince), isDate).Some?
  }

  /** A reader gets the same from what is written as from what was there. */
  lemma {:induction false} KeptReads(value: Option<Json>, id: Id, fallback: bool, isDate: string -> bool)
    ensures BoolOr(KeptValue(UpdateNotifier, value), fallback) == BoolOr(value, fallback)
    ensures BoolOr(KeptValue(AutoCommit, value), fallback) == BoolOr(value, fallback)
    ensures AgentIn(KeptValue(AgentDefault, value)) == AgentIn(value)
    ensures ModelIn(KeptValue(ModelOf(id), value)) == ModelIn(value)
    ensures DateIn(KeptValue(SyncSince, value), isDate) == DateIn(value, isDate)
    ensures DateIn(KeptValue(CaptureSince, value), isDate) == None
  {
  }

  /** Writing and reading back keeps every setting the reader sees, but a date that only the legacy key gives. */
  lemma {:induction false} WrittenIsRead(raw: Object, written: Object, isDate: string -> bool)
    requires KeepsOf(raw, written)
    ensures Normalized(written, isDate) == Normalized(raw, isDate).(
              syncSince := if LegacyOnly(raw, isDate) then None else Normalized(raw, isDate).syncSince)
    ensures Normalized(written, isDate) == Normalized(raw, isDate) <==> !LegacyOnly(raw, isDate)
  {
    forall k ensures At(written, k) == KeptValue(k, At(raw, k)) {
      assert At(written, k) == Kept(raw, k);
    }
    KeptReads(At(raw, UpdateNotifier), Claude, DEFAULTS.updateNotifier, isDate);
    KeptReads(At(raw, AutoCommit), Claude, DEFAULTS.autoCommit, isDate);
    KeptReads(At(raw, AgentDefault), Claude, true, isDate);
    KeptReads(At(raw, ModelOf(Claude)), Claude, true, isDate);
    KeptReads(At(raw, ModelOf(Codex)), Codex, true, isDate);
    KeptReads(At(raw, ModelOf(Cursor)), Cursor, true, isDate);
    KeptReads(At(raw, SyncSince), Claude, true, isDate);
    KeptReads(At(raw, CaptureSince), Claude, true, isDate);
  }

  // ---- Assignments ----------------------------------------------------------------------------------

  datatype Assignment = Assignment(key: Known, value: Json)

  function Assigned(raw: Object, pairs: seq<Assignment>): Object {
    if pairs == [] then raw
    else SetPath(Assigned(raw, pairs[..|pairs| - 1]), PathOf(pairs[|pairs| - 1].key), pairs[|pairs| - 1].value)
  }

  function LastFor(pairs: seq<Assignment>, k: Known): Option<Json> {
    if pairs == [] then None
    else if pairs[|pairs| - 1].key == k then Some(pairs[|pairs| - 1].value)
    else LastFor(pairs[..|pairs| - 1], k)
  }

  lemma {:induction false} AssignedAt(raw: Object, pairs: seq<Assignment>, k: Known)
    ensures At(Assigned(raw, pairs), k) == if LastFor(pairs, k).Some? then LastFor(pairs, k) else At(raw, k)
  {
    if pairs != [] {
      var init, last := pairs[..|pairs| - 1], pairs[|pairs| - 1];
      AssignedAt(raw, init, k);
      KnownApart(last.key, k);
      SetThenLookup(Assigned(raw, init), PathOf(last.key), last.value, PathOf(k));
    }
  }

  lemma {:induction false} LastForBoth(a: seq<Assignment>, b: seq<Assignment>, k: Known)
    ensures LastFor(a + b, k) == if LastFor(b, k).Some? then LastFor(b, k) else LastFor(a, k)
  {
    if b == [] {
      assert a + b == a;
    } else {
      LastForBoth(a, b[..|b| - 1], k);
      assert (a + b)[..|a + b| - 1] == a + b[..|b| - 1];
    }
  }

  function One(k: Known, value: Option<Json>): seq<Assignment> {
    if value.Some? then [Assignment(k, value.value)] else []
  }

  lemma {:induction false} LastOfOne(k: Known, value: Option<Json>, other: Known)
    ensures LastFor(One(k, value), other) == if other == k then value else None
  {
    if value.Some? {
      assert One(k, value)[..0] == [];
    }
  }

  /** Settings in a given order with the values a function gives them. */
  function Collected(order: seq<Known>, value: Known -> Option<Json>): seq<Assignment> {
    if order == [] then [] else Collected(order[..|order| - 1], value) + One(order[|order| - 1], value(order[|order| - 1]))
  }

  lemma {:induction false} CollectedAt(order: seq<Known>, value: Known -> Option<Json>, k: Known)
    ensures LastFor(Collected(order, value), k) == if k in order then value(k) else None
  {
    if order != [] {
      var init, last := order[..|order| - 1], order[|order| - 1];
      CollectedAt(init, value, k);
      LastForBoth(Collected(init, value), One(last, value(last)), k);
      LastOfOne(last, value(last), k);
      assert order == init + [last];
    }
  }

  /** The order in which settings are written; the legacy key never is. */
  const ORDER := [UpdateNotifier, AutoCommit, AgentDefault, ModelOf(Claude), ModelOf(Codex), ModelOf(Cursor), SyncSince]

  lemma {:induction false} OrderIsComplete(k: Known)
    ensures k in ORDER <==> k != CaptureSince
  {
    assert ORDER[0] == UpdateNotifier && ORDER[1] == AutoCommit && ORDER[2] == AgentDefault && ORDER[6] == SyncSince;
    assert ORDER[3] == ModelOf(Claude) && ORDER[4] == ModelOf(Codex) && ORDER[5] == ModelOf(Cursor);
    if k.ModelOf? {
      match k.id
      case Claude => assert k == ModelOf(Claude);
      case Codex => assert k == ModelOf(Codex);
      case Cursor => assert k == ModelOf(Cursor);
    }
  }

  function KeptIn(raw: Object): Known -> Option<Json> {
    k => Kept(raw, k)
  }

  function Written(raw: Object): seq<Assignment> {
    Collected(ORDER, KeptIn(raw))
  }

  /** Reading the written settings one by one into an empty object gives an object that keeps them. */
  lemma {:induction false} WrittenKeeps(raw: Object)
    ensures KeepsOf(raw, Assigned(map[], Written(raw)))
  {
    forall k ensures At(Assigned(map[], Written(raw)), k) == Kept(raw, k) {
      AssignedAt(map[], Written(raw), k);
      CollectedAt(ORDER, KeptIn(raw), k);
      OrderIsComplete(k);
      LookupNothing(PathOf(k));
    }
  }

  // ---- Patching -------------------------------------------------------------------------------------

  datatype AgentPatch = AgentPatch(default_: Option<string>, models: map<Id, Option<string>>)

  /** `Partial<GlobalConfig>`: what is absent is left alone; `automation` carries its `sync_since`. */
  datatype Patch = Patch(updateNotifier: Option<bool>, autoCommit: Option<bool>, agent: Option<AgentPatch>, automation: Option<Option<string>>)

  function AgentValue(text: string): Id {
    if IdOf(text).Some? then IdOf(text).value else DEFAULTS.agentDefault
  }

  function SyncValue(value: Option<string>, isDate: string -> bool): Option<string> {
    if value.Some? && isDate(value.value) then value else None
  }

  function JsonOf(text: Option<string>): Json {
    if text.Some? then JString(text.value) else JNull
  }

  /** The value a patch stores for a setting: none when it leaves the setting alone or agrees with what is read already. */
  function Stored(current: Config, patch: Patch, isDate: string -> bool, k: Known): Option<Json>
  {
    match k
    case UpdateNotifier =>
      if patch.updateNotifier.Some? && patch.updateNotifier.value != current.updateNotifier then Some(JBool(patch.updateNotifier.value)) else None
    case AutoCommit =>
      if patch.autoCommit.Some? && patch.autoCommit.value != current.autoCommit then Some(JBool(patch.autoCommit.value)) else None
    case AgentDefault =>
      if patch.agent.Some? && patch.agent.value.default_.Some? && AgentValue(patch.agent.value.default_.value) != current.agentDefault
      then Some(JString(IdText(AgentValue(patch.agent.value.default_.value)))) else None
    case ModelOf(id) =>
      if patch.agent.Some? && id in patch.agent.value.models && patch.agent.value.models[id] != ModelAt(current.models, id)
      then Some(JsonOf(patch.agent.value.models[id])) else None
    case SyncSince =>
      if patch.automation.Some? && SyncValue(patch.automation.value, isDate) != current.syncSince
      then Some(JsonOf(SyncValue(patch.automation.value, isDate))) else None
    case CaptureSince => None
  }

  /** `toStoredConfigPatch`: a changed date also removes the legacy key; empty objects are pruned. */
  function StoredPatch(raw: Object, current: Config, patch: Patch, isDate: string -> bool): Object
  {
    var patched := Assigned(raw, Collected(ORDER, k => Stored(current, patch, isDate, k)));
    Pruned(if Stored(current, patch, isDate, SyncSince).Some? then RemovePath(patched, PathOf(CaptureSince)) else patched)
  }

  function PatchedModel(current: Config, patch: Patch, id: Id): Option<string> {
    if patch.agent.Some? && id in patch.agent.value.models then patch.agent.value.models[id] else ModelAt(current.models, id)
  }

  /** What the patched configuration should read as. */
  function Patched(current: Config, patch: Patch, isDate: string -> bool): Config
  {
    Config(if patch.updateNotifier.Some? then patch.updateNotifier.value else current.updateNotifier,
           if patch.autoCommit.Some? then patch.autoCommit.value else current.autoCommit,
           if patch.agent.Some? && patch.agent.value.default_.Some? then AgentValue(patch.agent.value.default_.value) else current.agentDefault,
           Models(PatchedModel(current, patch, Claude), PatchedModel(current, patch, Codex), PatchedModel(current, patch, Cursor)),
           if patch.automation.Some? then SyncValue(patch.automation.value, isDate) else current.syncSince)
  }

  /** A model name that reads back as itself: none, or one that is neither empty nor a word for none. */
  predicate ModelReadsBack(model: Option<string>) {
    model.None? || (model.value != "" && model.value != "default" && model.value != "null")
  }

  predicate ModelIsFine(patch: Patch, id: Id) {
    patch.agent.Some? && id in patch.agent.value.models ==> ModelReadsBack(patch.agent.value.models[id])
  }

  predicate ModelsReadBack(patch: Patch) {
    forall id: Id :: ModelIsFine(patch, id)
  }

  predicate SyncChanges(current: Config, patch: Patch, isDate: string -> bool) {
    patch.automation.Some? && SyncValue(patch.automation.value, isDate) != current.syncSince
  }

  lemma {:induction false} PruneKeepsKept(raw: Object, k: Known)
    ensures Kept(Pruned(raw), k) == Kept(raw, k)
  {
    PruneKeepsLeaves(raw, PathOf(k));
  }

  /** A setting after patching is written with the stored value, or as what was there. */
  lemma {:induction false} StoredAt(raw: Object, current: Config, patch: Patch, isDate: string -> bool, k: Known)
    ensures var stored := Stored(current, patch, isDate, k);
            Kept(StoredPatch(raw, current, patch, isDate), k) == KeptValue(k, if stored.Some? then stored else At(raw, k))
  {
    var value := (k: Known) => Stored(current, patch, isDate, k);
    var pairs := Collected(ORDER, value);
    var patched := Assigned(raw, pairs);
    var removed := if value(SyncSince).Some? then RemovePath(patched, PathOf(CaptureSince)) else patched;
    AssignedAt(raw, pairs, k);
    CollectedAt(ORDER, value, k);
    OrderIsComplete(k);
    KnownApart(CaptureSince, k);
    RemoveThenLookup(patched, PathOf(CaptureSince), PathOf(k));
    PruneKeepsKept(removed, k);
    assert StoredPatch(raw, current, patch, isDate) == Pruned(removed);
  }

  /** What stands for a setting after `writeConfig` wrote the patch and the file was read again. */
  lemma {:induction false} AfterPatch(raw: Object, patch: Patch, written: Object, isDate: string -> bool, k: Known)
    requires KeepsOf(StoredPatch(raw, Normalized(raw, isDate), patch, isDate), written)
    ensures var stored := Stored(Normalized(raw, isDate), patch, isDate, k);
            At(written, k) == KeptValue(k, if stored.Some? then stored else At(raw, k))
  {
    assert At(written, k) == Kept(StoredPatch(raw, Normalized(raw, isDate), patch, isDate), k);
    StoredAt(raw, Normalized(raw, isDate), patch, isDate, k);
  }

  lemma {:induction false} PatchedFlags(raw: Object, patch: Patch, written: Object, isDate: string -> bool)
    requires KeepsOf(StoredPatch(raw, Normalized(raw, isDate), patch, isDate), written)
    ensures var wanted := Patched(Normalized(raw, isDate), patch, isDate);
            && Normalized(written, isDate).updateNotifier == wanted.updateNotifier
            && Normalized(written, isDate).autoCommit == wanted.autoCommit
  {
    AfterPatch(raw, patch, written, isDate, UpdateNotifier);
    AfterPatch(raw, patch, written, isDate, AutoCommit);
  }

  /** A provider written over what was read comes back. */
  lemma {:induction false} AgentComesBack(before: Option<Json>, patched: bool, id: Id)
    ensures var stored := if patched && id != AgentIn(before) then Some(JString(IdText(id))) else None;
            AgentIn(KeptValue(AgentDefault, if stored.Some? then stored else before)) == if patched then id else AgentIn(before)
  {
    IdTextsDiffer(id, id);
  }

  lemma {:induction false} PatchedAgent(raw: Object, patch: Patch, written: Object, isDate: string -> bool)
    requires KeepsOf(StoredPatch(raw, Normalized(raw, isDate), patch, isDate), written)
    ensures Normalized(written, isDate).agentDefault == Patched(Normalized(raw, isDate), patch, isDate).agentDefault
  {
    var patched := patch.agent.Some? && patch.agent.value.default_.Some?;
    AfterPatch(raw, patch, written, isDate, AgentDefault);
    AgentComesBack(At(raw, AgentDefault), patched, if patched then AgentValue(patch.agent.value.default_.value) else Codex);
  }

  /** A model name written over what was read, or left, comes back exactly when it reads back as itself. */
  lemma {:induction false} ModelComesBack(before: Option<Json>, patched: bool, model: Option<string>, id: Id)
    ensures var stored := if patched && model != ModelIn(before) then Some(JsonOf(model)) else None;
            var after := ModelIn(KeptValue(ModelOf(id), if stored.Some? then stored else before));
            after == (if patched then model else ModelIn(before)) <==> (patched ==> ModelReadsBack(model))
  {
  }

  lemma {:induction false} ModelAfterPatch(raw: Object, patch: Patch, written: Object, isDate: string -> bool, id: Id)
    requires KeepsOf(StoredPatch(raw, Normalized(raw, isDate), patch, isDate), written)
    ensures ModelIn(At(written, ModelOf(id))) == PatchedModel(Normalized(raw, isDate), patch, id) <==> ModelIsFine(patch, id)
  {
    var patched := patch.agent.Some? && id in patch.agent.value.models;
    AfterPatch(raw, patch, written, isDate, ModelOf(id));
    assert ModelAt(Normalized(raw, isDate).models, id) == ModelIn(At(raw, ModelOf(id)));
    ModelComesBack(At(raw, ModelOf(id)), patched, if patched then patch.agent.value.models[id] else None, id);
  }

  lemma {:induction false} PatchedModels(raw: Object, patch: Patch, written: Object, isDate: string -> bool)
    requires KeepsOf(StoredPatch(raw, Normalized(raw, isDate), patch, isDate), written)
    ensures Normalized(written, isDate).models == Patched(Normalized(raw, isDate), patch, isDate).models <==> ModelsReadBack(patch)
  {
    ModelAfterPatch(raw, patch, written, isDate, Claude);
    ModelAfterPatch(raw, patch, written, isDate, Codex);
    ModelAfterPatch(raw, patch, written, isDate, Cursor);
    FineIsAll(patch);
  }

  lemma {:induction false} FineIsAll(patch: Patch)
    ensures ModelsReadBack(patch) <==> ModelIsFine(patch, Claude) && ModelIsFine(patch, Codex) && ModelIsFine(patch, Cursor)
  {
    if ModelIsFine(patch, Claude) && ModelIsFine(patch, Codex) && ModelIsFine(patch, Cursor) {
      forall id: Id ensures ModelIsFine(patch, id) {
        match id
        case Claude =>
        case Codex =>
        case Cursor =>
      }
    }
  }

  lemma {:induction false} PatchedSync(raw: Object, patch: Patch, written: Object, isDate: string -> bool)
    requires KeepsOf(StoredPatch(raw, Normalized(raw, isDate), patch, isDate), written)
    ensures var current := Normalized(raw, isDate);
            Normalized(written, isDate).syncSince == Patched(current, patch, isDate).syncSince <==>
            !LegacyOnly(raw, isDate) || SyncChanges(current, patch, isDate)
  {
    AfterPatch(raw, patch, written, isDate, SyncSince);
    AfterPatch(raw, patch, written, isDate, CaptureSince);
    SyncComesBack(At(raw, SyncSince), At(raw, CaptureSince), patch.automation, isDate);
  }

  function SyncIn(sync: Option<Json>, capture: Option<Json>, isDate: string -> bool): Option<string> {
    if DateIn(sync, isDate).Some? then DateIn(sync, isDate) else DateIn(capture, isDate)
  }

  /** A date written over what was read, or left, comes back unless it was given by the legacy key and left. */
  lemma {:induction false} SyncComesBack(sync: Option<Json>, capture: Option<Json>, automation: Option<Option<string>>, isDate: string -> bool)
    ensures var current := SyncIn(sync, capture, isDate);
            var changed := automation.Some? && SyncValue(automation.value, isDate) != current;
            var stored := if changed then Some(JsonOf(SyncValue(automation.value, isDate))) else None;
            var after := SyncIn(KeptValue(SyncSince, if stored.Some? then stored else sync), None, isDate);
            after == (if automation.Some? then SyncValue(automation.value, isDate) else current) <==>
            changed || DateIn(sync, isDate).Some? || DateIn(capture, isDate).None?
  {
  }

  /** Writing a patch and reading gives the patched settings and the old values elsewhere exactly when every patched model
      name reads back as itself, and no date from the legacy key alone is left unpatched. */
  lemma {:induction false} PatchThenRead(raw: Object, patch: Patch, written: Object, isDate: string -> bool)
    requires KeepsOf(StoredPatch(raw, Normalized(raw, isDate), patch, isDate), written)
    ensures Normalized(written, isDate) == Patched(Normalized(raw, isDate), patch, isDate) <==>
            ModelsReadBack(patch) && (!LegacyOnly(raw, isDate) || SyncChanges(Normalized(raw, isDate), patch, isDate))
  {
    PatchedFlags(raw, patch, written, isDate);
    PatchedAgent(raw, patch, written, isDate);
    PatchedModels(raw, patch, written, isDate);
    PatchedSync(raw, patch, written, isDate);
    SameConfig(Normalized(written, isDate), Patched(Normalized(raw, isDate), patch, isDate));
  }

  lemma {:induction false} SameConfig(a: Config, b: Config)
    ensures a == b <==> a.updateNotifier == b.updateNotifier && a.autoCommit == b.autoCommit && a.agentDefault == b.agentDefault
                        && a.models == b.models && a.syncSince == b.syncSince
  {
  }

  /** For instance a patch that names a model `default`, over whatever is there. */
  lemma DefaultIsNoModelName(raw: Object, written: Object, isDate: string -> bool)
    requires var patch := Patch(None, None, Some(AgentPatch(None, map[Claude := Some("default")])), None);
             KeepsOf(StoredPatch(raw, Normalized(raw, isDate), patch, isDate), written)
    ensures var patch := Patch(None, None, Some(AgentPatch(None, map[Claude := Some("default")])), None);
            Normalized(written, isDate) != Patched(Normalized(raw, isDate), patch, isDate)
  {
    var patch := Patch(None, None, Some(AgentPatch(None, map[Claude := Some("default")])), None);
    assert !ModelIsFine(patch, Claude);
    PatchThenRead(raw, patch, written, isDate);
  }

  /** An object whose only setting is a date under the legacy key. */
  function LegacyObject(date: string): Object {
    SetPath(map[], PathOf(CaptureSince), JString(date))
  }

  lemma {:induction false} LegacyObjectIsRead(date: string, isDate: string -> bool)
    requires isDate(date)
    ensures LegacyOnly(LegacyObject(date), isDate) && Normalized(LegacyObject(date), isDate).syncSince == Some(date)
  {
    LegacyObjectAt(date, CaptureSince);
    LegacyObjectAt(date, SyncSince);
  }

  lemma {:induction false} LegacyObjectAt(date: string, k: Known)
    ensures At(LegacyObject(date), k) == if k == CaptureSince then Some(JString(date)) else None
  {
    KnownApart(CaptureSince, k);
    SetThenLookup(map[], PathOf(CaptureSince), JString(date), PathOf(k));
    LookupNothing(PathOf(k));
  }
}
