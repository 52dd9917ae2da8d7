/** JSON objects of the archived configuration: values at paths, set, removed and pruned. */
module ConfigObjects {
  import opened Outcomes

  datatype Json = JNull | JBool(flag: bool) | JString(text: string) | JNumber(number: real) | JArray(items: seq<Json>) | JObject(fields: Object)

  type Object = map<string, Json>

  type Path = p: seq<string> | p != [] witness ["k"]

  /** The object under a key; whatever else stands there counts as an empty one. */
  function Under(raw: Object, key: string): Object {
    if key in raw && raw[key].JObject? then raw[key].fields else map[]
  }

  function Lookup(raw: Object, path: Path): Option<Json>
    decreases |path|
  {
    if |path| == 1 then if path[0] in raw then Some(raw[path[0]]) else None
    else Lookup(Under(raw, path[0]), path[1..])
  }

  /** `setObjectPath` and `setStoredValue`: objects are made on the way where there is none. */
  function SetPath(raw: Object, path: Path, value: Json): Object
    decreases |path|
  {
    if |path| == 1 then raw[path[0] := value]
    else raw[path[0] := JObject(SetPath(Under(raw, path[0]), path[1..], value))]
  }

  /** `removeStoredValue`. */
  function RemovePath(raw: Object, path: Path): Object
    decreases |path|
  {
    if |path| == 1 then raw - {path[0]}
    else if path[0] in raw && raw[path[0]].JObject? then raw[path[0] := JObject(RemovePath(raw[path[0]].fields, path[1..]))]
    else raw
  }

  /** Neither path leads through the other. */
  predicate Apart(p: Path, q: Path) {
    p == q || (!(p <= q) && !(q <= p))
  }

  lemma {:induction false} PrefixTails(p: Path, q: Path)
    requires p[0] == q[0]
    ensures p <= q <==> p[1..] <= q[1..]
    ensures p == q <==> p[1..] == q[1..]
  {
    assert p == [p[0]] + p[1..] && q == [q[0]] + q[1..];
  }

  lemma {:induction false} ApartTails(p: Path, q: Path)
    requires Apart(p, q) && p[0] == q[0] && p != q
    ensures |p| > 1 && |q| > 1 && Apart(p[1..], q[1..]) && p[1..] != q[1..]
  {
    PrefixTails(p, q);
    PrefixTails(q, p);
  }

  /** Setting a value is seen at its own path and nowhere else. */
  lemma {:induction false} SetThenLookup(raw: Object, p: Path, value: Json, q: Path)
    requires Apart(p, q)
    ensures Lookup(SetPath(raw, p, value), q) == if p == q then Some(value) else Lookup(raw, q)
    decreases |p|
  {
    if p == q {
      if |p| > 1 {
        SetThenLookup(Under(raw, p[0]), p[1..], value, q[1..]);
      }
    } else if p[0] == q[0] {
      ApartTails(p, q);
      SetThenLookup(Under(raw, p[0]), p[1..], value, q[1..]);
    } else if |q| > 1 {
      assert Under(SetPath(raw, p, value), q[0]) == Under(raw, q[0]);
    }
  }

  lemma {:induction false} LookupNothing(q: Path)
    ensures Lookup(map[], q) == None
    decreases |q|
  {
    if |q| > 1 {
      LookupNothing(q[1..]);
    }
  }

  lemma {:induction false} RemoveThenLookup(raw: Object, p: Path, q: Path)
    requires Apart(p, q)
    ensures Lookup(RemovePath(raw, p), q) == if p == q then None else Lookup(raw, q)
    decreases |p|
  {
    if p != q && p[0] == q[0] {
      ApartTails(p, q);
    }
    if |p| > 1 && p[0] in raw && raw[p[0]].JObject? {
      if p[0] == q[0] && |q| > 1 {
        assert p == q || Apart(p[1..], q[1..]);
        assert p[1..] == q[1..] ==> p == q by {
          assert p == [p[0]] + p[1..] && q == [q[0]] + q[1..];
        }
        RemoveThenLookup(raw[p[0]].fields, p[1..], q[1..]);
      }
    } else if |p| > 1 && p == q {
      LookupNothing(q[1..]);
    }
  }

  // ---- Pruning --------------------------------------------------------------------------------------

  /** `pruneEmptyObjects`: empty objects vanish, innermost first. */
  function PrunedValue(value: Json): Json
    decreases value
  {
    if !value.JObject? then value
    else
      var raw := value.fields;
      JObject(map key | key in raw && !(raw[key].JObject? && PrunedValue(raw[key]) == JObject(map[])) ::
        if raw[key].JObject? then PrunedValue(raw[key]) else raw[key])
  }

  function Pruned(raw: Object): Object {
    PrunedValue(JObject(raw)).fields
  }

  /** One level of pruning. */
  lemma {:induction false} PrunedAt(raw: Object, key: string)
    ensures key in Pruned(raw) <==> key in raw && (raw[key].JObject? ==> Pruned(raw[key].fields) != map[])
    ensures key in Pruned(raw) ==> Pruned(raw)[key] == if raw[key].JObject? then JObject(Pruned(raw[key].fields)) else raw[key]
  {
    if key in raw && raw[key].JObject? {
      assert raw[key] == JObject(raw[key].fields);
      assert PrunedValue(raw[key]) == JObject(Pruned(raw[key].fields));
    }
  }

  lemma {:induction false} UnderPruned(raw: Object, key: string)
    ensures Under(Pruned(raw), key) == Pruned(Under(raw, key))
  {
    PrunedAt(raw, key);
    assert Pruned(map[]) == map[];
  }

  /** Every value that is no object stays where it is, and no such value appears. */
  lemma {:induction false} PruneKeepsLeaves(raw: Object, path: Path)
    ensures var before, after := Lookup(raw, path), Lookup(Pruned(raw), path);
            && (before.Some? && !before.value.JObject? ==> after == before)
            && (after.Some? && !after.value.JObject? ==> before == after)
    decreases |path|
  {
    PrunedAt(raw, path[0]);
    if |path| > 1 {
      UnderPruned(raw, path[0]);
      PruneKeepsLeaves(Under(raw, path[0]), path[1..]);
    }
  }
}
