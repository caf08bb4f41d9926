/**
 The settings overlay (src/config.rs:475-576, src/settings.rs:77-475): a JSON tree flattened
 to dotted keys, a write along a dotted path, and UI-saved values laid over the YAML file.

 A HotConfig is its JSON tree; `schema` says which trees deserialize.
 */
module Settings {
  import opened Wrappers
  import opened Strings
  import opened Json

  // ------------------------------------------------------------------ schema

  datatype Kind = KBool | KUint(max: nat) | KString | KStrings

  datatype Schema = Leaf(kind: Kind) | Node(fields: map<string, Schema>)

  /** The value deserializes as this kind of field. */
  predicate FitsKind(v: Json, kind: Kind) {
    match kind
    case KBool => v.Bool?
    case KUint(max) => v.Num? && v.numeral != "" && v.numeral[0] != '+' && ParseNat(v.numeral, max).Some?
    case KString => v.Str?
    case KStrings => v.Arr? && forall i :: 0 <= i < |v.items| ==> v.items[i].Str?
  }

  predicate Conforms(v: Json, s: Schema) {
    match s
    case Leaf(kind) => FitsKind(v, kind)
    case Node(fields) =>
      v.Obj? && v.fields.Keys == fields.Keys && forall k :: k in fields ==> Conforms(v.fields[k], fields[k])
  }

  /** Field names are not empty and hold no dot. */
  predicate NamesOk(s: Schema) {
    match s
    case Leaf(_) => true
    case Node(fields) => forall k :: k in fields ==> k != "" && '.' !in k && NamesOk(fields[k])
  }

  // ------------------------------------------------------------------- paths

  type Path = seq<string>

  predicate LeafPath(s: Schema, p: Path) {
    if p == [] then s.Leaf?
    else s.Node? && p[0] in s.fields && LeafPath(s.fields[p[0]], p[1..])
  }

  function KindAt(s: Schema, p: Path): Kind
    requires LeafPath(s, p)
  {
    if p == [] then s.kind else KindAt(s.fields[p[0]], p[1..])
  }

  function Get(v: Json, p: Path): Option<Json> {
    if p == [] then Some(v)
    else if v.Obj? && p[0] in v.fields then Get(v.fields[p[0]], p[1..])
    else None
  }

  /** The dotted key of a path. */
  function Dotted(p: Path): string {
    if p == [] then "" else if |p| == 1 then p[0] else p[0] + ['.'] + Dotted(p[1..])
  }

  lemma DottedSpelled(a: string, b: string, c: string)
    ensures Dotted([a]) == a && Dotted([a, b]) == a + "." + b && Dotted([a, b, c]) == a + "." + (b + "." + c)
  {
    assert [a, b][1..] == [b] && [a, b, c][1..] == [b, c];
    assert Dotted([b, c]) == b + ['.'] + c && Dotted([a, b]) == a + ['.'] + b;
    assert Dotted([a, b, c]) == a + ['.'] + Dotted([b, c]);
    assert ['.'] == ".";
  }

  predicate PlainNames(p: Path) {
    forall i :: 0 <= i < |p| ==> p[i] != "" && '.' !in p[i]
  }

  lemma {:induction false} LeafPathPlain(s: Schema, p: Path)
    requires NamesOk(s) && LeafPath(s, p)
    ensures PlainNames(p)
  {
    if p != [] {
      LeafPathPlain(s.fields[p[0]], p[1..]);
      assert forall i :: 1 <= i < |p| ==> p[i] == p[1..][i - 1];
    }
  }

  /** Splitting a dotted key at its dots gives the path back. */
  lemma {:induction false} SplitDotted(p: Path)
    requires p != [] && PlainNames(p)
    ensures SplitOn(Dotted(p), '.') == p
  {
    assert SplitOn(p[0], '.') == [p[0]];
    if |p| > 1 {
      hide SplitOn;
      assert forall i :: 0 <= i < |p[1..]| ==> p[1..][i] == p[i + 1];
      SplitDotted(p[1..]);
      SplitOnAppend(p[0], Dotted(p[1..]), '.');
      assert p == [p[0]] + p[1..];
    }
  }

  // ------------------------------------------------------- writing one value

  datatype ConfigError = UnknownKey | BadValue

  /** set_json_path below the split: every step must meet an object that has the key. */
  function SetPath(v: Json, parts: Path, x: Json): Option<Json>
    requires parts != []
  {
    if !v.Obj? || parts[0] !in v.fields then None
    else if |parts| == 1 then Some(Obj(v.fields[parts[0] := x]))
    else match SetPath(v.fields[parts[0]], parts[1..], x)
      case Some(w) => Some(Obj(v.fields[parts[0] := w]))
      case None => None
  }

  function SetJsonPath(v: Json, key: string, x: Json): Result<Json, ConfigError> {
    var parts := SplitOn(key, '.');
    if "" in parts then Err(UnknownKey)
    else match SetPath(v, parts, x)
      case Some(w) => Ok(w)
      case None => Err(UnknownKey)
  }

  /** apply_overrides for one override: write, then deserialize as a check. */
  function ApplyOverride(schema: Schema, base: Json, key: string, x: Json): Result<Json, ConfigError> {
    match SetJsonPath(base, key, x)
    case Err(e) => Err(e)
    case Ok(w) => if Conforms(w, schema) then Ok(w) else Err(BadValue)
  }

  lemma {:induction false} WriteConforms(schema: Schema, v: Json, p: Path, x: Json)
    requires Conforms(v, schema) && LeafPath(schema, p) && p != []
    ensures SetPath(v, p, x).Some?
    ensures Conforms(SetPath(v, p, x).value, schema) <==> FitsKind(x, KindAt(schema, p))
    decreases |p|
  {
    var k := p[0];
    if |p| > 1 {
      WriteConforms(schema.fields[k], v.fields[k], p[1..], x);
    } else {
      assert p[1..] == [];
    }
    var w := SetPath(v, p, x).value;
    assert w.fields.Keys == schema.fields.Keys;
    assert forall o :: o in schema.fields && o != k ==> w.fields[o] == v.fields[o];
  }

  lemma {:induction false} WriteReadsBack(v: Json, p: Path, x: Json)
    requires p != [] && SetPath(v, p, x).Some?
    ensures Get(SetPath(v, p, x).value, p) == Some(x)
    decreases |p|
  {
    if |p| > 1 {
      WriteReadsBack(v.fields[p[0]], p[1..], x);
    }
  }

  lemma {:induction false} WriteElsewhere(schema: Schema, v: Json, p: Path, x: Json, q: Path)
    requires LeafPath(schema, p) && LeafPath(schema, q) && p != q && p != [] && SetPath(v, p, x).Some?
    ensures Get(SetPath(v, p, x).value, q) == Get(v, q)
    decreases |p|
  {
    assert p == [p[0]] + p[1..] && q == [q[0]] + q[1..];
    if q[0] == p[0] && |p| > 1 {
      WriteElsewhere(schema.fields[p[0]], v.fields[p[0]], p[1..], x, q[1..]);
    }
  }

  /** The lens law: a value written at a leaf is read there, no other leaf changes, and the tree
      still conforms exactly when the value fits. */
  lemma WriteIsLocal(schema: Schema, v: Json, p: Path, x: Json)
    requires Conforms(v, schema) && LeafPath(schema, p) && p != []
    ensures SetPath(v, p, x).Some?
    ensures var w := SetPath(v, p, x).value;
      && (Conforms(w, schema) <==> FitsKind(x, KindAt(schema, p)))
      && Get(w, p) == Some(x)
      && forall q :: q != p && LeafPath(schema, q) ==> Get(w, q) == Get(v, q)
  {
    WriteConforms(schema, v, p, x);
    WriteReadsBack(v, p, x);
    forall q | q != p && LeafPath(schema, q) ensures Get(SetPath(v, p, x).value, q) == Get(v, q) {
      WriteElsewhere(schema, v, p, x, q);
    }
  }

  /** The same through the dotted key, as the settings engine writes. */
  lemma OverrideIsLocal(schema: Schema, v: Json, p: Path, x: Json)
    requires NamesOk(schema) && Conforms(v, schema) && LeafPath(schema, p) && p != []
    ensures var r := ApplyOverride(schema, v, Dotted(p), x);
      if FitsKind(x, KindAt(schema, p)) then
        r.Ok? && Conforms(r.value, schema) && Get(r.value, p) == Some(x)
        && forall q :: q != p && LeafPath(schema, q) ==> Get(r.value, q) == Get(v, q)
      else r == Err(BadValue)
  {
    LeafPathPlain(schema, p);
    SplitDotted(p);
    WriteIsLocal(schema, v, p, x);
  }

  /** A conforming tree is determined by its leaves. */
  lemma {:induction false} LeavesDetermine(schema: Schema, v: Json, w: Json)
    requires Conforms(v, schema) && Conforms(w, schema)
    requires forall p :: LeafPath(schema, p) ==> Get(v, p) == Get(w, p)
    ensures v == w
    decreases schema
  {
    match schema
    case Leaf(_) => assert LeafPath(schema, []);
    case Node(fields) =>
      forall k | k in fields ensures v.fields[k] == w.fields[k] {
        forall p | LeafPath(fields[k], p) ensures Get(v.fields[k], p) == Get(w.fields[k], p) {
          assert ([k] + p)[1..] == p;
          assert LeafPath(schema, [k] + p);
        }
        LeavesDetermine(fields[k], v.fields[k], w.fields[k]);
      }
      assert v.fields == w.fields;
  }

  // -------------------------------------------------------------- flattening

  function Joined(prefix: string, k: string): string {
    if prefix == "" then k else prefix + ['.'] + k
  }

  /** The key a leaf gets below `prefix`. */
  function Under(prefix: string, p: Path): string
    decreases |p|
  {
    if p == [] then prefix else Under(Joined(prefix, p[0]), p[1..])
  }

  /** A path to a leaf of the value itself: arrays and scalars are leaves, objects are not. */
  predicate JsonLeaf(v: Json, p: Path) {
    if p == [] then !v.Obj? else v.Obj? && p[0] in v.fields && JsonLeaf(v.fields[p[0]], p[1..])
  }

  function Flat(v: Json, prefix: string): seq<(string, Json)>
    decreases v, 1, 0
  {
    if v.Obj? then FlatFields(v, SortedKeys(v.fields.Keys), prefix) else [(prefix, v)]
  }

  function FlatFields(v: Json, keys: seq<string>, prefix: string): seq<(string, Json)>
    requires v.Obj? && forall k :: k in keys ==> k in v.fields
    decreases v, 0, |keys|
  {
    if keys == [] then []
    else Flat(v.fields[keys[0]], Joined(prefix, keys[0])) + FlatFields(v, keys[1..], prefix)
  }

  /** flatten_json: objects are opened, everything else is pushed under its dotted key. */
  method FlattenJson(v: Json, prefix: string, out: seq<(string, Json)>) returns (r: seq<(string, Json)>)
    ensures r == out + Flat(v, prefix)
    decreases v
  {
    if !v.Obj? {
      return out + [(prefix, v)];
    }
    r := out;
    var keys := CollectSorted(v.fields.Keys);
    var i := 0;
    while i < |keys|
      invariant 0 <= i <= |keys|
      invariant out + FlatFields(v, keys, prefix) == r + FlatFields(v, keys[i..], prefix)
    {
      var k := keys[i];
      assert keys[i..][1..] == keys[i + 1..];
      ConcatAssoc(r, Flat(v.fields[k], Joined(prefix, k)), FlatFields(v, keys[i + 1..], prefix));
      r := FlattenJson(v.fields[k], Joined(prefix, k), r);
      i := i + 1;
    }
  }

  /** `(key, x)` is flattened exactly when some leaf path leads to `x` and names it `key`. */
  ghost predicate Names(v: Json, prefix: string, p: Path, key: string, x: Json) {
    JsonLeaf(v, p) && Under(prefix, p) == key && Get(v, p) == Some(x)
  }

  lemma {:induction false} FlatIsLeaves(v: Json, prefix: string, key: string, x: Json)
    ensures (key, x) in Flat(v, prefix) <==> exists p :: Names(v, prefix, p, key, x)
    decreases v, 1, 0
  {
    if v.Obj? {
      var keys := SortedKeys(v.fields.Keys);
      FlatFieldsIsLeaves(v, keys, prefix, key, x);
      if p :| Names(v, prefix, p, key, x) {
        assert p != [] && p[0] in keys;
      }
    } else {
      assert Names(v, prefix, [], prefix, v);
    }
  }

  lemma {:induction false} FlatFieldsIsLeaves(v: Json, keys: seq<string>, prefix: string, key: string, x: Json)
    requires v.Obj? && forall k :: k in keys ==> k in v.fields
    ensures (key, x) in FlatFields(v, keys, prefix) <==> exists p :: Names(v, prefix, p, key, x) && p != [] && p[0] in keys
    decreases v, 0, |keys|
  {
    if keys != [] {
      hide Names, Flat;
      var k := keys[0];
      FlatIsLeaves(v.fields[k], Joined(prefix, k), key, x);
      FlatFieldsIsLeaves(v, keys[1..], prefix, key, x);
      if p :| Names(v.fields[k], Joined(prefix, k), p, key, x) {
        assert ([k] + p)[1..] == p && ([k] + p)[0] == k;
        NamesBelow(v, prefix, [k] + p, key, x);
      }
      if p :| Names(v, prefix, p, key, x) && p != [] && p[0] in keys {
        if p[0] == k {
          NamesBelow(v, prefix, p, key, x);
        } else {
          assert p[0] in keys[1..];
        }
      }
    }
  }

  lemma NamesBelow(v: Json, prefix: string, p: Path, key: string, x: Json)
    requires v.Obj? && p != [] && p[0] in v.fields
    ensures Names(v, prefix, p, key, x) <==> Names(v.fields[p[0]], Joined(prefix, p[0]), p[1..], key, x)
  {
  }

  lemma {:induction false} UnderIsDotted(prefix: string, p: Path)
    requires PlainNames(p)
    ensures Under(prefix, p) == if p == [] then prefix else if prefix == "" then Dotted(p) else prefix + ['.'] + Dotted(p)
    decreases |p|
  {
    if p != [] {
      assert forall i :: 0 <= i < |p[1..]| ==> p[1..][i] == p[i + 1];
      assert p[0] != "";
      UnderIsDotted(Joined(prefix, p[0]), p[1..]);
      if |p| > 1 && prefix != "" {
        ConcatAssoc(prefix, ['.'], p[0] + ['.'] + Dotted(p[1..]));
        ConcatAssoc(prefix + ['.'], p[0] + ['.'], Dotted(p[1..]));
        ConcatAssoc(prefix + ['.'], p[0], ['.']);
      }
    }
  }

  /** Leaf paths of a conforming tree are those of the schema. */
  lemma {:induction false} LeavesOfConforming(schema: Schema, v: Json, p: Path)
    requires Conforms(v, schema)
    ensures JsonLeaf(v, p) <==> LeafPath(schema, p)
    ensures LeafPath(schema, p) ==> Get(v, p).Some? && FitsKind(Get(v, p).value, KindAt(schema, p))
    decreases |p|
  {
    if p != [] && schema.Node? && p[0] in schema.fields {
      LeavesOfConforming(schema.fields[p[0]], v.fields[p[0]], p[1..]);
    }
  }

  /** The dotted key of some leaf of the schema. */
  ghost predicate HotKey(schema: Schema, key: string) {
    exists p :: LeafPath(schema, p) && Dotted(p) == key
  }

  /** Leaf path `p` of the schema has dotted key `key`, and `x` stands there. */
  ghost predicate Holds(schema: Schema, v: Json, p: Path, key: string, x: Json) {
    LeafPath(schema, p) && Dotted(p) == key && Get(v, p) == Some(x)
  }

  lemma NamesIsHolds(schema: Schema, v: Json, p: Path, key: string, x: Json)
    requires NamesOk(schema) && Conforms(v, schema)
    ensures Names(v, "", p, key, x) <==> Holds(schema, v, p, key, x)
  {
    LeavesOfConforming(schema, v, p);
    if LeafPath(schema, p) {
      LeafPathPlain(schema, p);
      UnderIsDotted("", p);
    }
  }

  /** hot_flat of a conforming tree lists every leaf under its dotted key, and nothing else. */
  lemma FlatOfConforming(schema: Schema, v: Json, key: string, x: Json)
    requires NamesOk(schema) && Conforms(v, schema)
    ensures (key, x) in Flat(v, "") <==> exists p :: Holds(schema, v, p, key, x)
  {
    hide Flat, FlatFields, NamesOk, Conforms, JsonLeaf, Under, Get, LeafPath, Dotted;
    FlatIsLeaves(v, "", key, x);
    forall p ensures Names(v, "", p, key, x) <==> Holds(schema, v, p, key, x) {
      NamesIsHolds(schema, v, p, key, x);
    }
  }

  ghost predicate Listed(entries: seq<(string, Json)>, k: string) {
    exists x :: (k, x) in entries
  }

  lemma LeafIsListed(s: Schema, v: Json, p: Path)
    requires NamesOk(s) && Conforms(v, s) && LeafPath(s, p)
    ensures Get(v, p).Some? && (Dotted(p), Get(v, p).value) in Flat(v, "") && Listed(Flat(v, ""), Dotted(p))
  {
    hide Flat, NamesOk, Dotted;
    LeavesOfConforming(s, v, p);
    assert Holds(s, v, p, Dotted(p), Get(v, p).value);
    FlatOfConforming(s, v, Dotted(p), Get(v, p).value);
  }

  lemma HotKeyIsListed(s: Schema, v: Json, k: string)
    requires NamesOk(s) && Conforms(v, s)
    ensures HotKey(s, k) <==> Listed(Flat(v, ""), k)
  {
    hide Flat, Conforms, NamesOk, Dotted, LeafPath, Get;
    if HotKey(s, k) {
      var p :| LeafPath(s, p) && Dotted(p) == k;
      LeafIsListed(s, v, p);
    }
    if x :| (k, x) in Flat(v, "") {
      FlatOfConforming(s, v, k, x);
      var p :| Holds(s, v, p, k, x);
    }
  }

  /** The keys hot_flat lists. */
  method HotKeys(schema: Schema, v: Json) returns (keys: set<string>)
    requires NamesOk(schema) && Conforms(v, schema)
    ensures forall k :: k in keys <==> HotKey(schema, k)
  {
    hide Flat, Conforms, NamesOk, HotKey;
    var flat := FlattenJson(v, "", []);
    assert flat == Flat(v, "");
    keys := set entry | entry in flat :: entry.0;
    forall k ensures k in keys <==> HotKey(schema, k) {
      HotKeyIsListed(schema, v, k);
    }
  }

  /** Different leaves have different dotted keys. */
  lemma DottedInjective(schema: Schema, p: Path, q: Path)
    requires NamesOk(schema) && schema.Node? && LeafPath(schema, p) && LeafPath(schema, q) && Dotted(p) == Dotted(q)
    ensures p == q
  {
    LeafPathPlain(schema, p);
    LeafPathPlain(schema, q);
    SplitDotted(p);
    SplitDotted(q);
  }
}
