/**
 The settings engine (src/settings.rs:77-475): rows saved from the UI win over the YAML file,
 across any sequence of saves and file reloads.
 */
module Overlay {
  import opened Wrappers
  import opened Strings
  import opened Json
  import opened Settings
  import N = Numerals

  datatype Source = File | Ui

  datatype Row = Row(value: Json, source: Source)

  type Rows = map<string, Row>

  const STARTUP: seq<string> :=
    ["server.listen", "database.url", "server.admin_jwt_secret", "database.max_connections"]

  /** A parameter read at startup only. */
  predicate IsStartup(key: string) {
    key in STARTUP
  }

  ghost predicate CoversStartup(startup: map<string, string>) {
    forall k :: k in startup <==> IsStartup(k)
  }

  const SECRET := "server.admin_jwt_secret"

  /** A hot configuration: a struct whose sections are not those of the startup parameters. */
  predicate HotSchema(s: Schema) {
    s.Node? && NamesOk(s) && "server" !in s.fields && "database" !in s.fields
  }

  lemma LeafNotEmpty(s: Schema, p: Path)
    requires HotSchema(s) && LeafPath(s, p)
    ensures p != []
  {
  }

  lemma FirstSegment(left: string, right: string)
    requires '.' !in left
    ensures SplitOn(left + ['.'] + right, '.')[0] == left
  {
    SplitOnAppend(left, right, '.');
  }

  lemma StartupHead(key: string)
    requires IsStartup(key)
    ensures SplitOn(key, '.')[0] in {"server", "database"}
  {
    hide SplitOn;
    var left := if key == "server.listen" || key == SECRET then "server" else "database";
    StartupSplits(key, left);
    FirstSegment(left, key[|left| + 1..]);
  }

  lemma StartupSplits(key: string, left: string)
    requires IsStartup(key) && left == if key == "server.listen" || key == SECRET then "server" else "database"
    ensures |left| < |key| && left + ['.'] + key[|left| + 1..] == key && '.' !in left
  {
    assert left <= key && key[|left|] == '.';
  }

  lemma HotIsNotStartup(s: Schema, p: Path)
    requires HotSchema(s) && LeafPath(s, p)
    ensures !IsStartup(Dotted(p))
  {
    hide NamesOk, Dotted, SplitOn;
    LeafPathPlain(s, p);
    SplitDotted(p);
    if IsStartup(Dotted(p)) {
      StartupHead(Dotted(p));
    }
  }

  // ------------------------------------------------------------------- merge

  /** A UI row that deserializes at leaf `p`. */
  predicate Overridden(s: Schema, rows: Rows, p: Path)
    requires LeafPath(s, p)
  {
    Dotted(p) in rows && rows[Dotted(p)].source == Ui && FitsKind(rows[Dotted(p)].value, KindAt(s, p))
  }

  /** The value leaf `p` must show: UI over YAML. */
  function Wanted(s: Schema, yaml: Json, rows: Rows, p: Path): Option<Json>
    requires LeafPath(s, p)
  {
    if Overridden(s, rows, p) then Some(rows[Dotted(p)].value) else Get(yaml, p)
  }

  /** `eff` is the YAML tree with exactly the valid UI-saved leaves written over it. */
  ghost predicate IsMerged(s: Schema, yaml: Json, rows: Rows, eff: Json) {
    Conforms(eff, s) && forall p :: LeafPath(s, p) ==> Get(eff, p) == Wanted(s, yaml, rows, p)
  }

  lemma YamlIsMerged(s: Schema, yaml: Json)
    requires Conforms(yaml, s)
    ensures IsMerged(s, yaml, map[], yaml)
  {
  }

  /** There is only one merged tree, so the order in which rows are fetched cannot matter. */
  lemma MergeIsUnique(s: Schema, yaml: Json, rows: Rows, a: Json, b: Json)
    requires IsMerged(s, yaml, rows, a) && IsMerged(s, yaml, rows, b)
    ensures a == b
  {
    LeavesDetermine(s, a, b);
  }

  /** What the settings page lists: each leaf once, under its dotted key, with the value wanted. */
  lemma MergedFlattensToOverlay(s: Schema, yaml: Json, rows: Rows, eff: Json, key: string, x: Json)
    requires HotSchema(s) && IsMerged(s, yaml, rows, eff)
    ensures (key, x) in Flat(eff, "")
       <==> exists p :: LeafPath(s, p) && Dotted(p) == key && Wanted(s, yaml, rows, p) == Some(x)
  {
    hide Flat, Conforms, NamesOk, Dotted, LeafPath, Get, Overridden;
    FlatOfConforming(s, eff, key, x);
    if p :| Holds(s, eff, p, key, x) {
      assert Wanted(s, yaml, rows, p) == Some(x);
    }
    if p :| LeafPath(s, p) && Dotted(p) == key && Wanted(s, yaml, rows, p) == Some(x) {
      assert Holds(s, eff, p, key, x);
    }
  }

  /** Laying one more row over a merged tree: written when it is a hot key that fits, skipped otherwise. */
  function Lay(s: Schema, merged: Json, key: string, x: Json): Json {
    match ApplyOverride(s, merged, key, x)
    case Ok(next) => next
    case Err(_) => merged
  }

  lemma LayKeepsMerged(s: Schema, yaml: Json, rows: Rows, merged: Json, key: string, x: Json)
    requires HotSchema(s) && IsMerged(s, yaml, rows, merged) && key !in rows && HotKey(s, key)
    ensures IsMerged(s, yaml, rows[key := Row(x, Ui)], Lay(s, merged, key, x))
  {
    var p :| LeafPath(s, p) && Dotted(p) == key;
    LeafNotEmpty(s, p);
    OverrideIsLocal(s, merged, p, x);
    OneLeafLaid(s, yaml, rows, merged, p, x);
  }

  lemma OneLeafLaid(s: Schema, yaml: Json, rows: Rows, merged: Json, p: Path, x: Json)
    requires HotSchema(s) && IsMerged(s, yaml, rows, merged) && LeafPath(s, p) && Dotted(p) !in rows
    requires Conforms(Lay(s, merged, Dotted(p), x), s)
    requires Get(Lay(s, merged, Dotted(p), x), p) == if FitsKind(x, KindAt(s, p)) then Some(x) else Get(merged, p)
    requires forall q :: q != p && LeafPath(s, q) ==> Get(Lay(s, merged, Dotted(p), x), q) == Get(merged, q)
    ensures IsMerged(s, yaml, rows[Dotted(p) := Row(x, Ui)], Lay(s, merged, Dotted(p), x))
  {
    hide Lay, Get, Conforms, NamesOk, Dotted, LeafPath, KindAt, FitsKind;
    var now := rows[Dotted(p) := Row(x, Ui)];
    forall q | LeafPath(s, q) ensures Get(Lay(s, merged, Dotted(p), x), q) == Wanted(s, yaml, now, q) {
      if q != p && Dotted(q) == Dotted(p) {
        DottedInjective(s, p, q);
      }
      assert Get(merged, q) == Wanted(s, yaml, rows, q);
    }
  }

  lemma ColdRowIsInert(s: Schema, yaml: Json, rows: Rows, merged: Json, key: string, row: Row)
    requires IsMerged(s, yaml, rows, merged) && !HotKey(s, key)
    ensures IsMerged(s, yaml, rows[key := row], merged)
  {
    hide Get, Conforms, NamesOk, Dotted, LeafPath, KindAt, FitsKind;
    forall q | LeafPath(s, q) ensures Get(merged, q) == Wanted(s, yaml, rows[key := row], q) {
      assert Get(merged, q) == Wanted(s, yaml, rows, q);
      assert Dotted(q) != key;
    }
  }

  function UiPart(rows: Rows): Rows {
    map k | k in rows && rows[k].source == Ui :: rows[k]
  }

  lemma OnlyUiRowsMatter(s: Schema, yaml: Json, rows: Rows, eff: Json)
    ensures IsMerged(s, yaml, UiPart(rows), eff) <==> IsMerged(s, yaml, rows, eff)
  {
    hide Get, Conforms, NamesOk, Dotted, LeafPath, KindAt, FitsKind;
    forall p | LeafPath(s, p) ensures Wanted(s, yaml, UiPart(rows), p) == Wanted(s, yaml, rows, p) {
    }
  }

  // --------------------------------------------------------------------- put

  /** normalize_startup_value: a string, or for the numeric key also a number, within 1 to 256. */
  function NormalizeStartup(key: string, x: Json): Option<string> {
    var numeric := key == "database.max_connections";
    var raw := match x
      case Str(t) => Some(t)
      case Num(n) => if numeric then Some(n) else None
      case _ => None;
    if raw.Some? && numeric then
      var n := ParseNat(Trim(raw.value), 0xFFFF_FFFF);
      if n.Some? && 1 <= n.value <= 256 then raw else None
    else raw
  }

  datatype Verdict = Skip | Refuse | Save(value: Json)

  /** What `put` decides about one entry. */
  function Judge(s: Schema, base: Json, hotKeys: set<string>, canSeal: bool, key: string, x: Json): Verdict {
    if x == Str("***") then Skip
    else if key == "database.url" || (key !in hotKeys && !IsStartup(key)) then Refuse
    else if IsStartup(key) then
      match NormalizeStartup(key, x)
      case None => Refuse
      case Some(t) => if key == SECRET && t != "" && !canSeal then Refuse else Save(Str(t))
    else if ApplyOverride(s, base, key, x).Err? then Refuse
    else Save(x)
  }

  /** The same without the current configuration: the verdict depends on the schema alone. */
  ghost function Ruling(s: Schema, canSeal: bool, key: string, x: Json): Verdict {
    if x == Str("***") then Skip
    else if IsStartup(key) then
      if key == "database.url" || NormalizeStartup(key, x).None? then Refuse
      else if key == SECRET && NormalizeStartup(key, x).value != "" && !canSeal then Refuse
      else Save(Str(NormalizeStartup(key, x).value))
    else if exists p :: LeafPath(s, p) && Dotted(p) == key && FitsKind(x, KindAt(s, p)) then Save(x)
    else Refuse
  }

  lemma JudgeIsRuling(s: Schema, base: Json, hotKeys: set<string>, canSeal: bool, key: string, x: Json)
    requires HotSchema(s) && Conforms(base, s)
    requires forall k :: k in hotKeys <==> HotKey(s, k)
    ensures Judge(s, base, hotKeys, canSeal, key, x) == Ruling(s, canSeal, key, x)
  {
    hide Conforms, NamesOk, Dotted, LeafPath, KindAt, FitsKind, ApplyOverride, NormalizeStartup;
    if !IsStartup(key) && key in hotKeys {
      var p :| LeafPath(s, p) && Dotted(p) == key;
      LeafNotEmpty(s, p);
      OverrideIsLocal(s, base, p, x);
      forall q | LeafPath(s, q) && Dotted(q) == key ensures q == p {
        DottedInjective(s, p, q);
      }
    }
  }

  /** No entry is refused. */
  ghost predicate Accepted(s: Schema, canSeal: bool, updates: map<string, Json>) {
    forall k :: k in updates ==> !Ruling(s, canSeal, k, updates[k]).Refuse?
  }

  // ------------------------------------------------------- what a save accepts

  /** The text of a startup value. */
  function StartupText(x: Json): string {
    if x.Str? then x.s else if x.Num? then x.numeral else ""
  }

  /** The address is any string; the secret too, but one that is not empty needs a key to encrypt it with; the pool size
      is a number from 1 to 256, or its text; the database address cannot be saved. Everything else is a leaf of the
      hot configuration with a value of its kind. A masked value is always accepted. */
  ghost predicate Allowed(s: Schema, canSeal: bool, key: string, x: Json) {
    if x == Str("***") then true
    else if key == "database.url" then false
    else if key == "server.listen" then x.Str?
    else if key == "server.admin_jwt_secret" then x.Str? && (x.s == "" || canSeal)
    else if key == "database.max_connections" then
      (x.Str? || x.Num?) && exists n: nat :: ParseNat(Trim(StartupText(x)), 0xFFFF_FFFF) == Some(n) && 1 <= n <= 256
    else exists p :: LeafPath(s, p) && Dotted(p) == key && FitsKind(x, KindAt(s, p))
  }

  /** A leaf is stored as it is, a startup value as its text, and the secret encrypted where that works. */
  ghost predicate SavedAs(encrypt: string -> Option<string>, key: string, x: Json, row: Row) {
    if key == "server.listen" || key == "database.max_connections" then row == Row(Str(StartupText(x)), Ui)
    else if key == "server.admin_jwt_secret" then
      row == Row(Str(if StartupText(x) != "" && encrypt(StartupText(x)).Some? then "enc1:" + encrypt(StartupText(x)).value
                     else StartupText(x)), Ui)
    else row == Row(x, Ui)
  }

  lemma RulingAllows(s: Schema, canSeal: bool, encrypt: string -> Option<string>, key: string, x: Json)
    requires HotSchema(s)
    ensures Ruling(s, canSeal, key, x).Refuse? <==> !Allowed(s, canSeal, key, x)
    ensures Ruling(s, canSeal, key, x).Skip? <==> x == Str("***")
    ensures Ruling(s, canSeal, key, x).Save? ==>
      SavedAs(encrypt, key, x, Row(Stored(encrypt, key, Ruling(s, canSeal, key, x).value), Ui))
  {
    hide NamesOk, Dotted, LeafPath, KindAt, FitsKind, ParseNat, Trim, HotSchema;
    StartupKeys(key);
    if x != Str("***") && key == "database.max_connections" {
      var n := ParseNat(Trim(StartupText(x)), 0xFFFF_FFFF);
      assert n.Some? ==> (1 <= n.value <= 256 <==> exists m: nat :: n == Some(m) && 1 <= m <= 256);
    }
    if exists p :: LeafPath(s, p) && Dotted(p) == key {
      var p :| LeafPath(s, p) && Dotted(p) == key;
      HotIsNotStartup(s, p);
    }
  }

  lemma StartupKeys(key: string)
    ensures IsStartup(key) <==>
      key in {"server.listen", "database.url", "server.admin_jwt_secret", "database.max_connections"}
  {
  }

  /** So a plain number is accepted as pool size, as a number or as its text, exactly from 1 to 256. */
  lemma PoolSizes(s: Schema, canSeal: bool, n: nat)
    ensures Allowed(s, canSeal, "database.max_connections", Num(N.Digits(n))) <==> 1 <= n <= 256
    ensures Allowed(s, canSeal, "database.max_connections", Str(N.Digits(n))) <==> 1 <= n <= 256
  {
    hide ParseNat, Trim;
    N.DigitsReadBack(n);
    DigitsTrim(N.Digits(n));
    N.NatReadsBack(n, 0xFFFF_FFFF);
    assert Str(N.Digits(n)) != Str("***") by { assert N.IsDigit(N.Digits(n)[0]) by { assert N.Digits(n)[0] in N.Digits(n); } }
  }

  lemma DigitsTrim(t: string)
    requires N.AllDigits(t)
    ensures Trim(t) == t
  {
    assert N.IsDigit(t[0]) && N.IsDigit(t[|t| - 1]) by { assert t[0] in t && t[|t| - 1] in t; }
    TrimIsTrimmed(t);
  }

  /** A whole number fits a numeric leaf up to its bound; nothing negative does. */
  lemma NumbersThatFit(n: nat, max: nat)
    ensures FitsKind(Num(N.Digits(n)), KUint(max)) <==> n <= max
    ensures n > 0 ==> !FitsKind(Num("-" + N.Digits(n)), KUint(max))
  {
    hide ParseNat;
    N.DigitsReadBack(n);
    assert N.IsDigit(N.Digits(n)[0]) by { assert N.Digits(n)[0] in N.Digits(n); }
    N.NatReadsBack(n, max);
    MinusIsNoNat(N.Digits(n), max);
  }

  lemma MinusIsNoNat(t: string, max: nat)
    ensures ParseNat("-" + t, max) == None
  {
  }

  lemma AcceptedMeansAllowed(s: Schema, canSeal: bool, encrypt: string -> Option<string>, rows: Rows, updates: map<string, Json>)
    requires HotSchema(s)
    ensures Accepted(s, canSeal, updates) <==> forall k :: k in updates ==> Allowed(s, canSeal, k, updates[k])
    ensures Accepted(s, canSeal, updates) ==> Saved(encrypt, rows, updates, RowsAfterPut(s, canSeal, encrypt, rows, updates))
  {
    hide Allowed, Ruling, SavedAs, Stored;
    forall k | k in updates
      ensures Ruling(s, canSeal, k, updates[k]).Refuse? <==> !Allowed(s, canSeal, k, updates[k])
      ensures Ruling(s, canSeal, k, updates[k]).Skip? <==> updates[k] == Str("***")
      ensures Ruling(s, canSeal, k, updates[k]).Save? ==>
        SavedAs(encrypt, k, updates[k], Row(Stored(encrypt, k, Ruling(s, canSeal, k, updates[k]).value), Ui))
    {
      RulingAllows(s, canSeal, encrypt, k, updates[k]);
    }
  }

  /** What is saved: every entry that is not masked, and no other row changes. */
  ghost predicate Saved(encrypt: string -> Option<string>, rows: Rows, updates: map<string, Json>, now: Rows) {
    && (forall k :: k in updates && updates[k] != Str("***") ==> k in now && SavedAs(encrypt, k, updates[k], now[k]))
    && (forall k :: !(k in updates && updates[k] != Str("***")) ==> (k in now <==> k in rows) && (k in rows ==> now[k] == rows[k]))
  }

  /** seal_secret_value: the secret key is stored encrypted when encryption works. */
  function Seal(encrypt: string -> Option<string>, key: string, t: string): string {
    if key == SECRET && t != "" && encrypt(t).Some? then "enc1:" + encrypt(t).value else t
  }

  function Stored(encrypt: string -> Option<string>, key: string, x: Json): Json {
    if x.Str? then Str(Seal(encrypt, key, x.s)) else x
  }

  /** open_secret_value; None is a failed decryption. */
  function Open(decrypt: string -> Option<string>, key: string, t: string): Option<string> {
    if key == SECRET && "enc1:" <= t then decrypt(t[5..]) else Some(t)
  }

  /** effective_startup: env over UI over YAML; a row that does not decrypt or is not a string falls back to YAML. */
  function EffectiveStartup(decrypt: string -> Option<string>, env: string, rows: Rows, key: string, yaml: string)
    : (string, string)
  {
    if env != "" then (env, "env")
    else if key in rows && rows[key].source == Ui && rows[key].value.Str? then
      match Open(decrypt, key, rows[key].value.s)
      case Some(plain) => (plain, "ui")
      case None => (yaml, "file")
    else (yaml, "file")
  }

  /** The environment comes first; a row of the file does not count. */
  lemma StartupSources(decrypt: string -> Option<string>, env: string, rows: Rows, key: string, yaml: string)
    ensures env != "" ==> EffectiveStartup(decrypt, env, rows, key, yaml) == (env, "env")
    ensures env == "" && (key !in rows || rows[key].source == File) ==>
      EffectiveStartup(decrypt, env, rows, key, yaml) == (yaml, "file")
  {
  }

  /** A startup value read back after a save is the value saved, unless the secret could not be
      encrypted and already looks encrypted without decrypting to itself. */
  lemma SavedStartupReadsBack(encrypt: string -> Option<string>, decrypt: string -> Option<string>,
                              rows: Rows, key: string, t: string, yaml: string)
    requires forall u :: encrypt(u).Some? ==> decrypt(encrypt(u).value) == Some(u)
    requires key in rows && rows[key] == Row(Stored(encrypt, key, Str(t)), Ui)
    ensures EffectiveStartup(decrypt, "", rows, key, yaml) == (t, "ui")
       <==> (key == SECRET && encrypt(t).None? && "enc1:" <= t ==> decrypt(t[5..]) == Some(t))
  {
    if key == SECRET && t != "" && encrypt(t).Some? {
      assert ("enc1:" + encrypt(t).value)[5..] == encrypt(t).value;
    }
  }

  // ------------------------------------------------------------------ engine

  datatype State = State(yaml: Json, rows: Rows, effective: Json)

  ghost predicate Good(s: Schema, st: State) {
    HotSchema(s) && Conforms(st.yaml, s) && IsMerged(s, st.yaml, st.rows, st.effective)
  }

  /** An accepted save turns exactly the entries that are not masked into UI rows. */
  ghost function RowsAfterPut(s: Schema, canSeal: bool, encrypt: string -> Option<string>,
                              rows: Rows, updates: map<string, Json>): Rows
  {
    rows + map k | k in updates && Ruling(s, canSeal, k, updates[k]).Save?
             :: Row(Stored(encrypt, k, Ruling(s, canSeal, k, updates[k]).value), Ui)
  }

  /** A reload refreshes file rows of the leaves, adds missing ones and leaves every other row alone. */
  ghost predicate RowsAfterReload(s: Schema, yaml: Json, rows: Rows, now: Rows) {
    && (forall k :: k in now <==> k in rows || HotKey(s, k))
    && (forall k :: k in rows && (IsUi(rows, k) || !HotKey(s, k)) ==> now[k] == rows[k])
    && (forall p :: LeafPath(s, p) ==>
          && Dotted(p) in now
          && (!IsUi(rows, Dotted(p)) ==> Get(yaml, p).Some? && now[Dotted(p)] == Row(Get(yaml, p).value, File)))
  }

  type Entries = seq<(string, Json)>

  predicate Functional(entries: Entries) {
    forall i, j :: 0 <= i < |entries| && 0 <= j < |entries| && entries[i].0 == entries[j].0 ==>
      entries[i].1 == entries[j].1
  }

  /** A flattened tree gives no key two values. */
  lemma FlatIsFunctional(s: Schema, v: Json)
    requires HotSchema(s) && Conforms(v, s)
    ensures Functional(Flat(v, ""))
  {
    hide Flat, Conforms, NamesOk, Dotted, LeafPath, Get;
    var flat := Flat(v, "");
    forall i, j | 0 <= i < |flat| && 0 <= j < |flat| && flat[i].0 == flat[j].0 ensures flat[i].1 == flat[j].1 {
      assert (flat[i].0, flat[i].1) in flat && (flat[j].0, flat[j].1) in flat;
      FlatOfConforming(s, v, flat[i].0, flat[i].1);
      FlatOfConforming(s, v, flat[j].0, flat[j].1);
      var p :| Holds(s, v, p, flat[i].0, flat[i].1);
      var q :| Holds(s, v, q, flat[j].0, flat[j].1);
      DottedInjective(s, p, q);
    }
  }

  lemma ListedNext(entries: Entries, i: nat, k: string)
    requires i < |entries|
    ensures Listed(entries[..i + 1], k) <==> Listed(entries[..i], k) || k == entries[i].0
  {
    var next := entries[..i + 1];
    assert next == entries[..i] + [entries[i]];
    assert (entries[i].0, entries[i].1) in next;
    if x :| (k, x) in entries[..i] {
      assert (k, x) in next;
    }
    if x :| (k, x) in next {
      assert k == entries[i].0 || (k, x) in entries[..i];
    }
  }

  predicate IsUi(rows: Rows, k: string) {
    k in rows && rows[k].source == Ui
  }

  /** The rows after the entries listed so far. */
  ghost predicate Refreshed(before: Rows, listed: Entries, now: Rows) {
    && (forall k :: k in now <==> k in before || Listed(listed, k))
    && (forall k :: k in before && (IsUi(before, k) || !Listed(listed, k)) ==> now[k] == before[k])
    && (forall k, x :: (k, x) in listed && !IsUi(before, k) ==> now[k] == Row(x, File))
  }

  lemma RefreshOne(before: Rows, flat: Entries, i: nat, now: Rows)
    requires i < |flat| && Functional(flat) && Refreshed(before, flat[..i], now)
    ensures var (key, value) := flat[i];
      Refreshed(before, flat[..i + 1], if IsUi(now, key) then now else now[key := Row(value, File)])
  {
    hide Listed;
    var (key, value) := flat[i];
    forall k ensures Listed(flat[..i + 1], k) <==> Listed(flat[..i], k) || k == key {
      ListedNext(flat, i, k);
    }
    assert flat[..i + 1] == flat[..i] + [flat[i]];
    UiStaysUi(before, flat[..i], now, key);
  }

  lemma UiStaysUi(before: Rows, listed: Entries, now: Rows, k: string)
    requires Refreshed(before, listed, now)
    ensures IsUi(now, k) <==> IsUi(before, k)
  {
    if k in now && !IsUi(before, k) && Listed(listed, k) {
      var x :| (k, x) in listed;
    }
  }

  lemma RefreshedIsReload(s: Schema, yaml: Json, before: Rows, now: Rows)
    requires HotSchema(s) && Conforms(yaml, s) && Refreshed(before, Flat(yaml, ""), now)
    ensures RowsAfterReload(s, yaml, before, now)
  {
    hide Flat, Conforms, NamesOk, Dotted, LeafPath, Get, HotKey, Listed;
    forall k ensures HotKey(s, k) <==> Listed(Flat(yaml, ""), k) {
      HotKeyIsListed(s, yaml, k);
    }
    forall p | LeafPath(s, p)
      ensures Dotted(p) in now && (!IsUi(before, Dotted(p)) ==> Get(yaml, p).Some? && now[Dotted(p)] == Row(Get(yaml, p).value, File))
    {
      LeafIsListed(s, yaml, p);
    }
  }

  /** The UPDATE ... AND source = 'file' or INSERT ... ON CONFLICT DO NOTHING for each flattened key. */
  method RefreshFileRows(s: Schema, before: Rows, yaml: Json) returns (rows: Rows)
    requires HotSchema(s) && Conforms(yaml, s)
    ensures RowsAfterReload(s, yaml, before, rows)
  {
    hide Conforms, HotSchema, RowsAfterReload;
    var flat := FlattenJson(yaml, "", []);
    assert flat == Flat(yaml, "");
    FlatIsFunctional(s, yaml);
    rows := before;
    for i := 0 to |flat|
      invariant Refreshed(before, flat[..i], rows)
    {
      hide Refreshed, Conforms, HotSchema, Functional;
      RefreshOne(before, flat, i, rows);
      var (key, value) := flat[i];
      if !IsUi(rows, key) {
        rows := rows[key := Row(value, File)];
      }
    }
    assert flat[..|flat|] == flat;
    RefreshedIsReload(s, yaml, before, rows);
  }

  /** Missing keys added as file rows, present ones kept. */
  ghost predicate Filled(before: Rows, entries: Entries, now: Rows) {
    && (forall k :: k in now <==> k in before || Listed(entries, k))
    && (forall k :: k in before ==> now[k] == before[k])
    && (forall k, x :: (k, x) in entries && k !in before ==> k in now && now[k] == Row(x, File))
  }

  /** INSERT ... ON CONFLICT DO NOTHING for each entry, as file rows. */
  method InsertMissing(before: Rows, entries: Entries) returns (rows: Rows)
    requires Functional(entries)
    ensures Filled(before, entries, rows)
  {
    rows := before;
    for i := 0 to |entries|
      invariant forall k :: k in rows <==> k in before || Listed(entries[..i], k)
      invariant forall k :: k in before ==> rows[k] == before[k]
      invariant forall k, x :: (k, x) in entries[..i] && k !in before ==> k in rows && rows[k] == Row(x, File)
    {
      hide Listed;
      forall k ensures Listed(entries[..i + 1], k) <==> Listed(entries[..i], k) || k == entries[i].0 {
        ListedNext(entries, i, k);
      }
      assert entries[..i + 1] == entries[..i] + [entries[i]];
      if entries[i].0 !in rows {
        rows := rows[entries[i].0 := Row(entries[i].1, File)];
      } else {
        SeenBefore(entries, i);
      }
    }
    assert entries[..|entries|] == entries;
  }

  lemma SeenBefore(entries: Entries, i: nat)
    requires i < |entries| && Functional(entries)
    ensures Listed(entries[..i], entries[i].0) ==> entries[i] in entries[..i]
  {
  }

  /** The rows init leaves: stored ones kept, missing hot and startup keys added from the file. */
  ghost predicate Seeded(s: Schema, yaml: Json, startup: map<string, string>, encrypt: string -> Option<string>,
                         stored: Rows, rows: Rows)
    requires CoversStartup(startup)
  {
    && (forall k :: k in rows <==> k in stored || IsStartup(k) || HotKey(s, k))
    && (forall k :: k in stored ==> rows[k] == stored[k])
    && (forall p :: LeafPath(s, p) && Dotted(p) !in stored ==>
          Get(yaml, p).Some? && Dotted(p) in rows && rows[Dotted(p)] == Row(Get(yaml, p).value, File))
    && (forall k :: IsStartup(k) && k !in stored ==> rows[k] == Row(Str(Seal(encrypt, k, startup[k])), File))
  }

  /** The startup entries init inserts, in the order of the key table. */
  method StartupEntries(startup: map<string, string>, encrypt: string -> Option<string>) returns (entries: Entries)
    requires CoversStartup(startup)
    ensures Functional(entries)
    ensures forall k, x :: (k, x) in entries <==> IsStartup(k) && x == Str(Seal(encrypt, k, startup[k]))
    ensures forall k :: Listed(entries, k) <==> IsStartup(k)
  {
    entries := [];
    for i := 0 to |STARTUP|
      invariant forall k, x :: (k, x) in entries <==> k in STARTUP[..i] && x == Str(Seal(encrypt, k, startup[k]))
    {
      hide Seal;
      var key := STARTUP[i];
      assert STARTUP[..i + 1] == STARTUP[..i] + [key];
      entries := entries + [(key, Str(Seal(encrypt, key, startup[key])))];
    }
    hide Seal;
    assert STARTUP[..|STARTUP|] == STARTUP;
    forall i, j | 0 <= i < |entries| && 0 <= j < |entries| && entries[i].0 == entries[j].0
      ensures entries[i].1 == entries[j].1
    {
      assert (entries[i].0, entries[i].1) in entries && (entries[j].0, entries[j].1) in entries;
    }
    forall k ensures Listed(entries, k) <==> IsStartup(k) {
      if IsStartup(k) {
        assert (k, Str(Seal(encrypt, k, startup[k]))) in entries;
      }
    }
  }

  method SeedRows(s: Schema, yaml: Json, startup: map<string, string>, encrypt: string -> Option<string>,
                  stored: Rows) returns (rows: Rows)
    requires HotSchema(s) && Conforms(yaml, s) && CoversStartup(startup)
    ensures Seeded(s, yaml, startup, encrypt, stored, rows)
  {
    var flat := FlattenJson(yaml, "", []);
    assert flat == Flat(yaml, "");
    FlatIsFunctional(s, yaml);
    rows := InsertMissing(stored, flat);
    ghost var withHot := rows;
    var entries := StartupEntries(startup, encrypt);
    rows := InsertMissing(rows, entries);
    SeedsComplete(s, yaml, startup, encrypt, stored, withHot, entries, rows);
  }

  lemma LeafSeeded(s: Schema, yaml: Json, stored: Rows, withHot: Rows, entries: Entries, rows: Rows, p: Path)
    requires HotSchema(s) && Conforms(yaml, s) && LeafPath(s, p) && Dotted(p) !in stored
    requires Filled(stored, Flat(yaml, ""), withHot) && Filled(withHot, entries, rows)
    ensures Get(yaml, p).Some? && Dotted(p) in rows && rows[Dotted(p)] == Row(Get(yaml, p).value, File)
  {
    assert NamesOk(s);
    hide Flat, Conforms, NamesOk, Dotted, LeafPath, Get, HotSchema, Listed;
    LeafIsListed(s, yaml, p);
  }

  lemma StartupSeeded(s: Schema, yaml: Json, stored: Rows, withHot: Rows, entries: Entries, rows: Rows, k: string, x: Json)
    requires HotSchema(s) && Conforms(yaml, s) && IsStartup(k) && k !in stored && (k, x) in entries
    requires Filled(stored, Flat(yaml, ""), withHot) && Filled(withHot, entries, rows)
    ensures k in rows && rows[k] == Row(x, File)
  {
    hide Flat, Conforms, HotSchema, Listed, IsStartup;
    StartupNotListed(s, yaml, k);
  }

  lemma SeedsComplete(s: Schema, yaml: Json, startup: map<string, string>, encrypt: string -> Option<string>,
                      stored: Rows, withHot: Rows, entries: Entries, rows: Rows)
    requires HotSchema(s) && Conforms(yaml, s) && CoversStartup(startup)
    requires Filled(stored, Flat(yaml, ""), withHot) && Filled(withHot, entries, rows)
    requires forall k, x :: (k, x) in entries <==> IsStartup(k) && x == Str(Seal(encrypt, k, startup[k]))
    requires forall k :: Listed(entries, k) <==> IsStartup(k)
    ensures Seeded(s, yaml, startup, encrypt, stored, rows)
  {
    hide Flat, Conforms, NamesOk, Dotted, LeafPath, Get, Seal, HotSchema, Listed, HotKey, Filled, IsStartup;
    KeysSeeded(s, yaml, stored, withHot, entries, rows);
    forall p | LeafPath(s, p) && Dotted(p) !in stored
      ensures Get(yaml, p).Some? && Dotted(p) in rows && rows[Dotted(p)] == Row(Get(yaml, p).value, File)
    {
      LeafSeeded(s, yaml, stored, withHot, entries, rows, p);
    }
    forall k | IsStartup(k) && k !in stored ensures rows[k] == Row(Str(Seal(encrypt, k, startup[k])), File) {
      StartupSeeded(s, yaml, stored, withHot, entries, rows, k, Str(Seal(encrypt, k, startup[k])));
    }
  }

  lemma KeysSeeded(s: Schema, yaml: Json, stored: Rows, withHot: Rows, entries: Entries, rows: Rows)
    requires HotSchema(s) && Conforms(yaml, s)
    requires Filled(stored, Flat(yaml, ""), withHot) && Filled(withHot, entries, rows)
    requires forall k :: Listed(entries, k) <==> IsStartup(k)
    ensures forall k :: k in rows <==> k in stored || IsStartup(k) || HotKey(s, k)
    ensures forall k :: k in stored ==> rows[k] == stored[k]
  {
    hide Flat, Conforms, NamesOk, HotKey, Listed, IsStartup;
    forall k ensures HotKey(s, k) <==> Listed(Flat(yaml, ""), k) {
      HotKeyIsListed(s, yaml, k);
    }
  }

  lemma StartupNotListed(s: Schema, yaml: Json, k: string)
    requires HotSchema(s) && Conforms(yaml, s) && IsStartup(k)
    ensures !Listed(Flat(yaml, ""), k)
  {
    hide Flat, Conforms, NamesOk, Dotted, LeafPath, Get, Listed;
    HotKeyIsListed(s, yaml, k);
    if p :| LeafPath(s, p) && Dotted(p) == k {
      HotIsNotStartup(s, p);
    }
  }

  /** The loop of put that judges every entry, in whatever order the request lists them. */
  method Validate(s: Schema, base: Json, canSeal: bool, updates: map<string, Json>)
    returns (ok: bool, validated: map<string, Json>)
    requires HotSchema(s) && Conforms(base, s)
    ensures ok <==> Accepted(s, canSeal, updates)
    ensures ok ==> validated == map k | k in updates && Ruling(s, canSeal, k, updates[k]).Save?
                                    :: Ruling(s, canSeal, k, updates[k]).value
  {
    var hotKeys := HotKeys(s, base);
    hide Judge, Ruling, HotKey, Conforms, HotSchema;
    validated := map[];
    var rest := updates.Keys;
    while rest != {}
      invariant rest <= updates.Keys
      invariant forall k :: k in validated <==> k in updates && k !in rest && Ruling(s, canSeal, k, updates[k]).Save?
      invariant forall k :: k in validated ==> validated[k] == Ruling(s, canSeal, k, updates[k]).value
      invariant forall k :: k in updates && k !in rest ==> !Ruling(s, canSeal, k, updates[k]).Refuse?
    {
      var key :| key in rest;
      JudgeIsRuling(s, base, hotKeys, canSeal, key, updates[key]);
      match Judge(s, base, hotKeys, canSeal, key, updates[key]) {
        case Skip =>
        case Refuse => return false, validated;
        case Save(x) => validated := validated[key := x];
      }
      rest := rest - {key};
    }
    ok := true;
  }

  /** The upserts of put, one per validated entry. */
  method Persist(s: Schema, canSeal: bool, encrypt: string -> Option<string>, before: Rows,
                 ghost updates: map<string, Json>, validated: map<string, Json>) returns (rows: Rows)
    requires validated == map k | k in updates && Ruling(s, canSeal, k, updates[k]).Save?
                              :: Ruling(s, canSeal, k, updates[k]).value
    ensures rows == RowsAfterPut(s, canSeal, encrypt, before, updates)
  {
    hide Ruling, Stored;
    rows := before;
    var rest := validated.Keys;
    while rest != {}
      invariant rest <= validated.Keys
      invariant forall k :: k in rows <==> k in before || (k in validated && k !in rest)
      invariant forall k :: k in validated && k !in rest ==> rows[k] == Row(Stored(encrypt, k, validated[k]), Ui)
      invariant forall k :: k in before && (k !in validated || k in rest) ==> rows[k] == before[k]
    {
      var key :| key in rest;
      rows := rows[key := Row(Stored(encrypt, key, validated[key]), Ui)];
      rest := rest - {key};
    }
  }

  // -------------------------------------------------------------------- runs

  datatype Op = PutOp(updates: map<string, Json>) | ReloadOp(yaml: Json)

  ghost predicate Step(s: Schema, canSeal: bool, encrypt: string -> Option<string>, a: State, op: Op, b: State) {
    && Good(s, b)
    && match op
       case PutOp(updates) =>
         if Accepted(s, canSeal, updates)
         then b.yaml == a.yaml && b.rows == RowsAfterPut(s, canSeal, encrypt, a.rows, updates)
         else b == a
       case ReloadOp(yaml) => b.yaml == yaml && RowsAfterReload(s, yaml, a.rows, b.rows)
  }

  ghost predicate Run(s: Schema, canSeal: bool, encrypt: string -> Option<string>, states: seq<State>, ops: seq<Op>) {
    && |states| == |ops| + 1
    && forall i :: 0 <= i < |ops| ==> Step(s, canSeal, encrypt, states[i], ops[i], states[i + 1])
  }

  /** The value of `key` in the last accepted save that carried it unmasked. */
  ghost function LastSaved(s: Schema, canSeal: bool, ops: seq<Op>, key: string): Option<Json> {
    if ops == [] then None
    else
      var last := ops[|ops| - 1];
      if last.PutOp? && Accepted(s, canSeal, last.updates) && key in last.updates && last.updates[key] != Str("***")
      then Some(last.updates[key])
      else LastSaved(s, canSeal, ops[..|ops| - 1], key)
  }

  function LastYaml(yaml: Json, ops: seq<Op>): Json {
    if ops == [] then yaml
    else match ops[|ops| - 1]
      case ReloadOp(y) => y
      case PutOp(_) => LastYaml(yaml, ops[..|ops| - 1])
  }

  /** Same UI override, if any. */
  predicate SameUi(a: Rows, b: Rows, k: string) {
    (IsUi(a, k) <==> IsUi(b, k)) && (IsUi(a, k) ==> a[k] == b[k])
  }

  lemma PutOnLeaf(s: Schema, canSeal: bool, encrypt: string -> Option<string>, rows: Rows,
                  updates: map<string, Json>, p: Path)
    requires HotSchema(s) && LeafPath(s, p) && Accepted(s, canSeal, updates)
    ensures var k, now := Dotted(p), RowsAfterPut(s, canSeal, encrypt, rows, updates);
      if k in updates && updates[k] != Str("***")
      then k in now && now[k] == Row(updates[k], Ui) && FitsKind(updates[k], KindAt(s, p))
      else SameUi(rows, now, k)
  {
    hide NamesOk, Dotted, LeafPath, KindAt, FitsKind, NormalizeStartup;
    var k := Dotted(p);
    HotIsNotStartup(s, p);
    if k in updates && updates[k] != Str("***") {
      var ruling := Ruling(s, canSeal, k, updates[k]);
      assert !ruling.Refuse?;
      var q :| LeafPath(s, q) && Dotted(q) == k && FitsKind(updates[k], KindAt(s, q));
      DottedInjective(s, p, q);
    }
  }

  /** Whatever is saved and reloaded, a leaf's UI row is its last accepted save, or the one it began with. */
  lemma {:induction false} UiRowIsLastSave(s: Schema, canSeal: bool, encrypt: string -> Option<string>,
                                           states: seq<State>, ops: seq<Op>, p: Path)
    requires |states| > 0 && Good(s, states[0]) && Run(s, canSeal, encrypt, states, ops) && LeafPath(s, p)
    ensures states[|ops|].yaml == LastYaml(states[0].yaml, ops)
    ensures var k := Dotted(p);
      match LastSaved(s, canSeal, ops, k)
      case Some(x) => k in states[|ops|].rows && states[|ops|].rows[k] == Row(x, Ui) && FitsKind(x, KindAt(s, p))
      case None => SameUi(states[0].rows, states[|ops|].rows, k)
    decreases |ops|
  {
    hide Conforms, IsMerged, NamesOk, Dotted, LeafPath, KindAt, FitsKind, RowsAfterPut, Accepted;
    if ops != [] {
      var n := |ops| - 1;
      UiRowIsLastSave(s, canSeal, encrypt, states[..|ops|], ops[..n], p);
      assert Step(s, canSeal, encrypt, states[n], ops[n], states[n + 1]);
      if ops[n].PutOp? && Accepted(s, canSeal, ops[n].updates) {
        PutOnLeaf(s, canSeal, encrypt, states[n].rows, ops[n].updates, p);
      }
      if ops[n].ReloadOp? {
        assert Dotted(p) in states[n + 1].rows;
      }
    }
  }

  /** After any run the effective configuration shows, at every leaf, the last accepted save, else a
      valid UI row it began with, else the YAML loaded last. */
  lemma EffectiveIsOverlay(s: Schema, canSeal: bool, encrypt: string -> Option<string>,
                           states: seq<State>, ops: seq<Op>, p: Path)
    requires HotSchema(s) && |states| > 0 && Good(s, states[0]) && Run(s, canSeal, encrypt, states, ops) && LeafPath(s, p)
    ensures Get(states[|ops|].effective, p)
         == match LastSaved(s, canSeal, ops, Dotted(p))
            case Some(x) => Some(x)
            case None => Wanted(s, LastYaml(states[0].yaml, ops), states[0].rows, p)
  {
    hide Conforms, NamesOk, Dotted, LeafPath, KindAt, FitsKind;
    UiRowIsLastSave(s, canSeal, encrypt, states, ops, p);
    assert ops != [] ==> Step(s, canSeal, encrypt, states[|ops| - 1], ops[|ops| - 1], states[|ops|]);
    assert IsMerged(s, states[|ops|].yaml, states[|ops|].rows, states[|ops|].effective);
  }

  class SettingsEngine {
    const schema: Schema
    const canSeal: bool
    const encrypt: string -> Option<string>
    var yamlHot: Json
    var effective: Json
    var rows: Rows

    ghost predicate Valid()
      reads this
    {
      Good(schema, Now())
    }

    function Now(): State
      reads this
    {
      State(yamlHot, rows, effective)
    }

    /** merge_effective: the UI rows in whatever order the query returns them. */
    method MergeEffective(yaml: Json) returns (merged: Json)
      requires HotSchema(schema) && Conforms(yaml, schema)
      ensures IsMerged(schema, yaml, rows, merged)
    {
      var hotKeys := HotKeys(schema, yaml);
      merged := yaml;
      var ui := UiPart(rows);
      var rest := ui.Keys;
      ghost var done: Rows := map[];
      YamlIsMerged(schema, yaml);
      while rest != {}
        invariant rest <= ui.Keys && done == map k | k in ui && k !in rest :: ui[k]
        invariant IsMerged(schema, yaml, done, merged)
      {
        hide IsMerged, HotKey, Conforms, HotSchema, ApplyOverride;
        var key :| key in rest;
        if key in hotKeys {
          LayKeepsMerged(schema, yaml, done, merged, key, ui[key].value);
          match ApplyOverride(schema, merged, key, ui[key].value) {
            case Ok(next) => merged := next;
            case Err(_) =>
          }
        } else {
          ColdRowIsInert(schema, yaml, done, merged, key, ui[key]);
        }
        done := done[key := ui[key]];
        rest := rest - {key};
      }
      assert done == ui;
      OnlyUiRowsMatter(schema, yaml, rows, merged);
    }

    /** put: every entry is judged before any row is written, so a refusal changes nothing. */
    method Put(updates: map<string, Json>) returns (saved: bool)
      requires Valid()
      modifies this
      ensures Valid() && yamlHot == old(yamlHot)
      ensures saved <==> Accepted(schema, canSeal, updates)
      ensures saved ==> rows == RowsAfterPut(schema, canSeal, encrypt, old(rows), updates)
      ensures !saved ==> Now() == old(Now())
      ensures saved <==> forall k :: k in updates ==> Allowed(schema, canSeal, k, updates[k])
      ensures saved ==> Saved(encrypt, old(rows), updates, rows)
      ensures Step(schema, canSeal, encrypt, old(Now()), PutOp(updates), Now())
    {
      hide Ruling, Conforms, IsMerged, HotSchema, Stored, Accepted, RowsAfterPut, Allowed, Saved;
      AcceptedMeansAllowed(schema, canSeal, encrypt, rows, updates);
      var validated;
      saved, validated := Validate(schema, yamlHot, canSeal, updates);
      if saved {
        rows := Persist(schema, canSeal, encrypt, rows, updates, validated);
        effective := MergeEffective(yamlHot);
      }
    }

    /** on_file_reload: one UPDATE or INSERT per flattened key, then the merge. */
    method OnFileReload(newHot: Json)
      requires Valid() && Conforms(newHot, schema)
      modifies this
      ensures Valid() && yamlHot == newHot
      ensures RowsAfterReload(schema, newHot, old(rows), rows)
      ensures Step(schema, canSeal, encrypt, old(Now()), ReloadOp(newHot), Now())
    {
      hide Conforms, IsMerged, HotSchema, RowsAfterReload;
      rows := RefreshFileRows(schema, rows, newHot);
      yamlHot := newHot;
      effective := MergeEffective(yamlHot);
    }

    /** init: missing keys are inserted as file rows, stored rows are kept, then the merge. */
    constructor (schema: Schema, yaml: Json, startup: map<string, string>, stored: Rows,
                 canSeal: bool, encrypt: string -> Option<string>)
      requires HotSchema(schema) && Conforms(yaml, schema) && CoversStartup(startup)
      ensures Valid() && this.schema == schema && this.canSeal == canSeal && this.encrypt == encrypt
      ensures yamlHot == yaml && Seeded(schema, yaml, startup, encrypt, stored, rows)
    {
      this.schema, this.canSeal, this.encrypt := schema, canSeal, encrypt;
      yamlHot, effective, rows := yaml, yaml, stored;
      new;
      hide Conforms, IsMerged, HotSchema, Seeded;
      rows := SeedRows(schema, yaml, startup, encrypt, stored);
      effective := MergeEffective(yaml);
    }
  }
}
