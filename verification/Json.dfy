/**
 JSON values and their canonical text (src/idempotency.rs, canon / fingerprint).

 An object is a map, so `==` on values is equality up to object key order and
 array order counts. A number is the text serde_json prints for it.
 */
module Json {
  import opened Strings

  datatype Json =
    | Null
    | Bool(b: bool)
    | Num(numeral: string)
    | Str(s: string)
    | Arr(items: seq<Json>)
    | Obj(fields: map<string, Json>)

  /** A `&mut String` that printers append to. */
  class TextBuffer {
    var text: string

    constructor ()
      ensures text == ""
    {
      text := "";
    }

    method PushStr(s: string)
      modifies this
      ensures text == old(text) + s
    {
      text := text + s;
    }
  }

  // ---------------------------------------------------------------- numerals

  predicate NumeralChar(c: char) {
    '0' <= c <= '9' || c == '-' || c == '+' || c == '.' || c == 'e' || c == 'E'
  }

  /** The texts serde_json prints for finite numbers. */
  predicate Numeral(n: string) {
    && |n| > 0
    && (n[0] == '-' || '0' <= n[0] <= '9')
    && forall i :: 0 <= i < |n| ==> NumeralChar(n[i])
  }

  ghost predicate WellFormed(v: Json) {
    match v
    case Num(n) => Numeral(n)
    case Arr(items) => forall x :: x in items ==> WellFormed(x)
    case Obj(fields) => forall k :: k in fields ==> WellFormed(fields[k])
    case _ => true
  }

  // ------------------------------------------------------------ string escape

  function HexDigit(n: nat): char
    requires n < 16
  {
    "0123456789abcdef"[n]
  }

  /** serde_json's escape table: short forms, then lower-case \u00XX below U+0020. */
  function EscapeChar(c: char): string {
    if c == '"' then "\\\""
    else if c == '\\' then "\\\\"
    else if c as int == 8 then "\\b"
    else if c as int == 9 then "\\t"
    else if c as int == 10 then "\\n"
    else if c as int == 12 then "\\f"
    else if c as int == 13 then "\\r"
    else if (c as int) < 32 then "\\u00" + [HexDigit(c as int / 16), HexDigit(c as int % 16)]
    else [c]
  }

  /** The escaped form of `s` followed by `rest`. */
  function Escape(s: string, rest: string): string {
    if s == "" then rest else EscapeChar(s[0]) + Escape(s[1..], rest)
  }

  /** The string literal of `s` followed by `rest`. */
  function Quote(s: string, rest: string): string {
    ['"'] + Escape(s, ['"'] + rest)
  }

  lemma {:induction false} EscapeAppend(s: string, rest: string, more: string)
    ensures Escape(s, rest + more) == Escape(s, rest) + more
  {
    if s != "" {
      EscapeAppend(s[1..], rest, more);
      Assoc(EscapeChar(s[0]), Escape(s[1..], rest), more);
    }
  }

  lemma QuoteAppend(s: string, rest: string)
    ensures Quote(s, rest) == Quote(s, "") + rest
  {
    assert ['"'] + rest == (['"'] + "") + rest;
    EscapeAppend(s, ['"'] + "", rest);
    Assoc(['"'], Escape(s, ['"'] + ""), rest);
  }

  lemma Assoc(a: string, b: string, c: string)
    ensures a + (b + c) == a + b + c
  {
  }

  // ---------------------------------------------------------- canonical text

  /** The canonical text of `v` followed by `rest`. */
  function Text(v: Json, rest: string): string
    decreases v, 1, 0
  {
    match v
    case Null => "null" + rest
    case Bool(b) => (if b then "true" else "false") + rest
    case Num(n) => n + rest
    case Str(s) => Quote(s, rest)
    case Arr(items) => ['['] + ItemsText(items, true, [']'] + rest)
    case Obj(fields) => ['{'] + FieldsText(v, SortedKeys(fields.Keys), true, ['}'] + rest)
  }

  function Comma(first: bool): string {
    if first then "" else [',']
  }

  function ItemsText(items: seq<Json>, first: bool, rest: string): string
    decreases items, 0, 0
  {
    if items == [] then rest else Comma(first) + Text(items[0], ItemsText(items[1..], false, rest))
  }

  function FieldsText(v: Json, keys: seq<string>, first: bool, rest: string): string
    requires v.Obj? && forall k :: k in keys ==> k in v.fields
    decreases v, 0, |keys|
  {
    if keys == [] then rest
    else
      Comma(first) + Quote(keys[0], [':'] + Text(v.fields[keys[0]], FieldsText(v, keys[1..], false, rest)))
  }

  /** The canonical text that the fingerprint hashes. */
  function CanonText(v: Json): string {
    Text(v, "")
  }

  /** The printer itself: it appends to `out`, sorting each object's keys before it prints them.
      `rest` is what the caller still has to append. */
  method Canon(v: Json, out: TextBuffer, ghost rest: string)
    modifies out
    ensures out.text + rest == old(out.text) + Text(v, rest)
    decreases v, 1
  {
    match v
    case Null => out.PushStr("null");
    case Bool(b) => out.PushStr(if b then "true" else "false");
    case Num(n) => out.PushStr(n);
    case Str(s) =>
      QuoteAppend(s, rest);
      out.PushStr(Quote(s, ""));
    case Arr(items) => CanonItems(items, out, rest);
    case Obj(fields) =>
      var keys := CollectSorted(fields.Keys);
      CanonFields(v, keys, out, rest);
  }

  method CanonItems(items: seq<Json>, out: TextBuffer, ghost rest: string)
    modifies out
    ensures out.text + rest == old(out.text) + (['['] + ItemsText(items, true, [']'] + rest))
    decreases items, 0
  {
    out.PushStr("[");
    var i := 0;
    while i < |items|
      invariant 0 <= i <= |items|
      invariant old(out.text) + (['['] + ItemsText(items, true, [']'] + rest))
             == out.text + ItemsText(items[i..], i == 0, [']'] + rest)
    {
      CanonItem(items, i, out, [']'] + rest);
      i := i + 1;
    }
    out.PushStr("]");
  }

  /** One round of the array loop: the separator and the element. */
  method CanonItem(items: seq<Json>, i: nat, out: TextBuffer, ghost rest: string)
    requires i < |items|
    modifies out
    ensures out.text + ItemsText(items[i + 1..], false, rest) == old(out.text) + ItemsText(items[i..], i == 0, rest)
    decreases items, 0, 0
  {
    assert items[i..][1..] == items[i + 1..];
    ghost var others := ItemsText(items[i + 1..], false, rest);
    if i > 0 {
      Assoc(out.text, [','], Text(items[i], others));
      out.PushStr(",");
    }
    Canon(items[i], out, others);
  }

  lemma FieldsStep(v: Json, keys: seq<string>, i: nat, rest: string)
    requires v.Obj? && (forall k :: k in keys ==> k in v.fields) && i < |keys|
    ensures forall k :: k in keys[i..] || k in keys[i + 1..] ==> k in v.fields
    ensures FieldsText(v, keys[i..], i == 0, rest)
         == Comma(i == 0) + Quote(keys[i], [':'] + Text(v.fields[keys[i]], FieldsText(v, keys[i + 1..], false, rest)))
  {
    assert keys[i..][1..] == keys[i + 1..];
  }

  method CanonFields(v: Json, keys: seq<string>, out: TextBuffer, ghost rest: string)
    requires v.Obj? && forall k :: k in keys ==> k in v.fields
    modifies out
    ensures out.text + rest == old(out.text) + (['{'] + FieldsText(v, keys, true, ['}'] + rest))
    decreases v, 0
  {
    hide Text, ItemsText, Quote, Escape;
    out.PushStr("{");
    assert keys[0..] == keys;
    var i := 0;
    while i < |keys|
      invariant 0 <= i <= |keys|
      invariant old(out.text) + (['{'] + FieldsText(v, keys, true, ['}'] + rest))
             == out.text + FieldsText(v, keys[i..], i == 0, ['}'] + rest)
    {
      hide FieldsText;
      CanonField(v, keys, i, out, ['}'] + rest);
      i := i + 1;
    }
    out.PushStr("}");
  }

  /** One round of the object loop: the separator, the key and its value. */
  method CanonField(v: Json, keys: seq<string>, i: nat, out: TextBuffer, ghost rest: string)
    requires v.Obj? && (forall k :: k in keys ==> k in v.fields) && i < |keys|
    modifies out
    ensures out.text + FieldsText(v, keys[i + 1..], false, rest) == old(out.text) + FieldsText(v, keys[i..], i == 0, rest)
    decreases v, 0, 0
  {
    FieldsStep(v, keys, i, rest);
    hide FieldsText, Text, Quote;
    var k := keys[i];
    ghost var others := FieldsText(v, keys[i + 1..], false, rest);
    QuoteAppend(k, [':'] + Text(v.fields[k], others));
    ghost var value := [':'] + Text(v.fields[k], others);
    if i > 0 {
      out.PushStr(",");
      Assoc(old(out.text), [','], Quote(k, value));
    }
    Assoc(out.text, Quote(k, ""), value);
    out.PushStr(Quote(k, ""));
    Assoc(out.text, [':'], Text(v.fields[k], others));
    out.PushStr(":");
    Canon(v.fields[k], out, others);
  }

  // ------------------------------------------------------------ unambiguity

  /** What may follow a value inside a canonical text. */
  predicate Delimited(x: string) {
    x == "" || x[0] == ',' || x[0] == ']' || x[0] == '}'
  }

  lemma SplitSame(p: string, q: string, x: string, y: string)
    requires p + x == q + y && |p| == |q|
    ensures p == q && x == y
  {
    assert (p + x)[..|p|] == p && (q + y)[..|q|] == q;
    assert (p + x)[|p|..] == x && (q + y)[|q|..] == y;
  }

  lemma FirstBeyond(n: string, m: string, x: string, y: string)
    requires n + x == m + y && |n| < |m|
    ensures x != "" && x[0] == m[|n|]
  {
    assert (n + x)[|n|] == (m + y)[|n|];
  }

  lemma NumeralPrefix(n: string, m: string, x: string, y: string)
    requires Numeral(n) && Numeral(m) && Delimited(x) && Delimited(y)
    requires n + x == m + y
    ensures n == m && x == y
  {
    if |n| < |m| {
      FirstBeyond(n, m, x, y);
    } else if |m| < |n| {
      FirstBeyond(m, n, y, x);
    } else {
      SplitSame(n, m, x, y);
    }
  }

  lemma HexDigitInjective(a: nat, b: nat)
    requires a < 16 && b < 16 && HexDigit(a) == HexDigit(b)
    ensures a == b
  {
  }

  /** No escape form is a proper prefix of another. */
  lemma EscapeCharPrefixFree(c: char, d: char, x: string, y: string)
    requires EscapeChar(c) + x == EscapeChar(d) + y
    ensures c == d && x == y
  {
    var p, q := EscapeChar(c), EscapeChar(d);
    assert (p + x)[0] == p[0] && (q + y)[0] == q[0];
    assert |p| > 1 ==> (p + x)[1] == p[1];
    assert |q| > 1 ==> (q + y)[1] == q[1];
    SplitSame(p, q, x, y);
    if |p| > 2 {
      assert p[4] == HexDigit(c as int / 16) && q[4] == HexDigit(d as int / 16);
      assert p[5] == HexDigit(c as int % 16) && q[5] == HexDigit(d as int % 16);
      HexDigitInjective(c as int / 16, d as int / 16);
      HexDigitInjective(c as int % 16, d as int % 16);
    }
  }

  lemma {:induction false} EscapePrefix(s: string, t: string, x: string, y: string)
    requires Escape(s, ['"'] + x) == Escape(t, ['"'] + y)
    ensures s == t && x == y
  {
    if s == "" && t == "" {
      SplitSame(['"'], ['"'], x, y);
    } else if s != "" && t != "" {
      EscapeCharPrefixFree(s[0], t[0], Escape(s[1..], ['"'] + x), Escape(t[1..], ['"'] + y));
      EscapePrefix(s[1..], t[1..], x, y);
      assert s == [s[0]] + s[1..] && t == [t[0]] + t[1..];
    } else {
      EscapeNotQuote(if s == "" then t else s, if s == "" then ['"'] + y else ['"'] + x);
    }
  }

  lemma EscapeNotQuote(s: string, rest: string)
    requires s != ""
    ensures Escape(s, rest) != "" && Escape(s, rest)[0] != '"'
  {
  }

  lemma QuotePrefix(s: string, t: string, x: string, y: string)
    requires Quote(s, x) == Quote(t, y)
    ensures s == t && x == y
  {
    SplitSame(['"'], ['"'], Escape(s, ['"'] + x), Escape(t, ['"'] + y));
    EscapePrefix(s, t, x, y);
  }

  /** The first character of a canonical text tells the kind of value. */
  ghost function Lead(v: Json): char
    requires WellFormed(v)
  {
    match v
    case Null => 'n'
    case Bool(b) => if b then 't' else 'f'
    case Num(n) => n[0]
    case Str(_) => '"'
    case Arr(_) => '['
    case Obj(_) => '{'
  }

  lemma LeadIsFirst(v: Json, rest: string)
    requires WellFormed(v)
    ensures Text(v, rest) != "" && Text(v, rest)[0] == Lead(v)
  {
  }

  /** Canonical texts can be read back in one way only, in any delimited context. */
  lemma {:induction false} TextPrefix(a: Json, b: Json, x: string, y: string)
    requires WellFormed(a) && WellFormed(b) && Delimited(x) && Delimited(y)
    requires Text(a, x) == Text(b, y)
    ensures a == b && x == y
    decreases a, 1, 0
  {
    LeadIsFirst(a, x);
    LeadIsFirst(b, y);
    match a
    case Null => SplitSame("null", "null", x, y);
    case Bool(p) => SplitSame(if p then "true" else "false", if p then "true" else "false", x, y);
    case Num(n) => NumeralPrefix(n, b.numeral, x, y);
    case Str(s) => QuotePrefix(s, b.s, x, y);
    case Arr(items) =>
      SplitSame(['['], ['['], ItemsText(items, true, [']'] + x), ItemsText(b.items, true, [']'] + y));
      AllWellFormedFrom(items);
      AllWellFormedFrom(b.items);
      ItemsPrefix(items, b.items, true, x, y);
    case Obj(fields) =>
      var ka, kb := SortedKeys(fields.Keys), SortedKeys(b.fields.Keys);
      SplitSame(['{'], ['{'], FieldsText(a, ka, true, ['}'] + x), FieldsText(b, kb, true, ['}'] + y));
      FieldsPrefix(a, b, ka, kb, true, x, y);
      SameFields(a, b);
  }

  lemma SameFields(a: Json, b: Json)
    requires a.Obj? && b.Obj? && SortedKeys(a.fields.Keys) == SortedKeys(b.fields.Keys)
    requires forall k :: k in SortedKeys(a.fields.Keys) && k in b.fields ==> a.fields[k] == b.fields[k]
    ensures a == b
  {
    assert forall k :: k in SortedKeys(a.fields.Keys) <==> k in a.fields.Keys;
    assert forall k :: k in SortedKeys(b.fields.Keys) <==> k in b.fields.Keys;
    assert a.fields == b.fields;
  }

  ghost predicate AllWellFormed(items: seq<Json>) {
    if items == [] then true else WellFormed(items[0]) && AllWellFormed(items[1..])
  }

  lemma {:induction false} AllWellFormedFrom(items: seq<Json>)
    requires forall x :: x in items ==> WellFormed(x)
    ensures AllWellFormed(items)
  {
    if items != [] {
      AllWellFormedFrom(items[1..]);
    }
  }

  lemma ItemsLead(items: seq<Json>, first: bool, x: string)
    requires AllWellFormed(items)
    ensures var t := ItemsText(items, first, [']'] + x);
      t != "" && t[0] == if items == [] then ']' else if first then Lead(items[0]) else ','
  {
    if items != [] {
      LeadIsFirst(items[0], ItemsText(items[1..], false, [']'] + x));
    }
  }

  lemma {:induction false} ItemsPrefix(a: seq<Json>, b: seq<Json>, first: bool, x: string, y: string)
    requires AllWellFormed(a) && AllWellFormed(b)
    requires ItemsText(a, first, [']'] + x) == ItemsText(b, first, [']'] + y)
    ensures a == b && x == y
    decreases a, 0, 0
  {
    ItemsLead(a, first, x);
    ItemsLead(b, first, y);
    if a == [] && b == [] {
      SplitSame([']'], [']'], x, y);
    } else if a != [] && b != [] {
      var ta, tb := ItemsText(a[1..], false, [']'] + x), ItemsText(b[1..], false, [']'] + y);
      SplitSame(Comma(first), Comma(first), Text(a[0], ta), Text(b[0], tb));
      TextPrefix(a[0], b[0], ta, tb);
      ItemsPrefix(a[1..], b[1..], false, x, y);
      assert a == [a[0]] + a[1..] && b == [b[0]] + b[1..];
    }
  }

  lemma FieldsLead(v: Json, keys: seq<string>, first: bool, x: string)
    requires v.Obj? && forall k :: k in keys ==> k in v.fields
    ensures var t := FieldsText(v, keys, first, ['}'] + x);
      t != "" && t[0] == if keys == [] then '}' else if first then '"' else ','
  {
  }

  lemma {:induction false} FieldsPrefix(
    a: Json, b: Json, ka: seq<string>, kb: seq<string>, first: bool, x: string, y: string)
    requires a.Obj? && b.Obj? && WellFormed(a) && WellFormed(b)
    requires (forall k :: k in ka ==> k in a.fields) && (forall k :: k in kb ==> k in b.fields)
    requires FieldsText(a, ka, first, ['}'] + x) == FieldsText(b, kb, first, ['}'] + y)
    ensures ka == kb && x == y
    ensures forall k :: k in ka && k in b.fields ==> a.fields[k] == b.fields[k]
    decreases a, 0, |ka|
  {
    FieldsLead(a, ka, first, x);
    FieldsLead(b, kb, first, y);
    if ka == [] && kb == [] {
      SplitSame(['}'], ['}'], x, y);
    } else if ka != [] && kb != [] {
      var va, vb := a.fields[ka[0]], b.fields[kb[0]];
      var ta, tb := FieldsText(a, ka[1..], false, ['}'] + x), FieldsText(b, kb[1..], false, ['}'] + y);
      SplitSame(Comma(first), Comma(first), Quote(ka[0], [':'] + Text(va, ta)), Quote(kb[0], [':'] + Text(vb, tb)));
      QuotePrefix(ka[0], kb[0], [':'] + Text(va, ta), [':'] + Text(vb, tb));
      SplitSame([':'], [':'], Text(va, ta), Text(vb, tb));
      TextPrefix(va, vb, ta, tb);
      FieldsPrefix(a, b, ka[1..], kb[1..], false, x, y);
      assert ka == [ka[0]] + ka[1..] && kb == [kb[0]] + kb[1..];
    }
  }

  /** Two values have the same canonical text exactly when they are equal up to key order. */
  lemma CanonUnambiguous(a: Json, b: Json)
    requires WellFormed(a) && WellFormed(b)
    ensures CanonText(a) == CanonText(b) <==> a == b
  {
    if CanonText(a) == CanonText(b) {
      TextPrefix(a, b, "", "");
    }
  }

  /** With a collision-free hash, equal fingerprints mean equal parameters. */
  lemma FingerprintIsParameters(hash: string -> string, a: Json, b: Json)
    requires WellFormed(a) && WellFormed(b)
    requires forall s, t :: hash(s) == hash(t) ==> s == t
    ensures hash(CanonText(a)) == hash(CanonText(b)) <==> a == b
  {
    CanonUnambiguous(a, b);
  }

  // ------------------------------------------------------------ what it spells

  /** The escapes of section 7 of RFC 8259: quote, backslash and the characters below U+0020; nothing else. */
  lemma EscapesSpelled(c: char)
    ensures EscapeChar('"') == "\\\"" && EscapeChar('\\') == "\\\\"
    ensures EscapeChar(8 as char) == "\\b" && EscapeChar(9 as char) == "\\t" && EscapeChar(10 as char) == "\\n"
    ensures EscapeChar(12 as char) == "\\f" && EscapeChar(13 as char) == "\\r" && EscapeChar(0x1f as char) == "\\u001f"
    ensures EscapeChar(c) == [c] <==> c as int >= 0x20 && c != '"' && c != '\\'
  {
    assert [HexDigit(1), HexDigit(15)] == "1f";
  }

  lemma TwoKeysSorted(a: string, b: string)
    requires Less(a, b)
    ensures SortedKeys({a, b}) == [a, b]
  {
    LessIrreflexive(a);
    SortedUnique(SortedKeys({a, b}), [a, b]);
  }

  /** The text of an object: its two entries by ascending key, without blanks. */
  lemma ObjectSpelled(a: string, x: Json, b: string, y: Json)
    requires Less(a, b)
    ensures CanonText(Obj(map[a := x, b := y]))
         == "{" + (Quote(a, "") + (":" + (CanonText(x) + ("," + (Quote(b, "") + (":" + (CanonText(y) + "}")))))))
  {
    hide Quote, Less, SortedKeys;
    assert a != b by { LessIrreflexive(a); }
    var v := Obj(map[a := x, b := y]);
    assert v.fields.Keys == {a, b};
    TwoKeysSorted(a, b);
    assert [a, b][1..] == [b] && [b][1..] == [];
    var last := [':'] + Text(y, "}");
    TextAppend(y, "", "}");
    assert "" + "}" == "}" && ['}'] + "" == "}";
    QuoteAppend(b, last);
    var tail := [','] + Quote(b, last);
    TextAppend(x, "", tail);
    assert "" + tail == tail;
    QuoteAppend(a, [':'] + Text(x, tail));
    FieldsStep(v, [a, b], 0, "}");
    FieldsStep(v, [a, b], 1, "}");
    assert [a, b][0..] == [a, b] && [a, b][2..] == [];
  }

  lemma {:induction false} TextAppend(v: Json, rest: string, more: string)
    ensures Text(v, rest + more) == Text(v, rest) + more
    decreases v, 1, 0
  {
    hide Quote, ItemsText, FieldsText, SortedKeys;
    match v
    case Null => Assoc("null", rest, more);
    case Bool(b) => Assoc(if b then "true" else "false", rest, more);
    case Num(n) => Assoc(n, rest, more);
    case Str(s) => QuoteMore(s, rest, more);
    case Arr(items) =>
      Assoc([']'], rest, more);
      ItemsAppend(items, true, [']'] + rest, more);
      Assoc(['['], ItemsText(items, true, [']'] + rest), more);
    case Obj(fields) =>
      Assoc(['}'], rest, more);
      var keys := SortedKeys(fields.Keys);
      FieldsAppend(v, keys, true, ['}'] + rest, more);
      Assoc(['{'], FieldsText(v, keys, true, ['}'] + rest), more);
  }

  lemma {:induction false} ItemsAppend(items: seq<Json>, first: bool, rest: string, more: string)
    ensures ItemsText(items, first, rest + more) == ItemsText(items, first, rest) + more
    decreases items, 0, 0
  {
    if items != [] {
      ItemsAppend(items[1..], false, rest, more);
      TextAppend(items[0], ItemsText(items[1..], false, rest), more);
    }
  }

  lemma {:induction false} FieldsAppend(v: Json, keys: seq<string>, first: bool, rest: string, more: string)
    requires v.Obj? && forall k :: k in keys ==> k in v.fields
    ensures FieldsText(v, keys, first, rest + more) == FieldsText(v, keys, first, rest) + more
    decreases v, 0, |keys|
  {
    if keys != [] {
      FieldsAppend(v, keys[1..], false, rest, more);
      var others := FieldsText(v, keys[1..], false, rest);
      TextAppend(v.fields[keys[0]], others, more);
      Assoc([':'], Text(v.fields[keys[0]], others), more);
      QuoteMore(keys[0], [':'] + Text(v.fields[keys[0]], others), more);
    }
  }

  lemma QuoteMore(s: string, rest: string, more: string)
    ensures Quote(s, rest + more) == Quote(s, rest) + more
  {
    QuoteAppend(s, rest + more);
    QuoteAppend(s, rest);
    Assoc(Quote(s, ""), rest, more);
  }

  /** The text of an array: its elements in order between brackets. */
  lemma ArraySpelled(x: Json, y: Json)
    ensures CanonText(Arr([x, y])) == "[" + (CanonText(x) + ("," + (CanonText(y) + "]")))
    ensures CanonText(Arr([])) == "[]" && CanonText(Obj(map[])) == "{}"
  {
    assert [x, y][1..] == [y] && [y][1..] == [];
    TextAppend(y, "", "]");
    TextAppend(x, "", [','] + Text(y, "]"));
    assert "" + "]" == "]" && [']'] + "" == "]" && "" + ([','] + Text(y, "]")) == [','] + Text(y, "]");
    assert ItemsText([y], false, "]") == [','] + Text(y, ItemsText([], false, "]"));
    assert ItemsText([x, y], true, "]") == Text(x, ItemsText([y], false, "]"));
    assert ItemsText([], true, "]") == "]" && ['}'] + "" == "}";
    assert SortedKeys({}) == [];
  }

  /** Nothing in the text has to be escaped. */
  predicate Plain(s: string) {
    forall c :: c in s ==> c as int >= 0x20 && c != '"' && c != '\\'
  }

  lemma {:induction false} PlainEscape(s: string, rest: string)
    requires Plain(s)
    ensures Escape(s, rest) == s + rest
  {
    if s != "" {
      assert forall c :: c in s[1..] ==> c in s;
      PlainEscape(s[1..], rest);
      assert s[0] in s;
      EscapesSpelled(s[0]);
      Assoc([s[0]], s[1..], rest);
      assert s == [s[0]] + s[1..];
    }
  }

  lemma PlainSpelled(s: string)
    requires Plain(s)
    ensures Quote(s, "") == "\"" + s + "\""
  {
    PlainEscape(s, ['"'] + "");
    assert ['"'] + "" == "\"";
    Assoc("\"", s, "\"");
  }

  /** The text of an object with one entry. */
  lemma EntrySpelled(a: string, x: Json)
    ensures CanonText(Obj(map[a := x])) == "{" + (Quote(a, "") + (":" + (CanonText(x) + "}")))
  {
    hide Quote, Less;
    var v := Obj(map[a := x]);
    assert v.fields.Keys == {a};
    SortedUnique(SortedKeys({a}), [a]);
    FieldsStep(v, [a], 0, "}");
    assert [a][0..] == [a] && [a][1..] == [] && ['}'] + "" == "}" && "" + "}" == "}";
    TextAppend(x, "", "}");
    QuoteAppend(a, [':'] + Text(x, "}"));
  }

  lemma ScalarsSpelled(n: string)
    ensures CanonText(Null) == "null" && CanonText(Bool(true)) == "true" && CanonText(Bool(false)) == "false"
    ensures CanonText(Num(n)) == n && CanonText(Str(n)) == Quote(n, "")
  {
    assert n + "" == n && "null" + "" == "null" && "true" + "" == "true" && "false" + "" == "false";
  }
}
