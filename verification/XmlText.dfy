/**
 Character data of XML: the five predefined entities (section 4.6 of XML 1.0), line ends, attribute
 values, and how trimming gets along with them (src/billing/transfer.rs:59-66, 387-477).
 */
module XmlText {
  import opened Wrappers
  import opened Strings
  import opened Numerals

  // ------------------------------------------------------------------ escaping

  /** `str::replace` with a character pattern. */
  function ReplaceChar(s: string, c: char, sub: string): string {
    if s == "" then "" else (if s[0] == c then sub else [s[0]]) + ReplaceChar(s[1..], c, sub)
  }

  /** xml_escape: five replacements, the ampersand first. */
  function XmlEscape(s: string): string {
    ReplaceChar(ReplaceChar(ReplaceChar(ReplaceChar(ReplaceChar(s,
      '&', "&amp;"), '<', "&lt;"), '>', "&gt;"), '"', "&quot;"), '\'', "&apos;")
  }

  function EntityOf(c: char): string {
    if c == '&' then "amp" else if c == '<' then "lt" else if c == '>' then "gt"
    else if c == '"' then "quot" else if c == '\'' then "apos" else ""
  }

  function EscapedChar(c: char): string {
    if EntityOf(c) == "" then [c] else ['&'] + EntityOf(c) + [';']
  }

  /** The escaped form, character by character. */
  function Escaped(s: string): string {
    if s == "" then "" else EscapedChar(s[0]) + Escaped(s[1..])
  }

  lemma {:induction false} ReplaceAppend(a: string, b: string, c: char, sub: string)
    ensures ReplaceChar(a + b, c, sub) == ReplaceChar(a, c, sub) + ReplaceChar(b, c, sub)
  {
    if a == "" {
      assert a + b == b;
    } else {
      assert (a + b)[1..] == a[1..] + b;
      ReplaceAppend(a[1..], b, c, sub);
      ConcatAssoc(if a[0] == c then sub else [a[0]], ReplaceChar(a[1..], c, sub), ReplaceChar(b, c, sub));
    }
  }

  lemma {:induction false} ReplaceAbsent(s: string, c: char, sub: string)
    requires c !in s
    ensures ReplaceChar(s, c, sub) == s
  {
    if s != "" {
      ReplaceAbsent(s[1..], c, sub);
      assert s == [s[0]] + s[1..];
    }
  }

  lemma ReplaceOne(x: char, c: char, sub: string)
    ensures ReplaceChar([x], c, sub) == if x == c then sub else [x]
  {
    assert ReplaceChar([x][1..], c, sub) == "";
  }

  lemma EscapeAppend(a: string, b: string)
    ensures XmlEscape(a + b) == XmlEscape(a) + XmlEscape(b)
  {
    var a1, b1 := ReplaceChar(a, '&', "&amp;"), ReplaceChar(b, '&', "&amp;");
    var a2, b2 := ReplaceChar(a1, '<', "&lt;"), ReplaceChar(b1, '<', "&lt;");
    var a3, b3 := ReplaceChar(a2, '>', "&gt;"), ReplaceChar(b2, '>', "&gt;");
    var a4, b4 := ReplaceChar(a3, '"', "&quot;"), ReplaceChar(b3, '"', "&quot;");
    ReplaceAppend(a, b, '&', "&amp;");
    ReplaceAppend(a1, b1, '<', "&lt;");
    ReplaceAppend(a2, b2, '>', "&gt;");
    ReplaceAppend(a3, b3, '"', "&quot;");
    ReplaceAppend(a4, b4, '\'', "&apos;");
  }

  /** Characters that could end a tag, an attribute or a text. */
  predicate Markup(c: char) {
    c == '<' || c == '>' || c == '"' || c == '\''
  }

  lemma EntityIsInert(c: char)
    ensures forall x :: x in EntityOf(c) ==> !Markup(x) && x != '&' && x != ';' && !IsSpace(x)
  {
  }

  lemma EscapedCharIsInert(c: char)
    ensures forall x :: x in EscapedChar(c) ==> !Markup(x)
    ensures EscapedChar(c) != ""
  {
    hide EntityOf;
    EntityIsInert(c);
    MarkupHasEntity(c);
  }

  lemma MarkupHasEntity(c: char)
    ensures EntityOf(c) == "" <==> !Markup(c) && c != '&'
  {
  }

  /** No later replacement touches what an earlier one wrote. */
  lemma EscapeOne(c: char)
    ensures XmlEscape([c]) == EscapedChar(c)
  {
    hide ReplaceChar;
    var e := EscapedChar(c);
    EscapedCharIsInert(c);
    ReplaceOne(c, '&', "&amp;");
    ReplaceOne(c, '<', "&lt;");
    ReplaceOne(c, '>', "&gt;");
    ReplaceOne(c, '"', "&quot;");
    ReplaceOne(c, '\'', "&apos;");
    ReplaceAbsent(e, '<', "&lt;");
    ReplaceAbsent(e, '>', "&gt;");
    ReplaceAbsent(e, '"', "&quot;");
    ReplaceAbsent(e, '\'', "&apos;");
    EntityText(c);
  }

  lemma EntityText(c: char)
    ensures EscapedChar(c)
         == if c == '&' then "&amp;" else if c == '<' then "&lt;" else if c == '>' then "&gt;"
            else if c == '"' then "&quot;" else if c == '\'' then "&apos;" else [c]
  {
  }

  lemma {:induction false} EscapeIsCharwise(s: string)
    ensures XmlEscape(s) == Escaped(s)
  {
    hide XmlEscape;
    if s == "" {
      EscapeNothing();
    } else {
      assert s == [s[0]] + s[1..];
      EscapeAppend([s[0]], s[1..]);
      EscapeOne(s[0]);
      EscapeIsCharwise(s[1..]);
    }
  }

  lemma EscapeNothing()
    ensures XmlEscape("") == ""
  {
  }

  /** Escaped text holds none of them. */
  lemma {:induction false} EscapedIsInert(s: string)
    ensures forall c :: c in Escaped(s) ==> !Markup(c)
    ensures s == "" <==> Escaped(s) == ""
  {
    hide EscapedChar, Markup;
    if s != "" {
      EscapedIsInert(s[1..]);
      EscapedCharIsInert(s[0]);
    }
  }

  lemma {:induction false} EscapedPlain(s: string)
    requires forall c :: c in s ==> !Markup(c) && c != '&'
    ensures Escaped(s) == s
  {
    if s != "" {
      hide EntityOf;
      MarkupHasEntity(s[0]);
      EscapedPlain(s[1..]);
      assert s == [s[0]] + s[1..];
    }
  }

  // ---------------------------------------------------------------- references

  function HexValue(c: char): Option<nat> {
    if '0' <= c <= '9' then Some(c as int - '0' as int)
    else if 'a' <= c <= 'f' then Some(c as int - 'a' as int + 10)
    else if 'A' <= c <= 'F' then Some(c as int - 'A' as int + 10)
    else None
  }

  function RadixValue(s: string, radix: nat): Option<nat> {
    if s == "" then Some(0)
    else
      var left := RadixValue(s[..|s| - 1], radix);
      var digit := HexValue(s[|s| - 1]);
      if left.Some? && digit.Some? && digit.value < radix then Some(left.value * radix + digit.value) else None
  }

  /** A character reference names a Unicode scalar value other than zero. */
  function CharRef(digits: string, radix: nat): Option<char> {
    var n := RadixValue(digits, radix);
    if digits == "" || n.None? || n.value == 0 || 0xD800 <= n.value < 0xE000 || n.value > 0x10FFFF then None
    else Some(n.value as char)
  }

  /** What `&name;` stands for. */
  function Reference(name: string): Option<char> {
    if name == "amp" then Some('&')
    else if name == "lt" then Some('<')
    else if name == "gt" then Some('>')
    else if name == "quot" then Some('"')
    else if name == "apos" then Some('\'')
    else if "#x" <= name then CharRef(name[2..], 16)
    else if "#" <= name then CharRef(name[1..], 10)
    else None
  }

  function Prepend(x: string, r: Option<string>): Option<string> {
    match r
    case Some(t) => Some(x + t)
    case None => None
  }

  /** Resolving references; an unknown or unterminated one is an error. */
  function Unescape(s: string): Option<string> {
    if s == "" then Some("")
    else if s[0] != '&' then Prepend([s[0]], Unescape(s[1..]))
    else match Find(s, ';')
      case None => None
      case Some(i) =>
        var c := Reference(s[1..i]);
        if c.None? then None else Prepend([c.value], Unescape(s[i + 1..]))
  }

  lemma UnescapeFirst(c: char, rest: string)
    ensures Unescape(EscapedChar(c) + rest) == Prepend([c], Unescape(rest))
  {
    var e := EscapedChar(c);
    var s := e + rest;
    if EntityOf(c) == "" {
      assert s[1..] == rest;
    } else {
      var i := |e| - 1;
      assert e[i] == ';' && forall j :: 0 <= j < i ==> e[j] != ';';
      FindFirst(s, ';', i);
      assert s[1..i] == EntityOf(c) && s[i + 1..] == rest;
      assert s[0] == '&' && Reference(EntityOf(c)) == Some(c);
    }
  }

  /** Unescaping undoes escaping. */
  lemma {:induction false} UnescapeEscaped(s: string)
    ensures Unescape(Escaped(s)) == Some(s)
  {
    if s != "" {
      UnescapeFirst(s[0], Escaped(s[1..]));
      UnescapeEscaped(s[1..]);
      assert s == [s[0]] + s[1..];
    }
  }

  /** The five entities of section 4.6 of XML 1.0, characters by number in either radix, and nothing else. */
  lemma ReferencesRead()
    ensures Reference("amp") == Some('&') && Reference("lt") == Some('<') && Reference("gt") == Some('>')
    ensures Reference("quot") == Some('"') && Reference("apos") == Some('\'') && Reference("nbsp") == None
    ensures Reference("#65") == Some('A') && Reference("#x41") == Some('A') && Reference("#x") == None
  {
    assert "#65"[1..] == "65" && "65"[..1] == "6" && "6"[..0] == "" && "65"[1] == '5';
    assert RadixValue("6", 10) == Some(6) && RadixValue("65", 10) == Some(65);
    assert "#x41"[2..] == "41" && "41"[..1] == "4" && "4"[..0] == "" && "41"[1] == '1';
    assert RadixValue("4", 16) == Some(4) && RadixValue("41", 16) == Some(65);
    assert "#x"[2..] == "";
  }

  // -------------------------------------------------------------- white space

  predicate Blank(s: string) {
    forall c :: c in s ==> IsSpace(c)
  }

  lemma PrependTwice(x: string, y: string, r: Option<string>)
    ensures Prepend(x, Prepend(y, r)) == Prepend(x + y, r)
    ensures Prepend("", r) == r
  {
    if r.Some? {
      ConcatAssoc(x, y, r.value);
      assert "" + r.value == r.value;
    }
  }

  lemma {:induction false} UnescapeLead(w: string, s: string)
    requires Blank(w)
    ensures Unescape(w + s) == Prepend(w, Unescape(s))
  {
    if w == "" {
      assert w + s == s;
      PrependTwice("", "", Unescape(s));
    } else {
      hide IsSpace, Prepend;
      SpaceIsNoReference(w[0]);
      assert (w + s)[1..] == w[1..] + s;
      UnescapeLead(w[1..], s);
      PrependTwice([w[0]], w[1..], Unescape(s));
      assert w == [w[0]] + w[1..];
    }
  }

  lemma SpaceIsNoReference(c: char)
    requires IsSpace(c)
    ensures c != '&' && c != ';' && c != '<'
  {
  }

  function Append(r: Option<string>, w: string): Option<string> {
    match r
    case Some(t) => Some(t + w)
    case None => None
  }

  lemma PrependAppend(x: string, r: Option<string>, w: string)
    ensures Append(Prepend(x, r), w) == Prepend(x, Append(r, w))
  {
    if r.Some? {
      ConcatAssoc(x, r.value, w);
    }
  }

  lemma FindBeforeBlank(s: string, w: string)
    requires Blank(w)
    ensures Find(s + w, ';') == Find(s, ';')
  {
    match Find(s, ';')
    case Some(i) => FindFirst(s + w, ';', i);
    case None => assert ';' !in s + w;
  }

  lemma {:induction false} UnescapeTrail(s: string, w: string)
    requires Blank(w)
    ensures Unescape(s + w) == Append(Unescape(s), w)
    decreases |s|
  {
    if s == "" {
      assert s + w == w && w + "" == w && "" + w == w;
      UnescapeLead(w, "");
    } else if s[0] != '&' {
      assert (s + w)[1..] == s[1..] + w;
      UnescapeTrail(s[1..], w);
      PrependAppend([s[0]], Unescape(s[1..]), w);
    } else {
      FindBeforeBlank(s, w);
      match Find(s, ';')
      case None =>
      case Some(i) =>
        assert (s + w)[1..i] == s[1..i] && (s + w)[i + 1..] == s[i + 1..] + w;
        UnescapeTrail(s[i + 1..], w);
        if Reference(s[1..i]).Some? {
          PrependAppend([Reference(s[1..i]).value], Unescape(s[i + 1..]), w);
        }
    }
  }

  /** Line ends: CR LF and a lone CR both become LF. */
  function NormalizeEol(s: string): string {
    if s == "" then ""
    else if s[0] == '\r' then ['\n'] + NormalizeEol(if |s| > 1 && s[1] == '\n' then s[2..] else s[1..])
    else [s[0]] + NormalizeEol(s[1..])
  }

  lemma {:induction false} EolAppend(a: string, b: string)
    requires a == "" || a[|a| - 1] != '\r' || b == "" || b[0] != '\n'
    ensures NormalizeEol(a + b) == NormalizeEol(a) + NormalizeEol(b)
    decreases |a|
  {
    if a == "" {
      assert a + b == b;
    } else {
      var n := if a[0] == '\r' && |a| > 1 && a[1] == '\n' then 2 else 1;
      assert (a + b)[n..] == a[n..] + b;
      assert a[0] == '\r' && |a| == 1 ==> b == "" || b[0] != '\n';
      EolAppend(a[n..], b);
    }
  }

  lemma {:induction false} EolKeepsBlank(s: string)
    requires Blank(s)
    ensures Blank(NormalizeEol(s))
    decreases |s|
  {
    if s != "" {
      EolKeepsBlank(s[if s[0] == '\r' && |s| > 1 && s[1] == '\n' then 2 else 1..]);
    }
  }

  lemma {:induction false} EolWithoutCr(s: string)
    requires '\r' !in s
    ensures NormalizeEol(s) == s
  {
    if s != "" {
      EolWithoutCr(s[1..]);
      assert s == [s[0]] + s[1..];
    }
  }

  lemma EscapedCons(c: char, t: string)
    ensures Escaped([c] + t) == EscapedChar(c) + Escaped(t)
  {
    assert ([c] + t)[1..] == t;
  }

  lemma SpaceIsPlain(c: char)
    requires IsSpace(c)
    ensures EscapedChar(c) == [c]
  {
  }

  lemma EscapedCharHasNoSpace(c: char)
    requires !IsSpace(c)
    ensures forall x :: x in EscapedChar(c) ==> !IsSpace(x)
  {
    hide EntityOf;
    EntityIsInert(c);
  }

  /** How far one step of the line-end scan goes. */
  function EolWidth(s: string): (n: nat)
    requires s != ""
    ensures 1 <= n <= |s|
  {
    if s[0] == '\r' && |s| > 1 && s[1] == '\n' then 2 else 1
  }

  lemma EolStep(s: string)
    requires s != ""
    ensures NormalizeEol(s) == [if s[0] == '\r' then '\n' else s[0]] + NormalizeEol(s[EolWidth(s)..])
  {
  }

  /** Escaping keeps the shape of a line end at the front. */
  lemma EscapedLineEnd(s: string)
    requires s != "" && IsSpace(s[0])
    ensures Escaped(s) != "" && Escaped(s)[0] == s[0] && EolWidth(Escaped(s)) == EolWidth(s)
    ensures Escaped(s)[EolWidth(s)..] == Escaped(s[EolWidth(s)..])
  {
    SpaceIsPlain(s[0]);
    var tail := Escaped(s[1..]);
    assert Escaped(s) == [s[0]] + tail;
    FirstOfEscaped(s[1..]);
    if EolWidth(s) == 2 {
      assert s[1..][1..] == s[2..];
      SpaceIsPlain('\n');
      assert tail == ['\n'] + Escaped(s[2..]);
    }
  }

  /** Escaping and line ends do not interfere. */
  lemma {:induction false} EolOfEscaped(s: string)
    ensures NormalizeEol(Escaped(s)) == Escaped(NormalizeEol(s))
    decreases |s|
  {
    hide EscapedChar, EolWidth, NormalizeEol, Escaped;
    if s == "" {
      NothingToNormalize();
    } else {
      var n := EolWidth(s);
      EolStep(s);
      EolOfEscaped(s[n..]);
      var c := if s[0] == '\r' then '\n' else s[0];
      EscapedCons(c, NormalizeEol(s[n..]));
      if IsSpace(s[0]) {
        EscapedLineEnd(s);
        EolStep(Escaped(s));
        SpaceIsPlain(c);
      } else {
        OrdinaryFirst(s);
      }
    }
  }

  lemma NothingToNormalize()
    ensures NormalizeEol(Escaped("")) == Escaped(NormalizeEol("")) && NormalizeAttr(Escaped("")) == Escaped(NormalizeAttr(""))
  {
  }

  lemma OrdinaryFirst(s: string)
    requires s != "" && !IsSpace(s[0])
    ensures EolWidth(s) == 1
    ensures NormalizeEol(Escaped(s)) == EscapedChar(s[0]) + NormalizeEol(Escaped(s[1..]))
    ensures NormalizeAttr(Escaped(s)) == EscapedChar(s[0]) + NormalizeAttr(Escaped(s[1..]))
  {
    EscapedCharHasNoSpace(s[0]);
    EolAppend(EscapedChar(s[0]), Escaped(s[1..]));
    EolWithoutCr(EscapedChar(s[0]));
    AttrAppendPlain(EscapedChar(s[0]), Escaped(s[1..]));
  }

  lemma FirstOfEscaped(s: string)
    ensures s != "" ==> Escaped(s) != "" && (Escaped(s)[0] == '\n' <==> s[0] == '\n')
  {
  }

  // ------------------------------------------------------------------ trimming

  lemma {:induction false} TrimStartSplit(s: string) returns (pre: string)
    ensures Blank(pre) && s == pre + TrimStart(s)
  {
    hide IsSpace;
    pre := "";
    if s != "" && IsSpace(s[0]) {
      var rest := TrimStartSplit(s[1..]);
      pre := [s[0]] + rest;
      ConcatAssoc([s[0]], rest, TrimStart(s[1..]));
      assert s == [s[0]] + s[1..];
    }
  }

  lemma {:induction false} TrimEndSplit(s: string) returns (post: string)
    ensures Blank(post) && s == TrimEnd(s) + post
  {
    hide IsSpace;
    post := "";
    if s != "" && IsSpace(s[|s| - 1]) {
      var rest := TrimEndSplit(s[..|s| - 1]);
      post := rest + [s[|s| - 1]];
      ConcatAssoc(TrimEnd(s[..|s| - 1]), rest, [s[|s| - 1]]);
      assert s == s[..|s| - 1] + [s[|s| - 1]];
    }
  }

  lemma TrimSplit(s: string) returns (pre: string, post: string)
    ensures Blank(pre) && Blank(post) && s == pre + Trim(s) + post && Trimmed(Trim(s))
  {
    pre := TrimStartSplit(s);
    post := TrimEndSplit(TrimStart(s));
    ConcatAssoc(pre, Trim(s), post);
    TrimIsTrimmed(s);
  }

  lemma {:induction false} TrimStartSkips(pre: string, s: string)
    requires Blank(pre)
    ensures TrimStart(pre + s) == TrimStart(s)
  {
    if pre == "" {
      assert pre + s == s;
    } else {
      assert (pre + s)[1..] == pre[1..] + s;
      TrimStartSkips(pre[1..], s);
    }
  }

  lemma {:induction false} TrimEndSkips(s: string, post: string)
    requires Blank(post)
    ensures TrimEnd(s + post) == TrimEnd(s)
    decreases |post|
  {
    if post == "" {
      assert s + post == s;
    } else {
      var n := |post| - 1;
      assert (s + post)[..|s + post| - 1] == s + post[..n];
      TrimEndSkips(s, post[..n]);
    }
  }

  /** Blank text around a trimmed one is what trimming takes off. */
  lemma TrimIs(pre: string, core: string, post: string)
    requires Blank(pre) && Blank(post) && Trimmed(core)
    ensures Trim(pre + core + post) == core
  {
    ConcatAssoc(pre, core, post);
    TrimStartSkips(pre, core + post);
    if core == "" {
      assert core + post == post && post + "" == post;
      TrimStartSkips(post, "");
    } else {
      TrimEndSkips(core, post);
      TrimIsTrimmed(core);
    }
  }

  lemma TrimAround(pre: string, s: string, post: string)
    requires Blank(pre) && Blank(post)
    ensures Trim(pre + s + post) == Trim(s)
  {
    var p, q := TrimSplit(s);
    var core := Trim(s);
    assert pre + (p + core + q) + post == (pre + p) + core + (q + post);
    TrimIs(pre + p, core, q + post);
  }

  lemma BlankTrims(s: string)
    ensures Blank(s) <==> Trim(s) == ""
  {
    if Blank(s) {
      TrimIs(s, "", "");
      assert s + "" + "" == s;
    } else {
      var p, q := TrimSplit(s);
    }
  }

  // -------------------------------------------------------------- text content

  /** The text a run of character data stands for; a bare '<' never closed is an error. */
  function Content(raw: string): Option<string> {
    if '<' in raw then None else Unescape(NormalizeEol(raw))
  }

  /** Trimming the raw text first changes neither whether it reads nor the trimmed reading. */
  lemma ContentOfTrimmed(raw: string)
    requires Trim(raw) != ""
    ensures Content(raw).Some? <==> Content(Trim(raw)).Some?
    ensures Content(raw).Some? ==> Trim(Content(raw).value) == Trim(Content(Trim(raw)).value)
  {
    var pre, post := TrimSplit(raw);
    var core := Trim(raw);
    EolAppend(pre + core, post);
    EolAppend(pre, core);
    EolKeepsBlank(pre);
    EolKeepsBlank(post);
    var e := NormalizeEol(core);
    UnescapeTrail(NormalizeEol(pre) + e, NormalizeEol(post));
    UnescapeLead(NormalizeEol(pre), e);
    if Unescape(e).Some? {
      TrimAround(NormalizeEol(pre), Unescape(e).value, NormalizeEol(post));
    }
  }

  lemma ContentOfBlank(raw: string)
    requires Blank(raw)
    ensures Content(raw).Some? && Blank(Content(raw).value)
  {
    EolKeepsBlank(raw);
    assert NormalizeEol(raw) + "" == NormalizeEol(raw);
    UnescapeLead(NormalizeEol(raw), "");
  }

  /** Escaped text stands for the original up to line ends. */
  lemma ContentOfEscaped(s: string)
    ensures Content(Escaped(s)) == Some(NormalizeEol(s))
  {
    EscapedIsInert(s);
    EolOfEscaped(s);
    UnescapeEscaped(NormalizeEol(s));
  }

  // ---------------------------------------------------------- attribute values

  /** Attribute-value normalization: every line end, tab or CR becomes one space. */
  function NormalizeAttr(s: string): string {
    if s == "" then ""
    else if s[0] == '\r' then [' '] + NormalizeAttr(if |s| > 1 && s[1] == '\n' then s[2..] else s[1..])
    else (if s[0] == '\n' || s[0] == '\t' then [' '] else [s[0]]) + NormalizeAttr(s[1..])
  }

  function AttrContent(raw: string): Option<string> {
    Unescape(NormalizeAttr(raw))
  }

  lemma {:induction false} AttrAppendPlain(a: string, b: string)
    requires '\r' !in a && '\n' !in a && '\t' !in a
    ensures NormalizeAttr(a + b) == a + NormalizeAttr(b)
  {
    if a == "" {
      assert a + b == b;
    } else {
      assert (a + b)[1..] == a[1..] + b;
      AttrAppendPlain(a[1..], b);
      assert a == [a[0]] + a[1..];
      ConcatAssoc([a[0]], a[1..], NormalizeAttr(b));
    }
  }

  lemma AttrStep(s: string)
    requires s != ""
    ensures NormalizeAttr(s) == [if s[0] == '\r' || s[0] == '\n' || s[0] == '\t' then ' ' else s[0]] + NormalizeAttr(s[EolWidth(s)..])
  {
  }

  lemma {:induction false} AttrOfEscaped(s: string)
    ensures NormalizeAttr(Escaped(s)) == Escaped(NormalizeAttr(s))
    decreases |s|
  {
    hide EscapedChar, EolWidth, NormalizeAttr, Escaped;
    if s == "" {
      NothingToNormalize();
    } else {
      var n := EolWidth(s);
      AttrStep(s);
      AttrOfEscaped(s[n..]);
      var c := if s[0] == '\r' || s[0] == '\n' || s[0] == '\t' then ' ' else s[0];
      EscapedCons(c, NormalizeAttr(s[n..]));
      if IsSpace(s[0]) {
        EscapedLineEnd(s);
        AttrStep(Escaped(s));
        SpaceIsPlain(c);
      } else {
        OrdinaryFirst(s);
      }
    }
  }

  lemma AttrContentOfEscaped(s: string)
    ensures AttrContent(Escaped(s)) == Some(NormalizeAttr(s))
  {
    AttrOfEscaped(s);
    UnescapeEscaped(NormalizeAttr(s));
  }

  /** Line ends are read as line feeds, and in attributes every white space as a blank (sections 2.11 and 3.3.3 of XML 1.0). */
  lemma WhiteSpaceRead()
    ensures NormalizeEol("\r\n") == "\n" && NormalizeEol("\r") == "\n" && NormalizeEol("\n") == "\n"
    ensures NormalizeAttr("\r\n") == " " && NormalizeAttr("\r") == " " && NormalizeAttr("\n") == " " && NormalizeAttr("\t") == " "
  {
    assert NormalizeEol("") == "" && NormalizeAttr("") == "";
    assert "\r\n"[2..] == "" && "\r"[1..] == "" && "\n"[1..] == "" && "\t"[1..] == "";
  }
}
