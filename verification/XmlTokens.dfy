/**
 Tokens of the price XML, and the pretty printer over them (src/billing/transfer.rs:210-354).
 */
module XmlTokens {
  import opened Wrappers
  import opened Strings
  import opened XmlText

  datatype Tok = Decl(raw: string) | Open(raw: string) | Close(raw: string) | Empty(raw: string) | Text(raw: string)

  // -------------------------------------------------------------------- lexing

  predicate StartsWith(s: string, prefix: string) {
    prefix <= s
  }

  predicate EndsWith(s: string, suffix: string) {
    |suffix| <= |s| && s[|s| - |suffix|..] == suffix
  }

  /** The kind of a `<...>` token, in the order the source asks. */
  function Classify(raw: string): Tok {
    if StartsWith(raw, "<?") then Decl(raw)
    else if StartsWith(raw, "</") then Close(raw)
    else if EndsWith(raw, "/>") then Empty(raw)
    else Open(raw)
  }

  /** `<...>` is one token, what lies between is text; a '<' never closed turns the rest into text. */
  function Lex(s: string): seq<Tok>
    decreases |s|
  {
    if s == "" then []
    else if s[0] == '<' then
      match Find(s, '>')
      case None => [Text(s)]
      case Some(e) => [Classify(s[..e + 1])] + Lex(s[e + 1..])
    else
      match Find(s, '<')
      case None => [Text(s)]
      case Some(n) => [Text(s[..n])] + Lex(s[n..])
  }

  /** Where the token at the front of a text ends. */
  function TokenEnd(s: string): (n: nat)
    requires s != ""
    ensures 1 <= n <= |s|
  {
    if s[0] == '<' then (match Find(s, '>') case Some(e) => e + 1 case None => |s|)
    else (match Find(s, '<') case Some(n) => n case None => |s|)
  }

  function FirstToken(s: string): Tok
    requires s != ""
  {
    if s[0] == '<' && Find(s, '>').Some? then Classify(s[..TokenEnd(s)]) else Text(s[..TokenEnd(s)])
  }

  lemma LexStep(s: string)
    requires s != ""
    ensures Lex(s) == [FirstToken(s)] + Lex(s[TokenEnd(s)..])
  {
    hide Classify;
    assert s[..|s|] == s && Lex(s[|s|..]) == [];
  }

  /** One round of the lexing loop: the token at `i` and where the next one starts. */
  method LexOne(xml: string, i: nat) returns (tok: Tok, next: nat)
    requires i < |xml|
    ensures i < next <= |xml|
    ensures Lex(xml[i..]) == [tok] + Lex(xml[next..])
  {
    hide Classify, Lex;
    var rest := xml[i..];
    LexStep(rest);
    if rest[0] == '<' {
      match Find(rest, '>') {
        case None => tok, next := Text(rest), |xml|;
        case Some(p) => tok, next := Classify(rest[..p + 1]), i + p + 1;
      }
    } else {
      match Find(rest, '<') {
        case None => tok, next := Text(rest), |xml|;
        case Some(p) => tok, next := Text(rest[..p]), i + p;
      }
    }
    assert rest[..|rest|] == rest;
    assert next == i + TokenEnd(rest) && tok == FirstToken(rest);
    assert rest[TokenEnd(rest)..] == xml[next..];
  }

  /** The lexing loop of pretty_xml. */
  method LexLoop(xml: string) returns (toks: seq<Tok>)
    ensures toks == Lex(xml)
  {
    toks := [];
    var i: nat := 0;
    assert xml[0..] == xml;
    while i < |xml|
      invariant i <= |xml|
      invariant Lex(xml) == toks + Lex(xml[i..])
    {
      hide Lex;
      var tok, next := LexOne(xml, i);
      ConcatAssoc(toks, [tok], Lex(xml[next..]));
      toks, i := toks + [tok], next;
    }
  }

  function Concat(toks: seq<Tok>): string {
    if toks == [] then "" else toks[0].raw + Concat(toks[1..])
  }

  predicate TagRaw(raw: string) {
    |raw| >= 2 && raw[0] == '<' && raw[|raw| - 1] == '>' && forall i :: 0 <= i < |raw| - 1 ==> raw[i] != '>'
  }

  predicate TokOk(t: Tok) {
    if t.Text? then t.raw != "" && '<' !in t.raw else TagRaw(t.raw) && Classify(t.raw) == t
  }

  /** Token lists that lexing their own text gives back: no two texts in a row, no empty text. */
  predicate Lexed(toks: seq<Tok>) {
    toks == [] ||
    (TokOk(toks[0]) && (toks[0].Text? && |toks| > 1 ==> !toks[1].Text?) && Lexed(toks[1..]))
  }

  lemma {:induction false} LexConcat(toks: seq<Tok>)
    requires Lexed(toks)
    ensures Lex(Concat(toks)) == toks
  {
    if toks != [] {
      hide Classify;
      LexConcat(toks[1..]);
      var raw, rest := toks[0].raw, Concat(toks[1..]);
      var s := raw + rest;
      assert toks == [toks[0]] + toks[1..];
      if toks[0].Text? {
        if |toks| == 1 {
          assert s == raw;
        } else {
          assert TokOk(toks[1]);
          assert rest[0] == '<';
          FindFirst(s, '<', |raw|);
          assert s[..|raw|] == raw && s[|raw|..] == rest;
        }
      } else {
        FindFirst(s, '>', |raw| - 1);
        assert s[..|raw|] == raw && s[|raw|..] == rest;
      }
    }
  }

  // ------------------------------------------------------------------ printing

  /** A text between a start tag and an end tag: the leaf that stays on one line. */
  predicate LeafAt(toks: seq<Tok>) {
    |toks| >= 3 && toks[0].Open? && toks[1].Text? && toks[2].Close?
  }

  function Indent(depth: nat): string {
    if depth == 0 then "" else "  " + Indent(depth - 1)
  }

  function Line(depth: nat, s: string): string {
    Indent(depth) + s + "\n"
  }

  function Outdent(depth: nat): nat {
    if depth == 0 then 0 else depth - 1
  }

  /** The layout: one line per tag or leaf, two spaces per open element. */
  function Pretty(toks: seq<Tok>, depth: nat): string {
    if toks == [] then ""
    else match toks[0]
      case Text(t) => (if Trim(t) == "" then "" else Line(depth, Trim(t))) + Pretty(toks[1..], depth)
      case Open(raw) =>
        if LeafAt(toks) then Line(depth, raw + Trim(toks[1].raw) + toks[2].raw) + Pretty(toks[3..], depth)
        else Line(depth, raw) + Pretty(toks[1..], depth + 1)
      case Close(raw) => Line(Outdent(depth), raw) + Pretty(toks[1..], Outdent(depth))
      case _ => Line(depth, toks[0].raw) + Pretty(toks[1..], depth)
  }

  /** One round of the printing loop: what is pushed, and how the position and the depth move. */
  method PrettyRound(toks: seq<Tok>, idx: nat, depth: nat, out: string) returns (out': string, idx': nat, depth': nat)
    requires idx < |toks|
    ensures idx < idx' <= |toks|
    ensures out' + Pretty(toks[idx'..], depth') == out + Pretty(toks[idx..], depth)
  {
    ghost var here := toks[idx..];
    assert here[1..] == toks[idx + 1..];
    out', idx', depth' := out, idx + 1, depth;
    match toks[idx] {
      case Text(t) =>
        if Trim(t) != "" {
          out' := out' + Indent(depth);
          out' := out' + Trim(t);
          out' := out' + "\n";
          ConcatAssoc(out, Line(depth, Trim(t)), Pretty(toks[idx'..], depth));
          ConcatAssoc(out, Indent(depth) + Trim(t), "\n");
          ConcatAssoc(out, Indent(depth), Trim(t));
        }
      case Open(raw) =>
        out' := out' + Indent(depth);
        out' := out' + raw;
        if idx + 2 < |toks| && toks[idx + 1].Text? && toks[idx + 2].Close? {
          var text, close := Trim(toks[idx + 1].raw), toks[idx + 2].raw;
          out' := out' + text;
          out' := out' + close;
          out' := out' + "\n";
          idx' := idx + 3;
          assert here[1] == toks[idx + 1] && here[2] == toks[idx + 2] && here[3..] == toks[idx + 3..];
          assert out' == out + Line(depth, raw + text + close);
          ConcatAssoc(out, Line(depth, raw + text + close), Pretty(toks[idx'..], depth));
        } else {
          out' := out' + "\n";
          depth' := depth + 1;
          assert !LeafAt(here);
          assert out' == out + Line(depth, raw);
          ConcatAssoc(out, Line(depth, raw), Pretty(toks[idx'..], depth'));
        }
      case Close(raw) =>
        depth' := Outdent(depth);
        out' := out' + Indent(depth');
        out' := out' + raw;
        out' := out' + "\n";
        assert out' == out + Line(depth', raw);
        ConcatAssoc(out, Line(depth', raw), Pretty(toks[idx'..], depth'));
      case _ =>
        out' := out' + Indent(depth);
        out' := out' + toks[idx].raw;
        out' := out' + "\n";
        assert out' == out + Line(depth, toks[idx].raw);
        ConcatAssoc(out, Line(depth, toks[idx].raw), Pretty(toks[idx'..], depth));
    }
  }

  /** pretty_xml. */
  method PrettyXml(xml: string) returns (out: string)
    ensures out == Pretty(Lex(xml), 0)
  {
    var toks := LexLoop(xml);
    out := "";
    var depth: nat, idx: nat := 0, 0;
    assert toks[0..] == toks;
    while idx < |toks|
      invariant idx <= |toks|
      invariant out + Pretty(toks[idx..], depth) == Pretty(toks, 0)
      decreases |toks| - idx
    {
      hide Pretty;
      out, idx, depth := PrettyRound(toks, idx, depth, out);
    }
  }

  lemma {:induction false} IndentIsTwoEach(depth: nat)
    ensures |Indent(depth)| == 2 * depth && forall c :: c in Indent(depth) ==> c == ' '
  {
    if depth > 0 {
      IndentIsTwoEach(depth - 1);
    }
  }

  /** How a declaration and an element with a leaf and an empty element are laid out. */
  lemma LayoutSpelled(decl: string, open: string, leaf: string, text: string, leafEnd: string, empty: string, close: string)
    ensures Pretty([Decl(decl), Open(open), Open(leaf), Text(text), Close(leafEnd), Empty(empty), Close(close)], 0)
      == (decl + "\n") + ((open + "\n") + (("  " + (leaf + Trim(text) + leafEnd) + "\n") + (("  " + empty + "\n") + (close + "\n"))))
  {
    var toks := [Decl(decl), Open(open), Open(leaf), Text(text), Close(leafEnd), Empty(empty), Close(close)];
    var inner, rest, last := toks[1..][1..], [Empty(empty), Close(close)], [Close(close)];
    assert inner == [Open(leaf), Text(text), Close(leafEnd), Empty(empty), Close(close)];
    assert inner[3..] == rest && rest[1..] == last && last[1..] == [];
    assert Indent(0) == "" && Indent(1) == "  " + Indent(0) == "  ";
    Unindented(decl);
    Unindented(open);
    Unindented(close);
    assert Pretty(last, 1) == Line(0, close) + Pretty([], 0) == Line(0, close);
    assert Pretty(rest, 1) == Line(1, empty) + Pretty(last, 1);
    assert Pretty(inner, 1) == Line(1, leaf + Trim(text) + leafEnd) + Pretty(rest, 1);
    assert Pretty(toks[1..], 0) == Line(0, open) + Pretty(inner, 1);
  }

  lemma Unindented(s: string)
    ensures Line(0, s) == s + "\n"
  {
    assert "" + s == s;
  }

  // ----------------------------------------------------- the layout as tokens

  /** Text that is not blank stands only in leaves. */
  predicate NoMixed(toks: seq<Tok>) {
    if toks == [] then true
    else if LeafAt(toks) then NoMixed(toks[3..])
    else if toks[0].Text? then Blank(toks[0].raw) && NoMixed(toks[1..])
    else NoMixed(toks[1..])
  }

  function TextTok(t: string): seq<Tok> {
    if t == "" then [] else [Text(t)]
  }

  /** The tokens of the laid-out text, `gap` being the white space pending before the next tag. */
  function Relaid(toks: seq<Tok>, depth: nat, gap: string): seq<Tok> {
    if toks == [] then TextTok(gap)
    else match toks[0]
      case Text(t) => Relaid(toks[1..], depth, gap)
      case Open(raw) =>
        if LeafAt(toks) then
          TextTok(gap + Indent(depth)) + [toks[0]] + TextTok(Trim(toks[1].raw)) + [toks[2]] + Relaid(toks[3..], depth, "\n")
        else TextTok(gap + Indent(depth)) + [toks[0]] + Relaid(toks[1..], depth + 1, "\n")
      case Close(raw) => TextTok(gap + Indent(Outdent(depth))) + [toks[0]] + Relaid(toks[1..], Outdent(depth), "\n")
      case _ => TextTok(gap + Indent(depth)) + [toks[0]] + Relaid(toks[1..], depth, "\n")
  }

  lemma {:induction false} ConcatAppend(a: seq<Tok>, b: seq<Tok>)
    ensures Concat(a + b) == Concat(a) + Concat(b)
  {
    if a == [] {
      assert a + b == b;
    } else {
      assert (a + b)[1..] == a[1..] + b;
      ConcatAppend(a[1..], b);
      ConcatAssoc(a[0].raw, Concat(a[1..]), Concat(b));
    }
  }

  lemma ConcatTag(text: string, tag: Tok, rest: seq<Tok>)
    ensures Concat(TextTok(text) + [tag] + rest) == text + tag.raw + Concat(rest)
  {
    ConcatAppend(TextTok(text) + [tag], rest);
    ConcatAppend(TextTok(text), [tag]);
    assert Concat([tag]) == tag.raw + Concat([]) == tag.raw;
    assert text != "" ==> Concat([Text(text)]) == text + Concat([]) == text;
  }

  lemma {:induction false} IndentIsBlank(depth: nat)
    ensures Blank(Indent(depth))
  {
    if depth > 0 {
      IndentIsBlank(depth - 1);
    }
  }

  lemma Laid(gap: string, depth: nat, raw: string, tail: string)
    ensures gap + (Line(depth, raw) + tail) == (gap + Indent(depth)) + raw + ("\n" + tail)
  {
    assert Line(depth, raw) == Indent(depth) + raw + "\n";
  }

  /** The laid-out tokens spell the laid-out text. */
  lemma {:induction false} RelaidSpells(toks: seq<Tok>, depth: nat, gap: string)
    requires NoMixed(toks)
    ensures Concat(Relaid(toks, depth, gap)) == gap + Pretty(toks, depth)
  {
    if toks == [] {
      assert gap != "" ==> Concat([Text(gap)]) == gap + Concat([]) == gap;
    } else {
      var t := toks[0];
      var d := if t.Close? then Outdent(depth) else depth;
      if LeafAt(toks) {
        RelaidSpells(toks[3..], depth, "\n");
        var text, tail := Trim(toks[1].raw), Relaid(toks[3..], depth, "\n");
        LeafSpells(gap, depth, t, text, toks[2], tail);
        Laid(gap, depth, t.raw + text + toks[2].raw, Pretty(toks[3..], depth));
      } else if t.Text? {
        RelaidSpells(toks[1..], depth, gap);
        BlankTrims(t.raw);
        assert "" + Pretty(toks[1..], depth) == Pretty(toks[1..], depth);
      } else {
        var next := if t.Open? then depth + 1 else d;
        RelaidSpells(toks[1..], next, "\n");
        ConcatTag(gap + Indent(d), t, Relaid(toks[1..], next, "\n"));
        Laid(gap, d, t.raw, Pretty(toks[1..], next));
      }
    }
  }

  lemma LeafSpells(gap: string, depth: nat, open: Tok, text: string, close: Tok, tail: seq<Tok>)
    ensures Concat(TextTok(gap + Indent(depth)) + [open] + TextTok(text) + [close] + tail)
         == (gap + Indent(depth)) + (open.raw + text + close.raw) + Concat(tail)
  {
    var inner := TextTok(text) + [close] + tail;
    assert TextTok(gap + Indent(depth)) + [open] + TextTok(text) + [close] + tail
        == TextTok(gap + Indent(depth)) + [open] + inner;
    ConcatTag(gap + Indent(depth), open, inner);
    ConcatTag(text, close, tail);
    ConcatAssoc(gap + Indent(depth) + open.raw, text + close.raw, Concat(tail));
    ConcatAssoc(gap + Indent(depth), open.raw, text + close.raw);
    ConcatAssoc(open.raw, text, close.raw);
  }

  lemma LexedTag(text: string, tag: Tok, rest: seq<Tok>)
    requires '<' !in text && !tag.Text? && TokOk(tag) && Lexed(rest)
    ensures Lexed(TextTok(text) + [tag] + rest)
  {
    assert ([tag] + rest)[1..] == rest;
    if text != "" {
      var all := TextTok(text) + [tag] + rest;
      assert all[1..] == [tag] + rest;
    } else {
      assert TextTok(text) + [tag] + rest == [tag] + rest;
    }
  }

  lemma BlankHasNoTag(s: string)
    requires Blank(s)
    ensures '<' !in s
  {
  }

  lemma {:induction false} RelaidIsLexed(toks: seq<Tok>, depth: nat, gap: string)
    requires NoMixed(toks) && Lexed(toks) && Blank(gap)
    ensures Lexed(Relaid(toks, depth, gap))
  {
    hide TokOk, Blank;
    IndentAndGap(gap, depth);
    IndentAndGap(gap, Outdent(depth));
    IndentAndGap("\n", 0);
    if toks == [] {
      if gap != "" {
        TextOk(gap);
        assert [Text(gap)][1..] == [];
      }
    } else {
      var t := toks[0];
      if LeafAt(toks) {
        LeafParts(toks);
        RelaidIsLexed(toks[3..], depth, "\n");
        var tail := Relaid(toks[3..], depth, "\n");
        TrimHasNoTag(toks[1]);
        LexedTag(Trim(toks[1].raw), toks[2], tail);
        var inner := TextTok(Trim(toks[1].raw)) + [toks[2]] + tail;
        LexedTag(gap + Indent(depth), t, inner);
        assert TextTok(gap + Indent(depth)) + [t] + TextTok(Trim(toks[1].raw)) + [toks[2]] + tail
            == TextTok(gap + Indent(depth)) + [t] + inner;
      } else if t.Text? {
        RelaidIsLexed(toks[1..], depth, gap);
      } else {
        var d := if t.Close? then Outdent(depth) else depth;
        var next := if t.Open? then depth + 1 else d;
        RelaidIsLexed(toks[1..], next, "\n");
        LexedTag(gap + Indent(d), t, Relaid(toks[1..], next, "\n"));
      }
    }
  }

  lemma LeafParts(toks: seq<Tok>)
    requires Lexed(toks) && LeafAt(toks)
    ensures TokOk(toks[0]) && TokOk(toks[1]) && TokOk(toks[2]) && Lexed(toks[3..])
  {
    hide TokOk;
    assert toks[1..][1..] == toks[2..] && toks[2..][1..] == toks[3..];
    assert toks[1..][0] == toks[1] && toks[2..][0] == toks[2];
    assert Lexed(toks[1..]) && Lexed(toks[2..]);
  }

  lemma IndentAndGap(gap: string, depth: nat)
    ensures Blank(gap) ==> Blank(gap + Indent(depth)) && '<' !in gap + Indent(depth) && '<' !in gap
    ensures Blank("\n")
  {
    IndentIsBlank(depth);
    if Blank(gap) {
      BlankHasNoTag(gap + Indent(depth));
    }
  }

  lemma TextOk(t: string)
    requires t != "" && '<' !in t
    ensures TokOk(Text(t))
  {
  }

  lemma TrimHasNoTag(t: Tok)
    requires t.Text? && TokOk(t)
    ensures '<' !in Trim(t.raw)
  {
    TrimIsTrimmed(t.raw);
  }

  /** Lexing the laid-out text gives the laid-out tokens. */
  lemma LexOfPretty(toks: seq<Tok>)
    requires NoMixed(toks) && Lexed(toks)
    ensures Lex(Pretty(toks, 0)) == Relaid(toks, 0, "")
  {
    RelaidSpells(toks, 0, "");
    RelaidIsLexed(toks, 0, "");
    LexConcat(Relaid(toks, 0, ""));
    assert "" + Pretty(toks, 0) == Pretty(toks, 0);
  }

  // --------------------------------------------------- what lexing can return

  /** As `Lexed`, except that the last token may be an unclosed '<'. */
  predicate Loose(toks: seq<Tok>) {
    toks == []
    || (|toks| == 1 && toks[0].Text? && toks[0].raw != "" && toks[0].raw[0] == '<')
    || (TokOk(toks[0]) && Loose(toks[1..])
        && (toks[0].Text? && |toks| > 1 ==> !toks[1].Text? || !Blank(toks[1].raw)))
  }

  lemma {:induction false} LexIsLoose(s: string)
    ensures Loose(Lex(s))
    ensures s != "" && s[0] == '<' && Lex(s)[0].Text? ==> !Blank(Lex(s)[0].raw)
    decreases |s|
  {
    hide Classify;
    if s != "" {
      var toks := Lex(s);
      if s[0] == '<' {
        NotBlank(s);
        match Find(s, '>')
        case None =>
        case Some(e) =>
          LexIsLoose(s[e + 1..]);
          assert toks[1..] == Lex(s[e + 1..]);
          ClassifyIsOk(s[..e + 1]);
      } else {
        match Find(s, '<')
        case None => assert toks[1..] == [];
        case Some(n) =>
          LexIsLoose(s[n..]);
          assert toks[1..] == Lex(s[n..]);
      }
    }
  }

  lemma NotBlank(s: string)
    requires s != "" && s[0] == '<'
    ensures !Blank(s)
  {
    assert s[0] in s;
  }

  lemma ClassifyIsOk(raw: string)
    requires TagRaw(raw)
    ensures TokOk(Classify(raw)) && !Classify(raw).Text?
  {
  }

  lemma {:induction false} NoMixedIsLexed(toks: seq<Tok>)
    requires Loose(toks) && NoMixed(toks)
    ensures Lexed(toks)
  {
    hide TokOk;
    if toks != [] {
      if LeafAt(toks) {
        assert toks[1..][1..] == toks[2..] && toks[2..][1..] == toks[3..];
        assert toks[1..][0] == toks[1] && toks[2..][0] == toks[2];
        assert Loose(toks[1..]) && Loose(toks[2..]);
        NoMixedIsLexed(toks[3..]);
        assert Lexed(toks[2..]);
        assert Lexed(toks[1..]);
      } else {
        if |toks| == 1 && toks[0].Text? && toks[0].raw != "" && toks[0].raw[0] == '<' {
          NotBlank(toks[0].raw);
        }
        NoMixedIsLexed(toks[1..]);
      }
    }
  }
}
