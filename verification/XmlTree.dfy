/**
 The stack parser (src/billing/transfer.rs:375-482) over the tokens of the price XML: it is indifferent
 to layout, and it reads back every printed document.
 */
module XmlTree {
  import opened Wrappers
  import opened Strings
  import opened XmlText
  import opened XmlTokens

  datatype Node = Node(name: string, attrs: map<string, string>, children: seq<Node>, text: string)

  datatype State = State(stack: seq<Node>, root: Option<Node>)

  datatype XmlError = Malformed | NoRoot

  // ------------------------------------------------------------------ elements

  /** The attributes ` k="v"` of a tag; a repeated name is an error. */
  function ReadAttrs(s: string): Option<map<string, string>>
    decreases |s|
  {
    if s == "" then Some(map[])
    else match Find(s, '=')
      case None => None
      case Some(e) =>
        if s[0] != ' ' || e == 0 || e + 1 >= |s| || s[e + 1] != '"' then None
        else
          var tail := s[e + 2..];
          match Find(tail, '"')
          case None => None
          case Some(q) =>
            var key, value, others := s[1..e], AttrContent(tail[..q]), ReadAttrs(tail[q + 1..]);
            if value.None? || others.None? || key in others.value then None
            else Some(others.value[key := value.value])
  }

  /** The name and attributes between the angle brackets; comments and declarations are not elements. */
  function ReadTag(tok: Tok): Option<(string, map<string, string>)>
    requires tok.Open? || tok.Empty?
  {
    var cut := if tok.Open? then 1 else 2;
    if |tok.raw| < 1 + cut || tok.raw[1] == '!' then None
    else
      var body := tok.raw[1..|tok.raw| - cut];
      match Find(body, ' ')
      case None => Some((body, map[]))
      case Some(i) =>
        var attrs := ReadAttrs(body[i..]);
        if attrs.None? then None else Some((body[..i], attrs.value))
  }

  function CloseName(raw: string): string {
    if |raw| < 3 then "" else raw[2..|raw| - 1]
  }

  /** A finished node goes under the open element, or becomes the root. */
  function PushChild(st: State, node: Node): State {
    if st.stack == [] then State([], Some(node))
    else
      var n := |st.stack| - 1;
      var top := st.stack[n];
      State(st.stack[..n] + [top.(children := top.children + [node])], st.root)
  }

  /** One event of the reader; None is a parse error. */
  function Step(st: State, tok: Tok): Option<State> {
    match tok
    case Decl(_) => Some(st)
    case Open(_) =>
      var tag := ReadTag(tok);
      if tag.None? then None
      else Some(State(st.stack + [Node(tag.value.0, tag.value.1, [], "")], st.root))
    case Empty(_) =>
      var tag := ReadTag(tok);
      if tag.None? then None else Some(PushChild(st, Node(tag.value.0, tag.value.1, [], "")))
    case Text(raw) =>
      var content := Content(raw);
      if content.None? then None
      else if st.stack == [] then Some(st)
      else
        var n := |st.stack| - 1;
        var top := st.stack[n];
        Some(State(st.stack[..n] + [top.(text := top.text + content.value)], st.root))
    case Close(raw) =>
      if st.stack == [] then None
      else
        var n := |st.stack| - 1;
        if st.stack[n].name != CloseName(raw) then None
        else Some(PushChild(State(st.stack[..n], st.root), st.stack[n]))
  }

  function Run(st: State, toks: seq<Tok>): Option<State>
    decreases |toks|
  {
    if toks == [] then Some(st)
    else
      var next := Step(st, toks[0]);
      if next.None? then None else Run(next.value, toks[1..])
  }

  function RootOf(end: Option<State>): Result<Node, XmlError> {
    match end
    case None => Err(Malformed)
    case Some(st) => if st.root.None? then Err(NoRoot) else Ok(st.root.value)
  }

  function Tree(xml: string): Result<Node, XmlError> {
    RootOf(Run(State([], None), Lex(xml)))
  }

  /** parse_tree: the loop over the reader's events. */
  method ParseTree(xml: string) returns (r: Result<Node, XmlError>)
    ensures r == Tree(xml)
  {
    var toks := LexLoop(xml);
    var st := State([], None);
    var i := 0;
    while i < |toks|
      invariant 0 <= i <= |toks|
      invariant Run(State([], None), toks) == Run(st, toks[i..])
    {
      var next := Step(st, toks[i]);
      assert toks[i..][1..] == toks[i + 1..];
      if next.None? {
        return Err(Malformed);
      }
      st := next.value;
      i := i + 1;
    }
    r := if st.root.None? then Err(NoRoot) else Ok(st.root.value);
  }

  lemma {:induction false} RunAppend(st: State, a: seq<Tok>, b: seq<Tok>)
    ensures Run(st, a + b) == match Run(st, a) case Some(mid) => Run(mid, b) case None => None
    decreases |a|
  {
    if a == [] {
      assert a + b == b;
    } else {
      hide Step;
      assert (a + b)[1..] == a[1..] + b;
      var next := Step(st, a[0]);
      if next.Some? {
        RunAppend(next.value, a[1..], b);
      }
    }
  }

  // --------------------------------------------------- what layout cannot change

  /** The tree with every text trimmed: all that the importers read. */
  function Squeeze(n: Node): Node
    decreases n, 0
  {
    Node(n.name, n.attrs, SqueezeAll(n.children), Trim(n.text))
  }

  function SqueezeAll(ns: seq<Node>): (r: seq<Node>)
    ensures |r| == |ns|
    ensures forall i :: 0 <= i < |ns| ==> r[i] == Squeeze(ns[i])
    decreases ns, 1
  {
    if ns == [] then [] else [Squeeze(ns[0])] + SqueezeAll(ns[1..])
  }

  lemma SqueezeAppend(ns: seq<Node>, n: Node)
    ensures SqueezeAll(ns + [n]) == SqueezeAll(ns) + [Squeeze(n)]
  {
    assert forall i :: 0 <= i < |ns| ==> SqueezeAll(ns + [n])[i] == SqueezeAll(ns)[i];
  }

  /** Two open elements that differ in layout only: neither holds text of its own yet. */
  ghost predicate OpenAlike(a: Node, b: Node) {
    a.name == b.name && a.attrs == b.attrs && SqueezeAll(a.children) == SqueezeAll(b.children)
    && Blank(a.text) && Blank(b.text)
  }

  ghost predicate RootsAlike(a: Option<Node>, b: Option<Node>) {
    (a.Some? <==> b.Some?) && (a.Some? ==> Squeeze(a.value) == Squeeze(b.value))
  }

  ghost predicate Alike(a: State, b: State) {
    |a.stack| == |b.stack| && (forall i :: 0 <= i < |a.stack| ==> OpenAlike(a.stack[i], b.stack[i]))
    && RootsAlike(a.root, b.root)
  }

  ghost predicate BothAlike(a: Option<State>, b: Option<State>) {
    (a.Some? <==> b.Some?) && (a.Some? ==> Alike(a.value, b.value))
  }

  lemma OpenAlikeSqueezes(a: Node, b: Node)
    requires OpenAlike(a, b)
    ensures Squeeze(a) == Squeeze(b)
  {
    BlankTrims(a.text);
    BlankTrims(b.text);
  }

  lemma PushAlike(a: State, b: State, m: Node, n: Node)
    requires Alike(a, b) && Squeeze(m) == Squeeze(n)
    ensures Alike(PushChild(a, m), PushChild(b, n))
  {
    hide Squeeze;
    if a.stack != [] {
      var k := |a.stack| - 1;
      SqueezeAppend(a.stack[k].children, m);
      SqueezeAppend(b.stack[k].children, n);
    }
  }

  lemma TagStepAlike(a: State, b: State, tok: Tok)
    requires Alike(a, b) && !tok.Text?
    ensures BothAlike(Step(a, tok), Step(b, tok))
  {
    hide Squeeze, ReadTag, CloseName, PushChild;
    match tok
    case Decl(_) =>
    case Open(_) =>
    case Empty(_) =>
      var tag := ReadTag(tok);
      if tag.Some? {
        var n := Node(tag.value.0, tag.value.1, [], "");
        PushAlike(a, b, n, n);
      }
    case Close(raw) =>
      if a.stack != [] {
        var k := |a.stack| - 1;
        OpenAlikeSqueezes(a.stack[k], b.stack[k]);
        PushAlike(State(a.stack[..k], a.root), State(b.stack[..k], b.root), a.stack[k], b.stack[k]);
      }
  }

  lemma BlankStepAlike(a: State, b: State, t: string)
    requires Alike(a, b) && Blank(t)
    ensures BothAlike(Step(a, Text(t)), Some(b)) && BothAlike(Some(a), Step(b, Text(t)))
  {
    hide Squeeze, Content;
    ContentOfBlank(t);
  }

  /** A pending gap of white space changes nothing. */
  lemma GapAlike(a: State, b: State, gap: string, rest: seq<Tok>)
    requires Alike(a, b) && Blank(gap)
    ensures exists c :: Alike(a, c) && Run(b, TextTok(gap) + rest) == Run(c, rest)
  {
    hide Step, Squeeze;
    if gap == "" {
      assert TextTok(gap) + rest == rest;
      assert Alike(a, b) && Run(b, TextTok(gap) + rest) == Run(b, rest);
    } else {
      BlankStepAlike(a, b, gap);
      var c := Step(b, Text(gap)).value;
      assert (TextTok(gap) + rest)[1..] == rest;
      assert Alike(a, c) && Run(b, TextTok(gap) + rest) == Run(c, rest);
    }
  }

  lemma LeafRuns(st: State, open: Tok, raw: string, close: Tok)
    requires open.Open? && close.Close?
    ensures Run(st, [open] + TextTok(raw) + [close])
         == var tag, content := ReadTag(open), Content(raw);
            if tag.None? || content.None? || tag.value.0 != CloseName(close.raw) then None
            else Some(PushChild(st, Node(tag.value.0, tag.value.1, [], content.value)))
  {
    hide ReadTag, Content, CloseName, PushChild;
    var toks := [open] + TextTok(raw) + [close];
    var tag := ReadTag(open);
    if raw == "" {
      ContentOfEscaped("");
      assert Escaped("") == "";
      assert toks[1..] == [close];
    } else {
      assert toks[1..] == [Text(raw), close] && toks[1..][1..] == [close];
    }
    if tag.Some? {
      var started := State(st.stack + [Node(tag.value.0, tag.value.1, [], "")], st.root);
      assert started.stack[..|st.stack|] == st.stack;
      var filled := if raw == "" then Some(started) else Step(started, Text(raw));
      if filled.Some? {
        assert filled.value.stack[..|st.stack|] == st.stack;
        assert "" + Content(raw).value == Content(raw).value;
        assert Run(filled.value, [close]) == Step(filled.value, close) by { RunOne(filled.value, close); }
      }
    }
  }

  lemma RunOne(st: State, tok: Tok)
    ensures Run(st, [tok]) == Step(st, tok)
  {
    assert [tok][1..] == [];
  }

  lemma LeafAlike(a: State, b: State, open: Tok, raw: string, close: Tok)
    requires Alike(a, b) && open.Open? && close.Close?
    ensures BothAlike(Run(a, [open] + TextTok(raw) + [close]), Run(b, [open] + TextTok(Trim(raw)) + [close]))
  {
    hide ReadTag, Content, CloseName, PushChild, Step, Run;
    LeafRuns(a, open, raw, close);
    LeafRuns(b, open, Trim(raw), close);
    TextAlike(raw);
    var tag := ReadTag(open);
    if tag.Some? && Content(raw).Some? && tag.value.0 == CloseName(close.raw) {
      PushAlike(a, b, Node(tag.value.0, tag.value.1, [], Content(raw).value),
                Node(tag.value.0, tag.value.1, [], Content(Trim(raw)).value));
    }
  }

  lemma TextAlike(raw: string)
    ensures Content(raw).Some? <==> Content(Trim(raw)).Some?
    ensures Content(raw).Some? ==> Trim(Content(raw).value) == Trim(Content(Trim(raw)).value)
  {
    if Trim(raw) == "" {
      BlankTrims(raw);
      ContentOfBlank(raw);
      BlankTrims(Content(raw).value);
      ContentOfBlank("");
      BlankTrims(Content("").value);
    } else {
      ContentOfTrimmed(raw);
    }
  }

  /** The parser runs alike on tokens and on their layout. */
  lemma {:induction false} RelaidRunsAlike(a: State, b: State, toks: seq<Tok>, depth: nat, gap: string)
    requires Alike(a, b) && NoMixed(toks) && Lexed(toks) && Blank(gap)
    ensures BothAlike(Run(a, toks), Run(b, Relaid(toks, depth, gap)))
    decreases |toks|
  {
    hide Alike, Step, Blank, TokOk;
    IndentAndGap(gap, depth);
    IndentAndGap(gap, Outdent(depth));
    if toks == [] {
      assert TextTok(gap) + [] == TextTok(gap);
      GapAlike(a, b, gap, []);
    } else if LeafAt(toks) {
      RelaidLeafAlike(a, b, toks, depth, gap);
    } else if toks[0].Text? {
      BlankStepAlike(a, b, toks[0].raw);
      RelaidRunsAlike(Step(a, toks[0]).value, b, toks[1..], depth, gap);
    } else {
      var d := if toks[0].Close? then Outdent(depth) else depth;
      var next := if toks[0].Open? then depth + 1 else d;
      var tail := Relaid(toks[1..], next, "\n");
      assert TextTok(gap + Indent(d)) + [toks[0]] + tail == TextTok(gap + Indent(d)) + ([toks[0]] + tail);
      GapAlike(a, b, gap + Indent(d), [toks[0]] + tail);
      var c :| Alike(a, c) && Run(b, TextTok(gap + Indent(d)) + ([toks[0]] + tail)) == Run(c, [toks[0]] + tail);
      assert ([toks[0]] + tail)[1..] == tail;
      TagStepAlike(a, c, toks[0]);
      if Step(a, toks[0]).Some? {
        RelaidRunsAlike(Step(a, toks[0]).value, Step(c, toks[0]).value, toks[1..], next, "\n");
      }
    }
  }

  /** The two token lists of a leaf, each followed by its rest. */
  lemma LeafLists(toks: seq<Tok>, depth: nat, gap: string)
    requires Lexed(toks) && LeafAt(toks)
    ensures toks == ([toks[0]] + TextTok(toks[1].raw) + [toks[2]]) + toks[3..]
    ensures Relaid(toks, depth, gap)
         == TextTok(gap + Indent(depth)) + (([toks[0]] + TextTok(Trim(toks[1].raw)) + [toks[2]]) + Relaid(toks[3..], depth, "\n"))
  {
    hide TokOk, Lexed;
    LeafParts(toks);
    TextNotEmpty(toks[1]);
    var g, mid, tail := TextTok(gap + Indent(depth)), TextTok(Trim(toks[1].raw)), Relaid(toks[3..], depth, "\n");
    assert Relaid(toks, depth, gap) == g + [toks[0]] + mid + [toks[2]] + tail;
    assert g + [toks[0]] + mid + [toks[2]] + tail == g + (([toks[0]] + mid + [toks[2]]) + tail);
  }

  lemma {:induction false} RelaidLeafAlike(a: State, b: State, toks: seq<Tok>, depth: nat, gap: string)
    requires Alike(a, b) && NoMixed(toks) && Lexed(toks) && Blank(gap) && LeafAt(toks)
    ensures BothAlike(Run(a, toks), Run(b, Relaid(toks, depth, gap)))
    decreases |toks|, 0
  {
    hide Alike, Step, Blank, TokOk, Run, Relaid, TextTok, Trim;
    IndentAndGap(gap, depth);
    IndentAndGap("\n", 0);
    LeafParts(toks);
    LeafLists(toks, depth, gap);
    var raw, tail, g := toks[1].raw, Relaid(toks[3..], depth, "\n"), gap + Indent(depth);
    var here, there := [toks[0]] + TextTok(raw) + [toks[2]], [toks[0]] + TextTok(Trim(raw)) + [toks[2]];
    GapAlike(a, b, g, there + tail);
    var c :| Alike(a, c) && Run(b, TextTok(g) + (there + tail)) == Run(c, there + tail);
    RunAppend(a, here, toks[3..]);
    RunAppend(c, there, tail);
    LeafAlike(a, c, toks[0], raw, toks[2]);
    if Run(a, here).Some? {
      RelaidRunsAlike(Run(a, here).value, Run(c, there).value, toks[3..], depth, "\n");
    }
  }

  lemma TextNotEmpty(t: Tok)
    requires t.Text? && TokOk(t)
    ensures TextTok(t.raw) == [t]
  {
  }

  /** Trees that differ in the white space around texts only, or the same failure. */
  ghost predicate SameTree(a: Result<Node, XmlError>, b: Result<Node, XmlError>) {
    (a.Ok? <==> b.Ok?) && (a.Ok? ==> Squeeze(a.value) == Squeeze(b.value)) && (a.Err? ==> a == b)
  }

  /** pretty_xml is layout only: parsing its output equals parsing its input up to the white space around
      texts, for every text that parses here and in which no element mixes text with other elements. */
  lemma PrettyIsLayoutOnly(xml: string)
    requires NoMixed(Lex(xml)) && Tree(xml).Ok?
    ensures SameTree(Tree(Pretty(Lex(xml), 0)), Tree(xml))
  {
    hide Squeeze, Lex, Pretty, Relaid, Run, NoMixed, Lexed, Loose;
    LexIsLoose(xml);
    NoMixedIsLexed(Lex(xml));
    LexOfPretty(Lex(xml));
    RelaidRunsAlike(State([], None), State([], None), Lex(xml), 0, "");
  }

  // ----------------------------------------------------------------- documents

  type Attrs = seq<(string, string)>

  /** What the exporter prints: a leaf with text, an element with elements, or an empty tag. */
  datatype Elem =
    | Leaf(name: string, attrs: Attrs, text: string)
    | Branch(name: string, attrs: Attrs, kids: seq<Elem>)
    | Void(name: string, attrs: Attrs)

  predicate NameChar(c: char) {
    'a' <= c <= 'z' || c == '_'
  }

  predicate PlainName(s: string) {
    s != "" && forall c :: c in s ==> NameChar(c)
  }

  function AttrsText(attrs: Attrs): string {
    if attrs == [] then "" else ([' '] + attrs[0].0 + ['=', '"'] + Escaped(attrs[0].1) + ['"']) + AttrsText(attrs[1..])
  }

  function OpenRaw(name: string, attrs: Attrs): string {
    ['<'] + name + AttrsText(attrs) + ['>']
  }

  function VoidRaw(name: string, attrs: Attrs): string {
    ['<'] + name + AttrsText(attrs) + ['/', '>']
  }

  function CloseRaw(name: string): string {
    ['<', '/'] + name + ['>']
  }

  ghost predicate AttrsOk(attrs: Attrs) {
    attrs == [] ||
    (PlainName(attrs[0].0) && attrs[0].0 !in AttrMap(attrs[1..]) && AttrsOk(attrs[1..]))
  }

  ghost predicate ElemOk(e: Elem) {
    PlainName(e.name) && AttrsOk(e.attrs) && (e.Branch? ==> forall k :: k in e.kids ==> ElemOk(k))
  }

  function AttrMap(attrs: Attrs): map<string, string> {
    if attrs == [] then map[] else AttrMap(attrs[1..])[attrs[0].0 := NormalizeAttr(attrs[0].1)]
  }

  /** The node an element reads back as: line ends and attribute white space normalized. */
  function NodeOf(e: Elem): Node
    decreases e, 0
  {
    match e
    case Leaf(name, attrs, text) => Node(name, AttrMap(attrs), [], NormalizeEol(text))
    case Branch(name, attrs, kids) => Node(name, AttrMap(attrs), NodesOf(kids), "")
    case Void(name, attrs) => Node(name, AttrMap(attrs), [], "")
  }

  function NodesOf(es: seq<Elem>): (r: seq<Node>)
    ensures |r| == |es|
    ensures forall i :: 0 <= i < |es| ==> r[i] == NodeOf(es[i])
    decreases es, 1
  {
    if es == [] then [] else [NodeOf(es[0])] + NodesOf(es[1..])
  }

  /** The printed element followed by `rest`. */
  function Print(e: Elem, rest: string): string
    decreases e, 0
  {
    match e
    case Leaf(name, attrs, text) => OpenRaw(name, attrs) + (Escaped(text) + (CloseRaw(name) + rest))
    case Branch(name, attrs, kids) => OpenRaw(name, attrs) + PrintAll(kids, CloseRaw(name) + rest)
    case Void(name, attrs) => VoidRaw(name, attrs) + rest
  }

  function PrintAll(es: seq<Elem>, rest: string): string
    decreases es, 1
  {
    if es == [] then rest else Print(es[0], PrintAll(es[1..], rest))
  }

  /** Its tokens followed by `rest`. */
  function Toks(e: Elem, rest: seq<Tok>): seq<Tok>
    decreases e, 0
  {
    match e
    case Leaf(name, attrs, text) =>
      [Open(OpenRaw(name, attrs))] + TextTok(Escaped(text)) + [Close(CloseRaw(name))] + rest
    case Branch(name, attrs, kids) => [Open(OpenRaw(name, attrs))] + ToksAll(kids, [Close(CloseRaw(name))] + rest)
    case Void(name, attrs) => [Empty(VoidRaw(name, attrs))] + rest
  }

  function ToksAll(es: seq<Elem>, rest: seq<Tok>): seq<Tok>
    decreases es, 1
  {
    if es == [] then rest else Toks(es[0], ToksAll(es[1..], rest))
  }

  // -------------------------------------------------------------- printed tags

  lemma PlainHas(s: string)
    requires PlainName(s)
    ensures s != "" && ' ' !in s && '=' !in s && '<' !in s && '>' !in s
    ensures s[0] !in {'/', '!', '?'} && s[|s| - 1] != '/'
  {
    assert NameChar(s[0]) && NameChar(s[|s| - 1]);
  }

  lemma Absent(s: string, c: char)
    requires c !in s
    ensures forall i :: 0 <= i < |s| ==> s[i] != c
  {
    assert forall i :: 0 <= i < |s| ==> s[i] in s;
  }

  lemma EscapedHasNoTag(text: string)
    ensures '<' !in Escaped(text) && '>' !in Escaped(text) && '"' !in Escaped(text)
  {
    EscapedIsInert(text);
  }

  lemma {:induction false} AttrsTextIsInert(attrs: Attrs)
    requires AttrsOk(attrs)
    ensures '<' !in AttrsText(attrs) && '>' !in AttrsText(attrs)
    ensures AttrsText(attrs) == "" <==> attrs == []
    ensures attrs != [] ==> AttrsText(attrs)[0] == ' ' && AttrsText(attrs)[|AttrsText(attrs)| - 1] == '"'
  {
    if attrs != [] {
      hide Escaped, PlainName, AttrMap;
      AttrsTextIsInert(attrs[1..]);
      PlainHas(attrs[0].0);
      EscapedHasNoTag(attrs[0].1);
      var item, more := [' '] + attrs[0].0 + ['=', '"'] + Escaped(attrs[0].1) + ['"'], AttrsText(attrs[1..]);
      assert AttrsText(attrs) == item + more;
      assert item[0] == ' ' && item[|item| - 1] == '"';
    }
  }

  lemma OpenRawIsOk(name: string, attrs: Attrs)
    requires PlainName(name) && AttrsOk(attrs)
    ensures TokOk(Open(OpenRaw(name, attrs)))
  {
    hide PlainName, AttrsOk, AttrsText;
    PlainHas(name);
    AttrsTextIsInert(attrs);
    var raw := OpenRaw(name, attrs);
    var inner := ['<'] + name + AttrsText(attrs);
    assert raw == inner + ['>'];
    Absent(inner, '>');
    assert raw[1] == name[0];
    assert raw[|raw| - 2] == if attrs == [] then name[|name| - 1] else AttrsText(attrs)[|AttrsText(attrs)| - 1];
    NotASpecialTag(raw);
  }

  lemma NotASpecialTag(raw: string)
    requires |raw| >= 3 && raw[1] != '?' && raw[1] != '/'
    ensures Classify(raw) == if raw[|raw| - 2] == '/' && raw[|raw| - 1] == '>' then Empty(raw) else Open(raw)
  {
    assert EndsWith(raw, "/>") <==> raw[|raw| - 2] == '/' && raw[|raw| - 1] == '>';
  }

  lemma VoidRawIsOk(name: string, attrs: Attrs)
    requires PlainName(name) && AttrsOk(attrs)
    ensures TokOk(Empty(VoidRaw(name, attrs)))
  {
    hide PlainName, AttrsOk, AttrsText;
    PlainHas(name);
    AttrsTextIsInert(attrs);
    var raw := VoidRaw(name, attrs);
    var inner := ['<'] + name + AttrsText(attrs) + ['/'];
    assert raw == inner + ['>'];
    Absent(inner, '>');
    assert raw[1] == name[0];
    NotASpecialTag(raw);
  }

  lemma CloseRawIsOk(name: string)
    requires PlainName(name)
    ensures TokOk(Close(CloseRaw(name))) && CloseName(CloseRaw(name)) == name
  {
    hide PlainName;
    PlainHas(name);
    var raw, inner := CloseRaw(name), ['<', '/'] + name;
    assert raw == inner + ['>'];
    Absent(inner, '>');
    assert raw[2..|raw| - 1] == name;
    assert raw[0] == '<' && raw[1] == '/';
    StartsWithTwo(raw, '<', '?');
    StartsWithTwo(raw, '<', '/');
    assert "<?" == ['<', '?'] && "</" == ['<', '/'];
  }

  lemma StartsWithTwo(s: string, c: char, d: char)
    requires |s| >= 2
    ensures StartsWith(s, [c, d]) <==> s[0] == c && s[1] == d
  {
    assert s[..2] == [s[0], s[1]];
  }

  /** Reading the first attribute: the name up to `e`, the value in the `q` characters after the quote. */
  lemma ReadFirst(s: string, e: nat, q: nat)
    requires Find(s, '=') == Some(e) && 0 < e && e + 2 <= |s| && s[0] == ' ' && s[e + 1] == '"'
    requires Find(s[e + 2..], '"') == Some(q) && q < |s[e + 2..]|
    ensures var value, others := AttrContent(s[e + 2..][..q]), ReadAttrs(s[e + 2..][q + 1..]);
      value.Some? && others.Some? && s[1..e] !in others.value ==>
        ReadAttrs(s) == Some(others.value[s[1..e] := value.value])
  {
    hide Find, AttrContent;
  }

  /** One attribute read back, `more` being the text of the others. */
  lemma AttrReadsBack(k: string, value: string, more: string, others: map<string, string>)
    requires PlainName(k) && ReadAttrs(more) == Some(others) && k !in others
    ensures ReadAttrs(([' '] + k + ['=', '"'] + Escaped(value) + ['"']) + more)
         == Some(others[k := NormalizeAttr(value)])
  {
    hide Escaped, PlainName, NormalizeAttr, AttrContent, ReadAttrs, Find;
    var v := Escaped(value);
    var s := ([' '] + k + ['=', '"'] + v + ['"']) + more;
    var e := 1 + |k|;
    PlainHas(k);
    EscapedHasNoTag(value);
    AttrContentOfEscaped(value);
    Absent([' '] + k, '=');
    assert s[..e] == [' '] + k;
    FindFirst(s, '=', e);
    assert s[1..e] == k;
    var tail := s[e + 2..];
    assert tail == v + ['"'] + more;
    Absent(v, '"');
    FindFirst(tail, '"', |v|);
    assert tail[..|v|] == v && tail[|v| + 1..] == more;
    ReadFirst(s, e, |v|);
  }

  /** The attributes read back. */
  lemma {:induction false} AttrsReadBack(attrs: Attrs)
    requires AttrsOk(attrs)
    ensures ReadAttrs(AttrsText(attrs)) == Some(AttrMap(attrs))
  {
    if attrs != [] {
      hide Escaped, PlainName, NormalizeAttr, ReadAttrs;
      AttrsReadBack(attrs[1..]);
      AttrReadsBack(attrs[0].0, attrs[0].1, AttrsText(attrs[1..]), AttrMap(attrs[1..]));
    }
  }

  lemma BodyReadBack(name: string, attrs: Attrs, tok: Tok)
    requires PlainName(name) && AttrsOk(attrs)
    requires tok == Open(OpenRaw(name, attrs)) || tok == Empty(VoidRaw(name, attrs))
    ensures ReadTag(tok) == Some((name, AttrMap(attrs)))
  {
    hide PlainName, AttrsOk, AttrsText, AttrMap, ReadAttrs;
    PlainHas(name);
    AttrsTextIsInert(attrs);
    AttrsReadBack(attrs);
    var body := name + AttrsText(attrs);
    var cut := if tok.Open? then 1 else 2;
    assert tok.raw[1..|tok.raw| - cut] == body;
    assert tok.raw[1] == name[0];
    Absent(name, ' ');
    if attrs == [] {
      assert body == name;
      NoAttrs();
    } else {
      FindFirst(body, ' ', |name|);
      assert body[..|name|] == name && body[|name|..] == AttrsText(attrs);
    }
  }

  lemma NoAttrs()
    ensures AttrMap([]) == map[]
  {
  }

  // -------------------------------------------------------- printed documents

  lemma TagLexed(tag: Tok, rest: seq<Tok>)
    requires !tag.Text? && TokOk(tag) && Lexed(rest)
    ensures Lexed([tag] + rest)
  {
    hide TokOk;
    assert ([tag] + rest)[1..] == rest;
  }

  lemma {:induction false} DocLexed(e: Elem, rest: seq<Tok>)
    requires ElemOk(e) && Lexed(rest)
    ensures Lexed(Toks(e, rest))
    decreases e, 0
  {
    hide PlainName, AttrsOk, TokOk, Lexed, OpenRaw, CloseRaw, VoidRaw;
    match e
    case Leaf(name, attrs, text) =>
      OpenRawIsOk(name, attrs);
      CloseRawIsOk(name);
      EscapedHasNoTag(text);
      LexedTag(Escaped(text), Close(CloseRaw(name)), rest);
      var tail := TextTok(Escaped(text)) + [Close(CloseRaw(name))] + rest;
      TagLexed(Open(OpenRaw(name, attrs)), tail);
      assert Toks(e, rest) == [Open(OpenRaw(name, attrs))] + tail;
    case Branch(name, attrs, kids) =>
      OpenRawIsOk(name, attrs);
      CloseRawIsOk(name);
      TagLexed(Close(CloseRaw(name)), rest);
      DocsLexed(kids, [Close(CloseRaw(name))] + rest);
      TagLexed(Open(OpenRaw(name, attrs)), ToksAll(kids, [Close(CloseRaw(name))] + rest));
    case Void(name, attrs) =>
      VoidRawIsOk(name, attrs);
      TagLexed(Empty(VoidRaw(name, attrs)), rest);
  }

  lemma {:induction false} DocsLexed(es: seq<Elem>, rest: seq<Tok>)
    requires (forall k :: k in es ==> ElemOk(k)) && Lexed(rest)
    ensures Lexed(ToksAll(es, rest))
    decreases es, 1
  {
    if es != [] {
      DocsLexed(es[1..], rest);
      DocLexed(es[0], ToksAll(es[1..], rest));
    }
  }

  lemma {:induction false} DocSpells(e: Elem, rest: seq<Tok>)
    ensures Concat(Toks(e, rest)) == Print(e, Concat(rest))
    decreases e, 0
  {
    hide OpenRaw, CloseRaw, VoidRaw, Escaped;
    match e
    case Leaf(name, attrs, text) =>
      var tail := TextTok(Escaped(text)) + [Close(CloseRaw(name))] + rest;
      assert Toks(e, rest) == TextTok("") + [Open(OpenRaw(name, attrs))] + tail;
      ConcatTag("", Open(OpenRaw(name, attrs)), tail);
      ConcatTag(Escaped(text), Close(CloseRaw(name)), rest);
      ConcatAssoc(Escaped(text), CloseRaw(name), Concat(rest));
      assert "" + OpenRaw(name, attrs) == OpenRaw(name, attrs);
    case Branch(name, attrs, kids) =>
      var close := [Close(CloseRaw(name))] + rest;
      DocsSpell(kids, close);
      assert close == TextTok("") + [Close(CloseRaw(name))] + rest;
      ConcatTag("", Close(CloseRaw(name)), rest);
      assert "" + CloseRaw(name) == CloseRaw(name);
      assert Toks(e, rest) == TextTok("") + [Open(OpenRaw(name, attrs))] + ToksAll(kids, close);
      ConcatTag("", Open(OpenRaw(name, attrs)), ToksAll(kids, close));
      assert "" + OpenRaw(name, attrs) == OpenRaw(name, attrs);
    case Void(name, attrs) =>
      assert Toks(e, rest) == TextTok("") + [Empty(VoidRaw(name, attrs))] + rest;
      ConcatTag("", Empty(VoidRaw(name, attrs)), rest);
      assert "" + VoidRaw(name, attrs) == VoidRaw(name, attrs);
  }

  lemma {:induction false} DocsSpell(es: seq<Elem>, rest: seq<Tok>)
    ensures Concat(ToksAll(es, rest)) == PrintAll(es, Concat(rest))
    decreases es, 1
  {
    if es != [] {
      DocsSpell(es[1..], rest);
      DocSpells(es[0], ToksAll(es[1..], rest));
    }
  }

  lemma {:induction false} DocNotMixed(e: Elem, rest: seq<Tok>)
    requires NoMixed(rest)
    ensures NoMixed(Toks(e, rest)) && Toks(e, rest) != [] && !Toks(e, rest)[0].Text?
    decreases e, 0
  {
    hide OpenRaw, CloseRaw, VoidRaw, Escaped;
    var toks := Toks(e, rest);
    match e
    case Leaf(name, attrs, text) =>
      if Escaped(text) == "" {
        assert toks[1..] == [Close(CloseRaw(name))] + rest && toks[1..][1..] == rest;
      } else {
        assert LeafAt(toks) && toks[3..] == rest;
      }
    case Branch(name, attrs, kids) =>
      var close := [Close(CloseRaw(name))] + rest;
      assert close[1..] == rest;
      DocsNotMixed(kids, close);
      assert toks[1..] == ToksAll(kids, close) && toks[1] == toks[1..][0];
    case Void(name, attrs) =>
      assert toks[1..] == rest;
  }

  lemma {:induction false} DocsNotMixed(es: seq<Elem>, rest: seq<Tok>)
    requires NoMixed(rest) && rest != [] && !rest[0].Text?
    ensures var toks := ToksAll(es, rest); NoMixed(toks) && toks != [] && !toks[0].Text?
    decreases es, 1
  {
    if es != [] {
      DocsNotMixed(es[1..], rest);
      DocNotMixed(es[0], ToksAll(es[1..], rest));
    }
  }

  lemma RunCons(st: State, tok: Tok, rest: seq<Tok>)
    ensures Run(st, [tok] + rest) == var next := Step(st, tok); if next.None? then None else Run(next.value, rest)
  {
    assert ([tok] + rest)[1..] == rest;
  }

  /** Parsing a printed element hangs its node under the open element. */
  lemma {:induction false} DocRuns(st: State, e: Elem, rest: seq<Tok>)
    requires ElemOk(e)
    ensures Run(st, Toks(e, rest)) == Run(PushChild(st, NodeOf(e)), rest)
    decreases e, 0
  {
    hide PlainName, AttrsOk, Run, ReadTag, PushChild, AttrMap, OpenRaw, CloseRaw, VoidRaw, CloseName;
    match e
    case Leaf(name, attrs, text) =>
      var here := [Open(OpenRaw(name, attrs))] + TextTok(Escaped(text)) + [Close(CloseRaw(name))];
      assert Toks(e, rest) == here + rest;
      RunAppend(st, here, rest);
      BodyReadBack(name, attrs, Open(OpenRaw(name, attrs)));
      CloseRawIsOk(name);
      ContentOfEscaped(text);
      LeafRuns(st, Open(OpenRaw(name, attrs)), Escaped(text), Close(CloseRaw(name)));
    case Branch(name, attrs, kids) =>
      var close := [Close(CloseRaw(name))] + rest;
      BodyReadBack(name, attrs, Open(OpenRaw(name, attrs)));
      CloseRawIsOk(name);
      RunCons(st, Open(OpenRaw(name, attrs)), ToksAll(kids, close));
      var open := Node(name, AttrMap(attrs), [], "");
      KidsRun(st.stack, st.root, open, kids, close);
      assert [] + NodesOf(kids) == NodesOf(kids);
      var full := open.(children := NodesOf(kids));
      RunCons(State(st.stack + [full], st.root), Close(CloseRaw(name)), rest);
      assert (st.stack + [full])[..|st.stack|] == st.stack;
    case Void(name, attrs) =>
      BodyReadBack(name, attrs, Empty(VoidRaw(name, attrs)));
      RunCons(st, Empty(VoidRaw(name, attrs)), rest);
  }

  lemma {:induction false} KidsRun(stack: seq<Node>, root: Option<Node>, open: Node, es: seq<Elem>, rest: seq<Tok>)
    requires forall k :: k in es ==> ElemOk(k)
    ensures Run(State(stack + [open], root), ToksAll(es, rest))
         == Run(State(stack + [open.(children := open.children + NodesOf(es))], root), rest)
    decreases es, 1
  {
    hide Run, ElemOk;
    if es == [] {
      assert open.(children := open.children + []) == open;
    } else {
      DocRuns(State(stack + [open], root), es[0], ToksAll(es[1..], rest));
      var next := open.(children := open.children + [NodeOf(es[0])]);
      assert (stack + [open])[..|stack|] == stack;
      assert PushChild(State(stack + [open], root), NodeOf(es[0])) == State(stack + [next], root);
      KidsRun(stack, root, next, es[1..], rest);
      ConcatAssoc(open.children, [NodeOf(es[0])], NodesOf(es[1..]));
    }
  }

  /** A declaration and its line end, then the root element. */
  function Document(decl: string, e: Elem): string {
    decl + (['\n'] + Print(e, ""))
  }

  function DocumentToks(decl: string, e: Elem): seq<Tok> {
    [Decl(decl), Text(['\n'])] + Toks(e, [])
  }

  lemma DocumentLexes(decl: string, e: Elem)
    requires TokOk(Decl(decl)) && ElemOk(e)
    ensures Lex(Document(decl, e)) == DocumentToks(decl, e) && NoMixed(DocumentToks(decl, e))
  {
    hide TokOk, ElemOk, Toks, Print, Lex;
    var root, all := Toks(e, []), DocumentToks(decl, e);
    DocLexed(e, []);
    DocSpells(e, []);
    DocNotMixed(e, []);
    assert all[1..] == [Text(['\n'])] + root && all[1..][1..] == root;
    TextOk(['\n']);
    LexConcat(all);
  }

  /** The document reads back as its tree, printed compactly or laid out. */
  lemma DocumentReadsBack(decl: string, e: Elem)
    requires TokOk(Decl(decl)) && ElemOk(e)
    ensures Tree(Document(decl, e)) == Ok(NodeOf(e))
    ensures SameTree(Tree(Pretty(Lex(Document(decl, e)), 0)), Ok(NodeOf(e)))
  {
    hide TokOk, ElemOk, Toks, Print, Lex, Content, NodeOf, Document, Pretty;
    DocumentLexes(decl, e);
    var start, root := State([], None), Toks(e, []);
    RunCons(start, Decl(decl), [Text(['\n'])] + root);
    assert DocumentToks(decl, e) == [Decl(decl)] + ([Text(['\n'])] + root);
    RunCons(start, Text(['\n']), root);
    ContentOfBlank(['\n']);
    DocRuns(start, e, []);
    PrettyIsLayoutOnly(Document(decl, e));
  }
}
