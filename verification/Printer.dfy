/**
 The XML printer (src/billing/transfer.rs:59-256): string building, proved to spell the document.
 */
module Printer {
  import opened Wrappers
  import opened Strings
  import opened Numerals
  import opened Pricing
  import opened XmlText
  import opened XmlTokens
  import opened XmlTree
  import opened Transfer

  // ------------------------------------------------------- spelling of elements

  function Spell(es: seq<Elem>): string {
    PrintAll(es, "")
  }

  lemma {:induction false} PrintAppend(e: Elem, a: string, b: string)
    ensures Print(e, a + b) == Print(e, a) + b
    decreases e, 0
  {
    match e
    case Leaf(name, attrs, text) =>
      ConcatAssoc(CloseRaw(name), a, b);
      ConcatAssoc(Escaped(text), CloseRaw(name) + a, b);
      ConcatAssoc(OpenRaw(name, attrs), Escaped(text) + (CloseRaw(name) + a), b);
    case Branch(name, attrs, kids) =>
      ConcatAssoc(CloseRaw(name), a, b);
      PrintAllAppend(kids, CloseRaw(name) + a, b);
      ConcatAssoc(OpenRaw(name, attrs), PrintAll(kids, CloseRaw(name) + a), b);
    case Void(name, attrs) =>
      ConcatAssoc(VoidRaw(name, attrs), a, b);
  }

  lemma {:induction false} PrintAllAppend(es: seq<Elem>, a: string, b: string)
    ensures PrintAll(es, a + b) == PrintAll(es, a) + b
    decreases es, 1
  {
    if es != [] {
      PrintAllAppend(es[1..], a, b);
      PrintAppend(es[0], PrintAll(es[1..], a), b);
    }
  }

  lemma SpellRest(es: seq<Elem>, rest: string)
    ensures PrintAll(es, rest) == Spell(es) + rest
  {
    assert "" + rest == rest;
    PrintAllAppend(es, "", rest);
  }

  lemma {:induction false} SpellAppend(a: seq<Elem>, b: seq<Elem>)
    ensures Spell(a + b) == Spell(a) + Spell(b)
  {
    if a == [] {
      assert a + b == b && "" + Spell(b) == Spell(b);
    } else {
      assert (a + b)[1..] == a[1..] + b;
      SpellAppend(a[1..], b);
      PrintAppend(a[0], Spell(a[1..]), Spell(b));
    }
  }

  function StartTag(name: string): string {
    "<" + name + ">"
  }

  function EndTag(name: string): string {
    "</" + name + ">"
  }

  lemma Tags(name: string)
    ensures OpenRaw(name, []) == StartTag(name) && CloseRaw(name) == EndTag(name)
  {
  }

  /** `<tag>text</tag>`, the text escaped. */
  function LeafXml(tag: string, text: string): string {
    StartTag(tag) + XmlEscape(text) + EndTag(tag)
  }

  lemma SpellOne(e: Elem)
    ensures Spell([e]) == Print(e, "")
  {
    assert [e][1..] == [] && PrintAll([], "") == "";
  }

  lemma SpellLeaf(tag: string, text: string)
    ensures Spell([Leaf(tag, [], text)]) == LeafXml(tag, text)
  {
    Tags(tag);
    EscapeIsCharwise(text);
    SpellOne(Leaf(tag, [], text));
    assert EndTag(tag) + "" == EndTag(tag);
    ConcatAssoc(StartTag(tag), XmlEscape(text), EndTag(tag));
  }

  lemma SpellBranch(tag: string, kids: seq<Elem>)
    ensures Spell([Branch(tag, [], kids)]) == StartTag(tag) + Spell(kids) + EndTag(tag)
  {
    Tags(tag);
    SpellOne(Branch(tag, [], kids));
    assert EndTag(tag) + "" == EndTag(tag);
    SpellRest(kids, EndTag(tag));
    ConcatAssoc(StartTag(tag), Spell(kids), EndTag(tag));
  }

  /** Numbers need no escaping. */
  lemma PlainEscapes(s: string)
    requires PlainNumber(s)
    ensures XmlEscape(s) == s
  {
    EscapeIsCharwise(s);
    EscapedPlain(s);
  }

  lemma DecimalEscapes(d: Dec)
    ensures XmlEscape(DecText(d)) == DecText(d)
  {
    DecTextIsPlain(d);
    PlainEscapes(DecText(d));
  }

  // ------------------------------------------------------------ parts in a row

  /** The text of the first `n` parts. */
  function JoinTo(parts: seq<seq<Elem>>, n: nat): string
    requires n <= |parts|
  {
    if n == 0 then "" else JoinTo(parts, n - 1) + Spell(parts[n - 1])
  }

  lemma JoinFirst(start: string, parts: seq<seq<Elem>>)
    requires parts != []
    ensures start + Spell(parts[0]) == start + JoinTo(parts, 1)
  {
    assert JoinTo(parts, 0) == "" && "" + Spell(parts[0]) == Spell(parts[0]);
  }

  lemma JoinNext(start: string, parts: seq<seq<Elem>>, n: nat)
    requires n < |parts|
    ensures start + JoinTo(parts, n) + Spell(parts[n]) == start + JoinTo(parts, n + 1)
  {
    ConcatAssoc(start, JoinTo(parts, n), Spell(parts[n]));
  }

  lemma {:induction false} FlattenFrom(parts: seq<seq<Elem>>, n: nat)
    requires n <= |parts|
    ensures JoinTo(parts, n) + Spell(Flatten(parts[n..])) == Spell(Flatten(parts))
    decreases n
  {
    if n == 0 {
      assert parts[0..] == parts && "" + Spell(Flatten(parts)) == Spell(Flatten(parts));
    } else {
      FlattenFrom(parts, n - 1);
      assert parts[n - 1..][1..] == parts[n..];
      SpellAppend(parts[n - 1], Flatten(parts[n..]));
      ConcatAssoc(JoinTo(parts, n - 1), Spell(parts[n - 1]), Spell(Flatten(parts[n..])));
    }
  }

  lemma SpellParts(parts: seq<seq<Elem>>)
    ensures Spell(Flatten(parts)) == JoinTo(parts, |parts|)
  {
    FlattenFrom(parts, |parts|);
    assert parts[|parts|..] == [];
    assert JoinTo(parts, |parts|) + "" == JoinTo(parts, |parts|);
  }

  lemma SpellMapNext<T(!new)>(s: seq<T>, f: T -> Elem, i: nat)
    requires i < |s|
    ensures Spell(Map(s[..i + 1], f)) == Spell(Map(s[..i], f)) + Spell([f(s[i])])
  {
    assert Map(s[..i + 1], f) == Map(s[..i], f) + [f(s[i])];
    SpellAppend(Map(s[..i], f), [f(s[i])]);
  }

  // --------------------------------------------------------- the file's wording

  /** `<tag>body</tag>`. */
  function Element(tag: string, body: string): string {
    "<" + tag + ">" + body + "</" + tag + ">"
  }

  function Texts<T>(s: seq<T>, text: T -> string): string {
    if s == [] then "" else text(s[0]) + Texts(s[1..], text)
  }

  function Maybe(tag: string, text: Option<string>): string {
    if text.Some? then Element(tag, XmlEscape(text.value)) else ""
  }

  function DayText(d: string): string {
    Element("day", XmlEscape(d))
  }

  function WindowText(w: (string, string)): string {
    WindowXml(w.0, w.1)
  }

  function SegmentText(seg: Segment): string {
    Element("segment",
      Maybe("name", seg.name)
      + Element("price", DecText(seg.price))
      + (if seg.weekdays.Some? then Element("weekdays", Texts(seg.weekdays.value, DayText)) else "")
      + (if seg.windows.Some? then Element("windows", Texts(seg.windows.value, WindowText)) else "")
      + (if seg.minPrompt.Some? then Element("min_prompt_tokens", IntText(seg.minPrompt.value)) else "")
      + (if seg.maxPrompt.Some? then Element("max_prompt_tokens", IntText(seg.maxPrompt.value)) else ""))
  }

  function SegmentsText(segs: Option<Segs>): string {
    if segs.Some? && segs.value.Readable? && segs.value.list != [] then
      Element("segments", Texts(segs.value.list, SegmentText))
    else ""
  }

  /** The segments an item has for a unit. */
  function SegmentsOf(item: Item, unit: string): string {
    if item.segments.Some? && unit in item.segments.value then SegmentsText(Some(item.segments.value[unit])) else ""
  }

  function ColumnText(tag: string, price: Option<Decimal>, segments: string): string {
    if price.None? then ""
    else if segments == "" then Element(tag, DecText(price.value))
    else Element(tag, Element("price", DecText(price.value)) + segments)
  }

  function DimensionTexts(v: Json, keys: seq<string>): string
    requires v.Obj? && forall k :: k in keys ==> k in v.fields
  {
    if keys == [] then "" else DimensionXml(keys[0], JsonValueText(v.fields[keys[0]])) + DimensionTexts(v, keys[1..])
  }

  function DimensionsText(dims: Option<Json>): string {
    if dims.Some? && dims.value.Obj? && dims.value.fields != map[] then
      Element("dimensions", DimensionTexts(dims.value, SortedKeys(dims.value.fields.Keys)))
    else ""
  }

  function MediaRuleText(r: MediaRule): string {
    Element("item",
      (if r.basePrice.Some? then Element("price", DecText(r.basePrice.value)) else "")
      + Maybe("dimension_key", r.dimensionKey)
      + DimensionsText(r.dimensions)
      + SegmentsText(r.segments))
  }

  function MediaText(tag: string, rules: Option<seq<MediaRule>>): string {
    if rules.None? || rules.value == [] then "" else Element(tag, Texts(rules.value, MediaRuleText))
  }

  function ItemText(item: Item): string {
    Element("price",
      Element("model_id", XmlEscape(item.model))
      + Element("upstream", XmlEscape(item.upstream))
      + Element("currency", XmlEscape(item.currency))
      + ColumnText("input_per_m", item.inputPerM, SegmentsOf(item, "token_in"))
      + ColumnText("output_per_m", item.outputPerM, SegmentsOf(item, "token_out"))
      + ColumnText("cache_read_per_m", item.cacheReadPerM, SegmentsOf(item, "token_cache_read"))
      + ColumnText("cache_write_per_m", item.cacheWritePerM, SegmentsOf(item, "token_cache_write"))
      + MediaText("image", item.image)
      + MediaText("video", item.video))
  }

  /** The whole file, word for word. */
  function FileText(items: seq<Item>): string {
    "<?xml version=\"1.0\" encoding=\"UTF-8\"?>" + "\n" + ("<prices schema=\"" + "nextapi-prices/v1" + "\">")
    + Texts(items, ItemText) + "</prices>"
  }

  lemma BranchIsElement(tag: string, kids: seq<Elem>)
    ensures Spell([Branch(tag, [], kids)]) == Element(tag, Spell(kids))
  {
    SpellBranch(tag, kids);
    var body := Spell(kids);
    calc {
      StartTag(tag) + body + EndTag(tag);
      ("<" + tag + ">") + body + ("</" + tag + ">");
      "<" + tag + ">" + body + "</" + tag + ">";
    }
  }

  lemma LeafIsElement(tag: string, text: string)
    ensures Spell([Leaf(tag, [], text)]) == Element(tag, XmlEscape(text))
  {
    SpellLeaf(tag, text);
    var body := XmlEscape(text);
    calc {
      StartTag(tag) + body + EndTag(tag);
      ("<" + tag + ">") + body + ("</" + tag + ">");
      "<" + tag + ">" + body + "</" + tag + ">";
    }
  }

  lemma NumberIsElement(tag: string, d: Dec)
    ensures Spell([Leaf(tag, [], DecText(d))]) == Element(tag, DecText(d))
  {
    hide Element, Spell;
    LeafIsElement(tag, DecText(d));
    DecimalEscapes(d);
  }

  lemma IntegerIsElement(tag: string, n: Option<I64>)
    ensures Spell(TextElem(tag, IntegerText(n))) == if n.Some? then Element(tag, IntText(n.value)) else ""
  {
    hide Element;
    if n.Some? {
      LeafIsElement(tag, IntText(n.value));
      IntTextIsPlain(n.value);
      PlainEscapes(IntText(n.value));
    }
  }

  lemma {:induction false} MapIsTexts<T(!new)>(s: seq<T>, elem: T -> Elem, text: T -> string)
    requires forall x :: x in s ==> Spell([elem(x)]) == text(x)
    ensures Spell(Map(s, elem)) == Texts(s, text)
  {
    if s != [] {
      assert s[0] in s && forall x :: x in s[1..] ==> x in s;
      MapIsTexts(s[1..], elem, text);
      SpellAppend([elem(s[0])], Map(s[1..], elem));
    }
  }

  lemma MaybeIsText(tag: string, text: Option<string>)
    ensures Spell(TextElem(tag, text)) == Maybe(tag, text)
  {
    hide Element;
    if text.Some? {
      LeafIsElement(tag, text.value);
    }
  }

  lemma DaysAreTexts(days: Option<seq<string>>)
    ensures Spell(WeekdaysElem(days)) == if days.Some? then Element("weekdays", Texts(days.value, DayText)) else ""
  {
    hide Element, XmlEscape;
    if days.Some? {
      forall d | d in days.value ensures Spell([DayElem(d)]) == DayText(d) { LeafIsElement("day", d); }
      MapIsTexts(days.value, DayElem, DayText);
      BranchIsElement("weekdays", Map(days.value, DayElem));
    }
  }

  lemma WindowsAreTexts(windows: Option<seq<(string, string)>>)
    ensures Spell(WindowsElem(windows)) == if windows.Some? then Element("windows", Texts(windows.value, WindowText)) else ""
  {
    hide Element, XmlEscape, WindowXml;
    if windows.Some? {
      forall w: (string, string) | w in windows.value ensures Spell([WindowElem(w)]) == WindowText(w) {
        SpellWindow(w.0, w.1);
        assert w == (w.0, w.1);
      }
      MapIsTexts(windows.value, WindowElem, WindowText);
      BranchIsElement("windows", Map(windows.value, WindowElem));
    }
  }

  lemma JoinStep(parts: seq<seq<Elem>>, n: nat)
    requires n < |parts|
    ensures JoinTo(parts, n + 1) == JoinTo(parts, n) + Spell(parts[n])
    ensures n == 0 ==> JoinTo(parts, 1) == Spell(parts[0])
  {
    assert JoinTo(parts, 0) == "" && "" + Spell(parts[0]) == Spell(parts[0]);
  }

  lemma SegmentIsText(seg: Segment)
    ensures Spell([SegmentElem(seg)]) == SegmentText(seg)
  {
    hide Element, Spell, Texts, JoinTo, Flatten, XmlEscape, TextElem, WeekdaysElem, WindowsElem;
    var parts := SegmentParts(seg);
    BranchIsElement("segment", Flatten(parts));
    SpellParts(parts);
    MaybeIsText("name", seg.name);
    PriceIsText(seg.price);
    DaysAreTexts(seg.weekdays);
    WindowsAreTexts(seg.windows);
    IntegerIsElement("min_prompt_tokens", seg.minPrompt);
    IntegerIsElement("max_prompt_tokens", seg.maxPrompt);
    JoinStep(parts, 0);
    JoinStep(parts, 1);
    JoinStep(parts, 2);
    JoinStep(parts, 3);
    JoinStep(parts, 4);
    JoinStep(parts, 5);
  }

  lemma PriceIsText(d: Decimal)
    ensures Spell(TextElem("price", Some(DecText(d)))) == Element("price", DecText(d))
  {
    NumberIsElement("price", d);
  }

  lemma SegmentsAreText(segs: Option<Segs>)
    ensures Spell(SegmentsElem(segs)) == SegmentsText(segs)
    ensures SegmentsElem(segs) == [] <==> SegmentsText(segs) == ""
  {
    hide SegmentElem, SegmentText, Spell;
    assert Spell([]) == "" by { NothingSpelled(); }
    if segs.Some? && segs.value.Readable? && segs.value.list != [] {
      var list := segs.value.list;
      forall g | g in list ensures Spell([SegmentElem(g)]) == SegmentText(g) { SegmentIsText(g); }
      MapIsTexts(list, SegmentElem, SegmentText);
      BranchIsElement("segments", Map(list, SegmentElem));
      assert Element("segments", Texts(list, SegmentText)) != "";
    }
  }

  lemma NothingSpelled()
    ensures Spell([]) == ""
  {
  }

  lemma ColumnIsText(tag: string, price: Option<Decimal>, segs: Option<Segs>)
    ensures Spell(ColElem(tag, price, segs)) == ColumnText(tag, price, SegmentsText(segs))
  {
    hide SegmentsElem, SegmentsText, Element, Spell, JoinTo, Flatten;
    NothingSpelled();
    SegmentsAreText(segs);
    if price.Some? {
      NumberIsElement(tag, price.value);
      var parts := [TextElem("price", DecimalText(price)), SegmentsElem(segs)];
      BranchIsElement(tag, Flatten(parts));
      SpellParts(parts);
      PriceIsText(price.value);
      JoinStep(parts, 0);
      JoinStep(parts, 1);
    }
  }

  lemma {:induction false} DimensionsAreTexts(v: Json, keys: seq<string>)
    requires v.Obj? && forall k :: k in keys ==> k in v.fields
    ensures Spell(DimElems(v, keys)) == DimensionTexts(v, keys)
  {
    hide Spell, DimElem, DimensionXml;
    NothingSpelled();
    if keys != [] {
      var k := keys[0];
      SpellDimension(k, v.fields[k]);
      SpellAppend([DimElem(k, v.fields[k])], DimElems(v, keys[1..]));
      DimensionsAreTexts(v, keys[1..]);
    }
  }

  lemma DimensionsAreText(dims: Option<Json>)
    ensures Spell(DimensionsElem(dims)) == DimensionsText(dims)
  {
    hide DimElems, DimensionTexts, Spell, Element;
    NothingSpelled();
    if dims.Some? && dims.value.Obj? && dims.value.fields != map[] {
      var keys := SortedKeys(dims.value.fields.Keys);
      DimensionsAreTexts(dims.value, keys);
      BranchIsElement("dimensions", DimElems(dims.value, keys));
    }
  }

  lemma MediaRuleIsText(r: MediaRule)
    ensures Spell([MediaRuleElem(r)]) == MediaRuleText(r)
  {
    hide Element, Spell, JoinTo, Flatten, DimensionsElem, DimensionsText, SegmentsElem, SegmentsText, XmlEscape;
    var parts := MediaParts(r);
    NothingSpelled();
    BranchIsElement("item", Flatten(parts));
    SpellParts(parts);
    if r.basePrice.Some? {
      PriceIsText(r.basePrice.value);
    }
    MaybeIsText("dimension_key", r.dimensionKey);
    DimensionsAreText(r.dimensions);
    SegmentsAreText(r.segments);
    JoinStep(parts, 0);
    JoinStep(parts, 1);
    JoinStep(parts, 2);
    JoinStep(parts, 3);
  }

  lemma MediaIsText(tag: string, rules: Option<seq<MediaRule>>)
    ensures Spell(MediaElem(tag, rules)) == MediaText(tag, rules)
  {
    hide MediaRuleElem, MediaRuleText, Spell, Element;
    NothingSpelled();
    if rules.Some? && rules.value != [] {
      forall r | r in rules.value ensures Spell([MediaRuleElem(r)]) == MediaRuleText(r) { MediaRuleIsText(r); }
      MapIsTexts(rules.value, MediaRuleElem, MediaRuleText);
      BranchIsElement(tag, Map(rules.value, MediaRuleElem));
    }
  }

  /** Where a unit's segments go, if it has any. */
  lemma ItemColumnIsText(item: Item, tag: string, unit: string, price: Option<Decimal>)
    ensures Spell(ColElem(tag, price, UnitSegments(item, unit))) == ColumnText(tag, price, SegmentsOf(item, unit))
  {
    hide ColElem, ColumnText, Spell;
    ColumnIsText(tag, price, UnitSegments(item, unit));
  }

  lemma ItemIsText(item: Item)
    ensures Spell([ItemElem(item)]) == ItemText(item)
  {
    hide Element, Spell, JoinTo, Flatten, ColElem, MediaElem, ColumnText, MediaText, SegmentsOf, UnitSegments, XmlEscape;
    var parts := ItemParts(item);
    BranchIsElement("price", Flatten(parts));
    SpellParts(parts);
    LeafIsElement("model_id", item.model);
    LeafIsElement("upstream", item.upstream);
    LeafIsElement("currency", item.currency);
    ItemColumnIsText(item, "input_per_m", "token_in", item.inputPerM);
    ItemColumnIsText(item, "output_per_m", "token_out", item.outputPerM);
    ItemColumnIsText(item, "cache_read_per_m", "token_cache_read", item.cacheReadPerM);
    ItemColumnIsText(item, "cache_write_per_m", "token_cache_write", item.cacheWritePerM);
    MediaIsText("image", item.image);
    MediaIsText("video", item.video);
    JoinStep(parts, 0);
    JoinStep(parts, 1);
    JoinStep(parts, 2);
    JoinStep(parts, 3);
    JoinStep(parts, 4);
    JoinStep(parts, 5);
    JoinStep(parts, 6);
    JoinStep(parts, 7);
    JoinStep(parts, 8);
  }

  /** The printed document is worded so. */
  lemma CompactIsFile(items: seq<Item>)
    ensures CompactText(items) == FileText(items)
  {
    hide Spell, ItemElem, ItemText, CompactText, Texts;
    RootSpells(items);
    forall item | item in items ensures Spell([ItemElem(item)]) == ItemText(item) { ItemIsText(item); }
    MapIsTexts(items, ItemElem, ItemText);
    assert EndTag("prices") == "</prices>";
  }

  // ------------------------------------------------------------------ printers

  method TextXml(tag: string, text: Option<string>) returns (s: string)
    ensures s == Spell(TextElem(tag, text))
  {
    s := "";
    match text {
      case Some(t) =>
        SpellLeaf(tag, t);
        s := LeafXml(tag, t);
      case None =>
    }
  }

  method WeekdaysXml(days: Option<seq<string>>) returns (s: string)
    ensures s == Spell(WeekdaysElem(days))
  {
    s := "";
    match days {
      case None =>
      case Some(ds) =>
        s := StartTag("weekdays");
        for i := 0 to |ds|
          invariant s == StartTag("weekdays") + Spell(Map(ds[..i], DayElem))
        {
          hide StartTag, LeafXml, Spell, Map;
          SpellMapNext(ds, DayElem, i);
          SpellLeaf("day", ds[i]);
          ConcatAssoc(StartTag("weekdays"), Spell(Map(ds[..i], DayElem)), LeafXml("day", ds[i]));
          s := s + LeafXml("day", ds[i]);
        }
        assert ds[..|ds|] == ds;
        s := s + EndTag("weekdays");
        SpellBranch("weekdays", Map(ds, DayElem));
    }
  }

  /** `<window start=".." end=".."/>`. */
  function WindowXml(a: string, b: string): string {
    "<window start=\"" + XmlEscape(a) + "\" end=\"" + XmlEscape(b) + "\"/>"
  }

  /** Two attributes in a tag. */
  lemma TwoAttrs(k: string, v: string, l: string, w: string)
    ensures AttrsText([(k, v), (l, w)]) == (" " + k + "=\"" + Escaped(v) + "\"") + (" " + l + "=\"" + Escaped(w) + "\"")
  {
    hide Escaped;
    assert [(k, v), (l, w)][1..] == [(l, w)];
    OneAttr(l, w);
  }

  lemma SpellWindow(a: string, b: string)
    ensures Spell([WindowElem((a, b))]) == WindowXml(a, b)
  {
    hide XmlEscape, Escaped, AttrsText;
    var e := WindowElem((a, b));
    EscapeIsCharwise(a);
    EscapeIsCharwise(b);
    SpellOne(e);
    TwoAttrs("start", a, "end", b);
    WindowTag(Escaped(a), Escaped(b), AttrsText(e.attrs));
    assert VoidRaw("window", e.attrs) + "" == VoidRaw("window", e.attrs);
  }

  lemma WindowTag(a: string, b: string, attrs: string)
    requires attrs == (" " + "start" + "=\"" + a + "\"") + (" " + "end" + "=\"" + b + "\"")
    ensures ['<'] + "window" + attrs + ['/', '>'] == "<window start=\"" + a + "\" end=\"" + b + "\"/>"
  {
  }

  method WindowsXml(windows: Option<seq<(string, string)>>) returns (s: string)
    ensures s == Spell(WindowsElem(windows))
  {
    s := "";
    match windows {
      case None =>
      case Some(ws) =>
        s := StartTag("windows");
        for i := 0 to |ws|
          invariant s == StartTag("windows") + Spell(Map(ws[..i], WindowElem))
        {
          hide StartTag, WindowXml, Spell, Map;
          SpellMapNext(ws, WindowElem, i);
          SpellWindow(ws[i].0, ws[i].1);
          ConcatAssoc(StartTag("windows"), Spell(Map(ws[..i], WindowElem)), WindowXml(ws[i].0, ws[i].1));
          s := s + WindowXml(ws[i].0, ws[i].1);
        }
        assert ws[..|ws|] == ws;
        s := s + EndTag("windows");
        SpellBranch("windows", Map(ws, WindowElem));
    }
  }

  /** segment_xml. */
  method SegmentXml(seg: Segment) returns (s: string)
    ensures s == Spell([SegmentElem(seg)])
  {
    ghost var start, parts := StartTag("segment"), SegmentParts(seg);
    s := StartTag("segment");
    var t := TextXml("name", seg.name);
    s := s + t;
    JoinFirst(start, parts);
    t := TextXml("price", Some(DecText(seg.price)));
    s := s + t;
    JoinNext(start, parts, 1);
    t := WeekdaysXml(seg.weekdays);
    s := s + t;
    JoinNext(start, parts, 2);
    t := WindowsXml(seg.windows);
    s := s + t;
    JoinNext(start, parts, 3);
    t := TextXml("min_prompt_tokens", IntegerText(seg.minPrompt));
    s := s + t;
    JoinNext(start, parts, 4);
    t := TextXml("max_prompt_tokens", IntegerText(seg.maxPrompt));
    s := s + t;
    JoinNext(start, parts, 5);
    s := s + EndTag("segment");
    SpellParts(parts);
    SpellBranch("segment", Flatten(parts));
  }

  /** segments_to_xml: the empty string unless the column reads as some segments. */
  method SegmentsToXml(segs: Option<Segs>) returns (s: string)
    ensures s == Spell(SegmentsElem(segs))
    ensures s == "" <==> SegmentsElem(segs) == []
  {
    s := "";
    if segs.Some? && segs.value.Readable? && segs.value.list != [] {
      var list := segs.value.list;
      s := StartTag("segments");
      for i := 0 to |list|
        invariant s == StartTag("segments") + Spell(Map(list[..i], SegmentElem))
      {
        hide StartTag, Spell, Map, SegmentElem;
        var t := SegmentXml(list[i]);
        SpellMapNext(list, SegmentElem, i);
        ConcatAssoc(StartTag("segments"), Spell(Map(list[..i], SegmentElem)), t);
        s := s + t;
      }
      assert list[..|list|] == list;
      s := s + EndTag("segments");
      SpellBranch("segments", Map(list, SegmentElem));
    }
  }

  /** token_col_xml: nothing without a price; the bare number unless there are segments to show. */
  method TokenColXml(tag: string, price: Option<Decimal>, segs: Option<Segs>) returns (s: string)
    ensures s == Spell(ColElem(tag, price, segs))
  {
    if price.None? {
      return "";
    }
    var p := price.value;
    DecimalEscapes(p);
    var segXml := SegmentsToXml(segs);
    if segXml == "" {
      SpellLeaf(tag, DecText(p));
      s := StartTag(tag) + DecText(p) + EndTag(tag);
    } else {
      ghost var parts := [TextElem("price", DecimalText(price)), SegmentsElem(segs)];
      SpellLeaf("price", DecText(p));
      s := StartTag(tag) + (StartTag("price") + DecText(p) + EndTag("price"));
      JoinFirst(StartTag(tag), parts);
      s := s + segXml;
      JoinNext(StartTag(tag), parts, 1);
      SpellParts(parts);
      SpellBranch(tag, Flatten(parts));
      s := s + EndTag(tag);
    }
  }

  /** `<dimension name="..">text</dimension>`. */
  function DimensionXml(k: string, text: string): string {
    "<dimension name=\"" + XmlEscape(k) + "\">" + XmlEscape(text) + EndTag("dimension")
  }

  lemma SpellDimension(k: string, v: Json)
    ensures Spell([DimElem(k, v)]) == DimensionXml(k, JsonValueText(v))
  {
    hide XmlEscape, Escaped, JsonValueText;
    var e := DimElem(k, v);
    EscapeIsCharwise(k);
    EscapeIsCharwise(e.text);
    SpellOne(e);
    OneAttr("name", k);
    Tags("dimension");
    assert CloseRaw("dimension") + "" == EndTag("dimension");
    assert OpenRaw("dimension", e.attrs) == "<dimension name=\"" + Escaped(k) + "\">";
  }

  lemma {:induction false} DimElemsNext(v: Json, keys: seq<string>, i: nat)
    requires v.Obj? && (forall k :: k in keys ==> k in v.fields) && i < |keys|
    ensures Spell(DimElems(v, keys[..i + 1])) == Spell(DimElems(v, keys[..i])) + Spell([DimElem(keys[i], v.fields[keys[i]])])
    decreases i
  {
    DimElemsAppend(v, keys[..i], keys[i]);
    assert keys[..i + 1] == keys[..i] + [keys[i]];
    SpellAppend(DimElems(v, keys[..i]), [DimElem(keys[i], v.fields[keys[i]])]);
  }

  lemma {:induction false} DimElemsAppend(v: Json, keys: seq<string>, k: string)
    requires v.Obj? && (forall o :: o in keys ==> o in v.fields) && k in v.fields
    ensures DimElems(v, keys + [k]) == DimElems(v, keys) + [DimElem(k, v.fields[k])]
  {
    if keys == [] {
      assert keys + [k] == [k] && [k][1..] == [];
      assert DimElems(v, []) == [];
    } else {
      assert (keys + [k])[1..] == keys[1..] + [k];
      DimElemsAppend(v, keys[1..], k);
    }
  }

  method DimensionsLoop(v: Json, keys: seq<string>) returns (s: string)
    requires v.Obj? && forall k :: k in keys ==> k in v.fields
    ensures s == StartTag("dimensions") + Spell(DimElems(v, keys))
  {
    s := StartTag("dimensions");
    assert DimElems(v, keys[..0]) == [] && s + Spell([]) == s;
    for i := 0 to |keys|
      invariant s == StartTag("dimensions") + Spell(DimElems(v, keys[..i]))
    {
      hide StartTag, Spell, DimElems, DimElem, DimensionXml, JsonValueText;
      var k := keys[i];
      DimElemsNext(v, keys, i);
      SpellDimension(k, v.fields[k]);
      ConcatAssoc(StartTag("dimensions"), Spell(DimElems(v, keys[..i])), DimensionXml(k, JsonValueText(v.fields[k])));
      s := s + DimensionXml(k, JsonValueText(v.fields[k]));
    }
    assert keys[..|keys|] == keys;
  }

  /** dimensions_xml: an object's entries in key order; anything else, or {}, prints nothing. */
  method DimensionsXml(dims: Option<Json>) returns (s: string)
    ensures s == Spell(DimensionsElem(dims))
  {
    s := "";
    if dims.Some? && dims.value.Obj? && dims.value.fields != map[] {
      var v := dims.value;
      var keys := CollectSorted(v.fields.Keys);
      s := DimensionsLoop(v, keys);
      s := s + EndTag("dimensions");
      SpellBranch("dimensions", DimElems(v, keys));
    }
  }

  /** The `<item>` of one media rule. */
  method MediaItemXml(r: MediaRule) returns (s: string)
    ensures s == Spell([MediaRuleElem(r)])
  {
    hide DimensionsElem, SegmentsElem, Spell, JoinTo, StartTag, EndTag, XmlEscape, DecText, Flatten, TextElem;
    ghost var start, parts := StartTag("item"), MediaParts(r);
    s := StartTag("item");
    var t := TextXml("price", DecimalText(r.basePrice));
    s := s + t;
    JoinFirst(start, parts);
    t := TextXml("dimension_key", r.dimensionKey);
    s := s + t;
    JoinNext(start, parts, 1);
    t := DimensionsXml(r.dimensions);
    s := s + t;
    JoinNext(start, parts, 2);
    t := SegmentsToXml(r.segments);
    if t != "" {
      s := s + t;
    } else {
      assert s + t == s;
    }
    JoinNext(start, parts, 3);
    s := s + EndTag("item");
    SpellParts(parts);
    SpellBranch("item", Flatten(parts));
  }

  /** media_xml. */
  method MediaXml(tag: string, rules: Option<seq<MediaRule>>) returns (s: string)
    ensures s == Spell(MediaElem(tag, rules))
  {
    s := "";
    if rules.Some? && rules.value != [] {
      var list := rules.value;
      s := StartTag(tag);
      for i := 0 to |list|
        invariant s == StartTag(tag) + Spell(Map(list[..i], MediaRuleElem))
      {
        hide StartTag, Spell, Map, MediaRuleElem;
        var t := MediaItemXml(list[i]);
        SpellMapNext(list, MediaRuleElem, i);
        ConcatAssoc(StartTag(tag), Spell(Map(list[..i], MediaRuleElem)), t);
        s := s + t;
      }
      assert list[..|list|] == list;
      s := s + EndTag(tag);
      SpellBranch(tag, Map(list, MediaRuleElem));
    }
  }

  function ColPart(item: Item, col: nat): seq<Elem>
    requires col < 4
  {
    ColElem(COL_TAGS[col], ColPrice(item, col), UnitSegments(item, COL_UNITS[col]))
  }

  lemma ColParts(item: Item, col: nat)
    requires col < 4
    ensures ItemParts(item)[3 + col] == ColPart(item, col)
  {
  }

  /** The `<price>` of one item: three texts, four token columns, two media nodes. */
  method ItemXml(item: Item) returns (s: string)
    ensures s == Spell([ItemElem(item)])
  {
    ghost var start, parts := StartTag("price"), ItemParts(item);
    s := StartTag("price");
    hide ColElem, MediaElem, UnitSegments, LeafXml, Spell, JoinTo, StartTag, EndTag, Flatten;
    SpellLeaf("model_id", item.model);
    s := s + LeafXml("model_id", item.model);
    JoinFirst(start, parts);
    SpellLeaf("upstream", item.upstream);
    s := s + LeafXml("upstream", item.upstream);
    JoinNext(start, parts, 1);
    SpellLeaf("currency", item.currency);
    s := s + LeafXml("currency", item.currency);
    JoinNext(start, parts, 2);
    for col := 0 to 4
      invariant s == start + JoinTo(parts, 3 + col)
    {
      hide ItemParts;
      ColParts(item, col);
      var t := TokenColXml(COL_TAGS[col], ColPrice(item, col), UnitSegments(item, COL_UNITS[col]));
      s := s + t;
      JoinNext(start, parts, 3 + col);
    }
    var t := MediaXml("image", item.image);
    s := s + t;
    JoinNext(start, parts, 7);
    t := MediaXml("video", item.video);
    s := s + t;
    JoinNext(start, parts, 8);
    s := s + EndTag("price");
    SpellParts(parts);
    SpellBranch("price", Flatten(parts));
  }

  /** `<prices schema="..">`. */
  function RootTag(): string {
    "<prices schema=\"" + SCHEMA + "\">"
  }

  /** export_xml_compact. */
  method ExportXmlCompact(items: seq<Item>) returns (s: string)
    ensures s == CompactText(items) == FileText(items)
  {
    s := DECL + "\n";
    s := s + RootTag();
    for i := 0 to |items|
      invariant s == DECL + "\n" + RootTag() + Spell(Map(items[..i], ItemElem))
    {
      hide Spell, Map, ItemElem;
      var t := ItemXml(items[i]);
      SpellMapNext(items, ItemElem, i);
      ConcatAssoc(DECL + "\n" + RootTag(), Spell(Map(items[..i], ItemElem)), t);
      s := s + t;
    }
    assert items[..|items|] == items;
    s := s + EndTag("prices");
    RootSpells(items);
    CompactIsFile(items);
  }

  lemma RootSpells(items: seq<Item>)
    ensures CompactText(items) == DECL + "\n" + RootTag() + Spell(Map(items, ItemElem)) + EndTag("prices")
  {
    hide Spell, Map, ItemElem, RootTag, EndTag, Document;
    var kids := Map(items, ItemElem);
    RootTagSpells();
    Tags("prices");
    DocumentSpells(DECL, RootTag(), "prices", [("schema", SCHEMA)], kids);
  }

  lemma DocumentSpells(decl: string, tag: string, name: string, attrs: Attrs, kids: seq<Elem>)
    requires OpenRaw(name, attrs) == tag && CloseRaw(name) == EndTag(name)
    ensures Document(decl, Branch(name, attrs, kids)) == decl + "\n" + tag + Spell(kids) + EndTag(name)
  {
    hide Spell, OpenRaw, CloseRaw, EndTag;
    assert CloseRaw(name) + "" == EndTag(name);
    SpellRest(kids, EndTag(name));
    var body := Spell(kids) + EndTag(name);
    assert ['\n'] == "\n";
    ConcatAssoc(decl, "\n", tag + body);
    ConcatAssoc(decl + "\n", tag, body);
    ConcatAssoc(decl + "\n" + tag, Spell(kids), EndTag(name));
  }

  lemma RootTagSpells()
    ensures OpenRaw("prices", [("schema", SCHEMA)]) == RootTag()
  {
    hide Escaped, AttrsText;
    SchemaIsPlain();
    EscapedPlain(SCHEMA);
    OneAttrTag("prices", "schema", SCHEMA);
  }

  lemma SchemaIsPlain()
    ensures forall c :: c in SCHEMA ==> !Markup(c) && c != '&'
  {
  }

  lemma OneAttr(k: string, v: string)
    ensures AttrsText([(k, v)]) == " " + k + "=\"" + Escaped(v) + "\""
  {
    hide Escaped;
    assert [(k, v)][1..] == [] && AttrsText([]) == "";
    var one := [' '] + k + ['=', '"'] + Escaped(v) + ['"'];
    assert one + "" == one;
  }

  lemma OneAttrTag(name: string, k: string, v: string)
    requires Escaped(v) == v
    ensures OpenRaw(name, [(k, v)]) == "<" + name + " " + k + "=\"" + v + "\">"
  {
    OneAttr(k, v);
  }

  /** export_xml: the compact text laid out. */
  method ExportXml(items: seq<Item>) returns (s: string)
    ensures s == ExportText(items) == Pretty(Lex(FileText(items)), 0)
  {
    var compact := ExportXmlCompact(items);
    s := PrettyXml(compact);
  }
}
