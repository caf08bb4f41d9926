/**
 Reading an exported price table back (src/billing/transfer.rs:212-354, 403-636): every list of items
 returns in normal form, so it returns unchanged exactly when it is in normal form.
 */
module RoundTrip {
  import opened Wrappers
  import opened Strings
  import opened Numerals
  import opened Pricing
  import opened XmlText
  import opened XmlTokens
  import opened XmlTree
  import opened Transfer
  import J = Json

  // ------------------------------------------- the importers read trimmed texts

  function SqueezeOpt(n: Option<Node>): Option<Node> {
    match n
    case Some(m) => Some(Squeeze(m))
    case None => None
  }

  lemma {:induction false} ChildSqueezed(ns: seq<Node>, name: string)
    ensures ChildIn(SqueezeAll(ns), name) == SqueezeOpt(ChildIn(ns, name))
  {
    if ns != [] {
      ChildSqueezed(ns[1..], name);
      assert SqueezeAll(ns)[1..] == SqueezeAll(ns[1..]);
    }
  }

  lemma {:induction false} NamedSqueezed(ns: seq<Node>, name: string)
    ensures NamedIn(SqueezeAll(ns), name) == SqueezeAll(NamedIn(ns, name))
  {
    if ns != [] {
      NamedSqueezed(ns[1..], name);
      assert SqueezeAll(ns)[1..] == SqueezeAll(ns[1..]);
      if ns[0].name == name {
        assert NamedIn(ns, name) == [ns[0]] + NamedIn(ns[1..], name);
      }
    }
  }

  lemma TextSqueezed(n: Node)
    ensures TrimmedText(Squeeze(n)) == TrimmedText(n)
  {
    TrimIsTrimmed(n.text);
    TrimIsTrimmed(Trim(n.text));
  }

  lemma TextOfSqueezed(n: Node, name: string)
    ensures TextOf(Squeeze(n), name) == TextOf(n, name)
  {
    ChildSqueezed(n.children, name);
    if Child(n, name).Some? {
      TextSqueezed(Child(n, name).value);
    }
  }

  lemma MapSqueezed<U>(ns: seq<Node>, f: Node -> U)
    requires forall n :: f(Squeeze(n)) == f(n)
    ensures Map(SqueezeAll(ns), f) == Map(ns, f)
  {
  }

  lemma WeekdaysSqueezed(n: Option<Node>)
    ensures ParseWeekdays(SqueezeOpt(n)) == ParseWeekdays(n)
  {
    if n.Some? {
      NamedSqueezed(n.value.children, "day");
      forall m ensures TrimmedText(Squeeze(m)) == TrimmedText(m) { TextSqueezed(m); }
      MapSqueezed(Named(n.value, "day"), TrimmedText);
    }
  }

  lemma WindowsSqueezed(n: Option<Node>)
    ensures ParseWindows(SqueezeOpt(n)) == ParseWindows(n)
  {
    if n.Some? {
      NamedSqueezed(n.value.children, "window");
      MapSqueezed(Named(n.value, "window"), ParseWindow);
    }
  }

  lemma SegmentSqueezed(n: Node)
    ensures ParseSegment(Squeeze(n)) == ParseSegment(n)
  {
    hide TextOf, ParseWeekdays, ParseWindows, ChildIn;
    TextOfSqueezed(n, "name");
    TextOfSqueezed(n, "price");
    TextOfSqueezed(n, "min_prompt_tokens");
    TextOfSqueezed(n, "max_prompt_tokens");
    ChildSqueezed(n.children, "weekdays");
    ChildSqueezed(n.children, "windows");
    WeekdaysSqueezed(Child(n, "weekdays"));
    WindowsSqueezed(Child(n, "windows"));
  }

  lemma SegmentsSqueezed(n: Option<Node>)
    ensures ParseSegments(SqueezeOpt(n)) == ParseSegments(n)
  {
    if n.Some? {
      NamedSqueezed(n.value.children, "segment");
      forall m ensures ParseSegment(Squeeze(m)) == ParseSegment(m) { SegmentSqueezed(m); }
      MapSqueezed(Named(n.value, "segment"), ParseSegment);
    }
  }

  lemma ColSqueezed(n: Option<Node>)
    ensures ParseColPrice(SqueezeOpt(n)) == ParseColPrice(n)
    ensures ParseColSegments(SqueezeOpt(n)) == ParseColSegments(n)
  {
    if n.Some? {
      TextOfSqueezed(n.value, "price");
      TextSqueezed(n.value);
      ChildSqueezed(n.value.children, "segments");
      SegmentsSqueezed(Child(n.value, "segments"));
    }
  }

  lemma {:induction false} DimsSqueezed(ns: seq<Node>, acc: map<string, Json>)
    ensures FoldDims(SqueezeAll(ns), acc) == FoldDims(ns, acc)
  {
    if ns != [] {
      TextSqueezed(ns[0]);
      assert SqueezeAll(ns)[1..] == SqueezeAll(ns[1..]);
      DimsSqueezed(ns[1..],
        if "name" in ns[0].attrs then acc[ns[0].attrs["name"] := J.Str(TrimmedText(ns[0]))] else acc);
    }
  }

  lemma MediaRuleSqueezed(n: Node)
    ensures ParseMediaRule(Squeeze(n)) == ParseMediaRule(n)
  {
    hide TextOf, ParseSegments, ChildIn, FoldDims;
    TextOfSqueezed(n, "price");
    TextOfSqueezed(n, "dimension_key");
    ChildSqueezed(n.children, "dimensions");
    ChildSqueezed(n.children, "segments");
    SegmentsSqueezed(Child(n, "segments"));
    var dims := Child(n, "dimensions");
    if dims.Some? {
      NamedSqueezed(dims.value.children, "dimension");
      DimsSqueezed(Named(dims.value, "dimension"), map[]);
    }
  }

  lemma MediaSqueezed(n: Option<Node>)
    ensures ParseMedia(SqueezeOpt(n)) == ParseMedia(n)
  {
    if n.Some? {
      NamedSqueezed(n.value.children, "item");
      forall m ensures ParseMediaRule(Squeeze(m)) == ParseMediaRule(m) { MediaRuleSqueezed(m); }
      MapSqueezed(Named(n.value, "item"), ParseMediaRule);
    }
  }

  /** The item read from a node does not depend on the white space around its texts. */
  lemma ItemSqueezed(n: Node)
    ensures ParseItem(Squeeze(n)) == ParseItem(n)
  {
    hide TextOf, ChildIn, ParseColPrice, ParseColSegments, ParseMedia, SegmentMap;
    TextOfSqueezed(n, "model_id");
    TextOfSqueezed(n, "upstream");
    TextOfSqueezed(n, "currency");
    forall i | 0 <= i < 4
      ensures ParseColPrice(Child(Squeeze(n), COL_TAGS[i])) == ParseColPrice(Child(n, COL_TAGS[i]))
      ensures ParseColSegments(Child(Squeeze(n), COL_TAGS[i])) == ParseColSegments(Child(n, COL_TAGS[i]))
    {
      ChildSqueezed(n.children, COL_TAGS[i]);
      ColSqueezed(Child(n, COL_TAGS[i]));
    }
    ChildSqueezed(n.children, "image");
    ChildSqueezed(n.children, "video");
    MediaSqueezed(Child(n, "image"));
    MediaSqueezed(Child(n, "video"));
  }

  function ItemsOf(root: Node): seq<Item> {
    Map(Named(root, "price"), ParseItem)
  }

  lemma ItemsSqueezed(a: Node, b: Node)
    requires Squeeze(a) == Squeeze(b)
    ensures a.name == b.name && ItemsOf(a) == ItemsOf(b)
  {
    hide ParseItem;
    NamedSqueezed(a.children, "price");
    NamedSqueezed(b.children, "price");
    forall m ensures ParseItem(Squeeze(m)) == ParseItem(m) { ItemSqueezed(m); }
    MapSqueezed(Named(a, "price"), ParseItem);
    MapSqueezed(Named(b, "price"), ParseItem);
  }

  // ------------------------------------------------------- finding tagged parts

  ghost predicate Tagged(parts: seq<seq<Elem>>, tags: seq<string>) {
    && |parts| == |tags|
    && (forall k :: 0 <= k < |parts| ==> |parts[k]| <= 1 && forall e :: e in parts[k] ==> e.name == tags[k])
  }

  ghost predicate Distinct(tags: seq<string>) {
    forall i, j :: 0 <= i < j < |tags| ==> tags[i] != tags[j]
  }

  function Found(part: seq<Elem>): Option<Node> {
    if part == [] then None else Some(NodeOf(part[0]))
  }

  lemma {:induction false} ChildOfAppend(a: seq<Elem>, b: seq<Elem>, name: string)
    requires |a| <= 1
    ensures ChildIn(NodesOf(a + b), name)
         == if a != [] && a[0].name == name then Some(NodeOf(a[0])) else ChildIn(NodesOf(b), name)
  {
    if a == [] {
      assert a + b == b;
    } else {
      assert (a + b)[1..] == b;
      assert NodesOf(a + b)[1..] == NodesOf(b);
    }
  }

  /** Looking a tag up among tagged parts finds that part. */
  lemma {:induction false} FindTagged(parts: seq<seq<Elem>>, tags: seq<string>, k: nat)
    requires Tagged(parts, tags) && Distinct(tags) && k < |tags|
    ensures ChildIn(NodesOf(Flatten(parts)), tags[k]) == Found(parts[k])
    decreases |parts|
  {
    hide NodeOf, NodesOf, ChildIn;
    ChildOfAppend(parts[0], Flatten(parts[1..]), tags[k]);
    if k == 0 {
      if parts[0] == [] {
        LacksFirst(parts[1..], tags[1..], tags[0]);
      }
    } else {
      FindTagged(parts[1..], tags[1..], k - 1);
    }
  }

  lemma {:induction false} LacksFirst(parts: seq<seq<Elem>>, tags: seq<string>, tag: string)
    requires Tagged(parts, tags) && tag !in tags
    ensures ChildIn(NodesOf(Flatten(parts)), tag).None?
  {
    if parts != [] {
      ChildOfAppend(parts[0], Flatten(parts[1..]), tag);
      assert tags[0] in tags;
      assert forall e :: e in parts[0] ==> e.name == tags[0];
      assert parts[0] != [] ==> parts[0][0] in parts[0];
      LacksFirst(parts[1..], tags[1..], tag);
    }
  }

  lemma {:induction false} AllNamed(ns: seq<Node>, name: string)
    requires forall i :: 0 <= i < |ns| ==> ns[i].name == name
    ensures NamedIn(ns, name) == ns
  {
    if ns != [] {
      AllNamed(ns[1..], name);
      assert ns == [ns[0]] + ns[1..];
    }
  }

  // --------------------------------------------------------------- normal forms

  /** Text content after a round trip: line ends normalized, then trimmed. */
  function NormText(s: string): string {
    Trim(NormalizeEol(s))
  }

  function NormTextOpt(s: Option<string>): Option<string> {
    if s.Some? then Some(NormText(s.value)) else None
  }

  function NormWindow(w: (string, string)): (string, string) {
    (NormalizeAttr(w.0), NormalizeAttr(w.1))
  }

  function NormSegment(seg: Segment): Segment {
    Segment(
      NotEmpty(NormTextOpt(seg.name)),
      seg.price,
      if seg.weekdays.Some? then Some(Map(seg.weekdays.value, NormText)) else None,
      if seg.windows.Some? then Some(Map(seg.windows.value, NormWindow)) else None,
      seg.minPrompt,
      seg.maxPrompt)
  }

  /** Segments that do not read, or none, are gone. */
  function NormSegs(segs: Option<Segs>): Option<Segs> {
    match segs
    case Some(Readable(list)) => if list == [] then None else Some(Readable(Map(list, NormSegment)))
    case _ => None
  }

  function NormDims(v: Json, keys: seq<string>, acc: map<string, Json>): map<string, Json>
    requires v.Obj? && forall k :: k in keys ==> k in v.fields
  {
    if keys == [] then acc
    else NormDims(v, keys[1..], acc[NormalizeAttr(keys[0]) := J.Str(NormText(JsonValueText(v.fields[keys[0]])))])
  }

  /** Values become strings; an empty object, or none, is gone. */
  function NormDimensions(dims: Option<Json>): Option<Json> {
    if dims.None? || !dims.value.Obj? || dims.value.fields == map[] then None
    else Some(J.Obj(NormDims(dims.value, SortedKeys(dims.value.fields.Keys), map[])))
  }

  function NormMediaRule(r: MediaRule): MediaRule {
    MediaRule(r.basePrice, NormTextOpt(r.dimensionKey), NormDimensions(r.dimensions), NormSegs(r.segments))
  }

  function NormMedia(rules: Option<seq<MediaRule>>): Option<seq<MediaRule>> {
    if rules.None? || rules.value == [] then None else Some(Map(rules.value, NormMediaRule))
  }

  /** A column without a price loses its segments. */
  function NormCol(item: Item, col: nat): Option<Segs>
    requires col < 4
  {
    if ColPrice(item, col).Some? then NormSegs(UnitSegments(item, COL_UNITS[col])) else None
  }

  function NormItem(item: Item): Item {
    Item(
      NormText(item.model), NormText(item.upstream), NormText(item.currency),
      item.inputPerM, item.outputPerM, item.cacheReadPerM, item.cacheWritePerM,
      SegmentMap([NormCol(item, 0), NormCol(item, 1), NormCol(item, 2), NormCol(item, 3)]),
      NormMedia(item.image), NormMedia(item.video))
  }

  // ----------------------------------------------------- reading one item back

  lemma PlainNumberTrims(s: string)
    requires PlainNumber(s)
    ensures NormText(s) == s
  {
    assert '\r' !in s;
    EolWithoutCr(s);
    assert NumberChar(s[0]) && NumberChar(s[|s| - 1]);
    TrimIsTrimmed(s);
  }

  lemma FoundText(parts: seq<seq<Elem>>, tags: seq<string>, k: nat, e: Elem, text: Option<string>)
    requires Tagged(parts, tags) && Distinct(tags) && k < |tags|
    requires e.Branch? && e.kids == Flatten(parts) && parts[k] == TextElem(tags[k], text)
    ensures TextOf(NodeOf(e), tags[k]) == NormTextOpt(text)
  {
    FindTagged(parts, tags, k);
  }

  lemma DecimalReadsBack(d: Option<Decimal>)
    ensures TextDecimal(NormTextOpt(DecimalText(d))) == d
  {
    if d.Some? {
      DecTextIsPlain(d.value);
      PlainNumberTrims(DecText(d.value));
      DecReadsBack(d.value);
    }
  }

  lemma IntegerReadsBack(n: Option<I64>)
    ensures TextInteger(NormTextOpt(IntegerText(n))) == n
  {
    if n.Some? {
      IntTextIsPlain(n.value);
      PlainNumberTrims(IntText(n.value));
      IntReadsBack(n.value);
    }
  }

  lemma SegmentTagsDistinct()
    ensures Distinct(SEGMENT_TAGS)
  {
  }

  lemma SegmentPartsTagged(seg: Segment)
    ensures Tagged(SegmentParts(seg), SEGMENT_TAGS)
  {
  }

  lemma DaysReadBack(days: Option<seq<string>>)
    ensures ParseWeekdays(Found(WeekdaysElem(days))) == if days.Some? then Some(Map(days.value, NormText)) else None
  {
    if days.Some? {
      var ns := NodesOf(Map(days.value, DayElem));
      AllNamed(ns, "day");
      assert forall i :: 0 <= i < |ns| ==> TrimmedText(ns[i]) == NormText(days.value[i]);
      assert Map(ns, TrimmedText) == Map(days.value, NormText);
    }
  }

  lemma WindowReadsBack(w: (string, string))
    ensures ParseWindow(NodeOf(WindowElem(w))) == NormWindow(w)
  {
    var attrs := WindowElem(w).attrs;
    assert attrs[1..] == [("end", w.1)] && attrs[1..][1..] == [];
    assert AttrMap([]) == map[];
    assert AttrMap(attrs[1..]) == map["end" := NormalizeAttr(w.1)];
  }

  lemma WindowsReadBack(windows: Option<seq<(string, string)>>)
    ensures ParseWindows(Found(WindowsElem(windows)))
         == if windows.Some? then Some(Map(windows.value, NormWindow)) else None
  {
    if windows.Some? {
      var ns := NodesOf(Map(windows.value, WindowElem));
      AllNamed(ns, "window");
      forall i | 0 <= i < |ns| ensures ParseWindow(ns[i]) == NormWindow(windows.value[i]) {
        WindowReadsBack(windows.value[i]);
      }
      assert Map(ns, ParseWindow) == Map(windows.value, NormWindow);
    }
  }

  /** A printed segment reads back in normal form. */
  lemma SegmentReadsBack(seg: Segment)
    ensures ParseSegment(NodeOf(SegmentElem(seg))) == NormSegment(seg)
  {
    hide TextOf, ParseWeekdays, ParseWindows, Tagged, Distinct, Flatten, WeekdaysElem, WindowsElem, TextDecimal, TextInteger,
      NormTextOpt, Found;
    var e, parts := SegmentElem(seg), SegmentParts(seg);
    SegmentTagsDistinct();
    SegmentPartsTagged(seg);
    FoundText(parts, SEGMENT_TAGS, 0, e, seg.name);
    FoundText(parts, SEGMENT_TAGS, 1, e, DecimalText(Some(seg.price)));
    FindTagged(parts, SEGMENT_TAGS, 2);
    FindTagged(parts, SEGMENT_TAGS, 3);
    FoundText(parts, SEGMENT_TAGS, 4, e, IntegerText(seg.minPrompt));
    FoundText(parts, SEGMENT_TAGS, 5, e, IntegerText(seg.maxPrompt));
    DecimalReadsBack(Some(seg.price));
    IntegerReadsBack(seg.minPrompt);
    IntegerReadsBack(seg.maxPrompt);
    DaysReadBack(seg.weekdays);
    WindowsReadBack(seg.windows);
  }

  lemma SegmentsReadBack(segs: Option<Segs>)
    ensures ParseSegments(Found(SegmentsElem(segs))) == NormSegs(segs)
  {
    if SegmentsElem(segs) != [] {
      var list := segs.value.list;
      var ns := NodesOf(Map(list, SegmentElem));
      AllNamed(ns, "segment");
      forall i | 0 <= i < |ns| ensures ParseSegment(ns[i]) == NormSegment(list[i]) {
        SegmentReadsBack(list[i]);
      }
      assert Map(ns, ParseSegment) == Map(list, NormSegment);
    }
  }

  const COL_INNER_TAGS: seq<string> := ["price", "segments"]

  lemma ColPartsTagged(price: Option<Decimal>, segs: Option<Segs>)
    ensures Tagged([TextElem("price", DecimalText(price)), SegmentsElem(segs)], COL_INNER_TAGS) && Distinct(COL_INNER_TAGS)
  {
  }

  /** A printed column reads back: its price exactly, its segments in normal form. */
  lemma ColReadsBack(tag: string, price: Option<Decimal>, segs: Option<Segs>)
    ensures ParseColPrice(Found(ColElem(tag, price, segs))) == price
    ensures ParseColSegments(Found(ColElem(tag, price, segs))) == if price.Some? then NormSegs(segs) else None
  {
    if price.Some? {
      DecimalReadsBack(price);
      if SegmentsElem(segs) != [] {
        ColWithSegments(tag, price, segs);
      } else {
        ColPlain(tag, price.value);
      }
    }
  }

  lemma ColPlain(tag: string, p: Decimal)
    ensures var n := NodeOf(Leaf(tag, [], DecText(p)));
      ParseColPrice(Some(n)) == Some(p) && ParseColSegments(Some(n)) == None
  {
    DecimalReadsBack(Some(p));
  }

  lemma ColWithSegments(tag: string, price: Option<Decimal>, segs: Option<Segs>)
    requires price.Some? && SegmentsElem(segs) != []
    ensures var n := Found(ColElem(tag, price, segs));
      ParseColPrice(n) == price && ParseColSegments(n) == NormSegs(segs)
  {
    hide TextOf, Tagged, Distinct, Flatten, SegmentsElem, TextDecimal, NormTextOpt, NormSegs, ParseSegments, TextElem;
    var parts := [TextElem("price", DecimalText(price)), SegmentsElem(segs)];
    var e := Branch(tag, [], Flatten(parts));
    ColPartsTagged(price, segs);
    FoundText(parts, COL_INNER_TAGS, 0, e, DecimalText(price));
    FindTagged(parts, COL_INNER_TAGS, 1);
    DecimalReadsBack(price);
    SegmentsReadBack(segs);
  }

  lemma {:induction false} DimElemsNamed(v: Json, keys: seq<string>)
    requires v.Obj? && forall k :: k in keys ==> k in v.fields
    ensures NamedIn(NodesOf(DimElems(v, keys)), "dimension") == NodesOf(DimElems(v, keys))
  {
    if keys != [] {
      DimElemsNamed(v, keys[1..]);
      var es := DimElems(v, keys);
      assert es[1..] == DimElems(v, keys[1..]);
      assert NodesOf(es)[1..] == NodesOf(es[1..]);
    }
  }

  lemma DimReadsBack(k: string, v: Json)
    ensures var n := NodeOf(DimElem(k, v));
      "name" in n.attrs && n.attrs["name"] == NormalizeAttr(k) && TrimmedText(n) == NormText(JsonValueText(v))
  {
    assert DimElem(k, v).attrs[1..] == [];
  }

  lemma {:induction false} DimsFold(v: Json, keys: seq<string>, acc: map<string, Json>)
    requires v.Obj? && forall k :: k in keys ==> k in v.fields
    ensures FoldDims(NodesOf(DimElems(v, keys)), acc) == NormDims(v, keys, acc)
    decreases |keys|
  {
    if keys != [] {
      hide JsonValueText, NormText, DimElem, NodeOf;
      var es := DimElems(v, keys);
      assert es[1..] == DimElems(v, keys[1..]);
      assert NodesOf(es)[1..] == NodesOf(es[1..]);
      DimReadsBack(keys[0], v.fields[keys[0]]);
      DimsFold(v, keys[1..], acc[NormalizeAttr(keys[0]) := J.Str(NormText(JsonValueText(v.fields[keys[0]])))]);
    }
  }

  lemma DimensionsReadBack(dims: Option<Json>)
    ensures ParseDimensions(Found(DimensionsElem(dims))) == NormDimensions(dims)
  {
    if DimensionsElem(dims) != [] {
      var keys := SortedKeys(dims.value.fields.Keys);
      DimElemsNamed(dims.value, keys);
      DimsFold(dims.value, keys, map[]);
    }
  }

  lemma MediaPartsTagged(r: MediaRule)
    ensures Tagged(MediaParts(r), MEDIA_TAGS) && Distinct(MEDIA_TAGS)
  {
  }

  lemma MediaRuleReadsBack(r: MediaRule)
    ensures ParseMediaRule(NodeOf(MediaRuleElem(r))) == NormMediaRule(r)
  {
    hide TextOf, Tagged, Distinct, Flatten, SegmentsElem, DimensionsElem, TextDecimal, NormTextOpt, Found,
      ParseDimensions, ParseSegments, NormDimensions, NormSegs;
    var e, parts := MediaRuleElem(r), MediaParts(r);
    MediaPartsTagged(r);
    FoundText(parts, MEDIA_TAGS, 0, e, DecimalText(r.basePrice));
    FoundText(parts, MEDIA_TAGS, 1, e, r.dimensionKey);
    FindTagged(parts, MEDIA_TAGS, 2);
    FindTagged(parts, MEDIA_TAGS, 3);
    DecimalReadsBack(r.basePrice);
    DimensionsReadBack(r.dimensions);
    SegmentsReadBack(r.segments);
  }

  lemma MediaReadsBack(tag: string, rules: Option<seq<MediaRule>>)
    ensures ParseMedia(Found(MediaElem(tag, rules))) == NormMedia(rules)
  {
    if MediaElem(tag, rules) != [] {
      var ns := NodesOf(Map(rules.value, MediaRuleElem));
      AllNamed(ns, "item");
      forall i | 0 <= i < |ns| ensures ParseMediaRule(ns[i]) == NormMediaRule(rules.value[i]) {
        MediaRuleReadsBack(rules.value[i]);
      }
      assert Map(ns, ParseMediaRule) == Map(rules.value, NormMediaRule);
    }
  }

  lemma ItemTagsDistinct()
    ensures Distinct(ITEM_TAGS)
  {
  }

  lemma PartTagged(part: seq<Elem>, tag: string)
    requires part == [] || (|part| == 1 && part[0].name == tag)
    ensures |part| <= 1 && forall e :: e in part ==> e.name == tag
  {
  }

  lemma ItemPartsTagged(item: Item)
    ensures Tagged(ItemParts(item), ITEM_TAGS)
  {
    hide SegmentsElem, Flatten, UnitSegments, DecText;
    var parts := ItemParts(item);
    assert |parts| == |ITEM_TAGS| == 9;
    forall k | 0 <= k < 9 ensures |parts[k]| <= 1 && forall e: Elem :: e in parts[k] ==> e.name == ITEM_TAGS[k] {
      PartTagged(parts[k], ITEM_TAGS[k]);
    }
  }

  lemma ItemColumn(item: Item, col: nat)
    requires col < 4
    ensures ParseColPrice(Child(NodeOf(ItemElem(item)), COL_TAGS[col])) == ColPrice(item, col)
    ensures ParseColSegments(Child(NodeOf(ItemElem(item)), COL_TAGS[col])) == NormCol(item, col)
  {
    hide Tagged, Distinct, Flatten, ColElem, MediaElem, UnitSegments, Found, ParseColPrice, ParseColSegments, NormSegs, ChildIn;
    ItemTagsDistinct();
    ItemPartsTagged(item);
    assert ITEM_TAGS[3 + col] == COL_TAGS[col];
    FindTagged(ItemParts(item), ITEM_TAGS, 3 + col);
    ColReadsBack(COL_TAGS[col], ColPrice(item, col), UnitSegments(item, COL_UNITS[col]));
  }

  /** A printed item reads back in normal form. */
  lemma ItemReadsBack(item: Item)
    ensures ParseItem(NodeOf(ItemElem(item))) == NormItem(item)
  {
    hide Tagged, Distinct, Flatten, ColElem, MediaElem, UnitSegments, Found, ParseColPrice, ParseColSegments, ParseMedia,
      NormCol, NormMedia, SegmentMap, TextOf, ChildIn, NormText;
    var e, parts := ItemElem(item), ItemParts(item);
    ItemTagsDistinct();
    ItemPartsTagged(item);
    FoundText(parts, ITEM_TAGS, 0, e, Some(item.model));
    FoundText(parts, ITEM_TAGS, 1, e, Some(item.upstream));
    FoundText(parts, ITEM_TAGS, 2, e, Some(item.currency));
    ItemColumn(item, 0);
    ItemColumn(item, 1);
    ItemColumn(item, 2);
    ItemColumn(item, 3);
    FindTagged(parts, ITEM_TAGS, 7);
    FindTagged(parts, ITEM_TAGS, 8);
    MediaReadsBack("image", item.image);
    MediaReadsBack("video", item.video);
  }

  lemma RootReadsBack(items: seq<Item>)
    ensures ItemsOf(NodeOf(RootElem(items))) == Map(items, NormItem)
    ensures NodeOf(RootElem(items)).name == "prices"
  {
    hide ParseItem, NormItem, ItemElem;
    var ns := NodesOf(Map(items, ItemElem));
    forall i | 0 <= i < |ns| ensures ns[i].name == "price" && ParseItem(ns[i]) == NormItem(items[i]) {
      ItemName(items[i]);
      ItemReadsBack(items[i]);
    }
    AllNamed(ns, "price");
    assert Map(ns, ParseItem) == Map(items, NormItem);
  }

  lemma ItemName(item: Item)
    ensures NodeOf(ItemElem(item)).name == "price"
  {
  }

  // ------------------------------------------------- the document is well formed

  ghost predicate AllOk(es: seq<Elem>) {
    forall e :: e in es ==> ElemOk(e)
  }

  ghost predicate PartsOk(parts: seq<seq<Elem>>) {
    forall p :: p in parts ==> AllOk(p)
  }

  lemma {:induction false} FlattenOk(parts: seq<seq<Elem>>)
    requires PartsOk(parts)
    ensures AllOk(Flatten(parts))
  {
    if parts != [] {
      assert parts[0] in parts;
      FlattenOk(parts[1..]);
    }
  }

  lemma BranchOk(tag: string, kids: seq<Elem>)
    requires PlainName(tag) && AllOk(kids)
    ensures ElemOk(Branch(tag, [], kids)) && AllOk([Branch(tag, [], kids)])
  {
  }

  lemma TextElemOk(tag: string, text: Option<string>)
    requires PlainName(tag)
    ensures AllOk(TextElem(tag, text))
  {
  }

  lemma SegmentNames()
    ensures PlainName("name") && PlainName("price") && PlainName("weekdays") && PlainName("windows") && PlainName("day")
    ensures PlainName("window") && PlainName("start") && PlainName("end") && PlainName("segment") && PlainName("segments")
    ensures PlainName("min_prompt_tokens") && PlainName("max_prompt_tokens")
  {
    hide PlainName;
    SegmentFieldNames();
    SegmentFrameNames();
    SegmentBoundNames();
  }

  lemma SegmentFieldNames()
    ensures PlainName("name") && PlainName("price") && PlainName("weekdays") && PlainName("windows") && PlainName("day")
  {
  }

  lemma SegmentFrameNames()
    ensures PlainName("window") && PlainName("start") && PlainName("end") && PlainName("segment") && PlainName("segments")
  {
  }

  lemma SegmentBoundNames()
    ensures PlainName("min_prompt_tokens") && PlainName("max_prompt_tokens")
  {
  }

  lemma ItemNames()
    ensures PlainName("model_id") && PlainName("upstream") && PlainName("currency") && PlainName("image") && PlainName("video")
    ensures PlainName("item") && PlainName("dimension") && PlainName("dimensions") && PlainName("dimension_key")
    ensures PlainName("prices") && PlainName("schema")
  {
    hide PlainName;
    ItemFieldNames();
    MediaNames();
    RootNames();
  }

  lemma ItemFieldNames()
    ensures PlainName("model_id") && PlainName("upstream") && PlainName("currency") && PlainName("image") && PlainName("video")
  {
  }

  lemma MediaNames()
    ensures PlainName("item") && PlainName("dimension") && PlainName("dimensions")
  {
  }

  lemma RootNames()
    ensures PlainName("dimension_key") && PlainName("prices") && PlainName("schema")
  {
  }

  lemma ColNames()
    ensures PlainName("input_per_m") && PlainName("output_per_m") && PlainName("cache_read_per_m") && PlainName("cache_write_per_m")
  {
  }

  lemma WindowOk(w: (string, string))
    requires PlainName("window") && PlainName("start") && PlainName("end")
    ensures ElemOk(WindowElem(w))
  {
    hide PlainName;
    var attrs := WindowElem(w).attrs;
    assert attrs[1..] == [("end", w.1)] && attrs[1..][1..] == [];
    assert AttrMap([]) == map[] && AttrsOk([]);
    assert "end" !in AttrMap(attrs[1..][1..]) && AttrsOk(attrs[1..]);
    assert AttrMap(attrs[1..]) == map["end" := NormalizeAttr(w.1)];
    assert "start" != "end";
    assert AttrsOk(attrs);
  }

  lemma SegmentOk(seg: Segment)
    ensures ElemOk(SegmentElem(seg))
  {
    SegmentNames();
    hide PlainName, ElemOk, Flatten, SegmentElem;
    var parts := SegmentParts(seg);
    TextElemOk("name", seg.name);
    TextElemOk("price", Some(DecText(seg.price)));
    TextElemOk("min_prompt_tokens", IntegerText(seg.minPrompt));
    TextElemOk("max_prompt_tokens", IntegerText(seg.maxPrompt));
    WeekdaysOk(seg.weekdays);
    WindowsOk(seg.windows);
    FlattenOk(parts);
    BranchOk("segment", Flatten(parts));
    SegmentIsBranch(seg);
  }

  lemma SegmentIsBranch(seg: Segment)
    ensures SegmentElem(seg) == Branch("segment", [], Flatten(SegmentParts(seg)))
  {
  }

  lemma WeekdaysOk(days: Option<seq<string>>)
    requires PlainName("weekdays") && PlainName("day")
    ensures AllOk(WeekdaysElem(days))
  {
    if days.Some? {
      BranchOk("weekdays", Map(days.value, DayElem));
    }
  }

  lemma WindowsOk(windows: Option<seq<(string, string)>>)
    requires PlainName("windows") && PlainName("window") && PlainName("start") && PlainName("end")
    ensures AllOk(WindowsElem(windows))
  {
    hide PlainName, ElemOk;
    if windows.Some? {
      forall w ensures ElemOk(WindowElem(w)) { WindowOk(w); }
      BranchOk("windows", Map(windows.value, WindowElem));
    }
  }

  lemma SegmentsOk(segs: Option<Segs>)
    ensures AllOk(SegmentsElem(segs))
  {
    SegmentNames();
    hide PlainName, ElemOk, SegmentElem;
    if SegmentsElem(segs) != [] {
      forall seg ensures ElemOk(SegmentElem(seg)) { SegmentOk(seg); }
      BranchOk("segments", Map(segs.value.list, SegmentElem));
    }
  }

  lemma ColOk(tag: string, price: Option<Decimal>, segs: Option<Segs>)
    requires PlainName(tag)
    ensures AllOk(ColElem(tag, price, segs))
  {
    SegmentNames();
    hide PlainName, Flatten, SegmentsElem, TextElem;
    if price.Some? {
      SegmentsOk(segs);
      TextElemOk("price", DecimalText(price));
      var parts := [TextElem("price", DecimalText(price)), SegmentsElem(segs)];
      FlattenOk(parts);
      BranchOk(tag, Flatten(parts));
    }
  }

  lemma {:induction false} DimElemsOk(v: Json, keys: seq<string>)
    requires v.Obj? && (forall k :: k in keys ==> k in v.fields) && PlainName("dimension") && PlainName("name")
    ensures AllOk(DimElems(v, keys))
  {
    hide PlainName;
    if keys != [] {
      DimElemsOk(v, keys[1..]);
      var e := DimElem(keys[0], v.fields[keys[0]]);
      assert e.attrs[1..] == [] && AttrMap([]) == map[] && AttrsOk([]);
      assert ElemOk(e);
    }
  }

  lemma DimensionsOk(dims: Option<Json>)
    requires PlainName("dimension") && PlainName("dimensions") && PlainName("name")
    ensures AllOk(DimensionsElem(dims))
  {
    hide PlainName, ElemOk;
    if DimensionsElem(dims) != [] {
      DimElemsOk(dims.value, SortedKeys(dims.value.fields.Keys));
      BranchOk("dimensions", DimElems(dims.value, SortedKeys(dims.value.fields.Keys)));
    }
  }

  lemma MediaRuleOk(r: MediaRule)
    ensures ElemOk(MediaRuleElem(r))
  {
    SegmentNames();
    ItemNames();
    hide PlainName, ElemOk, Flatten, TextElem, DimensionsElem, SegmentsElem, MediaRuleElem;
    var parts := MediaParts(r);
    TextElemOk("price", DecimalText(r.basePrice));
    TextElemOk("dimension_key", r.dimensionKey);
    DimensionsOk(r.dimensions);
    SegmentsOk(r.segments);
    FlattenOk(parts);
    BranchOk("item", Flatten(parts));
    MediaRuleIsBranch(r);
  }

  lemma MediaRuleIsBranch(r: MediaRule)
    ensures MediaRuleElem(r) == Branch("item", [], Flatten(MediaParts(r)))
  {
  }

  lemma MediaOk(tag: string, rules: Option<seq<MediaRule>>)
    requires PlainName(tag)
    ensures AllOk(MediaElem(tag, rules))
  {
    hide PlainName, ElemOk, MediaRuleElem;
    if MediaElem(tag, rules) != [] {
      forall r ensures ElemOk(MediaRuleElem(r)) { MediaRuleOk(r); }
      BranchOk(tag, Map(rules.value, MediaRuleElem));
    }
  }

  lemma ItemOk(item: Item)
    ensures ElemOk(ItemElem(item))
  {
    SegmentNames();
    ItemNames();
    ColNames();
    hide PlainName, ElemOk, Flatten, TextElem, ColElem, MediaElem, UnitSegments, ItemElem;
    var parts := ItemParts(item);
    TextElemOk("model_id", Some(item.model));
    TextElemOk("upstream", Some(item.upstream));
    TextElemOk("currency", Some(item.currency));
    ColOk(COL_TAGS[0], item.inputPerM, UnitSegments(item, COL_UNITS[0]));
    ColOk(COL_TAGS[1], item.outputPerM, UnitSegments(item, COL_UNITS[1]));
    ColOk(COL_TAGS[2], item.cacheReadPerM, UnitSegments(item, COL_UNITS[2]));
    ColOk(COL_TAGS[3], item.cacheWritePerM, UnitSegments(item, COL_UNITS[3]));
    MediaOk("image", item.image);
    MediaOk("video", item.video);
    FlattenOk(parts);
    BranchOk("price", Flatten(parts));
    ItemIsBranch(item);
  }

  lemma ItemIsBranch(item: Item)
    ensures ItemElem(item) == Branch("price", [], Flatten(ItemParts(item)))
  {
  }

  lemma RootOk(items: seq<Item>)
    ensures ElemOk(RootElem(items))
  {
    ItemNames();
    hide PlainName, ItemElem;
    forall item ensures ElemOk(ItemElem(item)) { ItemOk(item); }
    var attrs := RootElem(items).attrs;
    assert attrs[1..] == [] && AttrMap([]) == map[] && AttrsOk([]);
  }

  lemma DeclIsOk()
    ensures TokOk(Decl(DECL))
  {
  }

  // --------------------------------------------------------------- the theorem

  /** Every exported table imports, and as the normal form of what was exported, printed compactly or
      laid out. */
  lemma ExportImports(items: seq<Item>)
    ensures ParseXml(ExportText(items)) == Ok(Map(items, NormItem))
    ensures ParseXml(CompactText(items)) == Ok(Map(items, NormItem))
  {
    hide RootElem, TokOk, ElemOk, NodeOf, Squeeze, Pretty, Lex, Document, NormItem, ItemsOf, ParseItem;
    DeclIsOk();
    RootOk(items);
    DocumentReadsBack(DECL, RootElem(items));
    RootReadsBack(items);
    ParsedItems(ExportText(items));
    ParsedItems(CompactText(items));
    var root := NodeOf(RootElem(items));
    ItemsSqueezed(Tree(ExportText(items)).value, root);
  }

  lemma ParsedItems(xml: string)
    ensures Tree(xml).Ok? && Tree(xml).value.name == "prices" ==> ParseXml(xml) == Ok(ItemsOf(Tree(xml).value))
  {
  }

  /** The table comes back unchanged exactly when every item is its own normal form. */
  lemma RoundTripIsExact(items: seq<Item>)
    ensures ParseXml(ExportText(items)) == Ok(items) <==> forall i :: 0 <= i < |items| ==> NormItem(items[i]) == items[i]
  {
    hide NormItem, ParseXml, ExportText;
    ExportImports(items);
    if Map(items, NormItem) == items {
      assert forall i :: 0 <= i < |items| ==> Map(items, NormItem)[i] == items[i];
    }
    if forall i :: 0 <= i < |items| ==> NormItem(items[i]) == items[i] {
      assert Map(items, NormItem) == items;
    }
  }
}
