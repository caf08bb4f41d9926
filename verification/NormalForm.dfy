/**
 Which items survive an XML round trip unchanged, in terms a caller can check, and the import loop that
 reads them (src/billing/transfer.rs:581-636).
 */
module NormalForm {
  import opened Wrappers
  import opened Strings
  import opened Numerals
  import opened Pricing
  import opened XmlText
  import opened XmlTokens
  import opened XmlTree
  import opened Transfer
  import opened RoundTrip
  import J = Json

  /** Trimmed, and without carriage returns. */
  predicate CleanText(s: string) {
    Trimmed(s) && '\r' !in s
  }

  /** No tab, line feed or carriage return. */
  predicate CleanAttr(s: string) {
    '\t' !in s && '\n' !in s && '\r' !in s
  }

  predicate NormalSegment(seg: Segment) {
    && (seg.name.Some? ==> seg.name.value != "" && CleanText(seg.name.value))
    && (seg.weekdays.Some? ==> forall d :: d in seg.weekdays.value ==> CleanText(d))
    && (seg.windows.Some? ==> forall w :: w in seg.windows.value ==> CleanAttr(w.0) && CleanAttr(w.1))
  }

  predicate NormalSegs(segs: Option<Segs>) {
    segs.Some? ==>
      segs.value.Readable? && segs.value.list != [] && forall s :: s in segs.value.list ==> NormalSegment(s)
  }

  predicate NormalDimensions(dims: Option<Json>) {
    dims.Some? ==>
      dims.value.Obj? && dims.value.fields != map[] && CleanFields(dims.value.fields)
  }

  predicate CleanFields(fields: map<string, Json>) {
    forall k :: k in fields ==> CleanAttr(k) && fields[k].Str? && CleanText(fields[k].s)
  }

  predicate NormalMediaRule(r: MediaRule) {
    (r.dimensionKey.Some? ==> CleanText(r.dimensionKey.value)) && NormalDimensions(r.dimensions) && NormalSegs(r.segments)
  }

  predicate NormalMedia(rules: Option<seq<MediaRule>>) {
    rules.Some? ==> rules.value != [] && forall r :: r in rules.value ==> NormalMediaRule(r)
  }

  /** Segments only on priced columns. */
  predicate NormalColumns(item: Item) {
    item.segments.Some? ==>
      && item.segments.value != map[]
      && forall u :: u in item.segments.value ==>
           NormalSegs(Some(item.segments.value[u])) &&
           exists col :: 0 <= col < 4 && COL_UNITS[col] == u && ColPrice(item, col).Some?
  }

  predicate NormalItem(item: Item) {
    CleanText(item.model) && CleanText(item.upstream) && CleanText(item.currency)
    && NormalColumns(item) && NormalMedia(item.image) && NormalMedia(item.video)
  }

  // ------------------------------------------------------- fixed points, bottom up

  lemma {:induction false} EolDropsCr(s: string)
    ensures '\r' !in NormalizeEol(s)
    decreases |s|
  {
    if s != "" {
      EolDropsCr(s[EolWidth(s)..]);
      EolStep(s);
    }
  }

  lemma NormTextIsClean(s: string)
    ensures CleanText(NormText(s))
    ensures CleanText(s) <==> NormText(s) == s
  {
    EolDropsCr(s);
    TrimIsTrimmed(NormalizeEol(s));
    if CleanText(s) {
      EolWithoutCr(s);
    }
  }

  lemma {:induction false} NormAttrIsClean(s: string)
    ensures CleanAttr(NormalizeAttr(s))
    ensures CleanAttr(s) <==> NormalizeAttr(s) == s
    decreases |s|
  {
    if s != "" {
      NormAttrIsClean(s[EolWidth(s)..]);
      AttrStep(s);
      if CleanAttr(s) {
        assert s == [s[0]] + s[1..];
        assert EolWidth(s) == 1;
      }
    }
  }

  lemma MapFixed<T(!new)>(s: seq<T>, f: T -> T)
    ensures Map(s, f) == s <==> forall x :: x in s ==> f(x) == x
  {
    if Map(s, f) == s {
      forall x | x in s ensures f(x) == x {
        var i :| 0 <= i < |s| && s[i] == x;
        assert Map(s, f)[i] == f(s[i]);
      }
    }
    if forall x :: x in s ==> f(x) == x {
      assert forall i :: 0 <= i < |s| ==> s[i] in s;
      assert Map(s, f) == s;
    }
  }

  lemma DaysFixed(days: seq<string>)
    ensures Map(days, NormText) == days <==> forall d :: d in days ==> CleanText(d)
  {
    MapFixed(days, NormText);
    forall d ensures NormText(d) == d <==> CleanText(d) { NormTextIsClean(d); }
  }

  lemma WindowsFixed(windows: seq<(string, string)>)
    ensures Map(windows, NormWindow) == windows <==> forall w :: w in windows ==> CleanAttr(w.0) && CleanAttr(w.1)
  {
    MapFixed(windows, NormWindow);
    forall w: (string, string) ensures NormWindow(w) == w <==> CleanAttr(w.0) && CleanAttr(w.1) {
      NormAttrIsClean(w.0);
      NormAttrIsClean(w.1);
    }
  }

  lemma SegmentFixed(seg: Segment)
    ensures NormSegment(seg) == seg <==> NormalSegment(seg)
  {
    hide CleanText, CleanAttr, NormText;
    if seg.name.Some? {
      NormTextIsClean(seg.name.value);
    }
    if seg.weekdays.Some? {
      DaysFixed(seg.weekdays.value);
    }
    if seg.windows.Some? {
      WindowsFixed(seg.windows.value);
    }
  }

  lemma SegsFixed(segs: Option<Segs>)
    ensures NormSegs(segs) == segs <==> NormalSegs(segs)
  {
    if segs.Some? && segs.value.Readable? {
      var list := segs.value.list;
      MapFixed(list, NormSegment);
      forall s ensures NormSegment(s) == s <==> NormalSegment(s) { SegmentFixed(s); }
    }
  }

  lemma {:induction false} DimsAreClean(v: Json, keys: seq<string>, acc: map<string, Json>)
    requires v.Obj? && (forall k :: k in keys ==> k in v.fields) && CleanFields(acc)
    ensures CleanFields(NormDims(v, keys, acc))
    decreases |keys|
  {
    if keys != [] {
      hide CleanText, CleanAttr, NormText;
      var k, text := keys[0], JsonValueText(v.fields[keys[0]]);
      NormAttrIsClean(k);
      NormTextIsClean(text);
      DimsAreClean(v, keys[1..], acc[NormalizeAttr(k) := J.Str(NormText(text))]);
    }
  }

  lemma {:induction false} CleanDimsStay(v: Json, keys: seq<string>, acc: map<string, Json>)
    requires v.Obj? && (forall k :: k in keys ==> k in v.fields) && CleanFields(v.fields)
    requires forall k :: k in acc ==> k in v.fields && acc[k] == v.fields[k]
    ensures var r := NormDims(v, keys, acc);
      && (forall k :: k in r <==> k in keys || k in acc)
      && (forall k :: k in r ==> k in v.fields && r[k] == v.fields[k])
    decreases |keys|
  {
    if keys != [] {
      hide CleanText, CleanAttr, NormText;
      var k := keys[0];
      NormAttrIsClean(k);
      NormTextIsClean(v.fields[k].s);
      CleanDimsStay(v, keys[1..], acc[k := v.fields[k]]);
    }
  }

  lemma DimensionsFixed(dims: Option<Json>)
    ensures NormDimensions(dims) == dims <==> NormalDimensions(dims)
  {
    hide CleanFields;
    if dims.Some? && dims.value.Obj? && dims.value.fields != map[] {
      var v := dims.value;
      var keys := SortedKeys(v.fields.Keys);
      NothingIsClean();
      DimsAreClean(v, keys, map[]);
      if CleanFields(v.fields) {
        CleanDimsStay(v, keys, map[]);
        assert NormDims(v, keys, map[]) == v.fields;
      }
    }
  }

  lemma NothingIsClean()
    ensures CleanFields(map[])
  {
  }

  lemma MediaRuleFixed(r: MediaRule)
    ensures NormMediaRule(r) == r <==> NormalMediaRule(r)
  {
    hide CleanText, NormText, NormDimensions, NormalDimensions, NormSegs, NormalSegs;
    if r.dimensionKey.Some? {
      NormTextIsClean(r.dimensionKey.value);
    }
    DimensionsFixed(r.dimensions);
    SegsFixed(r.segments);
  }

  lemma MediaFixed(rules: Option<seq<MediaRule>>)
    ensures NormMedia(rules) == rules <==> NormalMedia(rules)
  {
    hide NormMediaRule, NormalMediaRule;
    if rules.Some? {
      MapFixed(rules.value, NormMediaRule);
      forall r ensures NormMediaRule(r) == r <==> NormalMediaRule(r) { MediaRuleFixed(r); }
    }
  }

  function NormCols(item: Item): seq<Option<Segs>> {
    [NormCol(item, 0), NormCol(item, 1), NormCol(item, 2), NormCol(item, 3)]
  }

  /** The segments an item keeps. */
  function KeptSegments(item: Item): Option<map<string, Segs>> {
    SegmentMap(NormCols(item))
  }

  lemma UnitsDiffer(i: nat, j: nat)
    requires i < 4 && j < 4 && COL_UNITS[i] == COL_UNITS[j]
    ensures i == j
  {
  }

  /** Column `col` is the unit's, and gives it segments `s`. */
  predicate ColumnGives(cols: seq<Option<Segs>>, col: nat, u: string, s: Segs) {
    col < |cols| == 4 && COL_UNITS[col] == u && KeepsSegments(cols[col]) && cols[col].value == s
  }

  lemma {:induction false} EntriesTo(cols: seq<Option<Segs>>, n: nat, u: string, s: Segs)
    requires n <= |cols| == 4
    ensures u in SegmentMapTo(cols, n) && SegmentMapTo(cols, n)[u] == s <==> exists col: nat :: col < n && ColumnGives(cols, col, u, s)
  {
    if n > 0 {
      hide KeepsSegments;
      EntriesTo(cols, n - 1, u, s);
      forall i | 0 <= i < n - 1 && COL_UNITS[i] == COL_UNITS[n - 1] ensures false { UnitsDiffer(i, n - 1); }
      if COL_UNITS[n - 1] == u && KeepsSegments(cols[n - 1]) && cols[n - 1].value == s {
        assert ColumnGives(cols, n - 1, u, s);
      }
    }
  }

  lemma KeptIsNormal(item: Item, col: nat)
    requires col < 4
    ensures NormCols(item)[col] == NormCol(item, col)
    ensures NormCol(item, col).Some? <==> KeepsSegments(NormCol(item, col))
  {
  }

  ghost predicate Keeps(item: Item, u: string, s: Segs) {
    exists col :: 0 <= col < 4 && COL_UNITS[col] == u && NormCol(item, col) == Some(s)
  }

  predicate HasEntry(m: Option<map<string, Segs>>, u: string, s: Segs) {
    m.Some? && u in m.value && m.value[u] == s
  }

  /** Entry by entry, what is kept. */
  lemma KeptEntries(item: Item, u: string, s: Segs)
    ensures HasEntry(KeptSegments(item), u, s) <==> Keeps(item, u, s)
    ensures KeptSegments(item).Some? ==> KeptSegments(item).value != map[]
  {
    hide NormCol, KeepsSegments;
    var cols := NormCols(item);
    EntriesTo(cols, 4, u, s);
    if col: nat :| col < 4 && ColumnGives(cols, col, u, s) {
      KeptIsNormal(item, col);
      assert NormCol(item, col) == Some(s);
    }
    if col :| 0 <= col < 4 && COL_UNITS[col] == u && NormCol(item, col) == Some(s) {
      KeptIsNormal(item, col);
      assert ColumnGives(cols, col, u, s);
    }
  }

  lemma SameEntries(a: Option<map<string, Segs>>, b: Option<map<string, Segs>>)
    requires (a.Some? ==> a.value != map[]) && (b.Some? ==> b.value != map[])
    requires forall u, s :: HasEntry(a, u, s) <==> HasEntry(b, u, s)
    ensures a == b
  {
    if a.Some? {
      assert a.value.Keys != {};
      var u :| u in a.value;
      assert HasEntry(a, u, a.value[u]);
    }
    if b.Some? {
      assert b.value.Keys != {};
      var u :| u in b.value;
      assert HasEntry(b, u, b.value[u]);
    }
    if a.Some? && b.Some? {
      forall u ensures u in a.value <==> u in b.value {
        assert u in a.value ==> HasEntry(a, u, a.value[u]);
        assert u in b.value ==> HasEntry(b, u, b.value[u]);
      }
      forall u | u in a.value ensures a.value[u] == b.value[u] {
        assert HasEntry(a, u, a.value[u]);
      }
      assert a.value == b.value;
    }
  }

  /** A column whose entry is kept as it is has a price, and its segments are normal. */
  lemma KeptEntryIsNormal(item: Item, u: string)
    requires item.segments.Some? && u in item.segments.value && Keeps(item, u, item.segments.value[u])
    ensures NormalSegs(Some(item.segments.value[u]))
    ensures exists col :: 0 <= col < 4 && COL_UNITS[col] == u && ColPrice(item, col).Some?
  {
    hide NormSegs, NormalSegs;
    var col :| 0 <= col < 4 && COL_UNITS[col] == u && NormCol(item, col) == Some(item.segments.value[u]);
    SegsFixed(Some(item.segments.value[u]));
  }

  lemma NormalEntryIsKept(item: Item, u: string, s: Segs)
    requires NormalColumns(item)
    ensures HasEntry(item.segments, u, s) <==> Keeps(item, u, s)
  {
    hide NormSegs, NormalSegs;
    NothingKept();
    SegsFixed(UnitSegments(item, u));
    if HasEntry(item.segments, u, s) {
      var col :| 0 <= col < 4 && COL_UNITS[col] == u && ColPrice(item, col).Some?;
      assert NormCol(item, col) == Some(s);
    }
  }

  lemma ColumnsFixed(item: Item)
    ensures KeptSegments(item) == item.segments <==> NormalColumns(item)
  {
    hide KeptSegments, NormSegs, NormalSegs, Keeps, ColPrice;
    if KeptSegments(item) == item.segments {
      KeptEntries(item, "", Readable([]));
      if item.segments.Some? {
        forall u | u in item.segments.value
          ensures NormalSegs(Some(item.segments.value[u]))
          ensures exists col :: 0 <= col < 4 && COL_UNITS[col] == u && ColPrice(item, col).Some?
        {
          KeptEntries(item, u, item.segments.value[u]);
          KeptEntryIsNormal(item, u);
        }
      }
    }
    if NormalColumns(item) {
      forall u, s ensures HasEntry(KeptSegments(item), u, s) <==> HasEntry(item.segments, u, s) {
        KeptEntries(item, u, s);
        NormalEntryIsKept(item, u, s);
      }
      KeptEntries(item, "", Readable([]));
      SameEntries(KeptSegments(item), item.segments);
    }
  }

  lemma NothingKept()
    ensures NormSegs(None) == None
  {
  }

  /** An item survives the round trip unchanged exactly when it is in normal form: trimmed texts free of
      carriage returns, no empty arrays, and segments only on priced columns. */
  lemma NormalFormIsFixed(item: Item)
    ensures NormItem(item) == item <==> NormalItem(item)
  {
    hide CleanText, NormText, NormMedia, NormalMedia, NormalColumns, KeptSegments;
    NormTextIsClean(item.model);
    NormTextIsClean(item.upstream);
    NormTextIsClean(item.currency);
    ColumnsFixed(item);
    MediaFixed(item.image);
    MediaFixed(item.video);
    NormItemFields(item);
  }

  lemma NormItemFields(item: Item)
    ensures NormItem(item) == Item(NormText(item.model), NormText(item.upstream), NormText(item.currency),
      item.inputPerM, item.outputPerM, item.cacheReadPerM, item.cacheWritePerM,
      KeptSegments(item), NormMedia(item.image), NormMedia(item.video))
  {
  }

  /** The round trip is exact for every table in normal form, and for no other. */
  lemma RoundTripOfNormalForms(items: seq<Item>)
    ensures ParseXml(ExportText(items)) == Ok(items) <==> forall i :: 0 <= i < |items| ==> NormalItem(items[i])
  {
    hide NormItem, NormalItem, ParseXml, ExportText;
    RoundTripIsExact(items);
    forall item ensures NormItem(item) == item <==> NormalItem(item) { NormalFormIsFixed(item); }
  }

  // ------------------------------------------------------------------ import loop

  function WithColPrice(item: Item, col: nat, price: Option<Decimal>): Item
    requires col < 4
  {
    if col == 0 then item.(inputPerM := price) else if col == 1 then item.(outputPerM := price)
    else if col == 2 then item.(cacheReadPerM := price) else item.(cacheWritePerM := price)
  }

  lemma ColPriceSet(item: Item, col: nat, price: Option<Decimal>)
    requires col < 4
    ensures var now := WithColPrice(item, col, price);
      && (forall j :: 0 <= j < 4 ==> ColPrice(now, j) == if j == col then price else ColPrice(item, j))
      && Rest(now) == Rest(item)
  {
  }

  /** What the column loop does not touch. */
  function Rest(item: Item): (string, string, string) {
    (item.model, item.upstream, item.currency)
  }

  lemma ItemIsParsed(n: Node, item: Item)
    requires Rest(item) == (TextOf(n, "model_id").UnwrapOr(""), TextOf(n, "upstream").UnwrapOr(""), TextOf(n, "currency").UnwrapOr(""))
    requires forall j :: 0 <= j < 4 ==> ColPrice(item, j) == ParseColPrice(Child(n, COL_TAGS[j]))
    requires item.segments == SegmentMap(ColSegments(n))
    requires item.image == ParseMedia(Child(n, "image")) && item.video == ParseMedia(Child(n, "video"))
    ensures item == ParseItem(n)
  {
    hide TextOf, ParseColPrice, SegmentMap, ColSegments, ParseMedia, ChildIn;
    assert ColPrice(item, 0) == item.inputPerM && ColPrice(item, 1) == item.outputPerM;
    assert ColPrice(item, 2) == item.cacheReadPerM && ColPrice(item, 3) == item.cacheWritePerM;
  }

  /** The loop over the four token columns. */
  method ReadColumns(n: Node, blank: Item) returns (item: Item, segMap: map<string, Segs>)
    requires forall j :: 0 <= j < 4 ==> ColPrice(blank, j) == None
    ensures Rest(item) == Rest(blank)
    ensures forall j :: 0 <= j < 4 ==> ColPrice(item, j) == ParseColPrice(Child(n, COL_TAGS[j]))
    ensures segMap == SegmentMapTo(ColSegments(n), 4)
  {
    hide ParseColPrice, ParseColSegments, ChildIn, ColPrice, WithColPrice, Rest, KeepsSegments;
    item, segMap := blank, map[];
    for col := 0 to 4
      invariant Rest(item) == Rest(blank)
      invariant forall j :: 0 <= j < 4 ==>
        ColPrice(item, j) == if j < col then ParseColPrice(Child(n, COL_TAGS[j])) else None
      invariant segMap == SegmentMapTo(ColSegments(n), col)
    {
      NoColumn();
      assert ColSegments(n)[col] == ParseColSegments(Child(n, COL_TAGS[col]));
      var node := Child(n, COL_TAGS[col]);
      if node.Some? {
        ColPriceSet(item, col, ParseColPrice(node));
        item := WithColPrice(item, col, ParseColPrice(node));
        var segs := ParseColSegments(node);
        if KeepsSegments(segs) {
          KeptHasValue(segs);
          segMap := segMap[COL_UNITS[col] := segs.value];
        }
      }
    }
  }

  lemma KeptHasValue(segs: Option<Segs>)
    requires KeepsSegments(segs)
    ensures segs.Some?
  {
  }

  /** The body of the import loop: texts, the four token columns, then the media nodes. */
  method ReadItem(n: Node) returns (item: Item)
    ensures item == ParseItem(n) && SaysItem(n, item)
  {
    hide TextOf, ParseColPrice, ColSegments, ParseMedia, ChildIn, SegmentMapTo, ParseItem;
    var segMap;
    item := Item(TextOf(n, "model_id").UnwrapOr(""), TextOf(n, "upstream").UnwrapOr(""), TextOf(n, "currency").UnwrapOr(""),
                 None, None, None, None, None, None, None);
    item, segMap := ReadColumns(n, item);
    ghost var columns := item;
    item := item.(segments := if segMap != map[] then Some(segMap) else None);
    item := item.(image := ParseMedia(Child(n, "image")), video := ParseMedia(Child(n, "video")));
    assert forall j :: 0 <= j < 4 ==> ColPrice(item, j) == ColPrice(columns, j);
    ItemIsParsed(n, item);
    hide SaysItem;
    ItemSays(n);
  }

  lemma NoColumn()
    ensures ParseColPrice(None) == None && ParseColSegments(None) == None && !KeepsSegments(None)
  {
  }

  /** parse_xml. */
  method ReadXml(xml: string) returns (r: Result<seq<Item>, ImportError>)
    ensures r == ParseXml(xml)
    ensures r.Ok? ==> exists root :: Tree(xml) == Ok(root) && SaysItems(root, r.value)
  {
    hide ParseItem, Tree, SaysItem;
    var tree := ParseTree(xml);
    match tree {
      case Err(e) => return Err(BadXml(e));
      case Ok(root) =>
        if root.name != "prices" {
          return Err(WrongRoot);
        }
        var items: seq<Item> := [];
        assert root.children[0..] == root.children;
        for i := 0 to |root.children|
          invariant items + Map(NamedIn(root.children[i..], "price"), ParseItem) == Map(Named(root, "price"), ParseItem)
        {
          assert root.children[i..][1..] == root.children[i + 1..];
          MapCons(root.children[i], NamedIn(root.children[i + 1..], "price"));
          if root.children[i].name == "price" {
            var item := ReadItem(root.children[i]);
            ConcatAssoc(items, [item], Map(NamedIn(root.children[i + 1..], "price"), ParseItem));
            items := items + [item];
          }
        }
        assert root.children[|root.children|..] == [];
        NoneNamed();
        assert items + [] == items;
        r := Ok(items);
        ItemsSay(root);
    }
  }

  /** One item for each `<price>` under `<prices>`, in order. */
  ghost predicate SaysItems(root: Node, items: seq<Item>) {
    var nodes := Named(root, "price");
    root.name == "prices" && |items| == |nodes| && forall i :: 0 <= i < |nodes| ==> SaysItem(nodes[i], items[i])
  }

  lemma ItemsSay(root: Node)
    requires root.name == "prices"
    ensures SaysItems(root, Map(Named(root, "price"), ParseItem))
  {
    hide ParseItem, SaysItem, NamedIn;
    var nodes := Named(root, "price");
    forall i | 0 <= i < |nodes| ensures SaysItem(nodes[i], ParseItem(nodes[i])) { ItemSays(nodes[i]); }
  }

  lemma NoneNamed()
    ensures Map(NamedIn([], "price"), ParseItem) == []
  {
  }

  lemma MapCons(n: Node, ns: seq<Node>)
    ensures Map([n] + ns, ParseItem) == [ParseItem(n)] + Map(ns, ParseItem)
    ensures [] + ns == ns
  {
    hide ParseItem;
    assert ([n] + ns)[1..] == ns;
  }
}
