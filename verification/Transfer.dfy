/**
 Export and import of price tables as XML (src/billing/transfer.rs:22-256, 484-636).

 An item's JSON columns are kept as what they mean: a segments column is what the Segment deserializer
 reads, a media column is its array of rule objects, and only `dimensions` stays JSON.
 */
module Transfer {
  import opened Wrappers
  import opened Strings
  import opened Numerals
  import opened Pricing
  import opened XmlText
  import opened XmlTokens
  import opened XmlTree
  import J = Json

  datatype MediaRule = MediaRule(
    basePrice: Option<Decimal>, dimensionKey: Option<string>, dimensions: Option<Json>, segments: Option<Segs>)

  datatype Item = Item(
    model: string,
    upstream: string,
    currency: string,
    inputPerM: Option<Decimal>,
    outputPerM: Option<Decimal>,
    cacheReadPerM: Option<Decimal>,
    cacheWritePerM: Option<Decimal>,
    segments: Option<map<string, Segs>>,
    image: Option<seq<MediaRule>>,
    video: Option<seq<MediaRule>>)

  /** XML column tags, and the unit each stands for. */
  const COL_TAGS: seq<string> := ["input_per_m", "output_per_m", "cache_read_per_m", "cache_write_per_m"]
  const COL_UNITS: seq<string> := ["token_in", "token_out", "token_cache_read", "token_cache_write"]

  function ColPrice(item: Item, col: nat): Option<Decimal>
    requires col < 4
  {
    if col == 0 then item.inputPerM else if col == 1 then item.outputPerM
    else if col == 2 then item.cacheReadPerM else item.cacheWritePerM
  }

  function UnitSegments(item: Item, unit: string): Option<Segs> {
    if item.segments.Some? && unit in item.segments.value then Some(item.segments.value[unit]) else None
  }

  function Map<T(!new), U>(s: seq<T>, f: T -> U): (r: seq<U>)
    ensures |r| == |s| && forall i :: 0 <= i < |s| ==> r[i] == f(s[i])
  {
    if s == [] then [] else [f(s[0])] + Map(s[1..], f)
  }

  // ------------------------------------------------------- documents of items

  function TextElem(tag: string, text: Option<string>): seq<Elem> {
    if text.Some? then [Leaf(tag, [], text.value)] else []
  }

  function DecimalText(d: Option<Decimal>): Option<string> {
    if d.Some? then Some(DecText(d.value)) else None
  }

  function IntegerText(n: Option<I64>): Option<string> {
    if n.Some? then Some(IntText(n.value)) else None
  }

  function DayElem(d: string): Elem {
    Leaf("day", [], d)
  }

  function WindowElem(w: (string, string)): Elem {
    Void("window", [("start", w.0), ("end", w.1)])
  }

  function WeekdaysElem(days: Option<seq<string>>): seq<Elem> {
    if days.Some? then [Branch("weekdays", [], Map(days.value, DayElem))] else []
  }

  function WindowsElem(windows: Option<seq<(string, string)>>): seq<Elem> {
    if windows.Some? then [Branch("windows", [], Map(windows.value, WindowElem))] else []
  }

  const SEGMENT_TAGS: seq<string> := ["name", "price", "weekdays", "windows", "min_prompt_tokens", "max_prompt_tokens"]

  function SegmentParts(seg: Segment): seq<seq<Elem>> {
    [TextElem("name", seg.name),
     TextElem("price", Some(DecText(seg.price))),
     WeekdaysElem(seg.weekdays),
     WindowsElem(seg.windows),
     TextElem("min_prompt_tokens", IntegerText(seg.minPrompt)),
     TextElem("max_prompt_tokens", IntegerText(seg.maxPrompt))]
  }

  function Flatten(parts: seq<seq<Elem>>): seq<Elem> {
    if parts == [] then [] else parts[0] + Flatten(parts[1..])
  }

  function SegmentElem(seg: Segment): Elem {
    Branch("segment", [], Flatten(SegmentParts(seg)))
  }

  /** Segments that do not read, or none, leave no element. */
  function SegmentsElem(segs: Option<Segs>): seq<Elem> {
    match segs
    case Some(Readable(list)) => if list == [] then [] else [Branch("segments", [], Map(list, SegmentElem))]
    case _ => []
  }

  function ColElem(tag: string, price: Option<Decimal>, segs: Option<Segs>): seq<Elem> {
    if price.None? then []
    else if SegmentsElem(segs) == [] then [Leaf(tag, [], DecText(price.value))]
    else [Branch(tag, [], Flatten([TextElem("price", DecimalText(price)), SegmentsElem(segs)]))]
  }

  /** A string is its own text, any other value its JSON text. */
  function JsonValueText(v: Json): string {
    if v.Str? then v.s else J.CanonText(v)
  }

  function DimElem(k: string, v: Json): Elem {
    Leaf("dimension", [("name", k)], JsonValueText(v))
  }

  function DimElems(v: Json, keys: seq<string>): seq<Elem>
    requires v.Obj? && forall k :: k in keys ==> k in v.fields
  {
    if keys == [] then [] else [DimElem(keys[0], v.fields[keys[0]])] + DimElems(v, keys[1..])
  }

  function DimensionsElem(dims: Option<Json>): seq<Elem> {
    if dims.None? || !dims.value.Obj? || dims.value.fields == map[] then []
    else [Branch("dimensions", [], DimElems(dims.value, SortedKeys(dims.value.fields.Keys)))]
  }

  const MEDIA_TAGS: seq<string> := ["price", "dimension_key", "dimensions", "segments"]

  function MediaParts(r: MediaRule): seq<seq<Elem>> {
    [TextElem("price", DecimalText(r.basePrice)),
     TextElem("dimension_key", r.dimensionKey),
     DimensionsElem(r.dimensions),
     SegmentsElem(r.segments)]
  }

  function MediaRuleElem(r: MediaRule): Elem {
    Branch("item", [], Flatten(MediaParts(r)))
  }

  function MediaElem(tag: string, rules: Option<seq<MediaRule>>): seq<Elem> {
    if rules.None? || rules.value == [] then [] else [Branch(tag, [], Map(rules.value, MediaRuleElem))]
  }

  const ITEM_TAGS: seq<string> := ["model_id", "upstream", "currency"] + COL_TAGS + ["image", "video"]

  function ItemParts(item: Item): seq<seq<Elem>> {
    [TextElem("model_id", Some(item.model)),
     TextElem("upstream", Some(item.upstream)),
     TextElem("currency", Some(item.currency)),
     ColElem(COL_TAGS[0], item.inputPerM, UnitSegments(item, COL_UNITS[0])),
     ColElem(COL_TAGS[1], item.outputPerM, UnitSegments(item, COL_UNITS[1])),
     ColElem(COL_TAGS[2], item.cacheReadPerM, UnitSegments(item, COL_UNITS[2])),
     ColElem(COL_TAGS[3], item.cacheWritePerM, UnitSegments(item, COL_UNITS[3])),
     MediaElem("image", item.image),
     MediaElem("video", item.video)]
  }

  function ItemElem(item: Item): Elem {
    Branch("price", [], Flatten(ItemParts(item)))
  }

  const SCHEMA := "nextapi-prices/v1"

  function RootElem(items: seq<Item>): Elem {
    Branch("prices", [("schema", SCHEMA)], Map(items, ItemElem))
  }

  const DECL := "<?xml version=\"1.0\" encoding=\"UTF-8\"?>"

  function CompactText(items: seq<Item>): string {
    Document(DECL, RootElem(items))
  }

  /** The exported text. */
  function ExportText(items: seq<Item>): string {
    Pretty(Lex(CompactText(items)), 0)
  }

  // ------------------------------------------------------------------- parsing

  function ChildIn(ns: seq<Node>, name: string): Option<Node> {
    if ns == [] then None else if ns[0].name == name then Some(ns[0]) else ChildIn(ns[1..], name)
  }

  function Child(n: Node, name: string): Option<Node> {
    ChildIn(n.children, name)
  }

  function NamedIn(ns: seq<Node>, name: string): seq<Node> {
    if ns == [] then []
    else (if ns[0].name == name then [ns[0]] else []) + NamedIn(ns[1..], name)
  }

  function Named(n: Node, name: string): seq<Node> {
    NamedIn(n.children, name)
  }

  function TrimmedText(n: Node): string {
    Trim(n.text)
  }

  function TextOf(n: Node, name: string): Option<string> {
    match Child(n, name)
    case Some(c) => Some(TrimmedText(c))
    case None => None
  }

  function Attr(n: Node, name: string): string {
    if name in n.attrs then n.attrs[name] else ""
  }

  function ParseWindow(n: Node): (string, string) {
    (Attr(n, "start"), Attr(n, "end"))
  }

  function TextDecimal(text: Option<string>): Option<Decimal> {
    if text.Some? then ParseDec(text.value) else None
  }

  function TextInteger(text: Option<string>): Option<I64> {
    if text.Some? then ParseI64(text.value) else None
  }

  function NotEmpty(text: Option<string>): Option<string> {
    if text == Some("") then None else text
  }

  function ParseWeekdays(n: Option<Node>): Option<seq<string>> {
    if n.Some? then Some(Map(Named(n.value, "day"), TrimmedText)) else None
  }

  function ParseWindows(n: Option<Node>): Option<seq<(string, string)>> {
    if n.Some? then Some(Map(Named(n.value, "window"), ParseWindow)) else None
  }

  function ParseSegment(n: Node): Segment {
    Segment(
      NotEmpty(TextOf(n, "name")),
      TextDecimal(TextOf(n, "price")).UnwrapOr(ZERO),
      ParseWeekdays(Child(n, "weekdays")),
      ParseWindows(Child(n, "windows")),
      TextInteger(TextOf(n, "min_prompt_tokens")),
      TextInteger(TextOf(n, "max_prompt_tokens")))
  }

  function ParseSegments(n: Option<Node>): Option<Segs> {
    if n.Some? then Some(Readable(Map(Named(n.value, "segment"), ParseSegment))) else None
  }

  /** The price of a token column: its price element, else its own text; and its segments. */
  function ParseColPrice(n: Option<Node>): Option<Decimal> {
    if n.None? then None
    else
      var inner := TextDecimal(TextOf(n.value, "price"));
      if inner.Some? then inner else ParseDec(TrimmedText(n.value))
  }

  function ParseColSegments(n: Option<Node>): Option<Segs> {
    if n.None? then None else ParseSegments(Child(n.value, "segments"))
  }

  function FoldDims(ns: seq<Node>, acc: map<string, Json>): map<string, Json> {
    if ns == [] then acc
    else FoldDims(ns[1..], if "name" in ns[0].attrs then acc[ns[0].attrs["name"] := J.Str(TrimmedText(ns[0]))] else acc)
  }

  function ParseDimensions(n: Option<Node>): Option<Json> {
    if n.Some? then Some(J.Obj(FoldDims(Named(n.value, "dimension"), map[]))) else None
  }

  function ParseMediaRule(n: Node): MediaRule {
    MediaRule(TextDecimal(TextOf(n, "price")), TextOf(n, "dimension_key"), ParseDimensions(Child(n, "dimensions")),
              ParseSegments(Child(n, "segments")))
  }

  function ParseMedia(n: Option<Node>): Option<seq<MediaRule>> {
    if n.None? || Named(n.value, "item") == [] then None
    else Some(Map(Named(n.value, "item"), ParseMediaRule))
  }

  predicate KeepsSegments(segs: Option<Segs>) {
    segs.Some? && segs.value.Readable? && segs.value.list != []
  }

  /** The segments of the first `n` columns that have some. */
  function SegmentMapTo(cols: seq<Option<Segs>>, n: nat): map<string, Segs>
    requires n <= |cols| == 4
  {
    if n == 0 then map[]
    else
      var m := SegmentMapTo(cols, n - 1);
      if KeepsSegments(cols[n - 1]) then m[COL_UNITS[n - 1] := cols[n - 1].value] else m
  }

  function SegmentMap(cols: seq<Option<Segs>>): Option<map<string, Segs>>
    requires |cols| == 4
  {
    var m := SegmentMapTo(cols, 4);
    if m == map[] then None else Some(m)
  }

  function ColSegments(n: Node): seq<Option<Segs>> {
    [ParseColSegments(Child(n, COL_TAGS[0])), ParseColSegments(Child(n, COL_TAGS[1])),
     ParseColSegments(Child(n, COL_TAGS[2])), ParseColSegments(Child(n, COL_TAGS[3]))]
  }

  function ParseItem(n: Node): Item {
    Item(
      TextOf(n, "model_id").UnwrapOr(""),
      TextOf(n, "upstream").UnwrapOr(""),
      TextOf(n, "currency").UnwrapOr(""),
      ParseColPrice(Child(n, COL_TAGS[0])),
      ParseColPrice(Child(n, COL_TAGS[1])),
      ParseColPrice(Child(n, COL_TAGS[2])),
      ParseColPrice(Child(n, COL_TAGS[3])),
      SegmentMap(ColSegments(n)),
      ParseMedia(Child(n, "image")),
      ParseMedia(Child(n, "video")))
  }

  datatype ImportError = BadXml(e: XmlError) | WrongRoot

  function ParseXml(xml: string): Result<seq<Item>, ImportError> {
    match Tree(xml)
    case Err(e) => Err(BadXml(e))
    case Ok(root) => if root.name != "prices" then Err(WrongRoot) else Ok(Map(Named(root, "price"), ParseItem))
  }

  // ------------------------------------------------------- what a node says

  /** The first child of that name. */
  ghost predicate IsChild(n: Node, tag: string, c: Node) {
    exists i :: 0 <= i < |n.children| && n.children[i] == c && c.name == tag
      && forall j :: 0 <= j < i ==> n.children[j].name != tag
  }

  ghost predicate Lacks(n: Node, tag: string) {
    forall c :: c in n.children ==> c.name != tag
  }

  /** The trimmed text of the first child of that name, if there is one. */
  ghost predicate Says(n: Node, tag: string, text: Option<string>) {
    match text
    case Some(t) => exists c :: IsChild(n, tag, c) && t == Trim(c.text)
    case None => Lacks(n, tag)
  }

  lemma {:induction false} FirstNamed(ns: seq<Node>, tag: string)
    ensures match ChildIn(ns, tag)
      case None => forall c :: c in ns ==> c.name != tag
      case Some(c) => exists i :: 0 <= i < |ns| && ns[i] == c && c.name == tag && forall j :: 0 <= j < i ==> ns[j].name != tag
  {
    if ns != [] && ns[0].name != tag {
      FirstNamed(ns[1..], tag);
      if ChildIn(ns, tag).Some? {
        var c := ChildIn(ns, tag).value;
        var i :| 0 <= i < |ns[1..]| && ns[1..][i] == c && c.name == tag && forall j :: 0 <= j < i ==> ns[1..][j].name != tag;
        forall j | 0 <= j < i + 1 ensures ns[j].name != tag {
          assert j > 0 ==> ns[j] == ns[1..][j - 1];
        }
        assert ns[i + 1] == c;
      }
    }
  }

  lemma ChildIs(n: Node, tag: string)
    ensures Child(n, tag).None? <==> Lacks(n, tag)
    ensures forall c :: IsChild(n, tag, c) <==> Child(n, tag) == Some(c)
  {
    FirstNamed(n.children, tag);
    forall c | IsChild(n, tag, c) ensures Child(n, tag) == Some(c) {
      var i :| 0 <= i < |n.children| && n.children[i] == c && c.name == tag && forall j :: 0 <= j < i ==> n.children[j].name != tag;
    }
  }

  lemma SaysIs(n: Node, tag: string, text: Option<string>)
    ensures Says(n, tag, text) <==> text == TextOf(n, tag)
  {
    hide IsChild, Lacks;
    ChildIs(n, tag);
  }

  /** A number where there is one to read. */
  function NumberOr(text: Option<string>, other: Option<Decimal>): Option<Decimal> {
    if text.Some? && ParseDec(text.value).Some? then ParseDec(text.value) else other
  }

  function IntegerOf(text: Option<string>): Option<I64> {
    if text.Some? then ParseI64(text.value) else None
  }

  /** A segment's name, price, days, windows and bounds. */
  ghost predicate SaysSegment(g: Node, seg: Segment) {
    && (forall t :: Says(g, "name", t) ==> seg.name == if t == Some("") then None else t)
    && (forall t :: Says(g, "price", t) ==> Some(seg.price) == NumberOr(t, Some(Dec(0, 0))))
    && (forall t :: Says(g, "min_prompt_tokens", t) ==> seg.minPrompt == IntegerOf(t))
    && (forall t :: Says(g, "max_prompt_tokens", t) ==> seg.maxPrompt == IntegerOf(t))
    && (Lacks(g, "weekdays") ==> seg.weekdays == None)
    && (forall c :: IsChild(g, "weekdays", c) ==> seg.weekdays.Some? && SaysDays(Named(c, "day"), seg.weekdays.value))
    && (Lacks(g, "windows") ==> seg.windows == None)
    && (forall c :: IsChild(g, "windows", c) ==> seg.windows.Some? && SaysWindows(Named(c, "window"), seg.windows.value))
  }

  ghost predicate SaysDays(ns: seq<Node>, days: seq<string>) {
    |days| == |ns| && forall i :: 0 <= i < |ns| ==> days[i] == Trim(ns[i].text)
  }

  ghost predicate SaysWindows(ns: seq<Node>, windows: seq<(string, string)>) {
    |windows| == |ns| && forall i :: 0 <= i < |ns| ==>
      && ("start" in ns[i].attrs ==> windows[i].0 == ns[i].attrs["start"])
      && ("end" in ns[i].attrs ==> windows[i].1 == ns[i].attrs["end"])
  }

  ghost predicate SaysSegments(n: Node, segs: Option<Segs>) {
    && (Lacks(n, "segments") ==> segs == None)
    && (forall c :: IsChild(n, "segments", c) ==>
          && segs.Some? && segs.value.Readable? && |segs.value.list| == |Named(c, "segment")|
          && forall i :: 0 <= i < |segs.value.list| ==> SaysSegment(Named(c, "segment")[i], segs.value.list[i]))
  }

  /** A column is a number, or has a price and segments of its own. */
  ghost predicate SaysColumn(n: Node, tag: string, price: Option<Decimal>, segs: Option<Segs>) {
    && (Lacks(n, tag) ==> price == None && segs == None)
    && (forall c :: IsChild(n, tag, c) ==>
          && (forall t :: Says(c, "price", t) ==> price == NumberOr(t, ParseDec(Trim(c.text))))
          && (segs == None || SaysSegments(c, segs))
          && (segs == None ==> Lacks(c, "segments") || exists s :: IsChild(c, "segments", s) && Lacks(s, "segment")))
  }

  ghost predicate SaysDimensions(n: Node, dims: Option<Json>) {
    && (Lacks(n, "dimensions") ==> dims == None)
    && (forall c :: IsChild(n, "dimensions", c) ==>
          && dims.Some? && dims.value.Obj?
          && forall k, text :: k in dims.value.fields && dims.value.fields[k] == J.Str(text) <==> LastSays(Named(c, "dimension"), k, text))
  }

  /** The last of these that is named so has that text. */
  ghost predicate LastSays(ns: seq<Node>, k: string, text: string) {
    exists i :: 0 <= i < |ns| && Labels(ns[i], k) && text == Trim(ns[i].text) && forall j :: i < j < |ns| ==> !Labels(ns[j], k)
  }

  predicate Labels(n: Node, k: string) {
    "name" in n.attrs && n.attrs["name"] == k
  }

  ghost predicate SaysMediaRule(n: Node, r: MediaRule) {
    && (forall t :: Says(n, "price", t) ==> r.basePrice == NumberOr(t, None))
    && Says(n, "dimension_key", r.dimensionKey)
    && SaysDimensions(n, r.dimensions)
    && SaysSegments(n, r.segments)
  }

  ghost predicate SaysMedia(n: Node, tag: string, rules: Option<seq<MediaRule>>) {
    && (Lacks(n, tag) ==> rules == None)
    && (forall c :: IsChild(n, tag, c) ==>
          var list := if rules.Some? then rules.value else [];
          && |list| == |Named(c, "item")|
          && (rules.Some? ==> list != [])
          && forall i :: 0 <= i < |list| ==> SaysMediaRule(Named(c, "item")[i], list[i]))
  }

  /** What the importer takes a `<price>` node to mean. */
  ghost predicate SaysItem(n: Node, item: Item) {
    && (forall t :: Says(n, "model_id", t) ==> item.model == t.UnwrapOr(""))
    && (forall t :: Says(n, "upstream", t) ==> item.upstream == t.UnwrapOr(""))
    && (forall t :: Says(n, "currency", t) ==> item.currency == t.UnwrapOr(""))
    && SaysColumn(n, "input_per_m", item.inputPerM, UnitSegments(item, "token_in"))
    && SaysColumn(n, "output_per_m", item.outputPerM, UnitSegments(item, "token_out"))
    && SaysColumn(n, "cache_read_per_m", item.cacheReadPerM, UnitSegments(item, "token_cache_read"))
    && SaysColumn(n, "cache_write_per_m", item.cacheWritePerM, UnitSegments(item, "token_cache_write"))
    && SaysMedia(n, "image", item.image)
    && SaysMedia(n, "video", item.video)
  }

  lemma DaysSay(n: Node)
    ensures var days := ParseWeekdays(Some(n)); days.Some? && SaysDays(Named(n, "day"), days.value)
  {
    hide NamedIn;
  }

  lemma WindowsSay(n: Node)
    ensures var windows := ParseWindows(Some(n)); windows.Some? && SaysWindows(Named(n, "window"), windows.value)
  {
    hide NamedIn;
  }

  lemma SegmentTextsSay(g: Node)
    ensures var seg := ParseSegment(g);
      && (forall t :: Says(g, "name", t) ==> seg.name == if t == Some("") then None else t)
      && (forall t :: Says(g, "price", t) ==> Some(seg.price) == NumberOr(t, Some(Dec(0, 0))))
      && (forall t :: Says(g, "min_prompt_tokens", t) ==> seg.minPrompt == IntegerOf(t))
      && (forall t :: Says(g, "max_prompt_tokens", t) ==> seg.maxPrompt == IntegerOf(t))
  {
    hide Says, TextOf, Child, ParseWeekdays, ParseWindows;
    forall tag: string, t ensures Says(g, tag, t) <==> t == TextOf(g, tag) { SaysIs(g, tag, t); }
  }

  lemma SegmentSays(g: Node)
    ensures SaysSegment(g, ParseSegment(g))
  {
    hide Says, IsChild, Lacks, TextOf, ChildIn, SaysDays, SaysWindows, ParseDec, ParseI64, Named;
    SegmentTextsSay(g);
    ChildIs(g, "weekdays");
    ChildIs(g, "windows");
    var seg, days, windows := ParseSegment(g), Child(g, "weekdays"), Child(g, "windows");
    assert seg.weekdays == ParseWeekdays(days) && seg.windows == ParseWindows(windows);
    assert ParseWeekdays(None) == None && ParseWindows(None) == None;
    hide ParseSegment, ParseWeekdays, ParseWindows;
    if days.Some? {
      DaysSay(days.value);
    }
    if windows.Some? {
      WindowsSay(windows.value);
    }
  }

  lemma SegmentsSay(n: Node)
    ensures SaysSegments(n, ParseSegments(Child(n, "segments")))
  {
    hide Says, IsChild, Lacks, ChildIn, NamedIn, SaysSegment, ParseSegment;
    ChildIs(n, "segments");
    if Child(n, "segments").Some? {
      var ns := Named(Child(n, "segments").value, "segment");
      forall i | 0 <= i < |ns| ensures SaysSegment(ns[i], ParseSegment(ns[i])) { SegmentSays(ns[i]); }
    }
  }

  lemma {:induction false} NobodyNamed(ns: seq<Node>, tag: string)
    ensures NamedIn(ns, tag) == [] <==> forall c :: c in ns ==> c.name != tag
  {
    if ns != [] {
      NobodyNamed(ns[1..], tag);
    }
  }

  /** The segments of a column are kept unless there are none. */
  lemma ColumnSays(n: Node, tag: string, segs: Option<Segs>)
    requires var parsed := ParseColSegments(Child(n, tag)); segs == if KeepsSegments(parsed) then parsed else None
    ensures SaysColumn(n, tag, ParseColPrice(Child(n, tag)), segs)
  {
    hide Says, IsChild, TextOf, ChildIn, SaysSegments, ParseSegment;
    ChildIs(n, tag);
    if Child(n, tag).Some? {
      var c := Child(n, tag).value;
      forall t ensures Says(c, "price", t) <==> t == TextOf(c, "price") { SaysIs(c, "price", t); }
      ChildIs(c, "segments");
      SegmentsSay(c);
      if Child(c, "segments").Some? {
        NobodyNamed(Child(c, "segments").value.children, "segment");
      }
    }
  }

  lemma {:induction false} FoldSays(ns: seq<Node>, acc: map<string, Json>, k: string, text: string)
    ensures var r := FoldDims(ns, acc);
      k in r && r[k] == J.Str(text) <==>
        LastSays(ns, k, text) || ((forall i :: 0 <= i < |ns| ==> !Labels(ns[i], k)) && k in acc && acc[k] == J.Str(text))
  {
    if ns != [] {
      var next := if "name" in ns[0].attrs then acc[ns[0].attrs["name"] := J.Str(TrimmedText(ns[0]))] else acc;
      FoldSays(ns[1..], next, k, text);
      LastSaysNext(ns, k, text);
      assert (forall i :: 0 <= i < |ns| ==> !Labels(ns[i], k)) <==>
        !Labels(ns[0], k) && forall i :: 0 <= i < |ns[1..]| ==> !Labels(ns[1..][i], k) by {
        if forall i :: 0 <= i < |ns[1..]| ==> !Labels(ns[1..][i], k) {
          assert forall i :: 1 <= i < |ns| ==> ns[i] == ns[1..][i - 1];
        }
      }
    }
  }

  lemma LastSaysNext(ns: seq<Node>, k: string, text: string)
    requires ns != []
    ensures LastSays(ns, k, text) <==>
      LastSays(ns[1..], k, text)
      || (Labels(ns[0], k) && text == Trim(ns[0].text) && forall i :: 0 <= i < |ns[1..]| ==> !Labels(ns[1..][i], k))
  {
    hide Labels;
    var more := ns[1..];
    assert forall i :: 1 <= i < |ns| ==> ns[i] == more[i - 1];
    if i :| 0 <= i < |ns| && Labels(ns[i], k) && text == Trim(ns[i].text) && forall j :: i < j < |ns| ==> !Labels(ns[j], k) {
      if i > 0 {
        assert more[i - 1] == ns[i];
        assert forall j :: i - 1 < j < |more| ==> more[j] == ns[j + 1];
      } else {
        assert forall j :: 0 <= j < |more| ==> more[j] == ns[j + 1];
      }
    }
    if i :| 0 <= i < |more| && Labels(more[i], k) && text == Trim(more[i].text) && forall j :: i < j < |more| ==> !Labels(more[j], k) {
      assert ns[i + 1] == more[i];
    }
  }

  lemma DimensionsSay(n: Node)
    ensures SaysDimensions(n, ParseDimensions(Child(n, "dimensions")))
  {
    hide IsChild, Lacks, ChildIn, NamedIn, LastSays;
    ChildIs(n, "dimensions");
    if Child(n, "dimensions").Some? {
      var c := Child(n, "dimensions").value;
      forall k: string, text: string {
        FoldSays(Named(c, "dimension"), map[], k, text);
      }
    }
  }

  lemma MediaRuleSays(n: Node)
    ensures SaysMediaRule(n, ParseMediaRule(n))
  {
    hide Says, TextOf, SaysDimensions, SaysSegments, ParseDimensions, ParseSegments, ChildIn;
    forall tag: string, t ensures Says(n, tag, t) <==> t == TextOf(n, tag) { SaysIs(n, tag, t); }
    DimensionsSay(n);
    SegmentsSay(n);
  }

  lemma MediaSays(n: Node, tag: string)
    ensures SaysMedia(n, tag, ParseMedia(Child(n, tag)))
  {
    hide IsChild, Lacks, ChildIn, NamedIn, SaysMediaRule, ParseMediaRule;
    ChildIs(n, tag);
    if Child(n, tag).Some? {
      var ns := Named(Child(n, tag).value, "item");
      forall i | 0 <= i < |ns| ensures SaysMediaRule(ns[i], ParseMediaRule(ns[i])) { MediaRuleSays(ns[i]); }
    }
  }

  lemma ItemSays(n: Node)
    ensures SaysItem(n, ParseItem(n))
  {
    hide Says, TextOf, ParseColPrice, ParseColSegments, ParseMedia, ChildIn, SaysColumn, SaysMedia, KeepsSegments;
    forall tag: string, t ensures Says(n, tag, t) <==> t == TextOf(n, tag) { SaysIs(n, tag, t); }
    UnitsRead(n);
    ColumnSays(n, "input_per_m", UnitSegments(ParseItem(n), "token_in"));
    ColumnSays(n, "output_per_m", UnitSegments(ParseItem(n), "token_out"));
    ColumnSays(n, "cache_read_per_m", UnitSegments(ParseItem(n), "token_cache_read"));
    ColumnSays(n, "cache_write_per_m", UnitSegments(ParseItem(n), "token_cache_write"));
    MediaSays(n, "image");
    MediaSays(n, "video");
  }

  function KeptOf(segs: Option<Segs>): Option<Segs> {
    if KeepsSegments(segs) then segs else None
  }

  lemma UnitsRead(n: Node)
    ensures var item := ParseItem(n);
      && UnitSegments(item, "token_in") == KeptOf(ParseColSegments(Child(n, "input_per_m")))
      && UnitSegments(item, "token_out") == KeptOf(ParseColSegments(Child(n, "output_per_m")))
      && UnitSegments(item, "token_cache_read") == KeptOf(ParseColSegments(Child(n, "cache_read_per_m")))
      && UnitSegments(item, "token_cache_write") == KeptOf(ParseColSegments(Child(n, "cache_write_per_m")))
  {
    hide ParseColSegments, ChildIn, ParseColPrice, ParseMedia, TextOf;
    UnitsKept(ColSegments(n));
  }

  lemma UnitsKept(cols: seq<Option<Segs>>)
    requires |cols| == 4
    ensures var kept := SegmentMap(cols);
      && KeptFor(kept, "token_in") == KeptOf(cols[0]) && KeptFor(kept, "token_out") == KeptOf(cols[1])
      && KeptFor(kept, "token_cache_read") == KeptOf(cols[2]) && KeptFor(kept, "token_cache_write") == KeptOf(cols[3])
  {
    var m1, m2, m3, m4 := SegmentMapTo(cols, 1), SegmentMapTo(cols, 2), SegmentMapTo(cols, 3), SegmentMapTo(cols, 4);
    assert SegmentMapTo(cols, 0) == map[];
    assert |"token_in"| == 8 && |"token_out"| == 9 && |"token_cache_read"| == 16 && |"token_cache_write"| == 17;
    assert m1 == if KeepsSegments(cols[0]) then map["token_in" := cols[0].value] else map[];
    assert m2 == if KeepsSegments(cols[1]) then m1["token_out" := cols[1].value] else m1;
    assert m3 == if KeepsSegments(cols[2]) then m2["token_cache_read" := cols[2].value] else m2;
    assert m4 == if KeepsSegments(cols[3]) then m3["token_cache_write" := cols[3].value] else m3;
    assert SegmentMap(cols) == if m4 == map[] then None else Some(m4);
    hide SegmentMapTo, SegmentMap;
    assert "token_in" in m4 <==> KeepsSegments(cols[0]);
    assert "token_out" in m4 <==> KeepsSegments(cols[1]);
    assert "token_cache_read" in m4 <==> KeepsSegments(cols[2]);
    assert "token_cache_write" in m4 <==> KeepsSegments(cols[3]);
  }

  function KeptFor(kept: Option<map<string, Segs>>, unit: string): Option<Segs> {
    if kept.Some? && unit in kept.value then Some(kept.value[unit]) else None
  }

  /** The first child of that name is a bare number. */
  ghost predicate Bare(n: Node, tag: string, d: Decimal) {
    exists c :: IsChild(n, tag, c) && c.children == [] && Trim(c.text) == DecText(d)
  }

  lemma BareColumn(n: Node, tag: string, d: Decimal)
    requires Bare(n, tag, d)
    ensures ParseColPrice(Child(n, tag)) == Some(d) && ParseColSegments(Child(n, tag)) == None
  {
    var c :| IsChild(n, tag, c) && c.children == [] && Trim(c.text) == DecText(d);
    ChildIs(n, tag);
    DecReadsBack(d);
  }

  /** Whatever else a price node holds, and in whatever order: its labelled numbers are read as what they are labelled. */
  lemma LabelledPrices(n: Node, input: Decimal, output: Decimal, read: Decimal, write: Decimal)
    requires Bare(n, "input_per_m", input) && Bare(n, "output_per_m", output)
    requires Bare(n, "cache_read_per_m", read) && Bare(n, "cache_write_per_m", write)
    ensures var item := ParseItem(n);
      && item.inputPerM == Some(input) && item.outputPerM == Some(output)
      && item.cacheReadPerM == Some(read) && item.cacheWritePerM == Some(write) && item.segments == None
  {
    hide Bare, ParseColPrice, ParseColSegments, ChildIn, TextOf, ParseMedia;
    BareColumn(n, "input_per_m", input);
    BareColumn(n, "output_per_m", output);
    BareColumn(n, "cache_read_per_m", read);
    BareColumn(n, "cache_write_per_m", write);
    NoSegmentsKept(ColSegments(n));
  }

  lemma NoSegmentsKept(cols: seq<Option<Segs>>)
    requires |cols| == 4 && forall i :: 0 <= i < 4 ==> cols[i] == None
    ensures SegmentMap(cols) == None
  {
    assert SegmentMapTo(cols, 0) == map[];
    assert SegmentMapTo(cols, 1) == map[] && SegmentMapTo(cols, 2) == map[] && SegmentMapTo(cols, 3) == map[];
  }
}
