/**
 Export and import of price rules (src/admin/pricing.rs:614-721, 897-1139): rules grouped into items,
 items expanded into rows, rows checked before they are stored.
 */
module PriceTransfer {
  import opened Wrappers
  import opened Strings
  import opened Sorting
  import opened Numerals
  import opened Pricing
  import opened Transfer
  import J = Json

  /** (upstream id, model, currency). */
  type Key = (nat, string, string)

  function KeyOf(r: Rule): Key {
    (r.upstream, r.model, r.currency)
  }

  // -------------------------------------------------------------------- export

  datatype ItemAgg = ItemAgg(
    model: string,
    upstream: string,
    currency: string,
    inputPerM: Option<Decimal>,
    outputPerM: Option<Decimal>,
    cacheReadPerM: Option<Decimal>,
    cacheWritePerM: Option<Decimal>,
    segments: map<string, Segs>,
    image: seq<MediaRule>,
    video: seq<MediaRule>)

  function NameOf(names: map<nat, string>, upstream: nat): string {
    if upstream in names then names[upstream] else ""
  }

  function EmptyItem(names: map<nat, string>, key: Key): ItemAgg {
    ItemAgg(key.1, NameOf(names, key.0), key.2, None, None, None, None, map[], [], [])
  }

  /** media_export_value. */
  function MediaExport(r: Rule): MediaRule {
    MediaRule(Some(r.basePrice), Some(r.dimensionKey), r.dimensions, r.segments)
  }

  /** One row added to its item. */
  function AddRow(agg: ItemAgg, r: Rule): ItemAgg {
    var priced :=
      if r.unit == "token_in" then agg.(inputPerM := Some(r.basePrice))
      else if r.unit == "token_out" then agg.(outputPerM := Some(r.basePrice))
      else if r.unit == "token_cache_read" then agg.(cacheReadPerM := Some(r.basePrice))
      else if r.unit == "token_cache_write" then agg.(cacheWritePerM := Some(r.basePrice))
      else if r.unit == "image" then agg.(image := agg.image + [MediaExport(r)])
      else if r.unit == "video_second" then agg.(video := agg.video + [MediaExport(r)])
      else agg;
    if r.unit in COL_UNITS && r.segments.Some? then priced.(segments := priced.segments[r.unit := r.segments.value])
    else priced
  }

  /** The rows of a key, added in order. */
  function Agg(rules: seq<Rule>, names: map<nat, string>, key: Key): ItemAgg {
    if rules == [] then EmptyItem(names, key)
    else
      var n := |rules| - 1;
      var agg := Agg(rules[..n], names, key);
      if KeyOf(rules[n]) == key then AddRow(agg, rules[n]) else agg
  }

  function Finish(agg: ItemAgg): Item {
    Item(agg.model, agg.upstream, agg.currency, agg.inputPerM, agg.outputPerM, agg.cacheReadPerM, agg.cacheWritePerM,
         if agg.segments == map[] then None else Some(agg.segments),
         if agg.image == [] then None else Some(agg.image),
         if agg.video == [] then None else Some(agg.video))
  }

  /** The exported item of a key. */
  function ItemFor(rules: seq<Rule>, names: map<nat, string>, key: Key): Item {
    Finish(Agg(rules, names, key))
  }

  predicate StrLe(a: string, b: string) {
    a == b || Less(a, b)
  }

  predicate ItemLe(a: Item, b: Item) {
    if a.upstream != b.upstream then Less(a.upstream, b.upstream)
    else if a.model != b.model then Less(a.model, b.model)
    else StrLe(a.currency, b.currency)
  }

  lemma ItemOrder()
    ensures TotalPreorder(ItemLe)
  {
    forall x, y ensures ItemLe(x, y) || ItemLe(y, x) {
      LessTotal(x.upstream, y.upstream);
      LessTotal(x.model, y.model);
      LessTotal(x.currency, y.currency);
    }
    forall x, y, z | ItemLe(x, y) && ItemLe(y, z) ensures ItemLe(x, z) {
      StringOrder(x.upstream, y.upstream, z.upstream);
      StringOrder(x.model, y.model, z.model);
      StringOrder(x.currency, y.currency, z.currency);
    }
  }

  lemma StringOrder(a: string, b: string, c: string)
    ensures Less(a, b) && Less(b, c) ==> Less(a, c) && a != c
  {
    if Less(a, b) && Less(b, c) {
      LessTransitive(a, b, c);
      LessIrreflexive(a);
    }
  }

  ghost predicate HasKey(rules: seq<Rule>, k: Key) {
    exists r :: r in rules && KeyOf(r) == k
  }

  lemma HasKeyNext(rules: seq<Rule>, i: nat, k: Key)
    requires i < |rules|
    ensures HasKey(rules[..i + 1], k) <==> HasKey(rules[..i], k) || KeyOf(rules[i]) == k
  {
    assert rules[..i + 1] == rules[..i] + [rules[i]];
    if r :| r in rules[..i] && KeyOf(r) == k {
      assert r in rules[..i + 1];
    }
    assert rules[i] in rules[..i + 1];
  }

  /** `keys` names every (upstream, model, currency) of the rules once. */
  ghost predicate Enumerates(keys: seq<Key>, rules: seq<Rule>) {
    NoRepeats(keys) && forall k :: k in keys <==> HasKey(rules, k)
  }

  /** The items of a key list. */
  function ItemsFor(rules: seq<Rule>, names: map<nat, string>, keys: seq<Key>): seq<Item> {
    Map(keys, (k: Key) => ItemFor(rules, names, k))
  }

  /** The first loop of build_export_items: rows grouped in a map. */
  method GroupRows(rules: seq<Rule>, names: map<nat, string>) returns (groups: map<Key, ItemAgg>)
    ensures forall k :: k in groups <==> HasKey(rules, k)
    ensures forall k :: k in groups ==> groups[k] == Agg(rules, names, k)
  {
    groups := map[];
    for i := 0 to |rules|
      invariant forall k :: k in groups <==> HasKey(rules[..i], k)
      invariant forall k :: k in groups ==> groups[k] == Agg(rules[..i], names, k)
      invariant forall k :: k !in groups ==> Agg(rules[..i], names, k) == EmptyItem(names, k)
    {
      hide AddRow, EmptyItem, HasKey;
      var row := rules[i];
      var key := KeyOf(row);
      assert rules[..i + 1][..i] == rules[..i];
      var agg := if key in groups then groups[key] else EmptyItem(names, key);
      groups := groups[key := AddRow(agg, row)];
      forall k ensures HasKey(rules[..i + 1], k) <==> HasKey(rules[..i], k) || key == k {
        HasKeyNext(rules, i, k);
      }
    }
    assert rules[..|rules|] == rules;
  }

  /** build_export_items: one item per key, in (upstream, model, currency) order. */
  method BuildExportItems(rules: seq<Rule>, names: map<nat, string>) returns (items: seq<Item>, ghost keys: seq<Key>)
    ensures Enumerates(keys, rules)
    ensures multiset(items) == multiset(ItemsFor(rules, names, keys))
    ensures SortedBy(items, ItemLe) && InOrder(items)
  {
    var groups := GroupRows(rules, names);
    items, keys := [], [];
    var rest := groups.Keys;
    while rest != {}
      invariant rest <= groups.Keys
      invariant NoRepeats(keys) && forall k :: k in keys <==> k in groups && k !in rest
      invariant items == ItemsFor(rules, names, keys)
    {
      hide ItemFor, Finish, Agg;
      var k :| k in rest;
      ItemForKey(rules, names, k);
      ItemsForNext(rules, names, keys, k);
      items := items + [Finish(groups[k])];
      keys := keys + [k];
      rest := rest - {k};
    }
    ItemOrder();
    items := Sort(items, ItemLe);
    forall i, j | 0 <= i < j < |items| ensures NotAfter(items[i], items[j]) {
      LeIsNotAfter(items[i], items[j]);
    }
  }

  /** By the name of the upstream, then by model, then by currency. */
  predicate NotAfter(a: Item, b: Item) {
    && !Less(b.upstream, a.upstream)
    && (a.upstream == b.upstream ==> !Less(b.model, a.model) && (a.model == b.model ==> !Less(b.currency, a.currency)))
  }

  predicate InOrder(items: seq<Item>) {
    forall i, j :: 0 <= i < j < |items| ==> NotAfter(items[i], items[j])
  }

  lemma LeIsNotAfter(a: Item, b: Item)
    ensures ItemLe(a, b) ==> NotAfter(a, b)
  {
    StringOrder(a.upstream, b.upstream, a.upstream);
    StringOrder(a.model, b.model, a.model);
    StringOrder(a.currency, b.currency, a.currency);
    LessIrreflexive(a.upstream);
    LessIrreflexive(a.model);
    LessIrreflexive(a.currency);
  }

  // --------------------------------------------------- what an exported item shows

  predicate IsRow(r: Rule, key: Key, unit: string) {
    (r.upstream, r.model, r.currency) == key && r.unit == unit
  }

  /** The base price of the last rule of the key and unit. */
  ghost predicate LastPrice(rules: seq<Rule>, key: Key, unit: string, price: Option<Decimal>) {
    match price
    case None => forall r :: r in rules ==> !IsRow(r, key, unit)
    case Some(p) =>
      exists i :: 0 <= i < |rules| && IsRow(rules[i], key, unit) && rules[i].basePrice == p
        && forall j :: i < j < |rules| ==> !IsRow(rules[j], key, unit)
  }

  lemma LastPriceNext(rules: seq<Rule>, key: Key, unit: string, price: Option<Decimal>)
    requires rules != [] && LastPrice(rules[..|rules| - 1], key, unit, price)
    ensures LastPrice(rules, key, unit, if IsRow(rules[|rules| - 1], key, unit) then Some(rules[|rules| - 1].basePrice) else price)
  {
    hide IsRow;
    var n := |rules| - 1;
    if !IsRow(rules[n], key, unit) {
      match price
      case None =>
        assert rules == rules[..n] + [rules[n]];
      case Some(p) =>
        var i :| 0 <= i < n && IsRow(rules[..n][i], key, unit) && rules[..n][i].basePrice == p
          && forall j :: i < j < n ==> !IsRow(rules[..n][j], key, unit);
        assert rules[i] == rules[..n][i];
        assert forall j :: i < j < n ==> rules[j] == rules[..n][j];
    }
  }

  /** The rules of the key and unit, each whole. */
  function MediaShown(rules: seq<Rule>, key: Key, unit: string): seq<MediaRule> {
    if rules == [] then []
    else
      var r := rules[|rules| - 1];
      MediaShown(rules[..|rules| - 1], key, unit)
      + if IsRow(r, key, unit) then [MediaRule(Some(r.basePrice), Some(r.dimensionKey), r.dimensions, r.segments)] else []
  }

  ghost predicate Shows(rules: seq<Rule>, names: map<nat, string>, key: Key, item: Item) {
    && item.model == key.1 && item.currency == key.2
    && (if key.0 in names then item.upstream == names[key.0] else item.upstream == "")
    && LastPrice(rules, key, "token_in", item.inputPerM)
    && LastPrice(rules, key, "token_out", item.outputPerM)
    && LastPrice(rules, key, "token_cache_read", item.cacheReadPerM)
    && LastPrice(rules, key, "token_cache_write", item.cacheWritePerM)
    && item.image.UnwrapOr([]) == MediaShown(rules, key, "image")
    && item.video.UnwrapOr([]) == MediaShown(rules, key, "video_second")
  }

  /** What adding a row changes. */
  lemma AddRowFields(agg: ItemAgg, r: Rule)
    ensures var now := AddRow(agg, r);
      && (now.model, now.upstream, now.currency) == (agg.model, agg.upstream, agg.currency)
      && now.inputPerM == (if r.unit == "token_in" then Some(r.basePrice) else agg.inputPerM)
      && now.outputPerM == (if r.unit == "token_out" then Some(r.basePrice) else agg.outputPerM)
      && now.cacheReadPerM == (if r.unit == "token_cache_read" then Some(r.basePrice) else agg.cacheReadPerM)
      && now.cacheWritePerM == (if r.unit == "token_cache_write" then Some(r.basePrice) else agg.cacheWritePerM)
      && now.image == agg.image + (if r.unit == "image" then [MediaRule(Some(r.basePrice), Some(r.dimensionKey), r.dimensions, r.segments)] else [])
      && now.video == agg.video + (if r.unit == "video_second" then [MediaRule(Some(r.basePrice), Some(r.dimensionKey), r.dimensions, r.segments)] else [])
  {
    assert agg.image + [] == agg.image && agg.video + [] == agg.video;
  }

  ghost predicate AggShows(rules: seq<Rule>, key: Key, agg: ItemAgg) {
    && LastPrice(rules, key, "token_in", agg.inputPerM)
    && LastPrice(rules, key, "token_out", agg.outputPerM)
    && LastPrice(rules, key, "token_cache_read", agg.cacheReadPerM)
    && LastPrice(rules, key, "token_cache_write", agg.cacheWritePerM)
    && agg.image == MediaShown(rules, key, "image")
    && agg.video == MediaShown(rules, key, "video_second")
  }

  lemma {:induction false} RowsShow(rules: seq<Rule>, names: map<nat, string>, key: Key)
    ensures AggShows(rules, key, Agg(rules, names, key))
    ensures var agg, empty := Agg(rules, names, key), EmptyItem(names, key);
      (agg.model, agg.upstream, agg.currency) == (empty.model, empty.upstream, empty.currency)
  {
    if rules == [] {
      NothingShown(key);
    } else {
      hide LastPrice, AddRow, EmptyItem;
      var n := |rules| - 1;
      RowsShow(rules[..n], names, key);
      var before := Agg(rules[..n], names, key);
      AddRowFields(before, rules[n]);
      LastPriceNext(rules, key, "token_in", before.inputPerM);
      LastPriceNext(rules, key, "token_out", before.outputPerM);
      LastPriceNext(rules, key, "token_cache_read", before.cacheReadPerM);
      LastPriceNext(rules, key, "token_cache_write", before.cacheWritePerM);
    }
  }

  /** An exported item shows, column by column, what its rules say. */
  lemma ItemShows(rules: seq<Rule>, names: map<nat, string>, key: Key)
    ensures Shows(rules, names, key, ItemFor(rules, names, key))
  {
    hide LastPrice, Agg, MediaShown;
    RowsShow(rules, names, key);
  }

  lemma NothingShown(key: Key)
    ensures forall unit :: LastPrice([], key, unit, None)
  {
  }

  lemma ItemForKey(rules: seq<Rule>, names: map<nat, string>, k: Key)
    ensures ItemFor(rules, names, k) == Finish(Agg(rules, names, k))
  {
  }

  lemma ItemsForNext(rules: seq<Rule>, names: map<nat, string>, keys: seq<Key>, k: Key)
    ensures ItemsFor(rules, names, keys + [k]) == ItemsFor(rules, names, keys) + [ItemFor(rules, names, k)]
  {
    hide ItemFor;
  }

  // -------------------------------------------------------------------- import

  datatype ImportRow = ImportRow(
    upstream: nat,
    model: string,
    unit: string,
    currency: string,
    basePrice: Decimal,
    dimensions: Option<Json>,
    dimensionKey: string,
    segments: Option<Segs>,
    contextBasis: string)

  function MakeRow(upstream: nat, model: string, unit: string, currency: string, price: Decimal,
                   dimensions: Option<Json>, segments: Option<Segs>): ImportRow
  {
    ImportRow(upstream, model, unit, currency, price, dimensions, NormalizeDimensionKey(dimensions), segments, "prompt_tokens")
  }

  function ColRows(item: Item, upstream: nat, col: nat): seq<ImportRow>
    requires col < 4
  {
    if ColPrice(item, col).None? then []
    else [MakeRow(upstream, item.model, COL_UNITS[col], item.currency, ColPrice(item, col).value, None,
                  UnitSegments(item, COL_UNITS[col]))]
  }

  function MediaRow(item: Item, upstream: nat, unit: string, m: MediaRule): ImportRow {
    MakeRow(upstream, item.model, unit, item.currency, m.basePrice.UnwrapOr(ZERO), m.dimensions, m.segments)
  }

  function MediaRows(item: Item, upstream: nat, unit: string, rules: seq<MediaRule>): seq<ImportRow> {
    Map(rules, (m: MediaRule) => MediaRow(item, upstream, unit, m))
  }

  function ColRowsTo(item: Item, upstream: nat, n: nat): seq<ImportRow>
    requires n <= 4
  {
    if n == 0 then [] else ColRowsTo(item, upstream, n - 1) + ColRows(item, upstream, n - 1)
  }

  /** expand_item as a value: the priced token columns, then the image and the video rules. */
  function Expansion(item: Item, upstream: nat): seq<ImportRow> {
    ColRowsTo(item, upstream, 4)
    + MediaRows(item, upstream, "image", item.image.UnwrapOr([]))
    + MediaRows(item, upstream, "video_second", item.video.UnwrapOr([]))
  }

  /** expand_item. */
  method ExpandItem(item: Item, upstream: nat) returns (out: seq<ImportRow>)
    ensures out == Expansion(item, upstream) == RowsOf(item, upstream)
  {
    ExpansionIsRows(item, upstream);
    out := [];
    for col := 0 to 4
      invariant out == ColRowsTo(item, upstream, col)
    {
      match ColPrice(item, col) {
        case Some(p) =>
          out := out + [MakeRow(upstream, item.model, COL_UNITS[col], item.currency, p, None, UnitSegments(item, COL_UNITS[col]))];
        case None =>
      }
    }
    ghost var columns := out;
    var images := item.image.UnwrapOr([]);
    for i := 0 to |images|
      invariant out == columns + MediaRows(item, upstream, "image", images[..i])
    {
      hide MediaRow;
      MediaRowsNext(item, upstream, "image", images, i);
      ConcatAssoc(columns, MediaRows(item, upstream, "image", images[..i]), [MediaRow(item, upstream, "image", images[i])]);
      out := out + [MediaRow(item, upstream, "image", images[i])];
    }
    assert images[..|images|] == images;
    ghost var withImages := out;
    var videos := item.video.UnwrapOr([]);
    for i := 0 to |videos|
      invariant out == withImages + MediaRows(item, upstream, "video_second", videos[..i])
    {
      hide MediaRow;
      MediaRowsNext(item, upstream, "video_second", videos, i);
      ConcatAssoc(withImages, MediaRows(item, upstream, "video_second", videos[..i]),
                  [MediaRow(item, upstream, "video_second", videos[i])]);
      out := out + [MediaRow(item, upstream, "video_second", videos[i])];
    }
    assert videos[..|videos|] == videos;
  }

  /** The row of a token price, for prompts of any length. */
  function TokenRow(item: Item, upstream: nat, unit: string, price: Option<Decimal>): seq<ImportRow> {
    if price.None? then []
    else [ImportRow(upstream, item.model, unit, item.currency, price.value, None, "",
                    if item.segments.Some? && unit in item.segments.value then Some(item.segments.value[unit]) else None,
                    "prompt_tokens")]
  }

  /** The row of an image or video price: zero when the file names none, and its dimensions are its key. */
  function PictureRow(item: Item, upstream: nat, unit: string, m: MediaRule): ImportRow {
    ImportRow(upstream, item.model, unit, item.currency, if m.basePrice.Some? then m.basePrice.value else Dec(0, 0),
              m.dimensions, NormalizeDimensionKey(m.dimensions), m.segments, "prompt_tokens")
  }

  /** The rows an item stands for. */
  function RowsOf(item: Item, upstream: nat): seq<ImportRow> {
    TokenRow(item, upstream, "token_in", item.inputPerM)
    + TokenRow(item, upstream, "token_out", item.outputPerM)
    + TokenRow(item, upstream, "token_cache_read", item.cacheReadPerM)
    + TokenRow(item, upstream, "token_cache_write", item.cacheWritePerM)
    + Map(item.image.UnwrapOr([]), (m: MediaRule) => PictureRow(item, upstream, "image", m))
    + Map(item.video.UnwrapOr([]), (m: MediaRule) => PictureRow(item, upstream, "video_second", m))
  }

  lemma ExpansionIsRows(item: Item, upstream: nat)
    ensures Expansion(item, upstream) == RowsOf(item, upstream)
  {
    var images, videos := item.image.UnwrapOr([]), item.video.UnwrapOr([]);
    assert MediaRows(item, upstream, "image", images) == Map(images, (m: MediaRule) => PictureRow(item, upstream, "image", m));
    assert MediaRows(item, upstream, "video_second", videos)
        == Map(videos, (m: MediaRule) => PictureRow(item, upstream, "video_second", m));
    ColumnRows(item, upstream);
  }

  lemma ColumnRows(item: Item, upstream: nat)
    ensures ColRowsTo(item, upstream, 4)
         == TokenRow(item, upstream, "token_in", item.inputPerM) + TokenRow(item, upstream, "token_out", item.outputPerM)
            + TokenRow(item, upstream, "token_cache_read", item.cacheReadPerM)
            + TokenRow(item, upstream, "token_cache_write", item.cacheWritePerM)
  {
    assert ColRows(item, upstream, 0) == TokenRow(item, upstream, "token_in", item.inputPerM);
    assert ColRows(item, upstream, 1) == TokenRow(item, upstream, "token_out", item.outputPerM);
    assert ColRows(item, upstream, 2) == TokenRow(item, upstream, "token_cache_read", item.cacheReadPerM);
    assert ColRows(item, upstream, 3) == TokenRow(item, upstream, "token_cache_write", item.cacheWritePerM);
    hide ColRows, TokenRow;
    assert ColRowsTo(item, upstream, 1) == ColRows(item, upstream, 0);
    assert ColRowsTo(item, upstream, 2) == ColRowsTo(item, upstream, 1) + ColRows(item, upstream, 1);
    assert ColRowsTo(item, upstream, 3) == ColRowsTo(item, upstream, 2) + ColRows(item, upstream, 2);
  }

  lemma MediaRowsNext(item: Item, upstream: nat, unit: string, rules: seq<MediaRule>, i: nat)
    requires i < |rules|
    ensures MediaRows(item, upstream, unit, rules[..i + 1])
         == MediaRows(item, upstream, unit, rules[..i]) + [MediaRow(item, upstream, unit, rules[i])]
  {
    hide MediaRow;
  }

  /** validate_row. */
  predicate ValidRow(row: ImportRow) {
    row.unit in UNITS
    && (row.currency == "CNY" || row.currency == "USD")
    && row.basePrice.mantissa >= 0
    && (row.dimensions.Some? ==> row.dimensions.value.Null? || row.dimensions.value.Obj?)
    && (row.segments.Some? ==> row.segments.value.Readable? || row.segments.value.isArray)
  }

  /** A price is negative exactly when its mantissa is. */
  lemma NegativePrice(d: Dec)
    ensures Value(d) < 0.0 <==> d.mantissa < 0
  {
    var p := Pow10(d.scale) as real;
    assert Value(d) * p == d.mantissa as real;
    if Value(d) >= 0.0 {
      Sign(Value(d), p);
    } else {
      Sign(-Value(d), p);
      assert (-Value(d)) * p == -(Value(d) * p);
    }
  }

  lemma Sign(x: real, p: real)
    requires x >= 0.0 && p > 0.0
    ensures x * p >= 0.0
    ensures x > 0.0 ==> x * p > 0.0
  {
  }

  type IdemKey = (nat, string, string, string, string)

  function IdemKeyOf(row: ImportRow): IdemKey {
    (row.upstream, row.model, row.unit, row.currency, row.dimensionKey)
  }

  datatype Reason = UnknownUpstream | NoPrices | InvalidRow

  datatype Verdict = Fail(reason: Reason) | Known | Import(rows: seq<ImportRow>)

  predicate AllSeen(rows: seq<ImportRow>, seen: set<IdemKey>) {
    forall i :: 0 <= i < |rows| ==> IdemKeyOf(rows[i]) in seen
  }

  /** What the import does with one item: fail, skip when every key was seen, or import it whole. */
  function Judge(item: Item, ids: map<string, nat>, seen: set<IdemKey>): Verdict {
    if item.upstream !in ids then Fail(UnknownUpstream)
    else
      var rows := Expansion(item, ids[item.upstream]);
      if rows == [] then Fail(NoPrices)
      else if exists i :: 0 <= i < |rows| && !ValidRow(rows[i]) then Fail(InvalidRow)
      else if AllSeen(rows, seen) then Known
      else Import(rows)
  }

  function KeysOfRows(rows: seq<ImportRow>): set<IdemKey> {
    set r | r in rows :: IdemKeyOf(r)
  }

  datatype Report = Report(rows: seq<ImportRow>, seen: set<IdemKey>, failed: seq<(nat, Reason)>, succeeded: nat, skipped: nat)

  function Account(report: Report, index: nat, verdict: Verdict): Report {
    match verdict
    case Fail(reason) => report.(failed := report.failed + [(index, reason)])
    case Known => report.(skipped := report.skipped + 1)
    case Import(rows) =>
      report.(rows := report.rows + rows, seen := report.seen + KeysOfRows(rows), succeeded := report.succeeded + 1)
  }

  /** The report on the first `n` items. */
  function Analysis(items: seq<Item>, ids: map<string, nat>, n: nat): Report
    requires n <= |items|
  {
    if n == 0 then Report([], {}, [], 0, 0)
    else
      var report := Analysis(items, ids, n - 1);
      Account(report, n - 1, Judge(items[n - 1], ids, report.seen))
  }

  /** The checks of one item: rows are validated in order until one is refused. */
  method Examine(item: Item, ids: map<string, nat>, seen: set<IdemKey>) returns (verdict: Verdict)
    ensures verdict == Judge(item, ids, seen)
  {
    hide Expansion, ValidRow, RowsOf, IdemKeyOf;
    if item.upstream !in ids {
      return Fail(UnknownUpstream);
    }
    var frags := ExpandItem(item, ids[item.upstream]);
    if frags == [] {
      return Fail(NoPrices);
    }
    for i := 0 to |frags|
      invariant forall j :: 0 <= j < i ==> ValidRow(frags[j])
    {
      if !ValidRow(frags[i]) {
        return Fail(InvalidRow);
      }
    }
    var known := true;
    for i := 0 to |frags|
      invariant known <==> forall j :: 0 <= j < i ==> IdemKeyOf(frags[j]) in seen
    {
      if IdemKeyOf(frags[i]) !in seen {
        known := false;
      }
    }
    verdict := if known then Known else Import(frags);
  }

  method Remember(known: set<IdemKey>, rows: seq<ImportRow>) returns (seen: set<IdemKey>)
    ensures seen == known + KeysOfRows(rows)
  {
    hide IdemKeyOf;
    seen := known;
    for i := 0 to |rows|
      invariant seen == known + KeysOfRows(rows[..i])
    {
      assert rows[..i + 1] == rows[..i] + [rows[i]];
      seen := seen + {IdemKeyOf(rows[i])};
    }
    assert rows[..|rows|] == rows;
  }

  /** analyze_import. */
  method AnalyzeImport(items: seq<Item>, ids: map<string, nat>) returns (report: Report)
    ensures report == Analysis(items, ids, |items|)
  {
    report := Report([], {}, [], 0, 0);
    for idx := 0 to |items|
      invariant report == Analysis(items, ids, idx)
    {
      hide Judge, KeysOfRows;
      var verdict := Examine(items[idx], ids, report.seen);
      match verdict {
        case Fail(reason) => report := report.(failed := report.failed + [(idx, reason)]);
        case Known => report := report.(skipped := report.skipped + 1);
        case Import(valid) =>
          var seen := Remember(report.seen, valid);
          report := report.(rows := report.rows + valid, seen := seen, succeeded := report.succeeded + 1);
      }
    }
  }

  /** Every item is counted once, every row imported is valid and its key remembered, and failures name
      items in order. */
  lemma {:induction false} AnalysisAccounts(items: seq<Item>, ids: map<string, nat>, n: nat)
    requires n <= |items|
    ensures var r := Analysis(items, ids, n);
      && r.succeeded + r.skipped + |r.failed| == n
      && (forall row :: row in r.rows ==> ValidRow(row) && IdemKeyOf(row) in r.seen)
      && (forall k :: k in r.seen ==> exists row :: row in r.rows && IdemKeyOf(row) == k)
      && (forall i :: 0 <= i < |r.failed| ==> r.failed[i].0 < n)
      && (forall i, j :: 0 <= i < j < |r.failed| ==> r.failed[i].0 < r.failed[j].0)
  {
    hide ValidRow;
    if n > 0 {
      AnalysisAccounts(items, ids, n - 1);
      var before, after := Analysis(items, ids, n - 1), Analysis(items, ids, n);
      var verdict := Judge(items[n - 1], ids, before.seen);
      if verdict.Import? {
        assert forall i :: 0 <= i < |verdict.rows| ==> ValidRow(verdict.rows[i]);
        forall k | k in after.seen ensures exists row :: row in after.rows && IdemKeyOf(row) == k {
          if k in before.seen {
            var row :| row in before.rows && IdemKeyOf(row) == k;
            assert row in after.rows;
          } else {
            var row :| row in verdict.rows && IdemKeyOf(row) == k;
            assert row in after.rows;
          }
        }
      }
    }
  }

  // ------------------------------------------------------ what an import accepts

  /** A price of a known unit in CNY or USD, not negative; dimensions are an object, segments an array. */
  ghost predicate Acceptable(row: ImportRow) {
    && row.unit in ["token_in", "token_out", "token_cache_write", "token_cache_read", "image", "video_second"]
    && row.currency in ["CNY", "USD"]
    && Value(row.basePrice) >= 0.0
    && (row.dimensions == None || row.dimensions == Some(J.Null) || row.dimensions.value.Obj?)
    && row.segments != Some(Unreadable(false))
  }

  predicate SamePlace(a: ImportRow, b: ImportRow) {
    a.upstream == b.upstream && a.model == b.model && a.unit == b.unit && a.currency == b.currency
    && a.dimensionKey == b.dimensionKey
  }

  lemma ValidIsAcceptable(row: ImportRow)
    ensures ValidRow(row) <==> Acceptable(row)
  {
    hide Value;
    NegativePrice(row.basePrice);
  }

  /** What becomes of item n: it fails when its upstream is unknown, when it has no prices, or when a row of it is
      not acceptable; it is skipped exactly when all its rows are where earlier ones of this import already stand;
      else its rows are imported, all of them. */
  lemma ItemIsJudged(items: seq<Item>, ids: map<string, nat>, n: nat)
    requires n < |items|
    ensures var item, before, after := items[n], Analysis(items, ids, n), Analysis(items, ids, n + 1);
      if item.upstream !in ids then after == before.(failed := before.failed + [(n, UnknownUpstream)])
      else
        var rows := RowsOf(item, ids[item.upstream]);
        if rows == [] then after == before.(failed := before.failed + [(n, NoPrices)])
        else if exists row :: row in rows && !Acceptable(row) then after == before.(failed := before.failed + [(n, InvalidRow)])
        else if forall row :: row in rows ==> exists earlier :: earlier in before.rows && SamePlace(row, earlier) then
          after == before.(skipped := before.skipped + 1)
        else
          && after.rows == before.rows + rows && after.succeeded == before.succeeded + 1
          && after.failed == before.failed && after.skipped == before.skipped
  {
    hide ValidRow, Acceptable, RowsOf, Expansion;
    var item, before := items[n], Analysis(items, ids, n);
    if item.upstream in ids {
      var rows := RowsOf(item, ids[item.upstream]);
      ExpansionIsRows(item, ids[item.upstream]);
      forall row ensures ValidRow(row) <==> Acceptable(row) { ValidIsAcceptable(row); }
      assert (exists row :: row in rows && !Acceptable(row)) <==> exists i :: 0 <= i < |rows| && !ValidRow(rows[i]);
      SeenMeansImported(items, ids, n);
      assert AllSeen(rows, before.seen) <==> forall row :: row in rows ==> IdemKeyOf(row) in before.seen;
    }
  }

  lemma SeenMeansImported(items: seq<Item>, ids: map<string, nat>, n: nat)
    requires n <= |items|
    ensures var r := Analysis(items, ids, n);
      forall row :: IdemKeyOf(row) in r.seen <==> exists earlier :: earlier in r.rows && SamePlace(row, earlier)
  {
    hide ValidRow;
    AnalysisAccounts(items, ids, n);
  }

  /** No import lets in a negative price, another currency or an unknown unit. */
  lemma ImportedRowsAreAcceptable(items: seq<Item>, ids: map<string, nat>, row: ImportRow)
    requires row in Analysis(items, ids, |items|).rows
    ensures Acceptable(row)
  {
    hide ValidRow, Acceptable;
    AnalysisAccounts(items, ids, |items|);
    ValidIsAcceptable(row);
  }
}
