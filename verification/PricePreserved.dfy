/**
 Exporting a price table and importing the file prices every request as before
 (src/admin/pricing.rs:630-707, 932-1139; src/billing/mod.rs:263-452).
 */
module PricePreserved {
  import opened Wrappers
  import opened Strings
  import opened Sorting
  import opened Numerals
  import opened Pricing
  import opened XmlText
  import opened Transfer
  import opened RoundTrip
  import opened NormalForm
  import opened PriceTransfer
  import Fx

  // ------------------------------------------------------ what can be exported

  /** Weekdays trimmed, window times free of line breaks and tabs; names may be anything. */
  predicate PlainSegments(segs: Option<Segs>) {
    segs.Some? && segs.value.Readable? ==>
      forall s :: s in segs.value.list ==> NormalSegment(s.(name := None))
  }

  predicate PlainDimensions(dims: Option<Json>) {
    dims.None? || dims.value.Null? || (dims.value.Obj? && CleanFields(dims.value.fields))
  }

  /** What the file can hold of a rule: a priced unit, token rules without dimensions, texts that survive
      XML, a known currency and a price that is not negative. */
  predicate Portable(r: Rule) {
    && r.unit in UNITS
    && (if r.unit in COL_UNITS then r.dimensionKey == ""
        else PlainDimensions(r.dimensions) && r.dimensionKey == NormalizeDimensionKey(r.dimensions))
    && PlainSegments(r.segments)
    && CleanText(r.model) && (r.currency == "CNY" || r.currency == "USD") && r.basePrice.mantissa >= 0
  }

  function SlotOf(r: Rule): IdemKey {
    (r.upstream, r.model, r.unit, r.currency, r.dimensionKey)
  }

  /** The table's unique key. */
  ghost predicate UniqueSlots(rules: seq<Rule>) {
    forall a, b :: a in rules && b in rules && SlotOf(a) == SlotOf(b) ==> a == b
  }

  /** Names are clean, and resolve back to their upstream. */
  ghost predicate NamesResolve(rules: seq<Rule>, names: map<nat, string>, ids: map<string, nat>) {
    forall r :: r in rules ==>
      r.upstream in names && CleanText(names[r.upstream]) && names[r.upstream] in ids && ids[names[r.upstream]] == r.upstream
  }

  ghost predicate PortableTable(rules: seq<Rule>, names: map<nat, string>, ids: map<string, nat>) {
    (forall r :: r in rules ==> Portable(r)) && UniqueSlots(rules) && NamesResolve(rules, names, ids)
  }

  // ----------------------------------------------------------- items of a key

  function AggPrice(agg: ItemAgg, col: nat): Option<Decimal>
    requires col < 4
  {
    if col == 0 then agg.inputPerM else if col == 1 then agg.outputPerM
    else if col == 2 then agg.cacheReadPerM else agg.cacheWritePerM
  }

  function AggSegments(agg: ItemAgg, col: nat): Option<Segs>
    requires col < 4
  {
    if COL_UNITS[col] in agg.segments then Some(agg.segments[COL_UNITS[col]]) else None
  }

  predicate InColumn(r: Rule, key: Key, col: nat)
    requires col < 4
  {
    KeyOf(r) == key && r.unit == COL_UNITS[col]
  }

  lemma AddRowColumn(agg: ItemAgg, r: Rule, col: nat)
    requires col < 4
    ensures AggPrice(AddRow(agg, r), col) == if r.unit == COL_UNITS[col] then Some(r.basePrice) else AggPrice(agg, col)
    ensures AggSegments(AddRow(agg, r), col)
         == if r.unit == COL_UNITS[col] && r.segments.Some? then r.segments else AggSegments(agg, col)
  {
  }

  /** A column holds the price and segments of the one rule it has, or nothing. */
  lemma {:induction false} ColumnOfKey(rules: seq<Rule>, names: map<nat, string>, key: Key, col: nat)
    requires col < 4
    requires forall a, b :: a in rules && b in rules && InColumn(a, key, col) && InColumn(b, key, col) ==> a == b
    ensures var agg := Agg(rules, names, key);
      && (forall r :: r in rules && InColumn(r, key, col) ==> AggPrice(agg, col) == Some(r.basePrice) && AggSegments(agg, col) == r.segments)
      && ((forall r :: r in rules ==> !InColumn(r, key, col)) ==> AggPrice(agg, col) == None && AggSegments(agg, col) == None)
  {
    if rules != [] {
      hide AddRow, AggPrice, AggSegments;
      var n := |rules| - 1;
      var r := rules[n];
      assert rules == rules[..n] + [r];
      ColumnOfKey(rules[..n], names, key, col);
      if KeyOf(r) == key {
        AddRowColumn(Agg(rules[..n], names, key), r, col);
        if InColumn(r, key, col) && exists a :: a in rules[..n] && InColumn(a, key, col) {
          var a :| a in rules[..n] && InColumn(a, key, col);
          assert a == r;
        }
      }
    } else {
      BlankColumn(names, key, col);
    }
  }

  lemma BlankColumn(names: map<nat, string>, key: Key, col: nat)
    requires col < 4
    ensures AggPrice(EmptyItem(names, key), col) == None && AggSegments(EmptyItem(names, key), col) == None
  {
  }

  predicate InMedia(r: Rule, key: Key, unit: string) {
    KeyOf(r) == key && r.unit == unit
  }

  function AggMedia(agg: ItemAgg, unit: string): seq<MediaRule> {
    if unit == "image" then agg.image else agg.video
  }

  predicate MediaUnit(unit: string) {
    unit == "image" || unit == "video_second"
  }

  lemma AddRowMedia(agg: ItemAgg, r: Rule, unit: string)
    requires MediaUnit(unit)
    ensures AggMedia(AddRow(agg, r), unit) == AggMedia(agg, unit) + if r.unit == unit then [MediaExport(r)] else []
    ensures AddRow(agg, r).model == agg.model && AddRow(agg, r).upstream == agg.upstream && AddRow(agg, r).currency == agg.currency
  {
  }

  /** The media rules of a key, and its three texts. */
  lemma {:induction false} MediaOfKey(rules: seq<Rule>, names: map<nat, string>, key: Key, unit: string)
    requires MediaUnit(unit)
    ensures var agg := Agg(rules, names, key);
      && (forall m :: m in AggMedia(agg, unit) <==> exists r :: r in rules && InMedia(r, key, unit) && m == MediaExport(r))
      && (agg.model, agg.upstream, agg.currency) == (key.1, NameOf(names, key.0), key.2)
  {
    if rules != [] {
      hide AddRow, AggMedia, MediaExport;
      var n := |rules| - 1;
      var r := rules[n];
      MediaOfKey(rules[..n], names, key, unit);
      assert rules == rules[..n] + [r];
      if KeyOf(r) == key {
        AddRowMedia(Agg(rules[..n], names, key), r, unit);
      }
      var agg, before := Agg(rules, names, key), Agg(rules[..n], names, key);
      forall m ensures m in AggMedia(agg, unit) <==> exists x :: x in rules && InMedia(x, key, unit) && m == MediaExport(x) {
        if m in AggMedia(before, unit) {
          var x :| x in rules[..n] && InMedia(x, key, unit) && m == MediaExport(x);
          assert x in rules;
        }
        if x :| x in rules && InMedia(x, key, unit) && m == MediaExport(x) {
          assert x in rules[..n] || x == r;
        }
        if InMedia(r, key, unit) && m == MediaExport(r) {
          assert r in rules;
        }
      }
    } else {
      BlankMedia(names, key, unit);
    }
  }

  lemma BlankMedia(names: map<nat, string>, key: Key, unit: string)
    ensures AggMedia(EmptyItem(names, key), unit) == []
  {
  }

  // ------------------------------------------------------------ rows of an item

  /** The row a rule comes back as. */
  function RowOf(r: Rule): ImportRow {
    ImportRow(r.upstream, r.model, r.unit, r.currency, r.basePrice,
              if r.unit in COL_UNITS then None else NormDimensions(r.dimensions),
              r.dimensionKey, NormSegs(r.segments), "prompt_tokens")
  }

  lemma DimensionsComeBack(r: Rule)
    requires Portable(r) && r.unit !in COL_UNITS
    ensures NormalizeDimensionKey(NormDimensions(r.dimensions)) == r.dimensionKey
  {
    hide CleanFields, NormDims;
    if r.dimensions.Some? && r.dimensions.value.Obj? && r.dimensions.value.fields != map[] {
      DimensionsFixed(r.dimensions);
    }
  }

  /** The segments of a unit in an imported item. */
  lemma UnitSegmentsOfNorm(item: Item, col: nat)
    requires col < 4
    ensures UnitSegments(NormItem(item), COL_UNITS[col]) == NormCol(item, col)
  {
    hide NormCol, NormMedia, NormText, KeptSegments;
    NormItemFields(item);
    var kept := KeptSegments(item);
    if NormCol(item, col).Some? {
      KeptEntries(item, COL_UNITS[col], NormCol(item, col).value);
      assert Keeps(item, COL_UNITS[col], NormCol(item, col).value);
    } else if kept.Some? && COL_UNITS[col] in kept.value {
      KeptEntries(item, COL_UNITS[col], kept.value[COL_UNITS[col]]);
      var c :| 0 <= c < 4 && COL_UNITS[c] == COL_UNITS[col] && NormCol(item, c) == Some(kept.value[COL_UNITS[col]]);
      UnitsDiffer(c, col);
    }
  }

  lemma ColPriceOfNorm(item: Item, col: nat)
    requires col < 4
    ensures ColPrice(NormItem(item), col) == ColPrice(item, col)
  {
    hide NormCol, NormMedia, NormText, SegmentMap;
  }

  lemma FinishColumn(agg: ItemAgg, col: nat)
    requires col < 4
    ensures ColPrice(Finish(agg), col) == AggPrice(agg, col)
    ensures UnitSegments(Finish(agg), COL_UNITS[col]) == AggSegments(agg, col)
  {
  }

  /** The item of a key as it is read back from the file. */
  function Returned(rules: seq<Rule>, names: map<nat, string>, key: Key): Item {
    NormItem(ItemFor(rules, names, key))
  }

  ghost predicate KeyOk(rules: seq<Rule>, names: map<nat, string>, key: Key) {
    && (forall r :: r in rules ==> Portable(r)) && UniqueSlots(rules)
    && key.0 in names && CleanText(names[key.0]) && CleanText(key.1) && CleanText(key.2)
  }

  lemma TextsComeBack(rules: seq<Rule>, names: map<nat, string>, key: Key)
    requires KeyOk(rules, names, key)
    ensures var item := Returned(rules, names, key);
      item.model == key.1 && item.upstream == names[key.0] && item.currency == key.2
  {
    hide CleanText, NormText, NormMedia, NormCol, SegmentMap, Portable, AggMedia;
    MediaOfKey(rules, names, key, "image");
    NormTextIsClean(key.1);
    NormTextIsClean(names[key.0]);
    NormTextIsClean(key.2);
  }

  /** The rows of a column. */
  lemma ColumnRows(rules: seq<Rule>, names: map<nat, string>, key: Key, col: nat, row: ImportRow)
    requires col < 4 && KeyOk(rules, names, key)
    ensures row in ColRows(Returned(rules, names, key), key.0, col)
       <==> exists r :: r in rules && InColumn(r, key, col) && row == RowOf(r)
  {
    hide CleanText, Portable, NormItem, NormSegs, ColPrice, UnitSegments, Finish, Agg, AggPrice, AggSegments;
    var item, back := ItemFor(rules, names, key), Returned(rules, names, key);
    TextsComeBack(rules, names, key);
    ColPriceOfNorm(item, col);
    UnitSegmentsOfNorm(item, col);
    FinishColumn(Agg(rules, names, key), col);
    OneRulePerColumn(rules, names, key, col);
    ColumnOfKey(rules, names, key, col);
    forall r | r in rules && InColumn(r, key, col) ensures r.dimensionKey == "" { ColumnKeyIsEmpty(r, col); }
    EmptyKey();
  }

  lemma EmptyKey()
    ensures NormalizeDimensionKey(None) == ""
  {
  }

  lemma ColumnKeyIsEmpty(r: Rule, col: nat)
    requires col < 4 && Portable(r) && r.unit == COL_UNITS[col]
    ensures r.dimensionKey == ""
  {
  }

  lemma OneRulePerColumn(rules: seq<Rule>, names: map<nat, string>, key: Key, col: nat)
    requires col < 4 && KeyOk(rules, names, key)
    ensures forall a, b :: a in rules && b in rules && InColumn(a, key, col) && InColumn(b, key, col) ==> a == b
  {
    hide Portable;
    forall a, b | a in rules && b in rules && InColumn(a, key, col) && InColumn(b, key, col) ensures a == b {
      ColumnKeyIsEmpty(a, col);
      ColumnKeyIsEmpty(b, col);
      assert SlotOf(a) == SlotOf(b);
    }
  }

  function MediaOf(item: Item, unit: string): seq<MediaRule> {
    if unit == "image" then item.image.UnwrapOr([]) else item.video.UnwrapOr([])
  }

  lemma MediaOfNorm(agg: ItemAgg, unit: string, m: MediaRule)
    requires MediaUnit(unit)
    ensures m in MediaOf(NormItem(Finish(agg)), unit) <==> exists x :: x in AggMedia(agg, unit) && m == NormMediaRule(x)
  {
    hide NormMediaRule, NormCol, NormText, SegmentMap;
    var list, back := AggMedia(agg, unit), MediaOf(NormItem(Finish(agg)), unit);
    assert back == Map(list, NormMediaRule);
    if m in back {
      var i :| 0 <= i < |back| && back[i] == m;
      assert list[i] in list && m == NormMediaRule(list[i]);
    }
    if x :| x in list && m == NormMediaRule(x) {
      var i :| 0 <= i < |list| && list[i] == x;
      assert back[i] == m;
    }
  }

  lemma MediaRowIsRowOf(item: Item, r: Rule)
    requires Portable(r) && r.unit !in COL_UNITS && item.model == r.model && item.currency == r.currency
    ensures MediaRow(item, r.upstream, r.unit, NormMediaRule(MediaExport(r))) == RowOf(r)
  {
    hide Portable, NormalizeDimensionKey, NormDimensions, NormSegs, NormText;
    DimensionsComeBack(r);
  }

  lemma MediaIsNotAColumn(unit: string)
    requires MediaUnit(unit)
    ensures unit !in COL_UNITS
  {
  }

  /** The rows of a media node. */
  lemma MediaRowsOf(rules: seq<Rule>, names: map<nat, string>, key: Key, unit: string, row: ImportRow)
    requires MediaUnit(unit) && KeyOk(rules, names, key)
    ensures row in MediaRows(Returned(rules, names, key), key.0, unit, MediaOf(Returned(rules, names, key), unit))
       <==> exists r :: r in rules && InMedia(r, key, unit) && row == RowOf(r)
  {
    hide CleanText, Portable, NormItem, Finish, Agg, AggMedia, MediaOf, MediaRow, NormMediaRule, MediaExport, RowOf, MediaUnit;
    var agg, back := Agg(rules, names, key), Returned(rules, names, key);
    var list := MediaOf(back, unit);
    ReturnedIs(rules, names, key);
    TextsComeBack(rules, names, key);
    MediaOfKey(rules, names, key, unit);
    MediaIsNotAColumn(unit);
    if row in MediaRows(back, key.0, unit, list) {
      var i :| 0 <= i < |list| && MediaRows(back, key.0, unit, list)[i] == row;
      var m := list[i];
      MediaOfNorm(agg, unit, m);
      assert m in list;
      var x :| x in AggMedia(agg, unit) && m == NormMediaRule(x);
      var r :| r in rules && InMedia(r, key, unit) && x == MediaExport(r);
      MediaRowIsRowOf(back, r);
    }
    if r :| r in rules && InMedia(r, key, unit) && row == RowOf(r) {
      var m := NormMediaRule(MediaExport(r));
      assert MediaExport(r) in AggMedia(agg, unit);
      MediaOfNorm(agg, unit, m);
      assert m in list;
      var i :| 0 <= i < |list| && list[i] == m;
      MediaRowIsRowOf(back, r);
      assert MediaRows(back, key.0, unit, list)[i] == row;
    }
  }

  lemma ReturnedIs(rules: seq<Rule>, names: map<nat, string>, key: Key)
    ensures Returned(rules, names, key) == NormItem(Finish(Agg(rules, names, key)))
  {
  }

  lemma InColRowsTo(item: Item, upstream: nat, row: ImportRow)
    ensures row in ColRowsTo(item, upstream, 4) <==> exists col :: 0 <= col < 4 && row in ColRows(item, upstream, col)
  {
    hide ColRows;
    assert ColRowsTo(item, upstream, 4)
        == [] + ColRows(item, upstream, 0) + ColRows(item, upstream, 1) + ColRows(item, upstream, 2) + ColRows(item, upstream, 3) by {
      assert ColRowsTo(item, upstream, 0) == [];
      assert ColRowsTo(item, upstream, 1) == [] + ColRows(item, upstream, 0);
      assert ColRowsTo(item, upstream, 2) == ColRowsTo(item, upstream, 1) + ColRows(item, upstream, 1);
      assert ColRowsTo(item, upstream, 3) == ColRowsTo(item, upstream, 2) + ColRows(item, upstream, 2);
    }
  }

  lemma UnitIsColumnOrMedia(unit: string)
    requires unit in UNITS
    ensures MediaUnit(unit) || exists col :: 0 <= col < 4 && COL_UNITS[col] == unit
  {
    if !MediaUnit(unit) {
      assert unit == COL_UNITS[0] || unit == COL_UNITS[1] || unit == COL_UNITS[2] || unit == COL_UNITS[3];
    }
  }

  /** Expanding the item read back gives exactly the rows of the rules it was made of. */
  lemma ExpansionIsRules(rules: seq<Rule>, names: map<nat, string>, key: Key, row: ImportRow)
    requires KeyOk(rules, names, key)
    ensures row in Expansion(Returned(rules, names, key), key.0)
       <==> exists r :: r in rules && KeyOf(r) == key && row == RowOf(r)
  {
    hide CleanText, Portable, Returned, RowOf, ColRowsTo, ColRows, MediaRows;
    var back := Returned(rules, names, key);
    InColRowsTo(back, key.0, row);
    forall col | 0 <= col < 4
      ensures row in ColRows(back, key.0, col) <==> exists r :: r in rules && InColumn(r, key, col) && row == RowOf(r)
    {
      ColumnRows(rules, names, key, col, row);
    }
    MediaRowsOf(rules, names, key, "image", row);
    MediaRowsOf(rules, names, key, "video_second", row);
    if r :| r in rules && KeyOf(r) == key && row == RowOf(r) {
      PortableUnit(r);
      UnitIsColumnOrMedia(r.unit);
      if MediaUnit(r.unit) {
        assert InMedia(r, key, r.unit);
        assert row in MediaRows(back, key.0, r.unit, MediaOf(back, r.unit));
      } else {
        var col :| 0 <= col < 4 && COL_UNITS[col] == r.unit;
        assert InColumn(r, key, col);
        assert row in ColRows(back, key.0, col);
      }
    }
  }

  lemma PortableUnit(r: Rule)
    requires Portable(r)
    ensures r.unit in UNITS
  {
  }

  // ------------------------------------------------------------- whole imports

  lemma MapWithout<T(!new), U(!new)>(keys: seq<T>, f: T -> U, j: nat)
    requires j < |keys|
    ensures var others := keys[..j] + keys[j + 1..];
      && multiset(keys) == multiset(others) + multiset{keys[j]}
      && multiset(Map(keys, f)) == multiset(Map(others, f)) + multiset{f(keys[j])}
  {
    var others := keys[..j] + keys[j + 1..];
    assert keys == keys[..j] + [keys[j]] + keys[j + 1..];
    var l, r := Map(keys[..j], f), Map(keys[j + 1..], f);
    assert Map(others, f) == l + r;
    assert Map(keys, f) == l + [f(keys[j])] + r;
  }

  lemma MapFirst<T(!new), U(!new)>(k: T, ks: seq<T>, f: T -> U)
    ensures Map([k] + ks, f) == [f(k)] + Map(ks, f)
  {
    assert ([k] + ks)[1..] == ks;
  }

  lemma HeadCancels<U(!new)>(items: seq<U>, others: multiset<U>)
    requires items != [] && multiset(items) == others + multiset{items[0]}
    ensures multiset(items[1..]) == others
  {
    assert items == [items[0]] + items[1..];
    assert multiset(items) == multiset{items[0]} + multiset(items[1..]);
    forall x ensures multiset(items[1..])[x] == others[x] {
      assert (others + multiset{items[0]})[x] == others[x] + multiset{items[0]}[x];
      assert (multiset{items[0]} + multiset(items[1..]))[x] == multiset{items[0]}[x] + multiset(items[1..])[x];
    }
  }

  lemma NothingMapped<T(!new), U(!new)>(keys: seq<T>, f: T -> U)
    requires multiset(Map(keys, f)) == multiset([])
    ensures keys == []
  {
    assert |multiset(Map(keys, f))| == |keys|;
  }

  lemma FindImage<T(!new), U(!new)>(items: seq<U>, keys: seq<T>, f: T -> U) returns (j: nat)
    requires items != [] && multiset(items) == multiset(Map(keys, f))
    ensures j < |keys| && f(keys[j]) == items[0]
  {
    assert items[0] in multiset(items);
    j :| 0 <= j < |keys| && Map(keys, f)[j] == items[0];
  }

  /** A permuted image of a list is the image of a permuted list. */
  lemma {:induction false} PermutedMap<T(!new), U(!new)>(items: seq<U>, keys: seq<T>, f: T -> U) returns (ks: seq<T>)
    requires multiset(items) == multiset(Map(keys, f))
    ensures items == Map(ks, f) && multiset(ks) == multiset(keys)
    decreases |items|
  {
    if items == [] {
      NothingMapped(keys, f);
      ks := [];
    } else {
      hide Map;
      var j := FindImage(items, keys, f);
      var others := keys[..j] + keys[j + 1..];
      MapWithout(keys, f, j);
      HeadCancels(items, multiset(Map(others, f)));
      var rest := PermutedMap(items[1..], others, f);
      ks := [keys[j]] + rest;
      MapFirst(keys[j], rest, f);
      assert items == [items[0]] + items[1..];
    }
  }

  // ----------------------------------------------------------- counting the rows

  function One(b: bool): nat {
    if b then 1 else 0
  }

  /** The rows an item expands to. */
  function RowsIn(agg: ItemAgg): nat {
    One(AggPrice(agg, 0).Some?) + One(AggPrice(agg, 1).Some?) + One(AggPrice(agg, 2).Some?) + One(AggPrice(agg, 3).Some?)
    + |agg.image| + |agg.video|
  }

  /** The rules of a key. */
  function KeyCount(rules: seq<Rule>, key: Key): nat {
    if rules == [] then 0 else KeyCount(rules[..|rules| - 1], key) + One(KeyOf(rules[|rules| - 1]) == key)
  }

  /** The rules of the listed keys. */
  function KeysCount(rules: seq<Rule>, ks: seq<Key>): nat {
    if ks == [] then 0 else KeysCount(rules, ks[..|ks| - 1]) + KeyCount(rules, ks[|ks| - 1])
  }

  lemma ExpansionSize(rules: seq<Rule>, names: map<nat, string>, key: Key)
    ensures |Expansion(Returned(rules, names, key), key.0)| == RowsIn(Agg(rules, names, key))
  {
    hide Agg, NormText, NormMediaRule, SegmentMap, NormCol, AggPrice;
    var agg, item := Agg(rules, names, key), Returned(rules, names, key);
    forall col | 0 <= col < 4 ensures |ColRows(item, key.0, col)| == One(AggPrice(agg, col).Some?) {
      FinishColumn(agg, col);
      ColPriceOfNorm(Finish(agg), col);
    }
    hide ColRows;
    ColRowsSize(item, key.0);
  }

  lemma ColRowsSize(item: Item, upstream: nat)
    ensures |ColRowsTo(item, upstream, 4)|
         == |ColRows(item, upstream, 0)| + |ColRows(item, upstream, 1)| + |ColRows(item, upstream, 2)| + |ColRows(item, upstream, 3)|
  {
    hide ColRows;
    assert ColRowsTo(item, upstream, 0) == [];
    assert ColRowsTo(item, upstream, 1) == [] + ColRows(item, upstream, 0);
    assert ColRowsTo(item, upstream, 2) == ColRowsTo(item, upstream, 1) + ColRows(item, upstream, 1);
    assert ColRowsTo(item, upstream, 3) == ColRowsTo(item, upstream, 2) + ColRows(item, upstream, 2);
  }

  lemma AddRowSize(agg: ItemAgg, r: Rule)
    requires r.unit in UNITS
    requires forall col :: 0 <= col < 4 && COL_UNITS[col] == r.unit ==> AggPrice(agg, col).None?
    ensures RowsIn(AddRow(agg, r)) == RowsIn(agg) + 1
  {
    hide AddRow, AggPrice;
    AddRowMedia(agg, r, "image");
    AddRowMedia(agg, r, "video_second");
    forall col | 0 <= col < 4
      ensures AggPrice(AddRow(agg, r), col) == if r.unit == COL_UNITS[col] then Some(r.basePrice) else AggPrice(agg, col)
    {
      AddRowColumn(agg, r, col);
    }
    UnitIsColumnOrMedia(r.unit);
    if MediaUnit(r.unit) {
      MediaIsNotAColumn(r.unit);
    } else {
      var col :| 0 <= col < 4 && COL_UNITS[col] == r.unit;
      forall c | 0 <= c < 4 && COL_UNITS[c] == COL_UNITS[col] ensures c == col {
        UnitsDiffer(c, col);
      }
    }
  }

  lemma {:induction false} AggSize(rules: seq<Rule>, names: map<nat, string>, key: Key)
    requires NoRepeats(rules) && UniqueSlots(rules) && forall r :: r in rules ==> Portable(r)
    ensures RowsIn(Agg(rules, names, key)) == KeyCount(rules, key)
  {
    if rules != [] {
      hide AddRow, AggPrice, RowsIn, Portable;
      var n := |rules| - 1;
      var r := rules[n];
      assert rules == rules[..n] + [r];
      AggSize(rules[..n], names, key);
      if KeyOf(r) == key {
        forall col | 0 <= col < 4 && COL_UNITS[col] == r.unit ensures AggPrice(Agg(rules[..n], names, key), col).None? {
          FreshColumn(rules, names, key, col);
        }
        PortableUnit(r);
        AddRowSize(Agg(rules[..n], names, key), r);
      }
    }
  }

  lemma SameColumnSameSlot(a: Rule, r: Rule, key: Key, col: nat)
    requires col < 4 && Portable(a) && Portable(r)
    ensures InColumn(a, key, col) && InColumn(r, key, col) ==> SlotOf(a) == SlotOf(r)
  {
    if InColumn(a, key, col) && InColumn(r, key, col) {
      ColumnKeyIsEmpty(a, col);
      ColumnKeyIsEmpty(r, col);
    }
  }

  lemma FreshColumn(rules: seq<Rule>, names: map<nat, string>, key: Key, col: nat)
    requires NoRepeats(rules) && UniqueSlots(rules) && forall r :: r in rules ==> Portable(r)
    requires col < 4 && rules != [] && InColumn(rules[|rules| - 1], key, col)
    ensures AggPrice(Agg(rules[..|rules| - 1], names, key), col).None?
  {
    hide AggPrice, Agg, Portable;
    var n := |rules| - 1;
    var r := rules[n];
    forall a | a in rules[..n] ensures !InColumn(a, key, col) {
      SameColumnSameSlot(a, r, key, col);
    }
    ColumnOfKey(rules[..n], names, key, col);
  }

  lemma {:induction false} NextKeyCount(rules: seq<Rule>, ks: seq<Key>)
    requires rules != [] && NoRepeats(ks)
    ensures KeysCount(rules, ks) == KeysCount(rules[..|rules| - 1], ks) + One(KeyOf(rules[|rules| - 1]) in ks)
  {
    if ks != [] {
      var m := |ks| - 1;
      NextKeyCount(rules, ks[..m]);
      assert ks == ks[..m] + [ks[m]];
    }
  }

  lemma {:induction false} NoneCounted(ks: seq<Key>)
    ensures KeysCount([], ks) == 0
  {
    if ks != [] {
      NoneCounted(ks[..|ks| - 1]);
    }
  }

  /** Every rule is counted under one key. */
  lemma {:induction false} AllCounted(rules: seq<Rule>, ks: seq<Key>)
    requires NoRepeats(ks) && forall r :: r in rules ==> KeyOf(r) in ks
    ensures KeysCount(rules, ks) == |rules|
  {
    if rules == [] {
      NoneCounted(ks);
    } else {
      hide KeysCount;
      NextKeyCount(rules, ks);
      AllCounted(rules[..|rules| - 1], ks);
    }
  }

  // ------------------------------------------------------------- items of a table

  ghost predicate RowFrom(rules: seq<Rule>, ks: seq<Key>, row: ImportRow) {
    exists r :: r in rules && KeyOf(r) in ks && row == RowOf(r)
  }

  ghost predicate RowOfAny(rules: seq<Rule>, row: ImportRow) {
    exists r :: r in rules && row == RowOf(r)
  }

  lemma RowIsValid(r: Rule)
    requires Portable(r)
    ensures ValidRow(RowOf(r)) && IdemKeyOf(RowOf(r)) == SlotOf(r)
  {
    hide PlainDimensions, PlainSegments, NormDims, NormSegment;
  }

  lemma KeyIsOk(rules: seq<Rule>, names: map<nat, string>, ids: map<string, nat>, r: Rule)
    requires PortableTable(rules, names, ids) && r in rules
    ensures KeyOk(rules, names, KeyOf(r))
  {
    hide PlainDimensions, PlainSegments;
    assert Portable(r);
    ShortTextIsClean();
  }

  lemma ShortTextIsClean()
    ensures CleanText("CNY") && CleanText("USD")
  {
  }

  /** What the next item of an exported table does to the report: it is imported whole. */
  lemma NextImportsWhole(rules: seq<Rule>, names: map<nat, string>, ids: map<string, nat>, ks: seq<Key>, k: Key, before: Report)
    requires PortableTable(rules, names, ids) && HasKey(rules, k) && k !in ks
    requires forall row :: row in before.rows <==> RowFrom(rules, ks, row)
    requires forall s :: s in before.seen ==> exists row :: row in before.rows && IdemKeyOf(row) == s
    ensures Judge(Returned(rules, names, k), ids, before.seen) == Import(Expansion(Returned(rules, names, k), k.0))
  {
    hide Portable, Returned, RowOf, Expansion, CleanText, ValidRow;
    var r :| r in rules && KeyOf(r) == k;
    KeyIsOk(rules, names, ids, r);
    TextsComeBack(rules, names, k);
    var rows := Expansion(Returned(rules, names, k), k.0);
    ExpansionIsRules(rules, names, k, RowOf(r));
    var i :| 0 <= i < |rows| && rows[i] == RowOf(r);
    forall j | 0 <= j < |rows| ensures ValidRow(rows[j]) {
      ExpansionIsRules(rules, names, k, rows[j]);
      assert rows[j] in rows;
      var x :| x in rules && KeyOf(x) == k && rows[j] == RowOf(x);
      RowIsValid(x);
    }
    RowIsValid(r);
    if IdemKeyOf(rows[i]) in before.seen {
      var row :| row in before.rows && IdemKeyOf(row) == IdemKeyOf(rows[i]);
      var x :| x in rules && KeyOf(x) in ks && row == RowOf(x);
      RowIsValid(x);
    }
  }

  /** Every item of an exported table is imported; the rows are those of the rules, no more and no less. */
  lemma {:induction false} ImportsWhole(rules: seq<Rule>, names: map<nat, string>, ids: map<string, nat>,
                                        ks: seq<Key>, items: seq<Item>, n: nat)
    requires PortableTable(rules, names, ids) && n <= |ks| == |items|
    requires NoRepeats(ks) && forall k :: k in ks ==> HasKey(rules, k)
    requires forall i :: 0 <= i < |ks| ==> items[i] == Returned(rules, names, ks[i])
    ensures var report := Analysis(items, ids, n);
      && report.failed == [] && report.skipped == 0 && report.succeeded == n
      && (forall row :: row in report.rows <==> RowFrom(rules, ks[..n], row))
      && (NoRepeats(rules) ==> |report.rows| == KeysCount(rules, ks[..n]))
  {
    hide Portable, Returned, RowOf, Expansion, Judge, PortableTable, RowFrom, Agg, RowsIn, KeyCount;
    if n == 0 {
      assert ks[..0] == [];
      NoRowsFromNone(rules);
    } else {
      hide NoRepeats;
      var before, k := Analysis(items, ids, n - 1), ks[n - 1];
      ImportsWhole(rules, names, ids, ks, items, n - 1);
      AnalysisAccounts(items, ids, n - 1);
      NewKey(ks, n - 1);
      NextImportsWhole(rules, names, ids, ks[..n - 1], k, before);
      NextRows(rules, names, ids, ks[..n - 1], k);
      if NoRepeats(rules) {
        RowsOfKey(rules, names, ids, k);
      }
    }
  }

  lemma RowsOfKey(rules: seq<Rule>, names: map<nat, string>, ids: map<string, nat>, k: Key)
    requires PortableTable(rules, names, ids) && NoRepeats(rules)
    ensures |Expansion(Returned(rules, names, k), k.0)| == KeyCount(rules, k)
  {
    hide Portable, Returned, Expansion, RowsIn, Agg, NamesResolve;
    ExpansionSize(rules, names, k);
    AggSize(rules, names, k);
  }

  lemma NewKey(ks: seq<Key>, n: nat)
    requires NoRepeats(ks) && n < |ks|
    ensures ks[n] in ks && ks[n] !in ks[..n] && ks[..n + 1] == ks[..n] + [ks[n]]
  {
  }

  lemma NoRowsFromNone(rules: seq<Rule>)
    ensures forall row :: !RowFrom(rules, [], row)
  {
  }

  lemma NextRows(rules: seq<Rule>, names: map<nat, string>, ids: map<string, nat>, ks: seq<Key>, k: Key)
    requires PortableTable(rules, names, ids) && HasKey(rules, k)
    ensures forall row :: row in Expansion(Returned(rules, names, k), k.0) || RowFrom(rules, ks, row) <==> RowFrom(rules, ks + [k], row)
  {
    hide Portable, Returned, RowOf, Expansion, PortableTable, RowFrom;
    var r :| r in rules && KeyOf(r) == k;
    KeyIsOk(rules, names, ids, r);
    forall row ensures row in Expansion(Returned(rules, names, k), k.0) || RowFrom(rules, ks, row) <==> RowFrom(rules, ks + [k], row) {
      ExpansionIsRules(rules, names, k, row);
      RowFromNext(rules, ks, k, row);
    }
  }

  lemma RowFromNext(rules: seq<Rule>, ks: seq<Key>, k: Key, row: ImportRow)
    ensures RowFrom(rules, ks + [k], row) <==> RowFrom(rules, ks, row) || exists r :: r in rules && KeyOf(r) == k && row == RowOf(r)
  {
    hide RowOf;
    if RowFrom(rules, ks, row) {
      var r :| r in rules && KeyOf(r) in ks && row == RowOf(r);
      assert KeyOf(r) in ks + [k];
    }
    if r :| r in rules && KeyOf(r) == k && row == RowOf(r) {
      assert KeyOf(r) in ks + [k];
    }
  }

  /** What importing a file reports; a file that does not parse imports nothing. */
  function ReportOfFile(xml: string, ids: map<string, nat>): Report {
    match ParseXml(xml)
    case Ok(items) => Analysis(items, ids, |items|)
    case Err(_) => Report([], {}, [], 0, 0)
  }

  lemma ReportOfExport(items: seq<Item>, ids: map<string, nat>)
    ensures ReportOfFile(ExportText(items), ids) == Analysis(Map(items, NormItem), ids, |items|)
  {
    hide ExportText, Analysis, NormItem, ParseXml;
    ExportImports(items);
  }

  /** Exporting a table and importing the file accepts every item and yields one row for each rule, and no other. */
  lemma ExportedTableImportsWhole(rules: seq<Rule>, names: map<nat, string>, ids: map<string, nat>,
                                  keys: seq<Key>, items: seq<Item>)
    requires PortableTable(rules, names, ids) && Enumerates(keys, rules)
    requires multiset(items) == multiset(ItemsFor(rules, names, keys))
    ensures var report := ReportOfFile(ExportText(items), ids);
      && report.failed == [] && report.skipped == 0 && report.succeeded == |items|
      && (forall row :: row in report.rows <==> RowOfAny(rules, row))
      && (NoRepeats(rules) ==> multiset(report.rows) == multiset(Map(rules, RowOf)))
  {
    hide PortableTable, ExportText, RowOf, NormItem, Analysis, ItemsFor, Returned, RowFrom, RowOfAny, Enumerates,
      ReportOfFile;
    ReportOfExport(items, ids);
    var ks := KeysInOrder(rules, names, keys, items);
    KeysCover(rules, keys, ks);
    ImportsWhole(rules, names, ids, ks, Map(items, NormItem), |items|);
    assert ks[..|items|] == ks;
    if NoRepeats(rules) {
      AllCounted(rules, ks);
      RowsOnce(rules, names, ids, ReportOfFile(ExportText(items), ids).rows);
    }
  }

  lemma RowsOnce(rules: seq<Rule>, names: map<nat, string>, ids: map<string, nat>, rows: seq<ImportRow>)
    requires PortableTable(rules, names, ids) && NoRepeats(rules) && |rows| == |rules|
    requires forall row :: row in rows <==> RowOfAny(rules, row)
    ensures multiset(rows) == multiset(Map(rules, RowOf))
  {
    hide RowOf, PortableTable, RowOfAny, Map;
    var all := Map(rules, RowOf);
    forall i, j | 0 <= i < j < |all| ensures all[i] != all[j] {
      RowIsOwn(rules, names, ids, rules[i], rules[j]);
    }
    forall row | row in all ensures row in rows {
      var i :| 0 <= i < |all| && all[i] == row;
      RowHere(rules, rules[i]);
    }
    Pigeonhole(all, rows);
  }

  lemma RowIsOwn(rules: seq<Rule>, names: map<nat, string>, ids: map<string, nat>, r: Rule, x: Rule)
    requires PortableTable(rules, names, ids) && r in rules && x in rules
    ensures RowOf(r) == RowOf(x) ==> r == x
  {
    hide RowOf, Portable, NamesResolve;
    RowIsValid(r);
    RowIsValid(x);
  }

  /** As many places as different things to put there: each is there once. */
  lemma Pigeonhole<T(!new)>(things: seq<T>, places: seq<T>)
    requires NoRepeats(things) && |things| == |places| && forall t :: t in things ==> t in places
    ensures multiset(places) == multiset(things)
  {
    var m, n := multiset(things), multiset(places);
    CountsOnce(things);
    forall t ensures m[t] <= n[t] {
      assert t in things ==> t in n;
    }
    assert n == m + (n - m);
    assert |n| == |m| + |n - m|;
  }

  /** The keys in the order of the exported items. */
  lemma KeysInOrder(rules: seq<Rule>, names: map<nat, string>, keys: seq<Key>, items: seq<Item>) returns (ks: seq<Key>)
    requires multiset(items) == multiset(ItemsFor(rules, names, keys))
    ensures multiset(ks) == multiset(keys) && |ks| == |items|
    ensures forall i :: 0 <= i < |ks| ==> Map(items, NormItem)[i] == Returned(rules, names, ks[i])
  {
    hide NormItem, ItemFor;
    var f := (k: Key) => ItemFor(rules, names, k);
    ks := PermutedMap(items, keys, f);
    forall i | 0 <= i < |ks| ensures Map(items, NormItem)[i] == Returned(rules, names, ks[i]) {
      assert items[i] == f(ks[i]);
    }
  }

  lemma KeysCover(rules: seq<Rule>, keys: seq<Key>, ks: seq<Key>)
    requires Enumerates(keys, rules) && multiset(ks) == multiset(keys)
    ensures NoRepeats(ks) && (forall k :: k in ks ==> HasKey(rules, k)) && (forall r :: r in rules ==> KeyOf(r) in ks)
    ensures forall row :: RowFrom(rules, ks, row) <==> RowOfAny(rules, row)
  {
    hide RowOf;
    PermutedNoRepeats(ks, keys);
    forall r | r in rules ensures KeyOf(r) in ks {
      assert KeyOf(r) in keys;
    }
    forall row ensures RowFrom(rules, ks, row) <==> RowOfAny(rules, row) {
      if r :| r in rules && row == RowOf(r) {
        assert KeyOf(r) in keys;
      }
    }
  }

  // ------------------------------------------------------------ the same prices

  /** A stored row: enabled, without an effective window. */
  predicate StoredAs(b: Rule, row: ImportRow) {
    && row == ImportRow(b.upstream, b.model, b.unit, b.currency, b.basePrice, b.dimensions, b.dimensionKey, b.segments, b.contextBasis)
    && b.enabled && b.effectiveFrom.None? && b.effectiveTo.None?
  }

  /** Some rule of `b` is stored for the row. */
  ghost predicate HasStored(row: ImportRow, b: seq<Rule>) {
    exists q :: q in b && StoredAs(q, row)
  }

  /** `q` is stored for some rule of `a`. */
  ghost predicate HasSource(q: Rule, a: seq<Rule>) {
    exists r :: r in a && StoredAs(q, RowOf(r))
  }

  /** `b` are the rules stored for the rows of the rules `a`. */
  ghost predicate Rebuilt(a: seq<Rule>, b: seq<Rule>) {
    && (forall r :: r in a ==> HasStored(RowOf(r), b))
    && (forall q :: q in b ==> HasSource(q, a))
  }

  lemma PickStored(row: ImportRow, b: seq<Rule>) returns (q: Rule)
    requires HasStored(row, b)
    ensures q in b && StoredAs(q, row)
  {
    hide StoredAs;
    q :| q in b && StoredAs(q, row);
  }

  lemma PickSource(q: Rule, a: seq<Rule>) returns (r: Rule)
    requires HasSource(q, a)
    ensures r in a && StoredAs(q, RowOf(r))
  {
    hide StoredAs, RowOf;
    r :| r in a && StoredAs(q, RowOf(r));
  }

  lemma StoredHere(row: ImportRow, b: seq<Rule>, q: Rule)
    requires q in b && StoredAs(q, row)
    ensures HasStored(row, b)
  {
    hide StoredAs;
  }

  lemma SourceHere(q: Rule, a: seq<Rule>, r: Rule)
    requires r in a && StoredAs(q, RowOf(r))
    ensures HasSource(q, a)
  {
    hide StoredAs, RowOf;
  }

  /** The same line up to the rule id, and a segment name trimmed or dropped when empty. */
  predicate SameLine(a: Option<PricedLine>, b: Option<PricedLine>) {
    if a.None? || b.None? then a == b
    else b.value == a.value.(ruleId := b.value.ruleId, segment := NotEmpty(NormTextOpt(a.value.segment)))
  }

  lemma SegmentMatchesAlike(s: Segment, ctx: int, clock: Clock)
    requires NormalSegment(s.(name := None))
    ensures NormSegment(s) == s.(name := NotEmpty(NormTextOpt(s.name)))
    ensures SegmentMatches(NormSegment(s), ctx, clock) <==> SegmentMatches(s, ctx, clock)
  {
    hide NormalSegment, SameIgnoringAsciiCase, WindowHit;
    SegmentFixed(s.(name := None));
    NormNameAside(s);
  }

  lemma NormNameAside(s: Segment)
    ensures NormSegment(s) == NormSegment(s.(name := None)).(name := NotEmpty(NormTextOpt(s.name)))
  {
    hide NormText;
  }

  lemma {:induction false} FirstMatchAlike(list: seq<Segment>, ctx: int, clock: Clock)
    requires forall s :: s in list ==> NormalSegment(s.(name := None))
    ensures FirstMatchAt(Map(list, NormSegment), ctx, clock) == FirstMatchAt(list, ctx, clock)
  {
    hide NormalSegment, SegmentMatches, NormSegment;
    if list != [] {
      SegmentMatchesAlike(list[0], ctx, clock);
      FirstMatchAlike(list[1..], ctx, clock);
      assert Map(list, NormSegment)[1..] == Map(list[1..], NormSegment);
    }
  }

  // ------------------------------------------------------- what is not exported

  /** The smallest context length of a request that is priced in the unit. */
  function LeastContext(unit: string): I64 {
    if unit == "token_in" then -I64_MAX else -I64_MAX - 1
  }

  /** What a line shows of a rule at a context length: the price, and the segment's name trimmed or dropped. */
  function Shown(r: Rule, ctx: int, clock: Clock): (real, Option<string>) {
    var s := MatchAt(r, ctx, clock);
    (Value(if s.Some? then s.value.price else r.basePrice), NotEmpty(NormTextOpt(if s.Some? then s.value.name else None)))
  }

  predicate SteadyAt(r: Rule, ctx: int, clock: Clock) {
    LeastContext(r.unit) <= ctx < I64_MAX ==> Shown(r, ctx, clock) == Shown(r, ctx + 1, clock)
  }

  function SegmentsOf(r: Rule): seq<Segment> {
    match r.segments
    case Some(Readable(list)) => list
    case _ => []
  }

  /** Crossing a bound of a segment changes nothing. */
  predicate Steady(r: Rule, clock: Clock) {
    forall s :: s in SegmentsOf(r) ==>
      && (s.minPrompt.Some? ==> SteadyAt(r, s.minPrompt.value - 1, clock))
      && (s.maxPrompt.Some? ==> SteadyAt(r, s.maxPrompt.value, clock))
  }

  /** Enabled, always in effect, and not priced by a total that its segments tell from the prompt. */
  predicate Lasting(r: Rule, clock: Clock) {
    r.enabled && r.effectiveFrom.None? && r.effectiveTo.None? && (r.contextBasis == "total_tokens" ==> Steady(r, clock))
  }

  lemma {:induction false} NoBound(list: seq<Segment>, ctx: int, clock: Clock)
    requires forall s :: s in list ==>
      (s.minPrompt.Some? ==> s.minPrompt.value != ctx + 1) && (s.maxPrompt.Some? ==> s.maxPrompt.value != ctx)
    ensures FirstMatchAt(list, ctx, clock) == FirstMatchAt(list, ctx + 1, clock)
  {
    hide SameIgnoringAsciiCase, WindowHit;
    if list != [] {
      assert list[0] in list;
      assert SegmentMatches(list[0], ctx, clock) <==> SegmentMatches(list[0], ctx + 1, clock);
      NoBound(list[1..], ctx, clock);
    }
  }

  lemma SteadyEverywhere(r: Rule, ctx: int, clock: Clock)
    requires Steady(r, clock)
    ensures SteadyAt(r, ctx, clock)
  {
    hide FirstMatchAt, NormTextOpt, NotEmpty, Value;
    var list := SegmentsOf(r);
    if s :| s in list && s.minPrompt.Some? && s.minPrompt.value == ctx + 1 {
      assert SteadyAt(r, s.minPrompt.value - 1, clock);
    } else if s :| s in list && s.maxPrompt.Some? && s.maxPrompt.value == ctx {
      assert SteadyAt(r, s.maxPrompt.value, clock);
    } else {
      NoBound(list, ctx, clock);
    }
  }

  /** Then every two context lengths show the same. */
  lemma {:induction false} SteadyBetween(r: Rule, x: int, y: int, clock: Clock)
    requires Steady(r, clock) && LeastContext(r.unit) <= x <= y <= I64_MAX
    ensures Shown(r, x, clock) == Shown(r, y, clock)
    decreases y - x
  {
    hide Steady, Shown;
    if x < y {
      SteadyEverywhere(r, x, clock);
      SteadyBetween(r, x + 1, y, clock);
    }
  }

  /** The context length a stored rule goes by. */
  function PromptOf(input: Input): I64 {
    input.promptTokens.UnwrapOr(0)
  }

  lemma ContextsShowAlike(r: Rule, input: Input, clock: Clock)
    requires Lasting(r, clock) && UnitQuantity(r.unit, input).Some?
    ensures Shown(r, ContextValue(r, input), clock) == Shown(r, PromptOf(input), clock)
  {
    hide Steady, Shown;
    var x, y := PromptOf(input), ContextValue(r, input);
    if r.contextBasis == "total_tokens" {
      if x <= y {
        SteadyBetween(r, x, y, clock);
      } else {
        SteadyBetween(r, y, x, clock);
      }
    }
  }

  /** A stored rule shows what its source shows at the prompt's length. */
  lemma StoredShows(r: Rule, q: Rule, input: Input, clock: Clock)
    requires Portable(r) && StoredAs(q, RowOf(r))
    ensures var s := MatchSegment(q, input, clock);
      && Value(if s.Some? then s.value.price else q.basePrice) == Shown(r, PromptOf(input), clock).0
      && (if s.Some? then s.value.name else None) == Shown(r, PromptOf(input), clock).1
  {
    hide PlainDimensions, NormDimensions, NormText, SegmentMatches, NormalSegment, NormSegment, FirstMatchAt, Value;
    NoNameStays();
    if r.segments.Some? && r.segments.value.Readable? {
      var list := r.segments.value.list;
      var ctx := PromptOf(input);
      FirstMatchAlike(list, ctx, clock);
      var at := FirstMatchAt(list, ctx, clock);
      if at.Some? {
        assert list[at.value] in list;
        SegmentMatchesAlike(list[at.value], ctx, clock);
      } else if list == [] {
        assert Map(list, NormSegment) == [];
      }
    }
  }

  lemma NoNameStays()
    ensures NotEmpty(NormTextOpt(None)) == None
  {
  }

  /** A rule `x` and the row stored for `r` price a quantity alike exactly when they show the same, `x` at its
      own context length and `r` at the prompt's. */
  lemma LinesAlike(x: Rule, r: Rule, q: Rule, unit: string, quantity: real, input: Input, clock: Clock)
    requires Portable(r) && StoredAs(q, RowOf(r)) && x.currency == r.currency
    ensures SameLine(Some(LineOf(x, unit, quantity, input, clock)), Some(LineOf(q, unit, quantity, input, clock)))
       <==> Shown(x, ContextValue(x, input), clock) == Shown(r, PromptOf(input), clock)
  {
    hide Portable, MatchAt, NormTextOpt, NotEmpty, Value, Divisor, ContextValue;
    StoredShows(r, q, input, clock);
    StoredCurrency(r, q);
    hide StoredAs, RowOf;
    var l, m := LineOf(x, unit, quantity, input, clock), LineOf(q, unit, quantity, input, clock);
    var shown := Shown(x, ContextValue(x, input), clock);
    assert shown == (l.price, NotEmpty(NormTextOpt(l.segment)));
    assert Shown(r, PromptOf(input), clock) == (m.price, m.segment);
  }

  lemma StoredCurrency(r: Rule, q: Rule)
    requires StoredAs(q, RowOf(r))
    ensures q.currency == r.currency
  {
  }

  lemma StaysActive(r: Rule, q: Rule, at: int)
    requires StoredAs(q, RowOf(r))
    ensures q.enabled && InEffect(q, at)
    ensures q.unit == r.unit && q.currency == r.currency && q.dimensionKey == r.dimensionKey
  {
  }

  lemma LastingIsActive(r: Rule, at: int, clock: Clock)
    requires Lasting(r, clock)
    ensures r.enabled && InEffect(r, at)
  {
    hide Steady;
  }

  lemma InTier(rules: seq<Rule>, unit: string, at: int, key: string, r: Rule)
    ensures r in Tier(Active(rules, unit, at), key)
       <==> r in rules && r.unit == unit && r.enabled && InEffect(r, at) && r.dimensionKey == key
  {
  }

  predicate HasTier(rules: seq<Rule>, unit: string, key: string) {
    exists r :: r in rules && r.unit == unit && r.dimensionKey == key
  }

  /** The dimension key of the rules that price a request with this key: its own, else none. */
  function TierKey(rules: seq<Rule>, unit: string, key: string): string {
    if HasTier(rules, unit, key) then key else ""
  }

  ghost predicate TierLasts(rules: seq<Rule>, unit: string, key: string, clock: Clock) {
    forall r :: r in rules && r.unit == unit && r.dimensionKey == TierKey(rules, unit, key) ==> Lasting(r, clock)
  }

  /** Either list has candidates in a tier exactly when the other has, and they are stored alike. */
  lemma TiersAlike(a: seq<Rule>, b: seq<Rule>, unit: string, at: int, key: string, clock: Clock)
    requires Rebuilt(a, b) && forall r :: r in a && r.unit == unit && r.dimensionKey == key ==> Lasting(r, clock)
    ensures Rebuilt(Tier(Active(a, unit, at), key), Tier(Active(b, unit, at), key))
    ensures Tier(Active(a, unit, at), key) == [] <==> !HasTier(a, unit, key)
    ensures Tier(Active(b, unit, at), key) == [] <==> !HasTier(a, unit, key)
  {
    hide Lasting, StoredAs, RowOf, InEffect, HasStored, HasSource, Tier, Active;
    var ta, tb := Tier(Active(a, unit, at), key), Tier(Active(b, unit, at), key);
    forall r | r in ta ensures HasStored(RowOf(r), tb) {
      InTier(a, unit, at, key, r);
      var q := PickStored(RowOf(r), b);
      StaysActive(r, q, at);
      InTier(b, unit, at, key, q);
      StoredHere(RowOf(r), tb, q);
    }
    forall q | q in tb ensures HasSource(q, ta) {
      InTier(b, unit, at, key, q);
      var r := PickSource(q, a);
      StaysActive(r, q, at);
      LastingIsActive(r, at, clock);
      InTier(a, unit, at, key, r);
      SourceHere(q, ta, r);
    }
    EmptyAlike(ta, tb);
    if r :| r in a && r.unit == unit && r.dimensionKey == key {
      LastingIsActive(r, at, clock);
      InTier(a, unit, at, key, r);
    }
    if ta != [] {
      InTier(a, unit, at, key, ta[0]);
      assert ta[0] in ta;
    }
  }

  lemma EmptyAlike(a: seq<Rule>, b: seq<Rule>)
    requires Rebuilt(a, b)
    ensures a == [] <==> b == []
  {
    hide StoredAs, RowOf, HasStored, HasSource;
    if a != [] {
      assert a[0] in a;
      var q := PickStored(RowOf(a[0]), b);
    }
    if b != [] {
      assert b[0] in b;
      var r := PickSource(b[0], a);
    }
  }

  lemma CandidatesAlike(a: seq<Rule>, b: seq<Rule>, unit: string, input: Input, clock: Clock)
    requires Rebuilt(a, b) && TierLasts(a, unit, InputDimensionKey(unit, input), clock)
    ensures Rebuilt(Candidates(a, unit, input), Candidates(b, unit, input))
    ensures forall r :: r in Candidates(a, unit, input) ==> Lasting(r, clock)
  {
    var key := InputDimensionKey(unit, input);
    hide Lasting, Rebuilt, Tier, Active, InputDimensionKey;
    TiersAlike(a, b, unit, input.at, key, clock);
    if !HasTier(a, unit, key) {
      TiersAlike(a, b, unit, input.at, "", clock);
    }
    forall r | r in Candidates(a, unit, input) ensures Lasting(r, clock) {
      InTier(a, unit, input.at, TierKey(a, unit, key), r);
    }
  }

  /** Every unit and currency gets the same line from the stored rows, if the rules that price it last. */
  lemma LinePreserved(a: seq<Rule>, b: seq<Rule>, up: nat, model: string, input: Input, clock: Clock, unit: string, cur: string)
    requires Rebuilt(a, b) && UniqueSlots(a) && forall r :: r in a ==> Portable(r) && r.upstream == up && r.model == model
    requires TierLasts(a, unit, InputDimensionKey(unit, input), clock)
    ensures SameLine(LineFor(a, input, clock, unit, cur), LineFor(b, input, clock, unit, cur))
  {
    hide Portable, Lasting, StoredAs, RowOf, LineOf, SameLine, BestIn, UnitQuantity, Candidates, HasStored, HasSource, Shown,
      TierLasts;
    var ca, cb := Candidates(a, unit, input), Candidates(b, unit, input);
    CandidatesAlike(a, b, unit, input, clock);
    CandidateUnit(a, unit, input);
    NoLinesAlike();
    var x, y := BestIn(ca, cur), BestIn(cb, cur);
    if x.Some? {
      var q := PickStored(RowOf(x.value), cb);
      StaysActive(x.value, q, input.at);
    }
    if y.Some? {
      var r := PickSource(y.value, ca);
      StaysActive(r, y.value, input.at);
      assert SlotOf(r) == SlotOf(x.value);
      var quantity := UnitQuantity(unit, input);
      if quantity.Some? {
        ContextsShowAlike(r, input, clock);
        LinesAlike(r, r, y.value, unit, quantity.value, input, clock);
      }
    }
  }

  lemma NoLinesAlike()
    ensures SameLine(None, None)
  {
  }

  lemma CandidateUnit(a: seq<Rule>, unit: string, input: Input)
    ensures forall r :: r in Candidates(a, unit, input) ==> r in a && r.unit == unit
    ensures forall r, q :: r in Candidates(a, unit, input) && q in Candidates(a, unit, input) ==> r.dimensionKey == q.dimensionKey
  {
    hide InEffect, InputDimensionKey;
  }

  /** The rules of one upstream and model. */
  ghost predicate Of(rules: seq<Rule>, all: seq<Rule>, up: nat, model: string) {
    forall r :: r in rules <==> r in all && r.upstream == up && r.model == model
  }

  lemma PartsRebuild(rules: seq<Rule>, stored: seq<Rule>, a: seq<Rule>, b: seq<Rule>, up: nat, model: string)
    requires Rebuilt(rules, stored) && Of(a, rules, up, model) && Of(b, stored, up, model)
    ensures Rebuilt(a, b)
  {
    hide HasStored, HasSource, RowOf, StoredAs;
    forall r | r in a ensures HasStored(RowOf(r), b) {
      var q := PickStored(RowOf(r), stored);
      StoredKey(r, q);
      StoredHere(RowOf(r), b, q);
    }
    forall q | q in b ensures HasSource(q, a) {
      var r := PickSource(q, rules);
      StoredKey(r, q);
      SourceHere(q, a, r);
    }
  }

  lemma StoredKey(r: Rule, q: Rule)
    requires StoredAs(q, RowOf(r))
    ensures q.upstream == r.upstream && q.model == r.model
  {
  }

  /** The rules stored for a report: each row as one rule, and nothing else. */
  ghost predicate StoredRules(stored: seq<Rule>, rows: seq<ImportRow>) {
    && (forall row :: row in rows ==> HasStored(row, stored))
    && (forall q :: q in stored ==> StoredForOne(q, rows))
  }

  ghost predicate StoredForOne(q: Rule, rows: seq<ImportRow>) {
    exists row :: row in rows && StoredAs(q, row)
  }

  /** Export, import, store: every request to an upstream and model whose rules last is priced as before, line
      by line and in both totals, up to rule ids and segment names trimmed or dropped when empty. */
  lemma ExportImportPreservesPricing(rules: seq<Rule>, names: map<nat, string>, ids: map<string, nat>,
                                     keys: seq<Key>, items: seq<Item>, stored: seq<Rule>,
                                     a: seq<Rule>, b: seq<Rule>, up: nat, model: string,
                                     fx: Fx.FxSet, input: Input, clock: Clock)
    requires PortableTable(rules, names, ids) && Enumerates(keys, rules)
    requires multiset(items) == multiset(ItemsFor(rules, names, keys))
    requires StoredRules(stored, ReportOfFile(ExportText(items), ids).rows)
    requires Of(a, rules, up, model) && Of(b, stored, up, model) && forall r :: r in a ==> Lasting(r, clock)
    ensures forall unit, cur :: SameLine(LineFor(a, input, clock, unit, cur), LineFor(b, input, clock, unit, cur))
    ensures forall cur, other :: Total(a, fx, input, clock, cur, other) == Total(b, fx, input, clock, cur, other)
    ensures Priced(a, input, clock) <==> Priced(b, input, clock)
  {
    hide ReportOfFile, ExportText, Portable, RowOf, LineFor, SameLine, Total, Priced, ItemsFor, Enumerates,
      StoredRules, RowOfAny, Rebuilt, NamesResolve, Lasting, InputDimensionKey;
    ExportedTableImportsWhole(rules, names, ids, keys, items);
    RowsRebuild(rules, stored, ReportOfFile(ExportText(items), ids).rows);
    PartsRebuild(rules, stored, a, b, up, model);
    forall unit, cur ensures SameLine(LineFor(a, input, clock, unit, cur), LineFor(b, input, clock, unit, cur)) {
      LinePreserved(a, b, up, model, input, clock, unit, cur);
    }
    SameLinesSameCosts(a, b, input, clock);
    SameCostsSameResult(a, b, fx, input, clock);
  }

  lemma RowsRebuild(rules: seq<Rule>, stored: seq<Rule>, rows: seq<ImportRow>)
    requires StoredRules(stored, rows) && forall row :: row in rows <==> RowOfAny(rules, row)
    ensures Rebuilt(rules, stored)
  {
    hide StoredAs, RowOf, HasStored, HasSource, StoredForOne, RowOfAny;
    forall r | r in rules ensures HasStored(RowOf(r), stored) {
      RowHere(rules, r);
    }
    forall q | q in stored ensures HasSource(q, rules) {
      var row := PickRow(q, rows);
      var r := PickRule(rules, row);
      SourceHere(q, rules, r);
    }
  }

  lemma RowHere(rules: seq<Rule>, r: Rule)
    requires r in rules
    ensures RowOfAny(rules, RowOf(r))
  {
    hide RowOf;
  }

  lemma PickRow(q: Rule, rows: seq<ImportRow>) returns (row: ImportRow)
    requires StoredForOne(q, rows)
    ensures row in rows && StoredAs(q, row)
  {
    hide StoredAs;
    row :| row in rows && StoredAs(q, row);
  }

  lemma PickRule(rules: seq<Rule>, row: ImportRow) returns (r: Rule)
    requires RowOfAny(rules, row)
    ensures r in rules && row == RowOf(r)
  {
    hide RowOf;
    r :| r in rules && row == RowOf(r);
  }

  lemma SameLinesSameCosts(a: seq<Rule>, b: seq<Rule>, input: Input, clock: Clock)
    requires forall unit, cur :: SameLine(LineFor(a, input, clock, unit, cur), LineFor(b, input, clock, unit, cur))
    ensures SameCosts(a, b, input, clock)
  {
    hide LineFor;
  }
}
