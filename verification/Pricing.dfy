/**
 The pricing engine (src/billing/mod.rs:24-452): which rule prices a unit, at what segment price,
 and what a request costs in each currency.

 Amounts are exact (`real`); the billing-zone weekday and minute of the request come in as a Clock.
 A `segments` column is what the Segment deserializer reads from it.
 */
module Pricing {
  import opened Wrappers
  import opened Strings
  import opened Numerals
  import opened Sorting
  import J = Json
  import Fx

  type Json = J.Json

  datatype Segment = Segment(
    name: Option<string>,
    price: Decimal,
    weekdays: Option<seq<string>>,
    windows: Option<seq<(string, string)>>,
    minPrompt: Option<I64>,
    maxPrompt: Option<I64>)

  datatype Segs = Unreadable(isArray: bool) | Readable(list: seq<Segment>)

  datatype Rule = Rule(
    id: nat,
    upstream: nat,
    model: string,
    unit: string,
    currency: string,
    basePrice: Decimal,
    dimensions: Option<Json>,
    dimensionKey: string,
    segments: Option<Segs>,
    contextBasis: string,
    effectiveFrom: Option<int>,
    effectiveTo: Option<int>,
    priority: int,
    sortOrder: int,
    enabled: bool,
    createdAt: int)

  datatype Input = Input(
    at: int,
    promptTokens: Option<I64>,
    completionTokens: Option<I64>,
    cacheWriteTokens: Option<I64>,
    cacheReadTokens: Option<I64>,
    images: Option<I64>,
    imageSize: Option<string>,
    videoSeconds: Option<real>,
    videoResolution: Option<string>,
    videoTaskType: Option<string>)

  datatype Clock = Clock(weekday: string, minutes: int)

  datatype PricedLine = PricedLine(
    unit: string, currency: string, quantity: real, price: real, cost: real, ruleId: nat, segment: Option<string>)

  /** The audit records of a line and of a conversion. */
  datatype PriceUsed = PriceUsed(
    ruleId: nat, unit: string, currency: string, basePrice: Decimal, segment: Option<string>, price: real, effectiveAt: int)

  datatype FxUsed = FxUsed(from: string, to: string, rate: Decimal, source: string, at: Option<int>, inverse: bool)

  datatype PricingResult = PricingResult(
    lines: seq<PricedLine>, costCny: Option<real>, costUsd: Option<real>,
    priceUsed: seq<PriceUsed>, fxSnapshot: seq<FxUsed>, priced: bool)

  const TOKEN_UNITS: seq<string> := ["token_in", "token_out", "token_cache_write", "token_cache_read"]
  const UNITS: seq<string> := TOKEN_UNITS + ["image", "video_second"]

  // --------------------------------------------------------------- dimensions

  /** normalize_dimension_key: nothing, null and {} are "", the rest its compact text with sorted keys. */
  function NormalizeDimensionKey(dimensions: Option<Json>): string {
    match dimensions
    case None => ""
    case Some(v) => if v.Null? || (v.Obj? && v.fields == map[]) then "" else J.CanonText(v)
  }

  function InputDimensionKey(unit: string, input: Input): string {
    if unit == "image" then
      match input.imageSize
      case Some(size) => NormalizeDimensionKey(Some(J.Obj(map["image_size" := J.Str(size)])))
      case None => ""
    else if unit == "video_second" then
      NormalizeDimensionKey(Some(J.Obj(
        (if input.videoResolution.Some? then map["resolution" := J.Str(input.videoResolution.value)] else map[]) +
        (if input.videoTaskType.Some? then map["task_type" := J.Str(input.videoTaskType.value)] else map[]))))
    else ""
  }

  /** Two dimension objects have the same key exactly when they are the same object. */
  lemma DimensionKeyIsDimensions(a: Json, b: Json)
    requires a.Obj? && b.Obj? && J.WellFormed(a) && J.WellFormed(b)
    ensures NormalizeDimensionKey(Some(a)) == NormalizeDimensionKey(Some(b)) <==> a == b
  {
    J.CanonUnambiguous(a, b);
    J.LeadIsFirst(a, "");
    J.LeadIsFirst(b, "");
  }

  // --------------------------------------------------------------- quantities

  function Positive(n: Option<I64>): Option<real> {
    if n.Some? && n.value > 0 then Some(n.value as real) else None
  }

  /** ceil_seconds: truncate, add one for a fraction, at least one; negative counts as zero. */
  function CeilSeconds(seconds: real): real {
    var s := if seconds < 0.0 then 0.0 else seconds;
    var whole := s.Floor as real;
    var c := if s - whole > 0.0 then whole + 1.0 else whole;
    if c < 1.0 then 1.0 else c
  }

  predicate IsWhole(r: real) {
    r.Floor as real == r
  }

  lemma RoundingUp(s: real, whole: int, other: int)
    requires whole as real <= s < whole as real + 1.0
    ensures other as real >= s && s > whole as real ==> other >= whole + 1
    ensures other as real >= s ==> other >= whole
  {
  }

  /** The billed seconds are the least whole number that is at least one and not below the duration. */
  lemma CeilSecondsIsLeast(seconds: real, other: int)
    ensures IsWhole(CeilSeconds(seconds))
    ensures CeilSeconds(seconds) >= 1.0 && CeilSeconds(seconds) >= seconds
    ensures other >= 1 && other as real >= seconds ==> CeilSeconds(seconds) <= other as real
  {
    var s := if seconds < 0.0 then 0.0 else seconds;
    var whole := s.Floor;
    RoundingUp(s, whole, other);
    var n := if s > whole as real then whole + 1 else if whole < 1 then 1 else whole;
    assert n as real == CeilSeconds(seconds);
  }

  function UnitQuantity(unit: string, input: Input): Option<real> {
    if unit == "token_in" then Positive(input.promptTokens)
    else if unit == "token_out" then Positive(input.completionTokens)
    else if unit == "token_cache_write" then Positive(input.cacheWriteTokens)
    else if unit == "token_cache_read" then Positive(input.cacheReadTokens)
    else if unit == "image" then Positive(input.images)
    else if unit == "video_second" then
      match input.videoSeconds
      case Some(s) => Some(CeilSeconds(s))
      case None => None
    else None
  }

  function Divisor(unit: string): (d: real)
    ensures d > 0.0
  {
    if unit in TOKEN_UNITS then 1_000_000.0 else 1.0
  }

  // ----------------------------------------------------------------- segments

  function Wrap32(n: int): int {
    var m := n % 0x1_0000_0000;
    if m < 0x8000_0000 then m else m - 0x1_0000_0000
  }

  function ParseI32(s: string): Option<int> {
    match ParseI64(s)
    case Some(n) => if -0x8000_0000 <= n < 0x8000_0000 then Some(n) else None
    case None => None
  }

  function ParseHhmm(s: string): Option<int> {
    var parts := SplitOn(s, ':');
    var h := ParseI32(Trim(parts[0]));
    var m := if |parts| < 2 then None else ParseI32(Trim(parts[1]));
    if h.Some? && m.Some? then Some(Wrap32(h.value * 60 + m.value)) else None
  }

  /** Start after end crosses midnight. */
  predicate WindowHit(start: string, end: string, minutes: int) {
    var s, e := ParseHhmm(start), ParseHhmm(end);
    s.Some? && e.Some? &&
    if s.value <= e.value then s.value <= minutes <= e.value else minutes >= s.value || minutes < e.value
  }

  /** A window and its swap cover the day; they share only the minute where the earlier one ends. */
  lemma WindowAndSwapCoverTheDay(a: string, b: string, minutes: int)
    requires ParseHhmm(a).Some? && ParseHhmm(b).Some? && ParseHhmm(a).value < ParseHhmm(b).value
    ensures WindowHit(a, b, minutes) || WindowHit(b, a, minutes)
    ensures WindowHit(a, b, minutes) && WindowHit(b, a, minutes) <==> minutes == ParseHhmm(b).value
  {
  }

  function SaturatingAdd(a: int, b: int): I64 {
    var s := a + b;
    if s > I64_MAX then I64_MAX else if s < -I64_MAX - 1 then -I64_MAX - 1 else s
  }

  function ContextValue(rule: Rule, input: Input): I64 {
    if rule.contextBasis == "total_tokens"
    then SaturatingAdd(input.promptTokens.UnwrapOr(0), input.completionTokens.UnwrapOr(0))
    else input.promptTokens.UnwrapOr(0)
  }

  function LowerAscii(c: char): char {
    if 'A' <= c <= 'Z' then c + (32 as char) else c
  }

  predicate SameIgnoringAsciiCase(a: string, b: string) {
    |a| == |b| && forall i :: 0 <= i < |a| ==> LowerAscii(a[i]) == LowerAscii(b[i])
  }

  /** Weekday, then any window, then the context range; an absent or empty part does not restrict. */
  predicate SegmentMatches(seg: Segment, ctx: int, clock: Clock) {
    && (seg.weekdays.Some? && seg.weekdays.value != [] ==>
          exists i :: 0 <= i < |seg.weekdays.value| && SameIgnoringAsciiCase(seg.weekdays.value[i], clock.weekday))
    && (seg.windows.Some? && seg.windows.value != [] ==>
          exists i :: 0 <= i < |seg.windows.value| &&
            WindowHit(seg.windows.value[i].0, seg.windows.value[i].1, clock.minutes))
    && (seg.minPrompt.Some? ==> seg.minPrompt.value <= ctx)
    && (seg.maxPrompt.Some? ==> ctx <= seg.maxPrompt.value)
  }

  function FirstMatchAt(list: seq<Segment>, ctx: int, clock: Clock): (r: Option<nat>)
    ensures r.None? ==> forall j :: 0 <= j < |list| ==> !SegmentMatches(list[j], ctx, clock)
    ensures r.Some? ==> r.value < |list| && SegmentMatches(list[r.value], ctx, clock)
    ensures r.Some? ==> forall j :: 0 <= j < r.value ==> !SegmentMatches(list[j], ctx, clock)
  {
    if list == [] then None
    else if SegmentMatches(list[0], ctx, clock) then Some(0)
    else match FirstMatchAt(list[1..], ctx, clock)
      case Some(i) => Some(i + 1)
      case None => None
  }

  function FirstMatch(list: seq<Segment>, ctx: int, clock: Clock): Option<Segment> {
    match FirstMatchAt(list, ctx, clock)
    case Some(i) => Some(list[i])
    case None => None
  }

  function MatchAt(rule: Rule, ctx: int, clock: Clock): Option<Segment> {
    match rule.segments
    case Some(Readable(list)) => FirstMatch(list, ctx, clock)
    case _ => None
  }

  /** match_segment: segments that do not read, or none, or no match leave the base price. */
  function MatchSegment(rule: Rule, input: Input, clock: Clock): Option<Segment> {
    MatchAt(rule, ContextValue(rule, input), clock)
  }

  // ----------------------------------------------------------- rule selection

  predicate InEffect(rule: Rule, at: int) {
    (rule.effectiveFrom.Some? ==> at >= rule.effectiveFrom.value) &&
    (rule.effectiveTo.Some? ==> at <= rule.effectiveTo.value)
  }

  /** better_rule: higher priority, then lower sort order, then older, then lower id. */
  predicate Better(a: Rule, b: Rule) {
    if a.priority != b.priority then a.priority > b.priority
    else if a.sortOrder != b.sortOrder then a.sortOrder < b.sortOrder
    else if a.createdAt != b.createdAt then a.createdAt < b.createdAt
    else a.id < b.id
  }

  /** On rules with distinct ids `better_rule` is a strict total order. */
  lemma BetterIsStrictTotalOrder(a: Rule, b: Rule, c: Rule)
    ensures !Better(a, a)
    ensures Better(a, b) && Better(b, c) ==> Better(a, c)
    ensures a.id != b.id ==> (Better(a, b) <==> !Better(b, a))
  {
  }

  function Filter<T(!new)>(s: seq<T>, f: T -> bool): (r: seq<T>)
    ensures forall x :: x in r <==> x in s && f(x)
    ensures |r| <= |s|
  {
    if s == [] then [] else (if f(s[0]) then [s[0]] else []) + Filter(s[1..], f)
  }

  function Active(rules: seq<Rule>, unit: string, at: int): seq<Rule> {
    Filter(rules, (r: Rule) => r.unit == unit && r.enabled && InEffect(r, at))
  }

  function Tier(active: seq<Rule>, key: string): seq<Rule> {
    Filter(active, (r: Rule) => r.dimensionKey == key)
  }

  /** The exact dimension tier, or the rules without dimensions when it is empty. */
  function Candidates(rules: seq<Rule>, unit: string, input: Input): seq<Rule> {
    var active := Active(rules, unit, input.at);
    var exact := Tier(active, InputDimensionKey(unit, input));
    if exact == [] then Tier(active, "") else exact
  }

  /** The best candidate of a currency: the first that no other beats. */
  function BestIn(cands: seq<Rule>, cur: string): (r: Option<Rule>)
    ensures r.Some? ==> r.value in cands && r.value.currency == cur
    ensures r.Some? ==> forall o :: o in cands && o.currency == cur ==> !Better(o, r.value)
    ensures r.None? ==> forall o :: o in cands ==> o.currency != cur
  {
    if cands == [] then None
    else
      var n := |cands| - 1;
      var best := BestIn(cands[..n], cur);
      var last := cands[n];
      assert cands == cands[..n] + [last];
      if last.currency == cur && (best.None? || Better(last, best.value)) then Some(last) else best
  }

  function LineOf(rule: Rule, unit: string, quantity: real, input: Input, clock: Clock): PricedLine {
    var seg := MatchSegment(rule, input, clock);
    var price := Value(if seg.Some? then seg.value.price else rule.basePrice);
    PricedLine(unit, rule.currency, quantity, price, price * quantity / Divisor(unit), rule.id,
               if seg.Some? then seg.value.name else None)
  }

  /** The line a unit gets in a currency, if any. */
  function LineFor(rules: seq<Rule>, input: Input, clock: Clock, unit: string, cur: string): (r: Option<PricedLine>)
    ensures r.Some? ==> r.value.unit == unit && r.value.currency == cur
  {
    var quantity := UnitQuantity(unit, input);
    var best := BestIn(Candidates(rules, unit, input), cur);
    if quantity.Some? && best.Some? then Some(LineOf(best.value, unit, quantity.value, input, clock)) else None
  }

  // --------------------------------------------------------- what is charged

  predicate Counts(counter: Option<I64>, quantity: real) {
    counter.Some? && counter.value > 0 && quantity == counter.value as real
  }

  /** What there is to pay for: the counter of the unit, if positive; of a video the least whole number
      of seconds that is at least one and not below its duration. */
  ghost predicate Owes(unit: string, input: Input, quantity: real) {
    || (unit == "token_in" && Counts(input.promptTokens, quantity))
    || (unit == "token_out" && Counts(input.completionTokens, quantity))
    || (unit == "token_cache_write" && Counts(input.cacheWriteTokens, quantity))
    || (unit == "token_cache_read" && Counts(input.cacheReadTokens, quantity))
    || (unit == "image" && Counts(input.images, quantity))
    || (unit == "video_second" && input.videoSeconds.Some? &&
          exists n :: RoundedUp(input.videoSeconds.value, n) && quantity == n as real)
  }

  predicate RoundedUp(seconds: real, n: int) {
    n >= 1 && seconds <= n as real && (n == 1 || (n - 1) as real < seconds)
  }

  lemma OwesIsQuantity(unit: string, input: Input, quantity: real)
    ensures UnitQuantity(unit, input) == Some(quantity) <==> Owes(unit, input, quantity)
  {
    if unit == "video_second" && input.videoSeconds.Some? {
      VideoOwes(input.videoSeconds.value, quantity);
    }
  }

  lemma RoundedUpUnique(seconds: real, c: int, n: int)
    requires RoundedUp(seconds, n) && 1 <= c <= n && seconds <= c as real
    ensures c == n
  {
    assert c < n ==> c as real <= (n - 1) as real;
  }

  lemma BelowMisses(seconds: real, c: int)
    requires c >= 1 && seconds <= c as real && (c > 1 && seconds <= (c - 1) as real ==> c <= c - 1)
    ensures RoundedUp(seconds, c)
  {
  }

  lemma VideoOwes(seconds: real, quantity: real)
    ensures CeilSeconds(seconds) == quantity <==> exists n :: RoundedUp(seconds, n) && quantity == n as real
  {
    hide CeilSeconds, RoundedUp;
    var r := CeilSeconds(seconds);
    CeilSecondsIsLeast(seconds, 1);
    var c := r.Floor;
    assert r == c as real && c >= 1;
    CeilSecondsIsLeast(seconds, c - 1);
    BelowMisses(seconds, c);
    forall n | RoundedUp(seconds, n) ensures n == c {
      RoundedUpNeeds(seconds, n);
      CeilSecondsIsLeast(seconds, n);
      RoundedUpUnique(seconds, c, n);
    }
  }

  lemma RoundedUpNeeds(seconds: real, n: int)
    requires RoundedUp(seconds, n)
    ensures n >= 1 && seconds <= n as real
  {
  }

  /** An entry of a dimension key. */
  function Labelled(key: string, value: string): string {
    "\"" + key + "\":" + J.CanonText(J.Str(value))
  }

  /** The dimension key of a request: the size of its images, or the resolution and the task type of its video. */
  function WantedKey(unit: string, input: Input): string {
    if unit == "image" && input.imageSize.Some? then "{" + Labelled("image_size", input.imageSize.value) + "}"
    else if unit == "video_second" then
      match (input.videoResolution, input.videoTaskType)
      case (Some(r), Some(t)) => "{" + Labelled("resolution", r) + "," + Labelled("task_type", t) + "}"
      case (Some(r), None) => "{" + Labelled("resolution", r) + "}"
      case (None, Some(t)) => "{" + Labelled("task_type", t) + "}"
      case (None, None) => ""
    else ""
  }

  lemma OneLabel(key: string, value: string)
    requires J.Plain(key)
    ensures J.CanonText(J.Obj(map[key := J.Str(value)])) == "{" + Labelled(key, value) + "}"
  {
    hide J.CanonText, J.Quote, J.Plain;
    J.EntrySpelled(key, J.Str(value));
    J.PlainSpelled(key);
    var v := J.CanonText(J.Str(value));
    calc {
      "{" + (("\"" + key + "\"") + (":" + (v + "}")));
      "{" + ("\"" + key + "\":" + v) + "}";
    }
  }

  lemma TwoLabels(a: string, x: string, b: string, y: string)
    requires J.Plain(a) && J.Plain(b) && Less(a, b)
    ensures J.CanonText(J.Obj(map[a := J.Str(x), b := J.Str(y)])) == "{" + Labelled(a, x) + "," + Labelled(b, y) + "}"
  {
    hide J.CanonText, J.Quote, J.Plain, Less;
    J.ObjectSpelled(a, J.Str(x), b, J.Str(y));
    J.PlainSpelled(a);
    J.PlainSpelled(b);
    var v, w := J.CanonText(J.Str(x)), J.CanonText(J.Str(y));
    calc {
      "{" + (("\"" + a + "\"") + (":" + (v + ("," + (("\"" + b + "\"") + (":" + (w + "}")))))));
      "{" + ("\"" + a + "\":" + v) + "," + ("\"" + b + "\":" + w) + "}";
    }
  }

  lemma KeyIsWanted(unit: string, input: Input)
    ensures InputDimensionKey(unit, input) == WantedKey(unit, input)
  {
    hide Labelled, J.CanonText;
    if unit == "image" && input.imageSize.Some? {
      OneLabel("image_size", input.imageSize.value);
      assert J.Obj(map["image_size" := J.Str(input.imageSize.value)]).fields["image_size"].Str?;
    } else if unit == "video_second" {
      VideoKeyIsWanted(input);
    }
  }

  lemma VideoKeyIsWanted(input: Input)
    ensures InputDimensionKey("video_second", input) == WantedKey("video_second", input)
  {
    hide Labelled, J.CanonText, Less;
    match (input.videoResolution, input.videoTaskType)
    case (Some(r), Some(t)) =>
      var m := map["resolution" := J.Str(r), "task_type" := J.Str(t)];
      assert "resolution" in m && map["resolution" := J.Str(r)] + map["task_type" := J.Str(t)] == m;
      ResolutionFirst();
      TwoLabels("resolution", r, "task_type", t);
    case (Some(r), None) =>
      OneLabel("resolution", r);
      assert "resolution" in map["resolution" := J.Str(r)];
      assert map["resolution" := J.Str(r)] + map[] == map["resolution" := J.Str(r)];
    case (None, Some(t)) =>
      OneLabel("task_type", t);
      assert "task_type" in map["task_type" := J.Str(t)];
      assert map[] + map["task_type" := J.Str(t)] == map["task_type" := J.Str(t)];
    case (None, None) =>
  }

  lemma ResolutionFirst()
    ensures Less("resolution", "task_type")
  {
  }

  /** A rule that may price the unit at that time; its period includes both ends. */
  predicate Stands(rule: Rule, unit: string, at: int) {
    && rule.enabled && rule.unit == unit
    && !(rule.effectiveFrom.Some? && at < rule.effectiveFrom.value)
    && !(rule.effectiveTo.Some? && rule.effectiveTo.value < at)
  }

  predicate Outranks(a: Rule, b: Rule) {
    || a.priority > b.priority
    || (a.priority == b.priority && a.sortOrder < b.sortOrder)
    || (a.priority == b.priority && a.sortOrder == b.sortOrder && a.createdAt < b.createdAt)
    || (a.priority == b.priority && a.sortOrder == b.sortOrder && a.createdAt == b.createdAt && a.id < b.id)
  }

  /** A rule that stands, with the dimensions of the request, or without dimensions when no standing rule has those. */
  ghost predicate Runs(rules: seq<Rule>, input: Input, unit: string, rule: Rule) {
    && rule in rules && Stands(rule, unit, input.at)
    && (rule.dimensionKey == WantedKey(unit, input)
        || (rule.dimensionKey == "" && !exists o :: o in rules && Stands(o, unit, input.at) && o.dimensionKey == WantedKey(unit, input)))
  }

  /** The rule that prices a unit in its currency: among those that may, nobody of that currency outranks it. */
  ghost predicate Elected(rules: seq<Rule>, input: Input, unit: string, rule: Rule) {
    Runs(rules, input, unit, rule)
    && !exists o :: Runs(rules, input, unit, o) && o.currency == rule.currency && Outranks(o, rule)
  }

  lemma CandidatesRun(rules: seq<Rule>, unit: string, input: Input, rule: Rule)
    ensures rule in Candidates(rules, unit, input) <==> Runs(rules, input, unit, rule)
  {
    hide WantedKey, InputDimensionKey;
    KeyIsWanted(unit, input);
    var active := Active(rules, unit, input.at);
    assert forall o :: o in active <==> o in rules && Stands(o, unit, input.at);
    var exact := Tier(active, WantedKey(unit, input));
    assert exact == [] || exact[0] in exact;
  }

  lemma ElectedIsBest(rules: seq<Rule>, input: Input, unit: string, rule: Rule)
    ensures BestIn(Candidates(rules, unit, input), rule.currency) == Some(rule) ==> Elected(rules, input, unit, rule)
    ensures DistinctIds(rules) && Elected(rules, input, unit, rule)
      ==> BestIn(Candidates(rules, unit, input), rule.currency) == Some(rule)
  {
    hide BestIn, Candidates, Runs;
    var cands := Candidates(rules, unit, input);
    forall o ensures o in cands <==> Runs(rules, input, unit, o) {
      CandidatesRun(rules, unit, input, o);
    }
    var best := BestIn(cands, rule.currency);
    if DistinctIds(rules) && Elected(rules, input, unit, rule) && best != Some(rule) {
      RunnersAreRules(rules, input, unit);
      BetterIsStrictTotalOrder(best.value, rule, rule);
    }
  }

  lemma RunnersAreRules(rules: seq<Rule>, input: Input, unit: string)
    ensures forall o :: Runs(rules, input, unit, o) ==> o in rules
  {
  }

  /** The segment holds at that context length, weekday and minute; what it leaves out does not restrict. */
  ghost predicate Holds(seg: Segment, ctx: int, clock: Clock) {
    && (seg.weekdays == None || seg.weekdays == Some([])
        || exists d :: d in seg.weekdays.value && SameIgnoringAsciiCase(d, clock.weekday))
    && (seg.windows == None || seg.windows == Some([])
        || exists w :: w in seg.windows.value && Contains(w, clock.minutes))
    && !(seg.minPrompt.Some? && ctx < seg.minPrompt.value)
    && !(seg.maxPrompt.Some? && seg.maxPrompt.value < ctx)
  }

  /** A window with both ends; one that ends before it starts goes past midnight, and then its end is not part of it. */
  ghost predicate Contains(w: (string, string), minutes: int) {
    exists s, e :: ParseHhmm(w.0) == Some(s) && ParseHhmm(w.1) == Some(e)
      && if e < s then !(e <= minutes < s) else s <= minutes <= e
  }

  lemma HoldsIsMatch(seg: Segment, ctx: int, clock: Clock)
    ensures SegmentMatches(seg, ctx, clock) <==> Holds(seg, ctx, clock)
  {
    hide ParseHhmm, SameIgnoringAsciiCase;
    assert forall w: (string, string) :: WindowHit(w.0, w.1, clock.minutes) <==> Contains(w, clock.minutes);
    hide WindowHit, Contains;
    if seg.windows.Some? {
      var ws := seg.windows.value;
      if w :| w in ws && Contains(w, clock.minutes) {
        var i :| 0 <= i < |ws| && ws[i] == w;
        assert WindowHit(ws[i].0, ws[i].1, clock.minutes);
      }
    }
    if seg.weekdays.Some? {
      var ds := seg.weekdays.value;
      if d :| d in ds && SameIgnoringAsciiCase(d, clock.weekday) {
        var i :| 0 <= i < |ds| && ds[i] == d;
      }
    }
  }

  lemma TwoDigitsRead(a: nat, b: nat)
    requires a < 10 && b < 10
    ensures var s := [Digit(a), Digit(b)]; ParseI32(Trim(s)) == Some(10 * a + b) && ':' !in s
  {
    var s := [Digit(a), Digit(b)];
    TrimIsTrimmed(s);
    AppendDigit("", a);
    AppendDigit([Digit(a)], b);
    assert "" + [Digit(a)] == [Digit(a)] && [Digit(a)] + [Digit(b)] == s;
  }

  /** HH:MM reads as minutes of the day. */
  lemma HhmmReads(a: nat, b: nat, c: nat, d: nat)
    requires a < 10 && b < 10 && c < 10 && d < 10
    ensures ParseHhmm([Digit(a), Digit(b), ':', Digit(c), Digit(d)]) == Some(60 * (10 * a + b) + (10 * c + d))
  {
    hide ParseI32, Trim;
    TwoDigitsRead(a, b);
    TwoDigitsRead(c, d);
    var h, m := [Digit(a), Digit(b)], [Digit(c), Digit(d)];
    assert [Digit(a), Digit(b), ':', Digit(c), Digit(d)] == h + [':'] + m;
    SplitOnAppend(h, m, ':');
    assert Find(h, ':') == None && Find(m, ':') == None;
    assert SplitOn(h, ':') == [h] && SplitOn(m, ':') == [m];
  }

  /** The context length is the prompt, or prompt and completion together, cut to the width of an i64. */
  function ContextLength(rule: Rule, input: Input): int {
    var prompt := if input.promptTokens.Some? then input.promptTokens.value else 0;
    var completion := if input.completionTokens.Some? then input.completionTokens.value else 0;
    if rule.contextBasis != "total_tokens" then prompt
    else if prompt + completion >= 0x8000_0000_0000_0000 then 0x7FFF_FFFF_FFFF_FFFF
    else if prompt + completion < -0x8000_0000_0000_0000 then -0x8000_0000_0000_0000
    else prompt + completion
  }

  function SegmentList(rule: Rule): seq<Segment> {
    if rule.segments.Some? && rule.segments.value.Readable? then rule.segments.value.list else []
  }

  /** The price and the segment a rule shows: those of its first segment that holds, else its base price. */
  ghost predicate Shows(rule: Rule, input: Input, clock: Clock, price: real, segment: Option<string>) {
    var list, ctx := SegmentList(rule), ContextLength(rule, input);
    if exists i :: 0 <= i < |list| && Holds(list[i], ctx, clock) then
      exists i :: 0 <= i < |list| && Holds(list[i], ctx, clock) && (forall j :: 0 <= j < i ==> !Holds(list[j], ctx, clock))
        && price == Value(list[i].price) && segment == list[i].name
    else price == Value(rule.basePrice) && segment == None
  }

  lemma ShowsIsMatch(rule: Rule, input: Input, clock: Clock, price: real, segment: Option<string>)
    ensures var seg := MatchSegment(rule, input, clock);
      var shown := Value(if seg.Some? then seg.value.price else rule.basePrice);
      Shows(rule, input, clock, price, segment) <==> price == shown && segment == (if seg.Some? then seg.value.name else None)
  {
    hide SegmentMatches, Holds, Value, FirstMatchAt;
    var list, ctx := SegmentList(rule), ContextLength(rule, input);
    assert ctx == ContextValue(rule, input);
    FirstHolds(list, ctx, clock);
    assert MatchSegment(rule, input, clock) == FirstMatch(list, ctx, clock) by {
      assert FirstMatchAt([], ctx, clock).None?;
    }
    match FirstMatchAt(list, ctx, clock)
    case Some(i) =>
      assert Holds(list[i], ctx, clock);
    case None =>
  }

  lemma FirstHolds(list: seq<Segment>, ctx: int, clock: Clock)
    ensures match FirstMatchAt(list, ctx, clock)
      case None => forall i :: 0 <= i < |list| ==> !Holds(list[i], ctx, clock)
      case Some(i) => Holds(list[i], ctx, clock) && forall j :: 0 <= j < i ==> !Holds(list[j], ctx, clock)
  {
    hide SegmentMatches, Holds, FirstMatchAt;
    forall i | 0 <= i < |list| ensures Holds(list[i], ctx, clock) <==> SegmentMatches(list[i], ctx, clock) {
      HoldsIsMatch(list[i], ctx, clock);
    }
  }

  /** The line a rule makes: its price times the quantity, for tokens per million. */
  ghost predicate ChargedBy(rules: seq<Rule>, input: Input, clock: Clock, rule: Rule, line: PricedLine) {
    && Elected(rules, input, line.unit, rule)
    && line.ruleId == rule.id && line.currency == rule.currency
    && Owes(line.unit, input, line.quantity)
    && Shows(rule, input, clock, line.price, line.segment)
    && (if line.unit == "image" || line.unit == "video_second" then line.cost == Fx.Times(line.price, line.quantity)
        else line.cost * 1_000_000.0 == Fx.Times(line.price, line.quantity))
  }

  ghost predicate Charged(rules: seq<Rule>, input: Input, clock: Clock, line: PricedLine) {
    exists rule :: ChargedBy(rules, input, clock, rule, line)
  }

  lemma LineOfIsCharged(rules: seq<Rule>, input: Input, clock: Clock, rule: Rule, line: PricedLine)
    requires Elected(rules, input, line.unit, rule)
    ensures ChargedBy(rules, input, clock, rule, line) <==>
      UnitQuantity(line.unit, input) == Some(line.quantity) && line == LineOf(rule, line.unit, line.quantity, input, clock)
  {
    hide Elected, Owes, Shows, UnitQuantity, MatchSegment, Value;
    OwesIsQuantity(line.unit, input, line.quantity);
    ShowsIsMatch(rule, input, clock, line.price, line.segment);
    OwedUnits(line.unit, input, line.quantity);
    var product := Fx.Times(line.price, line.quantity);
    assert product == line.price * line.quantity;
  }

  lemma OwedUnits(unit: string, input: Input, quantity: real)
    ensures Owes(unit, input, quantity) ==>
      unit in ["token_in", "token_out", "token_cache_write", "token_cache_read", "image", "video_second"]
    ensures UnitIndex(unit) < |UNITS| <==>
      unit in ["token_in", "token_out", "token_cache_write", "token_cache_read", "image", "video_second"]
  {
  }

  /** Of every unit and currency the engine has exactly the line that is charged. */
  lemma LinesAreCharged(rules: seq<Rule>, input: Input, clock: Clock, line: PricedLine)
    ensures LineFor(rules, input, clock, line.unit, line.currency) == Some(line) ==> Charged(rules, input, clock, line)
    ensures DistinctIds(rules) && Charged(rules, input, clock, line) ==>
      LineFor(rules, input, clock, line.unit, line.currency) == Some(line) && UnitIndex(line.unit) < |UNITS|
  {
    hide Elected, BestIn, Candidates, UnitQuantity, UnitIndex, DistinctIds, MatchSegment, Value, ChargedBy, Fx.Times;
    if LineFor(rules, input, clock, line.unit, line.currency) == Some(line) {
      var rule := BestIn(Candidates(rules, line.unit, input), line.currency).value;
      ElectedIsBest(rules, input, line.unit, rule);
      LineOfIsCharged(rules, input, clock, rule, line);
    }
    if DistinctIds(rules) && Charged(rules, input, clock, line) {
      var rule :| ChargedBy(rules, input, clock, rule, line);
      ChargedNeeds(rules, input, clock, rule, line);
      ElectedIsBest(rules, input, line.unit, rule);
      LineOfIsCharged(rules, input, clock, rule, line);
      OwedUnits(line.unit, input, line.quantity);
    }
  }

  lemma ChargedNeeds(rules: seq<Rule>, input: Input, clock: Clock, rule: Rule, line: PricedLine)
    requires ChargedBy(rules, input, clock, rule, line)
    ensures Elected(rules, input, line.unit, rule) && Owes(line.unit, input, line.quantity)
    ensures line.currency == rule.currency
  {
  }

  /** The audit record of a line names the rule that made it. */
  ghost predicate Recorded(rules: seq<Rule>, input: Input, clock: Clock, line: PricedLine, used: PriceUsed) {
    exists rule :: ChargedBy(rules, input, clock, rule, line)
      && used == PriceUsed(rule.id, line.unit, line.currency, rule.basePrice, line.segment, line.price, input.at)
  }

  lemma RecordNames(rules: seq<Rule>, input: Input, clock: Clock, line: PricedLine)
    requires LineFor(rules, input, clock, line.unit, line.currency) == Some(line)
    ensures Recorded(rules, input, clock, line, UsedFor(rules, input, line))
  {
    hide Elected, BestIn, Candidates, UnitQuantity, MatchSegment, Value, ChargedBy, Fx.Times;
    var rule := BestIn(Candidates(rules, line.unit, input), line.currency).value;
    ElectedIsBest(rules, input, line.unit, rule);
    LineOfIsCharged(rules, input, clock, rule, line);
  }

  /** Tokens in, tokens out, cache writes, cache reads, images, videos: in that order. */
  predicate Before(a: string, b: string) {
    var units := ["token_in", "token_out", "token_cache_write", "token_cache_read", "image", "video_second"];
    exists i, j :: 0 <= i <= j < |units| && units[i] == a && units[j] == b
  }

  lemma IndexedBefore(a: string, b: string)
    requires UnitIndex(a) <= UnitIndex(b) < |UNITS|
    ensures Before(a, b)
  {
    var units := ["token_in", "token_out", "token_cache_write", "token_cache_read", "image", "video_second"];
    assert UNITS == units;
    IndexNames(a);
    IndexNames(b);
    assert units[UnitIndex(a)] == a && units[UnitIndex(b)] == b;
  }

  /** What a request is charged: the lines that are due to somebody, each once, in the order of the units, with their records. */
  ghost predicate Bill(rules: seq<Rule>, input: Input, clock: Clock, lines: seq<PricedLine>, used: seq<PriceUsed>) {
    && (forall l :: l in lines ==> Charged(rules, input, clock, l))
    && (DistinctIds(rules) ==> forall l :: Charged(rules, input, clock, l) ==> l in lines)
    && (forall i, j :: 0 <= i < j < |lines| ==>
          Before(lines[i].unit, lines[j].unit) && (lines[i].unit != lines[j].unit || lines[i].currency != lines[j].currency))
    && |used| == |lines| && forall i :: 0 <= i < |lines| ==> Recorded(rules, input, clock, lines[i], used[i])
  }

  lemma LineUpIsBill(rules: seq<Rule>, input: Input, clock: Clock, lines: seq<PricedLine>)
    requires LineUp(lines, rules, input, clock, |UNITS|, {})
    ensures Bill(rules, input, clock, lines, UsedOf(rules, input, lines))
  {
    hide LineFor, UnitIndex, Charged, DistinctIds, Before, Recorded, UsedOf, UsedFor;
    forall l ensures l in lines ==> Charged(rules, input, clock, l) {
      LinesAreCharged(rules, input, clock, l);
    }
    if DistinctIds(rules) {
      forall l | Charged(rules, input, clock, l) ensures l in lines {
        LinesAreCharged(rules, input, clock, l);
      }
    }
    forall i | 0 <= i < |lines| ensures lines[i] in lines && UnitIndex(lines[i].unit) < |UNITS|
      && LineFor(rules, input, clock, lines[i].unit, lines[i].currency) == Some(lines[i])
    {
      assert Due(rules, input, clock, |UNITS|, {}, lines[i]);
    }
    forall i, j | 0 <= i < j < |lines|
      ensures Before(lines[i].unit, lines[j].unit) && (lines[i].unit != lines[j].unit || lines[i].currency != lines[j].currency)
    {
      IndexedBefore(lines[i].unit, lines[j].unit);
    }
    RecordsOf(rules, input, lines);
    forall i | 0 <= i < |lines| ensures Recorded(rules, input, clock, lines[i], UsedOf(rules, input, lines)[i]) {
      RecordNames(rules, input, clock, lines[i]);
    }
  }

  lemma {:induction false} RecordsOf(rules: seq<Rule>, input: Input, lines: seq<PricedLine>)
    ensures |UsedOf(rules, input, lines)| == |lines|
    ensures forall i :: 0 <= i < |lines| ==> UsedOf(rules, input, lines)[i] == UsedFor(rules, input, lines[i])
  {
    hide UsedFor;
    if lines != [] {
      RecordsOf(rules, input, lines[..|lines| - 1]);
    }
  }

  /** The counters that may change what a unit is charged when no rule of it looks at total tokens. */
  predicate SameFor(unit: string, a: Input, b: Input) {
    && a.at == b.at && a.promptTokens == b.promptTokens
    && (unit == "token_out" ==> a.completionTokens == b.completionTokens)
    && (unit == "token_cache_write" ==> a.cacheWriteTokens == b.cacheWriteTokens)
    && (unit == "token_cache_read" ==> a.cacheReadTokens == b.cacheReadTokens)
    && (unit == "image" ==> a.images == b.images && a.imageSize == b.imageSize)
    && (unit == "video_second" ==>
          a.videoSeconds == b.videoSeconds && a.videoResolution == b.videoResolution && a.videoTaskType == b.videoTaskType)
  }

  /** No other counter does. */
  lemma OtherCountersDoNotMatter(rules: seq<Rule>, a: Input, b: Input, clock: Clock, unit: string, cur: string)
    requires SameFor(unit, a, b)
    requires forall r :: r in rules && r.unit == unit ==> r.contextBasis != "total_tokens"
    ensures LineFor(rules, a, clock, unit, cur) == LineFor(rules, b, clock, unit, cur)
  {
    hide BestIn, Candidates, LineOf, WantedKey, UnitQuantity, InputDimensionKey, SameFor, Runs;
    KeyIsWanted(unit, a);
    KeyIsWanted(unit, b);
    SameWanted(unit, a, b);
    SameQuantity(unit, a, b);
    SameCandidates(rules, unit, a, b);
    var best := BestIn(Candidates(rules, unit, a), cur);
    if best.Some? {
      CandidatesRun(rules, unit, a, best.value);
      SameContext(rules, unit, best.value, a, b);
      var q := UnitQuantity(unit, a);
      if q.Some? {
        SameCharge(best.value, unit, q.value, a, b, clock);
      }
    }
  }

  lemma SameCharge(rule: Rule, unit: string, quantity: real, a: Input, b: Input, clock: Clock)
    requires MatchSegment(rule, a, clock) == MatchSegment(rule, b, clock)
    ensures LineOf(rule, unit, quantity, a, clock) == LineOf(rule, unit, quantity, b, clock)
  {
    hide MatchSegment, Value, Divisor;
    var seg := MatchSegment(rule, a, clock);
    var price := Value(if seg.Some? then seg.value.price else rule.basePrice);
    var cost := price * quantity / Divisor(unit);
    assert LineOf(rule, unit, quantity, a, clock).cost == cost;
    assert LineOf(rule, unit, quantity, b, clock).cost == cost;
  }

  lemma SameContext(rules: seq<Rule>, unit: string, rule: Rule, a: Input, b: Input)
    requires SameFor(unit, a, b) && Runs(rules, a, unit, rule)
    requires forall r :: r in rules && r.unit == unit ==> r.contextBasis != "total_tokens"
    ensures ContextValue(rule, a) == ContextValue(rule, b)
  {
    hide WantedKey;
  }

  lemma SameQuantity(unit: string, a: Input, b: Input)
    requires SameFor(unit, a, b)
    ensures UnitQuantity(unit, a) == UnitQuantity(unit, b)
  {
  }

  lemma SameWanted(unit: string, a: Input, b: Input)
    requires SameFor(unit, a, b)
    ensures WantedKey(unit, a) == WantedKey(unit, b) && a.at == b.at
  {
  }

  lemma SameCandidates(rules: seq<Rule>, unit: string, a: Input, b: Input)
    requires a.at == b.at && InputDimensionKey(unit, a) == InputDimensionKey(unit, b)
    ensures Candidates(rules, unit, a) == Candidates(rules, unit, b)
  {
    hide InputDimensionKey;
  }

  /** Letters agree with their other case, everything else only with itself. */
  lemma CaseIsIgnored(a: char, b: char)
    ensures LowerAscii(a) == LowerAscii(b) <==>
      a == b || ('A' <= a <= 'Z' && b as int == a as int + 32) || ('A' <= b <= 'Z' && a as int == b as int + 32)
  {
  }

  // ------------------------------------------------------------------- totals

  function Cost(rules: seq<Rule>, input: Input, clock: Clock, unit: string, cur: string): real {
    match LineFor(rules, input, clock, unit, cur)
    case Some(line) => line.cost
    case None => 0.0
  }

  /** The cost of the first `n` units in a currency. */
  function DirectSum(rules: seq<Rule>, input: Input, clock: Clock, cur: string, n: nat): real
    requires n <= |UNITS|
  {
    if n == 0 then 0.0 else DirectSum(rules, input, clock, cur, n - 1) + Cost(rules, input, clock, UNITS[n - 1], cur)
  }

  predicate HasLine(rules: seq<Rule>, input: Input, clock: Clock, cur: string) {
    exists k :: 0 <= k < |UNITS| && LineFor(rules, input, clock, UNITS[k], cur).Some?
  }

  /** A total: the direct sum plus the other currency's sum converted, where convertible. */
  function Combine(has: bool, direct: real, hasOther: bool, foreign: real, factor: Option<real>): Option<real> {
    if hasOther && factor.Some? then Some(direct + Fx.Times(foreign, factor.value))
    else if has then Some(direct)
    else None
  }

  function Total(rules: seq<Rule>, fx: Fx.FxSet, input: Input, clock: Clock, cur: string, other: string): Option<real> {
    Combine(HasLine(rules, input, clock, cur), DirectSum(rules, input, clock, cur, |UNITS|),
            HasLine(rules, input, clock, other), DirectSum(rules, input, clock, other, |UNITS|),
            Fx.Factor(fx, other, cur))
  }

  function UnitIndex(unit: string): nat {
    match IndexOf(UNITS, unit)
    case Some(i) => i
    case None => |UNITS|
  }

  function IndexOf(s: seq<string>, x: string): (r: Option<nat>)
    ensures r.Some? ==> r.value < |s| && s[r.value] == x
    ensures r.None? ==> x !in s
  {
    if s == [] then None
    else if s[0] == x then Some(0)
    else match IndexOf(s[1..], x)
      case Some(i) => Some(i + 1)
      case None => None
  }

  lemma UnitsAreDistinct(k: nat)
    requires k < |UNITS|
    ensures UnitIndex(UNITS[k]) == k
  {
    assert UNITS[1..][1..][1..][1..][1..] == ["video_second"];
  }

  /** `l` is the line of its unit and currency, among the first `n` units or the done currencies of the next. */
  predicate Due(rules: seq<Rule>, input: Input, clock: Clock, n: nat, done: set<string>, l: PricedLine) {
    && LineFor(rules, input, clock, l.unit, l.currency) == Some(l)
    && (UnitIndex(l.unit) < n || (UnitIndex(l.unit) == n && l.currency in done))
  }

  /** Exactly the lines due, each once, unit by unit. */
  ghost predicate LineUp(lines: seq<PricedLine>, rules: seq<Rule>, input: Input, clock: Clock, n: nat, done: set<string>) {
    && (forall l :: l in lines <==> Due(rules, input, clock, n, done, l))
    && NoRepeats(lines)
    && (forall i, j :: 0 <= i < j < |lines| ==> UnitIndex(lines[i].unit) <= UnitIndex(lines[j].unit))
  }

  // ------------------------------------------------------------ audit records

  /** The record of a line: the rule that won its unit and currency, and the price it gave. */
  function UsedFor(rules: seq<Rule>, input: Input, line: PricedLine): PriceUsed {
    var best := BestIn(Candidates(rules, line.unit, input), line.currency);
    PriceUsed(line.ruleId, line.unit, line.currency, if best.Some? then best.value.basePrice else ZERO,
              line.segment, line.price, input.at)
  }

  function UsedOf(rules: seq<Rule>, input: Input, lines: seq<PricedLine>): seq<PriceUsed> {
    if lines == [] then []
    else UsedOf(rules, input, lines[..|lines| - 1]) + [UsedFor(rules, input, lines[|lines| - 1])]
  }

  lemma UsedNext(rules: seq<Rule>, input: Input, lines: seq<PricedLine>, line: PricedLine)
    ensures UsedOf(rules, input, lines + [line]) == UsedOf(rules, input, lines) + [UsedFor(rules, input, line)]
  {
    hide UsedFor;
    assert (lines + [line])[..|lines|] == lines;
  }

  function OtherCurrency(cur: string): Option<string> {
    if cur == "USD" then Some("CNY") else if cur == "CNY" then Some("USD") else None
  }

  /** The record of the conversion a line needs. */
  function FxUsedFor(fx: Fx.FxSet, line: PricedLine): seq<FxUsed> {
    match OtherCurrency(line.currency)
    case None => []
    case Some(other) =>
      match Fx.Convert(fx, line.currency, other, line.cost)
      case Some((_, Some(r))) => [FxUsed(line.currency, other, r.rate, r.source, r.at, r.inverse)]
      case _ => []
  }

  function Snapshot(fx: Fx.FxSet, lines: seq<PricedLine>): seq<FxUsed> {
    if lines == [] then [] else Snapshot(fx, lines[..|lines| - 1]) + FxUsedFor(fx, lines[|lines| - 1])
  }

  lemma SnapshotNext(fx: Fx.FxSet, lines: seq<PricedLine>, i: nat)
    requires i < |lines|
    ensures Snapshot(fx, lines[..i + 1]) == Snapshot(fx, lines[..i]) + FxUsedFor(fx, lines[i])
  {
    hide FxUsedFor;
    assert lines[..i + 1][..i] == lines[..i];
  }

  /** Every line in CNY or USD leaves one record, and its rate is the one that made the converted amount. */
  lemma SnapshotExplainsTotals(fx: Fx.FxSet, line: PricedLine)
    requires OtherCurrency(line.currency).Some?
    ensures var used := FxUsedFor(fx, line);
      var v := Fx.Convert(fx, line.currency, OtherCurrency(line.currency).value, line.cost);
      && |used| == 1 && v.Some? && v.value.0 == Fx.Times(line.cost, Value(used[0].rate))
      && {used[0].from, used[0].to} == {"CNY", "USD"} && used[0].from == line.currency
      && v.value.1 == Some(Fx.FxRate(used[0].rate, used[0].source, used[0].at, used[0].inverse))
  {
    hide Value, Fx.Recip;
  }

  function SumCur(lines: seq<PricedLine>, cur: string): real {
    if lines == [] then 0.0
    else SumCur(lines[..|lines| - 1], cur) + if lines[|lines| - 1].currency == cur then lines[|lines| - 1].cost else 0.0
  }

  // ------------------------------------------------------------------- engine

  /** The per-currency choice of one unit: a later candidate replaces the best only when it beats it. */
  method BestByCurrency(cands: seq<Rule>) returns (best: map<string, Rule>)
    ensures forall c :: c in best <==> BestIn(cands, c).Some?
    ensures forall c :: c in best ==> best[c] == BestIn(cands, c).value
  {
    best := map[];
    for i := 0 to |cands|
      invariant forall c :: c in best <==> BestIn(cands[..i], c).Some?
      invariant forall c :: c in best ==> best[c] == BestIn(cands[..i], c).value
    {
      hide BestIn;
      var r := cands[i];
      forall c {
        BestOfNext(cands, i, c);
      }
      if r.currency !in best || Better(r, best[r.currency]) {
        best := best[r.currency := r];
      }
    }
    assert cands[..|cands|] == cands;
  }

  lemma BestOfNext(cands: seq<Rule>, i: nat, c: string)
    requires i < |cands|
    ensures BestIn(cands[..i + 1], c)
         == var best := BestIn(cands[..i], c);
            if cands[i].currency == c && (best.None? || Better(cands[i], best.value)) then Some(cands[i]) else best
  {
    assert cands[..i + 1][..i] == cands[..i];
  }

  /** The sums so far: whole units, and the done currencies of the next. */
  ghost predicate Summed(lines: seq<PricedLine>, rules: seq<Rule>, input: Input, clock: Clock, n: nat, done: set<string>)
    requires n < |UNITS|
  {
    forall c :: SumCur(lines, c) == DirectSum(rules, input, clock, c, n)
                                  + if c in done then Cost(rules, input, clock, UNITS[n], c) else 0.0
  }

  lemma AddLine(lines: seq<PricedLine>, rules: seq<Rule>, input: Input, clock: Clock, n: nat, done: set<string>, c: string)
    requires n < |UNITS| && c !in done && LineFor(rules, input, clock, UNITS[n], c).Some?
    requires LineUp(lines, rules, input, clock, n, done) && Summed(lines, rules, input, clock, n, done)
    ensures var out := lines + [LineFor(rules, input, clock, UNITS[n], c).value];
      LineUp(out, rules, input, clock, n, done + {c}) && Summed(out, rules, input, clock, n, done + {c})
  {
    hide LineFor, UnitIndex, DirectSum;
    var line := LineFor(rules, input, clock, UNITS[n], c).value;
    var out := lines + [line];
    UnitsAreDistinct(n);
    assert !Due(rules, input, clock, n, done, line);
    forall l ensures l in out <==> Due(rules, input, clock, n, done + {c}, l) {
      assert l in lines <==> Due(rules, input, clock, n, done, l);
      if UnitIndex(l.unit) == n && l.currency == c {
        IndexNames(l.unit);
      }
    }
    assert forall i :: 0 <= i < |lines| ==> lines[i] in lines;
    assert out[..|out| - 1] == lines;
  }

  lemma IndexNames(unit: string)
    ensures UnitIndex(unit) < |UNITS| ==> UNITS[UnitIndex(unit)] == unit
  {
  }

  lemma UnitDone(lines: seq<PricedLine>, rules: seq<Rule>, input: Input, clock: Clock, n: nat, done: set<string>)
    requires n < |UNITS| && forall c :: LineFor(rules, input, clock, UNITS[n], c).Some? ==> c in done
    requires LineUp(lines, rules, input, clock, n, done) && Summed(lines, rules, input, clock, n, done)
    ensures LineUp(lines, rules, input, clock, n + 1, {})
    ensures forall c :: SumCur(lines, c) == DirectSum(rules, input, clock, c, n + 1)
  {
    hide LineFor, UnitIndex;
    forall l ensures Due(rules, input, clock, n, done, l) <==> Due(rules, input, clock, n + 1, {}, l) {
      IndexNames(l.unit);
    }
  }

  /** One round of the unit loop: a line for each currency that has a best candidate. */
  method PriceUnit(rules: seq<Rule>, input: Input, clock: Clock, n: nat, lines: seq<PricedLine>, priceUsed: seq<PriceUsed>)
    returns (out: seq<PricedLine>, used: seq<PriceUsed>)
    requires n < |UNITS| && LineUp(lines, rules, input, clock, n, {}) && priceUsed == UsedOf(rules, input, lines)
    requires forall c :: SumCur(lines, c) == DirectSum(rules, input, clock, c, n)
    ensures LineUp(out, rules, input, clock, n + 1, {}) && used == UsedOf(rules, input, out)
    ensures forall c :: SumCur(out, c) == DirectSum(rules, input, clock, c, n + 1)
  {
    hide LineUp, BestIn, Candidates, DirectSum, SumCur, MatchSegment, UnitQuantity, UsedOf;
    out, used := lines, priceUsed;
    var unit := UNITS[n];
    var quantity := UnitQuantity(unit, input);
    var cands := Candidates(rules, unit, input);
    var rest: set<string> := {};
    var best: map<string, Rule> := map[];
    if quantity.Some? {
      best := BestByCurrency(cands);
      rest := best.Keys;
    }
    ghost var done: set<string> := {};
    while rest != {}
      invariant rest <= best.Keys && done == best.Keys - rest
      invariant LineUp(out, rules, input, clock, n, done) && Summed(out, rules, input, clock, n, done)
      invariant used == UsedOf(rules, input, out)
    {
      hide Summed;
      var c :| c in rest;
      AddLine(out, rules, input, clock, n, done, c);
      var rule := best[c];
      var line := LineOf(rule, unit, quantity.value, input, clock);
      UsedNext(rules, input, out, line);
      out := out + [line];
      used := used + [PriceUsed(rule.id, unit, c, rule.basePrice, line.segment, line.price, input.at)];
      rest := rest - {c};
      done := done + {c};
    }
    UnitDone(out, rules, input, clock, n, done);
  }

  predicate HasCur(lines: seq<PricedLine>, cur: string) {
    exists i :: 0 <= i < |lines| && lines[i].currency == cur
  }

  /** What one currency's lines add to a total in another. */
  function Converted(fx: Fx.FxSet, lines: seq<PricedLine>, from: string, to: string): real {
    match Fx.Factor(fx, from, to)
    case Some(factor) => Fx.Times(SumCur(lines, from), factor)
    case None => 0.0
  }

  lemma ConvertedNext(fx: Fx.FxSet, lines: seq<PricedLine>, i: nat, from: string, to: string)
    requires i < |lines|
    ensures Converted(fx, lines[..i + 1], from, to)
         == Converted(fx, lines[..i], from, to)
            + if lines[i].currency == from && Fx.Convert(fx, from, to, lines[i].cost).Some?
              then Fx.Convert(fx, from, to, lines[i].cost).value.0 else 0.0
  {
    hide Fx.Factor, Fx.Convert, Fx.Times;
    assert lines[..i + 1][..i] == lines[..i];
    Fx.ConvertIsLinear(fx, from, to, lines[i].cost);
    if Fx.Factor(fx, from, to).Some? && lines[i].currency == from {
      Fx.Distribute(SumCur(lines[..i], from), lines[i].cost, Fx.Factor(fx, from, to).value);
    }
  }

  /** The two-currency summary: direct sums first, then every line of the other currency converted. */
  method Totals(fx: Fx.FxSet, lines: seq<PricedLine>) returns (cny: Option<real>, usd: Option<real>, fxUsed: seq<FxUsed>)
    ensures cny == TotalOf(fx, lines, "CNY", "USD")
    ensures usd == TotalOf(fx, lines, "USD", "CNY")
    ensures fxUsed == Snapshot(fx, lines)
  {
    hide SumCur, Converted, Fx.Times, Fx.Factor, Fx.Convert, Snapshot;
    var cnyDirect, usdDirect, hasCny, hasUsd := 0.0, 0.0, false, false;
    EmptySums(fx);
    for i := 0 to |lines|
      invariant cnyDirect == SumCur(lines[..i], "CNY") && usdDirect == SumCur(lines[..i], "USD")
      invariant hasCny == HasCur(lines[..i], "CNY") && hasUsd == HasCur(lines[..i], "USD")
    {
      SumNext(lines, i, "CNY");
      SumNext(lines, i, "USD");
      if lines[i].currency == "CNY" {
        cnyDirect, hasCny := cnyDirect + lines[i].cost, true;
      } else if lines[i].currency == "USD" {
        usdDirect, hasUsd := usdDirect + lines[i].cost, true;
      }
    }
    var cnySum, usdSum, cnyObtained, usdObtained := cnyDirect, usdDirect, hasCny, hasUsd;
    fxUsed := [];
    for i := 0 to |lines|
      invariant cnySum == cnyDirect + Converted(fx, lines[..i], "USD", "CNY")
      invariant usdSum == usdDirect + Converted(fx, lines[..i], "CNY", "USD")
      invariant cnyObtained == (hasCny || (HasCur(lines[..i], "USD") && Fx.Factor(fx, "USD", "CNY").Some?))
      invariant usdObtained == (hasUsd || (HasCur(lines[..i], "CNY") && Fx.Factor(fx, "CNY", "USD").Some?))
      invariant fxUsed == Snapshot(fx, lines[..i])
    {
      hide HasCur;
      SumNext(lines, i, "CNY");
      SumNext(lines, i, "USD");
      ConvertedNext(fx, lines, i, "USD", "CNY");
      ConvertedNext(fx, lines, i, "CNY", "USD");
      Fx.ConvertIsLinear(fx, "USD", "CNY", lines[i].cost);
      Fx.ConvertIsLinear(fx, "CNY", "USD", lines[i].cost);
      SnapshotNext(fx, lines, i);
      if lines[i].currency == "USD" {
        match Fx.Convert(fx, "USD", "CNY", lines[i].cost) {
          case Some((v, rate)) =>
            cnySum, cnyObtained := cnySum + v, true;
            match rate {
              case Some(r) => fxUsed := fxUsed + [FxUsed("USD", "CNY", r.rate, r.source, r.at, r.inverse)];
              case None =>
            }
          case None =>
        }
      } else if lines[i].currency == "CNY" {
        match Fx.Convert(fx, "CNY", "USD", lines[i].cost) {
          case Some((v, rate)) =>
            usdSum, usdObtained := usdSum + v, true;
            match rate {
              case Some(r) => fxUsed := fxUsed + [FxUsed("CNY", "USD", r.rate, r.source, r.at, r.inverse)];
              case None =>
            }
          case None =>
        }
      }
    }
    assert lines[..|lines|] == lines;
    ConvertedNone(fx, lines, "USD", "CNY");
    ConvertedNone(fx, lines, "CNY", "USD");
    cny := if cnyObtained then Some(cnySum) else None;
    usd := if usdObtained then Some(usdSum) else None;
  }

  function TotalOf(fx: Fx.FxSet, lines: seq<PricedLine>, cur: string, other: string): Option<real> {
    if HasCur(lines, cur) || (HasCur(lines, other) && Fx.Factor(fx, other, cur).Some?)
    then Some(SumCur(lines, cur) + Converted(fx, lines, other, cur))
    else None
  }

  /** A line in each currency: each total is one cost and the other converted. */
  lemma OneLineEach(fx: Fx.FxSet, a: PricedLine, b: PricedLine)
    requires a.currency == "CNY" && b.currency == "USD"
    ensures Fx.Convert(fx, "USD", "CNY", b.cost).Some? && Fx.Convert(fx, "CNY", "USD", a.cost).Some?
    ensures TotalOf(fx, [a, b], "CNY", "USD") == Some(a.cost + Fx.Convert(fx, "USD", "CNY", b.cost).value.0)
    ensures TotalOf(fx, [a, b], "USD", "CNY") == Some(b.cost + Fx.Convert(fx, "CNY", "USD", a.cost).value.0)
    ensures TotalOf(fx, [a], "CNY", "USD") == Some(a.cost) && TotalOf(fx, [b], "USD", "CNY") == Some(b.cost)
  {
    hide Fx.Factor, Fx.Convert, Fx.Times;
    Fx.CnyAndUsdConvert(fx);
    Fx.ConvertIsLinear(fx, "USD", "CNY", b.cost);
    Fx.ConvertIsLinear(fx, "CNY", "USD", a.cost);
    var both := [a, b];
    assert both[..0] == [] && both[..1] == [a] && both[..2] == both && [a][..1] == [a] && [b][..1] == [b] && [b][..0] == [];
    SumNext(both, 0, "CNY");
    SumNext(both, 1, "CNY");
    SumNext(both, 0, "USD");
    SumNext(both, 1, "USD");
    SumNext([b], 0, "CNY");
    SumNext([b], 0, "USD");
    ConvertedNone(fx, [a], "USD", "CNY");
    ConvertedNone(fx, [b], "CNY", "USD");
  }

  lemma EmptySums(fx: Fx.FxSet)
    ensures forall c :: SumCur([], c) == 0.0
    ensures forall a, b :: Converted(fx, [], a, b) == 0.0
    ensures Snapshot(fx, []) == []
  {
  }

  lemma SumNext(lines: seq<PricedLine>, i: nat, cur: string)
    requires i < |lines|
    ensures SumCur(lines[..i + 1], cur) == SumCur(lines[..i], cur) + if lines[i].currency == cur then lines[i].cost else 0.0
    ensures HasCur(lines[..i + 1], cur) <==> HasCur(lines[..i], cur) || lines[i].currency == cur
  {
    assert lines[..i + 1][..i] == lines[..i];
    if HasCur(lines[..i], cur) {
      var j :| 0 <= j < i && lines[..i][j].currency == cur;
      assert lines[..i + 1][j].currency == cur;
    }
    assert lines[..i + 1][i] == lines[i];
    if HasCur(lines[..i + 1], cur) && lines[i].currency != cur {
      var j :| 0 <= j < i + 1 && lines[..i + 1][j].currency == cur;
      assert lines[..i][j].currency == cur;
    }
  }

  lemma {:induction false} NoCurNoSum(lines: seq<PricedLine>, cur: string)
    requires !HasCur(lines, cur)
    ensures SumCur(lines, cur) == 0.0
  {
    if lines != [] {
      assert forall i :: 0 <= i < |lines| - 1 ==> lines[..|lines| - 1][i] == lines[i];
      NoCurNoSum(lines[..|lines| - 1], cur);
    }
  }

  lemma ConvertedNone(fx: Fx.FxSet, lines: seq<PricedLine>, from: string, to: string)
    ensures !HasCur(lines, from) ==> Converted(fx, lines, from, to) == 0.0
  {
    if !HasCur(lines, from) {
      NoCurNoSum(lines, from);
    }
  }

  lemma LineUpHas(lines: seq<PricedLine>, rules: seq<Rule>, input: Input, clock: Clock, cur: string)
    requires LineUp(lines, rules, input, clock, |UNITS|, {})
    ensures HasCur(lines, cur) <==> HasLine(rules, input, clock, cur)
  {
    hide LineFor, UnitIndex;
    if i :| 0 <= i < |lines| && lines[i].currency == cur {
      assert lines[i] in lines;
      IndexNames(lines[i].unit);
      assert LineFor(rules, input, clock, UNITS[UnitIndex(lines[i].unit)], cur).Some?;
    }
    if k :| 0 <= k < |UNITS| && LineFor(rules, input, clock, UNITS[k], cur).Some? {
      UnitsAreDistinct(k);
      var l := LineFor(rules, input, clock, UNITS[k], cur).value;
      assert Due(rules, input, clock, |UNITS|, {}, l);
      var i :| 0 <= i < |lines| && lines[i] == l;
    }
  }

  lemma LineUpTotal(fx: Fx.FxSet, lines: seq<PricedLine>, rules: seq<Rule>, input: Input, clock: Clock,
                    cur: string, other: string)
    requires LineUp(lines, rules, input, clock, |UNITS|, {})
    requires forall c :: SumCur(lines, c) == DirectSum(rules, input, clock, c, |UNITS|)
    ensures TotalOf(fx, lines, cur, other) == Total(rules, fx, input, clock, cur, other)
  {
    hide LineUp, HasLine, HasCur, DirectSum, Fx.Factor, Combine, TotalOf;
    LineUpHas(lines, rules, input, clock, cur);
    LineUpHas(lines, rules, input, clock, other);
    TotalIsCombined(fx, lines, cur, other);
  }

  lemma TotalIsCombined(fx: Fx.FxSet, lines: seq<PricedLine>, cur: string, other: string)
    ensures TotalOf(fx, lines, cur, other)
         == Combine(HasCur(lines, cur), SumCur(lines, cur), HasCur(lines, other), SumCur(lines, other),
                    Fx.Factor(fx, other, cur))
  {
    hide HasCur, Fx.Factor, SumCur;
    ConvertedNone(fx, lines, other, cur);
    if !HasCur(lines, cur) {
      NoCurNoSum(lines, cur);
    }
  }

  /** price_with_rules: exactly the lines due, in unit order, and both totals. */
  method PriceWithRules(rules: seq<Rule>, fx: Fx.FxSet, input: Input, clock: Clock) returns (r: PricingResult)
    ensures LineUp(r.lines, rules, input, clock, |UNITS|, {})
    ensures Bill(rules, input, clock, r.lines, r.priceUsed)
    ensures r.priceUsed == UsedOf(rules, input, r.lines) && r.fxSnapshot == Snapshot(fx, r.lines)
    ensures r.costCny == Total(rules, fx, input, clock, "CNY", "USD")
    ensures r.costUsd == Total(rules, fx, input, clock, "USD", "CNY")
    ensures r.costCny == TotalOf(fx, r.lines, "CNY", "USD") && r.costUsd == TotalOf(fx, r.lines, "USD", "CNY")
    ensures r.priced <==> Priced(rules, input, clock)
    ensures r.priced <==> r.lines != []
  {
    hide Candidates, LineOf, UnitQuantity;
    var lines: seq<PricedLine>, used: seq<PriceUsed> := [], [];
    for n := 0 to |UNITS|
      invariant LineUp(lines, rules, input, clock, n, {}) && used == UsedOf(rules, input, lines)
      invariant forall c :: SumCur(lines, c) == DirectSum(rules, input, clock, c, n)
    {
      hide LineUp, SumCur, DirectSum, UsedOf;
      lines, used := PriceUnit(rules, input, clock, n, lines, used);
    }
    hide LineUp, SumCur, DirectSum, TotalOf, Total, Priced, UsedOf, Snapshot;
    var cny, usd, fxUsed := Totals(fx, lines);
    LineUpTotal(fx, lines, rules, input, clock, "CNY", "USD");
    LineUpTotal(fx, lines, rules, input, clock, "USD", "CNY");
    LineUpPriced(lines, rules, input, clock);
    hide Bill;
    LineUpIsBill(rules, input, clock, lines);
    r := PricingResult(lines, cny, usd, used, fxUsed, lines != []);
  }

  /** Some unit has a line in some currency. */
  ghost predicate Priced(rules: seq<Rule>, input: Input, clock: Clock) {
    exists cur :: HasLine(rules, input, clock, cur)
  }

  lemma LineUpPriced(lines: seq<PricedLine>, rules: seq<Rule>, input: Input, clock: Clock)
    requires LineUp(lines, rules, input, clock, |UNITS|, {})
    ensures lines != [] <==> Priced(rules, input, clock)
  {
    hide LineUp, HasLine;
    if lines != [] {
      assert HasCur(lines, lines[0].currency);
      LineUpHas(lines, rules, input, clock, lines[0].currency);
    }
    if cur :| HasLine(rules, input, clock, cur) {
      LineUpHas(lines, rules, input, clock, cur);
    }
  }

  // ------------------------------------------------------- order independence

  ghost predicate DistinctIds(rules: seq<Rule>) {
    forall a, b :: a in rules && b in rules && a.id == b.id ==> a == b
  }

  ghost predicate SameEnabled(a: seq<Rule>, b: seq<Rule>) {
    forall r: Rule :: r.enabled ==> (r in a <==> r in b)
  }

  lemma BestIsUnique(a: seq<Rule>, b: seq<Rule>, cur: string)
    requires DistinctIds(a) && forall r :: r in a <==> r in b
    ensures BestIn(a, cur) == BestIn(b, cur)
  {
    hide BestIn;
    var x, y := BestIn(a, cur), BestIn(b, cur);
    if x.Some? && y.Some? && x.value != y.value {
      BetterIsStrictTotalOrder(x.value, y.value, x.value);
    }
  }

  lemma CandidatesAreTheSame(a: seq<Rule>, b: seq<Rule>, unit: string, input: Input)
    requires SameEnabled(a, b)
    ensures forall r :: r in Candidates(a, unit, input) <==> r in Candidates(b, unit, input)
    ensures forall r :: r in Candidates(a, unit, input) ==> r in a
  {
    hide InEffect, InputDimensionKey;
    var activeA, activeB := Active(a, unit, input.at), Active(b, unit, input.at);
    assert forall r :: r in activeA <==> r in activeB;
    var key := InputDimensionKey(unit, input);
    TierEmpty(activeA, activeB, key);
  }

  lemma TierEmpty(a: seq<Rule>, b: seq<Rule>, key: string)
    requires forall r :: r in a <==> r in b
    ensures Tier(a, key) == [] <==> Tier(b, key) == []
  {
    if Tier(a, key) != [] {
      assert Tier(a, key)[0] in Tier(a, key);
      assert Tier(a, key)[0] in Tier(b, key);
    }
    if Tier(b, key) != [] {
      assert Tier(b, key)[0] in Tier(b, key);
      assert Tier(b, key)[0] in Tier(a, key);
    }
  }

  /** Neither the order of the rules nor the disabled ones among them can change a line. */
  lemma RuleOrderIsIrrelevant(a: seq<Rule>, b: seq<Rule>, input: Input, clock: Clock, unit: string, cur: string)
    requires DistinctIds(a) && SameEnabled(a, b)
    ensures LineFor(a, input, clock, unit, cur) == LineFor(b, input, clock, unit, cur)
  {
    hide Candidates;
    CandidatesAreTheSame(a, b, unit, input);
    BestIsUnique(Candidates(a, unit, input), Candidates(b, unit, input), cur);
  }

  /** The same lines up to what does not enter a total. */
  ghost predicate SameCosts(a: seq<Rule>, b: seq<Rule>, input: Input, clock: Clock) {
    forall unit, cur ::
      && (LineFor(a, input, clock, unit, cur).Some? <==> LineFor(b, input, clock, unit, cur).Some?)
      && Cost(a, input, clock, unit, cur) == Cost(b, input, clock, unit, cur)
  }

  lemma {:induction false} SameCostsSameSums(a: seq<Rule>, b: seq<Rule>, input: Input, clock: Clock, cur: string, n: nat)
    requires n <= |UNITS| && SameCosts(a, b, input, clock)
    ensures DirectSum(a, input, clock, cur, n) == DirectSum(b, input, clock, cur, n)
  {
    hide LineFor, Cost;
    if n > 0 {
      SameCostsSameSums(a, b, input, clock, cur, n - 1);
      assert Cost(a, input, clock, UNITS[n - 1], cur) == Cost(b, input, clock, UNITS[n - 1], cur);
    }
  }

  /** Rules that give the same costs give the same totals. */
  lemma SameCostsSameResult(a: seq<Rule>, b: seq<Rule>, fx: Fx.FxSet, input: Input, clock: Clock)
    requires SameCosts(a, b, input, clock)
    ensures forall cur, other :: Total(a, fx, input, clock, cur, other) == Total(b, fx, input, clock, cur, other)
    ensures Priced(a, input, clock) <==> Priced(b, input, clock)
  {
    hide LineFor, Cost, DirectSum;
    forall cur ensures HasLine(a, input, clock, cur) <==> HasLine(b, input, clock, cur) {
      assert forall k :: 0 <= k < |UNITS| ==>
        (LineFor(a, input, clock, UNITS[k], cur).Some? <==> LineFor(b, input, clock, UNITS[k], cur).Some?);
    }
    hide HasLine, Combine;
    forall cur, other ensures Total(a, fx, input, clock, cur, other) == Total(b, fx, input, clock, cur, other) {
      SameCostsSameSums(a, b, input, clock, cur, |UNITS|);
      SameCostsSameSums(a, b, input, clock, other, |UNITS|);
    }
  }

  /** Two runs of the engine on the same enabled rules, in any order, list the same lines. */
  lemma LinesAreDetermined(a: seq<Rule>, b: seq<Rule>, input: Input, clock: Clock,
                           x: seq<PricedLine>, y: seq<PricedLine>)
    requires DistinctIds(a) && SameEnabled(a, b)
    requires LineUp(x, a, input, clock, |UNITS|, {}) && LineUp(y, b, input, clock, |UNITS|, {})
    ensures multiset(x) == multiset(y)
  {
    hide LineFor, UnitIndex;
    forall l ensures l in x <==> l in y {
      RuleOrderIsIrrelevant(a, b, input, clock, l.unit, l.currency);
    }
    CountsOnce(x);
    CountsOnce(y);
    forall l ensures multiset(x)[l] == multiset(y)[l] {
    }
  }

  /** What one run lists and records is what the other may list and record. */
  lemma RecordsAgree(a: seq<Rule>, b: seq<Rule>, input: Input, clock: Clock, lines: seq<PricedLine>)
    requires DistinctIds(a) && SameEnabled(a, b) && LineUp(lines, a, input, clock, |UNITS|, {})
    ensures LineUp(lines, b, input, clock, |UNITS|, {}) && UsedOf(a, input, lines) == UsedOf(b, input, lines)
  {
    hide LineFor, UnitIndex, UsedOf, DistinctIds, SameEnabled;
    forall unit, cur ensures LineFor(a, input, clock, unit, cur) == LineFor(b, input, clock, unit, cur) {
      RuleOrderIsIrrelevant(a, b, input, clock, unit, cur);
    }
    SameRecords(a, b, input, lines);
  }

  lemma {:induction false} SameRecords(a: seq<Rule>, b: seq<Rule>, input: Input, lines: seq<PricedLine>)
    requires DistinctIds(a) && SameEnabled(a, b)
    ensures UsedOf(a, input, lines) == UsedOf(b, input, lines)
  {
    hide Candidates, DistinctIds, SameEnabled;
    if lines != [] {
      var l := lines[|lines| - 1];
      SameRecords(a, b, input, lines[..|lines| - 1]);
      SameWinner(a, b, l.unit, l.currency, input);
    }
  }

  lemma SameWinner(a: seq<Rule>, b: seq<Rule>, unit: string, cur: string, input: Input)
    requires DistinctIds(a) && SameEnabled(a, b)
    ensures BestIn(Candidates(a, unit, input), cur) == BestIn(Candidates(b, unit, input), cur)
  {
    hide Candidates;
    CandidatesAreTheSame(a, b, unit, input);
    BestIsUnique(Candidates(a, unit, input), Candidates(b, unit, input), cur);
  }

  lemma TotalExists(rules: seq<Rule>, fx: Fx.FxSet, input: Input, clock: Clock, cur: string, other: string)
    requires HasLine(rules, input, clock, cur) || HasLine(rules, input, clock, other)
    requires Fx.Factor(fx, other, cur).Some?
    ensures Total(rules, fx, input, clock, cur, other)
         == Some(DirectSum(rules, input, clock, cur, |UNITS|)
                 + Fx.Times(DirectSum(rules, input, clock, other, |UNITS|), Fx.Factor(fx, other, cur).value))
  {
    hide DirectSum, HasLine, Fx.Factor, Combine, Fx.Times;
    NoLineNoSum(rules, input, clock, cur, |UNITS|);
    NoLineNoSum(rules, input, clock, other, |UNITS|);
    CombineBoth(HasLine(rules, input, clock, cur), DirectSum(rules, input, clock, cur, |UNITS|),
                HasLine(rules, input, clock, other), DirectSum(rules, input, clock, other, |UNITS|),
                Fx.Factor(fx, other, cur).value);
  }

  lemma CombineBoth(has: bool, direct: real, hasOther: bool, foreign: real, factor: real)
    requires has || hasOther
    requires (!has ==> direct == 0.0) && (!hasOther ==> foreign == 0.0)
    ensures Combine(has, direct, hasOther, foreign, Some(factor)) == Some(direct + Fx.Times(foreign, factor))
  {
    if !hasOther {
      assert Fx.Times(foreign, factor) == 0.0;
    }
  }

  /** With CNY or USD lines both totals exist: the direct sum plus the other sum converted. */
  lemma BothTotalsExist(rules: seq<Rule>, fx: Fx.FxSet, input: Input, clock: Clock)
    requires HasLine(rules, input, clock, "CNY") || HasLine(rules, input, clock, "USD")
    ensures Fx.Factor(fx, "USD", "CNY").Some? && Fx.Factor(fx, "CNY", "USD").Some?
    ensures Total(rules, fx, input, clock, "CNY", "USD")
         == Some(DirectSum(rules, input, clock, "CNY", |UNITS|)
                 + Fx.Times(DirectSum(rules, input, clock, "USD", |UNITS|), Fx.Factor(fx, "USD", "CNY").value))
    ensures Total(rules, fx, input, clock, "USD", "CNY")
         == Some(DirectSum(rules, input, clock, "USD", |UNITS|)
                 + Fx.Times(DirectSum(rules, input, clock, "CNY", |UNITS|), Fx.Factor(fx, "CNY", "USD").value))
  {
    hide DirectSum, HasLine, Fx.Factor, Total, Fx.Times;
    Fx.CnyAndUsdConvert(fx);
    TotalExists(rules, fx, input, clock, "CNY", "USD");
    TotalExists(rules, fx, input, clock, "USD", "CNY");
  }

  lemma {:induction false} NoLineNoSum(rules: seq<Rule>, input: Input, clock: Clock, cur: string, n: nat)
    requires n <= |UNITS|
    ensures !HasLine(rules, input, clock, cur) ==> DirectSum(rules, input, clock, cur, n) == 0.0
  {
    hide LineFor;
    if n > 0 {
      NoLineNoSum(rules, input, clock, cur, n - 1);
    }
  }
}
