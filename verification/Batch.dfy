/**
 Batch pricing (src/billing/mod.rs:454-590): one query for all events, rules grouped in a map, each
 event filled in place; and it prices every event as if it were alone.
 */
module Batch {
  import opened Wrappers
  import opened Numerals
  import opened Pricing
  import Fx

  datatype LogEvent = LogEvent(
    ts: int,
    status: int,
    upstreamId: Option<nat>,
    model: string,
    upstreamModel: Option<string>,
    promptTokens: Option<I64>,
    completionTokens: Option<I64>,
    cacheWriteTokens: Option<I64>,
    cacheReadTokens: Option<I64>,
    images: Option<I64>,
    imageSize: Option<string>,
    videoSeconds: Option<real>,
    videoResolution: Option<string>,
    videoTaskType: Option<string>,
    costCny: Option<real>,
    costUsd: Option<real>,
    pricingSource: Option<string>,
    priceUsed: Option<seq<PriceUsed>>,
    fxSnapshot: Option<seq<FxUsed>>)

  type Pair = (nat, string)

  /** The upstream's own model name when it was rewritten, else the requested one. */
  function EffectiveModel(ev: LogEvent): string {
    if ev.upstreamModel.Some? && ev.upstreamModel.value != "" then ev.upstreamModel.value else ev.model
  }

  predicate HasUsage(ev: LogEvent) {
    ev.promptTokens.UnwrapOr(0) > 0 || ev.completionTokens.UnwrapOr(0) > 0 || ev.cacheWriteTokens.UnwrapOr(0) > 0
    || ev.cacheReadTokens.UnwrapOr(0) > 0 || ev.images.UnwrapOr(0) > 0 || ev.videoSeconds.Some?
  }

  /** Successful, not priced yet, with usage and a known upstream. */
  predicate Eligible(ev: LogEvent) {
    ev.status < 400 && ev.pricingSource.None? && HasUsage(ev) && ev.upstreamId.Some?
  }

  function KeyOf(ev: LogEvent): Pair
    requires Eligible(ev)
  {
    (ev.upstreamId.value, EffectiveModel(ev))
  }

  function InputOf(ev: LogEvent): Input {
    Input(ev.ts, ev.promptTokens, ev.completionTokens, ev.cacheWriteTokens, ev.cacheReadTokens, ev.images,
          ev.imageSize, ev.videoSeconds, ev.videoResolution, ev.videoTaskType)
  }

  function Stamped(ev: LogEvent, cny: Option<real>, usd: Option<real>, priced: bool,
                   used: seq<PriceUsed>, snapshot: seq<FxUsed>): LogEvent
  {
    ev.(costCny := cny, costUsd := usd, pricingSource := if priced then Some("bound") else None,
        priceUsed := if priced then Some(used) else None, fxSnapshot := if priced then Some(snapshot) else None)
  }

  // ------------------------------------------------------------ specification

  ghost predicate KeyedById(table: set<Rule>) {
    forall a, b :: a in table && b in table && a.id == b.id ==> a == b
  }

  predicate Bound(r: Rule, pair: Pair) {
    (r.upstream, r.model) == pair
  }

  /** `listing` is the rules of one upstream and model, in any order, disabled ones included or not. */
  ghost predicate Lists(listing: seq<Rule>, table: set<Rule>, pair: Pair) {
    && (forall r :: r in listing ==> r in table && Bound(r, pair))
    && (forall r :: r in table && r.enabled && Bound(r, pair) ==> r in listing)
  }

  /** The event as pricing it on these rules leaves it: costs, source, and the records of its lines, which are
      listed in one of the orders the engine may list them. */
  ghost predicate PricedOn(before: LogEvent, after: LogEvent, rules: seq<Rule>, fx: Fx.FxSet, clock: Clock) {
    var input := InputOf(before);
    exists lines ::
      && LineUp(lines, rules, input, clock, |UNITS|, {})
      && after == Stamped(before, TotalOf(fx, lines, "CNY", "USD"), TotalOf(fx, lines, "USD", "CNY"),
                          lines != [], UsedOf(rules, input, lines), Snapshot(fx, lines))
      && after.costCny == Total(rules, fx, input, clock, "CNY", "USD")
      && after.costUsd == Total(rules, fx, input, clock, "USD", "CNY")
  }

  /** The event as pricing it alone, on any listing of its rules, leaves it. */
  ghost predicate PricedAlone(before: LogEvent, after: LogEvent, table: set<Rule>, fx: Fx.FxSet, clockOf: int -> Clock) {
    if Eligible(before) then
      forall rules :: Lists(rules, table, KeyOf(before)) ==> PricedOn(before, after, rules, fx, clockOf(before.ts))
    else after == before
  }

  /** Any two listings of the same rules price alike. */
  lemma ListingsAgree(a: seq<Rule>, b: seq<Rule>, table: set<Rule>, pair: Pair, fx: Fx.FxSet, input: Input, clock: Clock)
    requires KeyedById(table) && Lists(a, table, pair) && Lists(b, table, pair)
    ensures forall cur, other :: Total(a, fx, input, clock, cur, other) == Total(b, fx, input, clock, cur, other)
    ensures Priced(a, input, clock) <==> Priced(b, input, clock)
  {
    hide LineFor, Total, Priced;
    forall unit, cur ensures LineFor(a, input, clock, unit, cur) == LineFor(b, input, clock, unit, cur) {
      RuleOrderIsIrrelevant(a, b, input, clock, unit, cur);
    }
    SameCostsSameResult(a, b, fx, input, clock);
  }

  // ------------------------------------------------------------------- engine

  /** The deduplicated keys of the eligible events, in order of first appearance. */
  method CollectPairs(events: array<LogEvent>) returns (pairs: seq<Pair>)
    ensures forall i :: 0 <= i < events.Length && Eligible(events[i]) ==> KeyOf(events[i]) in pairs
    ensures forall p :: p in pairs ==> exists i :: 0 <= i < events.Length && Eligible(events[i]) && KeyOf(events[i]) == p
    ensures pairs == [] <==> forall i :: 0 <= i < events.Length ==> !Eligible(events[i])
    ensures forall i, j :: 0 <= i < j < |pairs| ==> pairs[i] != pairs[j]
  {
    pairs := [];
    var seen: set<Pair> := {};
    for n := 0 to events.Length
      invariant forall p :: p in seen <==> p in pairs
      invariant forall i :: 0 <= i < n && Eligible(events[i]) ==> KeyOf(events[i]) in pairs
      invariant forall p :: p in pairs ==> exists i :: 0 <= i < n && Eligible(events[i]) && KeyOf(events[i]) == p
      invariant pairs == [] <==> forall i :: 0 <= i < n ==> !Eligible(events[i])
      invariant forall i, j :: 0 <= i < j < |pairs| ==> pairs[i] != pairs[j]
    {
      if Eligible(events[n]) {
        var key := KeyOf(events[n]);
        if key !in seen {
          seen, pairs := seen + {key}, pairs + [key];
        }
      }
    }
  }

  /** The query: enabled rules of the given pairs, in an order of the database's choosing. */
  method FetchRules(table: set<Rule>, pairs: seq<Pair>) returns (rows: seq<Rule>)
    ensures forall r :: r in rows <==> r in table && r.enabled && (r.upstream, r.model) in pairs
  {
    rows := [];
    var rest := set r | r in table && r.enabled && (r.upstream, r.model) in pairs;
    while rest != {}
      invariant forall r :: r in table && r.enabled && (r.upstream, r.model) in pairs <==> r in rows || r in rest
    {
      var r :| r in rest;
      rows, rest := rows + [r], rest - {r};
    }
  }

  method GroupRules(rows: seq<Rule>) returns (groups: map<Pair, seq<Rule>>)
    ensures forall p, r :: p in groups && r in groups[p] <==> p in groups && r in rows && Bound(r, p)
    ensures forall r :: r in rows ==> (r.upstream, r.model) in groups
  {
    groups := map[];
    for i := 0 to |rows|
      invariant forall p, r :: p in groups && r in groups[p] <==> p in groups && r in rows[..i] && Bound(r, p)
      invariant forall r :: r in rows[..i] ==> (r.upstream, r.model) in groups
    {
      var key := (rows[i].upstream, rows[i].model);
      groups := groups[key := (if key in groups then groups[key] else []) + [rows[i]]];
      assert rows[..i + 1] == rows[..i] + [rows[i]];
    }
    assert rows[..|rows|] == rows;
  }

  /** Pricing one eligible event with the group fetched for it. */
  method PriceEvent(ev: LogEvent, rules: seq<Rule>, ghost table: set<Rule>, fx: Fx.FxSet, clockOf: int -> Clock)
    returns (after: LogEvent)
    requires Eligible(ev) && KeyedById(table) && Lists(rules, table, KeyOf(ev))
    ensures PricedAlone(ev, after, table, fx, clockOf)
  {
    hide Total, TotalOf, Priced, Lists, LineUp, Bill, UsedOf, Snapshot, KeyedById;
    var input, clock := InputOf(ev), clockOf(ev.ts);
    var result := PriceWithRules(rules, fx, input, clock);
    after := Stamped(ev, result.costCny, result.costUsd, result.priced, result.priceUsed, result.fxSnapshot);
    forall others | Lists(others, table, KeyOf(ev)) ensures PricedOn(ev, after, others, fx, clock) {
      ListingsAgree(rules, others, table, KeyOf(ev), fx, input, clock);
      ListedAlike(rules, others, table, KeyOf(ev));
      RecordsAgree(rules, others, input, clock, result.lines);
    }
  }

  lemma ListedAlike(a: seq<Rule>, b: seq<Rule>, table: set<Rule>, pair: Pair)
    requires KeyedById(table) && Lists(a, table, pair) && Lists(b, table, pair)
    ensures DistinctIds(a) && SameEnabled(a, b)
  {
  }

  function Unpriced(before: seq<LogEvent>, after: seq<LogEvent>): nat
    requires |before| == |after|
  {
    if before == [] then 0
    else
      var n := |before| - 1;
      Unpriced(before[..n], after[..n]) + if Eligible(before[n]) && after[n].pricingSource.None? then 1 else 0
  }

  /** The groups hold a listing for every key asked for. */
  ghost predicate Serves(groups: map<Pair, seq<Rule>>, table: set<Rule>, pairs: seq<Pair>) {
    forall p :: p in pairs ==> Lists(GroupOf(groups, p), table, p)
  }

  function GroupOf(groups: map<Pair, seq<Rule>>, key: Pair): seq<Rule> {
    if key in groups then groups[key] else []
  }

  method FetchGroups(table: set<Rule>, pairs: seq<Pair>) returns (groups: map<Pair, seq<Rule>>)
    ensures Serves(groups, table, pairs)
  {
    var rows := FetchRules(table, pairs);
    groups := GroupRules(rows);
  }

  /** One round of the loop over the events. */
  method PriceOne(ev: LogEvent, groups: map<Pair, seq<Rule>>, ghost table: set<Rule>, ghost pairs: seq<Pair>,
                  fx: Fx.FxSet, clockOf: int -> Clock) returns (after: LogEvent, missed: nat)
    requires KeyedById(table) && Serves(groups, table, pairs)
    requires Eligible(ev) ==> KeyOf(ev) in pairs
    ensures PricedAlone(ev, after, table, fx, clockOf)
    ensures missed == if Eligible(ev) && after.pricingSource.None? then 1 else 0
  {
    hide Total, Priced, Lists, KeyedById;
    after, missed := ev, 0;
    if Eligible(ev) {
      after := PriceEvent(ev, GroupOf(groups, KeyOf(ev)), table, fx, clockOf);
      if after.pricingSource.None? {
        missed := 1;
      }
    }
  }

  /** price_batch: every event ends as pricing it alone would leave it, whatever the order of the rows. */
  method PriceBatch(table: set<Rule>, fx: Fx.FxSet, clockOf: int -> Clock, events: array<LogEvent>) returns (unpriced: nat)
    requires KeyedById(table)
    modifies events
    ensures forall i :: 0 <= i < events.Length ==> PricedAlone(old(events[i]), events[i], table, fx, clockOf)
    ensures forall i :: 0 <= i < events.Length ==> BilledAlone(old(events[i]), events[i], table, fx, clockOf)
    ensures unpriced == Unpriced(old(events[..]), events[..])
  {
    hide BilledAlone;
    BilledAlike(table, fx, clockOf);
    hide PricedAlone, Eligible, Serves, KeyedById, Unpriced;
    unpriced := 0;
    ghost var was := events[..];
    NothingPriced(was, table, fx, clockOf);
    var pairs := CollectPairs(events);
    if pairs == [] {
      return;
    }
    var groups := FetchGroups(table, pairs);
    for i := 0 to events.Length
      invariant forall j :: 0 <= j < i ==> PricedAlone(was[j], events[j], table, fx, clockOf)
      invariant forall j :: i <= j < events.Length ==> events[j] == was[j]
      invariant unpriced == Unpriced(was[..i], events[..i])
    {
      ghost var now := events[..];
      var after, missed := PriceOne(events[i], groups, table, pairs, fx, clockOf);
      events[i] := after;
      unpriced := unpriced + missed;
      UnpricedNext(was, now, events[..], i);
    }
    assert was[..events.Length] == was && events[..events.Length] == events[..];
  }

  lemma UnpricedNext(was: seq<LogEvent>, now: seq<LogEvent>, next: seq<LogEvent>, i: nat)
    requires i < |was| == |now| == |next| && now[..i] == next[..i]
    ensures Unpriced(was[..i + 1], next[..i + 1])
         == Unpriced(was[..i], now[..i]) + if Eligible(was[i]) && next[i].pricingSource.None? then 1 else 0
  {
    assert was[..i + 1][..i] == was[..i] && next[..i + 1][..i] == now[..i];
  }

  lemma NothingPriced(events: seq<LogEvent>, table: set<Rule>, fx: Fx.FxSet, clockOf: int -> Clock)
    ensures (forall i :: 0 <= i < |events| ==> !Eligible(events[i])) ==>
      (forall i :: 0 <= i < |events| ==> PricedAlone(events[i], events[i], table, fx, clockOf)) && Unpriced(events, events) == 0
    ensures Unpriced([], []) == 0
  {
    if forall i :: 0 <= i < |events| ==> !Eligible(events[i]) {
      NoneEligible(events);
    }
  }

  lemma {:induction false} NoneEligible(events: seq<LogEvent>)
    requires forall ev :: ev in events ==> !Eligible(ev)
    ensures Unpriced(events, events) == 0
  {
    if events != [] {
      NoneEligible(events[..|events| - 1]);
    }
  }

  // ------------------------------------------------------------- in plain terms

  /** What an event is billed by: the name its upstream knows the model by, if that was recorded. */
  ghost predicate BilledAs(ev: LogEvent, model: string) {
    match ev.upstreamModel
    case Some(own) => model == if own == "" then ev.model else own
    case None => model == ev.model
  }

  predicate Counted(counter: Option<I64>) {
    counter.Some? && counter.value > 0
  }

  /** A successful call to a known upstream with something to bill, that nobody has priced. */
  predicate Billable(ev: LogEvent) {
    && ev.status < 400 && ev.upstreamId.Some? && ev.pricingSource == None
    && (Counted(ev.promptTokens) || Counted(ev.completionTokens) || Counted(ev.cacheWriteTokens) || Counted(ev.cacheReadTokens)
        || Counted(ev.images) || ev.videoSeconds.Some?)
  }

  /** The usage in the input is that of the event. */
  predicate UsageOf(ev: LogEvent, input: Input) {
    && input.at == ev.ts
    && input.promptTokens == ev.promptTokens && input.completionTokens == ev.completionTokens
    && input.cacheWriteTokens == ev.cacheWriteTokens && input.cacheReadTokens == ev.cacheReadTokens
    && input.images == ev.images && input.imageSize == ev.imageSize
    && input.videoSeconds == ev.videoSeconds && input.videoResolution == ev.videoResolution
    && input.videoTaskType == ev.videoTaskType
  }

  /** The rules of one upstream and model: all that are enabled, and maybe others. */
  ghost predicate RulesOf(rules: seq<Rule>, table: set<Rule>, upstream: nat, model: string) {
    && (forall r :: r in rules ==> r in table && r.upstream == upstream && r.model == model)
    && (forall r :: r in table && r.upstream == upstream && r.model == model && r.enabled ==> r in rules)
  }

  /** An event after the batch: its bill is that of its own usage under the rules of its upstream and model. Without
      a line it stays unpriced; otherwise the costs are the totals of the lines, and source and records are set.
      Nothing else about it changes, and nothing at all if it is not billable. */
  ghost predicate BilledAlone(before: LogEvent, after: LogEvent, table: set<Rule>, fx: Fx.FxSet, clockOf: int -> Clock) {
    if !Billable(before) then after == before
    else
      exists model, rules, input, lines, used ::
        && BilledAs(before, model) && RulesOf(rules, table, before.upstreamId.value, model) && UsageOf(before, input)
        && Bill(rules, input, clockOf(before.ts), lines, used)
        && (if lines == [] then
              after == before.(costCny := None, costUsd := None, pricingSource := None, priceUsed := None, fxSnapshot := None)
            else
              after == before.(costCny := TotalOf(fx, lines, "CNY", "USD"), costUsd := TotalOf(fx, lines, "USD", "CNY"),
                               pricingSource := Some("bound"), priceUsed := Some(used), fxSnapshot := Some(Snapshot(fx, lines))))
  }

  lemma {:induction false} Listing(rules: set<Rule>) returns (listing: seq<Rule>)
    ensures forall r :: r in listing <==> r in rules
  {
    listing := [];
    if rules != {} {
      var r :| r in rules;
      var rest := Listing(rules - {r});
      listing := [r] + rest;
    }
  }

  lemma NoLinesNoTotals(fx: Fx.FxSet)
    ensures TotalOf(fx, [], "CNY", "USD") == None && TotalOf(fx, [], "USD", "CNY") == None
  {
  }

  lemma AloneIsBilled(before: LogEvent, after: LogEvent, table: set<Rule>, fx: Fx.FxSet, clockOf: int -> Clock)
    requires PricedAlone(before, after, table, fx, clockOf)
    ensures BilledAlone(before, after, table, fx, clockOf)
  {
    hide LineUp, Bill, TotalOf, Total, Snapshot, UsedOf;
    assert Eligible(before) <==> Billable(before);
    if Billable(before) {
      var key, input, clock := KeyOf(before), InputOf(before), clockOf(before.ts);
      var rules := Listing(set r | r in table && Bound(r, key));
      assert Lists(rules, table, key);
      assert PricedOn(before, after, rules, fx, clock);
      var lines :|
        && LineUp(lines, rules, input, clock, |UNITS|, {})
        && after == Stamped(before, TotalOf(fx, lines, "CNY", "USD"), TotalOf(fx, lines, "USD", "CNY"),
                            lines != [], UsedOf(rules, input, lines), Snapshot(fx, lines));
      LineUpIsBill(rules, input, clock, lines);
      NoLinesNoTotals(fx);
      var model := key.1;
      assert BilledAs(before, model) && RulesOf(rules, table, before.upstreamId.value, model) && UsageOf(before, input);
    }
  }

  lemma BilledAlike(table: set<Rule>, fx: Fx.FxSet, clockOf: int -> Clock)
    ensures forall before, after :: PricedAlone(before, after, table, fx, clockOf) ==> BilledAlone(before, after, table, fx, clockOf)
  {
    hide PricedAlone, BilledAlone;
    forall before, after | PricedAlone(before, after, table, fx, clockOf) ensures BilledAlone(before, after, table, fx, clockOf) {
      AloneIsBilled(before, after, table, fx, clockOf);
    }
  }
}
