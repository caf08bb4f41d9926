/**
 What a price file does not carry: the disabled flag, the effective window and the context basis of a rule
 (src/admin/pricing.rs:657-707, 1018-1058). A request can tell exactly when one of them mattered.

 The weekday and minute of a request follow from its instant: `clockOf` is the billing zone's clock.
 */
module PriceLoss {
  import opened Wrappers
  import opened Strings
  import opened Numerals
  import opened Pricing
  import opened Transfer
  import opened RoundTrip
  import opened PriceTransfer
  import opened PricePreserved

  // ------------------------------------------------------ unsteady context lengths

  /** An unsteady rule shows two things at the prompt's length and at the total of some request. */
  lemma UnsteadyPair(r: Rule, clock: Clock) returns (p: I64, c: I64)
    requires !Steady(r, clock)
    ensures Shown(r, SaturatingAdd(p, c), clock) != Shown(r, p, clock)
    ensures (r.unit == "token_in" ==> p >= 1) && (r.unit == "token_out" ==> c >= 1)
  {
    hide Shown;
    var k := UnsteadyBound(r, clock);
    if r.unit != "token_in" || k >= 1 {
      p, c := k, 1;
    } else if Shown(r, 1, clock) != Shown(r, k + 1, clock) {
      p, c := 1, k;
    } else {
      p, c := 1, k - 1;
    }
  }

  lemma UnsteadyBound(r: Rule, clock: Clock) returns (k: I64)
    requires !Steady(r, clock)
    ensures LeastContext(r.unit) <= k < I64_MAX && Shown(r, k, clock) != Shown(r, k + 1, clock)
  {
    hide Shown;
    var s :| s in SegmentsOf(r)
      && !((s.minPrompt.Some? ==> SteadyAt(r, s.minPrompt.value - 1, clock))
           && (s.maxPrompt.Some? ==> SteadyAt(r, s.maxPrompt.value, clock)));
    k := if s.minPrompt.Some? && !SteadyAt(r, s.minPrompt.value - 1, clock) then s.minPrompt.value - 1 else s.maxPrompt.value;
  }

  // -------------------------------------------------------- two rules that show the same

  predicate SameAt(x: Rule, r: Rule, ctx: int, clock: Clock) {
    LeastContext(r.unit) <= ctx <= I64_MAX ==> Shown(x, ctx, clock) == Shown(r, ctx, clock)
  }

  /** The same at the least context length and where a segment of either begins or has just ended. */
  predicate SameShown(x: Rule, r: Rule, clock: Clock) {
    SameAt(x, r, LeastContext(r.unit), clock)
    && forall s :: s in SegmentsOf(x) + SegmentsOf(r) ==>
         && (s.minPrompt.Some? ==> SameAt(x, r, s.minPrompt.value, clock))
         && (s.maxPrompt.Some? ==> SameAt(x, r, s.maxPrompt.value + 1, clock))
  }

  /** No segment of the list begins at `ctx` or has just ended there. */
  predicate NoBoundAt(list: seq<Segment>, ctx: int) {
    forall s :: s in list ==>
      (s.minPrompt.Some? ==> s.minPrompt.value != ctx) && (s.maxPrompt.Some? ==> s.maxPrompt.value + 1 != ctx)
  }

  lemma ShownStays(r: Rule, ctx: int, clock: Clock)
    requires NoBoundAt(SegmentsOf(r), ctx)
    ensures Shown(r, ctx, clock) == Shown(r, ctx - 1, clock)
  {
    hide FirstMatchAt, NormTextOpt, NotEmpty, Value;
    NoBound(SegmentsOf(r), ctx - 1, clock);
  }

  /** Then the same at every context length. */
  lemma {:induction false} SameEverywhere(x: Rule, r: Rule, ctx: int, clock: Clock)
    requires SameShown(x, r, clock) && LeastContext(r.unit) <= ctx <= I64_MAX
    ensures Shown(x, ctx, clock) == Shown(r, ctx, clock)
    decreases ctx - LeastContext(r.unit)
  {
    hide Shown;
    var all := SegmentsOf(x) + SegmentsOf(r);
    if ctx != LeastContext(r.unit) {
      if NoBoundAt(SegmentsOf(x), ctx) && NoBoundAt(SegmentsOf(r), ctx) {
        SameEverywhere(x, r, ctx - 1, clock);
        ShownStays(x, ctx, clock);
        ShownStays(r, ctx, clock);
      } else {
        var s :| s in all && ((s.minPrompt.Some? && s.minPrompt.value == ctx) || (s.maxPrompt.Some? && s.maxPrompt.value + 1 == ctx));
        assert SameAt(x, r, ctx, clock);
      }
    }
  }

  /** No request can tell `x` from what is stored for `r`: not by the total where the prompt counts, nor otherwise. */
  predicate ShowAlike(x: Rule, r: Rule, clock: Clock) {
    (x.contextBasis == "total_tokens" ==> Steady(x, clock)) && SameShown(x, r, clock)
  }

  lemma AlikeIsKept(x: Rule, r: Rule, input: Input, clock: Clock)
    requires ShowAlike(x, r, clock) && x.unit == r.unit && UnitQuantity(r.unit, input).Some?
    ensures Shown(x, ContextValue(x, input), clock) == Shown(r, PromptOf(input), clock)
  {
    hide Steady, Shown, SameShown;
    var p, y := PromptOf(input), ContextValue(x, input);
    SameEverywhere(x, r, p, clock);
    if x.contextBasis == "total_tokens" {
      if p <= y {
        SteadyBetween(x, p, y, clock);
      } else {
        SteadyBetween(x, y, p, clock);
      }
    }
  }

  /** Prompt and completion counts by which a request tells two rules that do not show alike. */
  lemma TellingPair(x: Rule, r: Rule, clock: Clock) returns (p: I64, c: I64)
    requires !ShowAlike(x, r, clock) && x.unit == r.unit && (r.unit in TOKEN_UNITS ==> x == r)
    ensures (r.unit == "token_in" ==> p >= 1) && (r.unit == "token_out" ==> c >= 1)
    ensures Shown(x, if x.contextBasis == "total_tokens" then SaturatingAdd(p, c) else p, clock) != Shown(r, p, clock)
  {
    hide Shown, Steady;
    if x.contextBasis == "total_tokens" && !Steady(x, clock) {
      p, c := UnsteadyPair(x, clock);
      if Shown(x, SaturatingAdd(p, c), clock) == Shown(r, p, clock) {
        c := 0;
        AddNothing(p);
      }
    } else {
      c := 0;
      p := DifferentAt(x, r, clock);
      AddNothing(p);
    }
  }

  lemma AddNothing(p: I64)
    ensures SaturatingAdd(p, 0) == p
  {
    assert IsI64(p);
  }

  lemma DifferentAt(x: Rule, r: Rule, clock: Clock) returns (ctx: I64)
    requires !SameShown(x, r, clock)
    ensures Shown(x, ctx, clock) != Shown(r, ctx, clock) && x != r
  {
    hide Shown;
    ctx := LeastContext(r.unit);
    if SameAt(x, r, ctx, clock) {
      var s :| s in SegmentsOf(x) + SegmentsOf(r)
        && !((s.minPrompt.Some? ==> SameAt(x, r, s.minPrompt.value, clock))
             && (s.maxPrompt.Some? ==> SameAt(x, r, s.maxPrompt.value + 1, clock)));
      ctx := if s.minPrompt.Some? && !SameAt(x, r, s.minPrompt.value, clock) then s.minPrompt.value else s.maxPrompt.value + 1;
    }
  }

  // ------------------------------------------------------------- who is priced how

  ghost predicate OneModel(rules: seq<Rule>, up: nat, model: string) {
    forall r :: r in rules ==> r.upstream == up && r.model == model
  }

  function OfTier(rules: seq<Rule>, unit: string, key: string): seq<Rule> {
    Filter(rules, (r: Rule) => r.unit == unit && r.dimensionKey == key)
  }

  /** The rule that prices a request of this instant and dimension key. */
  function RuleBefore(rules: seq<Rule>, unit: string, key: string, cur: string, at: int): Option<Rule> {
    var active := Active(rules, unit, at);
    BestIn(if Tier(active, key) == [] then Tier(active, "") else Tier(active, key), cur)
  }

  /** The rule whose stored row prices it after the import, at any instant. */
  function RuleAfter(rules: seq<Rule>, unit: string, key: string, cur: string): Option<Rule> {
    BestIn(OfTier(rules, unit, TierKey(rules, unit, key)), cur)
  }

  lemma LineBefore(a: seq<Rule>, input: Input, clock: Clock, unit: string, cur: string)
    ensures var x := RuleBefore(a, unit, InputDimensionKey(unit, input), cur, input.at);
      LineFor(a, input, clock, unit, cur)
      == if UnitQuantity(unit, input).Some? && x.Some?
         then Some(LineOf(x.value, unit, UnitQuantity(unit, input).value, input, clock)) else None
  {
    hide InputDimensionKey, Tier, Active, UnitQuantity, LineOf, BestIn;
  }

  lemma EmptyTier(rules: seq<Rule>, unit: string, at: int, key: string)
    requires !HasTier(rules, unit, key)
    ensures Tier(Active(rules, unit, at), key) == []
  {
    hide Tier, Active, InEffect;
    var tier := Tier(Active(rules, unit, at), key);
    assert tier == [] || tier[0] in tier;
    forall r ensures r !in tier {
      InTier(rules, unit, at, key, r);
    }
  }

  lemma StoredTier(a: seq<Rule>, b: seq<Rule>, unit: string, key: string)
    requires Rebuilt(a, b)
    ensures HasTier(b, unit, key) <==> HasTier(a, unit, key)
  {
    hide StoredAs, RowOf, HasStored, HasSource, InEffect;
    if r :| r in a && r.unit == unit && r.dimensionKey == key {
      var q := PickStored(RowOf(r), b);
      StaysActive(r, q, 0);
    }
    if q :| q in b && q.unit == unit && q.dimensionKey == key {
      var r := PickSource(q, a);
      StaysActive(r, q, 0);
    }
  }

  /** After the import the candidates are what is stored for the tier. */
  lemma StoredCandidates(a: seq<Rule>, b: seq<Rule>, unit: string, key: string, at: int)
    requires Rebuilt(a, b)
    ensures var active := Active(b, unit, at);
      (if Tier(active, key) == [] then Tier(active, "") else Tier(active, key)) == Tier(active, TierKey(a, unit, key))
  {
    hide StoredAs, RowOf, HasStored, HasSource, InEffect, Tier, Active;
    StoredTier(a, b, unit, key);
    if HasTier(a, unit, key) {
      var r :| r in a && r.unit == unit && r.dimensionKey == key;
      var q := PickStored(RowOf(r), b);
      StaysActive(r, q, at);
      InTier(b, unit, at, key, q);
    } else {
      EmptyTier(b, unit, at, key);
    }
  }

  /** The line after the import: what is stored for RuleAfter. */
  lemma LineAfter(a: seq<Rule>, b: seq<Rule>, up: nat, model: string, input: Input, clock: Clock, unit: string, cur: string)
    returns (q: Option<Rule>)
    requires Rebuilt(a, b) && UniqueSlots(a) && OneModel(a, up, model)
    ensures var r := RuleAfter(a, unit, InputDimensionKey(unit, input), cur);
      && (q.Some? <==> r.Some?) && (q.Some? ==> StoredAs(q.value, RowOf(r.value)))
    ensures LineFor(b, input, clock, unit, cur)
         == if UnitQuantity(unit, input).Some? && q.Some?
            then Some(LineOf(q.value, unit, UnitQuantity(unit, input).value, input, clock)) else None
  {
    var key, at := InputDimensionKey(unit, input), input.at;
    hide InputDimensionKey, Tier, Active, InEffect, UnitQuantity, LineOf, StoredAs, RowOf, HasStored, HasSource, TierKey;
    LineBefore(b, input, clock, unit, cur);
    StoredCandidates(a, b, unit, key, at);
    var cands := Tier(Active(b, unit, at), TierKey(a, unit, key));
    q := BestIn(cands, cur);
    var r := RuleAfter(a, unit, key, cur);
    if r.Some? {
      var own := PickStored(RowOf(r.value), b);
      StaysActive(r.value, own, at);
      InTier(b, unit, at, TierKey(a, unit, key), own);
    }
    if q.Some? {
      InTier(b, unit, at, TierKey(a, unit, key), q.value);
      var source := PickSource(q.value, a);
      StaysActive(source, q.value, at);
      assert source in OfTier(a, unit, TierKey(a, unit, key));
      assert SlotOf(source) == SlotOf(r.value);
    }
  }

  // ------------------------------------------------------------------ who can tell

  /** A request with the dimensions of `base` for one of everything. */
  function Probe(base: Input, at: int, p: I64, c: I64): Input {
    base.(at := at, promptTokens := Some(p), completionTokens := Some(c), cacheWriteTokens := Some(1),
          cacheReadTokens := Some(1), images := Some(1), videoSeconds := Some(1.0))
  }

  lemma ProbeIsPriced(unit: string, base: Input, at: int, p: I64, c: I64)
    requires unit in UNITS && (unit == "token_in" ==> p >= 1) && (unit == "token_out" ==> c >= 1)
    ensures UnitQuantity(unit, Probe(base, at, p, c)).Some?
  {
  }

  lemma ProbeKey(unit: string, base: Input, at: int, p: I64, c: I64)
    ensures InputDimensionKey(unit, Probe(base, at, p, c)) == InputDimensionKey(unit, base)
  {
  }

  /** The rule before and the rule after are both missing, or show alike. */
  predicate Alike(x: Option<Rule>, r: Option<Rule>, clock: Clock) {
    if x.None? || r.None? then x == r else ShowAlike(x.value, r.value, clock)
  }

  lemma RulesOfTable(a: seq<Rule>, unit: string, key: string, cur: string, at: int)
    ensures var x, r := RuleBefore(a, unit, key, cur, at), RuleAfter(a, unit, key, cur);
      && (x.Some? ==> x.value in a && x.value.unit == unit && x.value.currency == cur && x.value.dimensionKey in {key, ""})
      && (r.Some? ==> r.value in a && r.value.unit == unit && r.value.currency == cur && r.value.dimensionKey in {key, ""})
  {
    hide Tier, Active, InEffect, BestIn;
    var x := RuleBefore(a, unit, key, cur, at);
    if x.Some? {
      if Tier(Active(a, unit, at), key) == [] {
        InTier(a, unit, at, "", x.value);
      } else {
        InTier(a, unit, at, key, x.value);
      }
    }
  }

  /** Token rules have no dimensions, so the rule before is the rule after, if there is one. */
  lemma TokenRules(a: seq<Rule>, up: nat, model: string, unit: string, key: string, cur: string, at: int)
    requires UniqueSlots(a) && OneModel(a, up, model) && (forall r :: r in a ==> Portable(r)) && unit in TOKEN_UNITS
    ensures var x, r := RuleBefore(a, unit, key, cur, at), RuleAfter(a, unit, key, cur);
      x.Some? && r.Some? ==> x == r
  {
    hide RuleBefore, RuleAfter, Portable;
    RulesOfTable(a, unit, key, cur, at);
    var x, r := RuleBefore(a, unit, key, cur, at), RuleAfter(a, unit, key, cur);
    if x.Some? && r.Some? {
      TokenHasNoDimensions(x.value);
      TokenHasNoDimensions(r.value);
      assert SlotOf(x.value) == SlotOf(r.value);
    }
  }

  lemma TokenHasNoDimensions(r: Rule)
    requires Portable(r) && r.unit in TOKEN_UNITS
    ensures r.dimensionKey == ""
  {
    hide PlainDimensions, PlainSegments;
  }

  /** Where rule before and rule after are not alike, the request returned, of the same instant and with the
      dimensions of `base`, gets another line after the import. */
  lemma LossIsSeen(a: seq<Rule>, b: seq<Rule>, up: nat, model: string, unit: string, cur: string,
                   base: Input, at: int, clock: Clock) returns (input: Input)
    requires Rebuilt(a, b) && UniqueSlots(a) && OneModel(a, up, model) && forall r :: r in a ==> Portable(r)
    requires var key := InputDimensionKey(unit, base);
      !Alike(RuleBefore(a, unit, key, cur, at), RuleAfter(a, unit, key, cur), clock)
    ensures input.at == at && InputDimensionKey(unit, input) == InputDimensionKey(unit, base)
    ensures !SameLine(LineFor(a, input, clock, unit, cur), LineFor(b, input, clock, unit, cur))
  {
    hide Portable, Shown, UnitQuantity, InputDimensionKey, LineFor, LineOf, StoredAs, RowOf, Rebuilt, UniqueSlots,
      OneModel, RuleBefore, RuleAfter, ShowAlike, ContextValue, TOKEN_UNITS;
    var key := InputDimensionKey(unit, base);
    var x, r := RuleBefore(a, unit, key, cur, at), RuleAfter(a, unit, key, cur);
    RulesOfTable(a, unit, key, cur, at);
    PortableUnit(if x.Some? then x.value else r.value);
    var p: I64, c: I64 := 1, 1;
    if x.Some? && r.Some? {
      if unit in TOKEN_UNITS {
        TokenRules(a, up, model, unit, key, cur, at);
      }
      p, c := TellingPair(x.value, r.value, clock);
    }
    input := Probe(base, at, p, c);
    ProbeIsPriced(unit, base, at, p, c);
    ProbeKey(unit, base, at, p, c);
    LineBefore(a, input, clock, unit, cur);
    var q := LineAfter(a, b, up, model, input, clock, unit, cur);
    if x.Some? && r.Some? {
      ProbeContext(x.value, base, at, p, c);
      LinesAlike(x.value, r.value, q.value, unit, UnitQuantity(unit, input).value, input, clock);
    }
  }

  lemma ProbeContext(r: Rule, base: Input, at: int, p: I64, c: I64)
    ensures PromptOf(Probe(base, at, p, c)) == p
    ensures ContextValue(r, Probe(base, at, p, c)) == if r.contextBasis == "total_tokens" then SaturatingAdd(p, c) else p
  {
  }

  // ------------------------------------------------------------------ exactly when

  /** Every request with this dimension key gets the same lines of the unit from both lists. */
  ghost predicate LinesKept(a: seq<Rule>, b: seq<Rule>, unit: string, key: string, clockOf: int -> Clock) {
    forall input: Input, cur :: InputDimensionKey(unit, input) == key ==>
      SameLine(LineFor(a, input, clockOf(input.at), unit, cur), LineFor(b, input, clockOf(input.at), unit, cur))
  }

  /** At every instant and in every currency the rule before and the rule after are alike. */
  ghost predicate RulesAlike(a: seq<Rule>, unit: string, key: string, clockOf: int -> Clock) {
    forall at, cur :: Alike(RuleBefore(a, unit, key, cur, at), RuleAfter(a, unit, key, cur), clockOf(at))
  }

  /** The stored rules give every request with the dimensions of `base` the lines it had exactly when the rule
      that prices it and the rule that will price it are alike at every instant. */
  lemma LinesKeptExactly(a: seq<Rule>, b: seq<Rule>, up: nat, model: string, unit: string, base: Input, clockOf: int -> Clock)
    requires Rebuilt(a, b) && UniqueSlots(a) && OneModel(a, up, model) && forall r :: r in a ==> Portable(r)
    ensures var key := InputDimensionKey(unit, base);
      LinesKept(a, b, unit, key, clockOf) <==> RulesAlike(a, unit, key, clockOf)
  {
    hide Portable, Alike, SameLine, LineFor, InputDimensionKey, Rebuilt, UniqueSlots, OneModel, RuleBefore, RuleAfter;
    var key := InputDimensionKey(unit, base);
    if RulesAlike(a, unit, key, clockOf) {
      forall input, cur | InputDimensionKey(unit, input) == key
        ensures SameLine(LineFor(a, input, clockOf(input.at), unit, cur), LineFor(b, input, clockOf(input.at), unit, cur))
      {
        AlikeKeepsLine(a, b, up, model, unit, cur, input, clockOf(input.at));
      }
    } else {
      var at, cur :| !Alike(RuleBefore(a, unit, key, cur, at), RuleAfter(a, unit, key, cur), clockOf(at));
      var input := LossIsSeen(a, b, up, model, unit, cur, base, at, clockOf(at));
    }
  }

  lemma AlikeKeepsLine(a: seq<Rule>, b: seq<Rule>, up: nat, model: string, unit: string, cur: string, input: Input, clock: Clock)
    requires Rebuilt(a, b) && UniqueSlots(a) && OneModel(a, up, model) && forall r :: r in a ==> Portable(r)
    requires var key := InputDimensionKey(unit, input);
      Alike(RuleBefore(a, unit, key, cur, input.at), RuleAfter(a, unit, key, cur), clock)
    ensures SameLine(LineFor(a, input, clock, unit, cur), LineFor(b, input, clock, unit, cur))
  {
    hide Portable, Shown, UnitQuantity, InputDimensionKey, LineFor, LineOf, StoredAs, RowOf, Rebuilt, UniqueSlots, OneModel,
      RuleBefore, RuleAfter, ShowAlike, ContextValue, SameLine;
    var key := InputDimensionKey(unit, input);
    var x, r := RuleBefore(a, unit, key, cur, input.at), RuleAfter(a, unit, key, cur);
    RulesOfTable(a, unit, key, cur, input.at);
    LineBefore(a, input, clock, unit, cur);
    var q := LineAfter(a, b, up, model, input, clock, unit, cur);
    NoLinesAlike();
    if x.Some? && UnitQuantity(unit, input).Some? {
      AlikeIsKept(x.value, r.value, input, clock);
      LinesAlike(x.value, r.value, q.value, unit, UnitQuantity(unit, input).value, input, clock);
    }
  }

  // --------------------------------------------------------------- one tier of rules

  /** The rules that may price a request with this dimension key all have one key: its own, or none. */
  predicate OneTier(rules: seq<Rule>, unit: string, key: string) {
    key == "" || !HasTier(rules, unit, key) || !HasTier(rules, unit, "")
  }

  ghost predicate AlwaysLasting(r: Rule, clockOf: int -> Clock) {
    forall at :: Lasting(r, clockOf(at))
  }

  ghost predicate TierAlwaysLasts(rules: seq<Rule>, unit: string, key: string, clockOf: int -> Clock) {
    forall r :: r in rules && r.unit == unit && r.dimensionKey == TierKey(rules, unit, key) ==> AlwaysLasting(r, clockOf)
  }

  /** Then the rule before is the rule after whenever that is active. */
  lemma OwnRule(a: seq<Rule>, up: nat, model: string, unit: string, key: string, cur: string, at: int)
    requires UniqueSlots(a) && OneModel(a, up, model) && OneTier(a, unit, key)
    ensures var r := RuleAfter(a, unit, key, cur);
      RuleBefore(a, unit, key, cur, at) == if r.Some? && r.value.enabled && InEffect(r.value, at) then r else None
  {
    hide Tier, Active, InEffect;
    var tier := TierKey(a, unit, key);
    if !HasTier(a, unit, key) {
      EmptyTier(a, unit, at, key);
    } else if !HasTier(a, unit, "") {
      EmptyTier(a, unit, at, "");
    }
    var cands := Tier(Active(a, unit, at), tier);
    var x, r := RuleBefore(a, unit, key, cur, at), RuleAfter(a, unit, key, cur);
    assert x == BestIn(cands, cur);
    if x.Some? {
      InTier(a, unit, at, tier, x.value);
      assert x.value in OfTier(a, unit, tier);
      assert SlotOf(x.value) == SlotOf(r.value);
    }
    if r.Some? {
      InTier(a, unit, at, tier, r.value);
    }
  }

  lemma LastingIsAlike(r: Rule, at: int, clock: Clock)
    ensures Lasting(r, clock) ==> r.enabled && InEffect(r, at) && ShowAlike(r, r, clock)
    ensures r.enabled && r.effectiveFrom.None? && r.effectiveTo.None? && ShowAlike(r, r, clock) ==> Lasting(r, clock)
  {
    hide Steady, Shown;
  }

  /** A window ends or begins at some instant. */
  lemma OutOfWindow(r: Rule) returns (at: int)
    requires r.effectiveFrom.Some? || r.effectiveTo.Some?
    ensures !InEffect(r, at)
  {
    at := if r.effectiveFrom.Some? then r.effectiveFrom.value - 1 else r.effectiveTo.value + 1;
  }

  /** Where all rules that may price a request have one dimension key, its lines are kept exactly when each of
      these rules is enabled, has no window, and is at every instant not told apart by its context basis. */
  lemma OneTierKeptExactly(a: seq<Rule>, b: seq<Rule>, up: nat, model: string, unit: string, base: Input, clockOf: int -> Clock)
    requires Rebuilt(a, b) && UniqueSlots(a) && OneModel(a, up, model) && forall r :: r in a ==> Portable(r)
    requires OneTier(a, unit, InputDimensionKey(unit, base))
    ensures var key := InputDimensionKey(unit, base);
      LinesKept(a, b, unit, key, clockOf) <==> TierAlwaysLasts(a, unit, key, clockOf)
  {
    hide Portable, LinesKept, RulesAlike, TierAlwaysLasts, InputDimensionKey, Rebuilt, OneTier;
    LinesKeptExactly(a, b, up, model, unit, base, clockOf);
    AlikeIsLasting(a, up, model, unit, InputDimensionKey(unit, base), clockOf);
  }

  lemma AlikeIsLasting(a: seq<Rule>, up: nat, model: string, unit: string, key: string, clockOf: int -> Clock)
    requires UniqueSlots(a) && OneModel(a, up, model) && OneTier(a, unit, key)
    ensures RulesAlike(a, unit, key, clockOf) <==> TierAlwaysLasts(a, unit, key, clockOf)
  {
    hide ShowAlike, Lasting, InEffect, RuleBefore, UniqueSlots, OneModel, OneTier, TierKey;
    forall at, cur ensures RuleBefore(a, unit, key, cur, at) == (var r := RuleAfter(a, unit, key, cur);
      if r.Some? && r.value.enabled && InEffect(r.value, at) then r else None)
    {
      OwnRule(a, up, model, unit, key, cur, at);
    }
    if RulesAlike(a, unit, key, clockOf) {
      forall r | r in a && r.unit == unit && r.dimensionKey == TierKey(a, unit, key) ensures AlwaysLasting(r, clockOf) {
        AfterIsOwn(a, up, model, unit, key, r);
        StaysWhole(a, unit, key, r, clockOf);
      }
    }
    if TierAlwaysLasts(a, unit, key, clockOf) {
      forall at, cur ensures Alike(RuleBefore(a, unit, key, cur, at), RuleAfter(a, unit, key, cur), clockOf(at)) {
        var r := RuleAfter(a, unit, key, cur);
        if r.Some? {
          assert Lasting(r.value, clockOf(at));
          LastingIsAlike(r.value, at, clockOf(at));
        }
      }
    }
  }

  lemma AfterIsOwn(a: seq<Rule>, up: nat, model: string, unit: string, key: string, r: Rule)
    requires UniqueSlots(a) && OneModel(a, up, model)
    requires r in a && r.unit == unit && r.dimensionKey == TierKey(a, unit, key)
    ensures RuleAfter(a, unit, key, r.currency) == Some(r)
  {
    hide TierKey;
    assert r in OfTier(a, unit, TierKey(a, unit, key));
    var k := RuleAfter(a, unit, key, r.currency);
    assert SlotOf(k.value) == SlotOf(r);
  }

  lemma StaysWhole(a: seq<Rule>, unit: string, key: string, r: Rule, clockOf: int -> Clock)
    requires RulesAlike(a, unit, key, clockOf) && RuleAfter(a, unit, key, r.currency) == Some(r)
    requires forall at :: RuleBefore(a, unit, key, r.currency, at) == if r.enabled && InEffect(r, at) then Some(r) else None
    ensures AlwaysLasting(r, clockOf)
  {
    hide ShowAlike, Lasting, InEffect, RuleBefore, RuleAfter;
    forall at ensures r.enabled && InEffect(r, at) && ShowAlike(r, r, clockOf(at)) {
      assert Alike(RuleBefore(a, unit, key, r.currency, at), RuleAfter(a, unit, key, r.currency), clockOf(at));
    }
    assert r.effectiveFrom.None? && r.effectiveTo.None? by {
      if r.effectiveFrom.Some? || r.effectiveTo.Some? {
        var at := OutOfWindow(r);
        assert false;
      }
    }
    forall at ensures Lasting(r, clockOf(at)) {
      LastingIsAlike(r, at, clockOf(at));
    }
  }

  lemma TokenKey(unit: string, input: Input)
    requires unit in TOKEN_UNITS
    ensures InputDimensionKey(unit, input) == ""
  {
  }

  /** For token units this covers every request: export and import keep all lines of the unit if and only if
      every rule of the unit is enabled, has no window, and is at no instant told apart by its context basis. */
  lemma TokenLinesKeptExactly(a: seq<Rule>, b: seq<Rule>, up: nat, model: string, unit: string, clockOf: int -> Clock)
    requires Rebuilt(a, b) && UniqueSlots(a) && OneModel(a, up, model) && forall r :: r in a ==> Portable(r)
    requires unit in TOKEN_UNITS
    ensures (forall input: Input, cur ::
               SameLine(LineFor(a, input, clockOf(input.at), unit, cur), LineFor(b, input, clockOf(input.at), unit, cur)))
       <==> (forall r :: r in a && r.unit == unit ==> AlwaysLasting(r, clockOf))
  {
    hide AlwaysLasting, SameLine, LineFor, InputDimensionKey, Rebuilt, UniqueSlots, OneModel;
    var base := Input(0, None, None, None, None, None, None, None, None, None);
    forall input ensures InputDimensionKey(unit, input) == "" {
      TokenKey(unit, input);
    }
    forall r | r in a && r.unit == unit ensures r.dimensionKey == "" {
      TokenHasNoDimensions(r);
    }
    hide Portable;
    OneTierKeptExactly(a, b, up, model, unit, base, clockOf);
  }

  /** Export, import, store: the lines of a unit stay as they were for every request with the dimensions of
      `base` exactly when the rules before and after are alike at every instant. */
  lemma ExportImportKeepsExactly(rules: seq<Rule>, names: map<nat, string>, ids: map<string, nat>,
                                 keys: seq<Key>, items: seq<Item>, stored: seq<Rule>,
                                 a: seq<Rule>, b: seq<Rule>, up: nat, model: string,
                                 unit: string, base: Input, clockOf: int -> Clock)
    requires PortableTable(rules, names, ids) && Enumerates(keys, rules)
    requires multiset(items) == multiset(ItemsFor(rules, names, keys))
    requires StoredRules(stored, ReportOfFile(ExportText(items), ids).rows)
    requires Of(a, rules, up, model) && Of(b, stored, up, model)
    ensures var key := InputDimensionKey(unit, base);
      LinesKept(a, b, unit, key, clockOf) <==> RulesAlike(a, unit, key, clockOf)
  {
    hide ReportOfFile, ExportText, Portable, RowOf, ItemsFor, Enumerates, StoredRules, RowOfAny, Rebuilt, NamesResolve,
      InputDimensionKey, LinesKept, RulesAlike;
    ExportedTableImportsWhole(rules, names, ids, keys, items);
    RowsRebuild(rules, stored, ReportOfFile(ExportText(items), ids).rows);
    PartsRebuild(rules, stored, a, b, up, model);
    LinesKeptExactly(a, b, up, model, unit, base, clockOf);
  }

  // ------------------------------------------------- token rules with dimensions

  /** A token rule with a dimension key never prices a request. */
  lemma StrayNeverPrices(rules: seq<Rule>, unit: string, input: Input, r: Rule)
    requires unit in TOKEN_UNITS && r in Candidates(rules, unit, input)
    ensures r.dimensionKey == ""
  {
    hide Tier, Active, InEffect;
    TokenKey(unit, input);
    InTier(rules, unit, input.at, "", r);
  }

  /** Exported, a column has the price of its last rule. */
  lemma {:induction false} ColumnHoldsLast(rules: seq<Rule>, names: map<nat, string>, key: Key, col: nat) returns (z: nat)
    requires col < 4 && exists r :: r in rules && InColumn(r, key, col)
    ensures z < |rules| && InColumn(rules[z], key, col) && forall j :: z < j < |rules| ==> !InColumn(rules[j], key, col)
    ensures AggPrice(Agg(rules, names, key), col) == Some(rules[z].basePrice)
  {
    hide AddRow, AggPrice;
    var n := |rules| - 1;
    assert rules == rules[..n] + [rules[n]];
    if KeyOf(rules[n]) == key {
      AddRowColumn(Agg(rules[..n], names, key), rules[n], col);
    }
    if InColumn(rules[n], key, col) {
      z := n;
    } else {
      z := ColumnHoldsLast(rules[..n], names, key, col);
    }
  }

  /** The rows of a column in the order of the export query. */
  ghost predicate InDimensionOrder(rules: seq<Rule>, key: Key, col: nat)
    requires col < 4
  {
    forall i, j :: 0 <= i < j < |rules| && InColumn(rules[i], key, col) && InColumn(rules[j], key, col) ==>
      Less(rules[i].dimensionKey, rules[j].dimensionKey)
  }

  /** A token rule with a dimension key, though it prices nothing, takes over the column of its unit: the row
      that comes back is without dimensions, so it will price requests, and has the price of such a rule. */
  lemma StrayTakesColumn(rules: seq<Rule>, names: map<nat, string>, key: Key, col: nat, stray: Rule) returns (z: Rule)
    requires col < 4 && InDimensionOrder(rules, key, col)
    requires stray in rules && InColumn(stray, key, col) && stray.dimensionKey != ""
    ensures z in rules && InColumn(z, key, col) && z.dimensionKey != ""
    ensures var rows := ColRows(Returned(rules, names, key), key.0, col);
      |rows| == 1 && rows[0].dimensionKey == "" && rows[0].basePrice == z.basePrice
  {
    hide AggPrice, Agg, NormItem, ColPrice;
    var last := ColumnHoldsLast(rules, names, key, col);
    z := rules[last];
    var i :| 0 <= i < |rules| && rules[i] == stray;
    assert i <= last;
    FinishColumn(Agg(rules, names, key), col);
    ColPriceOfNorm(Finish(Agg(rules, names, key)), col);
    EmptyKey();
  }
}
