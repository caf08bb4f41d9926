/**
 The exchange-rate table (src/billing/fx.rs:17-144): manual over fresh auto over inverse over built-in.

 Instants are nanoseconds. Rates are decimals, and the quotient of an inverse rate is rounded;
 amounts, and their products with rates, are exact (`real`).
 */
module Fx {
  import opened Wrappers
  import opened Numerals

  datatype FxRateRow = FxRateRow(from: string, to: string, rate: Decimal, source: string, fetchedAt: Option<int>)

  datatype FxRate = FxRate(rate: Decimal, source: string, at: Option<int>, inverse: bool)

  type Pair = (string, string)

  type FxSet = map<Pair, FxRate>

  const NANOS_PER_MINUTE := 60_000_000_000
  const USD_CNY: Decimal := Dec(673, 2)

  /** `as i64` on a u64. */
  function AsI64(n: nat): int {
    var m := n % 0x1_0000_0000_0000_0000;
    if m < 0x8000_0000_0000_0000 then m else m - 0x1_0000_0000_0000_0000
  }

  /** Whole minutes of a duration, truncated toward zero. */
  function NumMinutes(nanos: int): int {
    if nanos >= 0 then nanos / NANOS_PER_MINUTE else -(-nanos / NANOS_PER_MINUTE)
  }

  predicate Fresh(row: FxRateRow, now: int, staleMax: nat) {
    row.fetchedAt.Some? && NumMinutes(now - row.fetchedAt.value) <= AsI64(staleMax)
  }

  predicate Manual(row: FxRateRow, pair: Pair) {
    row.source == "manual" && (row.from, row.to) == pair
  }

  predicate FreshAuto(row: FxRateRow, pair: Pair, now: int, staleMax: nat) {
    row.source == "auto" && (row.from, row.to) == pair && Fresh(row, now, staleMax)
  }

  function RateOf(row: FxRateRow): FxRate {
    FxRate(row.rate, row.source, row.fetchedAt, false)
  }

  // ------------------------------------------------------------- reciprocals

  /** The integer nearest to n / d, the even one of two. */
  function Nearest(n: nat, d: nat): nat
    requires d > 0
  {
    var q, r := n / d, n % d;
    if 2 * r > d || (2 * r == d && q % 2 == 1) then q + 1 else q
  }

  /** At most half of `d` apart. */
  predicate Within(x: int, n: int, d: int) {
    -d <= 2 * (x - n) <= d
  }

  lemma NearestIs(n: nat, d: nat)
    requires d > 0
    ensures Within(Nearest(n, d) * d, n, d)
    ensures Nearest(n, d) * d == n <==> n % d == 0
  {
    var q, r := n / d, n % d;
    DivMod(n, d);
    if Nearest(n, d) == q + 1 {
      assert Nearest(n, d) * d == q * d + d;
    } else {
      assert Nearest(n, d) * d == q * d;
    }
  }

  lemma DivMod(n: nat, d: nat)
    requires d > 0
    ensures n / d * d + n % d == n && 0 <= n % d < d && (n / d + 1) * d == n / d * d + d
  {
  }

  /** The mantissa of 1 / d at `s` decimal places. */
  function QuotientAt(d: Decimal, s: nat): nat
    requires d.mantissa != 0
  {
    Nearest(Pow10(d.scale + s), Abs(d.mantissa))
  }

  /** The most places, up to `s`, at which the mantissa of 1 / d has 96 bits. */
  function FitScale(d: Decimal, s: nat): (r: nat)
    requires d.mantissa != 0
    ensures r <= s && QuotientAt(d, r) < MANTISSA_LIMIT
    ensures forall t :: r < t <= s ==> QuotientAt(d, t) >= MANTISSA_LIMIT
  {
    UnitsFit(d);
    if s == 0 || QuotientAt(d, s) < MANTISSA_LIMIT then s else FitScale(d, s - 1)
  }

  lemma {:induction false} PowersGrow(k: nat, n: nat)
    requires k <= n
    ensures Pow10(k) <= Pow10(n)
  {
    if k < n {
      PowersGrow(k, n - 1);
    }
  }

  lemma LargePowers()
    ensures Pow10(28) == 10_000_000_000_000_000_000_000_000_000
    ensures Pow10(30) == 1_000_000_000_000_000_000_000_000_000_000
  {
    assert Pow10(6) == 1_000_000;
    assert Pow10(12) == 1_000_000_000_000;
    assert Pow10(18) == 1_000_000_000_000_000_000;
    assert Pow10(24) == 1_000_000_000_000_000_000_000_000;
    assert Pow10(28) == 10_000_000_000_000_000_000_000_000_000;
  }

  lemma UnitsFit(d: Decimal)
    requires d.mantissa != 0
    ensures QuotientAt(d, 0) < MANTISSA_LIMIT
  {
    PowersGrow(d.scale, 28);
    LargePowers();
    NearestIsSmall(Pow10(d.scale), Abs(d.mantissa));
  }

  lemma NearestIsSmall(n: nat, d: nat)
    requires d > 0
    ensures Nearest(n, d) <= n + 1
  {
    QuotientIsSmall(n, d);
  }

  lemma QuotientIsSmall(n: nat, d: nat)
    requires d > 0
    ensures n / d <= n
  {
    if n / d > n {
      DivMod(n, d);
      Grows(n / d, d);
      assert false;
    }
  }

  lemma Grows(q: nat, d: nat)
    requires d > 0
    ensures q <= q * d
  {
  }

  /** `Decimal::ONE / d` up to trailing zeros: the nearest decimal of at most 28 places that fits. */
  function Recip(d: Decimal): Decimal
    requires d.mantissa != 0
  {
    var s := FitScale(d, MAX_SCALE);
    var q: int := QuotientAt(d, s);
    Dec(if d.mantissa < 0 then -q else q, s)
  }

  function AbsReal(x: real): real {
    if x < 0.0 then -x else x
  }

  /** The division 1 / d ends within the places kept. */
  predicate Divides(d: Decimal)
    requires d.mantissa != 0
  {
    Pow10(d.scale + Recip(d).scale) % Abs(d.mantissa) == 0
  }

  /** What a rate times its rounded reciprocal misses one by. */
  function Residue(d: Decimal): real
    requires d.mantissa != 0
  {
    Value(d) * Value(Recip(d)) - 1.0
  }

  /** Half a unit of the last place of 1 / d, seen at the size of d. */
  function Slack(d: Decimal): real
    requires d.mantissa != 0
  {
    AbsReal(Value(d)) / (2.0 * Pow10(Recip(d).scale) as real)
  }

  /** The residue is at most the slack, and zero exactly when the division ends. */
  lemma RecipError(d: Decimal)
    requires d.mantissa != 0
    ensures AbsReal(Residue(d)) <= Slack(d)
    ensures Residue(d) == 0.0 <==> Divides(d)
  {
    hide Divides, Residue, Slack, Ratio;
    var x, n := RecipParts(d);
    NearOne(x, Abs(d.mantissa), n);
  }

  /** The rate times its reciprocal is x / n, with x the multiple of the mantissa nearest to n. */
  lemma RecipParts(d: Decimal) returns (x: int, n: int)
    requires d.mantissa != 0
    ensures n > 0 && Residue(d) == Ratio(x, n) - 1.0 && Slack(d) == Ratio(Abs(d.mantissa), n) / 2.0
    ensures Within(x, n, Abs(d.mantissa)) && (x == n <==> Divides(d))
  {
    hide Pow10, Recip, QuotientAt, Within, Divides, Residue, Slack, Ratio;
    var s := Recip(d).scale;
    x, n := QuotientAt(d, s) * Abs(d.mantissa), Pow10(d.scale) * Pow10(s);
    RecipIs(d);
    PowersAdd(d.scale, s);
    ResidueIs(d, x);
    SlackIs(d);
    SlackRatio(Abs(d.mantissa), Pow10(d.scale), Pow10(s));
  }

  lemma SlackRatio(m: nat, p: nat, t: nat)
    requires p > 0 && t > 0 && p * t > 0
    ensures Ratio(m, p) / (2.0 * t as real) == Ratio(m, p * t) / 2.0
  {
    ProductOfReals(p, t);
    Fractions(m as real, 1.0, p as real, 2.0 * t as real);
    Fractions(m as real, 1.0, (p * t) as real, 2.0);
  }

  function Ratio(x: int, n: int): real
    requires n > 0
  {
    x as real / n as real
  }

  lemma ResidueIs(d: Decimal, x: int)
    requires d.mantissa != 0 && x == Abs(Recip(d).mantissa) * Abs(d.mantissa)
    requires (Recip(d).mantissa < 0 ==> d.mantissa < 0) && (d.mantissa < 0 ==> Recip(d).mantissa <= 0)
    ensures Pow10(d.scale) * Pow10(Recip(d).scale) > 0
    ensures Residue(d) == Ratio(x, Pow10(d.scale) * Pow10(Recip(d).scale)) - 1.0
  {
    hide Pow10, Recip;
    SignsCancel(d.mantissa, Recip(d).mantissa, Pow10(d.scale), Pow10(Recip(d).scale));
  }

  lemma SlackIs(d: Decimal)
    requires d.mantissa != 0
    ensures Slack(d) == Ratio(Abs(d.mantissa), Pow10(d.scale)) / (2.0 * Pow10(Recip(d).scale) as real)
  {
    hide Pow10, Recip;
  }

  lemma RecipIs(d: Decimal)
    requires d.mantissa != 0
    ensures var m, s := Abs(d.mantissa), Recip(d).scale;
      var q := QuotientAt(d, s);
      var n := Pow10(d.scale + s);
      && Abs(Recip(d).mantissa) == q && (Recip(d).mantissa < 0 ==> d.mantissa < 0)
      && (d.mantissa < 0 ==> Recip(d).mantissa <= 0)
      && Within(q * m, n, m) && (q * m == n <==> Divides(d))
  {
    hide FitScale, Pow10, Nearest, Within;
    NearestIs(Pow10(d.scale + Recip(d).scale), Abs(d.mantissa));
  }

  lemma SignsCancel(a: int, b: int, p: nat, t: nat)
    requires p > 0 && t > 0 && (b < 0 ==> a < 0) && (a < 0 ==> b <= 0)
    ensures p * t > 0 && (a as real / p as real) * (b as real / t as real) == Ratio(Abs(b) * Abs(a), p * t)
  {
    hide Abs;
    SizesOfProduct(a, b);
    assert p * t > 0;
    ProductOfReals(a, b);
    ProductOfReals(p, t);
    Fractions(a as real, b as real, p as real, t as real);
  }

  lemma SizesOfProduct(a: int, b: int)
    requires (b < 0 ==> a < 0) && (a < 0 ==> b <= 0)
    ensures a * b == Abs(b) * Abs(a)
  {
  }

  lemma ProductOfReals(a: int, b: int)
    ensures a as real * b as real == (a * b) as real
  {
  }

  lemma Fractions(x: real, y: real, p: real, t: real)
    requires p > 0.0 && t > 0.0
    ensures (x / p) * (y / t) == (x * y) / (p * t)
  {
    var u, v := x / p, y / t;
    assert x * y == (u * p) * (v * t) == (u * v) * (p * t);
  }

  lemma NearOne(x: int, m: nat, n: int)
    requires n > 0 && Within(x, n, m)
    ensures AbsReal(Ratio(x, n) - 1.0) <= Ratio(m, n) / 2.0
    ensures Ratio(x, n) == 1.0 <==> x == n
  {
    var e, y := Ratio(x, n) - 1.0, n as real;
    assert e * y == x as real - y;
    assert Ratio(m, n) * y == m as real;
  }

  lemma {:induction false} PowersAdd(k: nat, s: nat)
    ensures Pow10(k) * Pow10(s) == Pow10(k + s)
  {
    if k > 0 {
      PowersAdd(k - 1, s);
      TenTimes(Pow10(k - 1), Pow10(s));
    }
  }

  lemma TenTimes(a: nat, b: nat)
    ensures 10 * a * b == 10 * (a * b)
  {
  }

  // ------------------------------------------------------------- closed form

  function FirstManual(rows: seq<FxRateRow>, pair: Pair): (r: Option<FxRateRow>)
    ensures r.Some? ==> r.value in rows && Manual(r.value, pair)
    ensures r.None? ==> forall row :: row in rows ==> !Manual(row, pair)
  {
    if rows == [] then None
    else if Manual(rows[0], pair) then Some(rows[0])
    else FirstManual(rows[1..], pair)
  }

  function FirstFreshAuto(rows: seq<FxRateRow>, pair: Pair, now: int, staleMax: nat): (r: Option<FxRateRow>)
    ensures r.Some? ==> r.value in rows && FreshAuto(r.value, pair, now, staleMax)
    ensures r.None? ==> forall row :: row in rows ==> !FreshAuto(row, pair, now, staleMax)
  {
    if rows == [] then None
    else if FreshAuto(rows[0], pair, now, staleMax) then Some(rows[0])
    else FirstFreshAuto(rows[1..], pair, now, staleMax)
  }

  /** The usable rate listed for a pair: manual, else fresh auto. */
  function Direct(rows: seq<FxRateRow>, pair: Pair, now: int, staleMax: nat): Option<FxRate> {
    if FirstManual(rows, pair).Some? then Some(RateOf(FirstManual(rows, pair).value))
    else if FirstFreshAuto(rows, pair, now, staleMax).Some? then Some(RateOf(FirstFreshAuto(rows, pair, now, staleMax).value))
    else None
  }

  function Inverse(r: FxRate): FxRate
    requires r.rate.mantissa != 0
  {
    FxRate(Recip(r.rate), r.source, r.at, true)
  }

  /** The rate of a pair: listed, else the inverse of the opposite listing unless that is zero. */
  function Effective(rows: seq<FxRateRow>, pair: Pair, now: int, staleMax: nat): Option<FxRate> {
    var back := Direct(rows, (pair.1, pair.0), now, staleMax);
    if Direct(rows, pair, now, staleMax).Some? then Direct(rows, pair, now, staleMax)
    else if back.Some? && back.value.rate.mantissa != 0 then Some(Inverse(back.value))
    else None
  }

  function Entry(m: FxSet, p: Pair): Option<FxRate> {
    if p in m then Some(m[p]) else None
  }

  /** `m` holds exactly the pairs that `f` gives a rate. */
  ghost predicate Tabulates(m: FxSet, f: Pair -> Option<FxRate>) {
    forall p :: Entry(m, p) == f(p)
  }

  // ------------------------------------------------------------ construction

  lemma {:induction false} DirectOfNext(rows: seq<FxRateRow>, row: FxRateRow, pair: Pair, now: int, staleMax: nat)
    ensures FirstManual(rows + [row], pair)
         == if FirstManual(rows, pair).Some? then FirstManual(rows, pair)
            else if Manual(row, pair) then Some(row) else None
    ensures FirstFreshAuto(rows + [row], pair, now, staleMax)
         == if FirstFreshAuto(rows, pair, now, staleMax).Some? then FirstFreshAuto(rows, pair, now, staleMax)
            else if FreshAuto(row, pair, now, staleMax) then Some(row) else None
  {
    if rows != [] {
      assert (rows + [row])[1..] == rows[1..] + [row];
      DirectOfNext(rows[1..], row, pair, now, staleMax);
    }
  }

  predicate Allowed(row: FxRateRow, now: int, staleMax: nat) {
    row.source == "manual" || (row.source == "auto" && Fresh(row, now, staleMax))
  }

  /** The insertion rule of the first pass: manual replaces auto, otherwise the first row stays. */
  lemma DirectStep(rows: seq<FxRateRow>, row: FxRateRow, pair: Pair, now: int, staleMax: nat)
    ensures Direct(rows + [row], pair, now, staleMax)
         == var d := Direct(rows, pair, now, staleMax);
            if Allowed(row, now, staleMax) && (row.from, row.to) == pair
               && (d.None? || (row.source == "manual" && d.value.source != "manual"))
            then Some(RateOf(row)) else d
  {
    DirectOfNext(rows, row, pair, now, staleMax);
  }

  method ListedRates(rows: seq<FxRateRow>, now: int, staleMax: nat) returns (direct: FxSet)
    ensures Tabulates(direct, p => Direct(rows, p, now, staleMax))
  {
    hide Direct, Fresh;
    direct := map[];
    assert forall p :: Direct([], p, now, staleMax) == None by {
      forall p ensures Direct([], p, now, staleMax) == None { DirectOfNone(p, now, staleMax); }
    }
    for i := 0 to |rows|
      invariant forall p :: Entry(direct, p) == Direct(rows[..i], p, now, staleMax)
    {
      var row := rows[i];
      var pair := (row.from, row.to);
      assert rows[..i + 1] == rows[..i] + [row];
      forall p {
        DirectStep(rows[..i], row, p, now, staleMax);
      }
      assert Entry(direct, pair) == Direct(rows[..i], pair, now, staleMax);
      if Allowed(row, now, staleMax) {
        if pair !in direct || (row.source == "manual" && direct[pair].source != "manual") {
          direct := direct[pair := RateOf(row)];
        }
      }
    }
    assert rows[..|rows|] == rows;
  }

  lemma DirectOfNone(p: Pair, now: int, staleMax: nat)
    ensures Direct([], p, now, staleMax) == None
  {
  }

  /** One inverse entry of the second pass. */
  function WithInverse(m: FxSet, direct: FxSet, pair: Pair): FxSet
    requires pair in direct
  {
    var inv := (pair.1, pair.0);
    if inv !in m && direct[pair].rate.mantissa != 0 then m[inv := Inverse(direct[pair])] else m
  }

  /** The table while the pairs of `rest` have not been expanded. */
  function Expanded(direct: FxSet, rest: set<Pair>, p: Pair): Option<FxRate> {
    var back := (p.1, p.0);
    if p in direct then Some(direct[p])
    else if back in direct && back !in rest && direct[back].rate.mantissa != 0 then Some(Inverse(direct[back]))
    else None
  }

  lemma ExpandOne(m: FxSet, direct: FxSet, rest: set<Pair>, pair: Pair, p: Pair)
    requires pair in direct && pair in rest
    requires Entry(m, p) == Expanded(direct, rest, p)
    requires Entry(m, (pair.1, pair.0)) == Expanded(direct, rest, (pair.1, pair.0))
    ensures Entry(WithInverse(m, direct, pair), p) == Expanded(direct, rest - {pair}, p)
  {
  }

  /** build_fx_set: one pass filling `direct`, then the inverses in whatever order the map yields them. */
  method BuildFxSet(rows: seq<FxRateRow>, now: int, staleMax: nat) returns (m: FxSet)
    ensures Tabulates(m, p => Effective(rows, p, now, staleMax))
  {
    var direct := ListedRates(rows, now, staleMax);
    ghost var d := (p: Pair) => Direct(rows, p, now, staleMax);
    assert Tabulates(direct, d);
    hide Direct;
    m := direct;
    var rest := direct.Keys;
    while rest != {}
      invariant rest <= direct.Keys
      invariant forall p :: Entry(m, p) == Expanded(direct, rest, p)
    {
      hide Expanded, WithInverse, Entry;
      var pair :| pair in rest;
      forall p {
        ExpandOne(m, direct, rest, pair, p);
      }
      m := WithInverse(m, direct, pair);
      rest := rest - {pair};
    }
    forall p ensures Entry(m, p) == Effective(rows, p, now, staleMax) {
      assert Entry(direct, p) == d(p) && Entry(direct, (p.1, p.0)) == d((p.1, p.0));
    }
  }

  // ------------------------------------------------------- order independence

  /** The table's primary key. */
  ghost predicate UniqueRows(rows: seq<FxRateRow>) {
    forall a, b :: a in rows && b in rows && (a.from, a.to, a.source) == (b.from, b.to, b.source) ==> a == b
  }

  /** With the primary key respected, the rates do not depend on the order of the rows. */
  lemma RowOrderIsIrrelevant(rows: seq<FxRateRow>, others: seq<FxRateRow>, pair: Pair, now: int, staleMax: nat)
    requires UniqueRows(rows) && (forall r :: r in rows <==> r in others)
    ensures Effective(rows, pair, now, staleMax) == Effective(others, pair, now, staleMax)
  {
    DirectOrderFree(rows, others, pair, now, staleMax);
    DirectOrderFree(rows, others, (pair.1, pair.0), now, staleMax);
  }

  lemma DirectOrderFree(rows: seq<FxRateRow>, others: seq<FxRateRow>, pair: Pair, now: int, staleMax: nat)
    requires UniqueRows(rows) && (forall r :: r in rows <==> r in others)
    ensures Direct(rows, pair, now, staleMax) == Direct(others, pair, now, staleMax)
  {
    var m, m' := FirstManual(rows, pair), FirstManual(others, pair);
    assert m.Some? ==> m.value in others;
    assert m'.Some? ==> m'.value in rows;
    var a, a' := FirstFreshAuto(rows, pair, now, staleMax), FirstFreshAuto(others, pair, now, staleMax);
    assert a.Some? ==> a.value in others;
    assert a'.Some? ==> a'.value in rows;
  }

  // -------------------------------------------------------------- conversion

  function Builtin(from: string, to: string): Option<FxRate> {
    if (from, to) == ("USD", "CNY") then Some(FxRate(USD_CNY, "builtin", None, false))
    else if (from, to) == ("CNY", "USD") then Some(FxRate(Recip(USD_CNY), "builtin", None, true))
    else None
  }

  /** FxSet::convert: the amount, and the rate applied if any. */
  function Convert(m: FxSet, from: string, to: string, amount: real): Option<(real, Option<FxRate>)> {
    if from == to then Some((amount, None))
    else if (from, to) in m then Some((amount * Value(m[(from, to)].rate), Some(m[(from, to)])))
    else match Builtin(from, to)
      case Some(r) => Some((amount * Value(r.rate), Some(r)))
      case None => None
  }

  /** Convert fails exactly for two currencies without a rate of their own that are not CNY and USD. */
  lemma ConvertIsTotalOnCnyUsd(m: FxSet, from: string, to: string, amount: real)
    ensures Convert(m, from, to, amount).None?
       <==> from != to && (from, to) !in m && {from, to} != {"CNY", "USD"}
  {
    if from != to && {from, to} == {"CNY", "USD"} {
      assert from in {"CNY", "USD"} && to in {"CNY", "USD"};
    }
    if (from, to) == ("USD", "CNY") || (from, to) == ("CNY", "USD") {
      assert {from, to} == {"CNY", "USD"};
    }
  }

  /** The rate from one currency to another after all fallbacks. */
  function Factor(m: FxSet, from: string, to: string): Option<real> {
    match Convert(m, from, to, 1.0)
    case Some((v, _)) => Some(v)
    case None => None
  }

  /** The built-in rate is always there as a last resort. */
  lemma CnyAndUsdConvert(m: FxSet)
    ensures Factor(m, "USD", "CNY").Some? && Factor(m, "CNY", "USD").Some?
  {
    var there, back := Builtin("USD", "CNY"), Builtin("CNY", "USD");
  }

  function Times(amount: real, factor: real): real {
    amount * factor
  }

  lemma ConvertIsLinear(m: FxSet, from: string, to: string, amount: real)
    ensures Convert(m, from, to, amount).Some? <==> Factor(m, from, to).Some?
    ensures Factor(m, from, to).Some? ==> Convert(m, from, to, amount).value.0 == Times(amount, Factor(m, from, to).value)
  {
    hide Value, Recip;
  }

  // --------------------------------------------------------- which rate applies

  /** A manual rate always, an automatic one until the minute after `staleMax` has begun. */
  predicate Usable(row: FxRateRow, now: int, staleMax: nat) {
    row.source == "manual"
    || (row.source == "auto" && row.fetchedAt.Some? && now - row.fetchedAt.value < (staleMax + 1) * 60_000_000_000)
  }

  lemma UsableIsAllowed(row: FxRateRow, now: int, staleMax: nat)
    requires staleMax < 0x8000_0000_0000_0000
    ensures Usable(row, now, staleMax) <==> Allowed(row, now, staleMax)
  {
  }

  /** A usable row applies to its pair, unless it is automatic and there is a manual one; and its rounded reciprocal
      applies to the opposite pair when that has no usable row of its own. */
  lemma UsableRowApplies(rows: seq<FxRateRow>, now: int, staleMax: nat, m: FxSet, row: FxRateRow, amount: real)
    requires Tabulates(m, p => Effective(rows, p, now, staleMax)) && UniqueRows(rows) && staleMax < 0x8000_0000_0000_0000
    requires row in rows && row.from != row.to && Usable(row, now, staleMax)
    requires row.source == "manual" || !exists o :: o in rows && (o.from, o.to, o.source) == (row.from, row.to, "manual")
    ensures Convert(m, row.from, row.to, amount)
         == Some((Times(amount, Value(row.rate)), Some(FxRate(row.rate, row.source, row.fetchedAt, false))))
    ensures row.rate.mantissa != 0 && !(exists o :: o in rows && (o.from, o.to) == (row.to, row.from) && Usable(o, now, staleMax)) ==>
      Convert(m, row.to, row.from, amount)
        == Some((Times(amount, Value(Recip(row.rate))), Some(FxRate(Recip(row.rate), row.source, row.fetchedAt, true))))
  {
    hide Value, Recip, Convert, Times, Direct, Fresh;
    UsableIsAllowed(row, now, staleMax);
    EntriesOf(rows, now, staleMax, m, (row.from, row.to));
    DirectOfRow(rows, now, staleMax, row);
    EntryApplies(m, row.from, row.to, amount);
    EntryApplies(m, row.to, row.from, amount);
    if !exists o :: o in rows && (o.from, o.to) == (row.to, row.from) && Usable(o, now, staleMax) {
      DirectOfNobody(rows, now, staleMax, (row.to, row.from));
    }
  }

  lemma EntryApplies(m: FxSet, from: string, to: string, amount: real)
    requires from != to
    ensures match Entry(m, (from, to))
      case Some(r) => Convert(m, from, to, amount) == Some((Times(amount, Value(r.rate)), Some(r)))
      case None =>
        match Builtin(from, to)
        case Some(r) => Convert(m, from, to, amount) == Some((Times(amount, Value(r.rate)), Some(r)))
        case None => Convert(m, from, to, amount) == None
  {
    hide Value, Builtin;
    match Entry(m, (from, to))
    case Some(r) =>
      assert (from, to) in m && m[(from, to)] == r;
      var c := Convert(m, from, to, amount);
      assert c.Some? && c.value.1 == Some(r);
      assert c.value.0 == Times(amount, Value(r.rate));
    case None =>
  }

  lemma DirectOfRow(rows: seq<FxRateRow>, now: int, staleMax: nat, row: FxRateRow)
    requires UniqueRows(rows) && row in rows && Allowed(row, now, staleMax)
    requires row.source == "manual" || !exists o :: o in rows && (o.from, o.to, o.source) == (row.from, row.to, "manual")
    ensures Direct(rows, (row.from, row.to), now, staleMax) == Some(RateOf(row))
  {
    var manual := FirstManual(rows, (row.from, row.to));
    var auto := FirstFreshAuto(rows, (row.from, row.to), now, staleMax);
    assert manual.Some? ==> (manual.value.from, manual.value.to, manual.value.source) == (row.from, row.to, "manual");
    assert auto.Some? ==> (auto.value.from, auto.value.to, auto.value.source) == (row.from, row.to, "auto");
  }

  lemma DirectOfNobody(rows: seq<FxRateRow>, now: int, staleMax: nat, pair: Pair)
    requires staleMax < 0x8000_0000_0000_0000
    requires !exists o :: o in rows && (o.from, o.to) == pair && Usable(o, now, staleMax)
    ensures Direct(rows, pair, now, staleMax) == None
  {
    var manual, auto := FirstManual(rows, pair), FirstFreshAuto(rows, pair, now, staleMax);
    if manual.Some? {
      UsableIsAllowed(manual.value, now, staleMax);
    }
    if auto.Some? {
      UsableIsAllowed(auto.value, now, staleMax);
    }
  }

  /** Without a usable row between them a dollar is 6.73 yuan, and a yuan the reciprocal of that. */
  lemma BuiltinApplies(rows: seq<FxRateRow>, now: int, staleMax: nat, m: FxSet, amount: real)
    requires Tabulates(m, p => Effective(rows, p, now, staleMax)) && staleMax < 0x8000_0000_0000_0000
    requires forall o :: o in rows && {o.from, o.to} == {"CNY", "USD"} ==> !Usable(o, now, staleMax)
    ensures Convert(m, "USD", "CNY", amount) == Some((amount * 6.73, Some(FxRate(Dec(673, 2), "builtin", None, false))))
    ensures Convert(m, "CNY", "USD", amount)
         == Some((Times(amount, Value(Recip(Dec(673, 2)))), Some(FxRate(Recip(Dec(673, 2)), "builtin", None, true))))
  {
    hide Recip, Value, Convert, Direct, Usable;
    EntryApplies(m, "USD", "CNY", amount);
    EntryApplies(m, "CNY", "USD", amount);
    EntriesOf(rows, now, staleMax, m, ("USD", "CNY"));
    DirectOfNobody(rows, now, staleMax, ("USD", "CNY"));
    DirectOfNobody(rows, now, staleMax, ("CNY", "USD"));
    BuiltinValue();
  }

  lemma BuiltinValue()
    ensures Value(USD_CNY) == 6.73
  {
    assert Pow10(2) == 100;
  }

  // -------------------------------------------------------------- round trips

  /** The rate both directions rest on when at most one of them is listed. */
  function Base(rows: seq<FxRateRow>, from: string, to: string, now: int, staleMax: nat): Option<Decimal> {
    var there, back := Direct(rows, (from, to), now, staleMax), Direct(rows, (to, from), now, staleMax);
    if there.Some? then Some(there.value.rate)
    else if back.Some? then Some(back.value.rate)
    else if {from, to} == {"CNY", "USD"} then Some(USD_CNY)
    else None
  }

  ghost predicate OneListed(rows: seq<FxRateRow>, from: string, to: string, now: int, staleMax: nat) {
    Direct(rows, (from, to), now, staleMax).None? || Direct(rows, (to, from), now, staleMax).None?
  }

  /** The factors of the two directions are a rate and its rounded reciprocal, in one order or the other. */
  lemma FactorsOfBase(rows: seq<FxRateRow>, now: int, staleMax: nat, m: FxSet, from: string, to: string)
    requires Tabulates(m, p => Effective(rows, p, now, staleMax)) && OneListed(rows, from, to, now, staleMax)
    requires from != to
    requires var base := Base(rows, from, to, now, staleMax); base.Some? && base.value.mantissa != 0
    ensures var b := Base(rows, from, to, now, staleMax).value;
      var r, s := Factor(m, from, to), Factor(m, to, from);
      && r.Some? && s.Some?
      && ((r.value == Value(b) && s.value == Value(Recip(b))) || (r.value == Value(Recip(b)) && s.value == Value(b)))
  {
    hide Direct, Recip, Value;
    EntriesOf(rows, now, staleMax, m, (from, to));
    if {from, to} == {"CNY", "USD"} {
      assert from in {"CNY", "USD"} && to in {"CNY", "USD"};
    }
  }

  lemma EntriesOf(rows: seq<FxRateRow>, now: int, staleMax: nat, m: FxSet, p: Pair)
    requires Tabulates(m, p => Effective(rows, p, now, staleMax))
    ensures Entry(m, p) == Effective(rows, p, now, staleMax)
    ensures Entry(m, (p.1, p.0)) == Effective(rows, (p.1, p.0), now, staleMax)
  {
    hide Effective;
    var f := (p: Pair) => Effective(rows, p, now, staleMax);
    assert Entry(m, p) == f(p) && Entry(m, (p.1, p.0)) == f((p.1, p.0));
  }

  /** There and back, with each product rounded by at most `u` and `v`: the amount is missed by no more
      than the slack of the reciprocal and the two roundings allow. */
  lemma RoundTripError(rows: seq<FxRateRow>, now: int, staleMax: nat, m: FxSet, from: string, to: string,
                       amount: real, there: real, back: real, u: real, v: real)
    requires Tabulates(m, p => Effective(rows, p, now, staleMax)) && OneListed(rows, from, to, now, staleMax)
    requires from != to
    requires var base := Base(rows, from, to, now, staleMax); base.Some? && base.value.mantissa != 0
    ensures var b := Base(rows, from, to, now, staleMax).value;
      var r, s := Factor(m, from, to), Factor(m, to, from);
      && r.Some? && s.Some?
      && (AbsReal(there - Times(amount, r.value)) <= u && AbsReal(back - Times(there, s.value)) <= v ==>
            AbsReal(back - amount) <= Times(AbsReal(amount), Slack(b)) + Times(u, AbsReal(s.value)) + v)
  {
    hide Direct, Recip, Value, Slack, Residue, Base, Factor, Times, AbsReal;
    var b := Base(rows, from, to, now, staleMax).value;
    FactorsOfBase(rows, now, staleMax, m, from, to);
    RecipError(b);
    var r, s := Factor(m, from, to).value, Factor(m, to, from).value;
    ResidueOf(b, r, s);
    if AbsReal(there - Times(amount, r)) <= u && AbsReal(back - Times(there, s)) <= v {
      AddErrors(amount, there, back, u, v, r, s, Residue(b), Slack(b));
    }
  }

  lemma ResidueOf(b: Decimal, r: real, s: real)
    requires b.mantissa != 0
    requires (r == Value(b) && s == Value(Recip(b))) || (r == Value(Recip(b)) && s == Value(b))
    ensures Times(r, s) - 1.0 == Residue(b)
  {
    hide Value, Recip;
  }

  lemma AddErrors(amount: real, there: real, back: real, u: real, v: real, r: real, s: real, e: real, slack: real)
    requires AbsReal(there - Times(amount, r)) <= u && AbsReal(back - Times(there, s)) <= v
    requires Times(r, s) - 1.0 == e && AbsReal(e) <= slack
    ensures AbsReal(back - amount) <= Times(AbsReal(amount), slack) + Times(u, AbsReal(s)) + v
  {
    hide Times, AbsReal;
    var x := there - Times(amount, r);
    Triple(amount, r, s);
    Distribute(x, Times(amount, r), s);
    SizeOfProduct(x, s, u);
    SizeOfProduct(e, amount, slack);
    SizesAdd(back - Times(there, s), Times(x, s), Times(e, amount));
  }

  lemma Triple(a: real, r: real, s: real)
    ensures Times(Times(a, r), s) == a + Times(Times(r, s) - 1.0, a)
  {
    assert (a * r) * s == a * (r * s);
  }

  lemma Distribute(x: real, y: real, s: real)
    ensures Times(x + y, s) == Times(x, s) + Times(y, s)
  {
  }

  lemma SizesAdd(x: real, y: real, z: real)
    ensures AbsReal(x + y + z) <= AbsReal(x) + AbsReal(y) + AbsReal(z)
  {
  }

  lemma SizeOfProduct(x: real, y: real, u: real)
    requires AbsReal(x) <= u
    ensures AbsReal(Times(x, y)) <= Times(u, AbsReal(y)) == Times(AbsReal(y), u)
  {
    assert AbsReal(x * y) == AbsReal(x) * AbsReal(y);
  }

  /** Rounding the products cannot hide a residue that is larger than they allow: such an amount is missed. */
  lemma RoundTripMisses(rows: seq<FxRateRow>, now: int, staleMax: nat, m: FxSet, from: string, to: string,
                        amount: real, there: real, back: real, u: real, v: real)
    requires Tabulates(m, p => Effective(rows, p, now, staleMax)) && OneListed(rows, from, to, now, staleMax)
    requires from != to
    requires var base := Base(rows, from, to, now, staleMax); base.Some? && base.value.mantissa != 0
    ensures var b := Base(rows, from, to, now, staleMax).value;
      var r, s := Factor(m, from, to), Factor(m, to, from);
      && r.Some? && s.Some?
      && ((AbsReal(there - Times(amount, r.value)) <= u && AbsReal(back - Times(there, s.value)) <= v
           && AbsReal(Times(Residue(b), amount)) > Times(u, AbsReal(s.value)) + v) ==> back != amount)
  {
    hide Direct, Recip, Value, Residue, Base, Factor, Times, AbsReal;
    var b := Base(rows, from, to, now, staleMax).value;
    FactorsOfBase(rows, now, staleMax, m, from, to);
    var r, s := Factor(m, from, to).value, Factor(m, to, from).value;
    ResidueOf(b, r, s);
    if AbsReal(there - Times(amount, r)) <= u && AbsReal(back - Times(there, s)) <= v && back == amount {
      var x := there - Times(amount, r);
      Triple(amount, r, s);
      Distribute(x, Times(amount, r), s);
      SizeOfProduct(x, s, u);
      Opposite(Times(Residue(b), amount), back - Times(there, s), Times(x, s));
    }
  }

  lemma Opposite(e: real, y: real, z: real)
    requires e + y + z == 0.0
    ensures AbsReal(e) <= AbsReal(y) + AbsReal(z)
  {
  }

  /** The multiple of `w` nearest to `x`, up to a tie. */
  predicate NearestOn(x: real, w: real, j: int) {
    2.0 * AbsReal(Times(j as real, w) - x) <= w
  }

  /** When the first product needs no rounding and the second is rounded to a multiple of `w`, an amount
      that is itself such a multiple comes back if and only if the residue at the amount is less than half
      of `w`. Half of `w` exactly is a tie. */
  lemma RoundTripReturns(rows: seq<FxRateRow>, now: int, staleMax: nat, m: FxSet, from: string, to: string,
                         w: real, i: int, j: int)
    requires Tabulates(m, p => Effective(rows, p, now, staleMax)) && OneListed(rows, from, to, now, staleMax)
    requires from != to && w > 0.0
    requires var base := Base(rows, from, to, now, staleMax); base.Some? && base.value.mantissa != 0
    ensures var b := Base(rows, from, to, now, staleMax).value;
      var r, s := Factor(m, from, to), Factor(m, to, from);
      var amount := Times(i as real, w);
      && r.Some? && s.Some?
      && (NearestOn(Times(Times(amount, r.value), s.value), w, j) && 2.0 * AbsReal(Times(Residue(b), amount)) != w ==>
            (j == i <==> 2.0 * AbsReal(Times(Residue(b), amount)) < w))
  {
    hide Direct, Recip, Value, Residue, Base, Factor, Times, AbsReal, NearestOn;
    var b := Base(rows, from, to, now, staleMax).value;
    FactorsOfBase(rows, now, staleMax, m, from, to);
    var r, s := Factor(m, from, to).value, Factor(m, to, from).value;
    var amount := Times(i as real, w);
    ResidueOf(b, r, s);
    Triple(amount, r, s);
    SnapsBack(w, i, j, Times(Residue(b), amount));
  }

  lemma AtLeast(x: real, w: real)
    requires x >= 1.0 && w > 0.0
    ensures Times(x, w) >= w
  {
    assert x * w - w == (x - 1.0) * w;
  }

  lemma Negated(x: real, w: real)
    ensures Times(-x, w) == -Times(x, w)
  {
  }

  lemma SnapsBack(w: real, i: int, j: int, e: real)
    requires w > 0.0
    ensures NearestOn(Times(i as real, w) + e, w, j) && 2.0 * AbsReal(e) != w ==> (j == i <==> 2.0 * AbsReal(e) < w)
  {
    var k := j - i;
    assert Times(j as real, w) == Times(i as real, w) + Times(k as real, w);
    if k > 0 {
      AtLeast(k as real, w);
    } else if k < 0 {
      Negated(k as real, w);
      AtLeast(-(k as real), w);
    }
  }

  /** The reciprocal of the built-in rate is rounded. */
  lemma BuiltinIsNotExact()
    ensures Recip(USD_CNY) == Dec(1_485_884_101_040_118_870_728_083_210, 28) && !Divides(USD_CNY)
    ensures Residue(USD_CNY) == 0.000_000_000_000_000_000_000_000_000_33
  {
    LargePowers();
    assert QuotientAt(USD_CNY, 28) == 1_485_884_101_040_118_870_728_083_210;
    assert Value(USD_CNY) == 6.73;
    assert Value(Recip(USD_CNY)) == 0.148_588_410_104_011_887_072_808_321_0;
  }

  /** So without a listed rate a USD amount of `i` units of the last place kept comes back from CNY unchanged
      if and only if 66 |i| < 10^29. With 28 places kept these are the amounts below 1 / 6.6 USD. */
  lemma BuiltinRoundTrip(rows: seq<FxRateRow>, now: int, staleMax: nat, m: FxSet, w: real, i: int, j: int)
    requires Tabulates(m, p => Effective(rows, p, now, staleMax)) && w > 0.0
    requires Direct(rows, ("USD", "CNY"), now, staleMax).None? && Direct(rows, ("CNY", "USD"), now, staleMax).None?
    ensures var r, s := Factor(m, "USD", "CNY"), Factor(m, "CNY", "USD");
      && r.Some? && s.Some?
      && (NearestOn(Times(Times(Times(i as real, w), r.value), s.value), w, j) ==>
            (j == i <==> 66 * Numerals.Abs(i) < 100_000_000_000_000_000_000_000_000_000))
  {
    hide Direct, Recip, Value, Residue, Factor, Times, AbsReal, NearestOn, Divides;
    assert {"USD", "CNY"} == {"CNY", "USD"};
    assert Base(rows, "USD", "CNY", now, staleMax) == Some(USD_CNY);
    RoundTripReturns(rows, now, staleMax, m, "USD", "CNY", w, i, j);
    BuiltinIsNotExact();
    BuiltinResidueAt(w, i);
  }

  lemma BuiltinResidueAt(w: real, i: int)
    requires w > 0.0
    ensures var e := 2.0 * AbsReal(Times(0.000_000_000_000_000_000_000_000_000_33, Times(i as real, w)));
      e != w && (e < w <==> 66 * Numerals.Abs(i) < 100_000_000_000_000_000_000_000_000_000)
  {
    var n, c := 66 * Numerals.Abs(i), 0.000_000_000_000_000_000_000_000_000_01;
    assert n != 100_000_000_000_000_000_000_000_000_000;
    var q := n as real * c;
    assert n < 100_000_000_000_000_000_000_000_000_000 <==> q < 1.0;
    assert n > 100_000_000_000_000_000_000_000_000_000 <==> q > 1.0;
    Scaled(w, i as real, q);
    Compare(q, w);
    hide Times, AbsReal;
  }

  lemma Scaled(w: real, x: real, q: real)
    requires w > 0.0 && q == 66.0 * AbsReal(x) * 0.000_000_000_000_000_000_000_000_000_01
    ensures 2.0 * AbsReal(Times(0.000_000_000_000_000_000_000_000_000_33, Times(x, w))) == Times(q, w)
  {
    assert AbsReal(x * w) == AbsReal(x) * w;
  }

  lemma Compare(q: real, w: real)
    requires w > 0.0
    ensures (Times(q, w) == w <==> q == 1.0) && (Times(q, w) < w <==> q < 1.0)
  {
    assert q * w - w == (q - 1.0) * w;
  }
}
