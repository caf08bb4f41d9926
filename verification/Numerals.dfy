/** Texts of i64 and Decimal values, and reading them back. */
module Numerals {
  import opened Wrappers
  import opened Strings

  function Digit(n: nat): char
    requires n < 10
  {
    '0' + (n as char)
  }

  predicate IsDigit(c: char) {
    '0' <= c <= '9'
  }

  predicate AllDigits(s: string) {
    s != "" && forall c :: c in s ==> IsDigit(c)
  }

  function DigitsValue(s: string): nat
    requires forall c :: c in s ==> IsDigit(c)
  {
    if s == "" then 0
    else
      assert IsDigit(s[|s| - 1]);
      10 * DigitsValue(s[..|s| - 1]) + (s[|s| - 1] as int - '0' as int)
  }

  function Digits(n: nat): string {
    if n < 10 then [Digit(n)] else Digits(n / 10) + [Digit(n % 10)]
  }

  function Pow10(k: nat): (r: nat)
    ensures r > 0
  {
    if k == 0 then 1 else 10 * Pow10(k - 1)
  }

  /** The last `k` digits of `n`, zeros included. */
  function Pad(n: nat, k: nat): string
    decreases k
  {
    if k == 0 then "" else Pad(n / 10, k - 1) + [Digit(n % 10)]
  }

  lemma AppendDigit(s: string, d: nat)
    requires (forall c :: c in s ==> IsDigit(c)) && d < 10
    ensures var t := s + [Digit(d)]; AllDigits(t) && DigitsValue(t) == 10 * DigitsValue(s) + d
  {
    var t := s + [Digit(d)];
    assert t[..|t| - 1] == s && t[|t| - 1] == Digit(d);
  }

  lemma {:induction false} DigitsReadBack(n: nat)
    ensures AllDigits(Digits(n)) && DigitsValue(Digits(n)) == n
  {
    if n >= 10 {
      DigitsReadBack(n / 10);
      AppendDigit(Digits(n / 10), n % 10);
    } else {
      AppendDigit("", n);
      assert "" + [Digit(n)] == [Digit(n)];
    }
  }

  lemma {:induction false} PadReadsBack(n: nat, k: nat)
    requires n < Pow10(k)
    ensures |Pad(n, k)| == k && (forall c :: c in Pad(n, k) ==> IsDigit(c)) && DigitsValue(Pad(n, k)) == n
    decreases k
  {
    if k > 0 {
      PadReadsBack(n / 10, k - 1);
      AppendDigit(Pad(n / 10, k - 1), n % 10);
    }
  }

  // ----------------------------------------------------------------- integers

  const I64_MAX := 0x7FFF_FFFF_FFFF_FFFF

  predicate IsI64(n: int) {
    -I64_MAX - 1 <= n <= I64_MAX
  }

  type I64 = n: int | IsI64(n)

  function Abs(n: int): nat {
    if n < 0 then -n else n
  }

  function IntText(n: int): string {
    if n < 0 then ['-'] + Digits(-n) else Digits(n)
  }

  function StripSign(s: string): (bool, string) {
    if s != "" && s[0] == '-' then (true, s[1..])
    else if s != "" && s[0] == '+' then (false, s[1..])
    else (false, s)
  }

  /** `parse::<i64>()`: an optional sign, digits, and a range check. */
  function ParseI64(s: string): Option<I64> {
    var (negative, body) := StripSign(s);
    if !AllDigits(body) then None
    else
      var value: int := DigitsValue(body);
      var n := if negative then -value else value;
      if IsI64(n) then Some(n) else None
  }

  lemma SignOfText(negative: bool, body: string)
    requires body != "" && IsDigit(body[0])
    ensures StripSign((if negative then ['-'] else "") + body) == (negative, body)
  {
    var s := (if negative then ['-'] else "") + body;
    assert negative ==> s[1..] == body;
    assert !negative ==> s == body;
  }

  lemma IntReadsBack(n: I64)
    ensures ParseI64(IntText(n)) == Some(n)
  {
    var m := Abs(n);
    DigitsReadBack(m);
    assert IsDigit(Digits(m)[0]) by { assert Digits(m)[0] in Digits(m); }
    SignOfText(n < 0, Digits(m));
    assert "" + Digits(m) == Digits(m);
  }

  // ----------------------------------------------------------------- decimals

  /** rust_decimal::Decimal: a 96-bit integer scaled down by a power of ten. */
  datatype Dec = Dec(mantissa: int, scale: nat)

  const MANTISSA_LIMIT := 0x1_0000_0000_0000_0000_0000_0000
  const MAX_SCALE := 28

  predicate IsDecimal(d: Dec) {
    Abs(d.mantissa) < MANTISSA_LIMIT && d.scale <= MAX_SCALE
  }

  function Value(d: Dec): real {
    d.mantissa as real / Pow10(d.scale) as real
  }

  type Decimal = d: Dec | IsDecimal(d) witness Dec(0, 0)

  const ZERO: Decimal := Dec(0, 0)

  /** A number split at its last `k` digits. */
  function Whole(m: nat, k: nat): nat {
    Quotient(m, Pow10(k))
  }

  function Quotient(m: nat, p: nat): nat
    requires p > 0
  {
    m / p
  }

  function Part(m: nat, k: nat): (r: nat)
    ensures r < Pow10(k)
  {
    m % Pow10(k)
  }

  lemma Split(m: nat, k: nat)
    ensures Whole(m, k) * Pow10(k) + Part(m, k) == m
  {
  }

  /** The digits of `m` with a point before the last `k`. */
  function Pointed(m: nat, k: nat): string {
    if k == 0 then Digits(m) else Digits(Whole(m, k)) + ['.'] + Pad(Part(m, k), k)
  }

  function Signed(negative: bool, body: string): string {
    if negative then ['-'] + body else body
  }

  /** Display: the sign, at least one digit, and exactly `scale` digits after the point. */
  function DecText(d: Dec): string {
    Signed(d.mantissa < 0, Pointed(Abs(d.mantissa), d.scale))
  }

  /** The digits before and after the point, if the text has that form. */
  function SplitPoint(body: string): Option<(string, string)> {
    match Find(body, '.')
    case None => if AllDigits(body) then Some((body, "")) else None
    case Some(i) => if AllDigits(body[..i]) && AllDigits(body[i + 1..]) then Some((body[..i], body[i + 1..])) else None
  }

  /** The plain numerals `parse::<Decimal>()` reads without rounding; others are None here. */
  function ParseDec(s: string): Option<Decimal> {
    var (negative, body) := StripSign(s);
    match SplitPoint(body)
    case None => None
    case Some((whole, frac)) =>
      assert forall c :: c in frac ==> IsDigit(c);
      FitDec(negative, DigitsValue(whole) * Pow10(|frac|) + DigitsValue(frac), |frac|)
  }

  function FitDec(negative: bool, m: nat, scale: nat): Option<Decimal> {
    var value: int := m;
    if m >= MANTISSA_LIMIT || scale > MAX_SCALE then None
    else Some(Dec(if negative then -value else value, scale))
  }

  lemma PointedSplits(m: nat, k: nat)
    ensures Pointed(m, k) != "" && IsDigit(Pointed(m, k)[0])
    ensures var r := SplitPoint(Pointed(m, k));
      r.Some? && |r.value.1| == k
      && (forall c :: c in r.value.0 + r.value.1 ==> IsDigit(c))
      && DigitsValue(r.value.0) == Whole(m, k) && DigitsValue(r.value.1) == Part(m, k)
  {
    hide Whole, Part, Pow10, Digits, Pad, DigitsValue;
    var whole := Digits(Whole(m, k));
    DigitsReadBack(Whole(m, k));
    assert IsDigit(whole[0]) by { assert whole[0] in whole; }
    if k == 0 {
      WholeOfZero(m);
      assert '.' !in whole;
    } else {
      var frac := Pad(Part(m, k), k);
      PadReadsBack(Part(m, k), k);
      var body := whole + ['.'] + frac;
      FindFirst(body, '.', |whole|);
      assert body[..|whole|] == whole && body[|whole| + 1..] == frac;
    }
  }

  lemma WholeOfZero(m: nat)
    ensures Whole(m, 0) == m && Part(m, 0) == 0 && DigitsValue("") == 0
  {
  }

  /** A decimal's text reads back as the same decimal, scale included. */
  lemma DecReadsBack(d: Decimal)
    ensures ParseDec(DecText(d)) == Some(d)
  {
    hide Whole, Part, Pow10, Pointed, SplitPoint, DigitsValue;
    var m := Abs(d.mantissa);
    PointedSplits(m, d.scale);
    SignOfText(d.mantissa < 0, Pointed(m, d.scale));
    assert "" + Pointed(m, d.scale) == Pointed(m, d.scale);
    Split(m, d.scale);
  }

  // ------------------------------------------------------------- plain texts

  predicate NumberChar(c: char) {
    IsDigit(c) || c == '-' || c == '.'
  }

  /** Not empty and made of digits, minus and point. */
  predicate PlainNumber(s: string) {
    s != "" && forall c :: c in s ==> NumberChar(c)
  }

  lemma IntTextIsPlain(n: int)
    ensures PlainNumber(IntText(n))
  {
    DigitsReadBack(Abs(n));
  }

  lemma DecTextIsPlain(d: Dec)
    ensures PlainNumber(DecText(d))
  {
    hide Whole, Part, Pow10, Digits, Pad;
    var m := Abs(d.mantissa);
    DigitsReadBack(m);
    DigitsReadBack(Whole(m, d.scale));
    PadReadsBack(Part(m, d.scale), d.scale);
  }

  // -------------------------------------------------------- unsigned integers

  lemma {:induction false} DecimalAppend(s: string, d: nat, acc: nat, max: nat)
    requires d < 10
    ensures Strings.Decimal(s + [Digit(d)], acc, max)
         == match Strings.Decimal(s, acc, max)
            case Some(v) => if 10 * v + d <= max then Some(10 * v + d) else None
            case None => None
  {
    if s != "" {
      assert (s + [Digit(d)])[1..] == s[1..] + [Digit(d)];
      if acc <= max && '0' <= s[0] <= '9' {
        DecimalAppend(s[1..], d, 10 * acc + (s[0] as int - '0' as int), max);
      }
    } else {
      assert (s + [Digit(d)])[1..] == "";
    }
  }

  /** A number reads back as itself up to the limit, and not at all beyond it. */
  lemma {:induction false} NatReadsBack(n: nat, max: nat)
    ensures ParseNat(Digits(n), max) == if n <= max then Some(n) else None
  {
    DecimalOfDigits(n, max);
    DigitsReadBack(n);
    assert IsDigit(Digits(n)[0]) by { assert Digits(n)[0] in Digits(n); }
  }

  lemma {:induction false} DecimalOfDigits(n: nat, max: nat)
    ensures Strings.Decimal(Digits(n), 0, max) == if n <= max then Some(n) else None
  {
    if n >= 10 {
      DecimalOfDigits(n / 10, max);
      DecimalAppend(Digits(n / 10), n % 10, 0, max);
    } else {
      assert "" + [Digit(n)] == Digits(n);
      DecimalAppend("", n, 0, max);
    }
  }

  lemma TwoDigits(a: nat, b: nat)
    requires 0 < a < 10 && b < 10
    ensures Digits(10 * a + b) == [Digit(a), Digit(b)]
  {
    assert (10 * a + b) / 10 == a && (10 * a + b) % 10 == b;
    assert Digits(10 * a + b) == Digits(a) + [Digit(b)] == [Digit(a)] + [Digit(b)];
  }

  lemma PadOne(a: nat)
    requires a < 10
    ensures Pad(a, 1) == [Digit(a)]
  {
    assert a / 10 == 0 && a % 10 == a;
    assert Pad(0, 0) == "" && "" + [Digit(a)] == [Digit(a)];
    assert Pad(a, 1) == Pad(a / 10, 0) + [Digit(a % 10)];
  }

  lemma PadTwo(n: nat, a: nat, b: nat)
    requires a < 10 && b < 10 && n / 10 == a && n % 10 == b
    ensures Pad(n, 2) == [Digit(a), Digit(b)]
  {
    PadOne(a);
    assert Pad(n, 2) == Pad(n / 10, 1) + [Digit(n % 10)];
  }

  /** How numbers are spelled: a sign, plain digits, and as many decimals as the scale says. */
  lemma NumbersSpelled()
    ensures IntText(-97) == "-97" && IntText(0) == "0"
    ensures DecText(Dec(-1234, 2)) == "-12.34" && DecText(Dec(5, 2)) == "0.05"
  {
    hide Digits, Pad, Whole, Part;
    TwoDigits(9, 7);
    TwoDigits(1, 2);
    PadTwo(34, 3, 4);
    PadTwo(5, 0, 5);
    SmallParts();
  }

  lemma SmallParts()
    ensures Digits(0) == "0" && Whole(1234, 2) == 12 && Part(1234, 2) == 34 && Whole(5, 2) == 0 && Part(5, 2) == 5
  {
    assert Pow10(2) == 100;
  }

  /** The scale moves the point: each place is worth a tenth. */
  lemma ValueIsScaled(m: int, k: nat)
    ensures Value(Dec(m, 0)) == m as real && Value(Dec(m, k)) == 10.0 * Value(Dec(m, k + 1))
    ensures Value(Dec(-1234, 2)) == -12.34
  {
    assert Pow10(2) == 100 && Pow10(k + 1) == 10 * Pow10(k);
    var p, x := Pow10(k) as real, m as real;
    assert Pow10(k + 1) as real == 10.0 * p;
    assert x / p == 10.0 * (x / (10.0 * p)) by { Tenfold(x, p); }
  }

  lemma Tenfold(x: real, p: real)
    requires p > 0.0
    ensures x / p == 10.0 * (x / (10.0 * p))
  {
    var q := x / (10.0 * p);
    assert q * (10.0 * p) == x;
    assert (10.0 * q) * p == x;
  }

  /** A plus sign may stand before a number that is not negative. */
  lemma PlusReads(d: Decimal, n: I64)
    ensures d.mantissa >= 0 ==> ParseDec("+" + DecText(d)) == Some(d)
    ensures n >= 0 ==> ParseI64("+" + IntText(n)) == Some(n)
  {
    hide Digits, Pointed, SplitPoint, DigitsValue, AllDigits;
    DecReadsBack(d);
    IntReadsBack(n);
    var t, u := DecText(d), IntText(n);
    assert ("+" + t)[1..] == t && ("+" + u)[1..] == u;
    if d.mantissa >= 0 {
      PointedSplits(Abs(d.mantissa), d.scale);
      assert StripSign(t) == (false, t);
    }
    if n >= 0 {
      PlainFirst(n);
      assert StripSign(u) == (false, u);
    }
  }

  lemma PlainFirst(n: nat)
    ensures Digits(n) != "" && IsDigit(Digits(n)[0])
  {
    DigitsReadBack(n);
    assert Digits(n)[0] in Digits(n);
  }
}
