/**
 TOTP codes (src/auth/totp.rs): dynamic truncation to six digits and the search
 over one step either side. HMAC-SHA1 is an arbitrary function with 20-byte results.
 */
module Totp {
  import opened Wrappers
  import opened Strings
  import B = Bits
  import N = Numerals

  const STEP_SECS: nat := 30
  const CODE_DIGITS: nat := 6
  const WINDOW: int := 1

  type byte = x: int | 0 <= x < 256

  type Hash = h: seq<byte> | |h| == 20 witness seq(20, _ => 0)

  type Hmac = (seq<byte>, nat) -> Hash

  /** The 31-bit number read at the offset that the low nibble of the last byte names
      (section 5.3 of RFC 4226). */
  function Truncate(h: Hash): (bin: nat)
    ensures bin < 0x8000_0000
  {
    var offset := h[19] % 16;
    var b0: int, b1: int, b2: int, b3: int := h[offset], h[offset + 1], h[offset + 2], h[offset + 3];
    (b0 % 128) * 0x100_0000 + b1 * 0x1_0000 + b2 * 0x100 + b3
  }

  function Digit(d: nat): char
    requires d < 10
  {
    "0123456789"[d]
  }

  /** `n` in decimal, zero-padded to `width` digits. */
  function Padded(n: nat, width: nat): (s: string)
    ensures |s| == width && forall c :: c in s ==> '0' <= c <= '9'
  {
    if width == 0 then "" else Padded(n / 10, width - 1) + [Digit(n % 10)]
  }

  function CodeAt(hmac: Hmac, secret: seq<byte>, step: nat): (code: string)
    ensures |code| == CODE_DIGITS && forall c :: c in code ==> '0' <= c <= '9'
  {
    Padded(Truncate(hmac(secret, step)) % 1_000_000, CODE_DIGITS)
  }

  predicate SixDigits(s: string) {
    |s| == CODE_DIGITS && forall c :: c in s ==> '0' <= c <= '9'
  }

  /** Step `s` is in the window of `now` and its code is `code`. */
  predicate Hits(hmac: Hmac, secret: seq<byte>, code: string, now: nat, s: int) {
    s >= 0 && now / STEP_SECS - WINDOW <= s <= now / STEP_SECS + WINDOW && CodeAt(hmac, secret, s) == code
  }

  /** The comparison that does not stop at the first difference. */
  method SameBytes(wanted: string, code: string) returns (same: bool)
    requires |wanted| == |code|
    ensures same <==> wanted == code
  {
    var acc := 0;
    var i := 0;
    while i < |wanted|
      invariant 0 <= i <= |wanted|
      invariant acc == 0 <==> wanted[..i] == code[..i]
    {
      assert wanted[..i + 1] == wanted[..i] + [wanted[i]] && code[..i + 1] == code[..i] + [code[i]];
      B.XorZero(wanted[i] as int, code[i] as int);
      B.OrZero(acc, B.Xor(wanted[i] as int, code[i] as int));
      acc := B.Or(acc, B.Xor(wanted[i] as int, code[i] as int));
      i := i + 1;
    }
    assert wanted[..i] == wanted && code[..i] == code;
    same := acc == 0;
  }

  /** The earliest hit of the window, if the trimmed code is six digits. */
  ghost predicate IsVerdict(hmac: Hmac, secret: seq<byte>, code: string, now: nat, r: Option<nat>) {
    match r
    case Some(s) =>
      && SixDigits(Trim(code)) && Hits(hmac, secret, Trim(code), now, s)
      && forall t :: t < s ==> !Hits(hmac, secret, Trim(code), now, t)
    case None => SixDigits(Trim(code)) ==> forall t :: !Hits(hmac, secret, Trim(code), now, t)
  }

  method Verify(hmac: Hmac, secret: seq<byte>, code: string, now: nat) returns (r: Option<nat>)
    ensures IsVerdict(hmac, secret, code, now, r)
    ensures r == Verdict(hmac, secret, code, now)
  {
    VerdictIs(hmac, secret, code, now);
    var trimmed := Trim(code);
    if !SixDigits(trimmed) {
      return None;
    }
    var step := now / STEP_SECS;
    var w := -WINDOW;
    while w <= WINDOW
      invariant -WINDOW <= w <= WINDOW + 1
      invariant forall t :: t < step + w ==> !Hits(hmac, secret, trimmed, now, t)
    {
      var s := step + w;
      if s >= 0 {
        var same := SameBytes(CodeAt(hmac, secret, s), trimmed);
        if same {
          VerdictUnique(hmac, secret, code, now, Some(s), Verdict(hmac, secret, code, now));
          return Some(s);
        }
      }
      w := w + 1;
    }
    VerdictUnique(hmac, secret, code, now, None, Verdict(hmac, secret, code, now));
    return None;
  }

  function Verdict(hmac: Hmac, secret: seq<byte>, code: string, now: nat): Option<nat> {
    var trimmed, step := Trim(code), now / STEP_SECS;
    if !SixDigits(trimmed) then None
    else if step >= 1 && CodeAt(hmac, secret, step - 1) == trimmed then Some(step - 1)
    else if CodeAt(hmac, secret, step) == trimmed then Some(step)
    else if CodeAt(hmac, secret, step + 1) == trimmed then Some(step + 1)
    else None
  }

  lemma VerdictIs(hmac: Hmac, secret: seq<byte>, code: string, now: nat)
    ensures IsVerdict(hmac, secret, code, now, Verdict(hmac, secret, code, now))
  {
    hide Trim, SixDigits, CodeAt;
  }

  lemma VerdictUnique(hmac: Hmac, secret: seq<byte>, code: string, now: nat, a: Option<nat>, b: Option<nat>)
    requires IsVerdict(hmac, secret, code, now, a) && IsVerdict(hmac, secret, code, now, b)
    ensures a == b
  {
  }

  // ------------------------------------------------------------ what a code is

  /** The number is made of the four bytes at the offset, the highest first and without its top bit. */
  lemma TruncateBits(h: Hash)
    ensures var at, bin := h[19] % 16, Truncate(h);
      && bin / 0x100_0000 == h[at] % 128
      && bin / 0x1_0000 % 0x100 == h[at + 1]
      && bin / 0x100 % 0x100 == h[at + 2]
      && bin % 0x100 == h[at + 3]
  {
    var at := h[19] % 16;
    var b0: int, b1: int, b2: int, b3: int := h[at], h[at + 1], h[at + 2], h[at + 3];
    assert Truncate(h) == ((b0 % 128 * 0x100 + b1) * 0x100 + b2) * 0x100 + b3;
  }

  /** The example of section 5.4 of RFC 4226. */
  lemma TruncateExample()
    ensures var h: Hash := [0x1f, 0x86, 0x98, 0x69, 0x0e, 0x02, 0xca, 0x16, 0x61, 0x85, 0x50, 0xef, 0x7f, 0x19, 0xda, 0x8e, 0x94, 0x5b, 0x55, 0x5a];
      Truncate(h) == 0x50ef7f19 && Truncate(h) % 1_000_000 == 872_921
  {
  }

  lemma {:induction false} PaddedReads(n: nat, width: nat)
    requires n < N.Pow10(width)
    ensures forall c :: c in Padded(n, width) ==> N.IsDigit(c)
    ensures N.DigitsValue(Padded(n, width)) == n
  {
    if width > 0 {
      PaddedReads(n / 10, width - 1);
      N.AppendDigit(Padded(n / 10, width - 1), n % 10);
      assert Digit(n % 10) == N.Digit(n % 10);
    }
  }

  /** A code is the last six decimal digits of the truncated hash of secret and step. */
  lemma CodeReads(hmac: Hmac, secret: seq<byte>, step: nat)
    ensures |CodeAt(hmac, secret, step)| == 6 && forall c :: c in CodeAt(hmac, secret, step) ==> N.IsDigit(c)
    ensures N.DigitsValue(CodeAt(hmac, secret, step)) == Truncate(hmac(secret, step)) % 1_000_000
  {
    hide Truncate;
    MillionIs();
    PaddedReads(Truncate(hmac(secret, step)) % 1_000_000, 6);
  }

  lemma MillionIs()
    ensures N.Pow10(6) == 1_000_000
  {
    assert N.Pow10(3) == 1000;
  }
}
