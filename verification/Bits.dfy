/** Bit operations on naturals: exclusive or, or, right shift, and single bits. */
module Bits {

  function Xor(a: nat, b: nat): nat {
    if a == 0 && b == 0 then 0 else 2 * Xor(a / 2, b / 2) + (if a % 2 == b % 2 then 0 else 1)
  }

  function Or(a: nat, b: nat): nat {
    if a == 0 && b == 0 then 0 else 2 * Or(a / 2, b / 2) + (if a % 2 == 1 || b % 2 == 1 then 1 else 0)
  }

  function Shr(a: nat, k: nat): nat {
    if k == 0 then a else Shr(a / 2, k - 1)
  }

  function Pow2(k: nat): (p: nat)
    ensures p > 0
  {
    if k == 0 then 1 else 2 * Pow2(k - 1)
  }

  /** Bit k of a, counted from the least significant one. */
  function Bit(a: nat, k: nat): nat {
    Shr(a, k) % 2
  }

  lemma {:induction false} XorZero(a: nat, b: nat)
    ensures Xor(a, b) == 0 <==> a == b
  {
    if a != 0 || b != 0 {
      XorZero(a / 2, b / 2);
    }
  }

  lemma {:induction false} OrZero(a: nat, b: nat)
    ensures Or(a, b) == 0 <==> a == 0 && b == 0
  {
    if a != 0 || b != 0 {
      OrZero(a / 2, b / 2);
    }
  }

  lemma {:induction false} ShrOfXor(a: nat, b: nat, k: nat)
    ensures Shr(Xor(a, b), k) == Xor(Shr(a, k), Shr(b, k))
  {
    if k > 0 {
      ShrOfXor(a / 2, b / 2, k - 1);
    }
  }

  lemma {:induction false} ShrSplits(a: nat, k: nat)
    ensures Shr(a, k) == 2 * Shr(a, k + 1) + Bit(a, k)
  {
    if k > 0 {
      ShrSplits(a / 2, k - 1);
    }
  }

  lemma {:induction false} ShrVanishes(a: nat, k: nat)
    requires a < Pow2(k)
    ensures Shr(a, k) == 0
  {
    if k > 0 {
      ShrVanishes(a / 2, k - 1);
    }
  }

  /** Equal after dropping `k` bits means equal in every bit from `k` up to the width. */
  lemma {:induction false} ShrEqualIsBitsEqual(a: nat, b: nat, k: nat, width: nat)
    requires k <= width && a < Pow2(width) && b < Pow2(width)
    ensures Shr(a, k) == Shr(b, k) <==> forall i :: k <= i < width ==> Bit(a, i) == Bit(b, i)
    decreases width - k
  {
    if k == width {
      ShrVanishes(a, width);
      ShrVanishes(b, width);
    } else {
      ShrSplits(a, k);
      ShrSplits(b, k);
      ShrEqualIsBitsEqual(a, b, k + 1, width);
    }
  }
}
