/** Bit arithmetic on naturals: the operators that the Fenwick trees and the
    occupancy bitsets use, defined by their binary digits. */
module Bits {
  import opened Types

  function Pow2(w: nat): (r: nat)
    ensures r > 0
  {
    if w == 0 then 1 else 2 * Pow2(w - 1)
  }

  /** Digit `k` of `x`. */
  predicate Bit(x: nat, k: nat) {
    if k == 0 then x % 2 == 1 else Bit(x / 2, k - 1)
  }

  function And(x: nat, y: nat): nat {
    if x == 0 || y == 0 then 0
    else (if x % 2 == 1 && y % 2 == 1 then 1 else 0) + 2 * And(x / 2, y / 2)
  }

  function Or(x: nat, y: nat): nat
    decreases x + y
  {
    if x == 0 then y else if y == 0 then x
    else (if x % 2 == 1 || y % 2 == 1 then 1 else 0) + 2 * Or(x / 2, y / 2)
  }

  /** `!x` on 64 bits. */
  function Not(x: nat): nat
    requires x < U64_LIMIT
  {
    U64_LIMIT - 1 - x
  }

  /** `x.wrapping_neg()` in a word of `w` bits. */
  function WrappingNeg(w: nat, x: nat): nat {
    (Pow2(w) - x) % Pow2(w)
  }

  /** The width of the word that holds `x`: 64 for every value a machine can hold. */
  function Word(x: nat): nat {
    if x < U64_LIMIT then 64 else x
  }

  /** `1 << b` */
  function OneShl(b: nat): (r: nat)
    requires b < 64
    ensures r < U64_LIMIT
  {
    Pow2Monotone(b, 64);
    Pow2Of64();
    Pow2(b)
  }

  /** The largest power of two that divides `x`. */
  function LowBit(x: nat): (l: nat)
    requires x > 0
    ensures 1 <= l <= x
  {
    if x % 2 == 1 then 1 else 2 * LowBit(x / 2)
  }

  lemma {:induction false} AndComplement(w: nat, x: nat)
    requires x < Pow2(w)
    ensures And(x, Pow2(w) - 1 - x) == 0
  {
    if w > 0 && x > 0 && Pow2(w) - 1 - x > 0 {
      AndComplement(w - 1, x / 2);
      assert (Pow2(w) - 1 - x) / 2 == Pow2(w - 1) - 1 - x / 2;
    }
  }

  lemma {:induction false} AndNegStep(w: nat, x: nat)
    requires 0 < x < Pow2(w)
    ensures And(x, Pow2(w) - x) == LowBit(x)
  {
    var y := Pow2(w) - x;
    if x % 2 == 1 {
      AndComplement(w - 1, x / 2);
      assert y / 2 == Pow2(w - 1) - 1 - x / 2;
    } else {
      AndNegStep(w - 1, x / 2);
      assert y / 2 == Pow2(w - 1) - x / 2;
    }
  }

  lemma Pow2Plus8(w: nat)
    ensures Pow2(w + 8) == 256 * Pow2(w)
  {
    assert Pow2(w + 2) == 4 * Pow2(w);
    assert Pow2(w + 4) == 4 * Pow2(w + 2);
    assert Pow2(w + 6) == 4 * Pow2(w + 4);
  }

  lemma Pow2Of64()
    ensures Pow2(64) == U64_LIMIT
  {
    var w := 0;
    Pow2Plus8(w);
    Pow2Plus8(w + 8);
    Pow2Plus8(w + 16);
    Pow2Plus8(w + 24);
    Pow2Plus8(w + 32);
    Pow2Plus8(w + 40);
    Pow2Plus8(w + 48);
    Pow2Plus8(w + 56);
  }

  /** `x & x.wrapping_neg()` isolates the lowest set bit. */
  lemma AndNegIsLowBit(x: nat)
    requires 0 < x
    ensures And(x, WrappingNeg(Word(x), x)) == LowBit(x)
  {
    var w := Word(x);
    Pow2Of64();
    NonZeroFits(x);
    AndNegStep(w, x);
    SmallMod(Pow2(w) - x, Pow2(w));
  }

  lemma SmallMod(a: nat, m: nat)
    requires a < m
    ensures a % m == a
  {
  }

  /** Below the low bit of `i`, adding does not disturb low bits. */
  lemma {:induction false} LowBitOfSum(i: nat, r: nat)
    requires 0 < i && 0 < r < LowBit(i)
    ensures LowBit(i + r) == LowBit(r)
  {
    if r % 2 == 0 {
      LowBitOfSum(i / 2, r / 2);
      assert (i + r) / 2 == i / 2 + r / 2;
    }
  }

  /** Adding the low bit carries into a strictly higher low bit. */
  lemma {:induction false} LowBitCarries(i: nat)
    requires 0 < i
    ensures LowBit(i + LowBit(i)) >= 2 * LowBit(i)
  {
    if i % 2 == 0 {
      LowBitCarries(i / 2);
      assert (i + LowBit(i)) / 2 == i / 2 + LowBit(i / 2);
    }
  }

  lemma OrHalves(x: nat, y: nat)
    ensures Or(x, y) / 2 == Or(x / 2, y / 2)
    ensures Or(x, y) % 2 == 1 <==> x % 2 == 1 || y % 2 == 1
  {
  }

  lemma {:induction false} BitOr(x: nat, y: nat, k: nat)
    ensures Bit(Or(x, y), k) <==> Bit(x, k) || Bit(y, k)
  {
    OrHalves(x, y);
    if k > 0 {
      BitOr(x / 2, y / 2, k - 1);
    }
  }

  lemma {:induction false} BitAnd(x: nat, y: nat, k: nat)
    ensures Bit(And(x, y), k) <==> Bit(x, k) && Bit(y, k)
  {
    if x == 0 || y == 0 {
      BitZero(k);
    } else if k > 0 {
      BitAnd(x / 2, y / 2, k - 1);
      assert And(x, y) / 2 == And(x / 2, y / 2);
    }
  }

  lemma {:induction false} BitComplement(w: nat, x: nat, k: nat)
    requires x < Pow2(w) && k < w
    ensures Bit(Pow2(w) - 1 - x, k) <==> !Bit(x, k)
  {
    if k > 0 {
      BitComplement(w - 1, x / 2, k - 1);
      assert (Pow2(w) - 1 - x) / 2 == Pow2(w - 1) - 1 - x / 2;
    }
  }

  lemma {:induction false} BitZero(k: nat)
    ensures !Bit(0, k)
  {
    if k > 0 {
      BitZero(k - 1);
    }
  }

  /** `1 << b` has exactly digit `b`. */
  lemma {:induction false} BitPow2(b: nat, k: nat)
    ensures Bit(Pow2(b), k) <==> k == b
  {
    if b == 0 {
      if k > 0 {
        BitZero(k - 1);
      }
    } else if k > 0 {
      BitPow2(b - 1, k - 1);
      assert Pow2(b) / 2 == Pow2(b - 1);
    }
  }

  lemma {:induction false} BitAboveWidth(w: nat, x: nat, k: nat)
    requires x < Pow2(w) && k >= w
    ensures !Bit(x, k)
  {
    if x == 0 {
      BitZero(k);
    } else {
      BitAboveWidth(w - 1, x / 2, k - 1);
    }
  }

  lemma {:induction false} OrBound(w: nat, x: nat, y: nat)
    requires x < Pow2(w) && y < Pow2(w)
    ensures Or(x, y) < Pow2(w)
  {
    if x > 0 && y > 0 {
      OrBound(w - 1, x / 2, y / 2);
    }
  }

  lemma {:induction false} AndBound(x: nat, y: nat)
    ensures And(x, y) <= x
  {
    if x > 0 && y > 0 {
      AndBound(x / 2, y / 2);
    }
  }

  lemma {:induction false} Pow2Monotone(a: nat, b: nat)
    requires a < b
    ensures Pow2(a) < Pow2(b)
  {
    if a + 1 < b {
      Pow2Monotone(a, b - 1);
    }
  }

  /** `x.leading_zeros()` on `w` bits. */
  function LeadingZeros(w: nat, x: nat): (z: nat)
    requires x < Pow2(w)
    ensures z <= w
  {
    if w == 0 || x >= Pow2(w - 1) then 0 else 1 + LeadingZeros(w - 1, x)
  }

  /** `x.trailing_zeros()` of a non-zero word. */
  function TrailingZeros(x: nat): nat
    requires x > 0
  {
    if x % 2 == 1 then 0 else 1 + TrailingZeros(x / 2)
  }

  /** `w - 1 - leading_zeros` is the highest set digit. */
  lemma {:induction false} LeadingZerosFindsHighest(w: nat, x: nat)
    requires 0 < x < Pow2(w)
    ensures LeadingZeros(w, x) < w
    ensures Bit(x, w - 1 - LeadingZeros(w, x))
    ensures forall k: nat :: k > w - 1 - LeadingZeros(w, x) ==> !Bit(x, k)
  {
    if x >= Pow2(w - 1) {
      TopBit(w, x);
      forall k: nat | k > w - 1 ensures !Bit(x, k) {
        BitAboveWidth(w, x, k);
      }
    } else {
      LeadingZerosFindsHighest(w - 1, x);
    }
  }

  lemma {:induction false} TopBit(w: nat, x: nat)
    requires w > 0 && Pow2(w - 1) <= x < Pow2(w)
    ensures Bit(x, w - 1)
  {
    if w > 1 {
      TopBit(w - 1, x / 2);
    }
  }

  /** `trailing_zeros` is the lowest set digit. */
  lemma {:induction false} TrailingZerosFindsLowest(w: nat, x: nat)
    requires 0 < x < Pow2(w)
    ensures TrailingZeros(x) < w
    ensures Bit(x, TrailingZeros(x))
    ensures forall k: nat :: k < TrailingZeros(x) ==> !Bit(x, k)
  {
    if x % 2 == 0 {
      TrailingZerosFindsLowest(w - 1, x / 2);
      forall k: nat | k < TrailingZeros(x) ensures !Bit(x, k) {
        if k > 0 {
          assert !Bit(x / 2, k - 1);
        }
      }
    }
  }

  lemma {:induction false} NonZeroFits(x: nat)
    ensures x < Pow2(x)
  {
    if x > 0 {
      NonZeroFits(x - 1);
    }
  }
}
