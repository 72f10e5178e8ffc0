/** The occupancy bitset: one bit per dense tick, in 64-bit words. */
module Bitset {
  import opened Types
  import opened Bits

  predicate WordsOk(words: seq<nat>) {
    forall w :: 0 <= w < |words| ==> words[w] < U64_LIMIT
  }

  predicate Has(words: seq<nat>, i: nat)
    requires i < 64 * |words|
  {
    Bit(words[i / 64], i % 64)
  }

  /** `words[i / 64] |= 1 << (i % 64)` */
  function WithBit(words: seq<nat>, i: nat): seq<nat>
    requires i < 64 * |words|
  {
    words[i / 64 := Or(words[i / 64], OneShl(i % 64))]
  }

  /** `words[i / 64] &= !(1 << (i % 64))` */
  function WithoutBit(words: seq<nat>, i: nat): seq<nat>
    requires i < 64 * |words|
  {
    words[i / 64 := And(words[i / 64], Not(OneShl(i % 64)))]
  }

  lemma SamePlace(i: nat, j: nat)
    requires i / 64 == j / 64 && i % 64 == j % 64
    ensures i == j
  {
  }

  /** Setting a bit sets that bit and no other. */
  lemma WithBitSets(words: seq<nat>, i: nat)
    requires WordsOk(words) && i < 64 * |words|
    ensures WordsOk(WithBit(words, i))
    ensures forall j: nat :: j < 64 * |words| ==> (Has(WithBit(words, i), j) <==> Has(words, j) || j == i)
  {
    var w, b := i / 64, i % 64;
    Pow2Of64();
    OrBound(64, words[w], OneShl(b));
    forall j: nat | j < 64 * |words| ensures Has(WithBit(words, i), j) <==> Has(words, j) || j == i {
      if j / 64 == w {
        BitOr(words[w], OneShl(b), j % 64);
        BitPow2(b, j % 64);
        if j % 64 == b {
          SamePlace(i, j);
        }
      }
    }
  }

  /** Clearing a bit clears that bit and no other. */
  lemma WithoutBitClears(words: seq<nat>, i: nat)
    requires WordsOk(words) && i < 64 * |words|
    ensures WordsOk(WithoutBit(words, i))
    ensures forall j: nat :: j < 64 * |words| ==> (Has(WithoutBit(words, i), j) <==> Has(words, j) && j != i)
  {
    var w, b := i / 64, i % 64;
    Pow2Of64();
    AndBound(words[w], Not(OneShl(b)));
    forall j: nat | j < 64 * |words| ensures Has(WithoutBit(words, i), j) <==> Has(words, j) && j != i {
      if j / 64 == w {
        BitAnd(words[w], Not(OneShl(b)), j % 64);
        BitComplement(64, OneShl(b), j % 64);
        BitPow2(b, j % 64);
        if j % 64 == b {
          SamePlace(i, j);
        }
      }
    }
  }

  lemma ZeroWordsAreEmpty(words: seq<nat>, i: nat)
    requires i < 64 * |words| && words[i / 64] == 0
    ensures !Has(words, i)
  {
    BitZero(i % 64);
  }

  /** Scan from the top word for the highest set bit. */
  method FindHighest(words: seq<nat>) returns (r: Option<nat>)
    requires WordsOk(words)
    ensures r.None? ==> forall j: nat :: j < 64 * |words| ==> !Has(words, j)
    ensures r.Some? ==> r.value < 64 * |words| && Has(words, r.value)
    ensures r.Some? ==> forall j: nat :: r.value < j < 64 * |words| ==> !Has(words, j)
  {
    var n := |words|;
    while n > 0
      invariant 0 <= n <= |words|
      invariant forall j: nat :: 64 * n <= j < 64 * |words| ==> !Has(words, j)
    {
      n := n - 1;
      if words[n] != 0 {
        HighestInWord(words, n);
        Pow2Of64();
        var bit := 63 - LeadingZeros(64, words[n]);
        return Some(n * 64 + bit);
      }
      forall j: nat | 64 * n <= j < 64 * n + 64 ensures !Has(words, j) {
        ZeroWordsAreEmpty(words, j);
      }
    }
    r := None;
  }

  lemma HighestInWord(words: seq<nat>, n: nat)
    requires WordsOk(words) && n < |words| && words[n] != 0
    requires forall j: nat :: 64 * (n + 1) <= j < 64 * |words| ==> !Has(words, j)
    ensures Pow2(64) == U64_LIMIT && LeadingZeros(64, words[n]) < 64
    ensures var i := n * 64 + 63 - LeadingZeros(64, words[n]);
            Has(words, i) && forall j: nat :: i < j < 64 * |words| ==> !Has(words, j)
  {
    Pow2Of64();
    LeadingZerosFindsHighest(64, words[n]);
    var bit := 63 - LeadingZeros(64, words[n]);
    var i := n * 64 + bit;
    Place(n, bit);
    forall j: nat | i < j < 64 * |words| ensures !Has(words, j) {
      if j < 64 * (n + 1) {
        Place(n, j - 64 * n);
      }
    }
  }

  lemma Place(n: nat, b: nat)
    requires b < 64
    ensures (n * 64 + b) / 64 == n && (n * 64 + b) % 64 == b
  {
  }

  /** Scan from the bottom word for the lowest set bit. */
  method FindLowest(words: seq<nat>) returns (r: Option<nat>)
    requires WordsOk(words)
    ensures r.None? ==> forall j: nat :: j < 64 * |words| ==> !Has(words, j)
    ensures r.Some? ==> r.value < 64 * |words| && Has(words, r.value)
    ensures r.Some? ==> forall j: nat :: j < r.value ==> !Has(words, j)
  {
    for n := 0 to |words|
      invariant forall j: nat :: j < 64 * n ==> !Has(words, j)
    {
      if words[n] != 0 {
        LowestInWord(words, n);
        return Some(n * 64 + TrailingZeros(words[n]));
      }
      forall j: nat | 64 * n <= j < 64 * n + 64 ensures !Has(words, j) {
        ZeroWordsAreEmpty(words, j);
      }
    }
    r := None;
  }

  lemma LowestInWord(words: seq<nat>, n: nat)
    requires WordsOk(words) && n < |words| && words[n] != 0
    requires forall j: nat :: j < 64 * n ==> !Has(words, j)
    ensures TrailingZeros(words[n]) < 64
    ensures var i := n * 64 + TrailingZeros(words[n]);
            Has(words, i) && forall j: nat :: j < i ==> !Has(words, j)
  {
    Pow2Of64();
    TrailingZerosFindsLowest(64, words[n]);
    var bit := TrailingZeros(words[n]);
    Place(n, bit);
    forall j: nat | j < n * 64 + bit ensures !Has(words, j) {
      if j >= 64 * n {
        Place(n, j - 64 * n);
      }
    }
  }
}
