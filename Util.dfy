/** Pure bit functions on 64-bit words: the meaning of the `popcnt64`, `lzcnt64`,
    `tzcnt64` and `blsmsk64` helpers, which the program computes with CPU intrinsics.
    Bit indices are `bv6` (0 .. 63); bit counts, which range over 0 .. 64, are `nat`. */
module Util {
  import opened Wrappers

  /** Bit `i` of the word `x` (bit 0 is the least significant). */
  predicate Bit(x: bv64, i: bv6) {
    (x >> i) & 1 == 1
  }

  /** The word whose only set bit is `i`. */
  function BitMask(i: bv6): (m: bv64)
    ensures Bit(m, i)
  {
    1 << i
  }

  /** The word whose set bits are exactly those below `k`. */
  function LowMask(k: bv6): bv64 {
    (1 << k) - 1
  }

  /** `x` has exactly one bit set (the usual `x & (x - 1) == 0` test). */
  predicate IsSingleBit(x: bv64) {
    x != 0 && x & (x - 1) == 0
  }

  lemma BitMaskBit(k: bv6, i: bv6)
    ensures Bit(BitMask(k), i) <==> i == k
  {
  }

  lemma LowMaskBit(k: bv6, i: bv6)
    ensures Bit(LowMask(k), i) <==> i < k
  {
  }

  lemma BitMaskIsSingle(k: bv6)
    ensures IsSingleBit(BitMask(k))
  {
  }

  /** A word with no bit set is zero. */
  lemma ZeroIfNoBit(x: bv64)
    requires forall i: bv6 :: !Bit(x, i)
    ensures x == 0
  {
    assert !Bit(x, 0) && !Bit(x, 1) && !Bit(x, 2) && !Bit(x, 3) && !Bit(x, 4) && !Bit(x, 5) && !Bit(x, 6) && !Bit(x, 7);
    assert (x >> 0) & 0xFF == 0;
    assert !Bit(x, 8) && !Bit(x, 9) && !Bit(x, 10) && !Bit(x, 11) && !Bit(x, 12) && !Bit(x, 13) && !Bit(x, 14) && !Bit(x, 15);
    assert (x >> 8) & 0xFF == 0;
    assert !Bit(x, 16) && !Bit(x, 17) && !Bit(x, 18) && !Bit(x, 19) && !Bit(x, 20) && !Bit(x, 21) && !Bit(x, 22) && !Bit(x, 23);
    assert (x >> 16) & 0xFF == 0;
    assert !Bit(x, 24) && !Bit(x, 25) && !Bit(x, 26) && !Bit(x, 27) && !Bit(x, 28) && !Bit(x, 29) && !Bit(x, 30) && !Bit(x, 31);
    assert (x >> 24) & 0xFF == 0;
    assert !Bit(x, 32) && !Bit(x, 33) && !Bit(x, 34) && !Bit(x, 35) && !Bit(x, 36) && !Bit(x, 37) && !Bit(x, 38) && !Bit(x, 39);
    assert (x >> 32) & 0xFF == 0;
    assert !Bit(x, 40) && !Bit(x, 41) && !Bit(x, 42) && !Bit(x, 43) && !Bit(x, 44) && !Bit(x, 45) && !Bit(x, 46) && !Bit(x, 47);
    assert (x >> 40) & 0xFF == 0;
    assert !Bit(x, 48) && !Bit(x, 49) && !Bit(x, 50) && !Bit(x, 51) && !Bit(x, 52) && !Bit(x, 53) && !Bit(x, 54) && !Bit(x, 55);
    assert (x >> 48) & 0xFF == 0;
    assert !Bit(x, 56) && !Bit(x, 57) && !Bit(x, 58) && !Bit(x, 59) && !Bit(x, 60) && !Bit(x, 61) && !Bit(x, 62) && !Bit(x, 63);
    assert (x >> 56) & 0xFF == 0;
  }

  /** Two words with the same bits are equal. */
  lemma SameBits(a: bv64, b: bv64)
    requires forall i: bv6 :: Bit(a, i) == Bit(b, i)
    ensures a == b
  {
    var c := a ^ b;
    forall i: bv6 ensures !Bit(c, i) {
      BitXor(a, b, i);
    }
    ZeroIfNoBit(c);
    assert a == b by {
      assert a ^ b == 0;
    }
  }

  lemma BitOr(a: bv64, b: bv64, i: bv6)
    ensures Bit(a | b, i) <==> Bit(a, i) || Bit(b, i)
  {
  }

  lemma BitAnd(a: bv64, b: bv64, i: bv6)
    ensures Bit(a & b, i) <==> Bit(a, i) && Bit(b, i)
  {
  }

  lemma BitXor(a: bv64, b: bv64, i: bv6)
    ensures Bit(a ^ b, i) <==> Bit(a, i) != Bit(b, i)
  {
  }

  // ---------------------------------------------------------------- popcnt64

  /** Number of set bits of `x` at indices 0 .. i. */
  function CountUpTo(x: bv64, i: bv6): (c: nat)
    ensures c <= i as int + 1
    decreases i
  {
    (if Bit(x, i) then 1 else 0) + (if i == 0 then 0 else CountUpTo(x, i - 1))
  }

  /** `popcnt64`: the number of set bits of `x`. */
  function PopCnt64(x: bv64): (c: nat)
    ensures c <= 64
  {
    CountUpTo(x, 63)
  }

  lemma {:induction false} CountUpToPositive(x: bv64, n: bv6, i: bv6)
    requires i <= n && Bit(x, i)
    ensures CountUpTo(x, n) >= 1
    decreases n
  {
    if i != n {
      CountUpToPositive(x, n - 1, i);
    }
  }

  lemma {:induction false} CountUpToTwo(x: bv64, n: bv6, i: bv6, j: bv6)
    requires i < j <= n && Bit(x, i) && Bit(x, j)
    ensures CountUpTo(x, n) >= 2
    decreases n
  {
    if j == n {
      CountUpToPositive(x, n - 1, i);
    } else {
      CountUpToTwo(x, n - 1, i, j);
    }
  }

  lemma {:induction false} CountUpToNoBit(x: bv64, n: bv6)
    requires forall i: bv6 :: i <= n ==> !Bit(x, i)
    ensures CountUpTo(x, n) == 0
    decreases n
  {
    if n > 0 {
      CountUpToNoBit(x, n - 1);
    }
  }

  lemma {:induction false} CountUpToBitMask(k: bv6, n: bv6)
    ensures CountUpTo(BitMask(k), n) == if k <= n then 1 else 0
    decreases n
  {
    BitMaskBit(k, n);
    if n > 0 {
      CountUpToBitMask(k, n - 1);
    }
  }

  /** Counting splits over a word whose bits are those of two disjoint words. */
  lemma {:induction false} CountUpToSplit(a: bv64, b: bv64, c: bv64, n: bv6)
    requires forall i: bv6 :: Bit(c, i) <==> Bit(a, i) || Bit(b, i)
    requires forall i: bv6 :: !(Bit(a, i) && Bit(b, i))
    ensures CountUpTo(c, n) == CountUpTo(a, n) + CountUpTo(b, n)
    decreases n
  {
    if n > 0 {
      CountUpToSplit(a, b, c, n - 1);
    }
  }

  /** Only the zero word has no set bit. */
  lemma PopCntZero(x: bv64)
    ensures PopCnt64(x) == 0 <==> x == 0
  {
    if x == 0 {
      CountUpToNoBit(x, 63);
    } else {
      var k := LowestSetBit(x);
      CountUpToPositive(x, 63, k);
    }
  }

  /** A single-bit word is the mask of its lowest set bit. */
  lemma SingleBitIsMask(x: bv64)
    requires IsSingleBit(x)
    ensures x == BitMask(LowestSetBit(x))
  {
    LowestSetBitIsLowest(x);
  }

  /** A single-bit mask meets a word exactly when the word has that bit. */
  lemma BitMaskAnd(k: bv6, x: bv64)
    ensures BitMask(k) & x != 0 <==> Bit(x, k)
    ensures Bit(x, k) ==> BitMask(k) & x == BitMask(k)
  {
  }

  lemma BitNot(x: bv64, i: bv6)
    ensures Bit(!x, i) <==> !Bit(x, i)
  {
  }

  /** A word with exactly one set bit counts one. */
  lemma PopCntOfSingle(x: bv64)
    requires IsSingleBit(x)
    ensures PopCnt64(x) == 1
  {
    SingleBitIsMask(x);
    CountUpToBitMask(LowestSetBit(x), 63);
  }

  /** A word that counts one is a single bit. */
  lemma SingleOfPopCnt(x: bv64)
    requires PopCnt64(x) == 1
    ensures IsSingleBit(x)
  {
    PopCntZero(x);
    var t := LowestSetBit(x);
    forall i: bv6 ensures Bit(x, i) == Bit(BitMask(t), i) {
      BitMaskBit(t, i);
      if i < t && Bit(x, i) {
        CountUpToTwo(x, 63, i, t);
      } else if t < i && Bit(x, i) {
        CountUpToTwo(x, 63, t, i);
      }
    }
    SameBits(x, BitMask(t));
    BitMaskIsSingle(t);
  }

  /** A single-bit word is exactly a word with one set bit. */
  lemma PopCntSingle(x: bv64)
    ensures PopCnt64(x) == 1 <==> IsSingleBit(x)
  {
    if IsSingleBit(x) {
      PopCntOfSingle(x);
    } else if PopCnt64(x) == 1 {
      SingleOfPopCnt(x);
    }
  }

  /** The number of set bits of a disjoint union is the sum of the counts. */
  lemma PopCntUnion(a: bv64, b: bv64)
    requires a & b == 0
    ensures PopCnt64(a | b) == PopCnt64(a) + PopCnt64(b)
  {
    var c := a | b;
    forall i: bv6 ensures (Bit(c, i) <==> Bit(a, i) || Bit(b, i)) && !(Bit(a, i) && Bit(b, i)) {
      BitOr(a, b, i);
      BitAnd(a, b, i);
    }
    CountUpToSplit(a, b, c, 63);
  }

  /** Clearing the bits of `b` from a word that contains them lowers the count by
      the number of bits of `b`. */
  lemma PopCntRemove(a: bv64, b: bv64)
    requires a & b == b
    ensures PopCnt64(a ^ b) == PopCnt64(a) - PopCnt64(b)
  {
    var c := a ^ b;
    forall i: bv6 ensures (Bit(a, i) <==> Bit(c, i) || Bit(b, i)) && !(Bit(c, i) && Bit(b, i)) {
      BitXor(a, b, i);
      BitAnd(a, b, i);
    }
    CountUpToSplit(c, b, a, 63);
  }

  /** The value the program's own test expects. */
  lemma PopCntExample()
    ensures PopCnt64(0x01010101) == 4
  {
    var a, b, c, d := BitMask(0), BitMask(8), BitMask(16), BitMask(24);
    CountUpToBitMask(0, 63);
    CountUpToBitMask(8, 63);
    CountUpToBitMask(16, 63);
    CountUpToBitMask(24, 63);
    PopCntUnion(a, b);
    PopCntUnion(a | b, c);
    PopCntUnion(a | b | c, d);
    assert a | b | c | d == 0x01010101;
  }

  // ---------------------------------------------------------------- tzcnt64

  /** Index of the lowest set bit of `x` at or above bit `n`, if there is one. */
  function LowestFrom(x: bv64, n: bv6): (r: Option<bv6>)
    ensures r.Some? ==> n <= r.value && Bit(x, r.value)
    decreases 63 - n
  {
    if Bit(x, n) then Some(n) else if n == 63 then None else LowestFrom(x, n + 1)
  }

  /** No bit between `n` and the result of `LowestFrom` (or the top, if it found none)
      is set. */
  lemma {:induction false} LowestFromBelow(x: bv64, n: bv6, i: bv6)
    requires n <= i
    requires LowestFrom(x, n).Some? ==> i < LowestFrom(x, n).value
    ensures !Bit(x, i)
    decreases 63 - n
  {
    if i != n {
      LowestFromBelow(x, n + 1, i);
    }
  }

  lemma {:induction false} LowestFromMask(x: bv64, n: bv6, k: bv6, i: bv6)
    requires LowestFrom(x, n) == Some(k) && n <= i
    ensures !Bit(x & LowMask(k), i)
  {
    LowMaskBit(k, i);
    BitAnd(x, LowMask(k), i);
    if i < k {
      LowestFromBelow(x, n, i);
    }
  }

  lemma {:induction false} LowestFromNone(x: bv64, n: bv6)
    requires n == 0 && LowestFrom(x, n).None?
    ensures x == 0
  {
    forall i: bv6 ensures !Bit(x, i) {
      LowestFromBelow(x, n, i);
    }
    ZeroIfNoBit(x);
  }

  /** Index of the lowest set bit of a non-zero word. */
  function LowestSetBit(x: bv64): (k: bv6)
    requires x != 0
    ensures Bit(x, k)
  {
    if LowestFrom(x, 0).None? then LowestFromNone(x, 0); 0 else LowestFrom(x, 0).value
  }

  /** No bit below the lowest set bit is set. */
  lemma LowestSetBitIsLowest(x: bv64)
    requires x != 0
    ensures x & LowMask(LowestSetBit(x)) == 0
  {
    var k := LowestSetBit(x);
    var low := x & LowMask(k);
    forall i: bv6 ensures !Bit(low, i) {
      LowestFromMask(x, 0, k, i);
    }
    ZeroIfNoBit(low);
  }

  /** `tzcnt64`: the number of trailing zero bits (64 for the zero word). */
  function TzCnt64(x: bv64): (r: nat)
    ensures r <= 64
  {
    match LowestFrom(x, 0)
    case None => 64
    case Some(k) => k as int
  }

  /** The trailing-zero count is 64 for zero and the lowest set bit otherwise. */
  lemma TzCntLowest(x: bv64)
    ensures x == 0 ==> TzCnt64(x) == 64
    ensures x != 0 ==> TzCnt64(x) == LowestSetBit(x) as int
  {
  }

  lemma TzCntExample()
    ensures TzCnt64(0xFFFFFFFFFFFFF000) == 12
  {
    var x: bv64 := 0xFFFFFFFFFFFFF000;
    TzCntLowest(x);
    if LowestSetBit(x) > 12 {
      LowestFromBelow(x, 0, 12);
    }
  }

  // ---------------------------------------------------------------- lzcnt64

  /** Index of the highest set bit of `x` at or below bit `n`, if there is one. */
  function HighestFrom(x: bv64, n: bv6): (r: Option<bv6>)
    ensures r.Some? ==> r.value <= n && Bit(x, r.value)
    decreases n
  {
    if Bit(x, n) then Some(n) else if n == 0 then None else HighestFrom(x, n - 1)
  }

  /** No bit between the result of `HighestFrom` (or the bottom, if it found none)
      and `n` is set. */
  lemma {:induction false} HighestFromAbove(x: bv64, n: bv6, i: bv6)
    requires i <= n
    requires HighestFrom(x, n).Some? ==> HighestFrom(x, n).value < i
    ensures !Bit(x, i)
    decreases n
  {
    if i != n {
      HighestFromAbove(x, n - 1, i);
    }
  }

  /** `lzcnt64`: the number of leading zero bits (64 for the zero word). */
  function LzCnt64(x: bv64): (r: nat)
    ensures r <= 64
  {
    match HighestFrom(x, 63)
    case None => 64
    case Some(k) => 63 - k as int
  }

  /** The leading-zero count is 64 exactly for the zero word. */
  lemma LzCntZero(x: bv64)
    ensures LzCnt64(x) == 64 <==> x == 0
  {
    if HighestFrom(x, 63).None? {
      forall j: bv6 ensures !Bit(x, j) {
        HighestFromAbove(x, 63, j);
      }
      ZeroIfNoBit(x);
    }
  }

  lemma {:induction false} HighestFromNone(x: bv64, n: bv6)
    requires n == 63 && HighestFrom(x, n).None?
    ensures x == 0
  {
    forall i: bv6 ensures !Bit(x, i) {
      HighestFromAbove(x, n, i);
    }
    ZeroIfNoBit(x);
  }

  /** Index of the highest set bit of a non-zero word. */
  function HighestSetBit(x: bv64): (k: bv6)
    requires x != 0
    ensures Bit(x, k)
  {
    if HighestFrom(x, 63).None? then HighestFromNone(x, 63); 0 else HighestFrom(x, 63).value
  }

  /** No bit above the highest set bit is set. */
  lemma HighestSetBitIsHighest(x: bv64, i: bv6)
    requires x != 0 && HighestSetBit(x) < i
    ensures !Bit(x, i)
  {
    HighestFromAbove(x, 63, i);
  }

  /** For a non-zero word, the leading-zero count is 63 minus the index of the
      highest set bit. */
  lemma LzCntHighest(x: bv64)
    requires x != 0
    ensures LzCnt64(x) == 63 - HighestSetBit(x) as int
  {
    if HighestFrom(x, 63).None? {
      HighestFromNone(x, 63);
    }
  }

  lemma LzCntExample()
    ensures LzCnt64(0x000FFFFFFFFFFFFF) == 12
  {
    var x: bv64 := 0x000FFFFFFFFFFFFF;
    if HighestFrom(x, 63).None? || HighestFrom(x, 63).value < 51 {
      HighestFromAbove(x, 63, 51);
    }
  }

  // ---------------------------------------------------------------- blsmsk64

  /** `blsmsk64`: the mask of every bit up to and including the lowest set bit
      (every bit, for the zero word). */
  function BlsMsk64(x: bv64): bv64 {
    x ^ (x - 1)
  }

  /** Bit `i` of `blsmsk64(x)` is set exactly when `i` is at or below the lowest set
      bit of `x`; for zero every bit is set. */
  lemma BlsMskBits(x: bv64, i: bv6)
    ensures Bit(BlsMsk64(x), i) <==> x == 0 || i <= LowestSetBit(x)
  {
    if x != 0 {
      LowestSetBitIsLowest(x);
    }
  }

  /** `blsmsk64(x) & x` isolates the lowest set bit of a non-zero `x`. */
  lemma BlsMskLowest(x: bv64)
    requires x != 0
    ensures BlsMsk64(x) & x == BitMask(LowestSetBit(x))
  {
    LowestSetBitIsLowest(x);
  }

  lemma BlsMskExample()
    ensures BlsMsk64(0xFFFFFFFFFFFFF000) & 0xFFFFFFFFFFFFF000 == 1 << 12
  {
    var x: bv64 := 0xFFFFFFFFFFFFF000;
    BlsMskLowest(x);
    TzCntExample();
    TzCntLowest(x);
  }
}
