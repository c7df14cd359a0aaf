/** The square-by-square view of a board word: `Has(x, s)`, read off `Cells(x)`, says whether square
    `s` holds a disc of `x`. The view is built one square at a time, so proofs about
    whole boards can reason about squares without the bit-level circuits; the lemmas
    here translate each word operation the program uses into its effect on squares. */
module Squares {
  import opened Wrappers
  import opened Util
  import opened Geometry

  function CellsUpTo(x: bv64, n: nat): (c: seq<bool>)
    requires n <= 64
    ensures |c| == n
  {
    if n == 0 then [] else CellsUpTo(x, n - 1) + [Bit(x, (n - 1) as bv6)]
  }
  function Cells(x: bv64): (c: seq<bool>)
    ensures |c| == 64
  {
    CellsUpTo(x, 64)
  }
  lemma {:induction false} CellsUpToBit(x: bv64, n: nat, i: bv6)
    requires n <= 64 && (i as int) < n
    ensures CellsUpTo(x, n)[i] == Bit(x, i)
  {
    if i as int != n - 1 {
      CellsUpToBit(x, n - 1, i);
    }
  }
  /** Whether square `s` holds a disc of `x`. */
  predicate Has(x: bv64, s: Square) {
    Cells(x)[s]
  }
  lemma CellsBit(x: bv64, i: bv6)
    ensures Has(x, i) == Bit(x, i)
  {
    CellsUpToBit(x, 64, i);
  }
  lemma CellsOr(a: bv64, b: bv64, s: Square)
    ensures Has(a | b, s) == (Has(a, s) || Has(b, s))
  {
    BitOr(a, b, s); CellsBit(a | b, s); CellsBit(a, s); CellsBit(b, s);
  }
  lemma CellsAnd(a: bv64, b: bv64, s: Square)
    ensures Has(a & b, s) == (Has(a, s) && Has(b, s))
  {
    BitAnd(a, b, s); CellsBit(a & b, s); CellsBit(a, s); CellsBit(b, s);
  }
  lemma CellsXor(a: bv64, b: bv64, s: Square)
    ensures Has(a ^ b, s) == (Has(a, s) != Has(b, s))
  {
    BitXor(a, b, s); CellsBit(a ^ b, s); CellsBit(a, s); CellsBit(b, s);
  }
  lemma CellsNot(a: bv64, s: Square)
    ensures Has(!a, s) == !Has(a, s)
  {
    BitNot(a, s); CellsBit(!a, s); CellsBit(a, s);
  }
  lemma CellsMask(k: Square, s: Square)
    ensures Has(BitMask(k), s) == (s == k)
  {
    BitMaskBit(k, s); CellsBit(BitMask(k), s);
  }
  lemma CellsZero(s: Square)
    ensures !Has(0, s)
  {
    CellsBit(0, s);
  }
  lemma CellsMoved(b: bv64, d: Dir, s: Square)
    ensures Has(Shift(b, d) & PutMask(d), s) <==>
      Step(s, Reverse(d)).Some? && Has(b, Step(s, Reverse(d)).value)
  {
    MovedBit(b, d, s);
    CellsBit(Shift(b, d) & PutMask(d), s);
    if Step(s, Reverse(d)).Some? {
      CellsBit(b, Step(s, Reverse(d)).value);
    }
  }
  lemma SameCells(a: bv64, b: bv64)
    requires forall s: Square :: Has(a, s) == Has(b, s)
    ensures a == b
  {
    forall i: bv6 ensures Bit(a, i) == Bit(b, i) {
      CellsBit(a, i); CellsBit(b, i);
    }
    SameBits(a, b);
  }
  lemma CellsMaskMeets(k: Square, x: bv64)
    ensures BitMask(k) & x != 0 <==> Has(x, k)
  {
    BitMaskAnd(k, x); CellsBit(x, k);
  }
  lemma OrAssoc(a: bv64, b: bv64, c: bv64)
    ensures (a | b) | c == a | (b | c)
  {
  }
  lemma OrZero(x: bv64)
    ensures x | 0 == x
  {
  }
  lemma ZeroOr(x: bv64)
    ensures 0 | x == x
  {
  }
  lemma MaskMeets(k: Square, x: bv64, m: bv64)
    requires m == BitMask(k)
    ensures (m != 0 && m & x != 0) <==> Has(x, k)
  {
    BitMaskAnd(k, x); CellsBit(x, k);
  }

  // The same facts about a word named by a variable, which keeps the proofs that use
  // them from reasoning about the bits of the operands.

  lemma OrAt(a: bv64, b: bv64, c: bv64, s: Square)
    requires c == a | b
    ensures Has(c, s) == (Has(a, s) || Has(b, s))
  {
    CellsOr(a, b, s);
  }
  lemma AndAt(a: bv64, b: bv64, c: bv64, s: Square)
    requires c == a & b
    ensures Has(c, s) == (Has(a, s) && Has(b, s))
  {
    CellsAnd(a, b, s);
  }
  lemma XorAt(a: bv64, b: bv64, c: bv64, s: Square)
    requires c == a ^ b
    ensures Has(c, s) == (Has(a, s) != Has(b, s))
  {
    CellsXor(a, b, s);
  }
  lemma MaskAt(k: Square, m: bv64, s: Square)
    requires m == BitMask(k)
    ensures Has(m, s) == (s == k)
  {
    CellsMask(k, s);
  }
  lemma NotAt(a: bv64, c: bv64, s: Square)
    requires c == !a
    ensures Has(c, s) == !Has(a, s)
  {
    CellsNot(a, s);
  }
}
