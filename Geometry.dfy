/** The board geometry behind the bit boards: a square is the bit index
    `x + 8 * y` of a 64-bit word, and each of the eight directions is the
    shift the program applies to a whole board. */
module Geometry {
  import opened Wrappers
  import opened Util

  /** A square, as its bit index `x + 8 * y`. */
  type Square = bv6

  /** The column `x` of a square. */
  function Col(s: Square): bv6 {
    s & 7
  }

  /** The row `y` of a square. */
  function Row(s: Square): bv6 {
    s >> 3
  }

  /** The eight directions, named (as in the program) after the shift they apply
      to the word: `Left` is `<< 1`, so it moves from column `x` to `x + 1`. */
  datatype Dir = Left | Right | Up | Down | RightUp | LeftUp | RightDown | LeftDown

  function Reverse(d: Dir): Dir {
    match d
    case Left => Right
    case Right => Left
    case Up => Down
    case Down => Up
    case RightUp => LeftDown
    case LeftDown => RightUp
    case LeftUp => RightDown
    case RightDown => LeftUp
  }

  /** Column and row offsets of one step in each direction. */
  function DX(d: Dir): int {
    match d
    case Left => 1
    case Right => -1
    case Up => 0
    case Down => 0
    case RightUp => -1
    case LeftUp => 1
    case RightDown => -1
    case LeftDown => 1
  }

  function DY(d: Dir): int {
    match d
    case Left => 0
    case Right => 0
    case Up => 1
    case Down => -1
    case RightUp => 1
    case LeftUp => 1
    case RightDown => -1
    case LeftDown => -1
  }

  /** The shift the program applies to a whole board for direction `d`. */
  function Shift(b: bv64, d: Dir): bv64 {
    match d
    case Left => b << 1
    case Right => b >> 1
    case Up => b << 8
    case Down => b >> 8
    case RightUp => b << 7
    case LeftUp => b << 9
    case RightDown => b >> 9
    case LeftDown => b >> 7
  }

  /** The neighbouring square one step from `s` in direction `d`, or `None` at the
      edge of the board. */
  function Step(s: Square, d: Dir): Option<Square> {
    match d
    case Left => if Col(s) != 7 then Some(s + 1) else None
    case Right => if Col(s) != 0 then Some(s - 1) else None
    case Up => if Row(s) != 7 then Some(s + 8) else None
    case Down => if Row(s) != 0 then Some(s - 8) else None
    case RightUp => if Col(s) != 0 && Row(s) != 7 then Some(s + 7) else None
    case LeftUp => if Col(s) != 7 && Row(s) != 7 then Some(s + 9) else None
    case RightDown => if Col(s) != 0 && Row(s) != 0 then Some(s - 9) else None
    case LeftDown => if Col(s) != 7 && Row(s) != 0 then Some(s - 7) else None
  }

  /** The edge mask `put` applies after each shift in direction `d`. */
  function PutMask(d: Dir): bv64 {
    match d
    case Left => 0xfefefefefefefefe
    case Right => 0x7f7f7f7f7f7f7f7f
    case Up => 0xffffffffffffff00
    case Down => 0x00ffffffffffffff
    case RightUp => 0x7f7f7f7f7f7f7f00
    case LeftUp => 0xfefefefefefefe00
    case RightDown => 0x007f7f7f7f7f7f7f
    case LeftDown => 0x00fefefefefefefe
  }

  /** The mask `get_valid_moves` applies to the opponent's discs for direction `d`:
      horizontal, vertical or diagonal. */
  function ValidMask(d: Dir): bv64 {
    match d
    case Left | Right => 0x7e7e7e7e7e7e7e7e
    case Up | Down => 0x00FFFFFFFFFFFF00
    case RightUp | LeftUp | RightDown | LeftDown => 0x007e7e7e7e7e7e00
  }

  /** A step changes the coordinates by exactly the direction's offsets, and there
      is no step exactly when that would leave the board: nothing wraps around. */
  lemma StepCoords(s: Square, d: Dir)
    ensures Step(s, d).Some? <==>
      0 <= Col(s) as int + DX(d) < 8 && 0 <= Row(s) as int + DY(d) < 8
    ensures Step(s, d).Some? ==>
      Col(Step(s, d).value) as int == Col(s) as int + DX(d) &&
      Row(Step(s, d).value) as int == Row(s) as int + DY(d)
  {
  }

  lemma ReverseReverse(d: Dir)
    ensures Reverse(Reverse(d)) == d && Reverse(d) != d
  {
  }

  lemma StepReverse(s: Square, d: Dir)
    requires Step(s, d).Some?
    ensures Step(Step(s, d).value, Reverse(d)) == Some(s)
  {
  }

  /** Bit `s` of the edge mask of `put` is set exactly for the squares that have a
      neighbour in the reverse direction. */
  lemma PutMaskBit(d: Dir, s: Square)
    ensures Bit(PutMask(d), s) <==> Step(s, Reverse(d)).Some?
  {
  }

  /** Bit `s` of the mask of `get_valid_moves` is set exactly for the squares that
      have neighbours on both sides along `d`. */
  lemma ValidMaskBit(d: Dir, s: Square)
    ensures Bit(ValidMask(d), s) <==> Step(s, d).Some? && Step(s, Reverse(d)).Some?
  {
  }

  lemma MovedLeft(b: bv64, d: Dir, s: Square)
    requires d == Left
    ensures Bit(Shift(b, d) & PutMask(d), s) <==>
      Step(s, Reverse(d)).Some? && Bit(b, Step(s, Reverse(d)).value)
  {
    MovedLeftRaw(b, s);
    ShiftLeftIs(b, d);
    StepRightIs(s, d);
  }

  lemma ShiftLeftIs(b: bv64, d: Dir)
    requires d == Left
    ensures Shift(b, d) & PutMask(d) == (b << 1) & 0xfefefefefefefefe
  {
  }

  lemma StepRightIs(s: Square, d: Dir)
    requires d == Left
    ensures Step(s, Reverse(d)).Some? <==> s & 7 != 0
    ensures Step(s, Reverse(d)).Some? ==> Step(s, Reverse(d)).value == s - 1
  {
  }

  lemma MovedLeftRaw(b: bv64, s: Square)
    ensures Bit((b << 1) & 0xfefefefefefefefe, s) <==> s & 7 != 0 && Bit(b, s - 1)
  {
  }

  lemma MovedRight(b: bv64, d: Dir, s: Square)
    requires d == Right
    ensures Bit(Shift(b, d) & PutMask(d), s) <==>
      Step(s, Reverse(d)).Some? && Bit(b, Step(s, Reverse(d)).value)
  {
    MovedRightRaw(b, s);
    ShiftRightIs(b, d);
    StepLeftIs(s, d);
  }

  lemma ShiftRightIs(b: bv64, d: Dir)
    requires d == Right
    ensures Shift(b, d) & PutMask(d) == (b >> 1) & 0x7f7f7f7f7f7f7f7f
  {
  }

  lemma StepLeftIs(s: Square, d: Dir)
    requires d == Right
    ensures Step(s, Reverse(d)).Some? <==> s & 7 != 7
    ensures Step(s, Reverse(d)).Some? ==> Step(s, Reverse(d)).value == s + 1
  {
  }

  lemma MovedRightRaw(b: bv64, s: Square)
    ensures Bit((b >> 1) & 0x7f7f7f7f7f7f7f7f, s) <==> s & 7 != 7 && Bit(b, s + 1)
  {
  }

  lemma MovedUp(b: bv64, d: Dir, s: Square)
    requires d == Up
    ensures Bit(Shift(b, d) & PutMask(d), s) <==>
      Step(s, Reverse(d)).Some? && Bit(b, Step(s, Reverse(d)).value)
  {
    MovedUpRaw(b, s);
    ShiftUpIs(b, d);
    StepDownIs(s, d);
  }

  lemma ShiftUpIs(b: bv64, d: Dir)
    requires d == Up
    ensures Shift(b, d) & PutMask(d) == (b << 8) & 0xffffffffffffff00
  {
  }

  lemma StepDownIs(s: Square, d: Dir)
    requires d == Up
    ensures Step(s, Reverse(d)).Some? <==> s >> 3 != 0
    ensures Step(s, Reverse(d)).Some? ==> Step(s, Reverse(d)).value == s - 8
  {
  }

  lemma MovedUpRaw(b: bv64, s: Square)
    ensures Bit((b << 8) & 0xffffffffffffff00, s) <==> s >> 3 != 0 && Bit(b, s - 8)
  {
  }

  lemma MovedDown(b: bv64, d: Dir, s: Square)
    requires d == Down
    ensures Bit(Shift(b, d) & PutMask(d), s) <==>
      Step(s, Reverse(d)).Some? && Bit(b, Step(s, Reverse(d)).value)
  {
    MovedDownRaw(b, s);
    ShiftDownIs(b, d);
    StepUpIs(s, d);
  }

  lemma ShiftDownIs(b: bv64, d: Dir)
    requires d == Down
    ensures Shift(b, d) & PutMask(d) == (b >> 8) & 0x00ffffffffffffff
  {
  }

  lemma StepUpIs(s: Square, d: Dir)
    requires d == Down
    ensures Step(s, Reverse(d)).Some? <==> s >> 3 != 7
    ensures Step(s, Reverse(d)).Some? ==> Step(s, Reverse(d)).value == s + 8
  {
  }

  lemma MovedDownRaw(b: bv64, s: Square)
    ensures Bit((b >> 8) & 0x00ffffffffffffff, s) <==> s >> 3 != 7 && Bit(b, s + 8)
  {
  }

  lemma MovedRightUp(b: bv64, d: Dir, s: Square)
    requires d == RightUp
    ensures Bit(Shift(b, d) & PutMask(d), s) <==>
      Step(s, Reverse(d)).Some? && Bit(b, Step(s, Reverse(d)).value)
  {
    MovedRightUpRaw(b, s);
    ShiftRightUpIs(b, d);
    StepLeftDownIs(s, d);
  }

  lemma ShiftRightUpIs(b: bv64, d: Dir)
    requires d == RightUp
    ensures Shift(b, d) & PutMask(d) == (b << 7) & 0x7f7f7f7f7f7f7f00
  {
  }

  lemma StepLeftDownIs(s: Square, d: Dir)
    requires d == RightUp
    ensures Step(s, Reverse(d)).Some? <==> s & 7 != 7 && s >> 3 != 0
    ensures Step(s, Reverse(d)).Some? ==> Step(s, Reverse(d)).value == s - 7
  {
  }

  lemma MovedRightUpRaw(b: bv64, s: Square)
    ensures Bit((b << 7) & 0x7f7f7f7f7f7f7f00, s) <==> s & 7 != 7 && s >> 3 != 0 && Bit(b, s - 7)
  {
  }

  lemma MovedLeftUp(b: bv64, d: Dir, s: Square)
    requires d == LeftUp
    ensures Bit(Shift(b, d) & PutMask(d), s) <==>
      Step(s, Reverse(d)).Some? && Bit(b, Step(s, Reverse(d)).value)
  {
    MovedLeftUpRaw(b, s);
    ShiftLeftUpIs(b, d);
    StepRightDownIs(s, d);
  }

  lemma ShiftLeftUpIs(b: bv64, d: Dir)
    requires d == LeftUp
    ensures Shift(b, d) & PutMask(d) == (b << 9) & 0xfefefefefefefe00
  {
  }

  lemma StepRightDownIs(s: Square, d: Dir)
    requires d == LeftUp
    ensures Step(s, Reverse(d)).Some? <==> s & 7 != 0 && s >> 3 != 0
    ensures Step(s, Reverse(d)).Some? ==> Step(s, Reverse(d)).value == s - 9
  {
  }

  lemma MovedLeftUpRaw(b: bv64, s: Square)
    ensures Bit((b << 9) & 0xfefefefefefefe00, s) <==> s & 7 != 0 && s >> 3 != 0 && Bit(b, s - 9)
  {
  }

  lemma MovedRightDown(b: bv64, d: Dir, s: Square)
    requires d == RightDown
    ensures Bit(Shift(b, d) & PutMask(d), s) <==>
      Step(s, Reverse(d)).Some? && Bit(b, Step(s, Reverse(d)).value)
  {
    MovedRightDownRaw(b, s);
    ShiftRightDownIs(b, d);
    StepLeftUpIs(s, d);
  }

  lemma ShiftRightDownIs(b: bv64, d: Dir)
    requires d == RightDown
    ensures Shift(b, d) & PutMask(d) == (b >> 9) & 0x007f7f7f7f7f7f7f
  {
  }

  lemma StepLeftUpIs(s: Square, d: Dir)
    requires d == RightDown
    ensures Step(s, Reverse(d)).Some? <==> s & 7 != 7 && s >> 3 != 7
    ensures Step(s, Reverse(d)).Some? ==> Step(s, Reverse(d)).value == s + 9
  {
  }

  lemma MovedRightDownRaw(b: bv64, s: Square)
    ensures Bit((b >> 9) & 0x007f7f7f7f7f7f7f, s) <==> s & 7 != 7 && s >> 3 != 7 && Bit(b, s + 9)
  {
  }

  lemma MovedLeftDown(b: bv64, d: Dir, s: Square)
    requires d == LeftDown
    ensures Bit(Shift(b, d) & PutMask(d), s) <==>
      Step(s, Reverse(d)).Some? && Bit(b, Step(s, Reverse(d)).value)
  {
    MovedLeftDownRaw(b, s);
    ShiftLeftDownIs(b, d);
    StepRightUpIs(s, d);
  }

  lemma ShiftLeftDownIs(b: bv64, d: Dir)
    requires d == LeftDown
    ensures Shift(b, d) & PutMask(d) == (b >> 7) & 0x00fefefefefefefe
  {
  }

  lemma StepRightUpIs(s: Square, d: Dir)
    requires d == LeftDown
    ensures Step(s, Reverse(d)).Some? <==> s & 7 != 0 && s >> 3 != 7
    ensures Step(s, Reverse(d)).Some? ==> Step(s, Reverse(d)).value == s + 7
  {
  }

  lemma MovedLeftDownRaw(b: bv64, s: Square)
    ensures Bit((b >> 7) & 0x00fefefefefefefe, s) <==> s & 7 != 0 && s >> 3 != 7 && Bit(b, s + 7)
  {
  }

  /** Shifting and then masking moves every disc one step in direction `d` and drops
      those that would wrap around an edge. */
  lemma MovedBit(b: bv64, d: Dir, s: Square)
    ensures Bit(Shift(b, d) & PutMask(d), s) <==>
      Step(s, Reverse(d)).Some? && Bit(b, Step(s, Reverse(d)).value)
  {
    match d
    case Left => MovedLeft(b, d, s);
    case Right => MovedRight(b, d, s);
    case Up => MovedUp(b, d, s);
    case Down => MovedDown(b, d, s);
    case RightUp => MovedRightUp(b, d, s);
    case LeftUp => MovedLeftUp(b, d, s);
    case RightDown => MovedRightDown(b, d, s);
    case LeftDown => MovedLeftDown(b, d, s);
  }

  /** How far along direction `d` the square `s` lies, from 0 (the first square of
      its line) to 7: the step count that bounds every walk along `d`. */
  function Key(s: Square, d: Dir): (k: int)
    ensures 0 <= k < 8
  {
    match d
    case Left => Col(s) as int
    case Right => 7 - Col(s) as int
    case Up | RightUp | LeftUp => Row(s) as int
    case Down | RightDown | LeftDown => 7 - Row(s) as int
  }

  /** Every step advances the key by one, so no walk along a line is longer than
      seven steps. */
  lemma StepKey(s: Square, d: Dir)
    requires Step(s, d).Some?
    ensures Key(Step(s, d).value, d) == Key(s, d) + 1
  {
    StepCoords(s, d);
  }

  /** The word with one bit at `Step(s, d)`, or no bit at all off the board. */
  function MaskOf(c: Option<Square>): bv64 {
    match c
    case None => 0
    case Some(q) => BitMask(q)
  }

  /** Shifting and masking a single disc moves it to its neighbour, or removes it at
      the edge. */
  lemma MovedSingle(q: Square, d: Dir)
    ensures Shift(BitMask(q), d) & PutMask(d) == MaskOf(Step(q, d))
  {
    match d
    case Left => MovedSingleLeft(q, d);
    case Right => MovedSingleRight(q, d);
    case Up => MovedSingleUp(q, d);
    case Down => MovedSingleDown(q, d);
    case RightUp => MovedSingleRightUp(q, d);
    case LeftUp => MovedSingleLeftUp(q, d);
    case RightDown => MovedSingleRightDown(q, d);
    case LeftDown => MovedSingleLeftDown(q, d);
  }

  lemma MovedSingleLeft(q: Square, d: Dir)
    requires d == Left
    ensures Shift(BitMask(q), d) & PutMask(d) == MaskOf(Step(q, d))
  {
    MovedSingleLeftRaw(q);
  }

  lemma MovedSingleLeftRaw(q: Square)
    ensures (((1 as bv64) << q) << 1) & 0xfefefefefefefefe == if q & 7 != 7 then (1 as bv64) << (q + 1) else 0
  {
  }

  lemma MovedSingleRight(q: Square, d: Dir)
    requires d == Right
    ensures Shift(BitMask(q), d) & PutMask(d) == MaskOf(Step(q, d))
  {
    MovedSingleRightRaw(q);
  }

  lemma MovedSingleRightRaw(q: Square)
    ensures (((1 as bv64) << q) >> 1) & 0x7f7f7f7f7f7f7f7f == if q & 7 != 0 then (1 as bv64) << (q - 1) else 0
  {
  }

  lemma MovedSingleUp(q: Square, d: Dir)
    requires d == Up
    ensures Shift(BitMask(q), d) & PutMask(d) == MaskOf(Step(q, d))
  {
    MovedSingleUpRaw(q);
  }

  lemma MovedSingleUpRaw(q: Square)
    ensures (((1 as bv64) << q) << 8) & 0xffffffffffffff00 == if q >> 3 != 7 then (1 as bv64) << (q + 8) else 0
  {
  }

  lemma MovedSingleDown(q: Square, d: Dir)
    requires d == Down
    ensures Shift(BitMask(q), d) & PutMask(d) == MaskOf(Step(q, d))
  {
    MovedSingleDownRaw(q);
  }

  lemma MovedSingleDownRaw(q: Square)
    ensures (((1 as bv64) << q) >> 8) & 0x00ffffffffffffff == if q >> 3 != 0 then (1 as bv64) << (q - 8) else 0
  {
  }

  lemma MovedSingleRightUp(q: Square, d: Dir)
    requires d == RightUp
    ensures Shift(BitMask(q), d) & PutMask(d) == MaskOf(Step(q, d))
  {
    MovedSingleRightUpRaw(q);
  }

  lemma MovedSingleRightUpRaw(q: Square)
    ensures (((1 as bv64) << q) << 7) & 0x7f7f7f7f7f7f7f00 == if q & 7 != 0 && q >> 3 != 7 then (1 as bv64) << (q + 7) else 0
  {
  }

  lemma MovedSingleLeftUp(q: Square, d: Dir)
    requires d == LeftUp
    ensures Shift(BitMask(q), d) & PutMask(d) == MaskOf(Step(q, d))
  {
    MovedSingleLeftUpRaw(q);
  }

  lemma MovedSingleLeftUpRaw(q: Square)
    ensures (((1 as bv64) << q) << 9) & 0xfefefefefefefe00 == if q & 7 != 7 && q >> 3 != 7 then (1 as bv64) << (q + 9) else 0
  {
  }

  lemma MovedSingleRightDown(q: Square, d: Dir)
    requires d == RightDown
    ensures Shift(BitMask(q), d) & PutMask(d) == MaskOf(Step(q, d))
  {
    MovedSingleRightDownRaw(q);
  }

  lemma MovedSingleRightDownRaw(q: Square)
    ensures (((1 as bv64) << q) >> 9) & 0x007f7f7f7f7f7f7f == if q & 7 != 0 && q >> 3 != 0 then (1 as bv64) << (q - 9) else 0
  {
  }

  lemma MovedSingleLeftDown(q: Square, d: Dir)
    requires d == LeftDown
    ensures Shift(BitMask(q), d) & PutMask(d) == MaskOf(Step(q, d))
  {
    MovedSingleLeftDownRaw(q);
  }

  lemma MovedSingleLeftDownRaw(q: Square)
    ensures (((1 as bv64) << q) >> 7) & 0x00fefefefefefefe == if q & 7 != 7 && q >> 3 != 0 then (1 as bv64) << (q - 7) else 0
  {
  }

  /** The opponent discs `get_valid_moves` keeps have neighbours on both sides, so
      the edge masks of `put` keep them. */
  lemma ValidMaskInside(d: Dir)
    ensures ValidMask(d) & PutMask(d) == ValidMask(d)
    ensures ValidMask(d) & PutMask(Reverse(d)) == ValidMask(d)
  {
  }

  /** A word whose discs all have a neighbour in direction `d` does not wrap when
      shifted, so the edge mask changes nothing. */
  lemma ShiftInside(w: bv64, d: Dir)
    requires w & PutMask(Reverse(d)) == w
    ensures Shift(w, d) & PutMask(d) == Shift(w, d)
  {
    match d
    case Left => ShiftInsideLeft(w, d);
    case Right => ShiftInsideRight(w, d);
    case Up => ShiftInsideUp(w, d);
    case Down => ShiftInsideDown(w, d);
    case RightUp => ShiftInsideRightUp(w, d);
    case LeftUp => ShiftInsideLeftUp(w, d);
    case RightDown => ShiftInsideRightDown(w, d);
    case LeftDown => ShiftInsideLeftDown(w, d);
  }

  lemma ShiftInsideLeft(w: bv64, d: Dir)
    requires d == Left && w & PutMask(Reverse(d)) == w
    ensures Shift(w, d) & PutMask(d) == Shift(w, d)
  {
    ShiftInsideLeftRaw(w);
  }

  lemma ShiftInsideLeftRaw(w: bv64)
    requires w & 0x7f7f7f7f7f7f7f7f == w
    ensures (w << 1) & 0xfefefefefefefefe == w << 1
  {
  }

  lemma ShiftInsideRight(w: bv64, d: Dir)
    requires d == Right && w & PutMask(Reverse(d)) == w
    ensures Shift(w, d) & PutMask(d) == Shift(w, d)
  {
    ShiftInsideRightRaw(w);
  }

  lemma ShiftInsideRightRaw(w: bv64)
    requires w & 0xfefefefefefefefe == w
    ensures (w >> 1) & 0x7f7f7f7f7f7f7f7f == w >> 1
  {
  }

  lemma ShiftInsideUp(w: bv64, d: Dir)
    requires d == Up && w & PutMask(Reverse(d)) == w
    ensures Shift(w, d) & PutMask(d) == Shift(w, d)
  {
    ShiftInsideUpRaw(w);
  }

  lemma ShiftInsideUpRaw(w: bv64)
    requires w & 0x00ffffffffffffff == w
    ensures (w << 8) & 0xffffffffffffff00 == w << 8
  {
  }

  lemma ShiftInsideDown(w: bv64, d: Dir)
    requires d == Down && w & PutMask(Reverse(d)) == w
    ensures Shift(w, d) & PutMask(d) == Shift(w, d)
  {
    ShiftInsideDownRaw(w);
  }

  lemma ShiftInsideDownRaw(w: bv64)
    requires w & 0xffffffffffffff00 == w
    ensures (w >> 8) & 0x00ffffffffffffff == w >> 8
  {
  }

  lemma ShiftInsideRightUp(w: bv64, d: Dir)
    requires d == RightUp && w & PutMask(Reverse(d)) == w
    ensures Shift(w, d) & PutMask(d) == Shift(w, d)
  {
    ShiftInsideRightUpRaw(w);
  }

  lemma ShiftInsideRightUpRaw(w: bv64)
    requires w & 0x00fefefefefefefe == w
    ensures (w << 7) & 0x7f7f7f7f7f7f7f00 == w << 7
  {
  }

  lemma ShiftInsideLeftUp(w: bv64, d: Dir)
    requires d == LeftUp && w & PutMask(Reverse(d)) == w
    ensures Shift(w, d) & PutMask(d) == Shift(w, d)
  {
    ShiftInsideLeftUpRaw(w);
  }

  lemma ShiftInsideLeftUpRaw(w: bv64)
    requires w & 0x007f7f7f7f7f7f7f == w
    ensures (w << 9) & 0xfefefefefefefe00 == w << 9
  {
  }

  lemma ShiftInsideRightDown(w: bv64, d: Dir)
    requires d == RightDown && w & PutMask(Reverse(d)) == w
    ensures Shift(w, d) & PutMask(d) == Shift(w, d)
  {
    ShiftInsideRightDownRaw(w);
  }

  lemma ShiftInsideRightDownRaw(w: bv64)
    requires w & 0xfefefefefefefe00 == w
    ensures (w >> 9) & 0x007f7f7f7f7f7f7f == w >> 9
  {
  }

  lemma ShiftInsideLeftDown(w: bv64, d: Dir)
    requires d == LeftDown && w & PutMask(Reverse(d)) == w
    ensures Shift(w, d) & PutMask(d) == Shift(w, d)
  {
    ShiftInsideLeftDownRaw(w);
  }

  lemma ShiftInsideLeftDownRaw(w: bv64)
    requires w & 0x7f7f7f7f7f7f7f00 == w
    ensures (w >> 7) & 0x00fefefefefefefe == w >> 7
  {
  }
}
