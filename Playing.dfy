/** What one call of `put` does to a position, square by square and disc by disc:
    the mover gains the placed square and every captured disc, the opponent loses the
    captured discs, nothing else changes, the two colours stay apart and one disc is
    added to the board. */
module Playing {
  import opened Wrappers
  import opened Util
  import opened Geometry
  import opened Squares
  import opened Board
  import opened Rules

  // ---------------------------------------------------------------- words and squares

  lemma DisjointCells(a: BoardView, b: BoardView, q: Square)
    requires a & b == 0
    ensures !(Has(a, q) && Has(b, q))
  {
    CellsAnd(a, b, q);
    CellsZero(q);
  }

  lemma DisjointOf(a: BoardView, b: BoardView)
    requires forall q: Square :: !(Has(a, q) && Has(b, q))
    ensures a & b == 0
  {
    forall q: Square ensures Has(a & b, q) == Has(0, q) {
      CellsAnd(a, b, q);
      CellsZero(q);
    }
    SameCells(a & b, 0);
  }

  lemma SubsetOf(a: BoardView, b: BoardView)
    requires forall q: Square :: Has(b, q) ==> Has(a, q)
    ensures a & b == b
  {
    forall q: Square ensures Has(a & b, q) == Has(b, q) {
      CellsAnd(a, b, q);
    }
    SameCells(a & b, b);
  }

  lemma XorIsOr(a: BoardView, b: BoardView)
    requires a & b == 0
    ensures a ^ b == a | b
  {
  }

  // ---------------------------------------------------------------- captured discs

  /** A run holds only opponent discs. */
  lemma {:induction false} InRunOpponent(opponent: BoardView, c: Option<Square>, d: Dir, q: Square)
    requires InRun(opponent, c, d, q)
    ensures Has(opponent, q)
    decreases Remaining(c, d)
  {
    if c.value != q {
      StepRemaining(c.value, d);
      InRunOpponent(opponent, Step(c.value, d), d, q);
    }
  }

  /** Only opponent discs are captured. */
  lemma CapturesOpponent(me: BoardView, opponent: BoardView, p: Square, q: Square)
    requires Captures(me, opponent, p, q)
    ensures Has(opponent, q)
  {
    var d: Dir :| CapturesAlong(me, opponent, p, d, q);
    InRunOpponent(opponent, Step(p, d), d, q);
  }

  /** `put` turns over only opponent discs. */
  lemma FlipsOpponent(pos: BoardView, me: BoardView, opponent: BoardView, p: Square)
    requires pos == BitMask(p)
    ensures forall q: Square :: Has(Flips(pos, me, opponent), q) ==> Has(opponent, q)
  {
    forall q: Square | Has(Flips(pos, me, opponent), q) ensures Has(opponent, q) {
      FlipsCells(pos, me, opponent, p, q);
      CapturesOpponent(me, opponent, p, q);
    }
  }

  // ---------------------------------------------------------------- placing a known word

  /** `me` places the single disc `pos` on the empty square `p` of a position whose two
      colours are apart. */
  predicate Placeable(pos: BoardView, me: BoardView, opponent: BoardView, p: Square) {
    pos == BitMask(p) && me & opponent == 0 && !Has(me, p) && !Has(opponent, p)
  }

  lemma PlaceParts(pos: BoardView, me: BoardView, opponent: BoardView, flipped: BoardView, r: Sides)
    requires r == Place(pos, me, opponent, flipped)
    ensures r.player == me ^ (pos | flipped) && r.opponent == opponent ^ flipped
  {
  }

  /** Square by square, `Place` toggles the mover's discs on `pos` and `flipped` and
      the opponent's on `flipped`. */
  lemma PlaceCells(pos: BoardView, me: BoardView, opponent: BoardView, flipped: BoardView, q: Square, r: Sides)
    requires r == Place(pos, me, opponent, flipped)
    ensures Has(r.player, q) == (Has(me, q) != (Has(pos, q) || Has(flipped, q)))
    ensures Has(r.opponent, q) == (Has(opponent, q) != Has(flipped, q))
  {
    PlaceParts(pos, me, opponent, flipped, r);
    XorOrCells(pos, me, opponent, flipped, q, r.player, r.opponent, pos | flipped);
  }

  lemma XorOrCells(pos: BoardView, me: BoardView, opponent: BoardView, flipped: BoardView, q: Square,
                   me': BoardView, opponent': BoardView, placed: BoardView)
    requires placed == pos | flipped && me' == me ^ placed && opponent' == opponent ^ flipped
    ensures Has(me', q) == (Has(me, q) != (Has(pos, q) || Has(flipped, q)))
    ensures Has(opponent', q) == (Has(opponent, q) != Has(flipped, q))
  {
    OrAt(pos, flipped, placed, q);
    XorAt(me, placed, me', q);
    XorAt(opponent, flipped, opponent', q);
  }

  /** The same for the position `Play` computes. */
  lemma PlayAt(pos: BoardView, me: BoardView, opponent: BoardView, q: Square)
    ensures Has(Play(pos, me, opponent).player, q) ==
      (Has(me, q) != (Has(pos, q) || Has(Flips(pos, me, opponent), q)))
    ensures Has(Play(pos, me, opponent).opponent, q) ==
      (Has(opponent, q) != Has(Flips(pos, me, opponent), q))
  {
    PlaceCells(pos, me, opponent, Flips(pos, me, opponent), q, Play(pos, me, opponent));
  }

  /** Placing on the empty square `p` and turning over `flipped`, a set of opponent
      discs: the mover gains `p` and `flipped`, the opponent loses `flipped`. */
  lemma PlaceEffect(pos: BoardView, me: BoardView, opponent: BoardView, flipped: BoardView, p: Square, q: Square,
                    r: Sides)
    requires Placeable(pos, me, opponent, p)
    requires Has(flipped, q) ==> Has(opponent, q)
    requires r == Place(pos, me, opponent, flipped)
    ensures Has(r.player, q) <==> Has(me, q) || q == p || Has(flipped, q)
    ensures Has(r.opponent, q) <==> Has(opponent, q) && !Has(flipped, q)
  {
    PlaceCells(pos, me, opponent, flipped, q, r);
    MaskAt(p, pos, q);
    DisjointCells(me, opponent, q);
  }

  lemma PlaceDisjoint(pos: BoardView, me: BoardView, opponent: BoardView, flipped: BoardView, p: Square,
                      r: Sides)
    requires Placeable(pos, me, opponent, p)
    requires forall q: Square :: Has(flipped, q) ==> Has(opponent, q)
    requires r == Place(pos, me, opponent, flipped)
    ensures r.player & r.opponent == 0
  {
    forall q: Square ensures !(Has(r.player, q) && Has(r.opponent, q)) {
      PlaceEffect(pos, me, opponent, flipped, p, q, r);
      DisjointCells(me, opponent, q);
    }
    DisjointOf(r.player, r.opponent);
  }

  lemma PlaceWords(pos: BoardView, me: BoardView, opponent: BoardView, flipped: BoardView, p: Square)
    requires Placeable(pos, me, opponent, p)
    requires forall q: Square :: Has(flipped, q) ==> Has(opponent, q)
    ensures pos & flipped == 0 && me & (pos | flipped) == 0 && opponent & flipped == flipped
  {
    forall q: Square
      ensures !(Has(pos, q) && Has(flipped, q)) && !(Has(me, q) && Has(pos | flipped, q))
    {
      CellsMask(p, q);
      CellsOr(pos, flipped, q);
      DisjointCells(me, opponent, q);
    }
    DisjointOf(pos, flipped);
    DisjointOf(me, pos | flipped);
    SubsetOf(opponent, flipped);
  }

  lemma PlaceCount(pos: BoardView, me: BoardView, opponent: BoardView, flipped: BoardView, r: Sides)
    requires PopCnt64(pos) == 1 && pos & flipped == 0 && me & (pos | flipped) == 0 && opponent & flipped == flipped
    requires r == Place(pos, me, opponent, flipped)
    ensures PopCnt64(r.player) == PopCnt64(me) + 1 + PopCnt64(flipped)
    ensures PopCnt64(r.opponent) == PopCnt64(opponent) - PopCnt64(flipped)
  {
    GainCount(pos, me, flipped);
    PopCntRemove(opponent, flipped);
  }

  lemma GainCount(pos: BoardView, me: BoardView, flipped: BoardView)
    requires pos & flipped == 0 && me & (pos | flipped) == 0 && PopCnt64(pos) == 1
    ensures PopCnt64(me ^ (pos | flipped)) == PopCnt64(me) + 1 + PopCnt64(flipped)
  {
    GainWords(pos, me, flipped, pos | flipped, me ^ (pos | flipped));
  }

  lemma GainWords(pos: BoardView, me: BoardView, flipped: BoardView, placed: BoardView, me': BoardView)
    requires placed == pos | flipped && me' == me ^ placed
    requires pos & flipped == 0 && me & placed == 0 && PopCnt64(pos) == 1
    ensures PopCnt64(me') == PopCnt64(me) + 1 + PopCnt64(flipped)
  {
    PopCntUnion(pos, flipped);
    XorIsOr(me, placed);
    PopCntUnion(me, placed);
  }

  lemma MaskCount(p: Square, pos: BoardView)
    requires pos == BitMask(p)
    ensures PopCnt64(pos) == 1
  {
    BitMaskIsSingle(p);
    PopCntOfSingle(pos);
  }

  // ---------------------------------------------------------------- the new position

  /** The position after `me` places on the empty square `p`: the mover holds its old
      discs, `p` and every captured disc; the opponent keeps exactly its discs that were
      not captured. */
  lemma PlayCells(pos: BoardView, me: BoardView, opponent: BoardView, p: Square, q: Square)
    requires Placeable(pos, me, opponent, p)
    ensures Has(Play(pos, me, opponent).player, q) <==> Has(me, q) || q == p || Captures(me, opponent, p, q)
    ensures Has(Play(pos, me, opponent).opponent, q) <==> Has(opponent, q) && !Captures(me, opponent, p, q)
  {
    PlayGains(pos, me, opponent, p, q);
    PlayLoses(pos, me, opponent, p, q);
  }

  lemma PlayGains(pos: BoardView, me: BoardView, opponent: BoardView, p: Square, q: Square)
    requires Placeable(pos, me, opponent, p)
    ensures Has(Play(pos, me, opponent).player, q) <==> Has(me, q) || q == p || Captures(me, opponent, p, q)
  {
    FlipsCells(pos, me, opponent, p, q);
    GainsVia(pos, me, opponent, p, q, Flips(pos, me, opponent), Play(pos, me, opponent));
  }

  lemma GainsVia(pos: BoardView, me: BoardView, opponent: BoardView, p: Square, q: Square, f: BoardView, r: Sides)
    requires Placeable(pos, me, opponent, p)
    requires Has(f, q) <==> Captures(me, opponent, p, q)
    requires r == Place(pos, me, opponent, f)
    ensures Has(r.player, q) <==> Has(me, q) || q == p || Captures(me, opponent, p, q)
  {
    PlaceCells(pos, me, opponent, f, q, r);
    MaskAt(p, pos, q);
    CapturedOpponent(me, opponent, p, q);
    DisjointCells(me, opponent, q);
  }

  lemma PlayLoses(pos: BoardView, me: BoardView, opponent: BoardView, p: Square, q: Square)
    requires pos == BitMask(p)
    ensures Has(Play(pos, me, opponent).opponent, q) <==> Has(opponent, q) && !Captures(me, opponent, p, q)
  {
    FlipsCells(pos, me, opponent, p, q);
    LosesVia(pos, me, opponent, p, q, Flips(pos, me, opponent), Play(pos, me, opponent));
  }

  lemma LosesVia(pos: BoardView, me: BoardView, opponent: BoardView, p: Square, q: Square, f: BoardView, r: Sides)
    requires Has(f, q) <==> Captures(me, opponent, p, q)
    requires r == Place(pos, me, opponent, f)
    ensures Has(r.opponent, q) <==> Has(opponent, q) && !Captures(me, opponent, p, q)
  {
    PlaceCells(pos, me, opponent, f, q, r);
    CapturedOpponent(me, opponent, p, q);
  }

  lemma CapturedOpponent(me: BoardView, opponent: BoardView, p: Square, q: Square)
    ensures Captures(me, opponent, p, q) ==> Has(opponent, q)
  {
    if Captures(me, opponent, p, q) {
      CapturesOpponent(me, opponent, p, q);
    }
  }

  /** A square that is neither `p` nor captured keeps its disc. */
  lemma PlayElsewhere(pos: BoardView, me: BoardView, opponent: BoardView, p: Square, q: Square)
    requires Placeable(pos, me, opponent, p)
    requires q != p && !Captures(me, opponent, p, q)
    ensures Has(Play(pos, me, opponent).player, q) == Has(me, q)
    ensures Has(Play(pos, me, opponent).opponent, q) == Has(opponent, q)
  {
    PlayCells(pos, me, opponent, p, q);
  }

  /** No square ends up holding two discs. */
  lemma PlayDisjoint(pos: BoardView, me: BoardView, opponent: BoardView, p: Square, r: Sides)
    requires Placeable(pos, me, opponent, p)
    requires r == Play(pos, me, opponent)
    ensures r.player & r.opponent == 0
  {
    FlipsOpponent(pos, me, opponent, p);
    PlayIs(pos, me, opponent, Flips(pos, me, opponent));
    PlaceDisjoint(pos, me, opponent, Flips(pos, me, opponent), p, r);
  }

  /** The mover gains the placed disc and the captured ones, the opponent loses the
      captured ones: the board holds one disc more. */
  lemma PlayCount(pos: BoardView, me: BoardView, opponent: BoardView, p: Square, flipped: BoardView, r: Sides)
    requires Placeable(pos, me, opponent, p)
    requires flipped == Flips(pos, me, opponent) && r == Play(pos, me, opponent)
    ensures PopCnt64(r.player) == PopCnt64(me) + 1 + PopCnt64(flipped)
    ensures PopCnt64(r.opponent) == PopCnt64(opponent) - PopCnt64(flipped)
  {
    FlipsOpponent(pos, me, opponent, p);
    PlaceWords(pos, me, opponent, flipped, p);
    MaskCount(p, pos);
    PlayIs(pos, me, opponent, flipped);
    PlaceCount(pos, me, opponent, flipped, r);
  }
}
