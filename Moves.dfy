/** What `get_valid_moves` computes, square by square: an empty square is a move
    exactly when placing there flanks a run of opponent discs along some direction,
    which is exactly when `put` would turn at least one disc over. */
module Moves {
  import opened Wrappers
  import opened Util
  import opened Geometry
  import opened Squares
  import opened Board
  import opened Rules

  // ---------------------------------------------------------------- edge masks

  lemma ValidAt(d: Dir, t: Square)
    ensures Has(ValidMask(d), t) <==> Step(t, d).Some? && Step(t, Reverse(d)).Some?
  {
    CellsBit(ValidMask(d), t);
    ValidMaskBit(d, t);
  }

  lemma PutAt(d: Dir, t: Square)
    ensures Has(PutMask(d), t) <==> Step(t, Reverse(d)).Some?
  {
    CellsBit(PutMask(d), t);
    PutMaskBit(d, t);
  }

  /** On a square with a neighbour behind it, shifting toward `d` brings that
      neighbour's disc. */
  lemma ShiftAt(x: BoardView, d: Dir, t: Square)
    requires Step(t, Reverse(d)).Some?
    ensures Has(Shift(x, d), t) <==> Has(x, Step(t, Reverse(d)).value)
  {
    PutAt(d, t);
    CellsAnd(Shift(x, d), PutMask(d), t);
    CellsMoved(x, d, t);
  }

  // ---------------------------------------------------------------- the grown runs

  /** No square holds a disc of both words. */
  ghost predicate Apart(me: BoardView, opponent: BoardView) {
    forall q: Square :: !(Has(me, q) && Has(opponent, q))
  }

  lemma ApartOf(me: BoardView, opponent: BoardView)
    requires me & opponent == 0
    ensures Apart(me, opponent)
  {
    forall q: Square ensures !(Has(me, q) && Has(opponent, q)) {
      CellsAnd(me, opponent, q);
      CellsZero(q);
    }
  }

  /** `mask` keeps the opponent discs that have a neighbour on both sides along `d`:
      the opponent mask of `get_valid_move!`. */
  ghost predicate Inner(opponent: BoardView, d: Dir, mask: BoardView) {
    forall u: Square :: Has(mask, u) <==> Has(opponent, u) && Step(u, d).Some? && Step(u, Reverse(d)).Some?
  }

  lemma InnerOf(opponent: BoardView, d: Dir, mask: BoardView)
    requires mask == Inter(opponent, ValidMask(d))
    ensures Inner(opponent, d, mask)
  {
    forall u: Square ensures Has(mask, u) <==> Has(opponent, u) && Step(u, d).Some? && Step(u, Reverse(d)).Some? {
      InterCells(opponent, ValidMask(d), u);
      ValidAt(d, u);
    }
  }

  /** `t` is kept by `mask`, and walking back from it along `r` over at most `n` more
      squares of `mask` reaches a disc of `me`. */
  predicate Reached(me: BoardView, mask: BoardView, t: Square, r: Dir, n: nat)
    decreases n
  {
    Has(mask, t) && Step(t, r).Some? &&
    (Has(me, Step(t, r).value) || (n > 0 && Reached(me, mask, Step(t, r).value, r, n - 1)))
  }

  lemma {:induction false} ReachedMono(me: BoardView, mask: BoardView, t: Square, r: Dir, n: nat)
    requires Reached(me, mask, t, r, n)
    ensures Reached(me, mask, t, r, n + 1)
    decreases n
  {
    if !Has(me, Step(t, r).value) {
      ReachedMono(me, mask, Step(t, r).value, r, n - 1);
    }
  }

  /** The recursion of `Reached` in the shape of one more line of `get_valid_move!`:
      either already reached, or kept by the mask with its neighbour behind reached. */
  lemma ReachedStep(me: BoardView, mask: BoardView, t: Square, r: Dir, n: nat)
    requires n > 0
    ensures Reached(me, mask, t, r, n) <==>
      Reached(me, mask, t, r, n - 1) ||
      (Has(mask, t) && Step(t, r).Some? && Reached(me, mask, Step(t, r).value, r, n - 1))
  {
    if Reached(me, mask, t, r, n - 1) {
      ReachedMono(me, mask, t, r, n - 1);
    }
  }

  lemma InterCells(a: BoardView, b: BoardView, q: Square)
    ensures Has(Inter(a, b), q) <==> Has(a, q) && Has(b, q)
  {
    CellsAnd(a, b, q);
  }

  lemma BlankCells(me: BoardView, opponent: BoardView, q: Square)
    ensures Has(Blank(me, opponent), q) <==> !Has(me, q) && !Has(opponent, q)
  {
    NotAt(me | opponent, Blank(me, opponent), q);
    CellsOr(me, opponent, q);
  }

  lemma GrowZero(me: BoardView, mask: BoardView, d: Dir, t: Square)
    requires Has(mask, t) ==> Step(t, Reverse(d)).Some?
    ensures Has(Grow(me, mask, d, 0), t) <==> Reached(me, mask, t, Reverse(d), 0)
  {
    InterCells(mask, Shift(me, d), t);
    if Has(mask, t) {
      ShiftAt(me, d, t);
    }
  }

  lemma GrowAt(me: BoardView, mask: BoardView, d: Dir, n: nat, t: Square)
    requires n > 0
    ensures Has(Grow(me, mask, d, n), t) <==>
      Has(Grow(me, mask, d, n - 1), t) || (Has(mask, t) && Has(Shift(Grow(me, mask, d, n - 1), d), t))
  {
    UnionCells(Grow(me, mask, d, n - 1), Inter(mask, Shift(Grow(me, mask, d, n - 1), d)), t);
    InterCells(mask, Shift(Grow(me, mask, d, n - 1), d), t);
  }

  /** The accumulator of `get_valid_move!` after `n + 1` lines holds exactly the
      squares of `mask` from which at most `n` more squares of `mask` lead back to `me`. */
  lemma {:induction false} GrowCells(me: BoardView, mask: BoardView, d: Dir, n: nat, t: Square)
    requires forall u: Square :: Has(mask, u) ==> Step(u, Reverse(d)).Some?
    ensures Has(Grow(me, mask, d, n), t) <==> Reached(me, mask, t, Reverse(d), n)
    decreases n
  {
    if n == 0 {
      GrowZero(me, mask, d, t);
    } else {
      GrowAt(me, mask, d, n, t);
      GrowCells(me, mask, d, n - 1, t);
      ReachedStep(me, mask, t, Reverse(d), n);
      if Has(mask, t) {
        ShiftAt(Grow(me, mask, d, n - 1), d, t);
        GrowCells(me, mask, d, n - 1, Step(t, Reverse(d)).value);
      }
    }
  }

  /** The run ends on a disc of `me`. */
  predicate EndsOn(me: BoardView, e: Option<Square>) {
    e.Some? && Has(me, e.value)
  }

  /** With the two colours apart, a square `t` that has a neighbour behind it is
      reached from `me` exactly when it starts a run of opponent discs along `r` that
      ends on a disc of `me`, provided `n` leaves room for the whole line. */
  lemma {:induction false} ReachedRun(me: BoardView, opponent: BoardView, mask: BoardView, d: Dir, t: Square, n: nat)
    requires Apart(me, opponent) && Inner(opponent, d, mask)
    requires Step(t, d).Some? && Remaining(Some(t), Reverse(d)) <= n + 2
    ensures Reached(me, mask, t, Reverse(d), n) <==>
      Has(opponent, t) && EndsOn(me, RunEnd(opponent, Some(t), Reverse(d)))
    decreases n
  {
    if Has(opponent, t) && Step(t, Reverse(d)).Some? {
      var u := Step(t, Reverse(d)).value;
      StepRemaining(t, Reverse(d));
      assert Has(mask, t);
      assert RunEnd(opponent, Some(t), Reverse(d)) == RunEnd(opponent, Some(u), Reverse(d));
      if Has(opponent, u) {
        assert !Has(me, u);
        if n > 0 {
          BackStep(t, d);
          ReachedRun(me, opponent, mask, d, u, n - 1);
        } else {
          LastSquare(u, Reverse(d));
          assert RunEnd(opponent, Some(u), Reverse(d)) == None;
        }
      } else {
        assert !Has(mask, u);
      }
    } else if Has(opponent, t) {
      assert RunEnd(opponent, Some(t), Reverse(d)) == None;
    }
  }

  lemma BackStep(t: Square, d: Dir)
    requires Step(t, Reverse(d)).Some?
    ensures Step(Step(t, Reverse(d)).value, d) == Some(t)
  {
    StepReverse(t, Reverse(d));
    ReverseReverse(d);
  }

  /** A square with one square left on its line has no next square. */
  lemma LastSquare(u: Square, r: Dir)
    requires Remaining(Some(u), r) <= 1
    ensures Step(u, r).None?
  {
    StepRemaining(u, r);
  }

  // ---------------------------------------------------------------- one direction

  /** The accumulator holds only squares with a neighbour behind them, so the last
      shift of `get_valid_move!` wraps no disc around the edge. */
  lemma GrowInside(me: BoardView, opponent: BoardView, d: Dir, mask: BoardView, g: BoardView)
    requires Inner(opponent, d, mask) && g == Grow(me, mask, d, 5)
    ensures g & PutMask(Reverse(d)) == g
  {
    forall u: Square ensures Has(g & PutMask(Reverse(d)), u) == Has(g, u) {
      GrowInsideAt(me, opponent, d, mask, g, g & PutMask(Reverse(d)), u);
    }
    SameCells(g & PutMask(Reverse(d)), g);
  }

  lemma GrowInsideAt(me: BoardView, opponent: BoardView, d: Dir, mask: BoardView, g: BoardView, gp: BoardView, u: Square)
    requires Inner(opponent, d, mask) && g == Grow(me, mask, d, 5) && gp == g & PutMask(Reverse(d))
    ensures Has(gp, u) == Has(g, u)
  {
    AndAt(g, PutMask(Reverse(d)), gp, u);
    GrowCells(me, mask, d, 5, u);
    PutAt(Reverse(d), u);
    ReverseReverse(d);
  }

  lemma ShiftedAt(g: BoardView, d: Dir, sh: BoardView, s: Square)
    requires g & PutMask(Reverse(d)) == g && sh == Shift(g, d)
    ensures Has(sh, s) <==> Step(s, Reverse(d)).Some? && Has(g, Step(s, Reverse(d)).value)
  {
    ShiftInside(g, d);
    CellsMoved(g, d, s);
  }

  /** One use of `get_valid_move!` finds exactly the empty squares that flank a run
      along the direction opposite to its shift. */
  lemma MovesTowardCells(me: BoardView, opponent: BoardView, d: Dir, s: Square)
    requires me & opponent == 0
    ensures Has(MovesToward(me, opponent, d), s) <==>
      !Has(me, s) && !Has(opponent, s) && Flanks(me, opponent, s, Reverse(d))
  {
    ApartOf(me, opponent);
    InnerOf(opponent, d, Inter(opponent, ValidMask(d)));
    BlankCells(me, opponent, s);
    ShiftFlanks(me, opponent, d, Inter(opponent, ValidMask(d)), Grow(me, Inter(opponent, ValidMask(d)), d, 5),
                Shift(Grow(me, Inter(opponent, ValidMask(d)), d, 5), d), s);
    BlankAnd(me, opponent, d, s, Blank(me, opponent), Shift(Grow(me, Inter(opponent, ValidMask(d)), d, 5), d));
  }

  /** The last line of `get_valid_move!`, square by square. */
  lemma BlankAnd(me: BoardView, opponent: BoardView, d: Dir, s: Square, blank: BoardView, sh: BoardView)
    requires blank == Blank(me, opponent) && sh == Shift(Grow(me, Inter(opponent, ValidMask(d)), d, 5), d)
    requires Has(blank, s) <==> !Has(me, s) && !Has(opponent, s)
    requires Has(sh, s) <==> Flanks(me, opponent, s, Reverse(d))
    ensures Has(MovesToward(me, opponent, d), s) <==>
      !Has(me, s) && !Has(opponent, s) && Flanks(me, opponent, s, Reverse(d))
  {
    InterCells(blank, sh, s);
  }

  lemma ShiftFlanks(me: BoardView, opponent: BoardView, d: Dir, mask: BoardView, g: BoardView, sh: BoardView, s: Square)
    requires Apart(me, opponent) && Inner(opponent, d, mask)
    requires g == Grow(me, mask, d, 5) && sh == Shift(g, d)
    ensures Has(sh, s) <==> Flanks(me, opponent, s, Reverse(d))
  {
    GrowInside(me, opponent, d, mask, g);
    ShiftedAt(g, d, sh, s);
    if Step(s, Reverse(d)).Some? {
      FlankedFrom(me, opponent, d, mask, g, s, Step(s, Reverse(d)).value);
    }
  }

  lemma FlankedFrom(me: BoardView, opponent: BoardView, d: Dir, mask: BoardView, g: BoardView, s: Square, t: Square)
    requires Apart(me, opponent) && Inner(opponent, d, mask)
    requires g == Grow(me, mask, d, 5) && Step(s, Reverse(d)) == Some(t)
    ensures Has(g, t) <==> Flanks(me, opponent, s, Reverse(d))
  {
    GrowCells(me, mask, d, 5, t);
    BackStep(s, d);
    StepRemaining(s, Reverse(d));
    ReachedRun(me, opponent, mask, d, t, 5);
  }

  // ---------------------------------------------------------------- all directions

  /** `me` may place on `s`: the square is empty and placing there flanks a run of
      opponent discs along some direction. */
  predicate IsMove(me: BoardView, opponent: BoardView, s: Square) {
    !Has(me, s) && !Has(opponent, s) && exists d: Dir :: Flanks(me, opponent, s, d)
  }

  /** Placing on `s` flanks a run along the reverse of one of `ds`. */
  ghost predicate FlanksAlong(me: BoardView, opponent: BoardView, s: Square, ds: seq<Dir>) {
    exists d: Dir :: d in ds && Flanks(me, opponent, s, Reverse(d))
  }

  /** `valid` after the uses of `get_valid_move!` for `ds` holds exactly the empty
      squares that flank a run along the reverse of one of them. */
  lemma {:induction false} MovesAlongCells(me: BoardView, opponent: BoardView, ds: seq<Dir>, s: Square)
    requires me & opponent == 0
    ensures Has(MovesAlong(me, opponent, ds), s) <==>
      !Has(me, s) && !Has(opponent, s) && FlanksAlong(me, opponent, s, ds)
    decreases |ds|
  {
    if ds == [] {
      CellsZero(s);
    } else {
      MovesAlongCells(me, opponent, ds[..|ds| - 1], s);
      MovesTowardCells(me, opponent, ds[|ds| - 1], s);
      UnionCells(MovesAlong(me, opponent, ds[..|ds| - 1]), MovesToward(me, opponent, ds[|ds| - 1]), s);
      FlanksAlongLast(me, opponent, s, ds);
    }
  }

  lemma FlanksAlongLast(me: BoardView, opponent: BoardView, s: Square, ds: seq<Dir>)
    requires ds != []
    ensures FlanksAlong(me, opponent, s, ds) <==>
      FlanksAlong(me, opponent, s, ds[..|ds| - 1]) || Flanks(me, opponent, s, Reverse(ds[|ds| - 1]))
  {
    assert ds == ds[..|ds| - 1] + [ds[|ds| - 1]];
    if FlanksAlong(me, opponent, s, ds) {
      var d: Dir :| d in ds && Flanks(me, opponent, s, Reverse(d));
      if d != ds[|ds| - 1] {
        assert d in ds[..|ds| - 1];
      }
    }
  }

  /** Every direction is the reverse of one of the eight the program uses. */
  lemma FlanksAll(me: BoardView, opponent: BoardView, s: Square)
    ensures FlanksAlong(me, opponent, s, Directions) <==> exists d: Dir :: Flanks(me, opponent, s, d)
  {
    if exists d: Dir :: Flanks(me, opponent, s, d) {
      var d: Dir :| Flanks(me, opponent, s, d);
      ReverseReverse(d);
      assert Reverse(d) in Directions;
    }
  }

  /** `get_valid_moves` holds exactly the squares where `me` may place. */
  lemma ValidMovesCells(me: BoardView, opponent: BoardView, s: Square)
    requires me & opponent == 0
    ensures Has(GetValidMoves(me, opponent), s) <==> IsMove(me, opponent, s)
  {
    MovesAlongCells(me, opponent, Directions, s);
    FlanksAll(me, opponent, s);
  }

  // ---------------------------------------------------------------- moves and put

  /** Every use of `get_valid_move!` ends with `blank &`, so whatever the two words,
      no move lands on an occupied square. */
  lemma {:induction false} MovesAlongBlank(me: BoardView, opponent: BoardView, ds: seq<Dir>, s: Square)
    ensures Has(MovesAlong(me, opponent, ds), s) ==> !Has(me, s) && !Has(opponent, s)
    decreases |ds|
  {
    if ds == [] {
      CellsZero(s);
    } else {
      MovesAlongBlank(me, opponent, ds[..|ds| - 1], s);
      UnionCells(MovesAlong(me, opponent, ds[..|ds| - 1]), MovesToward(me, opponent, ds[|ds| - 1]), s);
      LastLine(me, opponent, ds[|ds| - 1], s);
    }
  }

  lemma LastLine(me: BoardView, opponent: BoardView, d: Dir, s: Square)
    ensures Has(MovesToward(me, opponent, d), s) ==> !Has(me, s) && !Has(opponent, s)
  {
    InterCells(Blank(me, opponent), Shift(Grow(me, Inter(opponent, ValidMask(d)), d, 5), d), s);
    BlankCells(me, opponent, s);
  }

  /** `get_valid_moves` never returns an occupied square. */
  lemma ValidMovesBlank(me: BoardView, opponent: BoardView)
    ensures GetValidMoves(me, opponent) & (me | opponent) == 0
  {
    BlankWord(me, opponent, GetValidMoves(me, opponent), GetValidMoves(me, opponent) & (me | opponent));
  }

  lemma BlankWord(me: BoardView, opponent: BoardView, v: BoardView, w: BoardView)
    requires v == GetValidMoves(me, opponent) && w == v & (me | opponent)
    ensures w == 0
  {
    forall s: Square ensures Has(w, s) == Has(0, s) {
      BlankAt(me, opponent, v, w, s);
    }
    SameCells(w, 0);
  }

  lemma BlankAt(me: BoardView, opponent: BoardView, v: BoardView, w: BoardView, s: Square)
    requires v == GetValidMoves(me, opponent) && w == v & (me | opponent)
    ensures Has(w, s) == Has(0, s)
  {
    AndAt(v, me | opponent, w, s);
    CellsOr(me, opponent, s);
    MovesAlongBlank(me, opponent, Directions, s);
    CellsZero(s);
  }

  /** A word is non-zero exactly when some square holds one of its discs. */
  lemma NonZero(x: BoardView)
    ensures x != 0 <==> exists q: Square :: Has(x, q)
  {
    if forall q: Square :: !Has(x, q) {
      forall q: Square ensures Has(x, q) == Has(0, q) {
        CellsZero(q);
      }
      SameCells(x, 0);
    } else if x == 0 {
      var q: Square :| Has(x, q);
      CellsZero(q);
    }
  }

  /** Flanking along some direction is turning some disc over. */
  lemma FlanksCaptures(me: BoardView, opponent: BoardView, p: Square)
    ensures (exists d: Dir :: Flanks(me, opponent, p, d)) <==> exists q: Square :: Captures(me, opponent, p, q)
  {
    if exists d: Dir :: Flanks(me, opponent, p, d) {
      var d: Dir :| Flanks(me, opponent, p, d);
      assert CapturesAlong(me, opponent, p, d, Step(p, d).value);
      assert Captures(me, opponent, p, Step(p, d).value);
    }
    if exists q: Square :: Captures(me, opponent, p, q) {
      var q: Square :| Captures(me, opponent, p, q);
      var d: Dir :| CapturesAlong(me, opponent, p, d, q);
      assert Flanks(me, opponent, p, d);
    }
  }

  /** A disc placed on `p` turns something over exactly when it flanks a run. */
  lemma FlipsNonZero(me: BoardView, opponent: BoardView, p: Square, pos: BoardView, f: BoardView)
    requires pos == BitMask(p) && f == Flips(pos, me, opponent)
    ensures f != 0 <==> exists d: Dir :: Flanks(me, opponent, p, d)
  {
    FlanksCaptures(me, opponent, p);
    NonZero(f);
    forall q: Square ensures Has(f, q) <==> Captures(me, opponent, p, q) {
      FlipsCells(pos, me, opponent, p, q);
    }
  }

  /** `get_valid_moves` and `put` agree: a square is a move exactly when it is empty and
      a disc placed there would turn at least one opponent disc over. */
  lemma MoveFlips(me: BoardView, opponent: BoardView, p: Square)
    requires me & opponent == 0
    ensures Has(GetValidMoves(me, opponent), p) <==>
      !Has(me, p) && !Has(opponent, p) && Flips(BitMask(p), me, opponent) != 0
  {
    ValidMovesCells(me, opponent, p);
    FlipsNonZero(me, opponent, p, BitMask(p), Flips(BitMask(p), me, opponent));
  }
}
