/** The rules of Othello stated square by square, and the proofs that the word
    operations of `Board` follow them: a placed disc turns over exactly the runs of
    opponent discs that end on one of the mover's discs. */
module Rules {
  import opened Wrappers
  import opened Util
  import opened Geometry
  import opened Squares
  import opened Board

  // ---------------------------------------------------------------- runs and flanks

  /** How many squares the line along `d` still has from `c` on, `c` included. */
  function Remaining(c: Option<Square>, d: Dir): nat {
    if c.None? then 0 else 8 - Key(c.value, d)
  }

  lemma StepRemaining(q: Square, d: Dir)
    ensures Remaining(Step(q, d), d) < Remaining(Some(q), d)
  {
    if Step(q, d).Some? {
      StepKey(q, d);
    }
  }

  /** The first square from `c` on along `d` that does not hold an opponent disc, or
      `None` when the opponent's discs reach the edge. */
  function RunEnd(opponent: BoardView, c: Option<Square>, d: Dir): (e: Option<Square>)
    ensures e.Some? ==> !Has(opponent, e.value)
    decreases Remaining(c, d)
  {
    if c.None? || !Has(opponent, c.value) then c
    else
      StepRemaining(c.value, d);
      RunEnd(opponent, Step(c.value, d), d)
  }

  /** The word holding the run of opponent discs that starts at `c` and goes along `d`. */
  function RunMask(opponent: BoardView, c: Option<Square>, d: Dir): BoardView
    decreases Remaining(c, d)
  {
    if c.None? || !Has(opponent, c.value) then 0
    else
      StepRemaining(c.value, d);
      Union(MaskOf(c), RunMask(opponent, Step(c.value, d), d))
  }

  /** `q` is one of the opponent discs of the unbroken run that starts at `c` and goes
      along `d`. */
  predicate InRun(opponent: BoardView, c: Option<Square>, d: Dir, q: Square)
    decreases Remaining(c, d)
  {
    c.Some? && Has(opponent, c.value) &&
    (c.value == q || (StepRemaining(c.value, d); InRun(opponent, Step(c.value, d), d, q)))
  }

  /** A disc placed on `p` flanks along `d`: the neighbour holds an opponent disc and
      the run of opponent discs that starts there ends on a disc of the mover. */
  predicate Flanks(me: BoardView, opponent: BoardView, p: Square, d: Dir) {
    var c := Step(p, d);
    c.Some? && Has(opponent, c.value) &&
    var e := RunEnd(opponent, c, d);
    e.Some? && Has(me, e.value)
  }

  /** Placing on `p` turns `q` over along `d`. */
  predicate CapturesAlong(me: BoardView, opponent: BoardView, p: Square, d: Dir, q: Square) {
    Flanks(me, opponent, p, d) && InRun(opponent, Step(p, d), d, q)
  }

  /** Placing on `p` turns `q` over along some direction. */
  predicate Captures(me: BoardView, opponent: BoardView, p: Square, q: Square) {
    exists d: Dir :: CapturesAlong(me, opponent, p, d, q)
  }

  // ---------------------------------------------------------------- the walk of put

  lemma WalkGuard(c: Option<Square>, x: BoardView, mask: BoardView)
    requires mask == MaskOf(c)
    ensures (mask != 0 && mask & x != 0) <==> c.Some? && Has(x, c.value)
  {
    if c.Some? {
      MaskMeets(c.value, x, mask);
    }
  }

  lemma StepMask(q: Square, d: Dir, mask: BoardView, mask': BoardView)
    requires mask == BitMask(q) && mask' == Next(mask, d)
    ensures mask' == MaskOf(Step(q, d))
  {
    MovedSingle(q, d);
  }

  /** The walk stops at once on a square that is off the board or holds no opponent
      disc. */
  lemma WalkStop(tmp: BoardView, c: Option<Square>, mask: BoardView, opponent: BoardView, d: Dir, fuel: nat)
    requires mask == MaskOf(c) && !(c.Some? && Has(opponent, c.value))
    ensures Walk(tmp, mask, opponent, d, fuel) == (tmp, mask)
  {
    WalkGuard(c, opponent, mask);
  }

  lemma UnionCells(a: BoardView, b: BoardView, q: Square)
    ensures Has(Union(a, b), q) <==> Has(a, q) || Has(b, q)
  {
    CellsOr(a, b, q);
  }

  lemma WalkUnion(tmp: BoardView, mask: BoardView, opponent: BoardView, d: Dir, fuel: nat)
    requires fuel > 0 && mask != 0 && mask & opponent != 0
    ensures Walk(tmp, mask, opponent, d, fuel) == Walk(Union(tmp, mask), Next(mask, d), opponent, d, fuel - 1)
  {
    WalkUnfold(tmp, mask, opponent, d, fuel, Union(tmp, mask), Next(mask, d));
  }

  /** One step of the walk from an opponent disc on `c`: the walk goes on from the next
      square with one unit of fuel less, having collected `c`. */
  lemma WalkAdvance(tmp: BoardView, c: Option<Square>, mask: BoardView, opponent: BoardView,
                    d: Dir, fuel: nat)
    requires mask == MaskOf(c) && fuel >= Remaining(c, d)
    requires c.Some? && Has(opponent, c.value)
    ensures fuel > 0 && fuel - 1 >= Remaining(Step(c.value, d), d)
    ensures Remaining(Step(c.value, d), d) < Remaining(c, d)
    ensures Next(mask, d) == MaskOf(Step(c.value, d))
    ensures Walk(tmp, mask, opponent, d, fuel) == Walk(Union(tmp, mask), Next(mask, d), opponent, d, fuel - 1)
  {
    WalkGuard(c, opponent, mask);
    StepMask(c.value, d, mask, Next(mask, d));
    StepRemaining(c.value, d);
    WalkUnion(tmp, mask, opponent, d, fuel);
  }

  lemma MaskCells(c: Option<Square>, mask: BoardView, q: Square)
    requires mask == MaskOf(c) && c.Some?
    ensures Has(mask, q) <==> c.value == q
  {
    CellsMask(c.value, q);
  }

  lemma RunStep(opponent: BoardView, c: Option<Square>, d: Dir, q: Square)
    requires c.Some? && Has(opponent, c.value)
    ensures InRun(opponent, c, d, q) <==> c.value == q || InRun(opponent, Step(c.value, d), d, q)
  {
  }

  lemma RunStop(opponent: BoardView, c: Option<Square>, d: Dir, q: Square)
    requires !(c.Some? && Has(opponent, c.value))
    ensures !InRun(opponent, c, d, q)
  {
  }

  lemma UnionZero(x: BoardView)
    ensures Union(x, 0) == x
  {
  }

  lemma UnionAssoc(a: BoardView, b: BoardView, c: BoardView)
    ensures Union(Union(a, b), c) == Union(a, Union(b, c))
  {
    OrAssoc(a, b, c);
  }

  /** Walking from the single square `c` adds to `tmp` the run of opponent discs that
      starts there, and stops on the square that ends the run. */
  lemma {:induction false} WalkRun(tmp: BoardView, c: Option<Square>, mask: BoardView, opponent: BoardView,
                                   d: Dir, fuel: nat)
    requires mask == MaskOf(c) && fuel >= Remaining(c, d)
    ensures Walk(tmp, mask, opponent, d, fuel) == (Union(tmp, RunMask(opponent, c, d)), MaskOf(RunEnd(opponent, c, d)))
    decreases Remaining(c, d)
  {
    if c.Some? && Has(opponent, c.value) {
      WalkAdvance(tmp, c, mask, opponent, d, fuel);
      WalkRun(Union(tmp, mask), Step(c.value, d), Next(mask, d), opponent, d, fuel - 1);
      RunMaskStep(opponent, c, d, mask);
      UnionAssoc(tmp, mask, RunMask(opponent, Step(c.value, d), d));
    } else {
      WalkRunEnd(tmp, c, mask, opponent, d, fuel);
    }
  }

  lemma WalkRunEnd(tmp: BoardView, c: Option<Square>, mask: BoardView, opponent: BoardView, d: Dir, fuel: nat)
    requires mask == MaskOf(c) && !(c.Some? && Has(opponent, c.value))
    ensures Walk(tmp, mask, opponent, d, fuel) == (Union(tmp, RunMask(opponent, c, d)), MaskOf(RunEnd(opponent, c, d)))
  {
    WalkStop(tmp, c, mask, opponent, d, fuel);
    RunMaskStop(opponent, c, d);
    UnionZero(tmp);
  }

  lemma RunMaskStep(opponent: BoardView, c: Option<Square>, d: Dir, mask: BoardView)
    requires c.Some? && Has(opponent, c.value) && mask == MaskOf(c)
    ensures RunMask(opponent, c, d) == Union(mask, RunMask(opponent, Step(c.value, d), d))
    ensures RunEnd(opponent, c, d) == RunEnd(opponent, Step(c.value, d), d)
  {
  }

  lemma RunMaskStop(opponent: BoardView, c: Option<Square>, d: Dir)
    requires !(c.Some? && Has(opponent, c.value))
    ensures RunMask(opponent, c, d) == 0 && RunEnd(opponent, c, d) == c
  {
  }

  /** The squares of `RunMask` are exactly the run. */
  lemma {:induction false} RunMaskCells(opponent: BoardView, c: Option<Square>, d: Dir, q: Square)
    ensures Has(RunMask(opponent, c, d), q) <==> InRun(opponent, c, d, q)
    decreases Remaining(c, d)
  {
    if c.Some? && Has(opponent, c.value) {
      var mask := MaskOf(c);
      RunMaskStep(opponent, c, d, mask);
      RunStep(opponent, c, d, q);
      UnionCells(mask, RunMask(opponent, Step(c.value, d), d), q);
      MaskCells(c, mask, q);
      StepRemaining(c.value, d);
      RunMaskCells(opponent, Step(c.value, d), d, q);
    } else {
      RunMaskStop(opponent, c, d);
      RunStop(opponent, c, d, q);
      CellsZero(q);
    }
  }

  // ---------------------------------------------------------------- one direction of put

  lemma MaskOfMeets(e: Option<Square>, x: BoardView, m: BoardView)
    requires m == MaskOf(e)
    ensures m & x != 0 <==> e.Some? && Has(x, e.value)
  {
    WalkGuard(e, x, m);
  }

  /** The walk of `put` starts on the neighbour of the placed square, with at most seven
      squares ahead of it. */
  lemma FirstStep(pos: BoardView, p: Square, d: Dir)
    requires pos == BitMask(p)
    ensures Moved(pos, d, 1) == MaskOf(Step(p, d)) && Remaining(Step(p, d), d) <= 7
  {
    assert Moved(pos, d, 1) == Next(Moved(pos, d, 0), d);
    StepMask(p, d, pos, Moved(pos, d, 1));
    StepRemaining(p, d);
  }

  lemma SettleRun(walk: (BoardView, BoardView), run: BoardView, e: Option<Square>, me: BoardView)
    requires walk == (Union(0, run), MaskOf(e))
    ensures Settle(walk, me) == if e.Some? && Has(me, e.value) then run else 0
  {
    MaskOfMeets(e, me, walk.1);
    ZeroUnion(run);
    SettlePick(walk, me, run, e.Some? && Has(me, e.value));
  }

  lemma SettlePick(walk: (BoardView, BoardView), me: BoardView, run: BoardView, meets: bool)
    requires walk.0 == run && (walk.1 & me != 0 <==> meets)
    ensures Settle(walk, me) == if meets then run else 0
  {
    if meets {
      assert walk.1 & me != 0;
    } else {
      assert !(walk.1 & me != 0);
    }
  }

  lemma FlipsDirSettle(pos: BoardView, me: BoardView, opponent: BoardView, p: Square, d: Dir)
    requires pos == BitMask(p)
    ensures FlipsDir(pos, me, opponent, d) ==
            Settle((Union(0, RunMask(opponent, Step(p, d), d)), MaskOf(RunEnd(opponent, Step(p, d), d))), me)
  {
    FirstStep(pos, p, d);
    WalkRun(0, Step(p, d), Moved(pos, d, 1), opponent, d, 7);
    FlipsDirIs(pos, me, opponent, d, Walk(0, Moved(pos, d, 1), opponent, d, 7));
  }

  lemma FlipsDirIf(pos: BoardView, me: BoardView, opponent: BoardView, p: Square, d: Dir)
    requires pos == BitMask(p)
    ensures FlipsDir(pos, me, opponent, d) == if Flanks(me, opponent, p, d) then RunMask(opponent, Step(p, d), d) else 0
  {
    var c := Step(p, d);
    FlipsDirSettle(pos, me, opponent, p, d);
    SettleRun((Union(0, RunMask(opponent, c, d)), MaskOf(RunEnd(opponent, c, d))), RunMask(opponent, c, d),
              RunEnd(opponent, c, d), me);
    if !(c.Some? && Has(opponent, c.value)) {
      RunMaskStop(opponent, c, d);
    }
  }

  /** Along one direction `put` turns over the whole run of opponent discs next to the
      placed square when the run is closed by a disc of the mover, and nothing
      otherwise. */
  lemma FlipsDirRun(pos: BoardView, me: BoardView, opponent: BoardView, p: Square, d: Dir)
    requires pos == BitMask(p)
    ensures FlipsDir(pos, me, opponent, d) == CaptureMask(me, opponent, p, d)
  {
    FlipsDirIf(pos, me, opponent, p, d);
  }

  /** The capture word along `d` holds exactly the squares captured along `d`. */
  lemma CaptureMaskCells(me: BoardView, opponent: BoardView, p: Square, d: Dir, q: Square)
    ensures Has(CaptureMask(me, opponent, p, d), q) <==> CapturesAlong(me, opponent, p, d, q)
  {
    if Flanks(me, opponent, p, d) {
      RunMaskCells(opponent, Step(p, d), d, q);
    } else {
      CellsZero(q);
    }
  }

  /** Square by square: along `d`, `put` turns over exactly the squares the rules
      capture along `d`. */
  lemma FlipsDirCells(pos: BoardView, me: BoardView, opponent: BoardView, p: Square, d: Dir, q: Square)
    requires pos == BitMask(p)
    ensures Has(FlipsDir(pos, me, opponent, d), q) <==> CapturesAlong(me, opponent, p, d, q)
  {
    FlipsDirRun(pos, me, opponent, p, d);
    CaptureMaskCells(me, opponent, p, d, q);
  }

  // ---------------------------------------------------------------- all directions

  /** One more union, with the squares of the left operand already known as `b`. */
  lemma UnionStep(u: BoardView, f: BoardView, v: BoardView, q: Square, b: bool)
    requires v == Union(u, f) && (Has(u, q) <==> b)
    ensures Has(v, q) <==> b || Has(f, q)
  {
    UnionCells(u, f, q);
  }

  /** The squares of the union `put` accumulates in `result` are those of its eight
      parts. */
  lemma ChainCells(f1: BoardView, f2: BoardView, f3: BoardView, f4: BoardView,
                   f5: BoardView, f6: BoardView, f7: BoardView, f8: BoardView, q: Square)
    ensures Has(Union(Union(Union(Union(Union(Union(Union(f1, f2), f3), f4), f5), f6), f7), f8), q) <==>
            Has(f1, q) || Has(f2, q) || Has(f3, q) || Has(f4, q) ||
            Has(f5, q) || Has(f6, q) || Has(f7, q) || Has(f8, q)
  {
    var u2 := Union(f1, f2);
    var u3 := Union(u2, f3);
    var u4 := Union(u3, f4);
    var u5 := Union(u4, f5);
    var u6 := Union(u5, f6);
    var u7 := Union(u6, f7);
    var u8 := Union(u7, f8);
    UnionStep(f1, f2, u2, q, Has(f1, q));
    var b := Has(f1, q) || Has(f2, q);
    UnionStep(u2, f3, u3, q, b);
    b := b || Has(f3, q);
    UnionStep(u3, f4, u4, q, b);
    b := b || Has(f4, q);
    UnionStep(u4, f5, u5, q, b);
    b := b || Has(f5, q);
    UnionStep(u5, f6, u6, q, b);
    b := b || Has(f6, q);
    UnionStep(u6, f7, u7, q, b);
    b := b || Has(f7, q);
    UnionStep(u7, f8, u8, q, b);
  }

  /** A capture happens along some direction exactly when it happens along one of the
      eight. */
  lemma CapturesSome(me: BoardView, opponent: BoardView, p: Square, q: Square)
    ensures Captures(me, opponent, p, q) <==>
            CapturesAlong(me, opponent, p, Left, q) || CapturesAlong(me, opponent, p, Right, q) ||
            CapturesAlong(me, opponent, p, Up, q) || CapturesAlong(me, opponent, p, Down, q) ||
            CapturesAlong(me, opponent, p, RightUp, q) || CapturesAlong(me, opponent, p, LeftUp, q) ||
            CapturesAlong(me, opponent, p, RightDown, q) || CapturesAlong(me, opponent, p, LeftDown, q)
  {
    if Captures(me, opponent, p, q) {
      var d: Dir :| CapturesAlong(me, opponent, p, d, q);
      match d
      case Left =>
      case Right =>
      case Up =>
      case Down =>
      case RightUp =>
      case LeftUp =>
      case RightDown =>
      case LeftDown =>
    }
  }

  /** The word the rules capture along `d` when `me` places on `p`. */
  function CaptureMask(me: BoardView, opponent: BoardView, p: Square, d: Dir): BoardView {
    if Flanks(me, opponent, p, d) then RunMask(opponent, Step(p, d), d) else 0
  }

  /** The union of the eight capture words, in the order `put` visits them. */
  function CaptureChain(me: BoardView, opponent: BoardView, p: Square): BoardView {
    var f := Union(CaptureMask(me, opponent, p, Left), CaptureMask(me, opponent, p, Right));
    var f := Union(Union(f, CaptureMask(me, opponent, p, Up)), CaptureMask(me, opponent, p, Down));
    var f := Union(Union(f, CaptureMask(me, opponent, p, RightUp)), CaptureMask(me, opponent, p, LeftUp));
    Union(Union(f, CaptureMask(me, opponent, p, RightDown)), CaptureMask(me, opponent, p, LeftDown))
  }

  lemma FlipsIsChain(pos: BoardView, me: BoardView, opponent: BoardView, p: Square)
    requires pos == BitMask(p)
    ensures Flips(pos, me, opponent) == CaptureChain(me, opponent, p)
  {
    FlipsDirRun(pos, me, opponent, p, Left);
    FlipsDirRun(pos, me, opponent, p, Right);
    FlipsDirRun(pos, me, opponent, p, Up);
    FlipsDirRun(pos, me, opponent, p, Down);
    FlipsDirRun(pos, me, opponent, p, RightUp);
    FlipsDirRun(pos, me, opponent, p, LeftUp);
    FlipsDirRun(pos, me, opponent, p, RightDown);
    FlipsDirRun(pos, me, opponent, p, LeftDown);
  }

  lemma CaptureChainCells(me: BoardView, opponent: BoardView, p: Square, q: Square)
    ensures Has(CaptureChain(me, opponent, p), q) <==> Captures(me, opponent, p, q)
  {
    ChainCells(CaptureMask(me, opponent, p, Left), CaptureMask(me, opponent, p, Right),
               CaptureMask(me, opponent, p, Up), CaptureMask(me, opponent, p, Down),
               CaptureMask(me, opponent, p, RightUp), CaptureMask(me, opponent, p, LeftUp),
               CaptureMask(me, opponent, p, RightDown), CaptureMask(me, opponent, p, LeftDown), q);
    CaptureMaskCells(me, opponent, p, Left, q);
    CaptureMaskCells(me, opponent, p, Right, q);
    CaptureMaskCells(me, opponent, p, Up, q);
    CaptureMaskCells(me, opponent, p, Down, q);
    CaptureMaskCells(me, opponent, p, RightUp, q);
    CaptureMaskCells(me, opponent, p, LeftUp, q);
    CaptureMaskCells(me, opponent, p, RightDown, q);
    CaptureMaskCells(me, opponent, p, LeftDown, q);
    CapturesSome(me, opponent, p, q);
  }

  /** `put` turns over exactly the squares the rules capture. */
  lemma FlipsCells(pos: BoardView, me: BoardView, opponent: BoardView, p: Square, q: Square)
    requires pos == BitMask(p)
    ensures Has(Flips(pos, me, opponent), q) <==> Captures(me, opponent, p, q)
  {
    FlipsIsChain(pos, me, opponent, p);
    CaptureChainCells(me, opponent, p, q);
  }
}
