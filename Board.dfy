/** The bit-board rules engine: a position is two 64-bit words, one bit per square
    (bit `x + 8 * y`), for the two players. The operations are written over plain
    pairs of words (`me`, `opponent`), which serves both the black/white and the
    player/opponent naming of the callers. */
module Board {
  import opened Wrappers
  import opened Util
  import opened Geometry
  import opened Squares

  /** A view of one player's discs: bit `x + 8 * y` is set when the square holds one. */
  type BoardView = bv64

  datatype Board = Board(black: BoardView, white: BoardView)

  /** The opening position. */
  function NewBoard(): Board {
    Board(0x0000000810000000, 0x0000001008000000)
  }

  /** The square at column `x` and row `y`. */
  function SquareAt(x: bv8, y: bv8): (s: Square)
    requires x < 8 && y < 8
    ensures Col(s) as bv8 == x && Row(s) as bv8 == y
  {
    (x + y * 8) as bv6
  }

  /** `get_pos`: the word whose only disc is bit `x + 8 * y`. The `u8` arithmetic does
      not overflow and the shift stays below 64 exactly when `y < 8 && x < 64 - 8 * y`. */
  function GetPos(x: bv8, y: bv8): (r: BoardView)
    requires y < 8 && x < 64 - y * 8
    ensures IsSingleBit(r) && Bit(r, (x + y * 8) as bv6)
  {
    BitMaskIsSingle((x + y * 8) as bv6);
    1 << (x + y * 8)
  }

  /** On the board, `get_pos(x, y)` holds exactly the square in column `x` and row `y`. */
  lemma GetPosSquare(x: bv8, y: bv8, s: Square)
    requires x < 8 && y < 8
    ensures Has(GetPos(x, y), s) <==> Col(s) as bv8 == x && Row(s) as bv8 == y
  {
    var k := SquareAt(x, y);
    assert GetPos(x, y) == BitMask(k);
    CellsMask(k, s);
    SquareAtIff(x, y, s);
  }

  lemma SquareAtIff(x: bv8, y: bv8, s: Square)
    requires x < 8 && y < 8
    ensures s == SquareAt(x, y) <==> Col(s) as bv8 == x && Row(s) as bv8 == y
  {
  }

  // ---------------------------------------------------------------- get_valid_moves

  /** Union of two words, named so that specifications can be combined without
      reasoning about bits. */
  function Union(a: BoardView, b: BoardView): BoardView {
    a | b
  }


  /** Intersection of two words, named like `Union`. */
  function Inter(a: BoardView, b: BoardView): BoardView {
    a & b
  }

  /** The empty squares: those in neither word. */
  function Blank(me: BoardView, opponent: BoardView): BoardView {
    !(me | opponent)
  }

  /** One `tmp |= mask & (tmp shift n)` line of `get_valid_move!`. */
  function GrowLine(t: BoardView, mask: BoardView, d: Dir): BoardView {
    Union(t, Inter(mask, Shift(t, d)))
  }

  /** The accumulator `tmp` of `get_valid_move!` after its first line and `n` of the
      `|=` lines that follow it. */
  function Grow(me: BoardView, mask: BoardView, d: Dir, n: nat): BoardView {
    if n == 0 then Inter(mask, Shift(me, d)) else GrowLine(Grow(me, mask, d, n - 1), mask, d)
  }

  /** One use of `get_valid_move!`: starting from the opponent discs next to `me`
      that the edge mask of `d` keeps, five more lines extend the runs, and the empty
      squares one step further are moves. */
  function MovesToward(me: BoardView, opponent: BoardView, d: Dir): BoardView {
    Inter(Blank(me, opponent), Shift(Grow(me, Inter(opponent, ValidMask(d)), d, 5), d))
  }

  /** The eight uses of `get_valid_move!`, in the program's order. */
  const Directions: seq<Dir> := [Left, Right, Up, Down, RightUp, LeftUp, RightDown, LeftDown]

  /** `valid` after the uses of `get_valid_move!` for the directions `ds`, starting
      from `0`. */
  function MovesAlong(me: BoardView, opponent: BoardView, ds: seq<Dir>): BoardView
    decreases |ds|
  {
    if ds == [] then 0
    else Union(MovesAlong(me, opponent, ds[..|ds| - 1]), MovesToward(me, opponent, ds[|ds| - 1]))
  }

  /** `get_valid_moves`: the squares where `me` may place a disc. */
  function GetValidMoves(me: BoardView, opponent: BoardView): BoardView {
    MovesAlong(me, opponent, Directions)
  }

  // ---------------------------------------------------------------- put

  /** One shift-and-mask step of `put_internal!`: every disc moves one square toward
      `d`, and a disc that would wrap around to the other edge is dropped. */
  function Next(x: BoardView, d: Dir): BoardView {
    Shift(x, d) & PutMask(d)
  }

  /** `x` after `n` steps of `Next`. */
  function Moved(x: BoardView, d: Dir, n: nat): BoardView {
    if n == 0 then x else Next(Moved(x, d, n - 1), d)
  }

  /** The `while` loop of `put_internal!` from the state (`tmp`, `mask`), for at most
      `fuel` rounds: while `mask` is not empty and meets the opponent, add it to `tmp`
      and step it. Returns the final (`tmp`, `mask`). */
  function Walk(tmp: BoardView, mask: BoardView, opponent: BoardView, d: Dir, fuel: nat): (BoardView, BoardView)
    decreases fuel
  {
    if fuel == 0 || !(mask != 0 && mask & opponent != 0) then (tmp, mask)
    else Walk(tmp | mask, Next(mask, d), opponent, d, fuel - 1)
  }

  /** The tail of `put_internal!`: the walked run `w.0` is kept only when the mask the
      walk stopped on, `w.1`, meets the mover's discs. */
  function Settle(w: (BoardView, BoardView), me: BoardView): BoardView {
    if w.1 & me != 0 then w.0 else 0
  }

  /** What one use of `put_internal!` adds to `result` when `me` places `pos`. Seven
      rounds suffice: the mask is empty after eight steps (`MovedEight`). */
  function FlipsDir(pos: BoardView, me: BoardView, opponent: BoardView, d: Dir): BoardView {
    Settle(Walk(0, Moved(pos, d, 1), opponent, d, 7), me)
  }

  /** `result` at the end of `put`: the eight directions in the program's order. */
  function Flips(pos: BoardView, me: BoardView, opponent: BoardView): BoardView {
    var f := Union(FlipsDir(pos, me, opponent, Left), FlipsDir(pos, me, opponent, Right));
    var f := Union(Union(f, FlipsDir(pos, me, opponent, Up)), FlipsDir(pos, me, opponent, Down));
    var f := Union(Union(f, FlipsDir(pos, me, opponent, RightUp)), FlipsDir(pos, me, opponent, LeftUp));
    Union(Union(f, FlipsDir(pos, me, opponent, RightDown)), FlipsDir(pos, me, opponent, LeftDown))
  }

  /** The two words `put` writes back through its `&mut` parameters. */
  datatype Sides = Sides(player: BoardView, opponent: BoardView)

  /** The two words `put` writes back once `flipped` is known: the mover toggles the
      placed square and the flipped discs, the opponent toggles the flipped discs. */
  function Place(pos: BoardView, me: BoardView, opponent: BoardView, flipped: BoardView): Sides {
    Sides(me ^ (pos | flipped), opponent ^ flipped)
  }

  /** The new (`me`, `opponent`) words after `me` places `pos`. */
  function Play(pos: BoardView, me: BoardView, opponent: BoardView): Sides {
    Place(pos, me, opponent, Flips(pos, me, opponent))
  }

  /** Eight steps along any direction leave the board: moving a word eight times
      clears it, whatever it held. This is what ends the loop of `put_internal!`. */
  lemma MovedEight(x: BoardView, d: Dir)
    ensures Moved(x, d, 8) == 0
  {
    var m1, m2, m3, m4 := Moved(x, d, 1), Moved(x, d, 2), Moved(x, d, 3), Moved(x, d, 4);
    var m5, m6, m7, m8 := Moved(x, d, 5), Moved(x, d, 6), Moved(x, d, 7), Moved(x, d, 8);
    assert Moved(x, d, 0) == x;
    Eight(x, d, m1, m2, m3, m4, m5, m6, m7, m8);
  }

  lemma Eight(x: BoardView, d: Dir, m1: BoardView, m2: BoardView, m3: BoardView, m4: BoardView,
              m5: BoardView, m6: BoardView, m7: BoardView, m8: BoardView)
    requires m1 == Next(x, d) && m2 == Next(m1, d) && m3 == Next(m2, d) && m4 == Next(m3, d)
    requires m5 == Next(m4, d) && m6 == Next(m5, d) && m7 == Next(m6, d) && m8 == Next(m7, d)
    ensures m8 == 0
  {
    match d
    case Left => EightLeft(x, d, m1, m2, m3, m4, m5, m6, m7, m8);
    case Right => EightRight(x, d, m1, m2, m3, m4, m5, m6, m7, m8);
    case Up => EightUp(x, d, m1, m2, m3, m4, m5, m6, m7, m8);
    case Down => EightDown(x, d, m1, m2, m3, m4, m5, m6, m7, m8);
    case RightUp => EightRightUp(x, d, m1, m2, m3, m4, m5, m6, m7, m8);
    case LeftUp => EightLeftUp(x, d, m1, m2, m3, m4, m5, m6, m7, m8);
    case RightDown => EightRightDown(x, d, m1, m2, m3, m4, m5, m6, m7, m8);
    case LeftDown => EightLeftDown(x, d, m1, m2, m3, m4, m5, m6, m7, m8);
  }

  lemma EightLeft(x: BoardView, d: Dir, m1: BoardView, m2: BoardView, m3: BoardView, m4: BoardView,
                  m5: BoardView, m6: BoardView, m7: BoardView, m8: BoardView)
    requires d == Left
    requires m1 == Next(x, d) && m2 == Next(m1, d) && m3 == Next(m2, d) && m4 == Next(m3, d)
    requires m5 == Next(m4, d) && m6 == Next(m5, d) && m7 == Next(m6, d) && m8 == Next(m7, d)
    ensures m8 == 0
  {
  }

  lemma EightRight(x: BoardView, d: Dir, m1: BoardView, m2: BoardView, m3: BoardView, m4: BoardView,
                   m5: BoardView, m6: BoardView, m7: BoardView, m8: BoardView)
    requires d == Right
    requires m1 == Next(x, d) && m2 == Next(m1, d) && m3 == Next(m2, d) && m4 == Next(m3, d)
    requires m5 == Next(m4, d) && m6 == Next(m5, d) && m7 == Next(m6, d) && m8 == Next(m7, d)
    ensures m8 == 0
  {
  }

  lemma EightUp(x: BoardView, d: Dir, m1: BoardView, m2: BoardView, m3: BoardView, m4: BoardView,
                m5: BoardView, m6: BoardView, m7: BoardView, m8: BoardView)
    requires d == Up
    requires m1 == Next(x, d) && m2 == Next(m1, d) && m3 == Next(m2, d) && m4 == Next(m3, d)
    requires m5 == Next(m4, d) && m6 == Next(m5, d) && m7 == Next(m6, d) && m8 == Next(m7, d)
    ensures m8 == 0
  {
  }

  lemma EightDown(x: BoardView, d: Dir, m1: BoardView, m2: BoardView, m3: BoardView, m4: BoardView,
                  m5: BoardView, m6: BoardView, m7: BoardView, m8: BoardView)
    requires d == Down
    requires m1 == Next(x, d) && m2 == Next(m1, d) && m3 == Next(m2, d) && m4 == Next(m3, d)
    requires m5 == Next(m4, d) && m6 == Next(m5, d) && m7 == Next(m6, d) && m8 == Next(m7, d)
    ensures m8 == 0
  {
  }

  lemma EightRightUp(x: BoardView, d: Dir, m1: BoardView, m2: BoardView, m3: BoardView, m4: BoardView,
                     m5: BoardView, m6: BoardView, m7: BoardView, m8: BoardView)
    requires d == RightUp
    requires m1 == Next(x, d) && m2 == Next(m1, d) && m3 == Next(m2, d) && m4 == Next(m3, d)
    requires m5 == Next(m4, d) && m6 == Next(m5, d) && m7 == Next(m6, d) && m8 == Next(m7, d)
    ensures m8 == 0
  {
  }

  lemma EightLeftUp(x: BoardView, d: Dir, m1: BoardView, m2: BoardView, m3: BoardView, m4: BoardView,
                    m5: BoardView, m6: BoardView, m7: BoardView, m8: BoardView)
    requires d == LeftUp
    requires m1 == Next(x, d) && m2 == Next(m1, d) && m3 == Next(m2, d) && m4 == Next(m3, d)
    requires m5 == Next(m4, d) && m6 == Next(m5, d) && m7 == Next(m6, d) && m8 == Next(m7, d)
    ensures m8 == 0
  {
  }

  lemma EightRightDown(x: BoardView, d: Dir, m1: BoardView, m2: BoardView, m3: BoardView, m4: BoardView,
                       m5: BoardView, m6: BoardView, m7: BoardView, m8: BoardView)
    requires d == RightDown
    requires m1 == Next(x, d) && m2 == Next(m1, d) && m3 == Next(m2, d) && m4 == Next(m3, d)
    requires m5 == Next(m4, d) && m6 == Next(m5, d) && m7 == Next(m6, d) && m8 == Next(m7, d)
    ensures m8 == 0
  {
  }

  lemma EightLeftDown(x: BoardView, d: Dir, m1: BoardView, m2: BoardView, m3: BoardView, m4: BoardView,
                      m5: BoardView, m6: BoardView, m7: BoardView, m8: BoardView)
    requires d == LeftDown
    requires m1 == Next(x, d) && m2 == Next(m1, d) && m3 == Next(m2, d) && m4 == Next(m3, d)
    requires m5 == Next(m4, d) && m6 == Next(m5, d) && m7 == Next(m6, d) && m8 == Next(m7, d)
    ensures m8 == 0
  {
  }

  /** The state of the loop of `CaptureDir` after `8 - fuel` steps: `mask` is that many
      steps of `pos`, and finishing the walk from here gives the whole walk. */
  ghost predicate Walking(pos: BoardView, opponent: BoardView, d: Dir, tmp: BoardView, mask: BoardView,
                          fuel: nat, walk: (BoardView, BoardView))
  {
    fuel <= 7 && mask == Moved(pos, d, 8 - fuel) && Walk(tmp, mask, opponent, d, fuel) == walk
  }

  lemma WalkingStart(pos: BoardView, opponent: BoardView, d: Dir, mask: BoardView)
    requires mask == Next(pos, d)
    ensures Walking(pos, opponent, d, 0, mask, 7, Walk(0, Moved(pos, d, 1), opponent, d, 7))
  {
    assert Moved(pos, d, 0) == pos;
  }

  lemma WalkingStep(pos: BoardView, opponent: BoardView, d: Dir, tmp: BoardView, mask: BoardView,
                    fuel: nat, walk: (BoardView, BoardView))
    requires Walking(pos, opponent, d, tmp, mask, fuel, walk)
    requires mask != 0 && mask & opponent != 0
    ensures fuel > 0 && Walking(pos, opponent, d, tmp | mask, Next(mask, d), fuel - 1, walk)
  {
    FuelLeft(pos, d, mask, fuel);
    StepFacts(pos, opponent, d, tmp, mask, fuel, walk, tmp | mask, Next(mask, d), 8 - fuel);
  }

  lemma StepFacts(pos: BoardView, opponent: BoardView, d: Dir, tmp: BoardView, mask: BoardView,
                  fuel: nat, walk: (BoardView, BoardView), tmp': BoardView, mask': BoardView, n: nat)
    requires 0 < fuel <= 7 && n == 8 - fuel && mask == Moved(pos, d, n)
    requires Walk(tmp, mask, opponent, d, fuel) == walk
    requires mask != 0 && mask & opponent != 0
    requires tmp' == tmp | mask && mask' == Next(mask, d)
    ensures mask' == Moved(pos, d, n + 1) && Walk(tmp', mask', opponent, d, fuel - 1) == walk
  {
    MovedNext(pos, d, n, mask, mask');
    WalkUnfold(tmp, mask, opponent, d, fuel, tmp', mask');
  }

  /** A mask that still holds a disc has been stepped fewer than eight times. */
  lemma FuelLeft(pos: BoardView, d: Dir, mask: BoardView, fuel: nat)
    requires fuel <= 7 && mask == Moved(pos, d, 8 - fuel)
    requires mask != 0
    ensures fuel > 0
  {
    if fuel == 0 {
      MovedEight(pos, d);
      assert false;
    }
  }

  lemma MovedNext(pos: BoardView, d: Dir, n: nat, mask: BoardView, mask': BoardView)
    requires mask == Moved(pos, d, n) && mask' == Next(mask, d)
    ensures mask' == Moved(pos, d, n + 1)
  {
  }

  lemma WalkUnfold(tmp: BoardView, mask: BoardView, opponent: BoardView, d: Dir, fuel: nat,
                   tmp': BoardView, mask': BoardView)
    requires fuel > 0 && mask != 0 && mask & opponent != 0
    requires tmp' == tmp | mask && mask' == Next(mask, d)
    ensures Walk(tmp, mask, opponent, d, fuel) == Walk(tmp', mask', opponent, d, fuel - 1)
  {
  }

  lemma WalkingEnd(pos: BoardView, opponent: BoardView, d: Dir, tmp: BoardView, mask: BoardView,
                   fuel: nat, walk: (BoardView, BoardView))
    requires Walking(pos, opponent, d, tmp, mask, fuel, walk)
    requires !(mask != 0 && mask & opponent != 0)
    ensures walk == (tmp, mask)
  {
  }

  lemma CaptureDone(pos: BoardView, me: BoardView, opponent: BoardView, d: Dir, walk: (BoardView, BoardView),
                    tmp: BoardView, mask: BoardView, result: BoardView, newResult: BoardView)
    requires walk == Walk(0, Moved(pos, d, 1), opponent, d, 7) && walk == (tmp, mask)
    requires newResult == if mask & me != 0 then result | tmp else result
    ensures newResult == Union(result, FlipsDir(pos, me, opponent, d))
  {
    FlipsDirIs(pos, me, opponent, d, walk);
    SettleOr(walk, tmp, mask, me, result, newResult);
  }

  lemma FlipsDirIs(pos: BoardView, me: BoardView, opponent: BoardView, d: Dir, walk: (BoardView, BoardView))
    requires walk == Walk(0, Moved(pos, d, 1), opponent, d, 7)
    ensures FlipsDir(pos, me, opponent, d) == Settle(walk, me)
  {
  }

  lemma SettleOr(walk: (BoardView, BoardView), tmp: BoardView, mask: BoardView, me: BoardView,
                 result: BoardView, newResult: BoardView)
    requires walk == (tmp, mask)
    requires newResult == if mask & me != 0 then result | tmp else result
    ensures newResult == result | Settle(walk, me)
  {
    if mask & me != 0 {
      assert Settle(walk, me) == tmp;
    } else {
      assert Settle(walk, me) == 0;
      OrZero(result);
    }
  }

  lemma ZeroUnion(x: BoardView)
    ensures Union(0, x) == x
  {
  }

  lemma PlayIs(pos: BoardView, me: BoardView, opponent: BoardView, flipped: BoardView)
    requires flipped == Flips(pos, me, opponent)
    ensures Play(pos, me, opponent) == Place(pos, me, opponent, flipped)
  {
  }

  lemma PlaceIs(pos: BoardView, me: BoardView, opponent: BoardView, flipped: BoardView,
                me': BoardView, opponent': BoardView)
    requires me' == me ^ (pos | flipped) && opponent' == opponent ^ flipped
    ensures Sides(me', opponent') == Place(pos, me, opponent, flipped)
  {
  }

  /** The `while` loop of one use of `put_internal!`: from the neighbour of `pos` along
      `d`, gather the masks that meet the opponent into `tmp` and stop on the first
      that does not. */
  method WalkDir(pos: BoardView, opponent: BoardView, d: Dir) returns (tmp: BoardView, mask: BoardView)
    ensures (tmp, mask) == Walk(0, Moved(pos, d, 1), opponent, d, 7)
  {
    ghost var walk := Walk(0, Moved(pos, d, 1), opponent, d, 7);
    ghost var fuel: nat := 7;
    tmp := 0;
    mask := Next(pos, d);
    WalkingStart(pos, opponent, d, mask);
    while mask != 0 && mask & opponent != 0
      invariant Walking(pos, opponent, d, tmp, mask, fuel, walk)
      decreases fuel
    {
      WalkingStep(pos, opponent, d, tmp, mask, fuel, walk);
      tmp, mask, fuel := tmp | mask, Next(mask, d), fuel - 1;
    }
    WalkingEnd(pos, opponent, d, tmp, mask, fuel, walk);
  }

  /** One use of `put_internal!`: walk from `pos` along `d` while the mask meets the
      opponent, and add the walked run to `result` if the mask it stopped on meets
      the mover. */
  method CaptureDir(pos: BoardView, player: BoardView, opponent: BoardView, d: Dir, result: BoardView)
    returns (newResult: BoardView)
    ensures newResult == Union(result, FlipsDir(pos, player, opponent, d))
  {
    var tmp, mask := WalkDir(pos, opponent, d);
    if mask & player != 0 {
      newResult := result | tmp;
    } else {
      newResult := result;
    }
    CaptureDone(pos, player, opponent, d, (tmp, mask), tmp, mask, result, newResult);
  }

  /** `put`: `player` places the disc `pos`, and every flanked run of `opponent` discs
      is turned over. The two words written back through `&mut` are returned. */
  method Put(pos: BoardView, player: BoardView, opponent: BoardView)
    returns (newPlayer: BoardView, newOpponent: BoardView)
    ensures Sides(newPlayer, newOpponent) == Play(pos, player, opponent)
  {
    var result: BoardView := 0;
    ZeroUnion(FlipsDir(pos, player, opponent, Left));
    result := CaptureDir(pos, player, opponent, Left, result);
    result := CaptureDir(pos, player, opponent, Right, result);
    result := CaptureDir(pos, player, opponent, Up, result);
    result := CaptureDir(pos, player, opponent, Down, result);
    result := CaptureDir(pos, player, opponent, RightUp, result);
    result := CaptureDir(pos, player, opponent, LeftUp, result);
    result := CaptureDir(pos, player, opponent, RightDown, result);
    result := CaptureDir(pos, player, opponent, LeftDown, result);
    newPlayer := player ^ (pos | result);
    newOpponent := opponent ^ result;
    PlayIs(pos, player, opponent, result);
    PlaceIs(pos, player, opponent, result, newPlayer, newOpponent);
  }

  // ---------------------------------------------------------------- to_string_as_board

  /** The character of one square: 'B' when `black` meets `pos`, else 'W' when `white`
      meets it, else a space. */
  function Glyph(black: BoardView, white: BoardView, pos: BoardView): char {
    if black & pos != 0 then 'B' else if white & pos != 0 then 'W' else ' '
  }

  /** The character drawn for column `x`, row `y`. */
  function CellText(b: Board, x: nat, y: nat): char
    requires x < 8 && y < 8
  {
    Glyph(b.black, b.white, GetPos(x as bv8, y as bv8))
  }

  /** The first `n` characters of row `y`. */
  function RowText(b: Board, y: nat, n: nat): (r: string)
    requires y < 8 && n <= 8
    ensures |r| == n
  {
    if n == 0 then [] else RowText(b, y, n - 1) + [CellText(b, n - 1, y)]
  }

  /** The first `n` rows, each but the last of the board followed by a newline. */
  function RowsText(b: Board, n: nat): (r: string)
    requires n <= 8
    ensures |r| == if n == 8 then 71 else 9 * n
  {
    if n == 0 then []
    else RowsText(b, n - 1) + RowText(b, n - 1, 8) + (if n - 1 != 7 then "\n" else "")
  }

  /** The whole rendering. */
  function BoardText(b: Board): string {
    RowsText(b, 8)
  }

  /** Row `y` so far holds the characters of columns `0 .. n - 1`, in order. */
  lemma {:induction false} RowTextAt(b: Board, y: nat, n: nat)
    requires y < 8 && n <= 8
    ensures |RowText(b, y, n)| == n
    ensures forall x :: 0 <= x < n ==> RowText(b, y, n)[x] == CellText(b, x, y)
  {
    if n > 0 {
      RowTextAt(b, y, n - 1);
    }
  }

  /** The layout of the rendering: nine characters per row, the characters of row
      `y` from `9 * y` on, and a newline after every row but the last. */
  lemma {:induction false} RowsTextAt(b: Board, n: nat)
    requires n <= 8
    ensures forall y, x :: 0 <= y < n && 0 <= x < 8 ==> RowsText(b, n)[9 * y + x] == RowText(b, y, 8)[x]
    ensures forall y :: 0 <= y < n && y != 7 ==> RowsText(b, n)[9 * y + 8] == '\n'
  {
    if n > 0 {
      RowsTextAt(b, n - 1);
      var pre, row, nl := RowsText(b, n - 1), RowText(b, n - 1, 8), if n - 1 != 7 then "\n" else "";
      assert RowsText(b, n) == pre + row + nl;
      forall y, x | 0 <= y < n && 0 <= x < 8
        ensures RowsText(b, n)[9 * y + x] == RowText(b, y, 8)[x]
      {
        if y < n - 1 {
          AppendAt(pre, row + nl, 9 * y + x);
        } else {
          AppendAt(pre + row, nl, 9 * y + x);
          AppendAt(pre, row, 9 * y + x);
        }
      }
      forall y | 0 <= y < n && y != 7
        ensures RowsText(b, n)[9 * y + 8] == '\n'
      {
        if y < n - 1 {
          AppendAt(pre, row + nl, 9 * y + 8);
        } else {
          AppendAt(pre + row, nl, 9 * y + 8);
        }
      }
    }
  }

  /** The rendering is 71 characters: the glyph of column `x`, row `y` at
      `9 * y + x`, and a newline at `9 * y + 8` after each of the first seven rows. */
  lemma BoardTextLayout(b: Board)
    ensures |BoardText(b)| == 71
    ensures forall y, x :: 0 <= y < 8 && 0 <= x < 8 ==> BoardText(b)[9 * y + x] == CellText(b, x, y)
    ensures forall y :: 0 <= y < 7 ==> BoardText(b)[9 * y + 8] == '\n'
  {
    RowsTextAt(b, 8);
    forall y, x | 0 <= y < 8 && 0 <= x < 8
      ensures BoardText(b)[9 * y + x] == CellText(b, x, y)
    {
      RowCell(b, y, x);
    }
  }

  lemma RowCell(b: Board, y: nat, x: nat)
    requires y < 8 && x < 8
    ensures RowText(b, y, 8)[x] == CellText(b, x, y)
  {
    RowTextAt(b, y, 8);
  }

  /** An index into a concatenation lands in one of its two parts. */
  lemma AppendAt(u: string, v: string, i: nat)
    requires i < |u| + |v|
    ensures (u + v)[i] == if i < |u| then u[i] else v[i - |u|]
  {
  }

  lemma RowTextStep(b: Board, y: nat, x: nat, pre: string, board: string)
    requires y < 8 && x < 8
    requires board == pre + RowText(b, y, x)
    ensures board + [CellText(b, x, y)] == pre + RowText(b, y, x + 1)
  {
  }

  lemma RowsTextStep(b: Board, y: nat, board: string)
    requires y < 8
    requires board == RowsText(b, y) + RowText(b, y, 8)
    ensures (if y != 7 then board + ['\n'] else board) == RowsText(b, y + 1)
  {
  }

  /** The loop's test of one cell, on the word `get_pos` gives. */
  lemma CellGlyph(b: Board, x: nat, y: nat, pos: BoardView)
    requires x < 8 && y < 8 && pos == GetPos(x as bv8, y as bv8)
    ensures CellText(b, x, y) == if b.black & pos != 0 then 'B' else if b.white & pos != 0 then 'W' else ' '
  {
  }

  /** The cell of column `x`, row `y` shows which colour holds that square: `B` for
      black, else `W` for white, else a space. */
  lemma GlyphAt(b: Board, x: nat, y: nat)
    requires x < 8 && y < 8
    ensures CellText(b, x, y) ==
      if Has(b.black, SquareAt(x as bv8, y as bv8)) then 'B'
      else if Has(b.white, SquareAt(x as bv8, y as bv8)) then 'W'
      else ' '
  {
    PosIsMask(x as bv8, y as bv8);
    GlyphSquare(b.black, b.white, GetPos(x as bv8, y as bv8), SquareAt(x as bv8, y as bv8));
  }

  lemma PosIsMask(x: bv8, y: bv8)
    requires x < 8 && y < 8
    ensures GetPos(x, y) == BitMask(SquareAt(x, y))
  {
  }

  /** The glyph of a one-square word names the colour holding that square. */
  lemma GlyphSquare(black: BoardView, white: BoardView, pos: BoardView, k: Square)
    requires pos == BitMask(k)
    ensures Glyph(black, white, pos) == if Has(black, k) then 'B' else if Has(white, k) then 'W' else ' '
  {
    CellsMaskMeets(k, black);
    CellsMaskMeets(k, white);
  }

  /** `to_string_as_board`: the rows `y = 0 .. 7`, each the characters of columns
      `x = 0 .. 7`, joined by newlines. */
  method ToStringAsBoard(b: Board) returns (board: string)
    ensures board == BoardText(b)
  {
    board := "";
    var y: nat := 0;
    while y < 8
      invariant y <= 8
      invariant board == RowsText(b, y)
    {
      var x: nat := 0;
      while x < 8
        invariant x <= 8
        invariant board == RowsText(b, y) + RowText(b, y, x)
      {
        RowTextStep(b, y, x, RowsText(b, y), board);
        var pos := GetPos(x as bv8, y as bv8);
        CellGlyph(b, x, y, pos);
        if b.black & pos != 0 {
          board := board + ['B'];
        } else if b.white & pos != 0 {
          board := board + ['W'];
        } else {
          board := board + [' '];
        }
        x := x + 1;
      }
      RowsTextStep(b, y, board);
      if y != 7 {
        board := board + ['\n'];
      }
      y := y + 1;
    }
  }
}
