/** The scenarios of the board's unit tests, worked through the model. */
module Examples {
  import opened Util
  import opened Geometry
  import opened Board

  /** The opening: black's four legal moves are the squares (3, 2), (2, 3), (5, 4)
      and (4, 5). */
  lemma OpeningMoves()
    ensures GetValidMoves(NewBoard().black, NewBoard().white) ==
      GetPos(3, 2) | GetPos(2, 3) | GetPos(5, 4) | GetPos(4, 5)
  {
    forall d: Dir ensures MovesToward(NewBoard().black, NewBoard().white, d) == OpeningToward(d) {
      TowardOpening(d);
    }
    OpeningVia(NewBoard().black, NewBoard().white);
    OpeningSquares();
  }

  lemma OpeningVia(me: BoardView, opponent: BoardView)
    requires forall d: Dir :: MovesToward(me, opponent, d) == OpeningToward(d)
    ensures GetValidMoves(me, opponent) == 0x102004080000
  {
    OpeningAlong(me, opponent, 8);
    assert Directions[..8] == Directions;
    OpeningPrefixValue();
  }

  lemma OpeningPrefixValue()
    ensures OpeningPrefix(8) == 0x102004080000
  {
  }

  lemma OpeningSquares()
    ensures GetPos(3, 2) | GetPos(2, 3) | GetPos(5, 4) | GetPos(4, 5) == 0x102004080000
  {
  }

  /** The opening's moves in the first `k` directions of the program's order. */
  function OpeningPrefix(k: nat): BoardView
    requires k <= 8
  {
    if k == 0 then 0 else Union(OpeningPrefix(k - 1), OpeningToward(Directions[k - 1]))
  }

  function OpeningToward(d: Dir): BoardView {
    match d
    case Left => 0x2000000000
    case Right => 0x4000000
    case Up => 0x100000000000
    case Down => 0x80000
    case _ => 0
  }

  /** Words whose moves in each direction are the opening's have the opening's
      moves in the first `k` directions. */
  lemma {:induction false} OpeningAlong(me: BoardView, opponent: BoardView, k: nat)
    requires k <= 8
    requires forall d: Dir :: MovesToward(me, opponent, d) == OpeningToward(d)
    ensures MovesAlong(me, opponent, Directions[..k]) == OpeningPrefix(k)
  {
    if k == 0 {
      assert Directions[..0] == [];
    } else {
      OpeningAlong(me, opponent, k - 1);
      AlongStep(me, opponent, k);
    }
  }

  lemma AlongStep(me: BoardView, opponent: BoardView, k: nat)
    requires 0 < k <= 8
    ensures MovesAlong(me, opponent, Directions[..k]) ==
      Union(MovesAlong(me, opponent, Directions[..k - 1]), MovesToward(me, opponent, Directions[k - 1]))
  {
    assert Directions[..k][..k - 1] == Directions[..k - 1];
  }

  /** Black's moves in the opening, direction by direction. */
  lemma TowardOpening(d: Dir)
    ensures MovesToward(NewBoard().black, NewBoard().white, d) == OpeningToward(d)
  {
    match d
    case Left => OpeningLeft();
    case Right => OpeningRight();
    case Up => OpeningUp();
    case Down => OpeningDown();
    case RightUp => OpeningRightUp();
    case LeftUp => OpeningLeftUp();
    case RightDown => OpeningRightDown();
    case LeftDown => OpeningLeftDown();
  }

  /** Once a step adds nothing, the run stays as it is. */
  lemma {:induction false} GrowFixed(me: BoardView, mask: BoardView, d: Dir, n: nat)
    requires GrowLine(Grow(me, mask, d, 0), mask, d) == Grow(me, mask, d, 0)
    ensures Grow(me, mask, d, n) == Grow(me, mask, d, 0)
  {
    if n > 0 {
      GrowFixed(me, mask, d, n - 1);
    }
  }

  lemma OpeningLeft()
    ensures MovesToward(NewBoard().black, NewBoard().white, Left) == 0x2000000000
  {
    var b, w := NewBoard().black, NewBoard().white;
    var mask := Inter(w, ValidMask(Left));
    assert Grow(b, mask, Left, 0) == 0x1000000000;
    assert GrowLine(0x1000000000, mask, Left) == 0x1000000000;
    GrowFixed(b, mask, Left, 5);
  }

  lemma OpeningRight()
    ensures MovesToward(NewBoard().black, NewBoard().white, Right) == 0x4000000
  {
    var b, w := NewBoard().black, NewBoard().white;
    var mask := Inter(w, ValidMask(Right));
    assert Grow(b, mask, Right, 0) == 0x8000000;
    assert GrowLine(0x8000000, mask, Right) == 0x8000000;
    GrowFixed(b, mask, Right, 5);
  }

  lemma OpeningUp()
    ensures MovesToward(NewBoard().black, NewBoard().white, Up) == 0x100000000000
  {
    var b, w := NewBoard().black, NewBoard().white;
    var mask := Inter(w, ValidMask(Up));
    assert Grow(b, mask, Up, 0) == 0x1000000000;
    assert GrowLine(0x1000000000, mask, Up) == 0x1000000000;
    GrowFixed(b, mask, Up, 5);
  }

  lemma OpeningDown()
    ensures MovesToward(NewBoard().black, NewBoard().white, Down) == 0x80000
  {
    var b, w := NewBoard().black, NewBoard().white;
    var mask := Inter(w, ValidMask(Down));
    assert Grow(b, mask, Down, 0) == 0x8000000;
    assert GrowLine(0x8000000, mask, Down) == 0x8000000;
    GrowFixed(b, mask, Down, 5);
  }

  lemma OpeningRightUp()
    ensures MovesToward(NewBoard().black, NewBoard().white, RightUp) == 0
  {
    var b, w := NewBoard().black, NewBoard().white;
    var mask := Inter(w, ValidMask(RightUp));
    assert Grow(b, mask, RightUp, 0) == 0x0;
    assert GrowLine(0x0, mask, RightUp) == 0x0;
    GrowFixed(b, mask, RightUp, 5);
  }

  lemma OpeningLeftUp()
    ensures MovesToward(NewBoard().black, NewBoard().white, LeftUp) == 0
  {
    var b, w := NewBoard().black, NewBoard().white;
    var mask := Inter(w, ValidMask(LeftUp));
    assert Grow(b, mask, LeftUp, 0) == 0x0;
    assert GrowLine(0x0, mask, LeftUp) == 0x0;
    GrowFixed(b, mask, LeftUp, 5);
  }

  lemma OpeningRightDown()
    ensures MovesToward(NewBoard().black, NewBoard().white, RightDown) == 0
  {
    var b, w := NewBoard().black, NewBoard().white;
    var mask := Inter(w, ValidMask(RightDown));
    assert Grow(b, mask, RightDown, 0) == 0x0;
    assert GrowLine(0x0, mask, RightDown) == 0x0;
    GrowFixed(b, mask, RightDown, 5);
  }

  lemma OpeningLeftDown()
    ensures MovesToward(NewBoard().black, NewBoard().white, LeftDown) == 0
  {
    var b, w := NewBoard().black, NewBoard().white;
    var mask := Inter(w, ValidMask(LeftDown));
    assert Grow(b, mask, LeftDown, 0) == 0x0;
    assert GrowLine(0x0, mask, LeftDown) == 0x0;
    GrowFixed(b, mask, LeftDown, 5);
  }

  // ---------------------------------------------------------------- renderings

  /** Rows separated by newlines, as the unit tests write the expected rendering. */
  function Joined(rows: seq<string>, n: nat): string
    requires n <= 8 <= |rows|
  {
    if n == 0 then [] else Joined(rows, n - 1) + rows[n - 1] + (if n - 1 != 7 then "\n" else "")
  }

  lemma {:induction false} RowsJoined(b: Board, rows: seq<string>, n: nat)
    requires n <= 8 == |rows|
    requires forall y :: 0 <= y < 8 ==> RowText(b, y, 8) == rows[y]
    ensures RowsText(b, n) == Joined(rows, n)
  {
    if n > 0 {
      RowsJoined(b, rows, n - 1);
    }
  }

  /** A board whose eight rows render as `rows` renders as the rows joined. */
  lemma TextOfRows(b: Board, rows: seq<string>)
    requires |rows| == 8
    requires RowText(b, 0, 8) == rows[0] && RowText(b, 1, 8) == rows[1] && RowText(b, 2, 8) == rows[2]
    requires RowText(b, 3, 8) == rows[3] && RowText(b, 4, 8) == rows[4] && RowText(b, 5, 8) == rows[5]
    requires RowText(b, 6, 8) == rows[6] && RowText(b, 7, 8) == rows[7]
    ensures BoardText(b) == Joined(rows, 8)
  {
    forall y | 0 <= y < 8
      ensures RowText(b, y, 8) == rows[y]
    {
      if y < 4 {
        assert y == 0 || y == 1 || y == 2 || y == 3;
      } else {
        assert y == 4 || y == 5 || y == 6 || y == 7;
      }
    }
    RowsJoined(b, rows, 8);
  }

  const OpeningRows: seq<string> := ["        ", "        ", "        ", "   WB   ", "   BW   ", "        ", "        ", "        "]

  lemma OpeningRow01()
    ensures RowText(Board(0x810000000, 0x1008000000), 0, 8) == OpeningRows[0]
    ensures RowText(Board(0x810000000, 0x1008000000), 1, 8) == OpeningRows[1]
  {
  }

  lemma OpeningRow2()
    ensures RowText(Board(0x810000000, 0x1008000000), 2, 8) == OpeningRows[2]
  {
  }

  lemma OpeningRow3()
    ensures RowText(Board(0x810000000, 0x1008000000), 3, 8) == OpeningRows[3]
  {
  }

  lemma OpeningRow4()
    ensures RowText(Board(0x810000000, 0x1008000000), 4, 8) == OpeningRows[4]
  {
  }

  lemma OpeningRow5()
    ensures RowText(Board(0x810000000, 0x1008000000), 5, 8) == OpeningRows[5]
  {
  }

  lemma OpeningRow67()
    ensures RowText(Board(0x810000000, 0x1008000000), 6, 8) == OpeningRows[6]
    ensures RowText(Board(0x810000000, 0x1008000000), 7, 8) == OpeningRows[7]
  {
  }

  lemma OpeningText()
    ensures BoardText(Board(0x810000000, 0x1008000000)) == Joined(OpeningRows, 8)
  {
    OpeningRow01();
    OpeningRow2();
    OpeningRow3();
    OpeningRow4();
    OpeningRow5();
    OpeningRow67();
    TextOfRows(Board(0x810000000, 0x1008000000), OpeningRows);
  }

  const AfterFirstRows: seq<string> := ["        ", "        ", "        ", "   WB   ", "   BB   ", "    B   ", "        ", "        "]

  lemma AfterFirstRow01()
    ensures RowText(Board(0x101810000000, 0x8000000), 0, 8) == AfterFirstRows[0]
    ensures RowText(Board(0x101810000000, 0x8000000), 1, 8) == AfterFirstRows[1]
  {
  }

  lemma AfterFirstRow2()
    ensures RowText(Board(0x101810000000, 0x8000000), 2, 8) == AfterFirstRows[2]
  {
  }

  lemma AfterFirstRow3()
    ensures RowText(Board(0x101810000000, 0x8000000), 3, 8) == AfterFirstRows[3]
  {
  }

  lemma AfterFirstRow4()
    ensures RowText(Board(0x101810000000, 0x8000000), 4, 8) == AfterFirstRows[4]
  {
  }

  lemma AfterFirstRow5()
    ensures RowText(Board(0x101810000000, 0x8000000), 5, 8) == AfterFirstRows[5]
  {
  }

  lemma AfterFirstRow67()
    ensures RowText(Board(0x101810000000, 0x8000000), 6, 8) == AfterFirstRows[6]
    ensures RowText(Board(0x101810000000, 0x8000000), 7, 8) == AfterFirstRows[7]
  {
  }

  lemma AfterFirstText()
    ensures BoardText(Board(0x101810000000, 0x8000000)) == Joined(AfterFirstRows, 8)
  {
    AfterFirstRow01();
    AfterFirstRow2();
    AfterFirstRow3();
    AfterFirstRow4();
    AfterFirstRow5();
    AfterFirstRow67();
    TextOfRows(Board(0x101810000000, 0x8000000), AfterFirstRows);
  }

  const AfterSecondRows: seq<string> := ["        ", "        ", "        ", "   WB   ", "   WB   ", "   WB   ", "        ", "        "]

  lemma AfterSecondRow01()
    ensures RowText(Board(0x101010000000, 0x80808000000), 0, 8) == AfterSecondRows[0]
    ensures RowText(Board(0x101010000000, 0x80808000000), 1, 8) == AfterSecondRows[1]
  {
  }

  lemma AfterSecondRow2()
    ensures RowText(Board(0x101010000000, 0x80808000000), 2, 8) == AfterSecondRows[2]
  {
  }

  lemma AfterSecondRow3()
    ensures RowText(Board(0x101010000000, 0x80808000000), 3, 8) == AfterSecondRows[3]
  {
  }

  lemma AfterSecondRow4()
    ensures RowText(Board(0x101010000000, 0x80808000000), 4, 8) == AfterSecondRows[4]
  {
  }

  lemma AfterSecondRow5()
    ensures RowText(Board(0x101010000000, 0x80808000000), 5, 8) == AfterSecondRows[5]
  {
  }

  lemma AfterSecondRow67()
    ensures RowText(Board(0x101010000000, 0x80808000000), 6, 8) == AfterSecondRows[6]
    ensures RowText(Board(0x101010000000, 0x80808000000), 7, 8) == AfterSecondRows[7]
  {
  }

  lemma AfterSecondText()
    ensures BoardText(Board(0x101010000000, 0x80808000000)) == Joined(AfterSecondRows, 8)
  {
    AfterSecondRow01();
    AfterSecondRow2();
    AfterSecondRow3();
    AfterSecondRow4();
    AfterSecondRow5();
    AfterSecondRow67();
    TextOfRows(Board(0x101010000000, 0x80808000000), AfterSecondRows);
  }

  const AfterThirdRows: seq<string> := ["        ", "        ", "        ", "  BBB   ", "   BB   ", "   WB   ", "        ", "        "]

  lemma AfterThirdRow01()
    ensures RowText(Board(0x10181c000000, 0x80000000000), 0, 8) == AfterThirdRows[0]
    ensures RowText(Board(0x10181c000000, 0x80000000000), 1, 8) == AfterThirdRows[1]
  {
  }

  lemma AfterThirdRow2()
    ensures RowText(Board(0x10181c000000, 0x80000000000), 2, 8) == AfterThirdRows[2]
  {
  }

  lemma AfterThirdRow3()
    ensures RowText(Board(0x10181c000000, 0x80000000000), 3, 8) == AfterThirdRows[3]
  {
  }

  lemma AfterThirdRow4()
    ensures RowText(Board(0x10181c000000, 0x80000000000), 4, 8) == AfterThirdRows[4]
  {
  }

  lemma AfterThirdRow5()
    ensures RowText(Board(0x10181c000000, 0x80000000000), 5, 8) == AfterThirdRows[5]
  {
  }

  lemma AfterThirdRow67()
    ensures RowText(Board(0x10181c000000, 0x80000000000), 6, 8) == AfterThirdRows[6]
    ensures RowText(Board(0x10181c000000, 0x80000000000), 7, 8) == AfterThirdRows[7]
  {
  }

  lemma AfterThirdText()
    ensures BoardText(Board(0x10181c000000, 0x80000000000)) == Joined(AfterThirdRows, 8)
  {
    AfterThirdRow01();
    AfterThirdRow2();
    AfterThirdRow3();
    AfterThirdRow4();
    AfterThirdRow5();
    AfterThirdRow67();
    TextOfRows(Board(0x10181c000000, 0x80000000000), AfterThirdRows);
  }

  // ---------------------------------------------------------------- the opening and test_put

  /** The opening: the colours are apart and each has two discs, drawn as "   WB   "
      and "   BW   " on rows 3 and 4. */
  lemma NewBoardLayout()
    ensures NewBoard().black & NewBoard().white == 0
    ensures PopCnt64(NewBoard().black) == 2 && PopCnt64(NewBoard().white) == 2
    ensures BoardText(NewBoard()) == Joined(OpeningRows, 8)
  {
    OpeningText();
    TwoDiscs(0x10000000, 0x800000000, NewBoard().black);
    TwoDiscs(0x8000000, 0x1000000000, NewBoard().white);
  }

  lemma TwoDiscs(a: BoardView, b: BoardView, x: BoardView)
    requires IsSingleBit(a) && IsSingleBit(b) && a & b == 0 && x == a | b
    ensures PopCnt64(x) == 2
  {
    PopCntOfSingle(a);
    PopCntOfSingle(b);
    PopCntUnion(a, b);
  }

  lemma MoveSquares()
    ensures GetPos(4, 5) == 0x100000000000 && GetPos(3, 5) == 0x80000000000 && GetPos(2, 3) == 0x4000000
  {
  }

  lemma FirstFlips()
    ensures Flips(0x100000000000, 0x810000000, 0x1008000000) == 0x1000000000
  {
  }

  lemma SecondFlips()
    ensures Flips(0x80000000000, 0x8000000, 0x101810000000) == 0x800000000
  {
  }

  lemma ThirdFlips()
    ensures Flips(0x4000000, 0x101010000000, 0x80808000000) == 0x808000000
  {
  }

  lemma PlayOf(pos: BoardView, me: BoardView, opponent: BoardView, flipped: BoardView)
    requires Flips(pos, me, opponent) == flipped
    ensures Play(pos, me, opponent) == Sides(me ^ (pos | flipped), opponent ^ flipped)
  {
  }

  /** The game of the `put` unit test: black plays (4, 5), white (3, 5), black (2, 3),
      and after each move the board is the one the test draws. */
  lemma PutGame()
    ensures Play(GetPos(4, 5), NewBoard().black, NewBoard().white) == Sides(0x101810000000, 0x8000000)
    ensures Play(GetPos(3, 5), 0x8000000, 0x101810000000) == Sides(0x80808000000, 0x101010000000)
    ensures Play(GetPos(2, 3), 0x101010000000, 0x80808000000) == Sides(0x10181c000000, 0x80000000000)
    ensures BoardText(Board(0x101810000000, 0x8000000)) == Joined(AfterFirstRows, 8)
    ensures BoardText(Board(0x101010000000, 0x80808000000)) == Joined(AfterSecondRows, 8)
    ensures BoardText(Board(0x10181c000000, 0x80000000000)) == Joined(AfterThirdRows, 8)
  {
    MoveSquares();
    FirstFlips();
    PlayOf(0x100000000000, 0x810000000, 0x1008000000, 0x1000000000);
    SecondFlips();
    PlayOf(0x80000000000, 0x8000000, 0x101810000000, 0x800000000);
    ThirdFlips();
    PlayOf(0x4000000, 0x101010000000, 0x80808000000, 0x808000000);
    AfterFirstText();
    AfterSecondText();
    AfterThirdText();
  }
}
