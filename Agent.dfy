/** The move selector: pass when there is no legal move, otherwise play the legal
    square with the lowest index. */
module Agent {
  import opened Wrappers
  import opened Util
  import opened Geometry
  import opened Squares
  import opened Board
  import opened Moves

  /** The choice `select_best_move` makes from the valid-move word: none for zero,
      the word itself when it holds one square, else the square of its lowest set
      bit (`1 << tzcnt64(valid)`). */
  function Choose(valid: BoardView): (r: Option<BoardView>)
    ensures r.None? <==> valid == 0
  {
    PopCntZero(valid);
    var count := PopCnt64(valid);
    if count == 0 then None
    else if count == 1 then Some(valid)
    else
      TzCntLowest(valid);
      Some(1 << TzCnt64(valid) as bv6)
  }

  /** `select_best_move` for the side to move `me`. */
  function SelectBestMove(me: BoardView, opponent: BoardView): (r: Option<BoardView>)
    ensures r.None? <==> GetValidMoves(me, opponent) == 0
  {
    Choose(GetValidMoves(me, opponent))
  }

  /** Whatever branch is taken, a non-zero word yields the square of its lowest set
      bit: the single-move shortcut agrees with the `tzcnt64` branch. */
  lemma ChooseLowest(valid: BoardView)
    ensures valid != 0 ==> Choose(valid) == Some(BitMask(LowestSetBit(valid)))
  {
    if valid != 0 {
      PopCntZero(valid);
      if PopCnt64(valid) == 1 {
        ChooseOne(valid);
      } else {
        ChooseMany(valid);
      }
    }
  }

  lemma ChooseOne(valid: BoardView)
    requires valid != 0 && PopCnt64(valid) == 1
    ensures Choose(valid) == Some(BitMask(LowestSetBit(valid)))
  {
    SingleOfPopCnt(valid);
    SingleBitIsMask(valid);
  }

  lemma ChooseMany(valid: BoardView)
    requires valid != 0 && PopCnt64(valid) > 1
    ensures Choose(valid) == Some(BitMask(LowestSetBit(valid)))
  {
    TzCntLowest(valid);
    ChooseShift(valid, TzCnt64(valid));
    ShiftOne(TzCnt64(valid), LowestSetBit(valid));
  }

  lemma ChooseShift(valid: BoardView, t: nat)
    requires PopCnt64(valid) > 1 && t == TzCnt64(valid) && t < 64
    ensures Choose(valid) == Some(1 << t as bv6)
  {
  }

  lemma ShiftOne(t: nat, l: bv6)
    requires t == l as int
    ensures (1 as bv64) << (t as bv6) == BitMask(l)
  {
    assert t as bv6 == l;
  }

  /** A chosen move is one square of the valid-move word. */
  lemma ChooseInside(valid: BoardView)
    ensures Choose(valid).Some? ==>
      IsSingleBit(Choose(valid).value) && Choose(valid).value & valid == Choose(valid).value
  {
    ChooseLowest(valid);
    if valid != 0 {
      BitMaskIsSingle(LowestSetBit(valid));
      BitMaskAnd(LowestSetBit(valid), valid);
    }
  }

  /** Any move `select_best_move` returns is a single empty square among the valid
      moves. */
  lemma SelectBestMoveWord(me: BoardView, opponent: BoardView)
    ensures SelectBestMove(me, opponent).Some? ==>
      var m := SelectBestMove(me, opponent).value;
      IsSingleBit(m) && m & GetValidMoves(me, opponent) == m && m & (me | opponent) == 0
  {
    ValidMovesBlank(me, opponent);
    WordVia(me | opponent, GetValidMoves(me, opponent));
  }

  lemma WordVia(u: BoardView, v: BoardView)
    requires v & u == 0
    ensures Choose(v).Some? ==>
      IsSingleBit(Choose(v).value) && Choose(v).value & v == Choose(v).value && Choose(v).value & u == 0
  {
    ChooseInside(v);
    if Choose(v).Some? {
      var m := Choose(v).value;
      assert m & u == (m & v) & u == m & (v & u);
    }
  }

  /** With the two colours apart, `select_best_move` passes exactly when no empty
      square flanks a run. */
  lemma SelectBestMovePass(me: BoardView, opponent: BoardView)
    requires me & opponent == 0
    ensures SelectBestMove(me, opponent).None? <==> forall s: Square :: !IsMove(me, opponent, s)
  {
    PassVia(me, opponent, GetValidMoves(me, opponent));
  }

  lemma PassVia(me: BoardView, opponent: BoardView, v: BoardView)
    requires me & opponent == 0 && v == GetValidMoves(me, opponent)
    ensures v == 0 <==> forall s: Square :: !IsMove(me, opponent, s)
  {
    NonZero(v);
    forall s: Square ensures Has(v, s) <==> IsMove(me, opponent, s) {
      ValidMovesCells(me, opponent, s);
    }
  }

  /** With the two colours apart, `select_best_move` plays square `k` exactly when
      `k` is a legal move and no lower-indexed square is. */
  lemma SelectBestMoveLowest(me: BoardView, opponent: BoardView, k: Square)
    requires me & opponent == 0
    ensures SelectBestMove(me, opponent) == Some(BitMask(k)) <==>
      IsMove(me, opponent, k) && forall j: Square :: j < k ==> !IsMove(me, opponent, j)
  {
    var v := GetValidMoves(me, opponent);
    ChooseLowest(v);
    LowestVia(me, opponent, k, v);
  }

  lemma LowestVia(me: BoardView, opponent: BoardView, k: Square, v: BoardView)
    requires me & opponent == 0 && v == GetValidMoves(me, opponent)
    requires v != 0 ==> Choose(v) == Some(BitMask(LowestSetBit(v)))
    ensures Choose(v) == Some(BitMask(k)) <==>
      IsMove(me, opponent, k) && forall j: Square :: j < k ==> !IsMove(me, opponent, j)
  {
    forall s: Square ensures Has(v, s) <==> IsMove(me, opponent, s) {
      ValidMovesCells(me, opponent, s);
    }
    LowestSquare(v, k);
    if v != 0 {
      BitMaskBit(k, LowestSetBit(v));
    }
  }

  /** The lowest set bit, square by square. */
  lemma LowestSquare(v: BoardView, k: Square)
    ensures v != 0 && LowestSetBit(v) == k <==> Has(v, k) && forall j: Square :: j < k ==> !Has(v, j)
  {
    CellsBit(v, k);
    if v != 0 {
      CellsBit(v, LowestSetBit(v));
      forall j: Square | j < LowestSetBit(v) ensures !Has(v, j) {
        BelowLowest(v, j);
      }
    } else {
      CellsZero(k);
    }
  }

  lemma BelowLowest(v: BoardView, j: Square)
    requires v != 0 && j < LowestSetBit(v)
    ensures !Has(v, j)
  {
    LowestSetBitIsLowest(v);
    CellsBit(v, j);
    LowMaskBit(LowestSetBit(v), j);
    BitAnd(v, LowMask(LowestSetBit(v)), j);
    CellsBit(0, j);
  }
}
