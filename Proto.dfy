/** The messages the match server sends: one `Request` per line. */
module Proto {

  /** `Error::Parser`: the line is not a well-formed request. */
  datatype Error = Parser

  datatype GameResult = Win | Lose | Tie

  /** One player's line of the final table; `score` is an `i32`, `wins` and `loses`
      are `u32`. */
  datatype GameStat = GameStat(name: string, score: int, wins: nat, loses: nat)

  datatype Color = Black | White

  /** A request; `x` and `y` of a move are `u8`, `score` and `opponentScore` of an
      end are `u8`, `remains` of a start is a `u32`. */
  datatype Request =
    | Start(color: Color, opponent: string, remains: nat)
    | Move(x: nat, y: nat)
    | Pass
    | GiveUp
    | Ack(remains: nat)
    | End(result: GameResult, score: nat, opponentScore: nat, reason: string)
    | Bye(stats: seq<GameStat>)
}
