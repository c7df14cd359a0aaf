/** `parse_request`: one line from the match server, split on whitespace and decoded
    into a `Request` according to its first token; every malformed line is
    `Error::Parser`. */
module Parser {
  import opened Wrappers
  import opened Text
  import opened Proto

  // ---------------------------------------------------------------- the decoders

  /** `c as u8 - base as u8` with the wrap-around of an unchecked `u8` subtraction;
      `as u8` keeps the low eight bits of the code point. */
  function Offset(c: char, base: char): (r: nat)
    ensures r < 256 && (r + base as int) % 256 == (c as int) % 256
  {
    ((c as int) % 256 - base as int) % 256
  }

  function ColorOf(t: string): Option<Color> {
    if t == "BLACK" then Some(Black) else if t == "WHITE" then Some(White) else None
  }

  function ResultOf(t: string): Option<GameResult> {
    if t == "WIN" then Some(Win) else if t == "LOSE" then Some(Lose) else if t == "TIE" then Some(Tie) else None
  }

  /** The tokens after `START`: a colour, the opponent's name and a `u32`. */
  function DecodeStart(rest: seq<string>): (r: Result<Request, Error>)
    ensures r.Ok? <==> |rest| >= 3 && rest[0] in {"BLACK", "WHITE"} && ParseU32(rest[2]).Some?
    ensures r.Ok? ==> r.value.Start? && r.value.opponent == rest[1] && r.value.remains <= U32Max &&
                      (r.value.color == Black <==> rest[0] == "BLACK") &&
                      r.value.remains == ParseU32(rest[2]).value
  {
    if |rest| < 1 then Err(Parser)
    else match ColorOf(rest[0])
      case None => Err(Parser)
      case Some(color) =>
        if |rest| < 3 then Err(Parser)
        else match ParseU32(rest[2])
          case None => Err(Parser)
          case Some(remains) => Ok(Start(color, rest[1], remains))
  }

  /** The tokens after `MOVE`: `PASS`, `GIVEUP`, or a token whose first two
      characters give the column and the row. */
  function DecodeMove(rest: seq<string>): (r: Result<Request, Error>)
    ensures r.Ok? <==> |rest| >= 1 && (rest[0] == "PASS" || rest[0] == "GIVEUP" || |rest[0]| >= 2)
    ensures r.Ok? && r.value.Move? ==> r.value.x < 256 && r.value.y < 256
    ensures |rest| >= 1 && rest[0] !in {"PASS", "GIVEUP"} && |rest[0]| >= 2 ==>
      r == Ok(Move(Offset(rest[0][0], 'A'), Offset(rest[0][1], '1')))
  {
    if |rest| < 1 then Err(Parser)
    else if rest[0] == "PASS" then Ok(Pass)
    else if rest[0] == "GIVEUP" then Ok(GiveUp)
    else if |rest[0]| < 2 then Err(Parser)
    else Ok(Move(Offset(rest[0][0], 'A'), Offset(rest[0][1], '1')))
  }

  /** The tokens after `ACK`: an `i64`, a negative one read as zero. */
  function DecodeAck(rest: seq<string>): (r: Result<Request, Error>)
    ensures r.Ok? <==> |rest| >= 1 && ParseI64(rest[0]).Some?
    ensures r.Ok? ==> r.value.Ack? && r.value.remains <= I64Max &&
                      r.value.remains == if ParseI64(rest[0]).value < 0 then 0 else ParseI64(rest[0]).value
  {
    if |rest| < 1 then Err(Parser)
    else match ParseI64(rest[0])
      case None => Err(Parser)
      case Some(remains) => Ok(Ack(if remains < 0 then 0 else remains))
  }

  /** The tokens after `END`: a result, two `u8` scores and a reason. */
  function DecodeEnd(rest: seq<string>): (r: Result<Request, Error>)
    ensures r.Ok? <==>
      |rest| >= 4 && rest[0] in {"WIN", "LOSE", "TIE"} && ParseU8(rest[1]).Some? && ParseU8(rest[2]).Some?
    ensures r.Ok? ==> r.value.End? && r.value.score <= U8Max && r.value.opponentScore <= U8Max &&
                      r.value.reason == rest[3] && r.value.result == ResultOf(rest[0]).value &&
                      r.value.score == ParseU8(rest[1]).value && r.value.opponentScore == ParseU8(rest[2]).value
  {
    if |rest| < 1 then Err(Parser)
    else match ResultOf(rest[0])
      case None => Err(Parser)
      case Some(result) =>
        if |rest| < 4 then Err(Parser)
        else match (ParseU8(rest[1]), ParseU8(rest[2]))
          case (Some(score), Some(opponentScore)) => Ok(End(result, score, opponentScore, rest[3]))
          case _ => Err(Parser)
  }

  /** The tokens after `BYE`: groups of a name, an `i32` score and two `u32` counts,
      to the end of the line. */
  function DecodeBye(rest: seq<string>): (r: Result<seq<GameStat>, Error>)
    ensures r.Ok? ==> |rest| == 4 * |r.value|
    decreases |rest|
  {
    if rest == [] then Ok([])
    else if |rest| < 4 then Err(Parser)
    else match (ParseI32(rest[1]), ParseU32(rest[2]), ParseU32(rest[3]))
      case (Some(score), Some(wins), Some(loses)) =>
        Prefixed([GameStat(rest[0], score, wins, loses)], DecodeBye(rest[4..]))
      case _ => Err(Parser)
  }

  /** `stats` followed by what `r` holds, or `r`'s error. */
  function Prefixed(stats: seq<GameStat>, r: Result<seq<GameStat>, Error>): Result<seq<GameStat>, Error> {
    match r
    case Ok(tail) => Ok(stats + tail)
    case Err(e) => Err(e)
  }

  /** The request a sequence of tokens encodes. */
  function Decode(ts: seq<string>): (r: Result<Request, Error>)
    ensures r.Ok? ==> |ts| > 0 && ts[0] in {"START", "MOVE", "ACK", "END", "BYE"}
  {
    if ts == [] then Err(Parser)
    else if ts[0] == "START" then DecodeStart(ts[1..])
    else if ts[0] == "MOVE" then DecodeMove(ts[1..])
    else if ts[0] == "ACK" then DecodeAck(ts[1..])
    else if ts[0] == "END" then DecodeEnd(ts[1..])
    else if ts[0] == "BYE" then
      match DecodeBye(ts[1..])
      case Ok(stats) => Ok(Bye(stats))
      case Err(e) => Err(e)
    else Err(Parser)
  }

  /** What `parse_request` returns for the line `req`. */
  function Parse(req: string): Result<Request, Error> {
    Decode(Tokens(req))
  }

  // ---------------------------------------------------------------- parse_request

  /** `parse_request`: dispatch on the keyword; `BYE` collects its groups in a loop. */
  method ParseRequest(req: string) returns (r: Result<Request, Error>)
    ensures r == Parse(req)
  {
    var ts := Tokens(req);
    if |ts| == 0 {
      return Err(Parser);
    }
    var head := ts[0];
    if head == "START" {
      r := DecodeStart(ts[1..]);
    } else if head == "MOVE" {
      r := DecodeMove(ts[1..]);
    } else if head == "ACK" {
      r := DecodeAck(ts[1..]);
    } else if head == "END" {
      r := DecodeEnd(ts[1..]);
    } else if head == "BYE" {
      var stats := CollectStats(ts[1..]);
      match stats
      case Ok(table) => r := Ok(Bye(table));
      case Err(e) => r := Err(e);
    } else {
      r := Err(Parser);
    }
  }

  /** The `while let` loop of the `BYE` branch: read groups of a name and three numbers
      until the tokens run out, failing on a group cut short or a number that does
      not parse. */
  method CollectStats(rest: seq<string>) returns (r: Result<seq<GameStat>, Error>)
    ensures r == DecodeBye(rest)
  {
    var stats: seq<GameStat> := [];
    var i := 0;
    PrefixedEmpty(DecodeBye(rest));
    while i < |rest|
      invariant 0 <= i <= |rest|
      invariant DecodeBye(rest) == Prefixed(stats, DecodeBye(rest[i..]))
      decreases |rest| - i
    {
      var name := rest[i];
      var score := if i + 1 < |rest| then ParseI32(rest[i + 1]) else None;
      var wins := if score.Some? && i + 2 < |rest| then ParseU32(rest[i + 2]) else None;
      var loses := if wins.Some? && i + 3 < |rest| then ParseU32(rest[i + 3]) else None;
      if loses.None? {
        ByeFails(rest[i..], stats);
        return Err(Parser);
      }
      ByeStep(rest[i..], stats, GameStat(name, score.value, wins.value, loses.value));
      stats := stats + [GameStat(name, score.value, wins.value, loses.value)];
      i := i + 4;
    }
    assert rest[i..] == [] && stats + [] == stats;
    r := Ok(stats);
  }

  lemma PrefixedEmpty(r: Result<seq<GameStat>, Error>)
    ensures Prefixed([], r) == r
  {
    match r
    case Ok(tail) =>
      assert [] + tail == tail;
    case Err(_) =>
  }

  /** A group cut short or holding a number that does not parse fails the line. */
  lemma ByeFails(rest: seq<string>, stats: seq<GameStat>)
    requires rest != []
    requires |rest| < 4 || ParseI32(rest[1]).None? || ParseU32(rest[2]).None? || ParseU32(rest[3]).None?
    ensures Prefixed(stats, DecodeBye(rest)).Err?
  {
  }

  lemma ByeStep(rest: seq<string>, stats: seq<GameStat>, stat: GameStat)
    requires |rest| >= 4 && stat.name == rest[0]
    requires ParseI32(rest[1]) == Some(stat.score)
    requires ParseU32(rest[2]) == Some(stat.wins) && ParseU32(rest[3]) == Some(stat.loses)
    ensures Prefixed(stats, DecodeBye(rest)) == Prefixed(stats + [stat], DecodeBye(rest[4..]))
  {
    match DecodeBye(rest[4..])
    case Ok(tail) =>
      assert stats + ([stat] + tail) == stats + [stat] + tail;
    case Err(_) =>
  }

  // ---------------------------------------------------------------- what the server sends

  function ColorWord(c: Color): string {
    match c
    case Black => "BLACK"
    case White => "WHITE"
  }

  function ResultWord(g: GameResult): string {
    match g
    case Win => "WIN"
    case Lose => "LOSE"
    case Tie => "TIE"
  }

  /** The line announcing a game. */
  function StartLine(c: Color, opponent: string, remains: nat): string {
    Line(["START", ColorWord(c), opponent, Decimal(remains)])
  }

  /** `MOVE {}{}\n` with the column letter `b'A' + x` and the row `y + 1`, as the
      client writes its own moves and the server relays the opponent's. */
  function MoveText(x: nat, y: nat): string
    requires x < 8
  {
    "MOVE " + [('A' as int + x) as char] + Decimal(y + 1) + "\n"
  }

  /** The acknowledgement of a move, with the time left. */
  function AckLine(remains: int): string {
    Line(["ACK", IntText(remains)])
  }

  /** The line closing a game. */
  function EndLine(g: GameResult, score: nat, opponentScore: nat, reason: string): string {
    Line(["END", ResultWord(g), Decimal(score), Decimal(opponentScore), reason])
  }

  /** The words of the final table, four per player. */
  function StatWords(stats: seq<GameStat>): seq<string> {
    if stats == [] then []
    else
      var st := stats[0];
      [st.name, IntText(st.score), Decimal(st.wins), Decimal(st.loses)] + StatWords(stats[1..])
  }

  /** The line closing the session. */
  function ByeLine(stats: seq<GameStat>): string {
    Line(["BYE"] + StatWords(stats))
  }

  /** A table line `BYE` can carry: one-token names and counts within their types. */
  predicate StatsFit(stats: seq<GameStat>) {
    forall i :: 0 <= i < |stats| ==>
      IsToken(stats[i].name) && I32Min <= stats[i].score <= I32Max &&
      stats[i].wins <= U32Max && stats[i].loses <= U32Max
  }

  // ---------------------------------------------------------------- round trips

  lemma StartRoundTrip(c: Color, opponent: string, remains: nat)
    requires IsToken(opponent) && remains <= U32Max
    ensures Parse(StartLine(c, opponent, remains)) == Ok(Start(c, opponent, remains))
  {
    var ws := ["START", ColorWord(c), opponent, Decimal(remains)];
    DecimalToken(remains);
    LineTokens(ws);
    ParseIntText(remains, false, 0, U32Max);
    StartDecode(ws, c, remains);
  }

  lemma StartDecode(ws: seq<string>, c: Color, remains: nat)
    requires |ws| == 4 && ws[0] == "START" && ws[1] == ColorWord(c) && ParseU32(ws[3]) == Some(remains)
    ensures Decode(ws) == Ok(Start(c, ws[2], remains))
  {
    assert ws[1..][2] == ws[3];
  }

  /** A move the client sends (or the server relays) on an 8x8 board reads back as
      the same column and row. */
  lemma MoveRoundTrip(x: nat, y: nat)
    requires x < 8 && y < 8
    ensures Parse(MoveText(x, y)) == Ok(Move(x, y))
  {
    var t := [('A' as int + x) as char] + Decimal(y + 1);
    assert MoveText(x, y) == Line(["MOVE", t]);
    assert Decimal(y + 1) == [('0' as int + y + 1) as char];
    LineTokens(["MOVE", t]);
  }

  /** The pass the client sends reads back as a pass. */
  lemma PassRoundTrip()
    ensures Parse("MOVE PASS\n") == Ok(Pass)
  {
    var ws := ["MOVE", "PASS"];
    WordsOfLine("MOVE PASS\n", ws);
    assert Decode(ws) == Ok(Pass);
  }

  /** A resignation reads back as such. */
  lemma GiveUpRoundTrip()
    ensures Parse("MOVE GIVEUP\n") == Ok(GiveUp)
  {
    var ws := ["MOVE", "GIVEUP"];
    WordsOfLine("MOVE GIVEUP\n", ws);
    assert Decode(ws) == Ok(GiveUp);
  }

  lemma WordsOfLine(line: string, ws: seq<string>)
    requires |ws| == 2 && IsToken(ws[0]) && IsToken(ws[1]) && line == ws[0] + " " + ws[1] + "\n"
    ensures Tokens(line) == ws
  {
    assert line == Line(ws);
    LineTokens(ws);
  }

  /** Every `i64` reads back, a negative time left as zero. */
  lemma AckRoundTrip(remains: int)
    requires I64Min <= remains <= I64Max
    ensures Parse(AckLine(remains)) == Ok(Ack(if remains < 0 then 0 else remains))
  {
    var ws := ["ACK", IntText(remains)];
    IntTextToken(remains);
    LineTokens(ws);
    ParseIntText(remains, true, I64Min, I64Max);
    AckDecode(ws, remains);
  }

  lemma AckDecode(ws: seq<string>, remains: int)
    requires |ws| == 2 && ws[0] == "ACK" && ParseI64(ws[1]) == Some(remains)
    ensures Decode(ws) == Ok(Ack(if remains < 0 then 0 else remains))
  {
  }

  lemma EndRoundTrip(g: GameResult, score: nat, opponentScore: nat, reason: string)
    requires score <= U8Max && opponentScore <= U8Max && IsToken(reason)
    ensures Parse(EndLine(g, score, opponentScore, reason)) == Ok(End(g, score, opponentScore, reason))
  {
    var ws := ["END", ResultWord(g), Decimal(score), Decimal(opponentScore), reason];
    DecimalToken(score);
    DecimalToken(opponentScore);
    LineTokens(ws);
    ParseIntText(score, false, 0, U8Max);
    ParseIntText(opponentScore, false, 0, U8Max);
    assert ws[1..][1] == IntText(score) && ws[1..][2] == IntText(opponentScore);
  }

  /** The final table reads back whole and in order. */
  lemma ByeRoundTrip(stats: seq<GameStat>)
    requires StatsFit(stats)
    ensures Parse(ByeLine(stats)) == Ok(Bye(stats))
  {
    var ws := ["BYE"] + StatWords(stats);
    StatWordsTokens(stats);
    LineTokens(ws);
    StatWordsDecode(stats);
    assert ws[1..] == StatWords(stats);
  }

  lemma {:induction false} StatWordsTokens(stats: seq<GameStat>)
    requires StatsFit(stats)
    ensures forall i :: 0 <= i < |StatWords(stats)| ==> IsToken(StatWords(stats)[i])
    ensures forall i :: 0 <= i < 1 + |StatWords(stats)| ==> IsToken((["BYE"] + StatWords(stats))[i])
    decreases |stats|
  {
    if stats != [] {
      StatWordsTokens(stats[1..]);
      IntTextToken(stats[0].score);
      DecimalToken(stats[0].wins);
      DecimalToken(stats[0].loses);
    }
  }

  lemma {:induction false} StatWordsDecode(stats: seq<GameStat>)
    requires StatsFit(stats)
    ensures DecodeBye(StatWords(stats)) == Ok(stats)
    decreases |stats|
  {
    if stats != [] {
      var st := stats[0];
      var ws := StatWords(stats);
      ParseIntText(st.score, true, I32Min, I32Max);
      ParseIntText(st.wins, false, 0, U32Max);
      ParseIntText(st.loses, false, 0, U32Max);
      assert ws[4..] == StatWords(stats[1..]);
      StatWordsDecode(stats[1..]);
      assert [GameStat(ws[0], st.score, st.wins, st.loses)] + stats[1..] == stats;
    }
  }

  // ---------------------------------------------------------------- error cases

  /** A line of whitespace alone has no tokens, so it is rejected. */
  lemma BlankLine(req: string)
    requires forall i :: 0 <= i < |req| ==> IsWhite(req[i])
    ensures Parse(req) == Err(Parser)
  {
    WhiteTokens(req);
  }

  lemma {:induction false} WhiteTokens(s: string)
    requires forall i :: 0 <= i < |s| ==> IsWhite(s[i])
    ensures Tokens(s) == []
    decreases |s|
  {
    if s != [] {
      WhiteTokens(s[1..]);
    }
  }

  /** A move token is read from its first two characters; whatever follows them on
      the token, and any token after it, is ignored. */
  lemma MoveFirstTwo(t: string, more: seq<string>)
    requires |t| >= 2 && t != "PASS" && t != "GIVEUP"
    ensures DecodeMove([t] + more) == DecodeMove([t[..2]])
  {
    assert t[..2] != "PASS" && t[..2] != "GIVEUP" by {
      assert |t[..2]| == 2;
    }
  }

  /** Group `i` of a `BYE` line, tokens `4 * i` to `4 * i + 3`, reads as `st`. */
  predicate GroupAt(rest: seq<string>, i: nat, st: GameStat) {
    4 * i + 3 < |rest| && st.name == rest[4 * i] && ParseI32(rest[4 * i + 1]) == Some(st.score) &&
    ParseU32(rest[4 * i + 2]) == Some(st.wins) && ParseU32(rest[4 * i + 3]) == Some(st.loses)
  }

  /** The table `BYE` yields lists the groups of the line in order. */
  lemma ByeOrder(rest: seq<string>)
    requires DecodeBye(rest).Ok?
    ensures forall i :: 0 <= i < |DecodeBye(rest).value| ==> GroupAt(rest, i, DecodeBye(rest).value[i])
  {
    forall i | 0 <= i < |DecodeBye(rest).value| ensures GroupAt(rest, i, DecodeBye(rest).value[i]) {
      ByeAt(rest, DecodeBye(rest).value, i);
    }
  }

  lemma {:induction false} ByeAt(rest: seq<string>, stats: seq<GameStat>, i: nat)
    requires DecodeBye(rest) == Ok(stats) && i < |stats|
    ensures GroupAt(rest, i, stats[i])
    decreases i, 1
  {
    if i == 0 {
      ByeFirst(rest, stats);
    } else {
      ByeRest(rest, stats);
      ByeLater(rest, stats, i);
    }
  }

  lemma {:induction false} ByeLater(rest: seq<string>, stats: seq<GameStat>, i: nat)
    requires 0 < i < |stats| && |rest| >= 4 && DecodeBye(rest[4..]) == Ok(stats[1..])
    ensures GroupAt(rest, i, stats[i])
    decreases i, 0
  {
    ByeAt(rest[4..], stats[1..], i - 1);
    ShiftGroup(rest, i, stats[1..][i - 1]);
  }

  lemma ByeRest(rest: seq<string>, stats: seq<GameStat>)
    requires DecodeBye(rest) == Ok(stats) && stats != []
    ensures |rest| >= 4 && DecodeBye(rest[4..]) == Ok(stats[1..])
  {
    assert stats == [stats[0]] + DecodeBye(rest[4..]).value;
  }

  lemma ByeFirst(rest: seq<string>, stats: seq<GameStat>)
    requires DecodeBye(rest) == Ok(stats) && stats != []
    ensures GroupAt(rest, 0, stats[0])
  {
  }

  lemma ShiftGroup(rest: seq<string>, i: nat, st: GameStat)
    requires i > 0 && |rest| >= 4 && GroupAt(rest[4..], i - 1, st)
    ensures GroupAt(rest, i, st)
  {
    assert rest[4..][4 * (i - 1)] == rest[4 * i];
    assert rest[4..][4 * (i - 1) + 1] == rest[4 * i + 1];
    assert rest[4..][4 * (i - 1) + 2] == rest[4 * i + 2];
    assert rest[4..][4 * (i - 1) + 3] == rest[4 * i + 3];
  }

  /** Apart from `BYE`, which reads to the end of the line, a request ignores any
      tokens after the ones it needs. */
  lemma DecodeIgnoresTail(ts: seq<string>, extra: seq<string>)
    requires Decode(ts).Ok? && ts[0] != "BYE"
    ensures Decode(ts + extra) == Decode(ts)
  {
    assert (ts + extra)[0] == ts[0];
    assert (ts + extra)[1..] == ts[1..] + extra;
  }
}
