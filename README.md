# rinee: a Dafny model of the Othello client's core

rinee is a client for a networked Othello (Reversi) match server. This project
models its core and proves properties of it:

- **The bit-board rules engine** (`src/board.rs`). A position is two 64-bit words,
  one per player, where bit `x + 8 * y` is the square in column `x` and row `y`.
  The model covers:
  - `get_pos`, the word of one square;
  - `new_board`, the opening position;
  - `get_valid_moves`, which finds the legal moves of all eight directions with
    shift-and-mask steps and edge masks;
  - `put`, which places a disc and turns over every flanked run with one `while`
    loop per direction;
  - `to_string_as_board`, the 8x8 text rendering.
- **The request parser** (`src/parser.rs`). `parse_request` splits a line from the
  server on whitespace and decodes a `START`, `MOVE`, `ACK`, `END` or `BYE` request
  into the `Request` enum of `src/proto.rs`.
- **The move selector** (`src/agent.rs`). `select_best_move` passes when there is
  no legal move and otherwise plays the legal square with the lowest index.
- **The bit helpers** (`src/util.rs`): `popcnt64`, `lzcnt64`, `tzcnt64` and
  `blsmsk64`, as 64-bit functions with their meaning.

Each operation is checked against a reference definition that is independent of
its bit tricks:

- A square flanks along a direction (`Rules.Flanks`) when a run of opponent discs
  starts next to it and ends on one of the mover's discs.
- A square is captured (`Rules.Captures`) when it lies in such a run.
- A move is legal (`Moves.IsMove`) when its square is empty and it flanks along some
  direction.

Directions and steps between squares are in `Geometry`, and the word-to-set-of-squares
view is in `Squares`. `Board.GetValidMoves` and `Board.Flips` are written as the
source computes them. The lemmas in `Moves`, `Rules` and `Playing` connect them to
the reference definitions.

## Structure

| file | module | models |
|---|---|---|
| `Util.dfy` | `Util` | `src/util.rs`: population count, leading and trailing zero counts, lowest-bit mask |
| `Squares.dfy` | `Squares` | a word as the set of squares whose bits are set |
| `Geometry.dfy` | `Geometry` | columns, rows, the eight directions, the shifts and edge masks of `src/board.rs` |
| `Board.dfy` | `Board` | `get_pos`, `new_board`, `get_valid_moves`, `put`, `to_string_as_board` |
| `Rules.dfy` | `Rules` | runs, flanking and captures; the walk of `put` along one direction |
| `Moves.dfy` | `Moves` | `get_valid_moves` square by square |
| `Playing.dfy` | `Playing` | what `put` writes back |
| `Examples.dfy` | `Examples` | the unit tests of `src/board.rs` |
| `Agent.dfy` | `Agent` | `select_best_move` |
| `Proto.dfy` | `Proto` | the `Request`, `Color`, `GameResult`, `GameStat` and `Error` types |
| `Text.dfy` | `Text` | `split_whitespace`, integer `parse`, decimal printing |
| `Parser.dfy` | `Parser` | `parse_request` and the lines the server sends |
| `Wrappers.dfy` | `Wrappers` | `Option` and `Result` |

The imperative code keeps its form:

- `Board.Put` and `Board.CaptureDir` are methods that use the `while` loop of
  `put_internal!` (`Board.WalkDir`).
- `Board.ToStringAsBoard` pushes characters in two nested loops.
- `Parser.ParseRequest` reads the groups of `BYE` in a loop (`Parser.CollectStats`).

Each of these is proved equal to a function (`Board.Play`, `Board.BoardText`,
`Parser.Parse`), and the properties are proved about those functions.

Two facts about the code shape the model:

- `select_best_move` plays the lowest-indexed legal square; there is no evaluator or
  search.
- `_tzcnt_u64` and `_lzcnt_u64` return 64 on zero, as `Util.TzCnt64` and
  `Util.LzCnt64` do.

## Model

| member | source | states |
|---|---|---|
| Util.PopCntZero | src/util.rs:5-9 | the population count is zero exactly for the zero word |
| Util.PopCntSingle | src/util.rs:5-9 | the population count is one exactly for a word with a single set bit |
| Util.PopCntUnion | src/util.rs:5-9 | the count of the union of two disjoint words is the sum of their counts |
| Util.PopCntRemove | src/util.rs:5-9 | removing a sub-word subtracts its count |
| Util.PopCntExample | src/util.rs:45 | `popcnt64(0x01010101) == 4` |
| Util.TzCntLowest | src/util.rs:25-29 | the trailing-zero count is 64 for zero and otherwise the index of the lowest set bit |
| Util.LowestSetBitIsLowest | src/util.rs:25-29 | no bit below the lowest set bit is set |
| Util.TzCntExample | src/util.rs:55 | `tzcnt64(0xFFFFFFFFFFFFF000) == 12` |
| Util.LzCntZero | src/util.rs:15-19 | the leading-zero count is 64 exactly for the zero word |
| Util.LzCntHighest | src/util.rs:15-19 | for a non-zero word the leading-zero count is 63 minus the index of the highest set bit |
| Util.HighestSetBitIsHighest | src/util.rs:15-19 | no bit above the highest set bit is set |
| Util.LzCntExample | src/util.rs:50 | `lzcnt64(0x000FFFFFFFFFFFFF) == 12` |
| Util.BlsMskBits | src/util.rs:35-39 | bit `i` of `blsmsk64(x)` is set exactly when `x` is zero or `i` is at most the index of the lowest set bit |
| Util.BlsMskLowest | src/util.rs:35-39 | for a non-zero word, `blsmsk64(x) & x` is the lowest set bit alone |
| Util.BlsMskExample | src/util.rs:60 | `blsmsk64(0xFFFFFFFFFFFFF000) & 0xFFFFFFFFFFFFF000 == 1 << 12` |
| Board.GetPos | src/board.rs:22-25 | the `u8` index does not overflow and the shift stays in range exactly under the precondition; the word has one bit set, at `x + 8 * y` |
| Board.GetPosSquare | src/board.rs:22-25 | on the board, `get_pos(x, y)` holds exactly the square in column `x` and row `y` |
| Moves.ValidMovesCells | src/board.rs:30-68 | with the two colours apart, a square is in `get_valid_moves` exactly when it is empty and flanks a run of opponent discs along some direction; the edge masks stop every wrap-around |
| Moves.ValidMovesBlank | src/board.rs:35-46 | every valid move is an empty square: the result meets neither `me` nor `opponent` |
| Moves.FlanksCaptures | src/board.rs:30-106 | a square flanks along some direction exactly when placing on it captures some square |
| Moves.MoveFlips | src/board.rs:30-106 | with the colours apart, a square is a valid move exactly when it is empty and `put` there would flip at least one disc |
| Board.MovedEight | src/board.rs:73-85 | eight masked steps along any direction clear any word, so the loop of `put_internal!` runs at most seven rounds |
| Board.WalkDir | src/board.rs:75-80 | the loop ends in the state of the reference walk `Walk` from the neighbour of `pos` |
| Rules.WalkRun | src/board.rs:77-80 | the walk from a square gathers exactly the run of opponent discs that starts there and stops on the first square past it |
| Rules.FlipsDirIf | src/board.rs:73-85 | one use of `put_internal!` adds the run along `d` when it is flanked and nothing otherwise |
| Board.CaptureDir | src/board.rs:73-85 | one use of `put_internal!` adds the flips along its direction to `result` |
| Rules.FlipsCells | src/board.rs:70-103 | a square is in `result` exactly when placing on `p` captures it along some direction |
| Playing.FlipsOpponent | src/board.rs:77-83 | only opponent discs are flipped |
| Board.Put | src/board.rs:70-106 | the two words written back are the mover's word toggled at `pos` and the flips, and the opponent's word toggled at the flips |
| Playing.PlayCells | src/board.rs:104-105 | on an empty square with the colours apart: the mover holds its old discs, `pos` and the captured squares; the opponent holds its old discs minus the captured ones |
| Playing.PlayElsewhere | src/board.rs:104-105 | a square that is neither `pos` nor captured keeps its disc on both sides |
| Playing.PlayDisjoint | src/board.rs:104-105 | the colours stay apart after the move |
| Playing.PlayCount | src/board.rs:104-105 | the mover gains one disc plus the flipped ones and the opponent loses the flipped ones, so the total rises by one |
| Board.ToStringAsBoard | src/board.rs:115-133 | the nested loops build the rendering `BoardText` |
| Board.BoardTextLayout | src/board.rs:115-133 | the rendering is 71 characters: the cell of column `x`, row `y` at `9 * y + x`, a newline after each of the first seven rows |
| Board.GlyphAt | src/board.rs:119-126 | the cell of column `x`, row `y` is `B` when black holds the square at (`x`, `y`), else `W` when white holds it, else a space |
| Examples.NewBoardLayout | src/board.rs:156-171 | the opening colours are apart with two discs each, and the board renders as the test draws it |
| Examples.OpeningMoves | src/board.rs:173-181 | black's moves in the opening are exactly (3, 2), (2, 3), (5, 4) and (4, 5) |
| Examples.PutGame | src/board.rs:183-231 | the three moves of the test give the words and the renderings the test expects |
| Agent.Choose | src/agent.rs:9-17 | no move exactly when the valid-move word is zero |
| Agent.SelectBestMove | src/agent.rs:7-18 | no move exactly when `get_valid_moves` is zero |
| Agent.ChooseLowest | src/agent.rs:13-16 | the single-move branch and the `tzcnt64` branch both return the lowest set bit of the valid-move word |
| Agent.ChooseInside | src/agent.rs:13-16 | a chosen move has one bit set and lies in the valid-move word |
| Agent.SelectBestMoveWord | src/agent.rs:7-18 | a returned move is one square of the valid moves and meets neither player's discs |
| Agent.SelectBestMovePass | src/agent.rs:11-12 | with the colours apart, the agent passes exactly when no square is a legal move |
| Agent.SelectBestMoveLowest | src/agent.rs:7-18 | with the colours apart, the agent plays `k` exactly when `k` is legal and no lower-indexed square is |
| Text.LineTokens | src/parser.rs:7 | `split_whitespace` gives back the words of a line of space-separated tokens |
| Text.ParseIntText | src/parser.rs:16-20 | integer `parse` reads back the decimal text of every value of the type |
| Parser.DecodeStart | src/parser.rs:9-26 | `START` succeeds exactly with `BLACK` or `WHITE`, a name and a `u32`; the result carries that colour, that name and the parsed number |
| Parser.DecodeMove | src/parser.rs:27-36 | `MOVE` succeeds exactly with `PASS`, `GIVEUP` or a token of at least two characters; any other token gives the wrapped offsets of its first two characters from `A` and `1`, with no range check |
| Parser.Offset | src/parser.rs:32-33 | the unchecked `u8` subtraction: the value below 256 that, added to the base, gives the character's low eight bits modulo 256 |
| Parser.DecodeAck | src/parser.rs:37-50 | `ACK` succeeds exactly with an `i64`; the result is the parsed value, or zero when it is negative |
| Parser.DecodeEnd | src/parser.rs:51-75 | `END` succeeds exactly with `WIN`, `LOSE` or `TIE`, two `u8` scores and a reason; the result carries that result, the parsed scores and the reason |
| Parser.DecodeBye | src/parser.rs:76-102 | a table that decodes uses every token after `BYE`, four per player, so a group cut short fails |
| Parser.ByeFails | src/parser.rs:79-93 | a group cut short, or with a number that does not parse, fails the line |
| Parser.ByeOrder | src/parser.rs:78-100 | entry `i` of a decoded table is the `i`-th group of four tokens, in the order of the line |
| Parser.Decode | src/parser.rs:8-103 | only the five keywords can succeed; any other first token fails |
| Parser.ParseRequest | src/parser.rs:6-105 | dispatches on the keyword and reads the `BYE` groups in a loop; the result is `Parse(req)` |
| Parser.CollectStats | src/parser.rs:77-101 | the `while let` loop returns the table `DecodeBye` gives, or the error |
| Parser.BlankLine | src/parser.rs:7-8 | an empty or all-whitespace line fails |
| Parser.DecodeIgnoresTail | src/parser.rs:9-75 | apart from `BYE`, tokens after a complete request are ignored |
| Parser.MoveFirstTwo | src/parser.rs:30-35 | a move is read from the first two characters of its token, whatever follows |
| Parser.StartRoundTrip | src/parser.rs:9-26 | a `START` line with a one-token name and a `u32` reads back as that request |
| Parser.MoveRoundTrip | src/connection.rs:25 | the move line the client writes for a square reads back as that column and row |
| Parser.PassRoundTrip | src/connection.rs:32 | `MOVE PASS` reads back as a pass |
| Parser.GiveUpRoundTrip | src/parser.rs:29 | `MOVE GIVEUP` reads back as a resignation |
| Parser.AckRoundTrip | src/parser.rs:37-50 | every `i64` reads back unchanged, and a negative time left as zero |
| Parser.EndRoundTrip | src/parser.rs:51-75 | an `END` line with `u8` scores and a one-token reason reads back as that request |
| Parser.ByeRoundTrip | src/parser.rs:76-102 | a table with one-token names and counts in range reads back whole and in order; `BYE` alone gives the empty table |

## Left out

- Network I/O, the async game loop, logging, `print_board!`, the command line and the
  `Display` impls are not part of this model. Only the move text of
  `src/connection.rs` (lines 25 and 32) is used, as the other half of the parser's
  round trips.
- `Error::IO` and the conversion from `std::io::Error` concern I/O; `Proto.Error` has
  only `Parser`.
- The x86 intrinsics in `src/util.rs` are modelled by their bit-level meaning, not as
  CPU instructions.
- `select_best_move` reads `board.player` and `board.opponent`, which the `Board`
  struct of `src/board.rs` does not have (it has `black` and `white`). The board
  operations are therefore written over two plain words, `me` and `opponent`.
- Board.Put: returns the two new words instead of writing them through `&mut`, so it
  does not model aliasing of the two references.
- Board.WalkDir: the loop's termination measure is a ghost bound of seven rounds,
  which `Board.MovedEight` justifies. The loop condition and body are the source's.
- Board.GetPos: requires a coordinate whose `u8` index does not overflow and whose shift
  stays below 64. Other coordinates, which panic in a debug build or reduce the shift in a
  release build, are not modelled; the parser's unchecked coordinates reach `get_pos`
  only through the connection code, which is not part of this model.
- Parser.Offset: models the wrap-around of a release build. The panic a debug build
  raises when a character is below `A` or `1` is not modelled. There is no range
  check that the coordinates are below 8.
- Parser.DecodeAck: keeps the non-negative `i64` as it is. The source converts it
  with `as u64` into a field declared `u32`, so no narrowing to 32 bits is modelled.
- Integer `parse` (`Text.ParseInt`) is modelled as an optional sign (`+`, or `-` for
  signed types), at least one decimal digit, and the value within the type's range.
  Rust's error kinds are not distinguished.
- Parser.MoveRoundTrip: limited to squares of the board (`x, y < 8`), where the row
  is one digit.
- In `Examples.PutGame`, the expected renderings are written as rows joined by newlines
  (`Examples.Joined`), as the test's `concat!` builds them.
- `to_string_as_board` is compiled only with debug assertions. The model has it
  unconditionally.
