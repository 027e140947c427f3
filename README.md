# JieqiArena core in Dafny

JieqiArena is a match runner for Jieqi, the Xiangqi variant in which all pieces
except the kings start face down. It plays two UCI engines against each other:
- it keeps the board and the pool of still-hidden identities;
- it asks each engine for a move in turn;
- it checks every answer against the rules;
- it turns a face-down piece over when it first moves;
- it decides the result of each game;
- it tallies a match of colour-swapped game pairs for a GUI.

This project models that core and proves what it promises. One Dafny module
stands for each source unit:

| module | file | models |
|---|---|---|
| `Text` | text.dfy | The C++ library behaviour the code relies on: `isdigit`/`isspace`/`isupper`, `std::to_string`, `>>` token and `int` extraction (with the 32-bit range failure), `std::stoi`, `string::find` and whitespace trimming. |
| `Types` | types.dfy | The `Color` and `Piece` enumerations in declaration order, and the two constant character tables of src/types.cpp. |
| `MoveValidator` | move_validator.dfy | The rules on a 10×9 board: the starting layout that gives a face-down piece its movement, per-piece geometry, the ban on capturing your own piece, check with the flying-general rule, the self-check filter, and the no-legal-move search. The grid loops are methods proved against ghost predicates. |
| `PiecePool` | piece_pool.dfy | The pool of unrevealed identities as a class over a `map<Piece, int>`, with parsing, canonical printing and one weighted draw. |
| `TimeManager` | time_manager.dfy | The two clocks as a class: the charge per move (stored back into 32-bit `int`s), the buffered timeout test and the `go` command. |
| `Engine` | engine.dfy | The text side of a UCI engine, as a class whose process is replaced by the list of lines it will print. It covers the `apply_uci_options` splitter, the `position` command, and the `go` read loop with score parsing. |
| `Game` | game.dfy | One game as a class: FEN reading and writing, the coordinate accessors, `process_move` with its flip and capture suffixes, the three move histories and the `run` loop. `run` is proved against a ply-by-ply state machine over a list of engine replies. |
| `Tournament` | tournament.dfy | From src/main.cpp: `setoption` handling, the `isready` rule, the colour-swapped game queue, the result tally folded over the game results, `json_escape`, `basename_from_path` and `result_to_string`. |

Outside inputs become parameters:
- An engine's output is a list of `(line, still running)` pairs, and the process ends when that list runs out.
- A game is driven by a list of replies. Each reply holds the move text, the milliseconds it took, and the two random numbers that choose the flip and capture draws. Replies past the end of the list read as `"resign"`.
- The random index of a draw is the supplied number modulo the number of candidate slots. Every slot is reached by some number (`PiecePool.EveryCandidateReachable`).
- A match's results are a list of colours. The opening book is a given sequence, already shuffled.

## Model

| member | source | states |
|---|---|---|
| Types.TablesInverse | src/types.cpp:4-16 | `char_to_piece` and `piece_to_char` are inverse to each other over all their entries. |
| Types.PieceOfIsTable | src/types.cpp:4-9 | `PieceOf` is exactly the `char_to_piece` table: defined on its keys, with its values. |
| Types.CharOfIsTable | src/types.cpp:11-16 | `CharOf` is exactly the `piece_to_char` table on every piece but `EMPTY`. |
| Types.PieceOfCharOf | src/types.cpp:4-16 | Looking up a piece's character gives the piece back. |
| Types.PieceToCharDomain | src/types.cpp:11-16 | `piece_to_char` is defined on exactly the pieces other than `EMPTY`. |
| Types.TableCases | src/types.cpp:4-9 | Upper-case table characters are exactly the red pieces. Lower-case ones other than 'x' are exactly the black pieces. Only 'x' maps to `HIDDEN`. No table character is a digit, '/' or blank. |
| Types.NotInTables | src/types.cpp:4-16 | 'X' is not a key and `EMPTY` is in neither table. |
| Types.OrdinalInjective | src/types.hpp:11-28 | Distinct pieces have distinct enumeration values. |
| Types.EnumBlocksAligned | src/types.hpp:11-28 | A black piece's enumeration value minus 7 is a red piece, the one whose character is the upper-case form of the black piece's character. |
| MoveValidator.InitialPieceIsLayout | src/move_validator.cpp:9-29 | The square-by-square starting piece agrees with the 10×9 `initial_board_layout` on every square. |
| MoveValidator.CoordToPos | src/move_validator.cpp:33-39 | The result is on the grid iff the text is two characters a–i then 0–9, and then it is that square's name. Otherwise it is (-1, -1). |
| MoveValidator.CoordRoundTrip | src/move_validator.cpp:33-39 | Reading back a square's two-character name gives the square. |
| MoveValidator.GetPieceColor | src/move_validator.cpp:41-45 | No colour for `EMPTY` and `HIDDEN`; Red exactly for the red block and Black exactly for the black block. |
| MoveValidator.GetBasePieceType | src/move_validator.cpp:51-56 | A black piece maps to its red counterpart (value − 7); every other piece maps to itself. |
| MoveValidator.BetweenZeroIffClear | src/move_validator.cpp:58-70 | The count is 0 iff every square strictly between is empty. It is always 0 for unaligned squares. |
| MoveValidator.CountPiecesBetween | src/move_validator.cpp:58-70 | The loop returns the number of occupied squares strictly between two squares of one row or column, and 0 otherwise. |
| MoveValidator.FindKing | src/move_validator.cpp:72-83 | Returns the first square holding the colour's king in row-major order. It returns none iff there is no such king. |
| MoveValidator.KingSquareUnique | src/move_validator.cpp:72-83 | When the king stands on exactly one square, that square is found. |
| MoveValidator.NoOwnCapture | src/move_validator.cpp:103-109 | A mechanically valid move never lands on a face-up piece of the mover's effective colour. A face-down target is not protected. |
| MoveValidator.ShortRangeGeometry | src/move_validator.cpp:115-149 | Onto a square not held by an own face-up piece, a king, advisor, bishop or knight move is valid exactly when it has its rule's shape and bounds. The eye or leg square must be empty. The advisor's palace bound and the bishop's river bound bind face-down movers only. |
| MoveValidator.LineGeometry | src/move_validator.cpp:150-162 | A rook needs no piece between. A cannon needs none onto an empty square and exactly one onto any occupied square, face-down included. |
| MoveValidator.PawnGeometry | src/move_validator.cpp:163-171 | Onto a square not held by an own face-up piece, a pawn move is valid exactly when it is one square forward, or one square sideways beyond the river. A pawn never moves backward or diagonally. |
| MoveValidator.MissingKingIsCheck | src/move_validator.cpp:177-205 | A side without a king counts as in check. |
| MoveValidator.FlyingGeneral | src/move_validator.cpp:191-195 | The opposing king on the same column with nothing between gives check, however far away it is. |
| MoveValidator.KingAttacksAlongColumn | src/move_validator.cpp:191-195 | The king-facing test holds for an opposing king on the column with an empty line. |
| MoveValidator.HiddenPiecesDoNotAttack | src/move_validator.cpp:185-190 | Only face-up opposing pieces attack a king. |
| MoveValidator.AttackTest | src/move_validator.cpp:183-201 | The per-square test of the check scan decides `Attacks`. |
| MoveValidator.ScanRow | src/move_validator.cpp:183-201 | One row of the check scan: true iff some square of the row attacks the king. |
| MoveValidator.ScanAttackers | src/move_validator.cpp:183-201 | The nested scan: true iff some square of the grid attacks the king. |
| MoveValidator.IsInCheck | src/move_validator.cpp:177-205 | The result equals `InCheck`: the king is missing or attacked by a face-up opposing piece. |
| MoveValidator.AfterMove | src/move_validator.cpp:207-213 | The trial board has `from` emptied, `to` holding the mover, and every other square unchanged. |
| MoveValidator.WouldBeInCheckAfterMove | src/move_validator.cpp:207-213 | The mover is checked on the trial board; the input board is a value and is not changed. |
| MoveValidator.IsMoveLegal | src/move_validator.cpp:215-241 | The result equals `MoveLegal`: long enough, both squares valid, the mover owned by the side, mechanically valid, and not self-checking. |
| MoveValidator.MoveLegalRejects | src/move_validator.cpp:217-230 | False for text shorter than 4, for a bad square, for an empty source, and for a mover the side does not own (a face-down piece being Red's iff its row is above 4). |
| MoveValidator.MoveLegalReadsFourChars | src/move_validator.cpp:217-221 | Only the first four characters matter. |
| MoveValidator.LegalMoveIsSafe | src/move_validator.cpp:232-240 | An accepted move leaves the mover out of check on the moved board. |
| MoveValidator.PieceHasEscape | src/move_validator.cpp:258-270 | For one piece, true iff some target square passes both the movement rules and the self-check filter. |
| MoveValidator.IsCheckmateOrStalemateAsWritten | src/move_validator.cpp:243-276 | The search as written: no pair passes both filters among the pieces it counts as the side's, where a face-down piece on rows 0–4 counts as Red's. |
| MoveValidator.IsCheckmateOrStalemate | src/move_validator.cpp:243-276 | The search with the ownership rule of `is_move_legal`: true iff no pair of squares passes both filters. |
| MoveValidator.NoLegalMoveIffNoLegalString | src/move_validator.cpp:243-276 | No legal pair exists iff `is_move_legal` rejects every four-character move. |
| MoveValidator.LegalStringOf | src/move_validator.cpp:215-241 | Any legal pair, written as text, is a move `is_move_legal` accepts. |
| MoveValidator.MateSearchAgreesFaceUp | src/move_validator.cpp:253-256 | On a board with no face-down piece, the search as written and the corrected search give the same answer. |
| MoveValidator.MateSearchMisreadsHiddenOwner | src/move_validator.cpp:253-256 | On the board "4r4/9/9/x8/9/9/9/9/8r/3K5" with Red to move, Red has no legal move, yet the search as written finds one. |
| PiecePool.Entry | src/piece_pool.cpp:21-31 | A known character with a digit sets that piece's count to the digit; any other pair leaves the counts unchanged. |
| PiecePool.PoolCounts | src/piece_pool.cpp:14-32 | The counts always start empty, and an odd-length string leaves them empty. |
| PiecePool.OrderIndex | src/piece_pool.cpp:39-46 | The twelve printed pieces have fixed positions in the printing order. Kings, `HIDDEN` and `EMPTY` are not in it. |
| PiecePool.Item | src/piece_pool.cpp:48-54 | A positive count prints as the character then its digits; otherwise nothing is printed. |
| PiecePool.ParsePrintRoundTrip | src/piece_pool.cpp:14-57 | For counts of 1–9 on the twelve printable pieces, parsing the printed string gives the counts back. |
| PiecePool.PrintParseRoundTrip | src/piece_pool.cpp:14-57 | Take a canonical pool text: pairs of a piece letter and a digit 1–9, each piece at most once, in R r A a C c N n B b P p order. Printing its parsed counts gives the text back. |
| PiecePool.PrintIsCanonical | src/piece_pool.cpp:35-57 | A pool with counts 1–9 on the twelve printable pieces prints as a canonical text. With the two round trips, printing is a bijection between such pools and canonical texts. |
| PiecePool.AvailableMultiplicity | src/piece_pool.cpp:61-71 | Each piece of the colour appears among the candidates as many times as its count, and other pieces do not appear. |
| PiecePool.AvailableEmptyIff | src/piece_pool.cpp:73-75 | There are no candidates iff no piece of the colour has a positive count. |
| PiecePool.HiddenEntryIsBlack | src/piece_pool.cpp:63-65 | A positive 'x' entry is drawable by Black and not by Red. |
| PiecePool.NoColorDrawsNothing | src/piece_pool.cpp:65 | `NONE` draws nothing. |
| PiecePool.Draw | src/piece_pool.cpp:60-82 | With no candidates: none, counts unchanged. Otherwise the drawn piece was drawable and exactly its count drops by one. |
| PiecePool.DrawPreservesValid | src/piece_pool.cpp:60-82 | A draw keeps the counts non-negative. It fails iff no piece of the colour is drawable, and every other count is unchanged. |
| PiecePool.EveryCandidateReachable | src/piece_pool.cpp:77-78 | Index i draws the i-th candidate slot, so selection is weighted by count. |
| PiecePool.CollectAvailable | src/piece_pool.cpp:61-71 | The push_back loops build exactly the candidate list. |
| PiecePool.Pool.constructor | src/piece_pool.cpp:11 | A new pool holds no pieces. |
| PiecePool.Pool.FromString | src/piece_pool.cpp:14-32 | The counts become those the string describes. |
| PiecePool.Pool.ToString | src/piece_pool.cpp:35-57 | The loop builds the canonical pool string of the stored counts. |
| PiecePool.Pool.DrawRandomPiece | src/piece_pool.cpp:60-82 | The result and new counts are those of `Draw` on the old counts. |
| TimeManager.Wrap32 | src/time_manager.cpp:10-14 | The value is stored back into an `int`: in range, congruent modulo 2^32, and unchanged when already in range. |
| TimeManager.Charged | src/time_manager.cpp:8-16 | Only the mover's remaining time changes; both increments and the other side's time stay. Any colour other than Red is charged as Black. |
| TimeManager.ChargedExact | src/time_manager.cpp:8-16 | Without overflow the mover's time becomes time − elapsed + increment. |
| TimeManager.InTimeMove | src/time_manager.cpp:8-25 | A move within remaining time + buffer + increment never loses on time. |
| TimeManager.GoCommandParses | src/time_manager.cpp:31-34 | The go command is the nine words "go wtime W btime B winc WI binc BI", and each number reads back as its field. |
| TimeManager.TimeManager.constructor | src/time_manager.cpp:5-6 | The object holds the given control and buffer. |
| TimeManager.TimeManager.Update | src/time_manager.cpp:8-16 | The control becomes `Charged` of the old one, and the buffer is unchanged. |
| TimeManager.TimeManager.IsOutOfTime | src/time_manager.cpp:18-25 | True iff the side's time is at most −buffer; nothing is written. |
| TimeManager.TimeManager.GetTimeMs | src/time_manager.cpp:27-29 | Red's stored time for Red, Black's for any other colour. |
| TimeManager.TimeManager.GetGoCommand | src/time_manager.cpp:31-34 | The go command of the current fields. |
| TimeManager.TimeManager.SetTimeoutBuffer | src/time_manager.cpp:36-38 | Only the buffer changes. |
| Engine.OptionCommands | src/engine.cpp:28-30 | An empty option string yields no command. |
| Engine.BlocksCover | src/engine.cpp:48-56 | The blocks, laid end to end, are the string from its first "name " on; with no "name " there are none. |
| Engine.BlocksHaveOneName | src/engine.cpp:48-56 | Every block starts with "name " and holds no other occurrence of it after that. |
| Engine.OneOption | src/engine.cpp:59-78 | "name N value V" with blank-free N and V yields exactly "setoption name N value V". |
| Engine.BlockCommandOf | src/engine.cpp:59-78 | A block whose first " value " follows a non-empty trimmed name yields the command made of the trimmed name and the trimmed value. |
| Engine.CommandsCons | src/engine.cpp:48-85 | The commands of a block list are the first block's commands followed by the rest, in input order. |
| Engine.Engine.constructor | src/engine.cpp:12 | A new engine keeps its name, has written and logged nothing, and has no score. |
| Engine.Engine.Stop | src/engine.cpp:21-25 | Exactly "quit" is written; nothing else changes. |
| Engine.Engine.ApplyUciOptions | src/engine.cpp:27-86 | The while loop writes exactly `OptionCommands` of the string and changes nothing else. `OptionCommands` uses the corrected block command of the Findings. |
| Engine.BlockCommandAgrees | src/engine.cpp:59-76 | On every block that does not start "name value ", the code's block command equals the corrected one. |
| Engine.NameValueQuirk | src/engine.cpp:64-65 | As written, "name value 5" yields "setoption name value 5 value 5". The corrected block yields no command. |
| Engine.PositionCommandWords | src/engine.cpp:92-102 | "position fen F" is followed by "moves m1 m2 …" exactly when there are moves. |
| Engine.Engine.SetPosition | src/engine.cpp:92-102 | The loop writes exactly the position command. |
| Engine.ScanCp | src/engine.cpp:132-135 | "score cp N" sets the evaluation to N with a score. |
| Engine.ScanMate | src/engine.cpp:136-140 | "score mate M" sets 10000 when M ≥ 0 and −10000 otherwise. |
| Engine.ScanKeepsOrScores | src/engine.cpp:128-143 | A line either leaves the evaluation unchanged or ends with a score; the last score seen wins. |
| Engine.ScanWithoutScore | src/engine.cpp:128-143 | A line without the word "score" leaves the evaluation unchanged. |
| Engine.FirstBestmove | src/engine.cpp:111-158 | When all earlier lines are skipped (lines starting with neither "info" nor "bestmove", running empty reads, "info string"), the search returns the second word of the first "bestmove" line. |
| Engine.CrashResigns | src/engine.cpp:115-119 | An empty read from a stopped process, after skipped lines, yields "resign" and one error message to the GUI. |
| Engine.SearchAnswer | src/engine.cpp:111-158 | The answer is "resign" or the second word of some "bestmove" line. |
| Engine.SearchForwards | src/engine.cpp:125-150 | The GUI only gains non-"info string" info lines, and only in the primary game, plus the stop message. |
| Engine.Engine.Go | src/engine.cpp:104-159 | The evaluation is reset, the go command is written, and the read loop's answer, evaluation, GUI log and unread output are those of `Search`. |
| Engine.Engine.ParseScore | src/engine.cpp:129-143 | The token loop's evaluation is `ScanInfo` of the line. |
| Game.SplitFields | src/game.cpp:32 | Splitting on blanks gives no field only for the empty string. |
| Game.ParseFenValue | src/game.cpp:29-66 | Fewer than three fields fails. On success the side is Red iff the second field is exactly "w", and the pool and board come from the other fields. |
| Game.BoardStep | src/game.cpp:39-52 | '/' moves to the next row, a digit skips columns, and 'x'/'X' place `HIDDEN`. Another character is looked up in the table (unknown fails), and placements off the grid are dropped. |
| Game.BoardRoundTrip | src/game.cpp:196-220 | Reading back the generated board field gives the board back. |
| Game.FenRoundTrip | src/game.cpp:223-231 | For a pool with counts 1–9 on the twelve printable pieces, reading back a generated FEN gives the board, the side and the pool back. |
| Game.BoardTextBlankless | src/game.cpp:196-220 | The board field has no blank, so it stays one FEN field. |
| Game.SetThenGet | src/game.cpp:68-82 | A bad coordinate reads `EMPTY` and writes nothing. A good one reads back what was written, and other coordinates are unaffected. |
| Game.Revealed | src/game.cpp:240-250 | A flip draws from the mover's colour, falling back to that colour's pawn when the pool has none. |
| Game.ProcessMoveShape | src/game.cpp:233-277 | A move of other than four characters comes back unchanged with board and pool untouched. Otherwise the text is the move plus the flip and capture suffixes. |
| Game.ProcessMoveBoard | src/game.cpp:233-277 | `from` is emptied and `to` holds the drawn identity for a face-down mover, or the mover itself, with every other square unchanged. |
| Game.FaceUpMoveIsTrialMove | src/game.cpp:233-277 | For a face-up mover the new board is the one the self-check filter tried. |
| Game.LongMoveLeavesBoard | src/game.cpp:233-236 | A legal move of five or more characters passes validation, yet the board is left as it was. |
| Game.CopiesDropOnlyCaptures | src/game.cpp:280-297 | The red copy differs from the move only when Black moved a move longer than 4 ending in upper case, and then only by that character. The black copy is symmetric. |
| Game.CopiesHideCapture | src/game.cpp:233-297 | The mover's history holds the full move. The opponent's history drops exactly the capture suffix and keeps the flip. |
| Game.Game.constructor | src/game.cpp:19-26 | The clock exists iff a control is given. The game fails iff the FEN does not parse; otherwise the board, side and pool are the FEN's and the start position is counted once. |
| Game.Game.ParseFen | src/game.cpp:29-66 | The result is Some iff the FEN parses; then the state is the parsed one and the position key's count rises by one. |
| Game.Game.CountPosition | src/game.cpp:183-186 | The count of the (board field, side) key rises by one. |
| Game.Game.GetPieceAtCoord | src/game.cpp:68-74 | The piece at a coordinate, `EMPTY` for a bad one. |
| Game.Game.SetPieceAtCoord | src/game.cpp:76-82 | The board becomes `SetAt`, and nothing else changes. |
| Game.Game.GenerateFenBoardPart | src/game.cpp:196-220 | The counter loop builds the board field. |
| Game.Game.GenerateFen | src/game.cpp:223-231 | The board field, " w" or " b", the pool string and " 0 1". |
| Game.Game.ProcessMove | src/game.cpp:233-277 | The text, board and pool are those of `ProcessMoveOf` on the old state. |
| Game.Game.AddMoveToHistories | src/game.cpp:280-297 | Each history grows by exactly one entry: the move and its red and black copies. |
| Game.Game.GetMovesForColor | src/game.cpp:299-301 | Red's copy for Red, Black's for any other colour. |
| Game.Game.FenKey | src/game.cpp:183-184 | The repetition key is `PositionKey` of the board and the side to move. |
| Game.Game.FlipPart | src/game.cpp:245-258 | A face-down mover is drawn for, with the side's pawn when the pool is empty, and its letter is added; the pool is `FlipOf` of the old counts. |
| Game.Game.CapturePart | src/game.cpp:260-269 | A face-down target is drawn from the opponent's pool and its letter is added, with nothing added when that pool is empty. |
| Game.Game.SendRequest | src/game.cpp:99-102 | The side to move gets its own history and the clock's go command, or "go movetime 2000" with no clock. |
| Game.Game.PlayMove | src/game.cpp:150-160 | The move is processed and recorded, and the turn passes, as `Apply` says. |
| Game.GiveUpLoses | src/game.cpp:112-122 | "resign", an empty answer or "(none)" gives the game to the opponent at once, with the clock untouched. |
| Game.IllegalLoses | src/game.cpp:125-134 | An illegal move gives the game to the opponent, with the clock untouched. |
| Game.TimeLoss | src/game.cpp:137-148 | The clock is charged only after the move is legal, and running out gives the game to the opponent. |
| Game.NoReplyVerdict | src/game.cpp:159-180 | The side to move with no legal move loses if in check, and it is a draw otherwise. "No legal move" is the corrected search of the Findings. |
| Game.RepetitionDraw | src/game.cpp:182-190 | When the side to move has a legal move, the third occurrence of a (board, side) key draws. The legal move is by the corrected search. |
| Game.PlyHistories | src/game.cpp:150-160 | A ply that goes on records its move in all three histories and passes the turn. |
| Game.PlyRecordsOneMove | src/game.cpp:150-160 | A ply adds at most one move, and exactly one when the game goes on. |
| Game.AtMost300Plies | src/game.cpp:85-90 | A game records at most 300 moves before the move limit draws. |
| Game.PlayKeepsCopies | src/game.cpp:157 | Throughout a game, turns alternate, and every entry of the red and black histories is the copy of the true move for the side that made it. |
| Game.Game.PlayPly | src/game.cpp:96-190 | One ply of the loop has the outcome and new state of `Ply`, whose end-of-ply verdict uses the corrected search. |
| Game.Game.Conclude | src/game.cpp:162-190 | The end-of-ply checks, in order: no legal reply by the corrected search, then repetition. |
| Game.Game.ChargeClock | src/game.cpp:137-148 | The mover's clock is charged; the result is whether it has run out. |
| Game.Game.Run | src/game.cpp:84-192 | The loop's winner and final state are those of `Play` from ply 1 over the replies, with the corrected search. |
| Tournament.SetOptionWords | src/main.cpp:440-449 | A line is taken as an option iff its second word is "name" and its fourth is "value"; the name is the third word. |
| Tournament.SetOptionLineReads | src/main.cpp:440-447 | "setoption name N value V" reads back as N and V, with the one leading blank of the value dropped. |
| Tournament.OtherLinesIgnored | src/main.cpp:449-477 | Other lines and unknown options change no setting. |
| Tournament.ApplyOptionIdempotent | src/main.cpp:451-476 | Setting an option twice is the same as setting it once. |
| Tournament.TimeOptionsSymmetric | src/main.cpp:469-472 | MainTimeMs sets both sides' time and IncTimeMs both increments to the value. |
| Tournament.ReadyAfterPaths | src/main.cpp:451-454 | After both engine paths are set, the match is ready with those paths. |
| Tournament.Arena.constructor | src/main.cpp:24-32 | The globals start as `Defaults`, with an empty queue and a zero tally. |
| Tournament.Arena.HandleSetOption | src/main.cpp:439-477 | The settings become `ApplySetOption` of the line; the queue and tally stay. |
| Tournament.Arena.IsReady | src/main.cpp:492-497 | The answer is "readyok" iff both engine paths are non-empty, and the error text otherwise. |
| Tournament.Queue | src/main.cpp:372-390 | The queue holds 2×rounds tasks, and task k is `TaskAt` k. |
| Tournament.QueuePairs | src/main.cpp:377-390 | Game k has id k+1. A round's two games swap engines and options on one opening, and engine1 is Red exactly in the first game when the engines differ. |
| Tournament.QueueOpenings | src/main.cpp:377-390 | Game k's opening is book[(k/2) mod size]. |
| Tournament.Arena.PopulateQueue | src/main.cpp:374-390 | The loop builds exactly `Queue` of the settings. |
| Tournament.Record | src/main.cpp:279-306 | Each game raises the completed count by one. |
| Tournament.RecordConsistent | src/main.cpp:279-306 | Wins + losses + draws = completed, and the scores add up to completed, with score1 = wins + draws/2 (in half points). |
| Tournament.RecordCommutes | src/main.cpp:279-306 | The tally does not depend on the order in which games finish. |
| Tournament.FoldConsistent | src/main.cpp:243-318 | Folding the results keeps the tally consistent and counts every game once. |
| Tournament.ColourSwapBalances | src/main.cpp:279-306 | When every game ends with the same colour result, the two engines finish level. |
| Tournament.MatchTotals | src/main.cpp:353-415 | A whole match from the reset counts 2×rounds games, with consistent counters. |
| Tournament.Arena.RecordGame | src/main.cpp:279-306 | The tally becomes `Record` with engine1 Red iff the Red side is engine1's path and options. |
| Tournament.Arena.Work | src/main.cpp:243-318 | The queue is emptied and the tally is the fold of the queued games' results. |
| Tournament.Arena.RunTournament | src/main.cpp:353-415 | After the reset and the queue, the tally is the fold over the whole match and is consistent, with completed = 2×rounds. |
| Tournament.ResultText | src/main.cpp:107-111 | "1-0" iff Red, "0-1" iff Black, "1/2-1/2" iff neither. |
| Tournament.Basename | src/main.cpp:102-105 | The result is a suffix of the path without separators. It is the whole path, or the character before it is `/` or `\`. |
| Tournament.BasenameOfJoin | src/main.cpp:102-105 | A directory joined with a separator-free file name gives back the file name. |
| Tournament.EscapedNoControl | src/main.cpp:63-87 | The escaped text contains no character below 0x20. |
| Tournament.EscapeRoundTrip | src/main.cpp:63-87 | Decoding the escaped text as JSON string content gives the original back. |
| Tournament.JsonEscape | src/main.cpp:63-87 | The loop's output is the escaped text. It has no raw control character and decodes back to the input. |

## Left out

- Process plumbing is not part of this model: src/engine_process.cpp, the logger, GUI output locking and `handle_jai`'s option listing. GUI output is kept as a log only in `Engine.Engine`, and engine output is the supplied line list.
- `Engine::start` is not modelled: the process is replaced by the line list. A game whose engine fails to start, and a `play_game` that catches an exception and scores `NONE`, are not modelled. The tally takes results as given.
- Threads are not modelled: the worker pool, the active-engine registry, `stop_all_engines`, `g_stop_match` (the `run` loop's cancellation check at src/game.cpp:92-94) and the `stop`/`quit` commands. `Tournament.Arena.Work` is one sequential worker.
- File output is not modelled: the JSON notation file and `current_date_iso`. Of that code only `json_escape` is modelled.
- `load_fen_book` (file reading) and `std::shuffle` (randomness) are not modelled: the book is a sequence given already shuffled.
- The wall clock is not modelled: each reply carries its elapsed milliseconds.
- `std::mt19937` is not modelled: each draw takes a supplied number, and its index is that number modulo the candidate count.
- The `info move` / `info result` GUI lines of `play_game` and `run` are not modelled; only their verdicts are.
- `Game.Game.Run`, `Game.Game.PlayPly` and `Game.Game.Conclude` use the corrected search `IsCheckmateOrStalemate` for the end-of-ply test, not the search src/game.cpp:163 calls. With face-down pieces on the board the source's verdict can differ. On the board of the first finding the model declares a stalemate draw. The source plays on, and since no Red move is legal there, Red loses on its next reply. `MoveValidator.MateSearchAgreesFaceUp` proves the two agree on boards with no face-down piece. `Game.NoReplyVerdict` and `Game.RepetitionDraw` are stated over the same corrected search.
- `Engine.Engine.ApplyUciOptions` sends `OptionCommands`, which uses the corrected `BlockCommand`, so a block starting "name value " sends nothing. The source sends the wrapped-round name, as `Engine.NameValueQuirk` shows. `Engine.BlockCommandAgrees` proves that every other block sends the same command.
- `Game.Game.Run` models a single legality call: the second `is_move_legal` call on the illegal-move path is pure and has no effect.
- `Game.Game.ParseFen` states nothing about the board when parsing fails. In the source the constructor's exception discards the whole game, which the model marks with `failed`.
- `Tournament.ApplyOption` requires the numeric options to hold a value `std::stoi` accepts. In the source a bad value throws an exception that nothing catches.
- `Tournament.Queue` does not model 32-bit overflow of `rounds * 2` or of the game ids.
- The counters' `double` scores are modelled as integer half points.
- `PiecePool.Pool` has the source's `print_pool` (a debug printout) left out.
- `Text` characters stand for bytes, with only ASCII classification. Locale-dependent `isspace`/`isupper` and multi-byte text are not modelled.
- `TimeManager.Charged` wraps both intermediate values to 32 bits. The source's second addition is signed overflow, which C++ leaves undefined, and the model gives it the usual two's-complement result.
- `TimeManager.OutOfTime` does not model negating a buffer of `INT_MIN`.
- `Engine.Engine.Go` calls past the end of the line list see a stopped process, and a search that never ends is not modelled.
- The `get_last_eval_cp`/`has_last_eval` getters are not separate members; they read the `Engine.Engine` fields directly.
- The worker's copy of the engine names (a substr after the last separator) is the same computation as `basename_from_path`, and is modelled once by `Tournament.Basename`.

## Findings

| source | as written | input that shows it | evidently intended | confidence | as-written member | corrected member |
|---|---|---|---|---|---|---|
| src/move_validator.cpp:253-256 | The no-legal-move search treats a face-down piece on rows 0–4 as Red's. `is_move_legal` (line 229) and the movement rules (line 100) treat rows 5–9 as Red's. | "4r4/9/9/x8/9/9/9/9/8r/3K5", Red to move: the search takes Black's face-down pawn on a6 as Red's and finds a6a5, so no stalemate is declared. Yet every Red move is rejected by `is_move_legal`. | Use the same row rule as `is_move_legal`, so that the search finds no move exactly when no move is legal. | not executed | MoveValidator.IsCheckmateOrStalemateAsWritten (shown by MoveValidator.MateSearchMisreadsHiddenOwner) | MoveValidator.IsCheckmateOrStalemate (with MoveValidator.NoLegalMoveIffNoLegalString) |
| src/engine.cpp:64-65 | The name length `value_pos - 5` is unsigned. When " value " starts at position 4 it wraps round, and the rest of the block becomes the option name. | The option string "name value 5" yields "setoption name value 5 value 5". | A block whose name is empty yields no command, as line 74 means. | not executed | Engine.BlockCommandAsWritten (shown by Engine.NameValueQuirk) | Engine.BlockCommand (with Engine.OneOption and Engine.BlockCommandOf) |
