# A verified model of the chess rules engine

This project models the rules engine of a small Python chess program, in
`chessEngine.py`. The engine has two parts.

- **`Move`** is a value: a start square, an end square, the pieces read from
  the board when the move is built, the equality key `moveID`, and the
  coordinate notation ("e2e4").
- **`GameState`** is a mutable object: an 8x8 board, the turn flag
  `whiteToMove`, the move log, the cached squares of both kings and the
  `checkmate` / `stalemate` flags. Its methods make and undo moves. They
  generate the pseudo-legal moves of every piece, scanning the board row by
  row. They test whether a square is attacked or the side to move is in
  check. They filter out the moves that leave the mover's king attacked,
  trying each move on the board and undoing it, and set the end-of-game flags.

The Dafny files follow that structure.

- `moves.dfy` (module `Moves`): squares, boards, the `Move` datatype,
  `moveID`, `__eq__`, and the rank/file tables with the notation.
- `rules.dfy` (module `Rules`): each generator as a pure function of the
  board, with lemmas stating its rule square by square:
  - the pawn generator, corrected, and as written;
  - the sliding rays of rooks, bishops and queens;
  - the king's and the knight's offset lists;
  - the dispatch on the piece letter and the row-major scan.
- `distinct.dfy` (module `Distinctness`): no two pseudo-legal moves share
  both their squares. This is what lets `list.remove` in the filter delete
  exactly the current index.
- `position.dfy` (module `Positions`): a position as a value and the effect
  of making and undoing a move on it. Also the attack and check tests, the
  legality filter as a function (`LegalMoves`), and `list.remove`.
- `game_state.dfy` (module `Engine`): class `GameState`. Its board is an
  `array2<Square>`, mirrored by a ghost value `cells`. A ghost `history`
  records the position in which each logged move was made. Every method is
  proved against the pure definitions. The object invariant `Valid()` says
  two things: the cached king squares are right, and undoing the logged moves
  walks back through `history`.

The board's two-character strings become a datatype: `"--"` is `Empty`,
`"wK"` is `Piece(White, King)`, and so on. The `moveFunctions` dictionary
becomes a `match` on the piece kind.

## Model

| member | source | states |
|---|---|---|
| Moves.NewMove | chessEngine.py:262-268 | A move records the coordinates it is given; on the board, its moved and captured pieces are what the board holds on its start and end squares |
| Moves.MoveID | chessEngine.py:269 | For squares on the board the key lies in 0..7777 and each of its four decimal digits gives back one coordinate |
| Moves.SameMoveIffSameSquares | chessEngine.py:290-293 | Two moves on the board are equal by key exactly when their start and end squares coincide; the pieces play no part |
| Moves.RankTableInverts | chessEngine.py:272-274 | `rowsToRanks` is defined on exactly rows 0..7 and is the inverse of `rankstoRows` both ways |
| Moves.FileTableInverts | chessEngine.py:276-279 | `colsToFiles` is defined on exactly columns 0..7 and is the inverse of `filesToCols` both ways |
| Moves.RankFile | chessEngine.py:285-286 | A square's name has two characters: the file `'a' + col`, then the rank `'8' - row` |
| Moves.ChessNotation | chessEngine.py:282-283 | A move's notation has four characters: the start square's file and rank, then the end square's |
| Moves.RankFileRoundTrip | chessEngine.py:272-286 | Reading a square's name back through `filesToCols` and `rankstoRows` gives the column and row it was written from |
| Moves.NotationExample | chessEngine.py:281-283 | The move from (6, 4) to (4, 4) is written "e2e4" |
| Rules.PawnMovesExactly | chessEngine.py:115-134 | The pawn generator lists exactly these moves: one step onto an empty square; two steps from the home row across two empty squares; one step diagonally onto a piece of the other side. Every move starts on the pawn, lies on the board and records the board |
| Rules.PawnMovesSound | chessEngine.py:115-134 | Every move the pawn generator lists is such a pawn step |
| Rules.PawnMovesComplete | chessEngine.py:115-134 | Every such pawn step is listed by the pawn generator |
| Rules.PawnMovesOnBoard | chessEngine.py:115-134 | The guarded pawn generator never produces a move off the board |
| Rules.PawnGuardOnlyAtLastRank | chessEngine.py:115-134 | Unless the pawn stands on its last rank, the generator as written and the guarded one produce the same moves |
| Rules.PawnAsWrittenLeavesBoard | chessEngine.py:117-118 | As written, a white pawn on row 0 above an empty square of row 7 is given a move to row -1; a black pawn on row 7 raises IndexError |
| Rules.RayLandsFree | chessEngine.py:137-230 | Every move of a sliding loop starts on the piece, ends on the board on a square the mover's colour does not hold, and records the board |
| Rules.RayConsecutive | chessEngine.py:137-230 | The squares a sliding loop reaches are consecutive in its direction, the first next to the piece |
| Rules.RayClear | chessEngine.py:137-230 | Every square a sliding loop passes before its last one is empty |
| Rules.RayStops | chessEngine.py:137-230 | A sliding loop stops only after a capture, at the edge of the board, or in front of a piece of the mover's colour |
| Rules.JumpsExactly | chessEngine.py:235-249 | The offset loop produces exactly the moves to squares on the board, at a listed non-null offset, not held by the mover's colour |
| Rules.KingOffsetsExactly | chessEngine.py:237-238 | The king's loops visit exactly the offsets with both components in -1..1 |
| Rules.KingMovesExactly | chessEngine.py:235-241 | King moves are exactly the moves to the neighbouring squares on the board that the king's colour does not hold |
| Rules.KnightOffsetsExactly | chessEngine.py:246-247 | The knight's list holds exactly the jumps of one row and two columns or two rows and one column |
| Rules.KnightMovesExactly | chessEngine.py:244-249 | Knight moves are exactly the moves to squares a knight's jump away, on the board, that the knight's colour does not hold |
| Rules.PieceMovesLandFree | chessEngine.py:109-111 | Whatever generator the piece letter selects, its moves start on the piece, end on the board on a square the mover does not hold, and record the board |
| Rules.SquareMovesSound | chessEngine.py:109-111 | A square contributes moves only when it holds a piece of the side to move, and only that piece's moves |
| Rules.ScanToSound | chessEngine.py:106-112 | Every move the scan has collected so far belongs to a square already visited |
| Rules.ScanToComplete | chessEngine.py:106-112 | Every move of every square already visited has been collected |
| Rules.ScanToRowMajor | chessEngine.py:107-108 | The scan collects moves in row-major order of their start squares |
| Rules.AllPossibleMembers | chessEngine.py:102-112 | A move is pseudo-legal exactly when the piece of the side to move on its start square generates it. Every pseudo-legal move lies on the board, records the board, and ends on a square the mover does not hold |
| Rules.AllPossibleRowMajor | chessEngine.py:102-112 | `getAllPossibleMoves` lists moves in row-major order of their start squares |
| Distinctness.RayDistinct | chessEngine.py:140-149 | The squares a sliding loop reaches are all different |
| Distinctness.JumpsDistinct | chessEngine.py:235-249 | With no offset repeated, the offset loop's moves end on different squares |
| Distinctness.PieceMovesDistinct | chessEngine.py:115-249 | The moves of one piece end on different squares |
| Distinctness.AllPossibleDistinct | chessEngine.py:102-112 | No two pseudo-legal moves have the same start and end squares |
| Positions.Play | chessEngine.py:35-47 | After a move the end square holds the moved piece and the start square is empty. No other square changes. The turn passes. Only a king's move changes that king's cached square |
| Positions.Retract | chessEngine.py:49-58 | Undoing a move puts the moved piece back on the start square and the captured piece on the end square. No other square changes. The turn passes back. Only a king's move resets that king's cached square |
| Positions.PlayThenRetract | chessEngine.py:35-58 | Undoing a move right after making it restores the board, the turn and both king squares, for a move built on the current board |
| Positions.PlayKeepsKingsTracked | chessEngine.py:43-47 | Making a move built on the board keeps the cached king squares right |
| Positions.EndsOnExactly | chessEngine.py:96-99 | The search loop of `sqUnderAttack` answers true exactly when some move of the list ends on the square |
| Positions.KeepSubsequence | chessEngine.py:66-72 | The filter keeps the moves it keeps in their original order |
| Positions.KeepMembers | chessEngine.py:66-72 | The filter keeps exactly the moves its test does not reject |
| Positions.LegalMovesExactly | chessEngine.py:61-74 | The valid moves are the pseudo-legal moves, in order, with a move left out exactly when, after it, some pseudo-legal move of the opponent ends on the mover's king square |
| Positions.RemoveFirst | chessEngine.py:72 | `list.remove` deletes exactly one element when an element equal to the argument by key is present |
| Positions.RemoveFirstAt | chessEngine.py:72 | When no earlier element equals the one at index i, `list.remove` of that element deletes exactly index i |
| Positions.NoEarlierTwin | chessEngine.py:66-72 | In a list with distinct start and end squares, no element before index i equals the one at i by key |
| Engine.InitialKingsTracked | chessEngine.py:10-31 | In the starting position the kings stand on the cached squares (7, 4) and (0, 4) |
| Engine.UndoLast | chessEngine.py:49-58 | Undoing the last logged move returns to the position it was made in, and the shorter log still replays |
| Engine.ReplaysExtend | chessEngine.py:35-47 | Making a move built on the board extends the replayable log and history by one step |
| Engine.FilterStep | chessEngine.py:66-74 | One step of the backward filter loop: the move at index i is still at index i; when rejected, removing it by value leaves the loop's shape one index further down |
| Engine.GameState.constructor | chessEngine.py:8-33 | The starting position with white to move, empty log, kings on (7, 4) and (0, 4), both flags false |
| Engine.GameState.MakeMove | chessEngine.py:35-47 | The new position is the old one after the move. The log gains exactly that move. The invariant is kept and the flags are untouched |
| Engine.GameState.PlaceMove | chessEngine.py:39-47 | The board writes, the turn flip and the king update of `makeMove` yield the position after the move |
| Engine.GameState.UndoMove | chessEngine.py:49-58 | On an empty log nothing changes. Otherwise the last move is popped and the position returns to the one that move was made in. The invariant is kept |
| Engine.GameState.TakeBack | chessEngine.py:52-58 | The board writes, the turn flip and the king update of `undoMove` yield the position with the move retracted |
| Engine.GameState.GetValidMoves | chessEngine.py:61-83 | The result is the pseudo-legal moves that do not leave the mover in check. Board, turn, log and king squares end as they began. With moves left both flags are false. With none, checkmate is set when in check, stalemate otherwise, and the other flag is unchanged |
| Engine.GameState.FilterAt | chessEngine.py:66-74 | One round of the filter loop keeps the list equal to the untried prefix followed by the filtered suffix, and restores the state |
| Engine.GameState.TryMove | chessEngine.py:67-74 | Making a move, testing, then undoing it restores the whole state; the test answers whether the move leaves the mover's king attacked |
| Engine.GameState.MakeAndTest | chessEngine.py:67-73 | After making the move, the test answers whether the mover's king is attacked |
| Engine.GameState.MoverInCheck | chessEngine.py:68-73 | Flipping the turn, calling `inCheck` and flipping back asks whether the side that just moved is in check |
| Engine.GameState.SetEndFlags | chessEngine.py:75-82 | With moves left both flags become false; with none, checkmate is set when in check and stalemate otherwise, the other flag unchanged |
| Engine.GameState.InCheck | chessEngine.py:85-90 | The answer is whether the cached square of the side to move's king is attacked; the turn is restored |
| Engine.GameState.SqUnderAttack | chessEngine.py:92-99 | The answer is whether some pseudo-legal move of the opponent ends on the square; the turn is restored |
| Engine.GameState.GetAllPossibleMoves | chessEngine.py:102-112 | The row-by-row scan returns exactly the pseudo-legal moves of the side to move |
| Engine.GameState.CollectSquare | chessEngine.py:109-111 | A square adds its piece's moves when the piece belongs to the side to move, and nothing otherwise |
| Engine.GameState.MoveFunction | chessEngine.py:22-29 | The piece letter selects the generator of that piece |
| Engine.GameState.GetPawnMoves | chessEngine.py:115-134 | The pawn's moves are appended, as the guarded pawn rule lists them |
| Engine.GameState.PawnAdvances | chessEngine.py:117-120 | The straight advances: one square onto an empty square, two from the home row |
| Engine.GameState.PawnCaptureOn | chessEngine.py:121-124 | The diagonal capture onto one side column, when that column exists and holds a piece of the other side |
| Engine.GameState.GetRookMoves | chessEngine.py:137-182 | The rook's four rays are appended: right, left, down, up |
| Engine.GameState.SlideRight | chessEngine.py:140-149 | The "move right" loop appends exactly the ray to the right |
| Engine.GameState.SlideLeft | chessEngine.py:151-160 | The "move left" loop appends exactly the ray to the left |
| Engine.GameState.SlideDown | chessEngine.py:161-170 | The "move down" loop appends exactly the ray downward |
| Engine.GameState.SlideUp | chessEngine.py:172-181 | The "move up" loop appends exactly the ray upward |
| Engine.GameState.GetBishopMoves | chessEngine.py:184-230 | The bishop's four rays are appended: up-right, down-right, down-left, up-left |
| Engine.GameState.SlideUpRight | chessEngine.py:187-197 | The "up-right" loop appends exactly that diagonal ray |
| Engine.GameState.SlideDownRight | chessEngine.py:198-208 | The "down-right" loop appends exactly that diagonal ray |
| Engine.GameState.SlideDownLeft | chessEngine.py:209-219 | The "down-left" loop appends exactly that diagonal ray |
| Engine.GameState.SlideUpLeft | chessEngine.py:220-230 | The "up-left" loop appends exactly that diagonal ray |
| Engine.GameState.GetQueenMoves | chessEngine.py:231-233 | The queen's moves are the bishop's moves followed by the rook's |
| Engine.GameState.JumpMoves | chessEngine.py:235-249 | The offset loop appends a move for each listed offset that lands on the board, is not null, and is not on a piece of the mover's colour |
| Engine.GameState.GetKingMoves | chessEngine.py:235-241 | The king's moves are appended, over the offsets in the order of the two loops |
| Engine.GameState.GetKnightMoves | chessEngine.py:244-249 | The knight's moves are appended, in the order of its jump list |

## Left out

- `chess.py` is not part of this model: window setup, images, drawing, the event loop and mouse handling are user-interface code around a graphics library.
- `Move.__repr__` is not modelled; it returns `getChessNotation()`, which is.
- The `moveFunctions` dictionary of bound methods is a `match` on the piece kind, not a stored table of functions.
- Castling, en passant, promotion and draw rules are not modelled, because the engine does not implement them.
- `Move.__eq__` against an object that is not a `Move` (answer `False`) is not modelled. Dafny's types only allow comparing two moves.
- Engine.GameState.MakeMove: requires a move built on the current board and the object invariant, while the source accepts any move object. The program only applies moves taken from the valid moves, and the make/undo round trip holds only for such moves.
- Positions.RemoveFirst: requires that an equal element is present (Python raises `ValueError` otherwise). The filter only removes the element it has just read from the list.
- Engine.GameState.FilterAt: removes a rejected move after the turn is flipped back and the move undone. The source removes it between those steps. The list is local, so the result and the final state are the same.
- Engine.GameState.GetPawnMoves: follows the guarded pawn rule, which has no move off the last rank. The unguarded code is `Rules.PawnMovesAsWritten`, and the difference is listed under Findings.
- Engine.GameState.SetEndFlags: sets only one flag when no move is left and leaves the other as it was, as the code does. The model does not claim the two flags exclude each other.
- The time and memory cost of regenerating all moves for every tried move is not modelled; only the results are.

## Findings

| source | as written | input that shows it | evidently intended | confidence | as-written member | corrected member |
|---|---|---|---|---|---|---|
| chessEngine.py:117 | `getPawnMoves` reads the square ahead as `board[row - 1]` (white) or `board[row + 1]` (black) without checking that this row exists. There is no promotion, so pawns do reach the last rank | A white pawn on (0, c) with (7, c) empty: Python reads row -1 as row 7 and adds a move to row -1, which `makeMove` then writes onto row 7. A black pawn on (7, c) raises IndexError | A pawn on its last rank has no forward moves, and every generated move stays on the board | high that the code reads off the board on this input; not executed | Rules.PawnAsWrittenLeavesBoard | Rules.PawnMovesOnBoard |
