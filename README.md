# Chess move engine: a Dafny model

This project models the rules engine of a small chess game written with PyGame. The modelled parts are:

- the board of 64 cells;
- the pieces and their colours;
- move generation for every kind of piece, including castling and en passant;
- the board's `perform_move`, which validates, applies and records a dragged move and reports check, checkmate, stalemate and promotion;
- the check, checkmate and stalemate scans;
- `promote_pawn`;
- the two premade board setups.

The modules follow the source files:

| module | file | form |
|---|---|---|
| `Squares` | (the board's `[row][col]` indexing) | squares, bounds, the row-major cell index |
| `Pieces` | `piece.py` | datatype and pure predicates |
| `MoveResults` | `move_result.py` | the result record |
| `PieceMoves` | `piece_moves.py` | pure move lists, the methods that build them, the attack scan |
| `BoardSetup` | `board_setup.py` | methods writing into the board's cell array |
| `ChessBoard` | `board.py` | the `Board` class, plus the functions that specify its methods |

**Board and position.**
- The board is a class. Its 64 cells live in an `array<Piece>`, indexed row-major: square `(r, c)` is cell `8r + c`.
- Its fields are:
  - the six castling flags;
  - the en passant memory (`lastMovedPiece`, `lastMovedPieceFrom`);
  - the drag state.
- `Board.Pos()` reads all of these into a `Position` value. Move generation is written over that value.

**How the methods are specified.**
- Every method that changes the board is proved against a pure function of the old state:
  - `Play` for `perform_move`;
  - `ApplyMove` and `Rollback` for the grid writes;
  - `Record` for the bookkeeping;
  - `InCheck` and `NoSafeMove` for the scans;
  - `PromotionOutcome` for `promote_pawn`.
- The rules are then proved about those functions.

**Behaviour kept as written.** The model keeps the engine's behaviour exactly as written, including where it departs from the rules of chess:
- Queenside castling checks only columns 2 and 3. It does not check that column 1 is empty.
- Neither castling side tests the king's own square, so a king in check may castle.
- A pawn's forward push counts as an attack on the square in front of it.
- The empty piece counts as black for `is_black_piece`.
- Undoing a move denied for self-check puts back only an en passant pawn. Any other captured piece is lost from the grid, and a castling rook stays where it hopped to.
- The checkmate and stalemate probes move only the piece. They do not capture en passant or move the castling rook.
- A side with no king is taken to have its king on `(7, 7)`.
- Checkmate is reported only if the side is in check. Stalemate is reported whenever no piece of the side has a safe move, even when that side is in check.
- `promote_pawn` tests the column (0 or 7) where the rank was evidently meant.

## Model

| member | source | states |
|---|---|---|
| Squares.Index | board.py:16-38 | every on-board square has a cell index below 64 |
| Squares.SquareAt | board.py:16-38 | the square of a cell index is on the board and has that index |
| Squares.IndexRoundTrip | board.py:16-38 | index then square gives back the square |
| Squares.SquareAtIndex | board.py:277-285 | cell `8r + c` is square `(r, c)`, the order `_find_king` scans in |
| Pieces.Value | piece.py:9-22 | enum values lie in 0..12, and 0 is exactly `NONE` |
| Pieces.IsWhitePiece | piece.py:24-30 | white means one of the six white kinds (see WhiteIsValuesOneToSix) |
| Pieces.IsBlackPiece | piece.py:32-33 | black means not white, `NONE` included (see BlackIsNotWhite) |
| Pieces.IsEnemyPiece | piece.py:35-43 | an occupied target of the other colour (see EnemyOnPieces, NeverEnemyOfEmpty) |
| Pieces.Mirror | piece.py:9-22 | swapping colour keeps `NONE` and changes the colour of every other piece |
| Pieces.MirrorInvolution | piece.py:9-22 | swapping colour twice is the identity |
| Pieces.WhiteIsValuesOneToSix | piece.py:24-30 | white pieces are exactly the enum values 1 to 6 |
| Pieces.BlackIsNotWhite | piece.py:32-33 | "black" is every value outside 1..6, `NONE` included |
| Pieces.NeverEnemyOfEmpty | piece.py:35-37 | no piece is an enemy of an empty square |
| Pieces.EnemyOnPieces | piece.py:35-43 | between two pieces, enemy means different colours, symmetrically |
| Pieces.NotEnemyOfOwnColour | piece.py:35-43 | a piece is never an enemy of a piece of its own colour |
| Pieces.EmptyIsEnemyOfWhite | piece.py:32-43 | `NONE`, counted as black, treats a white piece as an enemy, though not the reverse |
| MoveResults.Fresh | move_result.py:9-29 | a new result has every flag false and the promotion square (0, 0) |
| BoardSetup.SetupStandard | board_setup.py:15-42 | the cells become the standard layout on rows 0, 1, 6 and 7, and rows 2 to 5 are unchanged |
| BoardSetup.SetupBlackBackRank | board_setup.py:24-41 | row 0 receives rook, knight, bishop, queen, king, bishop, knight, rook, and no other cell changes |
| BoardSetup.SetupWhiteBackRank | board_setup.py:24-42 | row 7 receives the white back rank, and no other cell changes |
| BoardSetup.SetupStaleMate | board_setup.py:10-13 | exactly (0,0), (7,7) and (4,4) are written, with the black king, the white king and the white queen |
| BoardSetup.StartPawnRows | board_setup.py:16-22 | in the start position, row 1 is all black pawns and row 6 all white pawns |
| BoardSetup.StartBackRanks | board_setup.py:24-42 | in the start position, rows 0 and 7 hold the back ranks |
| BoardSetup.StartMiddleEmpty | board.py:69-71 | clearing and then setting up leaves rows 2 to 5 empty |
| BoardSetup.StartRanksMirror | board_setup.py:15-42 | black's rows 0 and 1 mirror white's rows 7 and 6 in colour |
| BoardSetup.StartOneKingEach | board_setup.py:40-42 | the only white king is on (7, 4) and the only black king on (0, 4) |
| PieceMoves.RayPositions | piece_moves.py:126-143 | the i-th square of a ray is i+1 steps along the direction and is on the board |
| PieceMoves.RayContents | piece_moves.py:130-140 | every square of a ray before its last is empty, and the last is empty or an enemy |
| PieceMoves.RayStops | piece_moves.py:130-140 | a ray ending on an empty square stops only where the next square is off the board or unlandable |
| PieceMoves.RayIsClearLine | piece_moves.py:126-143 | a square is on a ray exactly when it lies along the direction, is landable and has only empty squares before it |
| PieceMoves.RayEntryOnClearLine | piece_moves.py:126-143 | every ray entry lies on a clear line from the start |
| PieceMoves.ClearLineInRay | piece_moves.py:126-143 | every landable square at the end of a clear line is on the ray |
| PieceMoves.RayReachesClearSquares | piece_moves.py:126-143 | the ray reaches at least as far as any clear, landable square |
| PieceMoves.BishopMovesAreClearDiagonals | piece_moves.py:119-202 | a bishop's list holds exactly the landable squares at the end of a clear diagonal |
| PieceMoves.RookMovesAreClearLines | piece_moves.py:230-309 | a rook's list holds exactly the landable squares at the end of a clear rank or file |
| PieceMoves.BishopMovesMeaning | piece_moves.py:119-202 | the same statement for all squares at once |
| PieceMoves.RookMovesMeaning | piece_moves.py:230-309 | the same statement for all squares at once |
| PieceMoves.JumpsMeaning | piece_moves.py:220-226 | the jump list holds exactly the landable squares one offset away |
| PieceMoves.KnightMovesAreLShapes | piece_moves.py:204-228 | a knight's list holds exactly the landable squares an L-shape away |
| PieceMoves.KnightOffsetIsJump | piece_moves.py:209-218 | each of the eight knight offsets is an L-shape |
| PieceMoves.KnightJumpOffset | piece_moves.py:209-218 | every L-shape is one of the eight knight offsets |
| PieceMoves.KingStepsAreAdjacent | piece_moves.py:329-346 | a king's steps are exactly the landable adjacent squares |
| PieceMoves.KingOffsetIsStep | piece_moves.py:329-338 | each of the eight king offsets is an adjacent square |
| PieceMoves.KingStepOffset | piece_moves.py:329-338 | every adjacent square is one of the eight king offsets |
| PieceMoves.PawnStepsMembers | piece_moves.py:38-53 | the pawn list holds the diagonal captures of enemies, the free push, and the double push from the home row |
| PieceMoves.WithEnPassantMembers | piece_moves.py:55-71 | the en passant step adds the diagonal behind a pawn that just double-stepped beside it, and nothing else |
| PieceMoves.PawnMovesOnBoard | piece_moves.py:31-117 | pawn moves are on the board, and a pawn on its far row has none |
| PieceMoves.AppendFresh | piece_moves.py:62-63 | appending a square not yet listed keeps a list free of repeats |
| PieceMoves.PawnMovesDistinct | piece_moves.py:55-71 | the en passant membership test keeps the pawn list free of repeats |
| PieceMoves.PawnMovesMeaning | piece_moves.py:31-117 | the pawn list holds exactly the squares of the pawn rules, for both colours |
| PieceMoves.CastlingRequirements | piece_moves.py:348-391 | a castling square is listed only with castling enabled, the king and the rook unmoved, and the landing and crossed squares empty and not attacked |
| PieceMoves.CastleSideRequirements | piece_moves.py:350-370 | the same conditions for one side and one colour |
| PieceMoves.AttackedMeaning | piece_moves.py:396-413 | a square is attacked exactly when some enemy piece, with castling off, lists it |
| PieceMoves.MovesInBounds | piece_moves.py:13-29 | every generated move is on the board |
| PieceMoves.RayInBounds | piece_moves.py:130 | every ray square is on the board |
| PieceMoves.BishopRaysInBounds | piece_moves.py:119-202 | every bishop move is on the board |
| PieceMoves.RookRaysInBounds | piece_moves.py:230-309 | every rook move is on the board |
| PieceMoves.MovesLeaveStart | piece_moves.py:13-29 | no piece lists its own square |
| PieceMoves.RayLeavesStart | piece_moves.py:126-143 | a ray never contains its start |
| PieceMoves.JumpsLeaveStart | piece_moves.py:220-226 | jumps by nonzero offsets never land on the start |
| PieceMoves.CastlingOnlyAddsEmptyLandings | piece_moves.py:348-349 | enabling castling changes the list only at empty squares in columns 2 and 6 |
| PieceMoves.AttacksIgnoreCastling | piece_moves.py:319-323 | for an occupied target, or one outside columns 2 and 6, castling makes no difference to an attack |
| PieceMoves.PawnPushCountsAsAttack | piece_moves.py:46-48 | the square in front of a white pawn counts as attacked by white, as written |
| PieceMoves.WalkRay | piece_moves.py:126-143 | the ray loop produces exactly the ray |
| PieceMoves.RayStep | piece_moves.py:130-143 | one loop step appends the current empty square and continues |
| PieceMoves.MovesForBishop | piece_moves.py:119-202 | the four diagonal loops produce the bishop list, whose members are the clear diagonal squares |
| PieceMoves.MovesForRook | piece_moves.py:230-309 | the four orthogonal loops produce the rook list, whose members are the clear rank and file squares |
| PieceMoves.MovesForQueen | piece_moves.py:311-313 | the queen list is the bishop list followed by the rook list |
| PieceMoves.AppendJumps | piece_moves.py:220-226 | the offset loop appends exactly the landable jump squares |
| PieceMoves.MovesForKnight | piece_moves.py:204-228 | the knight list, whose members are the landable L-shape squares |
| PieceMoves.MovesForKing | piece_moves.py:315-393 | the king's steps followed by any castling squares |
| PieceMoves.CastlingMovesFor | piece_moves.py:348-391 | kingside first, then queenside |
| PieceMoves.CastleSideMoves | piece_moves.py:353-370 | one castling side, with its four tests |
| PieceMoves.GetMovesForPiece | piece_moves.py:13-29 | dispatch on the piece kind, giving an on-board list |
| PieceMoves.MovesFor | piece_moves.py:13-29 | the reference move list per kind: pawn rules, clear diagonals and lines, L-shapes, king steps and castling (see MovesInBounds, MovesLeaveStart and the meaning lemmas) |
| PieceMoves.IsSquareUnderAttack | piece_moves.py:396-413 | the row and column scan answers exactly whether the target is attacked |
| PieceMoves.AttacksFromSquare | piece_moves.py:400-411 | the per-square test: an attacking-colour piece whose list holds the target |
| ChessBoard.PutElsewhere | board.py:150-151 | writing a cell changes that cell only |
| ChessBoard.IsEnPassantMovement | board.py:246-272 | a pawn moving one step diagonally forward onto an empty square (see EnPassantVictimBesideStart, ApplyMoveCapturesPassedPawn) |
| ChessBoard.ApplyMove | board.py:149-187 | the grid after the move's writes (see ApplyMoveMovesPiece, ApplyMoveCastles, ApplyMoveFrame) |
| ChessBoard.Rollback | board.py:191-200 | the grid after the self-check undo (see RollbackRestoresOrigin, RollbackFrame) |
| ChessBoard.EnPassantVictimBesideStart | board.py:153-158 | the pawn captured en passant stands beside the start square, in the end column |
| ChessBoard.RecordIsFieldwise | board.py:217-235 | field-by-field bookkeeping is the recorded position |
| ChessBoard.FirstIndexOf | board.py:277-283 | the first cell from n holding the piece, or 64 if there is none |
| ChessBoard.FirstIndexOfIs | board.py:277-283 | the first occurrence is unique |
| ChessBoard.KingSquare | board.py:275-285 | the found king square is on the board |
| ChessBoard.KingSquareMeaning | board.py:275-285 | it is the first square holding the king in scan order, or (7, 7) when the side has no king |
| ChessBoard.InCheck | board.py:287-313 | the check scan over the board (see CheckIsAttackOnKing) |
| ChessBoard.CheckIsAttackOnKing | board.py:287-313 | a side is in check exactly when its king square is attacked, with castling enabled for the attacker |
| ChessBoard.CheckFrom | board.py:310-313 | an enemy piece listing the king square gives check |
| ChessBoard.CheckInRowHit | board.py:294-313 | a hit in a row is found by that row's scan |
| ChessBoard.CheckInRowsHit | board.py:294-313 | a hit in an earlier row is found by the board scan |
| ChessBoard.CheckInRowIsScan | board.py:294-313 | for an occupied king square, the check scan of a row agrees with the attack scan |
| ChessBoard.CheckInRowsIsScan | board.py:294-313 | the same agreement for the whole board |
| ChessBoard.EscapesAmongMeaning | board.py:336-352 | a piece escapes exactly when one of its moves, made by moving the piece alone, leaves no check |
| ChessBoard.CannotEscapeFromOthers | board.py:322-331 | squares without a piece of the side are skipped |
| ChessBoard.NoSafeMove | board.py:315-391 | the probe scan shared by checkmate and stalemate (see NoSafeMoveMeaning) |
| ChessBoard.NoSafeMoveMeaning | board.py:315-391 | no safe move means no square of the side has an escaping move |
| ChessBoard.NoEscapeInRowBelow | board.py:317-355 | a finished row scan rules out every square it passed |
| ChessBoard.NoEscapeInRowsBelow | board.py:317-355 | a finished board scan rules out every earlier square |
| ChessBoard.NoEscapeInRowFromAll | board.py:317-355 | no escape on any square of a row gives a clean row scan |
| ChessBoard.NoEscapeInRowsFromAll | board.py:317-355 | no escape anywhere gives a clean board scan |
| ChessBoard.EscapeEndsScan | board.py:342-348 | one escaping move makes the answer "not mate" |
| ChessBoard.SimulationUndone | board.py:337-352 | moving a piece and putting both squares back restores the grid |
| ChessBoard.Play | board.py:126-243 | the new position and result of `perform_move` (see PlayOutcome, PlayDecidedBySelfCheck and the lemmas after them) |
| ChessBoard.RejectedMoveChangesNothing | board.py:129-142 | without a dragged piece, or for an unlisted end square, nothing changes and the result is fresh |
| ChessBoard.PlayOutcome | board.py:126-204 | a move is performed or denied for self-check exactly when it is listed, never both; a performed move leaves the applied grid and a denied one the rolled-back grid |
| ChessBoard.PlayDecidedBySelfCheck | board.py:189-215 | a listed move is denied exactly when the mover's king is in check after it, so an accepted move never leaves it in check; an accepted move's opponent flags are check, mate under check, and stalemate of the opponent on the new grid |
| ChessBoard.ApplyMoveMovesPiece | board.py:149-151 | after the move the start is empty and the end holds the piece |
| ChessBoard.CastleRookHopKeeps | board.py:160-187 | the rook hop touches only the back ranks, and never the start or end square |
| ChessBoard.HopKeeps | board.py:165-166 | a rook hop leaves every other square alone |
| ChessBoard.ApplyMoveCapturesPassedPawn | board.py:153-158 | an en passant move empties the passed pawn's square |
| ChessBoard.ApplyMoveCastles | board.py:160-187 | each of the four castlings moves the king two squares and the rook from its corner to the square the king crossed |
| ChessBoard.FourWrites | board.py:161-187 | four writes to distinct cells each keep their value |
| ChessBoard.ApplyMoveFrame | board.py:149-187 | no square changes except the start, the end and the en passant victim, and, for one of the four castlings, squares on the back ranks |
| ChessBoard.RollbackRestoresOrigin | board.py:189-200 | undoing the applied move puts the piece back, empties the end, and puts back a pawn of the other colour after en passant |
| ChessBoard.RollbackFrame | board.py:191-200 | the undo changes no square of the applied grid except the origin, the end and the passed pawn's square, so a captured piece stays lost |
| ChessBoard.DeniedMoveUndone | board.py:189-204 | after a move denied for self-check, the origin holds the piece, the end is empty, and a pawn passed en passant is back |
| ChessBoard.RollbackKeepsCastledRook | board.py:189-200 | undoing a castling leaves the rook on the square it hopped to, as written |
| ChessBoard.PlayIsSettle | board.py:144-215 | a listed move is applied, then settled |
| ChessBoard.SettleFrame | board.py:189-235 | settling changes the bookkeeping only for a performed move, and then exactly as recorded |
| ChessBoard.UnperformedMoveKeepsState | board.py:126-204 | a move that is not performed changes no flag and no en passant memory |
| ChessBoard.FlagsNeverCleared | board.py:217-235 | castling flags are never reset by a move |
| ChessBoard.PerformedMoveRecorded | board.py:217-235 | a performed move records the piece and origin, marks a moving king, and marks the rook of a corner it starts from |
| ChessBoard.MateFlags | board.py:206-215 | checkmate comes only with check, checkmate implies stalemate, and both need a performed move |
| ChessBoard.PromotionFlag | board.py:237-241 | promotion is offered exactly when a performed pawn move reaches the far row, at the end square |
| ChessBoard.PromotionOutcome | board.py:393-417 | the outcome of `promote_pawn`'s tests, in order (see PromotionMeaning) |
| ChessBoard.PromotionMeaning | board.py:393-417 | promotion succeeds exactly for a pawn on column 0 or 7 that becomes a knight, bishop, rook or queen of its own colour |
| ChessBoard.PromotionTestsColumn | board.py:394-395 | a pawn on (3, 0) may be promoted; a pawn on its last row at (0, 3) may not |
| ChessBoard.Board.constructor | board.py:15-60 | an empty board with all flags false, no last move and no drag |
| ChessBoard.Board.Clear | board.py:63-66 | every cell becomes empty |
| ChessBoard.Board.Setup | board.py:69-72 | the cells become the standard start position |
| ChessBoard.Board.IsPieceOnSquare | board.py:112-113 | true exactly when the square is occupied |
| ChessBoard.Board.StartDrag | board.py:115-118 | records the square and its piece; the position is unchanged |
| ChessBoard.Board.StopDrag | board.py:120-122 | drops the dragged piece; the position is unchanged |
| ChessBoard.Board.FindKing | board.py:275-285 | the nested scan returns the king square |
| ChessBoard.Board.IsPlayerInCheck | board.py:287-313 | the nested scan answers exactly whether the side is in check |
| ChessBoard.Board.TryMove | board.py:337-352 | the probe answers check for the simulated position and restores the cells |
| ChessBoard.Board.LiftPiece | board.py:338-340 | the probe's two writes give the simulated position |
| ChessBoard.Board.PutBack | board.py:350-352 | the probe's two undo writes |
| ChessBoard.Board.EscapesWith | board.py:336-352 | the move loop finds an escape exactly when one exists, and restores the cells |
| ChessBoard.Board.MateProbeSquare | board.py:319-352 | one square of the mate scan |
| ChessBoard.Board.StaleProbeSquare | board.py:362-389 | one square of the stalemate scan, probing the side not on move |
| ChessBoard.Board.IsPlayerInCheckMate | board.py:315-355 | mate exactly when no piece of the side has a safe move; the cells are restored |
| ChessBoard.Board.IsStaleMate | board.py:358-391 | stalemate exactly when the opponent has no safe move; the cells are restored |
| ChessBoard.Board.ApplyMoveInPlace | board.py:149-187 | the in-place writes give the applied grid |
| ChessBoard.Board.MoveCastlingRook | board.py:160-187 | the four castling tests give the rook hop |
| ChessBoard.Board.HopRook | board.py:165-166 | empty the corner, then put the rook beside the king |
| ChessBoard.Board.UndoMove | board.py:191-200 | the undo writes give the rolled-back grid |
| ChessBoard.Board.RecordMove | board.py:217-235 | the en passant memory and the king and rook flags, as recorded; the cells are unchanged |
| ChessBoard.Board.PerformMove | board.py:126-243 | the new position and result are exactly `Play` of the old position and drag state |
| ChessBoard.Board.PerformListedMove | board.py:144-243 | a listed move is applied and then settled |
| ChessBoard.Board.SettleMove | board.py:189-243 | self-check denial with undo, or classification and recording |
| ChessBoard.Board.ClassifyOpponent | board.py:206-215 | check of the opponent, mate only under check, and stalemate from the same probe |
| ChessBoard.Board.ClassifyAndRecord | board.py:206-243 | classification, recording and the promotion flag, as `Classify` states |
| ChessBoard.Board.PromotePawn | board.py:393-417 | the outcome of the tests, and exactly one cell written on success |

## Left out

- Rendering, mouse input, images and sound are not modelled. This covers `board_render.py`, `images.py`, `sounds.py`, the game loop in `chess.py` and the board's `hide_square`, `unhide_square`, `draw` and `board_index_from_mouse_pos`. The hidden-square fields and drawing constants are left out with them.
- ChessBoard.Board.constructor: fills the cells with `Empty`. The source fills `board_state` with the integer `0`, which is not `Piece.NONE`. A cell holding `0` counts as black and occupied, is an enemy of every white piece, and makes move dispatch raise. The game never sees such a cell, because it calls `setup()` first (chess.py:38), and that clears the board (board.py:63-72). `last_moved_piece_from` starts as `(0,0)` and is kept as the square (0, 0).
- ChessBoard.Board.IsPieceOnSquare: requires an on-board square. The source can call it off the board:
  - `board_index_from_mouse_pos` tests `>` where `>=` was needed (board.py:101), so a click on the far edge gives row or column 8;
  - chess.py:58 passes that to `is_piece_on_square`, which then raises IndexError (board.py:113).
  The model does not capture that error.
- PieceMoves.GetMovesForPiece: requires a non-empty piece. The source raises an exception for `NONE`, and no caller ever passes it.
- ChessBoard.Board.PromotePawn: each exception `promote_pawn` raises becomes a `Promotion` outcome that leaves the cells unchanged.
- ChessBoard.PromotionOutcome: requires the row to be on the board when the column is 0 or 7, and so does `Board.PromotePawn`. Python's negative row indices, which wrap to the other end of the list, are not modelled.
- ChessBoard.Board.StartDrag: requires an on-board square. Python's negative indices are not modelled.
- `_is_player_in_check` returns `None` when it finds no check. Here that is `false`, as the falsy value it is used as.
- Some helper methods exist here but not in the source. Each states the step of the source method it performs:
  - `CastleSideMoves`, `AttacksFromSquare`;
  - the back-rank helpers of `setup_standard`, whose writes interleave the two colours kind by kind while the helpers write each colour in turn;
  - `TryMove`, `LiftPiece`, `PutBack`, `EscapesWith`, `MateProbeSquare`, `StaleProbeSquare`;
  - `SettleMove`, `ClassifyOpponent`, `ClassifyAndRecord`, `HopRook`, `ApplyMoveInPlace`, `UndoMove`, `RecordMove`, `PerformListedMove`.
- The pawn move lists are built as functions, not by append loops. The order of the list, and the test that skips an en passant square already listed, are the same.
- Moves are values of type `Square`. Tuples, and Python's list-membership test on tuples, become sequence membership.
