/** The board engine of board.py: the 64 cells, the six castling flags, the one-ply en passant
    memory and the drag state, with perform_move's validate / apply / roll back / classify /
    record sequence and the brute-force check, checkmate and stalemate probes.

    Each operation is specified by a function over the read-only `Position` view (grid, flags,
    memory). `Play` is the whole effect of perform_move on that view and on the MoveResult; the
    lemmas after it state what a move does, and the class methods are proved to compute it. */
module ChessBoard {
  import opened Pieces
  import opened Squares
  import opened PieceMoves
  import opened MoveResults
  import BoardSetup

  // ---------------------------------------------------------------------------------------------
  // Writing squares

  /** The grid with square s set to p. */
  function Put(g: Grid, s: Square, p: Piece): Grid
    requires InBounds(s)
  {
    g[Index(s) := p]
  }

  /** Writing one square leaves every other square as it was. */
  lemma PutElsewhere(g: Grid, s: Square, p: Piece, t: Square)
    requires InBounds(s) && InBounds(t)
    ensures At(Put(g, s, p), t) == if t == s then p else At(g, t)
  {
  }

  // ---------------------------------------------------------------------------------------------
  // Applying and rolling back a move

  /** _is_en_passant_movement, evaluated before the move is applied: a pawn stepping one row
      forward and one column sideways onto an empty square. Only en passant lets a pawn do that,
      so the pawn it passes is captured. */
  predicate IsEnPassantMovement(g: Grid, piece: Piece, start: Square, end: Square)
    requires InBounds(end)
  {
    (piece == WhitePawn || piece == BlackPawn) &&
    end.row == start.row + Forward(piece == WhitePawn) &&
    (end.col == start.col - 1 || end.col == start.col + 1) &&
    At(g, end) == Empty
  }

  /** The square of the pawn an en passant move captures: one row behind the destination. */
  function EnPassantVictim(piece: Piece, end: Square): Square {
    Square(end.row - Forward(piece == WhitePawn), end.col)
  }

  /** The en passant victim of a move from an on-board square stands beside the start square. */
  lemma EnPassantVictimBesideStart(g: Grid, piece: Piece, start: Square, end: Square)
    requires InBounds(start) && InBounds(end) && IsEnPassantMovement(g, piece, start, end)
    ensures EnPassantVictim(piece, end) == Square(start.row, end.col)
    ensures InBounds(EnPassantVictim(piece, end))
  {
  }

  /** The corner rook that follows the king when it castles: a king moving from column 4 to
      column 6 (or 2) of its home rank brings the rook from column 7 (or 0) to column 5 (or 3). */
  function CastleRookHop(g: Grid, piece: Piece, start: Square, end: Square): Grid {
    if piece == WhiteKing && start == Square(7, 4) && end == Square(7, 6) then
      Put(Put(g, Square(7, 7), Empty), Square(7, 5), WhiteRook)
    else if piece == WhiteKing && start == Square(7, 4) && end == Square(7, 2) then
      Put(Put(g, Square(7, 0), Empty), Square(7, 3), WhiteRook)
    else if piece == BlackKing && start == Square(0, 4) && end == Square(0, 6) then
      Put(Put(g, Square(0, 7), Empty), Square(0, 5), BlackRook)
    else if piece == BlackKing && start == Square(0, 4) && end == Square(0, 2) then
      Put(Put(g, Square(0, 0), Empty), Square(0, 3), BlackRook)
    else g
  }

  /** The grid after perform_move applies a move: the origin emptied, the piece on the end
      square, the en passant victim removed, then the castling rook hop. */
  function ApplyMove(g: Grid, piece: Piece, start: Square, end: Square, enPassant: bool): Grid
    requires InBounds(start) && InBounds(end)
    requires enPassant ==> InBounds(EnPassantVictim(piece, end))
  {
    var moved := Put(Put(g, start, Empty), end, piece);
    var captured := if enPassant then Put(moved, EnPassantVictim(piece, end), Empty) else moved;
    CastleRookHop(captured, piece, start, end)
  }

  /** The undo of perform_move after a self-check: the piece back on its origin, the end square
      emptied, an en passant victim put back. As written, whatever the end square held before
      the move is not restored, and a castling rook stays where it hopped to. */
  function Rollback(g: Grid, piece: Piece, start: Square, end: Square, enPassant: bool): Grid
    requires InBounds(start) && InBounds(end)
    requires enPassant ==> InBounds(EnPassantVictim(piece, end))
  {
    var undone := Put(Put(g, start, piece), end, Empty);
    if enPassant then
      Put(undone, EnPassantVictim(piece, end), if piece == WhitePawn then BlackPawn else WhitePawn)
    else undone
  }

  /** The bookkeeping of an accepted move: the en passant memory, the king-moved flag of a
      moving king, and the rook flag of every corner the move starts from. Flags are only ever
      set, never cleared. */
  function Record(pos: Position, piece: Piece, start: Square): Position {
    pos.(lastMovedPiece := piece,
         lastMovedPieceFrom := start,
         whiteKingMoved := pos.whiteKingMoved || piece == WhiteKing,
         blackKingMoved := pos.blackKingMoved || piece == BlackKing,
         whiteQueenSideRookMoved := pos.whiteQueenSideRookMoved || start == Square(7, 0),
         whiteKingSideRookMoved := pos.whiteKingSideRookMoved || start == Square(7, 7),
         blackQueenSideRookMoved := pos.blackQueenSideRookMoved || start == Square(0, 0),
         blackKingSideRookMoved := pos.blackKingSideRookMoved || start == Square(0, 7))
  }

  /** A position that keeps the grid and carries each recorded field is the recorded position. */
  lemma RecordIsFieldwise(pos: Position, piece: Piece, start: Square, after: Position)
    requires after.grid == pos.grid
    requires after.lastMovedPiece == piece && after.lastMovedPieceFrom == start
    requires after.whiteKingMoved == (pos.whiteKingMoved || piece == WhiteKing)
    requires after.blackKingMoved == (pos.blackKingMoved || piece == BlackKing)
    requires after.whiteQueenSideRookMoved == (pos.whiteQueenSideRookMoved || start == Square(7, 0))
    requires after.whiteKingSideRookMoved == (pos.whiteKingSideRookMoved || start == Square(7, 7))
    requires after.blackQueenSideRookMoved == (pos.blackQueenSideRookMoved || start == Square(0, 0))
    requires after.blackKingSideRookMoved == (pos.blackKingSideRookMoved || start == Square(0, 7))
    ensures after == Record(pos, piece, start)
  {
  }

  // ---------------------------------------------------------------------------------------------
  // Finding the king and detecting check

  function KingOf(white: bool): Piece {
    if white then WhiteKing else BlackKing
  }

  /** The first cell at or after n that holds p, in row-major order; 64 when there is none. */
  function FirstIndexOf(g: Grid, p: Piece, n: nat): (r: nat)
    requires n <= 64
    decreases 64 - n
    ensures n <= r <= 64
    ensures r < 64 ==> g[r] == p
    ensures forall i :: n <= i < r ==> g[i] != p
  {
    if n == 64 then 64 else if g[n] == p then n else FirstIndexOf(g, p, n + 1)
  }

  /** The first index at or after 0 holding p is the i before which no cell holds p, when i
      holds p or is 64. */
  lemma FirstIndexOfIs(g: Grid, p: Piece, i: int)
    requires 0 <= i <= 64
    requires i < 64 ==> g[i] == p
    requires forall j :: 0 <= j < i ==> g[j] != p
    ensures FirstIndexOf(g, p, 0) == i
  {
  }

  /** _find_king: the first square in row-major order holding that colour's king. With no king
      on the board the loops run out and leave (7, 7). */
  function KingSquare(g: Grid, white: bool): (k: Square)
    ensures InBounds(k)
  {
    var i := FirstIndexOf(g, KingOf(white), 0);
    if i < 64 then SquareAt(i) else Square(7, 7)
  }

  /** The king square holds the king, and no square before it does; without a king it is (7, 7). */
  lemma KingSquareMeaning(g: Grid, white: bool)
    ensures var k := KingSquare(g, white);
      (exists s :: InBounds(s) && At(g, s) == KingOf(white)) ==>
        At(g, k) == KingOf(white) &&
        forall s :: InBounds(s) && Index(s) < Index(k) ==> At(g, s) != KingOf(white)
    ensures (forall s :: InBounds(s) ==> At(g, s) != KingOf(white)) ==> KingSquare(g, white) == Square(7, 7)
  {
    var i := FirstIndexOf(g, KingOf(white), 0);
    if exists s :: InBounds(s) && At(g, s) == KingOf(white) {
      var s :| InBounds(s) && At(g, s) == KingOf(white);
      assert i <= Index(s);
    }
    if i < 64 {
      assert At(g, SquareAt(i)) == KingOf(white);
    }
  }

  /** Some square among (row, 0) to (row, col - 1) holds a piece of the other colour that lists
      the king's square among its moves, generated with castling enabled, as
      _is_player_in_check does. */
  predicate CheckInRow(pos: Position, king: Square, white: bool, row: int, col: int)
    requires 0 <= row < 8 && col <= 8
  {
    col > 0 && (CheckInRow(pos, king, white, row, col - 1) ||
                AttacksFrom(pos, Square(row, col - 1), king, !white, false))
  }

  /** Some square of the rows 0 to row - 1 attacks the king in that sense. */
  predicate CheckInRows(pos: Position, king: Square, white: bool, row: int)
    requires row <= 8
  {
    row > 0 && (CheckInRows(pos, king, white, row - 1) || CheckInRow(pos, king, white, row - 1, 8))
  }

  /** _is_player_in_check: the side's king square is reached by an opposing piece. When no
      opposing piece reaches it the source falls off the end of the function, which its callers
      read as false. */
  predicate InCheck(pos: Position, white: bool) {
    CheckInRows(pos, KingSquare(pos.grid, white), white, 8)
  }

  /** Check is the attack query on the king square: castling, which the check test leaves
      enabled, never lands on a king or on (7, 7), so it adds nothing. */
  lemma CheckIsAttackOnKing(pos: Position, white: bool)
    ensures InCheck(pos, white) <==> Attacked(pos, KingSquare(pos.grid, white), !white)
  {
    var k := KingSquare(pos.grid, white);
    KingSquareMeaning(pos.grid, white);
    assert At(pos.grid, k) != Empty || (k.col != 2 && k.col != 6);
    CheckInRowsIsScan(pos, k, white, 8);
  }

  /** An attacker on s puts the king in check, whichever square s is. */
  lemma CheckFrom(pos: Position, king: Square, white: bool, s: Square)
    requires InBounds(s) && AttacksFrom(pos, s, king, !white, false)
    ensures CheckInRows(pos, king, white, 8)
  {
    CheckInRowsHit(pos, king, white, 8, s);
  }

  lemma {:induction false} CheckInRowHit(pos: Position, king: Square, white: bool, row: int, col: int, c: int)
    requires 0 <= row < 8 && 0 <= c < col <= 8
    requires AttacksFrom(pos, Square(row, c), king, !white, false)
    decreases col
    ensures CheckInRow(pos, king, white, row, col)
  {
    if c < col - 1 {
      CheckInRowHit(pos, king, white, row, col - 1, c);
    }
  }

  lemma {:induction false} CheckInRowsHit(pos: Position, king: Square, white: bool, row: int, s: Square)
    requires InBounds(s) && s.row < row <= 8
    requires AttacksFrom(pos, s, king, !white, false)
    decreases row
    ensures CheckInRows(pos, king, white, row)
  {
    if s.row < row - 1 {
      CheckInRowsHit(pos, king, white, row - 1, s);
    } else {
      CheckInRowHit(pos, king, white, s.row, 8, s.col);
    }
  }

  lemma {:induction false} CheckInRowIsScan(pos: Position, king: Square, white: bool, row: int, col: int)
    requires 0 <= row < 8 && 0 <= col <= 8 && InBounds(king)
    requires At(pos.grid, king) != Empty || (king.col != 2 && king.col != 6)
    ensures CheckInRow(pos, king, white, row, col) <==> AttackedInRow(pos, king, !white, row, col)
  {
    if col > 0 {
      CheckInRowIsScan(pos, king, white, row, col - 1);
      AttacksIgnoreCastling(pos, Square(row, col - 1), king, !white);
    }
  }

  lemma {:induction false} CheckInRowsIsScan(pos: Position, king: Square, white: bool, row: int)
    requires 0 <= row <= 8 && InBounds(king)
    requires At(pos.grid, king) != Empty || (king.col != 2 && king.col != 6)
    ensures CheckInRows(pos, king, white, row) <==> AttackedInRows(pos, king, !white, row)
  {
    if row > 0 {
      CheckInRowsIsScan(pos, king, white, row - 1);
      CheckInRowIsScan(pos, king, white, row - 1, 8);
    }
  }

  // ---------------------------------------------------------------------------------------------
  // Checkmate and stalemate probes

  /** The pieces _is_player_in_check_mate(white) tries to move: real pieces of that colour. */
  predicate SideOf(p: Piece, white: bool) {
    p != Empty && (if white then IsWhitePiece(p) else IsBlackPiece(p))
  }

  /** The probe's simulated move: the origin emptied and the piece written on m. Nothing else
      changes: no en passant capture, no rook hop, no flag, no memory. */
  function Simulate(pos: Position, s: Square, m: Square): Position
    requires InBounds(s) && InBounds(m)
  {
    pos.(grid := Put(Put(pos.grid, s, Empty), m, At(pos.grid, s)))
  }

  /** Some move in the list, tried in order from s, leaves the side out of check. */
  predicate EscapesAmong(pos: Position, white: bool, s: Square, moves: seq<Square>)
    requires InBounds(s)
    decreases |moves|
  {
    |moves| > 0 &&
    ((InBounds(moves[0]) && !InCheck(Simulate(pos, s, moves[0]), white)) ||
     EscapesAmong(pos, white, s, moves[1..]))
  }

  /** The scan finds an escape exactly when some on-board listed move, simulated, leaves the
      side out of check. */
  lemma {:induction false} EscapesAmongMeaning(pos: Position, white: bool, s: Square, moves: seq<Square>)
    requires InBounds(s)
    decreases |moves|
    ensures EscapesAmong(pos, white, s, moves) <==>
      exists m :: m in moves && InBounds(m) && !InCheck(Simulate(pos, s, m), white)
  {
    if |moves| > 0 {
      EscapesAmongMeaning(pos, white, s, moves[1..]);
      assert forall m :: m in moves <==> m == moves[0] || m in moves[1..];
    }
  }

  /** The piece on s belongs to the side and one of its generated moves, simulated, leaves the
      side out of check. */
  predicate CanEscapeFrom(pos: Position, white: bool, s: Square)
    requires InBounds(s)
  {
    var p := At(pos.grid, s);
    SideOf(p, white) && EscapesAmong(pos, white, s, MovesFor(pos, p, s, false))
  }

  /** None of the squares (row, 0) to (row, col - 1) offers an escape: the inner loop of the
      probes, scanned left to right. */
  predicate NoEscapeInRow(pos: Position, white: bool, row: int, col: int)
    requires 0 <= row < 8 && col <= 8
  {
    col <= 0 || (NoEscapeInRow(pos, white, row, col - 1) && !CanEscapeFrom(pos, white, Square(row, col - 1)))
  }

  /** None of the rows 0 to row - 1 offers an escape: the outer loop of the probes. */
  predicate NoEscapeInRows(pos: Position, white: bool, row: int)
    requires row <= 8
  {
    row <= 0 || (NoEscapeInRows(pos, white, row - 1) && NoEscapeInRow(pos, white, row - 1, 8))
  }

  /** What _is_player_in_check_mate(white) and _is_stale_mate(!white) return: the scan of the
      64 squares finds no piece of the side with a simulated move that leaves the side out of
      check. Neither probe asks whether the side is in check now, so a side with no legal move
      counts for both. */
  predicate NoSafeMove(pos: Position, white: bool) {
    NoEscapeInRows(pos, white, 8)
  }

  /** Only pieces of the side are tried: an empty square or a piece of the other colour offers
      no escape. */
  lemma CannotEscapeFromOthers(pos: Position, white: bool, s: Square)
    requires InBounds(s) && !SideOf(At(pos.grid, s), white)
    ensures !CanEscapeFrom(pos, white, s)
  {
  }

  /** The scan is the statement about every square: no square of the board offers an escape. */
  lemma NoSafeMoveMeaning(pos: Position, white: bool)
    ensures NoSafeMove(pos, white) <==> forall s :: InBounds(s) ==> !CanEscapeFrom(pos, white, s)
  {
    if NoSafeMove(pos, white) {
      forall s | InBounds(s)
        ensures !CanEscapeFrom(pos, white, s)
      {
        NoEscapeInRowsBelow(pos, white, 8, s);
      }
    }
    if forall s :: InBounds(s) ==> !CanEscapeFrom(pos, white, s) {
      NoEscapeInRowsFromAll(pos, white, 8);
    }
  }

  lemma {:induction false} NoEscapeInRowBelow(pos: Position, white: bool, row: int, col: int, c: int)
    requires 0 <= row < 8 && 0 <= c < col <= 8 && NoEscapeInRow(pos, white, row, col)
    decreases col
    ensures !CanEscapeFrom(pos, white, Square(row, c))
  {
    assert NoEscapeInRow(pos, white, row, col - 1);
    if c < col - 1 {
      NoEscapeInRowBelow(pos, white, row, col - 1, c);
    }
  }

  lemma {:induction false} NoEscapeInRowsBelow(pos: Position, white: bool, row: int, s: Square)
    requires InBounds(s) && s.row < row <= 8 && NoEscapeInRows(pos, white, row)
    decreases row
    ensures !CanEscapeFrom(pos, white, s)
  {
    if s.row < row - 1 {
      NoEscapeInRowsBelow(pos, white, row - 1, s);
    } else {
      NoEscapeInRowBelow(pos, white, s.row, 8, s.col);
    }
  }

  lemma {:induction false} NoEscapeInRowFromAll(pos: Position, white: bool, row: int, col: int)
    requires 0 <= row < 8 && 0 <= col <= 8
    requires forall c :: 0 <= c < col ==> !CanEscapeFrom(pos, white, Square(row, c))
    ensures NoEscapeInRow(pos, white, row, col)
  {
    if col > 0 {
      NoEscapeInRowFromAll(pos, white, row, col - 1);
    }
  }

  lemma {:induction false} NoEscapeInRowsFromAll(pos: Position, white: bool, row: int)
    requires 0 <= row <= 8
    requires forall s :: InBounds(s) ==> !CanEscapeFrom(pos, white, s)
    ensures NoEscapeInRows(pos, white, row)
  {
    if row > 0 {
      var r := row - 1;
      NoEscapeInRowsFromAll(pos, white, r);
      forall c | 0 <= c < 8
        ensures !CanEscapeFrom(pos, white, Square(r, c))
      {
        assert InBounds(Square(r, c));
      }
      NoEscapeInRowFromAll(pos, white, r, 8);
    }
  }

  /** An escape anywhere on the board ends the scan. */
  lemma EscapeEndsScan(pos: Position, white: bool, s: Square)
    requires InBounds(s) && CanEscapeFrom(pos, white, s)
    ensures !NoSafeMove(pos, white)
  {
    if NoSafeMove(pos, white) {
      NoEscapeInRowsBelow(pos, white, 8, s);
    }
  }

  /** Putting back the piece and the square's old occupant undoes a simulated move, also when
      the piece "moves" onto its own square. */
  lemma SimulationUndone(g: Grid, s: Square, m: Square)
    requires InBounds(s) && InBounds(m)
    ensures Put(Put(Put(Put(g, s, Empty), m, At(g, s)), s, At(g, s)), m, At(g, m)) == g
  {
    var r := Put(Put(Put(Put(g, s, Empty), m, At(g, s)), s, At(g, s)), m, At(g, m));
    forall t | InBounds(t) ensures At(r, t) == At(g, t) {}
    forall i | 0 <= i < 64 ensures r[i] == g[i] {
      IndexRoundTrip(SquareAt(i));
    }
  }

  // ---------------------------------------------------------------------------------------------
  // perform_move

  /** A pawn reaching the far row: white on row 0, black on row 7. */
  predicate ReachesLastRow(piece: Piece, end: Square) {
    (piece == WhitePawn && end.row == 0) || (piece == BlackPawn && end.row == 7)
  }

  /** perform_move on the view pos, for the dragged piece from start to end: the new view and
      the result record. The move must be in the piece's generated list (castling enabled). It
      is applied; if the mover's own king is then in check it is rolled back and denied.
      Otherwise the opponent is classified (check, checkmate only when in check, stalemate on
      every move, both probes on the flags and memory from before the move) and the move is
      recorded. */
  ghost function Play(pos: Position, piece: Piece, start: Square, end: Square): (Position, MoveResult)
    requires piece != Empty ==> InBounds(start)
  {
    if piece == Empty || end !in MovesFor(pos, piece, start, false) then (pos, Fresh())
    else
      MovesInBounds(pos, piece, start, false);
      var enPassant := IsEnPassantMovement(pos.grid, piece, start, end);
      Settle(pos.(grid := ApplyMove(pos.grid, piece, start, end, enPassant)), piece, start, end, enPassant)
  }

  /** The middle of perform_move, on the position after the move was applied: roll it back
      and deny it when the mover's own king is in check, otherwise go on to Classify. */
  ghost function Settle(moved: Position, piece: Piece, start: Square, end: Square, enPassant: bool): (Position, MoveResult)
    requires InBounds(start) && InBounds(end)
    requires enPassant ==> InBounds(EnPassantVictim(piece, end))
  {
    if InCheck(moved, IsWhitePiece(piece)) then
      (moved.(grid := Rollback(moved.grid, piece, start, end, enPassant)),
       Fresh().(moveDeniedSelfCheck := true))
    else Classify(moved, piece, start, end)
  }

  /** The second half of perform_move, on the position after an accepted move was applied:
      classify the opponent's situation, then record the move. */
  ghost function Classify(moved: Position, piece: Piece, start: Square, end: Square): (Position, MoveResult) {
    var white := IsWhitePiece(piece);
    var check := InCheck(moved, !white);
    var noSafeMove := NoSafeMove(moved, !white);
    var promote := ReachesLastRow(piece, end);
    (Record(moved, piece, start),
     MoveResult(true, check, false, check && noSafeMove, noSafeMove, promote,
                if promote then end else Square(0, 0)))
  }

  /** A move that is not in the generated list, or with nothing dragged, changes nothing and
      reports a fresh result. An end square off the board is never in the list. */
  lemma RejectedMoveChangesNothing(pos: Position, piece: Piece, start: Square, end: Square)
    requires piece != Empty ==> InBounds(start)
    requires piece == Empty || !InBounds(end) || end !in MovesFor(pos, piece, start, false)
    ensures Play(pos, piece, start, end) == (pos, Fresh())
  {
    if piece != Empty {
      MovesInBounds(pos, piece, start, false);
    }
  }

  /** An accepted move was in the generated list, leaves its origin, and leaves the grid that
      ApplyMove gives; a denied move leaves the flags and memory and the grid that Rollback
      gives from the applied one. Exactly one of the two happens when the move is listed. */
  lemma PlayOutcome(pos: Position, piece: Piece, start: Square, end: Square)
    requires piece != Empty ==> InBounds(start)
    ensures var (after, result) := Play(pos, piece, start, end);
      && !(result.movePerformed && result.moveDeniedSelfCheck)
      && (piece != Empty && end in MovesFor(pos, piece, start, false) <==>
            result.movePerformed || result.moveDeniedSelfCheck)
      && (result.movePerformed || result.moveDeniedSelfCheck ==>
            && piece != Empty && InBounds(start) && InBounds(end) && start != end
            && (result.movePerformed ==>
                  after.grid == ApplyMove(pos.grid, piece, start, end, IsEnPassantMovement(pos.grid, piece, start, end)))
            && (result.moveDeniedSelfCheck ==>
                  after == pos.(grid := Rollback(ApplyMove(pos.grid, piece, start, end,
                                                           IsEnPassantMovement(pos.grid, piece, start, end)),
                                                 piece, start, end, IsEnPassantMovement(pos.grid, piece, start, end)))))
  {
    if piece != Empty && end in MovesFor(pos, piece, start, false) {
      MovesInBounds(pos, piece, start, false);
      MovesLeaveStart(pos, piece, start, false);
    }
  }

  /** For a listed move, the condition that decides between the two outcomes: the move is
      denied exactly when the mover's own king is in check on the applied grid, so an accepted
      move never leaves it in check. The opponent flags of an accepted move are check, mate
      and stalemate of the opponent on that grid. */
  lemma PlayDecidedBySelfCheck(pos: Position, piece: Piece, start: Square, end: Square)
    requires piece != Empty && InBounds(start) && end in MovesFor(pos, piece, start, false)
    ensures InBounds(end)
    ensures IsEnPassantMovement(pos.grid, piece, start, end) ==> InBounds(EnPassantVictim(piece, end))
    ensures var result := Play(pos, piece, start, end).1;
      var white := IsWhitePiece(piece);
      var applied := pos.(grid := ApplyMove(pos.grid, piece, start, end,
                                            IsEnPassantMovement(pos.grid, piece, start, end)));
      && (result.moveDeniedSelfCheck <==> InCheck(applied, white))
      && (result.movePerformed <==> !InCheck(applied, white))
      && (result.movePerformed ==>
            && (result.opponentNowInCheck <==> InCheck(applied, !white))
            && (result.opponentCheckMate <==> InCheck(applied, !white) && NoSafeMove(applied, !white))
            && (result.opponentStaleMate <==> NoSafeMove(applied, !white)))
  {
    PlayIsSettle(pos, piece, start, end);
  }

  /** The applied move: the origin is empty and the end square holds the piece. */
  lemma ApplyMoveMovesPiece(g: Grid, piece: Piece, start: Square, end: Square, enPassant: bool)
    requires InBounds(start) && InBounds(end) && start != end
    requires enPassant ==> IsEnPassantMovement(g, piece, start, end)
    ensures At(ApplyMove(g, piece, start, end, enPassant), start) == Empty
    ensures At(ApplyMove(g, piece, start, end, enPassant), end) == piece
  {
    var moved := Put(Put(g, start, Empty), end, piece);
    PutElsewhere(Put(g, start, Empty), end, piece, start);
    PutElsewhere(g, start, Empty, start);
    PutElsewhere(Put(g, start, Empty), end, piece, end);
    var captured := if enPassant then Put(moved, EnPassantVictim(piece, end), Empty) else moved;
    if enPassant {
      EnPassantVictimBesideStart(g, piece, start, end);
      PutElsewhere(moved, EnPassantVictim(piece, end), Empty, start);
      PutElsewhere(moved, EnPassantVictim(piece, end), Empty, end);
    }
    CastleRookHopKeeps(captured, piece, start, end, start);
    CastleRookHopKeeps(captured, piece, start, end, end);
  }

  /** The rook hop writes only corner and landing squares of the back ranks, never the king's
      origin or destination. */
  lemma CastleRookHopKeeps(g: Grid, piece: Piece, start: Square, end: Square, t: Square)
    requires InBounds(t) && (t == start || t == end || (t.row != 0 && t.row != 7))
    ensures At(CastleRookHop(g, piece, start, end), t) == At(g, t)
  {
    var h := CastleRookHop(g, piece, start, end);
    if piece == WhiteKing && start == Square(7, 4) && end == Square(7, 6) {
      HopKeeps(g, Square(7, 7), Square(7, 5), WhiteRook, t);
    } else if piece == WhiteKing && start == Square(7, 4) && end == Square(7, 2) {
      HopKeeps(g, Square(7, 0), Square(7, 3), WhiteRook, t);
    } else if piece == BlackKing && start == Square(0, 4) && end == Square(0, 6) {
      HopKeeps(g, Square(0, 7), Square(0, 5), BlackRook, t);
    } else if piece == BlackKing && start == Square(0, 4) && end == Square(0, 2) {
      HopKeeps(g, Square(0, 0), Square(0, 3), BlackRook, t);
    } else {
      assert h == g;
    }
  }

  /** A hop from one square to another leaves every third square alone. */
  lemma HopKeeps(g: Grid, from: Square, to: Square, rook: Piece, t: Square)
    requires InBounds(from) && InBounds(to) && InBounds(t) && t != from && t != to
    ensures At(Put(Put(g, from, Empty), to, rook), t) == At(g, t)
  {
    PutElsewhere(g, from, Empty, t);
    PutElsewhere(Put(g, from, Empty), to, rook, t);
  }

  /** An en passant capture empties the square of the pawn passed, beside the origin. */
  lemma ApplyMoveCapturesPassedPawn(g: Grid, piece: Piece, start: Square, end: Square)
    requires InBounds(start) && InBounds(end) && IsEnPassantMovement(g, piece, start, end)
    ensures At(ApplyMove(g, piece, start, end, true), Square(start.row, end.col)) == Empty
  {
    EnPassantVictimBesideStart(g, piece, start, end);
  }

  /** A king castling from column 4 to column 6 (or 2) of its back rank lands there, and the
      rook of column 7 (or 0) moves to column 5 (or 3). */
  lemma ApplyMoveCastles(g: Grid, white: bool, kingSide: bool)
    ensures var row := if white then 7 else 0;
      var a := ApplyMove(g, KingOf(white), Square(row, 4), Square(row, if kingSide then 6 else 2), false);
      && At(a, Square(row, 4)) == Empty
      && At(a, Square(row, if kingSide then 6 else 2)) == KingOf(white)
      && At(a, Square(row, if kingSide then 7 else 0)) == Empty
      && At(a, Square(row, if kingSide then 5 else 3)) == (if white then WhiteRook else BlackRook)
  {
    if white && kingSide {
      assert ApplyMove(g, WhiteKing, Square(7, 4), Square(7, 6), false) ==
             Put(Put(Put(Put(g, Square(7, 4), Empty), Square(7, 6), WhiteKing), Square(7, 7), Empty), Square(7, 5), WhiteRook);
      FourWrites(g, Square(7, 4), Square(7, 6), Square(7, 7), Square(7, 5), Empty, WhiteKing, Empty, WhiteRook);
    } else if white {
      assert ApplyMove(g, WhiteKing, Square(7, 4), Square(7, 2), false) ==
             Put(Put(Put(Put(g, Square(7, 4), Empty), Square(7, 2), WhiteKing), Square(7, 0), Empty), Square(7, 3), WhiteRook);
      FourWrites(g, Square(7, 4), Square(7, 2), Square(7, 0), Square(7, 3), Empty, WhiteKing, Empty, WhiteRook);
    } else if kingSide {
      assert ApplyMove(g, BlackKing, Square(0, 4), Square(0, 6), false) ==
             Put(Put(Put(Put(g, Square(0, 4), Empty), Square(0, 6), BlackKing), Square(0, 7), Empty), Square(0, 5), BlackRook);
      FourWrites(g, Square(0, 4), Square(0, 6), Square(0, 7), Square(0, 5), Empty, BlackKing, Empty, BlackRook);
    } else {
      assert ApplyMove(g, BlackKing, Square(0, 4), Square(0, 2), false) ==
             Put(Put(Put(Put(g, Square(0, 4), Empty), Square(0, 2), BlackKing), Square(0, 0), Empty), Square(0, 3), BlackRook);
      FourWrites(g, Square(0, 4), Square(0, 2), Square(0, 0), Square(0, 3), Empty, BlackKing, Empty, BlackRook);
    }
  }

  /** Four writes to four different squares each leave their own value behind. */
  lemma FourWrites(g: Grid, a: Square, b: Square, c: Square, d: Square, pa: Piece, pb: Piece, pc: Piece, pd: Piece)
    requires InBounds(a) && InBounds(b) && InBounds(c) && InBounds(d)
    requires a != b && a != c && a != d && b != c && b != d && c != d
    ensures var r := Put(Put(Put(Put(g, a, pa), b, pb), c, pc), d, pd);
      At(r, a) == pa && At(r, b) == pb && At(r, c) == pc && At(r, d) == pd
  {
    var r1 := Put(g, a, pa);
    var r2 := Put(r1, b, pb);
    var r3 := Put(r2, c, pc);
    PutElsewhere(g, a, pa, a);
    PutElsewhere(r1, b, pb, a);
    PutElsewhere(r1, b, pb, b);
    PutElsewhere(r2, c, pc, a);
    PutElsewhere(r2, c, pc, b);
    PutElsewhere(r2, c, pc, c);
    PutElsewhere(r3, d, pd, a);
    PutElsewhere(r3, d, pd, b);
    PutElsewhere(r3, d, pd, c);
    PutElsewhere(r3, d, pd, d);
  }

  /** The four king moves after which CastleRookHop moves a rook. */
  predicate IsCastling(piece: Piece, start: Square, end: Square) {
    || (piece == WhiteKing && start == Square(7, 4) && (end == Square(7, 6) || end == Square(7, 2)))
    || (piece == BlackKing && start == Square(0, 4) && (end == Square(0, 6) || end == Square(0, 2)))
  }

  /** Any other square keeps its piece: a move writes only its origin, its end square and the
      passed pawn's square, and a castling move also writes the rook's two squares on its
      home rank. */
  lemma ApplyMoveFrame(g: Grid, piece: Piece, start: Square, end: Square, enPassant: bool, t: Square)
    requires InBounds(start) && InBounds(end) && InBounds(t)
    requires enPassant ==> IsEnPassantMovement(g, piece, start, end)
    requires t != start && t != end && !(enPassant && t == Square(start.row, end.col))
    requires !IsCastling(piece, start, end) || (t.row != 0 && t.row != 7)
    ensures At(ApplyMove(g, piece, start, end, enPassant), t) == At(g, t)
  {
    var moved := Put(Put(g, start, Empty), end, piece);
    PutElsewhere(g, start, Empty, t);
    PutElsewhere(Put(g, start, Empty), end, piece, t);
    var captured := if enPassant then Put(moved, EnPassantVictim(piece, end), Empty) else moved;
    if enPassant {
      EnPassantVictimBesideStart(g, piece, start, end);
      PutElsewhere(moved, EnPassantVictim(piece, end), Empty, t);
    }
    if IsCastling(piece, start, end) {
      CastleRookHopKeeps(captured, piece, start, end, t);
    } else {
      assert CastleRookHop(captured, piece, start, end) == captured;
    }
  }

  /** The undo of a move denied for self-check, applied to the grid after the move (g is the
      grid before it): the piece is back on its origin, the end square is empty, a pawn passed
      en passant is back, and every other square is as the move left it. So a piece that was
      captured on the end square is lost. */
  lemma RollbackRestoresOrigin(g: Grid, piece: Piece, start: Square, end: Square, enPassant: bool)
    requires InBounds(start) && InBounds(end) && start != end
    requires enPassant ==> IsEnPassantMovement(g, piece, start, end)
    ensures enPassant ==> InBounds(EnPassantVictim(piece, end))
    ensures var r := Rollback(ApplyMove(g, piece, start, end, enPassant), piece, start, end, enPassant);
      && At(r, start) == piece
      && At(r, end) == Empty
      && (enPassant ==> At(r, Square(start.row, end.col)) == (if piece == WhitePawn then BlackPawn else WhitePawn))
  {
    if enPassant {
      EnPassantVictimBesideStart(g, piece, start, end);
    }
    IndexRoundTrip(start);
    IndexRoundTrip(end);
    if enPassant {
      IndexRoundTrip(EnPassantVictim(piece, end));
    }
  }

  /** The undo writes only the origin, the end square and the passed pawn's square. */
  lemma RollbackFrame(g: Grid, piece: Piece, start: Square, end: Square, enPassant: bool, t: Square)
    requires InBounds(start) && InBounds(end) && InBounds(t)
    requires enPassant ==> IsEnPassantMovement(g, piece, start, end)
    requires t != start && t != end && !(enPassant && t == Square(start.row, end.col))
    ensures enPassant ==> InBounds(EnPassantVictim(piece, end))
    ensures var a := ApplyMove(g, piece, start, end, enPassant);
      At(Rollback(a, piece, start, end, enPassant), t) == At(a, t)
  {
    var a := ApplyMove(g, piece, start, end, enPassant);
    PutElsewhere(a, start, piece, t);
    PutElsewhere(Put(a, start, piece), end, Empty, t);
    if enPassant {
      EnPassantVictimBesideStart(g, piece, start, end);
      PutElsewhere(Put(Put(a, start, piece), end, Empty), EnPassantVictim(piece, end),
                   if piece == WhitePawn then BlackPawn else WhitePawn, t);
    }
  }

  /** A move denied for self-check leaves the piece on its origin and the end square empty,
      and puts back a pawn it passed en passant. */
  lemma DeniedMoveUndone(pos: Position, piece: Piece, start: Square, end: Square)
    requires piece != Empty ==> InBounds(start)
    requires Play(pos, piece, start, end).1.moveDeniedSelfCheck
    ensures InBounds(start) && InBounds(end)
    ensures var after := Play(pos, piece, start, end).0;
      && At(after.grid, start) == piece
      && At(after.grid, end) == Empty
      && (IsEnPassantMovement(pos.grid, piece, start, end) ==>
            At(after.grid, Square(start.row, end.col)) == (if piece == WhitePawn then BlackPawn else WhitePawn))
  {
    PlayOutcome(pos, piece, start, end);
    RollbackRestoresOrigin(pos.grid, piece, start, end, IsEnPassantMovement(pos.grid, piece, start, end));
  }

  /** The rollback of a castling move leaves the rook on the square it hopped to. */
  lemma RollbackKeepsCastledRook(g: Grid)
    ensures var r := Rollback(ApplyMove(g, WhiteKing, Square(7, 4), Square(7, 6), false),
                              WhiteKing, Square(7, 4), Square(7, 6), false);
      At(r, Square(7, 5)) == WhiteRook && At(r, Square(7, 7)) == Empty && At(r, Square(7, 4)) == WhiteKing
  {
  }

  /** A listed move is applied and then settled. */
  lemma PlayIsSettle(pos: Position, piece: Piece, start: Square, end: Square)
    requires piece != Empty && InBounds(start) && end in MovesFor(pos, piece, start, false)
    ensures InBounds(end)
    ensures var enPassant := IsEnPassantMovement(pos.grid, piece, start, end);
      && (enPassant ==> InBounds(EnPassantVictim(piece, end)))
      && Play(pos, piece, start, end) ==
           Settle(pos.(grid := ApplyMove(pos.grid, piece, start, end, enPassant)), piece, start, end, enPassant)
  {
    MovesInBounds(pos, piece, start, false);
  }

  /** The two positions agree on the flags and the en passant memory. */
  predicate SameBesidesGrid(a: Position, b: Position) {
    && a.whiteKingMoved == b.whiteKingMoved && a.blackKingMoved == b.blackKingMoved
    && a.whiteKingSideRookMoved == b.whiteKingSideRookMoved
    && a.whiteQueenSideRookMoved == b.whiteQueenSideRookMoved
    && a.blackKingSideRookMoved == b.blackKingSideRookMoved
    && a.blackQueenSideRookMoved == b.blackQueenSideRookMoved
    && a.lastMovedPiece == b.lastMovedPiece && a.lastMovedPieceFrom == b.lastMovedPieceFrom
  }

  /** Settling changes, besides the grid, nothing when the move is denied and what Record
      writes when it is accepted. */
  lemma SettleFrame(moved: Position, piece: Piece, start: Square, end: Square, enPassant: bool)
    requires InBounds(start) && InBounds(end)
    requires enPassant ==> InBounds(EnPassantVictim(piece, end))
    ensures var (after, result) := Settle(moved, piece, start, end, enPassant);
      && (!result.movePerformed ==> SameBesidesGrid(after, moved))
      && (result.movePerformed ==> SameBesidesGrid(after, Record(moved, piece, start)))
  {
  }

  /** Besides the grid, a move that is not performed changes nothing: not the flags, not the
      en passant memory. */
  lemma UnperformedMoveKeepsState(pos: Position, piece: Piece, start: Square, end: Square)
    requires piece != Empty ==> InBounds(start)
    requires !Play(pos, piece, start, end).1.movePerformed
    ensures SameBesidesGrid(Play(pos, piece, start, end).0, pos)
  {
    if piece != Empty && end in MovesFor(pos, piece, start, false) {
      PlayIsSettle(pos, piece, start, end);
      var enPassant := IsEnPassantMovement(pos.grid, piece, start, end);
      SettleFrame(pos.(grid := ApplyMove(pos.grid, piece, start, end, enPassant)), piece, start, end, enPassant);
    }
  }

  /** Flags are never cleared by a move. */
  lemma FlagsNeverCleared(pos: Position, piece: Piece, start: Square, end: Square)
    requires piece != Empty ==> InBounds(start)
    ensures var after := Play(pos, piece, start, end).0;
      && (pos.whiteKingMoved ==> after.whiteKingMoved)
      && (pos.blackKingMoved ==> after.blackKingMoved)
      && (pos.whiteKingSideRookMoved ==> after.whiteKingSideRookMoved)
      && (pos.whiteQueenSideRookMoved ==> after.whiteQueenSideRookMoved)
      && (pos.blackKingSideRookMoved ==> after.blackKingSideRookMoved)
      && (pos.blackQueenSideRookMoved ==> after.blackQueenSideRookMoved)
  {
    if Play(pos, piece, start, end).1.movePerformed {
      PerformedMoveRecorded(pos, piece, start, end);
    } else {
      UnperformedMoveKeepsState(pos, piece, start, end);
    }
  }

  /** A performed move changes, besides the grid, exactly what Record writes: it records the
      piece and its origin, marks a moving king, and marks the rook of every corner it starts
      from. */
  lemma PerformedMoveRecorded(pos: Position, piece: Piece, start: Square, end: Square)
    requires piece != Empty ==> InBounds(start)
    requires Play(pos, piece, start, end).1.movePerformed
    ensures SameBesidesGrid(Play(pos, piece, start, end).0, Record(pos, piece, start))
    ensures var after := Play(pos, piece, start, end).0;
      && after.lastMovedPiece == piece && after.lastMovedPieceFrom == start
      && (piece == WhiteKing ==> after.whiteKingMoved)
      && (piece == BlackKing ==> after.blackKingMoved)
      && (start == Square(7, 0) ==> after.whiteQueenSideRookMoved)
      && (start == Square(7, 7) ==> after.whiteKingSideRookMoved)
      && (start == Square(0, 0) ==> after.blackQueenSideRookMoved)
      && (start == Square(0, 7) ==> after.blackKingSideRookMoved)
  {
  }

  /** Checkmate is reported only together with check, and every reported checkmate is also
      reported as stalemate, since both come from the same probe. */
  lemma MateFlags(pos: Position, piece: Piece, start: Square, end: Square)
    requires piece != Empty ==> InBounds(start)
    ensures var result := Play(pos, piece, start, end).1;
      && (result.opponentCheckMate ==> result.opponentNowInCheck)
      && (result.opponentCheckMate ==> result.opponentStaleMate)
      && (result.opponentNowInCheck || result.opponentStaleMate ==> result.movePerformed)
  {
  }

  /** Promotion is offered exactly when a performed move brings a pawn to its far row, at the
      move's end square. */
  lemma PromotionFlag(pos: Position, piece: Piece, start: Square, end: Square)
    requires piece != Empty ==> InBounds(start)
    ensures var result := Play(pos, piece, start, end).1;
      && (result.promoteAvailable <==> result.movePerformed && ReachesLastRow(piece, end))
      && (result.promoteAvailable ==> result.promotePosition == end)
      && (!result.promoteAvailable ==> result.promotePosition == Square(0, 0))
  {
  }

  // ---------------------------------------------------------------------------------------------
  // promote_pawn

  /** The outcome of promote_pawn; the source raises an exception for each error. */
  datatype Promotion = Promoted | InvalidRank | NotAPawn | InvalidNewPiece

  /** promote_pawn's tests, in order. As written the rank test looks at the column, so any pawn
      on column 0 or 7 qualifies, whatever its row, and a pawn on its last row elsewhere does
      not. */
  function PromotionOutcome(g: Grid, pos: Square, newPiece: Piece): Promotion
    requires (pos.col != 0 && pos.col != 7) || 0 <= pos.row <= 7
  {
    if pos.col != 0 && pos.col != 7 then InvalidRank
    else
      var piece := At(g, pos);
      if piece != WhitePawn && piece != BlackPawn then NotAPawn
      else if piece == WhitePawn && newPiece !in {WhiteKnight, WhiteBishop, WhiteRook, WhiteQueen}
      then InvalidNewPiece
      else if piece == BlackPawn && newPiece !in {BlackKnight, BlackBishop, BlackRook, BlackQueen}
      then InvalidNewPiece
      else Promoted
  }

  /** A pawn kind. */
  predicate IsPawn(p: Piece) {
    p == WhitePawn || p == BlackPawn
  }

  /** Promotion succeeds exactly for a pawn on column 0 or 7 becoming a piece of its own
      colour that is neither a pawn nor a king. */
  lemma PromotionMeaning(g: Grid, pos: Square, newPiece: Piece)
    requires (pos.col != 0 && pos.col != 7) || 0 <= pos.row <= 7
    ensures PromotionOutcome(g, pos, newPiece) == Promoted <==>
      (pos.col == 0 || pos.col == 7) && IsPawn(At(g, pos)) &&
      newPiece != Empty && !IsPawn(newPiece) && newPiece != WhiteKing && newPiece != BlackKing &&
      IsWhitePiece(newPiece) == IsWhitePiece(At(g, pos))
  {
  }

  /** The column test in place of the rank test: a white pawn on (3, 0) may be promoted, a
      white pawn on its last row at (0, 3) may not. */
  lemma PromotionTestsColumn(g: Grid)
    requires At(g, Square(3, 0)) == WhitePawn && At(g, Square(0, 3)) == WhitePawn
    ensures PromotionOutcome(g, Square(3, 0), WhiteQueen) == Promoted
    ensures PromotionOutcome(g, Square(0, 3), WhiteQueen) == InvalidRank
  {
  }

  // ---------------------------------------------------------------------------------------------
  // The board object

  class Board {
    /** board_state, row-major: square (r, c) is cells[8r + c]. */
    var cells: array<Piece>
    var whiteKingMoved: bool
    var blackKingMoved: bool
    var whiteKingSideRookMoved: bool
    var whiteQueenSideRookMoved: bool
    var blackKingSideRookMoved: bool
    var blackQueenSideRookMoved: bool
    var lastMovedPiece: Piece
    var lastMovedPieceFrom: Square
    var startDragSquare: Square
    var draggingPiece: Piece

    /** 64 cells, and a dragged piece always comes from a square of the board. */
    predicate Valid()
      reads this
    {
      cells.Length == 64 && (draggingPiece != Empty ==> InBounds(startDragSquare))
    }

    /** The view the move generators read. */
    function Pos(): Position
      reads this, cells
      requires Valid()
    {
      Position(cells[..], whiteKingMoved, blackKingMoved,
               whiteKingSideRookMoved, whiteQueenSideRookMoved,
               blackKingSideRookMoved, blackQueenSideRookMoved,
               lastMovedPiece, lastMovedPieceFrom)
    }

    /** A new board: every cell empty, no flag set, no drag, the memory at (0, 0). */
    constructor ()
      ensures Valid() && fresh(cells)
      ensures Pos() == Position(seq(64, _ => Empty), false, false, false, false, false, false,
                                Empty, Square(0, 0))
      ensures startDragSquare == Square(-1, -1) && draggingPiece == Empty
    {
      cells := new Piece[64](_ => Empty);
      startDragSquare := Square(-1, -1);
      draggingPiece := Empty;
      whiteKingMoved, blackKingMoved := false, false;
      whiteKingSideRookMoved, whiteQueenSideRookMoved := false, false;
      blackKingSideRookMoved, blackQueenSideRookMoved := false, false;
      lastMovedPiece := Empty;
      lastMovedPieceFrom := Square(0, 0);
    }

    /** clear: every cell becomes empty. */
    method Clear()
      requires Valid()
      modifies cells
      ensures cells[..] == seq(64, _ => Empty)
    {
      for row := 0 to 8
        invariant forall j :: 0 <= j < 8 * row ==> cells[j] == Empty
      {
        for col := 0 to 8
          invariant forall j :: 0 <= j < 8 * row + col ==> cells[j] == Empty
        {
          cells[8 * row + col] := Empty;
        }
      }
      assert forall j :: 0 <= j < 64 ==> cells[..][j] == seq(64, _ => Empty)[j];
    }

    /** setup: clear, then the standard start position. */
    method Setup()
      requires Valid()
      modifies cells
      ensures cells[..] == BoardSetup.StartGrid()
    {
      Clear();
      BoardSetup.SetupStandard(cells);
    }

    method IsPieceOnSquare(row: int, col: int) returns (occupied: bool)
      requires Valid() && InBounds(Square(row, col))
      ensures occupied <==> At(Pos().grid, Square(row, col)) != Empty
    {
      occupied := cells[Index(Square(row, col))] != Empty;
    }

    /** start_drag: remember the square and the piece on it. */
    method StartDrag(row: int, col: int)
      requires Valid() && InBounds(Square(row, col))
      modifies this
      ensures Valid() && cells == old(cells) && Pos() == old(Pos())
      ensures startDragSquare == Square(row, col) && draggingPiece == cells[Index(Square(row, col))]
    {
      startDragSquare := Square(row, col);
      draggingPiece := cells[Index(Square(row, col))];
    }

    /** stop_drag: nothing is dragged any more. */
    method StopDrag()
      requires Valid()
      modifies this
      ensures Valid() && cells == old(cells) && Pos() == old(Pos())
      ensures startDragSquare == old(startDragSquare) && draggingPiece == Empty
    {
      draggingPiece := Empty;
    }

    /** _find_king: scan the rows in order and stop at the first square holding the king; when
        there is none both loops run out and leave (7, 7). */
    method FindKing(white: bool) returns (king: Square)
      requires Valid()
      ensures king == KingSquare(Pos().grid, white)
    {
      var target := KingOf(white);
      ghost var g := cells[..];
      for row := 0 to 8
        invariant forall i :: 0 <= i < 8 * row ==> g[i] != target
      {
        for col := 0 to 8
          invariant forall i :: 0 <= i < 8 * row + col ==> g[i] != target
        {
          if cells[8 * row + col] == target {
            FirstIndexOfIs(g, target, 8 * row + col);
            SquareAtIndex(row, col);
            return Square(row, col);
          }
        }
      }
      FirstIndexOfIs(g, target, 64);
      return Square(7, 7);
    }

    /** _is_player_in_check: find the king, then scan the board for a piece of the other colour
        whose moves, castling enabled, include the king's square. */
    method IsPlayerInCheck(white: bool) returns (inCheck: bool)
      requires Valid()
      ensures inCheck == InCheck(Pos(), white)
    {
      var king := FindKing(white);
      var pos := Pos();
      for row := 0 to 8
        invariant !CheckInRows(pos, king, white, row)
      {
        for col := 0 to 8
          invariant !CheckInRow(pos, king, white, row, col)
        {
          var hit := AttacksFromSquare(pos, Square(row, col), king, !white, false);
          if hit {
            CheckFrom(pos, king, white, Square(row, col));
            return true;
          }
        }
      }
      return false;
    }

    /** One try of either probe: move the piece on s to m, ask whether the side is in check,
        and undo the move, putting back the piece that stood on m. */
    method TryMove(s: Square, m: Square, white: bool) returns (stillInCheck: bool)
      requires Valid() && InBounds(s) && InBounds(m)
      modifies cells
      ensures cells[..] == old(cells[..])
      ensures stillInCheck == InCheck(Simulate(old(Pos()), s, m), white)
    {
      ghost var g := cells[..];
      var piece, target := LiftPiece(s, m);
      stillInCheck := IsPlayerInCheck(white);
      PutBack(s, m, piece, target);
      SimulationUndone(g, s, m);
    }

    /** The simulated move of a probe: the piece on s written on m, s emptied. */
    method LiftPiece(s: Square, m: Square) returns (piece: Piece, target: Piece)
      requires Valid() && InBounds(s) && InBounds(m)
      modifies cells
      ensures piece == At(old(cells[..]), s) && target == At(old(cells[..]), m)
      ensures Pos() == Simulate(old(Pos()), s, m)
    {
      piece := cells[Index(s)];
      target := cells[Index(m)];
      cells[Index(s)] := Empty;
      cells[Index(m)] := piece;
    }

    /** The undo of a probe: the piece back on s, the old occupant back on m. */
    method PutBack(s: Square, m: Square, piece: Piece, target: Piece)
      requires Valid() && InBounds(s) && InBounds(m)
      modifies cells
      ensures cells[..] == Put(Put(old(cells[..]), s, piece), m, target)
    {
      cells[Index(s)] := piece;
      cells[Index(m)] := target;
    }

    /** The inner loop of both probes: try each listed move of the piece on s in turn and stop
        at the first that leaves the side out of check. */
    method EscapesWith(s: Square, moves: seq<Square>, white: bool) returns (escapes: bool)
      requires Valid() && InBounds(s)
      requires forall m :: m in moves ==> InBounds(m)
      modifies cells
      ensures cells[..] == old(cells[..])
      ensures escapes == EscapesAmong(old(Pos()), white, s, moves)
    {
      ghost var before := Pos();
      for i := 0 to |moves|
        invariant cells[..] == before.grid
        invariant EscapesAmong(before, white, s, moves) == EscapesAmong(before, white, s, moves[i..])
      {
        var stillInCheck := TryMove(s, moves[i], white);
        assert moves[i..][1..] == moves[i + 1..];
        if !stillInCheck {
          return true;
        }
      }
      return false;
    }

    /** One square of _is_player_in_check_mate(white): skip an empty square and a piece of the
        other colour; otherwise generate the piece's moves, castling enabled, and try them. */
    method MateProbeSquare(s: Square, white: bool) returns (escapes: bool)
      requires Valid() && InBounds(s)
      modifies cells
      ensures cells[..] == old(cells[..])
      ensures escapes == CanEscapeFrom(old(Pos()), white, s)
    {
      var piece := cells[Index(s)];
      if piece != Empty && (if white then IsWhitePiece(piece) else IsBlackPiece(piece)) {
        var moves := GetMovesForPiece(Pos(), piece, s, false);
        escapes := EscapesWith(s, moves, white);
      } else {
        CannotEscapeFromOthers(Pos(), white, s);
        escapes := false;
      }
    }

    /** One square of _is_stale_mate(whitesTurn): skip an empty square and a piece of the side
        to move; otherwise generate the piece's moves, castling enabled, and try them for the
        other side. */
    method StaleProbeSquare(s: Square, whitesTurn: bool) returns (escapes: bool)
      requires Valid() && InBounds(s)
      modifies cells
      ensures cells[..] == old(cells[..])
      ensures escapes == CanEscapeFrom(old(Pos()), !whitesTurn, s)
    {
      var piece := cells[Index(s)];
      if piece != Empty && !(whitesTurn && IsWhitePiece(piece)) && !(!whitesTurn && IsBlackPiece(piece)) {
        var moves := GetMovesForPiece(Pos(), piece, s, false);
        escapes := EscapesWith(s, moves, !whitesTurn);
      } else {
        CannotEscapeFromOthers(Pos(), !whitesTurn, s);
        escapes := false;
      }
    }

    /** _is_player_in_check_mate: for every piece of the side, try every generated move;
        the answer is false as soon as one leaves the side out of check. The board is restored
        after every try. */
    method IsPlayerInCheckMate(white: bool) returns (mate: bool)
      requires Valid()
      modifies cells
      ensures cells[..] == old(cells[..])
      ensures mate == NoSafeMove(old(Pos()), white)
    {
      ghost var before := Pos();
      for row := 0 to 8
        invariant cells[..] == before.grid
        invariant NoEscapeInRows(before, white, row)
      {
        for col := 0 to 8
          invariant cells[..] == before.grid
          invariant NoEscapeInRow(before, white, row, col)
        {
          var escapes := MateProbeSquare(Square(row, col), white);
          if escapes {
            EscapeEndsScan(before, white, Square(row, col));
            return false;
          }
        }
      }
      return true;
    }

    /** _is_stale_mate(whitesTurn): the same probe for the side that is not to move. */
    method IsStaleMate(whitesTurn: bool) returns (stale: bool)
      requires Valid()
      modifies cells
      ensures cells[..] == old(cells[..])
      ensures stale == NoSafeMove(old(Pos()), !whitesTurn)
    {
      ghost var before := Pos();
      for row := 0 to 8
        invariant cells[..] == before.grid
        invariant NoEscapeInRows(before, !whitesTurn, row)
      {
        for col := 0 to 8
          invariant cells[..] == before.grid
          invariant NoEscapeInRow(before, !whitesTurn, row, col)
        {
          var escapes := StaleProbeSquare(Square(row, col), whitesTurn);
          if escapes {
            EscapeEndsScan(before, !whitesTurn, Square(row, col));
            return false;
          }
        }
      }
      return true;
    }

    /** The writes of perform_move that apply a move: origin, end square, en passant victim,
        castling rook. */
    method ApplyMoveInPlace(piece: Piece, start: Square, end: Square, enPassant: bool)
      requires Valid() && InBounds(start) && InBounds(end)
      requires enPassant ==> InBounds(EnPassantVictim(piece, end))
      modifies cells
      ensures cells[..] == ApplyMove(old(cells[..]), piece, start, end, enPassant)
      ensures Pos() == old(Pos()).(grid := ApplyMove(old(cells[..]), piece, start, end, enPassant))
    {
      cells[Index(start)] := Empty;
      cells[Index(end)] := piece;
      if enPassant {
        if piece == WhitePawn {
          cells[Index(Square(end.row + 1, end.col))] := Empty;
        } else {
          cells[Index(Square(end.row - 1, end.col))] := Empty;
        }
      }
      MoveCastlingRook(piece, start, end);
    }

    /** The four castling tests of perform_move, each moving its corner rook beside the king. */
    method MoveCastlingRook(piece: Piece, start: Square, end: Square)
      requires Valid()
      modifies cells
      ensures cells[..] == CastleRookHop(old(cells[..]), piece, start, end)
    {
      if piece == WhiteKing && start == Square(7, 4) && end == Square(7, 6) {
        HopRook(Square(7, 7), Square(7, 5), WhiteRook);
      }
      if piece == WhiteKing && start == Square(7, 4) && end == Square(7, 2) {
        HopRook(Square(7, 0), Square(7, 3), WhiteRook);
      }
      if piece == BlackKing && start == Square(0, 4) && end == Square(0, 6) {
        HopRook(Square(0, 7), Square(0, 5), BlackRook);
      }
      if piece == BlackKing && start == Square(0, 4) && end == Square(0, 2) {
        HopRook(Square(0, 0), Square(0, 3), BlackRook);
      }
    }

    /** One rook hop: the corner emptied, the rook written beside the king. */
    method HopRook(corner: Square, beside: Square, rook: Piece)
      requires Valid() && InBounds(corner) && InBounds(beside)
      modifies cells
      ensures cells[..] == Put(Put(old(cells[..]), corner, Empty), beside, rook)
    {
      cells[Index(corner)] := Empty;
      cells[Index(beside)] := rook;
    }

    /** The undo of perform_move after a self-check. */
    method UndoMove(piece: Piece, start: Square, end: Square, enPassant: bool)
      requires Valid() && InBounds(start) && InBounds(end)
      requires enPassant ==> InBounds(EnPassantVictim(piece, end))
      modifies cells
      ensures cells[..] == Rollback(old(cells[..]), piece, start, end, enPassant)
    {
      cells[Index(start)] := piece;
      cells[Index(end)] := Empty;
      if enPassant {
        if piece == WhitePawn {
          cells[Index(Square(end.row + 1, end.col))] := BlackPawn;
        } else {
          cells[Index(Square(end.row - 1, end.col))] := WhitePawn;
        }
      }
    }

    /** The bookkeeping of perform_move after an accepted move. */
    method RecordMove(piece: Piece, start: Square)
      requires Valid()
      modifies this
      ensures Valid() && cells == old(cells)
      ensures startDragSquare == old(startDragSquare) && draggingPiece == old(draggingPiece)
      ensures lastMovedPiece == piece && lastMovedPieceFrom == start
      ensures whiteKingMoved == (old(whiteKingMoved) || piece == WhiteKing)
      ensures blackKingMoved == (old(blackKingMoved) || piece == BlackKing)
      ensures whiteQueenSideRookMoved == (old(whiteQueenSideRookMoved) || start == Square(7, 0))
      ensures whiteKingSideRookMoved == (old(whiteKingSideRookMoved) || start == Square(7, 7))
      ensures blackQueenSideRookMoved == (old(blackQueenSideRookMoved) || start == Square(0, 0))
      ensures blackKingSideRookMoved == (old(blackKingSideRookMoved) || start == Square(0, 7))
      ensures cells[..] == old(cells[..])
    {
      lastMovedPiece := piece;
      lastMovedPieceFrom := start;
      if piece == WhiteKing {
        whiteKingMoved := true;
      }
      if piece == BlackKing {
        blackKingMoved := true;
      }
      if start.row == 7 && start.col == 0 {
        whiteQueenSideRookMoved := true;
      }
      if start.row == 7 && start.col == 7 {
        whiteKingSideRookMoved := true;
      }
      if start.row == 0 && start.col == 0 {
        blackQueenSideRookMoved := true;
      }
      if start.row == 0 && start.col == 7 {
        blackKingSideRookMoved := true;
      }
    }

    /** perform_move: the dragged piece to end. The board and the result are those Play gives;
        the drag state is left for stop_drag. */
    method PerformMove(end: Square) returns (result: MoveResult)
      requires Valid()
      modifies this, cells
      ensures Valid() && cells == old(cells)
      ensures startDragSquare == old(startDragSquare) && draggingPiece == old(draggingPiece)
      ensures (Pos(), result) == Play(old(Pos()), old(draggingPiece), old(startDragSquare), end)
    {
      result := Fresh();
      if draggingPiece == Empty {
        return;
      }
      var start := startDragSquare;
      var piece := draggingPiece;
      var moves := GetMovesForPiece(Pos(), piece, start, false);
      if end !in moves {
        return;
      }
      MovesInBounds(Pos(), piece, start, false);
      result := PerformListedMove(piece, start, end);
    }

    /** perform_move once the move is known to be in the piece's list: detect en passant,
        apply the move, then settle it. */
    method PerformListedMove(piece: Piece, start: Square, end: Square) returns (result: MoveResult)
      requires Valid() && InBounds(start) && InBounds(end)
      modifies this, cells
      ensures Valid() && cells == old(cells)
      ensures startDragSquare == old(startDragSquare) && draggingPiece == old(draggingPiece)
      ensures var enPassant := IsEnPassantMovement(old(cells[..]), piece, start, end);
        (Pos(), result) == Settle(old(Pos()).(grid := ApplyMove(old(cells[..]), piece, start, end, enPassant)),
                                  piece, start, end, enPassant)
    {
      var enPassant := IsEnPassantMovement(cells[..], piece, start, end);
      ApplyMoveInPlace(piece, start, end, enPassant);
      result := SettleMove(piece, start, end, enPassant);
    }

    /** The self-check test of perform_move on the applied move, with its rollback. */
    method SettleMove(piece: Piece, start: Square, end: Square, enPassant: bool) returns (result: MoveResult)
      requires Valid() && InBounds(start) && InBounds(end)
      requires enPassant ==> InBounds(EnPassantVictim(piece, end))
      modifies this, cells
      ensures Valid() && cells == old(cells)
      ensures startDragSquare == old(startDragSquare) && draggingPiece == old(draggingPiece)
      ensures (Pos(), result) == Settle(old(Pos()), piece, start, end, enPassant)
    {
      var selfCheck := IsPlayerInCheck(IsWhitePiece(piece));
      if selfCheck {
        UndoMove(piece, start, end, enPassant);
        result := Fresh().(moveDeniedSelfCheck := true);
        return;
      }
      result := ClassifyAndRecord(piece, start, end);
    }

    /** The opponent's situation after an accepted move: check, checkmate (probed only when in
        check) and stalemate. The board is restored after the probes. */
    method ClassifyOpponent(whitesTurn: bool) returns (check: bool, mate: bool, stale: bool)
      requires Valid()
      modifies cells
      ensures cells[..] == old(cells[..])
      ensures check == InCheck(old(Pos()), !whitesTurn)
      ensures mate == (check && NoSafeMove(old(Pos()), !whitesTurn))
      ensures stale == NoSafeMove(old(Pos()), !whitesTurn)
    {
      check := IsPlayerInCheck(!whitesTurn);
      mate := false;
      if check {
        mate := IsPlayerInCheckMate(!whitesTurn);
      }
      stale := IsStaleMate(whitesTurn);
    }

    /** The rest of perform_move after an accepted move: the probes on the position just
        reached, then the bookkeeping and the promotion offer. */
    method ClassifyAndRecord(piece: Piece, start: Square, end: Square) returns (result: MoveResult)
      requires Valid()
      modifies this, cells
      ensures Valid() && cells == old(cells)
      ensures startDragSquare == old(startDragSquare) && draggingPiece == old(draggingPiece)
      ensures (Pos(), result) == Classify(old(Pos()), piece, start, end)
    {
      ghost var moved := Pos();
      var check, mate, stale := ClassifyOpponent(IsWhitePiece(piece));
      assert Pos() == moved;
      RecordMove(piece, start);
      RecordIsFieldwise(moved, piece, start, Pos());
      var promote := (piece == WhitePawn && end.row == 0) || (piece == BlackPawn && end.row == 7);
      result := MoveResult(true, check, false, mate, stale, promote, if promote then end else Square(0, 0));
      assert result == Classify(moved, piece, start, end).1;
    }

    /** promote_pawn: replace the pawn on pos by newPiece, or report the error the source
        raises. */
    method PromotePawn(pos: Square, newPiece: Piece) returns (outcome: Promotion)
      requires Valid() && ((pos.col != 0 && pos.col != 7) || 0 <= pos.row <= 7)
      modifies cells
      ensures outcome == PromotionOutcome(old(cells[..]), pos, newPiece)
      ensures cells[..] == if outcome == Promoted then old(cells[..])[Index(pos) := newPiece] else old(cells[..])
    {
      if pos.col != 0 && pos.col != 7 {
        return InvalidRank;
      }
      var piece := cells[Index(pos)];
      if piece != WhitePawn && piece != BlackPawn {
        return NotAPawn;
      }
      if piece == WhitePawn {
        if newPiece != WhiteKnight && newPiece != WhiteBishop && newPiece != WhiteRook && newPiece != WhiteQueen {
          return InvalidNewPiece;
        }
      }
      if piece == BlackPawn {
        if newPiece != BlackKnight && newPiece != BlackBishop && newPiece != BlackRook && newPiece != BlackQueen {
          return InvalidNewPiece;
        }
      }
      cells[Index(pos)] := newPiece;
      return Promoted;
    }
  }
}
