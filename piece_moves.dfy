/** Pseudo-legal move generation and the attack query (piece_moves.py).

    The generators read the board but never write it, so they are specified by functions over a
    `Position`, the read-only view of the board object: the grid, the six castling flags and the
    one-ply en-passant memory. The source builds each list with loops; the methods below keep
    those loops and are proved equal to the functions, and the lemmas state what the lists mean.

    Castling generation asks whether squares are attacked, and the attack query generates moves
    again with castling disabled. The recursion is bounded by that flag: every cycle carries the
    measure (Level(disable), k) below, and Level drops from 2 to 0 when castling is disabled. */
module PieceMoves {
  import opened Squares
  import opened Pieces

  /** What the generators read from the board object. */
  datatype Position = Position(
    grid: Grid,
    whiteKingMoved: bool,
    blackKingMoved: bool,
    whiteKingSideRookMoved: bool,
    whiteQueenSideRookMoved: bool,
    blackKingSideRookMoved: bool,
    blackQueenSideRookMoved: bool,
    lastMovedPiece: Piece,
    lastMovedPieceFrom: Square)

  /** The recursion level of a generator: 0 once castling is disabled. */
  function Level(disableCastling: bool): nat {
    if disableCastling then 0 else 2
  }

  // ---------------------------------------------------------------------------------------------
  // Landing squares

  /** A square a knight, king or sliding piece may land on: on the board, and empty or an enemy. */
  predicate CanLand(g: Grid, mover: Piece, t: Square) {
    InBounds(t) && (At(g, t) == Empty || IsEnemyPiece(mover, At(g, t)))
  }

  // ---------------------------------------------------------------------------------------------
  // Sliding rays (bishop, rook, queen)

  predicate IsDirection(dr: int, dc: int) {
    -1 <= dr <= 1 && -1 <= dc <= 1 && (dr != 0 || dc != 0)
  }

  /** One more than the number of steps from s along the direction that stay on the board. */
  function RayBudget(s: Square, dr: int, dc: int): int {
    if dr == 1 then 8 - s.row
    else if dr == -1 then s.row + 1
    else if dc == 1 then 8 - s.col
    else s.col + 1
  }

  /** The squares a sliding piece reaches from `from`, starting k steps out along (dr, dc):
      empty squares are collected, the first occupied square ends the ray and is collected
      only if it holds an enemy of the mover. */
  function Ray(g: Grid, mover: Piece, from: Square, k: nat, dr: int, dc: int): seq<Square>
    requires IsDirection(dr, dc)
    decreases RayBudget(Along(from, k, dr, dc), dr, dc)
  {
    var t := Along(from, k, dr, dc);
    if !InBounds(t) then []
    else if At(g, t) == Empty then [t] + Ray(g, mover, from, k + 1, dr, dc)
    else if IsEnemyPiece(mover, At(g, t)) then [t]
    else []
  }

  /** An on-board empty square. */
  predicate IsEmptySquare(g: Grid, t: Square) {
    InBounds(t) && At(g, t) == Empty
  }

  /** A ray lists consecutive on-board squares along its direction, starting k steps out. */
  lemma {:induction false} RayPositions(g: Grid, mover: Piece, from: Square, k: nat, dr: int, dc: int)
    requires IsDirection(dr, dc)
    decreases RayBudget(Along(from, k, dr, dc), dr, dc)
    ensures var r := Ray(g, mover, from, k, dr, dc);
      forall i :: 0 <= i < |r| ==> r[i] == Along(from, k + i, dr, dc) && InBounds(r[i])
  {
    var t := Along(from, k, dr, dc);
    var r := Ray(g, mover, from, k, dr, dc);
    if IsEmptySquare(g, t) {
      RayPositions(g, mover, from, k + 1, dr, dc);
      var rest := Ray(g, mover, from, k + 1, dr, dc);
      assert r == [t] + rest;
      forall i | 1 <= i < |r| ensures r[i] == Along(from, k + i, dr, dc) && InBounds(r[i]) {
        assert r[i] == Ray(g, mover, from, k + 1, dr, dc)[i - 1];
        assert k + 1 + (i - 1) == k + i;
      }
    }
    assert |r| > 0 ==> r[0] == t && InBounds(t);
  }

  /** Every square of a ray but the last is empty, and the last is a landing square. */
  lemma {:induction false} RayContents(g: Grid, mover: Piece, from: Square, k: nat, dr: int, dc: int)
    requires IsDirection(dr, dc)
    decreases RayBudget(Along(from, k, dr, dc), dr, dc)
    ensures var r := Ray(g, mover, from, k, dr, dc);
      && (forall i :: 0 <= i < |r| - 1 ==> IsEmptySquare(g, r[i]))
      && (|r| > 0 ==> CanLand(g, mover, r[|r| - 1]))
  {
    var t := Along(from, k, dr, dc);
    if IsEmptySquare(g, t) {
      RayContents(g, mover, from, k + 1, dr, dc);
      var rest := Ray(g, mover, from, k + 1, dr, dc);
      var r := [t] + rest;
      assert Ray(g, mover, from, k, dr, dc) == r;
      forall i | 1 <= i < |r| - 1 ensures IsEmptySquare(g, r[i]) {
        assert r[i] == rest[i - 1];
      }
      if rest != [] {
        assert r[|r| - 1] == rest[|rest| - 1];
      }
    }
  }

  /** A ray ends early only at a capture: unless its last square holds an enemy, the square
      after it is off the board or blocked. */
  lemma {:induction false} RayStops(g: Grid, mover: Piece, from: Square, k: nat, dr: int, dc: int)
    requires IsDirection(dr, dc)
    decreases RayBudget(Along(from, k, dr, dc), dr, dc)
    ensures var r := Ray(g, mover, from, k, dr, dc);
      |r| == 0 || IsEmptySquare(g, r[|r| - 1]) ==> !CanLand(g, mover, Along(from, k + |r|, dr, dc))
  {
    var t := Along(from, k, dr, dc);
    if IsEmptySquare(g, t) {
      RayStops(g, mover, from, k + 1, dr, dc);
      var rest := Ray(g, mover, from, k + 1, dr, dc);
      var r := [t] + rest;
      assert Ray(g, mover, from, k, dr, dc) == r;
      assert k + 1 + |rest| == k + |r|;
      if |rest| > 0 {
        assert r[|r| - 1] == rest[|rest| - 1];
      }
    }
  }

  /** t lies j >= 1 steps from s along (dr, dc), every square strictly between is on the board
      and empty, and t itself is a landing square. */
  ghost predicate OnClearLine(g: Grid, mover: Piece, s: Square, t: Square, dr: int, dc: int)
    requires IsDirection(dr, dc)
  {
    exists j :: 1 <= j && t == Along(s, j, dr, dc) && CanLand(g, mover, t) && ClearBefore(g, s, j, dr, dc)
  }

  ghost predicate ClearBefore(g: Grid, s: Square, j: int, dr: int, dc: int)
    requires IsDirection(dr, dc)
  {
    forall i :: 1 <= i < j ==> InBounds(Along(s, i, dr, dc)) && At(g, Along(s, i, dr, dc)) == Empty
  }

  /** A ray from s is exactly the set of squares on a clear line from s in that direction. */
  lemma RayIsClearLine(g: Grid, mover: Piece, s: Square, dr: int, dc: int, t: Square)
    requires IsDirection(dr, dc)
    ensures t in Ray(g, mover, s, 1, dr, dc) <==> OnClearLine(g, mover, s, t, dr, dc)
  {
    if t in Ray(g, mover, s, 1, dr, dc) {
      RayEntryOnClearLine(g, mover, s, dr, dc, t);
    }
    if OnClearLine(g, mover, s, t, dr, dc) {
      ClearLineInRay(g, mover, s, dr, dc, t);
    }
  }

  lemma RayEntryOnClearLine(g: Grid, mover: Piece, s: Square, dr: int, dc: int, t: Square)
    requires IsDirection(dr, dc)
    requires t in Ray(g, mover, s, 1, dr, dc)
    ensures OnClearLine(g, mover, s, t, dr, dc)
  {
    var r := Ray(g, mover, s, 1, dr, dc);
    RayPositions(g, mover, s, 1, dr, dc);
    RayContents(g, mover, s, 1, dr, dc);
    var i :| 0 <= i < |r| && r[i] == t;
    assert ClearBefore(g, s, 1 + i, dr, dc) by {
      forall m | 1 <= m < 1 + i
        ensures InBounds(Along(s, m, dr, dc)) && At(g, Along(s, m, dr, dc)) == Empty
      {
        assert IsEmptySquare(g, r[m - 1]);
        assert r[m - 1] == Along(s, 1 + (m - 1), dr, dc);
      }
    }
    assert t == Along(s, 1 + i, dr, dc);
    assert CanLand(g, mover, t) by {
      if i < |r| - 1 {
        assert IsEmptySquare(g, r[i]);
      }
    }
  }

  lemma ClearLineInRay(g: Grid, mover: Piece, s: Square, dr: int, dc: int, t: Square)
    requires IsDirection(dr, dc)
    requires OnClearLine(g, mover, s, t, dr, dc)
    ensures t in Ray(g, mover, s, 1, dr, dc)
  {
    var r := Ray(g, mover, s, 1, dr, dc);
    var j :| 1 <= j && t == Along(s, j, dr, dc) && CanLand(g, mover, t) && ClearBefore(g, s, j, dr, dc);
    RayPositions(g, mover, s, 1, dr, dc);
    RayReachesClearSquares(g, mover, s, dr, dc, j);
    assert r[j - 1] == t;
  }

  /** A ray is at least as long as any clear line that ends on a landing square. */
  lemma RayReachesClearSquares(g: Grid, mover: Piece, s: Square, dr: int, dc: int, j: int)
    requires IsDirection(dr, dc) && 1 <= j
    requires ClearBefore(g, s, j, dr, dc) && CanLand(g, mover, Along(s, j, dr, dc))
    ensures j <= |Ray(g, mover, s, 1, dr, dc)|
  {
    var r := Ray(g, mover, s, 1, dr, dc);
    RayPositions(g, mover, s, 1, dr, dc);
    RayContents(g, mover, s, 1, dr, dc);
    RayStops(g, mover, s, 1, dr, dc);
    var n := |r|;
    if n < j {
      if n > 0 {
        assert IsEmptySquare(g, Along(s, n, dr, dc));
      }
      assert CanLand(g, mover, Along(s, n + 1, dr, dc));
      assert false;
    }
  }

  /** Bishop rays in the source's order: up-right, down-right, up-left, down-left. */
  function BishopMoves(pos: Position, start: Square): seq<Square>
    requires InBounds(start)
  {
    var g := pos.grid;
    var mover := At(g, start);
    Ray(g, mover, start, 1, -1, 1) + Ray(g, mover, start, 1, 1, 1) +
    Ray(g, mover, start, 1, -1, -1) + Ray(g, mover, start, 1, 1, -1)
  }

  /** Rook rays in the source's order: right, left, up, down. */
  function RookMoves(pos: Position, start: Square): seq<Square>
    requires InBounds(start)
  {
    var g := pos.grid;
    var mover := At(g, start);
    Ray(g, mover, start, 1, 0, 1) + Ray(g, mover, start, 1, 0, -1) +
    Ray(g, mover, start, 1, -1, 0) + Ray(g, mover, start, 1, 1, 0)
  }

  /** Diagonal reach of the piece on start, defined by geometry alone. */
  ghost predicate DiagonalReach(pos: Position, start: Square, t: Square)
    requires InBounds(start)
  {
    var g, mover := pos.grid, At(pos.grid, start);
    OnClearLine(g, mover, start, t, -1, 1) || OnClearLine(g, mover, start, t, 1, 1) ||
    OnClearLine(g, mover, start, t, -1, -1) || OnClearLine(g, mover, start, t, 1, -1)
  }

  /** Orthogonal reach of the piece on start, defined by geometry alone. */
  ghost predicate OrthogonalReach(pos: Position, start: Square, t: Square)
    requires InBounds(start)
  {
    var g, mover := pos.grid, At(pos.grid, start);
    OnClearLine(g, mover, start, t, 0, 1) || OnClearLine(g, mover, start, t, 0, -1) ||
    OnClearLine(g, mover, start, t, -1, 0) || OnClearLine(g, mover, start, t, 1, 0)
  }

  /** Bishop destinations are exactly the diagonal squares reachable over empty squares. */
  lemma BishopMovesAreClearDiagonals(pos: Position, start: Square, t: Square)
    requires InBounds(start)
    ensures t in BishopMoves(pos, start) <==> DiagonalReach(pos, start, t)
  {
    var g, mover := pos.grid, At(pos.grid, start);
    RayIsClearLine(g, mover, start, -1, 1, t);
    RayIsClearLine(g, mover, start, 1, 1, t);
    RayIsClearLine(g, mover, start, -1, -1, t);
    RayIsClearLine(g, mover, start, 1, -1, t);
  }

  /** Rook destinations are exactly the orthogonal squares reachable over empty squares. */
  lemma RookMovesAreClearLines(pos: Position, start: Square, t: Square)
    requires InBounds(start)
    ensures t in RookMoves(pos, start) <==> OrthogonalReach(pos, start, t)
  {
    var g, mover := pos.grid, At(pos.grid, start);
    RayIsClearLine(g, mover, start, 0, 1, t);
    RayIsClearLine(g, mover, start, 0, -1, t);
    RayIsClearLine(g, mover, start, -1, 0, t);
    RayIsClearLine(g, mover, start, 1, 0, t);
  }

  lemma BishopMovesMeaning(pos: Position, start: Square)
    requires InBounds(start)
    ensures forall t :: t in BishopMoves(pos, start) <==> DiagonalReach(pos, start, t)
  {
    forall t ensures t in BishopMoves(pos, start) <==> DiagonalReach(pos, start, t) {
      BishopMovesAreClearDiagonals(pos, start, t);
    }
  }

  lemma RookMovesMeaning(pos: Position, start: Square)
    requires InBounds(start)
    ensures forall t :: t in RookMoves(pos, start) <==> OrthogonalReach(pos, start, t)
  {
    forall t ensures t in RookMoves(pos, start) <==> OrthogonalReach(pos, start, t) {
      RookMovesAreClearLines(pos, start, t);
    }
  }

  // ---------------------------------------------------------------------------------------------
  // Fixed-offset pieces (knight, king)

  const KnightOffsets: seq<(int, int)> :=
    [(-2, 1), (-2, -1), (2, -1), (2, 1), (1, 2), (-1, 2), (-1, -2), (1, -2)]

  const KingOffsets: seq<(int, int)> :=
    [(0, 1), (0, -1), (-1, 0), (1, 0), (-1, 1), (-1, -1), (1, 1), (1, -1)]

  function Offset(s: Square, o: (int, int)): Square {
    Square(s.row + o.0, s.col + o.1)
  }

  /** The landing squares among s + offsets, in the order of the offsets. */
  function Jumps(g: Grid, mover: Piece, s: Square, offsets: seq<(int, int)>): seq<Square>
  {
    if offsets == [] then []
    else
      var t := Offset(s, offsets[|offsets| - 1]);
      Jumps(g, mover, s, offsets[..|offsets| - 1]) + (if CanLand(g, mover, t) then [t] else [])
  }

  /** A square is among the jumps exactly when it is a landing square at one of the offsets. */
  lemma {:induction false} JumpsMeaning(g: Grid, mover: Piece, s: Square, offsets: seq<(int, int)>)
    ensures forall t :: t in Jumps(g, mover, s, offsets) <==>
      CanLand(g, mover, t) && exists k :: 0 <= k < |offsets| && t == Offset(s, offsets[k])
  {
    if offsets != [] {
      var prefix := offsets[..|offsets| - 1];
      JumpsMeaning(g, mover, s, prefix);
      assert forall k :: 0 <= k < |prefix| ==> prefix[k] == offsets[k];
    }
  }

  predicate IsKnightJump(s: Square, t: Square) {
    var dr, dc := t.row - s.row, t.col - s.col;
    ((dr == 1 || dr == -1) && (dc == 2 || dc == -2)) ||
    ((dr == 2 || dr == -2) && (dc == 1 || dc == -1))
  }

  predicate IsKingStep(s: Square, t: Square) {
    -1 <= t.row - s.row <= 1 && -1 <= t.col - s.col <= 1 && t != s
  }

  function KnightMoves(pos: Position, start: Square): seq<Square>
    requires InBounds(start)
  {
    Jumps(pos.grid, At(pos.grid, start), start, KnightOffsets)
  }

  /** Knight destinations are exactly the L-shaped landing squares. */
  lemma KnightMovesAreLShapes(pos: Position, start: Square, t: Square)
    requires InBounds(start)
    ensures t in KnightMoves(pos, start) <==>
      IsKnightJump(start, t) && CanLand(pos.grid, At(pos.grid, start), t)
  {
    JumpsMeaning(pos.grid, At(pos.grid, start), start, KnightOffsets);
    if t in KnightMoves(pos, start) {
      var k :| 0 <= k < |KnightOffsets| && t == Offset(start, KnightOffsets[k]);
      KnightOffsetIsJump(start, k);
    } else if IsKnightJump(start, t) {
      var k := KnightJumpOffset(start, t);
      assert t == Offset(start, KnightOffsets[k]);
    }
  }

  lemma KnightOffsetIsJump(s: Square, k: int)
    requires 0 <= k < |KnightOffsets|
    ensures IsKnightJump(s, Offset(s, KnightOffsets[k]))
  {
  }

  /** The index of the knight offset that leads from s to t, an L-shape away. */
  function KnightJumpOffset(s: Square, t: Square): (k: int)
    requires IsKnightJump(s, t)
    ensures 0 <= k < |KnightOffsets| && t == Offset(s, KnightOffsets[k])
  {
    var d := (t.row - s.row, t.col - s.col);
    if d == (-2, 1) then 0 else if d == (-2, -1) then 1 else if d == (2, -1) then 2
    else if d == (2, 1) then 3 else if d == (1, 2) then 4 else if d == (-1, 2) then 5
    else if d == (-1, -2) then 6 else 7
  }

  /** The non-castling king destinations are exactly the adjacent landing squares. */
  lemma KingStepsAreAdjacent(g: Grid, start: Square, t: Square)
    requires InBounds(start)
    ensures t in Jumps(g, At(g, start), start, KingOffsets) <==>
      IsKingStep(start, t) && CanLand(g, At(g, start), t)
  {
    JumpsMeaning(g, At(g, start), start, KingOffsets);
    if t in Jumps(g, At(g, start), start, KingOffsets) {
      var k :| 0 <= k < |KingOffsets| && t == Offset(start, KingOffsets[k]);
      KingOffsetIsStep(start, k);
    } else if IsKingStep(start, t) {
      var k := KingStepOffset(start, t);
      assert t == Offset(start, KingOffsets[k]);
    }
  }

  lemma KingOffsetIsStep(s: Square, k: int)
    requires 0 <= k < |KingOffsets|
    ensures IsKingStep(s, Offset(s, KingOffsets[k]))
  {
  }

  /** The index of the king offset that leads from s to the adjacent square t. */
  function KingStepOffset(s: Square, t: Square): (k: int)
    requires IsKingStep(s, t)
    ensures 0 <= k < |KingOffsets| && t == Offset(s, KingOffsets[k])
  {
    var d := (t.row - s.row, t.col - s.col);
    if d == (0, 1) then 0 else if d == (0, -1) then 1 else if d == (-1, 0) then 2
    else if d == (1, 0) then 3 else if d == (-1, 1) then 4 else if d == (-1, -1) then 5
    else if d == (1, 1) then 6 else 7
  }

  // ---------------------------------------------------------------------------------------------
  // Pawns

  /** Row direction of a pawn's advance: white moves towards row 0, black towards row 7. */
  function Forward(white: bool): int {
    if white then -1 else 1
  }

  function PawnOf(white: bool): Piece {
    if white then WhitePawn else BlackPawn
  }

  function LastRow(white: bool): int {
    if white then 0 else 7
  }

  function HomeRow(white: bool): int {
    if white then 6 else 1
  }

  /** En passant towards column s.col + side: an enemy pawn stands beside s and the memory says
      that pawn kind was the last piece moved, from two rows ahead in that column. */
  predicate EnPassantBeside(pos: Position, s: Square, white: bool, side: int)
    requires InBounds(s) && 0 <= s.col + side <= 7
  {
    var foe := PawnOf(!white);
    At(pos.grid, Square(s.row, s.col + side)) == foe &&
    pos.lastMovedPiece == foe &&
    pos.lastMovedPieceFrom == Square(s.row + 2 * Forward(white), s.col + side)
  }

  /** The captures and pushes of a pawn not on its last row, in the source's order: left
      capture, right capture, single push, double push from the home row. */
  function PawnSteps(pos: Position, s: Square, white: bool): seq<Square>
    requires InBounds(s) && s.row != LastRow(white)
  {
    var g, own, c := pos.grid, PawnOf(white), s.col;
    var ahead := s.row + Forward(white);
    var double := Square(s.row + 2 * Forward(white), c);
    (if c > 0 && IsEnemyPiece(own, At(g, Square(ahead, c - 1))) then [Square(ahead, c - 1)] else []) +
    (if c < 7 && IsEnemyPiece(own, At(g, Square(ahead, c + 1))) then [Square(ahead, c + 1)] else []) +
    (if At(g, Square(ahead, c)) == Empty then [Square(ahead, c)] else []) +
    (if s.row == HomeRow(white) && At(g, Square(ahead, c)) == Empty && At(g, double) == Empty
     then [double] else [])
  }

  /** The en passant step towards column s.col + side, appended unless the capture test has
      already listed that square. The source's column test (greater than 0 on the left, less
      than 7 on the right) is the neighbour column being on the board. */
  function WithEnPassant(pos: Position, s: Square, white: bool, side: int, moves: seq<Square>): seq<Square>
    requires InBounds(s) && s.row != LastRow(white) && (side == -1 || side == 1)
  {
    var target := Square(s.row + Forward(white), s.col + side);
    if 0 <= s.col + side <= 7 && EnPassantBeside(pos, s, white, side) && target !in moves
    then moves + [target] else moves
  }

  /** moves_for_white_pawn (white) and moves_for_black_pawn (black): nothing from the last row,
      otherwise the steps, then the left and the right en passant square. */
  function PawnMoves(pos: Position, s: Square, white: bool): seq<Square>
    requires InBounds(s)
  {
    if s.row == LastRow(white) then []
    else WithEnPassant(pos, s, white, 1, WithEnPassant(pos, s, white, -1, PawnSteps(pos, s, white)))
  }

  /** The destinations a pawn may reach, stated square by square. */
  ghost predicate PawnReaches(pos: Position, s: Square, white: bool, t: Square)
    requires InBounds(s)
  {
    var g, fwd := pos.grid, Forward(white);
    s.row != LastRow(white) && InBounds(t) &&
    ( (t == Square(s.row + fwd, s.col) && At(g, t) == Empty)
    || (t == Square(s.row + 2 * fwd, s.col) && s.row == HomeRow(white) &&
        At(g, Square(s.row + fwd, s.col)) == Empty && At(g, t) == Empty)
    || (t.row == s.row + fwd && (t.col == s.col - 1 || t.col == s.col + 1) &&
        (IsEnemyPiece(PawnOf(white), At(g, t)) || EnPassantBeside(pos, s, white, t.col - s.col))))
  }

  /** A pawn's steps and captures are exactly the squares PawnReaches names without en passant. */
  lemma PawnStepsMembers(pos: Position, s: Square, white: bool, t: Square)
    requires InBounds(s) && s.row != LastRow(white)
    ensures t in PawnSteps(pos, s, white) <==>
      var g, fwd := pos.grid, Forward(white);
      InBounds(t) &&
      ( (t == Square(s.row + fwd, s.col) && At(g, t) == Empty)
      || (t == Square(s.row + 2 * fwd, s.col) && s.row == HomeRow(white) &&
          At(g, Square(s.row + fwd, s.col)) == Empty && At(g, t) == Empty)
      || (t.row == s.row + fwd && (t.col == s.col - 1 || t.col == s.col + 1) &&
          IsEnemyPiece(PawnOf(white), At(g, t))))
  {
  }

  /** The en passant step adds at most its own target square. */
  lemma WithEnPassantMembers(pos: Position, s: Square, white: bool, side: int, moves: seq<Square>, t: Square)
    requires InBounds(s) && s.row != LastRow(white) && (side == -1 || side == 1)
    ensures t in WithEnPassant(pos, s, white, side, moves) <==>
      t in moves ||
      (t == Square(s.row + Forward(white), s.col + side) && 0 <= s.col + side <= 7 &&
       EnPassantBeside(pos, s, white, side))
  {
  }

  /** Pawn moves are on the board, and none is offered from the last row. */
  lemma PawnMovesOnBoard(pos: Position, s: Square, white: bool)
    requires InBounds(s)
    ensures forall t :: t in PawnMoves(pos, s, white) ==> InBounds(t)
    ensures s.row == LastRow(white) ==> PawnMoves(pos, s, white) == []
  {
    if s.row != LastRow(white) {
      forall t | t in PawnMoves(pos, s, white) ensures InBounds(t) {
        PawnMovesMeaning(pos, s, white, t);
      }
    }
  }

  /** No square is listed twice. */
  predicate NoRepeats(r: seq<Square>) {
    forall i, j :: 0 <= i < j < |r| ==> r[i] != r[j]
  }

  /** Appending a square not yet listed keeps a list free of repeats. */
  lemma AppendFresh(r: seq<Square>, x: Square)
    requires NoRepeats(r) && x !in r
    ensures NoRepeats(r + [x])
  {
    var r' := r + [x];
    forall i, j | 0 <= i < j < |r'| ensures r'[i] != r'[j] {
      assert r'[i] == r[i];
      if j < |r| {
        assert r'[j] == r[j];
      }
    }
  }

  /** No pawn move is listed twice: the step and capture squares differ from each other, and
      the en passant squares are appended only when not already listed. */
  lemma PawnMovesDistinct(pos: Position, s: Square, white: bool)
    requires InBounds(s)
    ensures NoRepeats(PawnMoves(pos, s, white))
  {
    if s.row != LastRow(white) {
      var steps := PawnSteps(pos, s, white);
      var left := WithEnPassant(pos, s, white, -1, steps);
      var target := Square(s.row + Forward(white), s.col - 1);
      assert NoRepeats(steps);
      if left != steps {
        AppendFresh(steps, target);
      }
      if WithEnPassant(pos, s, white, 1, left) != left {
        AppendFresh(left, Square(s.row + Forward(white), s.col + 1));
      }
    }
  }

  /** A pawn's moves are exactly the single push onto an empty square, the double push from the
      home row over two empty squares, and the diagonal step onto an enemy or beside an enemy
      pawn that the memory says has just left the square two rows ahead. */
  lemma PawnMovesMeaning(pos: Position, s: Square, white: bool, t: Square)
    requires InBounds(s)
    ensures t in PawnMoves(pos, s, white) <==> PawnReaches(pos, s, white, t)
  {
    if s.row != LastRow(white) {
      var left := WithEnPassant(pos, s, white, -1, PawnSteps(pos, s, white));
      PawnStepsMembers(pos, s, white, t);
      WithEnPassantMembers(pos, s, white, -1, PawnSteps(pos, s, white), t);
      WithEnPassantMembers(pos, s, white, 1, left, t);
    }
  }

  // ---------------------------------------------------------------------------------------------
  // Kings, castling, dispatch and the attack query (mutually recursive)

  /** One castling candidate of one colour's unmoved king: on the king side the king lands on
      column 6 and crosses column 5, on the queen side it lands on column 2 and crosses column 3.
      The candidate is offered when that rook is unmoved, both squares are empty and neither is
      attacked by the other colour. Neither side tests the king's own square, so a king in check
      may castle on either side; the queen side also leaves the b-file square untested. Both
      depart from article 3.8 of the FIDE Laws of Chess. */
  function CastleSide(pos: Position, white: bool, kingSide: bool): seq<Square>
    decreases 2, 0
  {
    var row := if white then 7 else 0;
    var rookMoved :=
      if white then (if kingSide then pos.whiteKingSideRookMoved else pos.whiteQueenSideRookMoved)
      else (if kingSide then pos.blackKingSideRookMoved else pos.blackQueenSideRookMoved);
    var crossed := Square(row, if kingSide then 5 else 3);
    var landing := Square(row, if kingSide then 6 else 2);
    if !rookMoved && At(pos.grid, crossed) == Empty && At(pos.grid, landing) == Empty &&
       !Attacked(pos, crossed, !white) && !Attacked(pos, landing, !white)
    then [landing] else []
  }

  /** The castling candidates of one colour's unmoved king, king side first. */
  function CastlingFor(pos: Position, white: bool): seq<Square>
    decreases 2, 1
  {
    CastleSide(pos, white, true) + CastleSide(pos, white, false)
  }

  /** The castling part of moves_for_king: nothing when castling is disabled, otherwise the
      candidates of an unmoved white or black king standing on start. */
  function Castling(pos: Position, start: Square, disableCastling: bool): seq<Square>
    requires InBounds(start)
    decreases Level(disableCastling), 2
  {
    if disableCastling then []
    else
      var mover := At(pos.grid, start);
      (if mover == WhiteKing && !pos.whiteKingMoved then CastlingFor(pos, true) else []) +
      (if mover == BlackKing && !pos.blackKingMoved then CastlingFor(pos, false) else [])
  }

  /** Every castling destination is an empty square on the king's back rank, two columns from
      the king's home square, offered only to an unmoved king with the matching rook unmoved,
      the square between empty, and neither square it crosses nor lands on attacked. */
  lemma CastlingRequirements(pos: Position, start: Square, disableCastling: bool, t: Square)
    requires InBounds(start) && t in Castling(pos, start, disableCastling)
    ensures !disableCastling && InBounds(t) && At(pos.grid, t) == Empty
    ensures t == Square(7, 6) || t == Square(7, 2) || t == Square(0, 6) || t == Square(0, 2)
    ensures t.row == 7 ==> At(pos.grid, start) == WhiteKing && !pos.whiteKingMoved
    ensures t.row == 0 ==> At(pos.grid, start) == BlackKing && !pos.blackKingMoved
    ensures t == Square(7, 6) ==> !pos.whiteKingSideRookMoved && At(pos.grid, Square(7, 5)) == Empty
    ensures t == Square(7, 2) ==> !pos.whiteQueenSideRookMoved && At(pos.grid, Square(7, 3)) == Empty
    ensures t == Square(0, 6) ==> !pos.blackKingSideRookMoved && At(pos.grid, Square(0, 5)) == Empty
    ensures t == Square(0, 2) ==> !pos.blackQueenSideRookMoved && At(pos.grid, Square(0, 3)) == Empty
    ensures !Attacked(pos, t, t.row == 0)
    ensures t.col == 6 ==> !Attacked(pos, Square(t.row, 5), t.row == 0)
    ensures t.col == 2 ==> !Attacked(pos, Square(t.row, 3), t.row == 0)
  {
    var mover := At(pos.grid, start);
    var white := if mover == WhiteKing && !pos.whiteKingMoved then CastlingFor(pos, true) else [];
    var black := if mover == BlackKing && !pos.blackKingMoved then CastlingFor(pos, false) else [];
    assert Castling(pos, start, disableCastling) == white + black;
    var side := t in white;
    assert t in (if side then white else black);
    assert t in CastlingFor(pos, side);
    if t in CastleSide(pos, side, true) {
      CastleSideRequirements(pos, side, true, t);
    } else {
      CastleSideRequirements(pos, side, false, t);
    }
  }

  /** What one castling candidate demands: its landing and crossed squares on the back rank are
      empty and not attacked by the other colour, and its rook is unmoved. */
  lemma CastleSideRequirements(pos: Position, white: bool, kingSide: bool, t: Square)
    requires t in CastleSide(pos, white, kingSide)
    ensures t == Square(if white then 7 else 0, if kingSide then 6 else 2)
    ensures At(pos.grid, t) == Empty && !Attacked(pos, t, !white)
    ensures var crossed := Square(t.row, if kingSide then 5 else 3);
      At(pos.grid, crossed) == Empty && !Attacked(pos, crossed, !white)
    ensures white && kingSide ==> !pos.whiteKingSideRookMoved
    ensures white && !kingSide ==> !pos.whiteQueenSideRookMoved
    ensures !white && kingSide ==> !pos.blackKingSideRookMoved
    ensures !white && !kingSide ==> !pos.blackQueenSideRookMoved
  {
  }

  function KingMoves(pos: Position, start: Square, disableCastling: bool): seq<Square>
    requires InBounds(start)
    decreases Level(disableCastling), 3
  {
    Jumps(pos.grid, At(pos.grid, start), start, KingOffsets) + Castling(pos, start, disableCastling)
  }

  /** get_moves_for_piece. The source raises for the empty value; every caller skips it. */
  function MovesFor(pos: Position, piece: Piece, s: Square, disableCastling: bool): seq<Square>
    requires piece != Empty && InBounds(s)
    decreases Level(disableCastling), 4
  {
    match piece
    case WhitePawn => PawnMoves(pos, s, true)
    case BlackPawn => PawnMoves(pos, s, false)
    case WhiteBishop | BlackBishop => BishopMoves(pos, s)
    case WhiteRook | BlackRook => RookMoves(pos, s)
    case WhiteQueen | BlackQueen => BishopMoves(pos, s) + RookMoves(pos, s)
    case WhiteKing | BlackKing => KingMoves(pos, s, disableCastling)
    case WhiteKnight | BlackKnight => KnightMoves(pos, s)
  }

  /** The square s holds a piece, and that piece attacks t. */
  predicate AttacksFrom(pos: Position, s: Square, t: Square, whiteAttacking: bool, disableCastling: bool)
    requires InBounds(s)
    decreases Level(disableCastling), 6
  {
    At(pos.grid, s) != Empty && PieceAttacks(pos, At(pos.grid, s), s, t, whiteAttacking, disableCastling)
  }

  /** The piece p, standing on s, is not of the other colour than the attacking side and lists t
      among its moves. */
  predicate PieceAttacks(pos: Position, p: Piece, s: Square, t: Square, whiteAttacking: bool, disableCastling: bool)
    requires p != Empty && InBounds(s)
    decreases Level(disableCastling), 5
  {
    !(whiteAttacking && IsBlackPiece(p)) &&
    !(!whiteAttacking && IsWhitePiece(p)) &&
    t in MovesFor(pos, p, s, disableCastling)
  }

  /** Some square among (row, 0) to (row, col - 1) holds a piece of the attacking colour that
      lists t among its moves, generated with castling disabled: the inner loop of
      _is_square_under_attack. */
  predicate AttackedInRow(pos: Position, t: Square, whiteAttacking: bool, row: int, col: int)
    requires 0 <= row < 8 && 0 <= col <= 8
    decreases 1, 10 * row + col
  {
    col > 0 && (AttackedInRow(pos, t, whiteAttacking, row, col - 1) ||
                AttacksFrom(pos, Square(row, col - 1), t, whiteAttacking, true))
  }

  /** Some square of the rows 0 to row - 1 holds an attacker of t: the outer loop. */
  predicate AttackedInRows(pos: Position, t: Square, whiteAttacking: bool, row: int)
    requires 0 <= row <= 8
    decreases 1, 10 * row + 9
  {
    row > 0 && (AttackedInRows(pos, t, whiteAttacking, row - 1) ||
                AttackedInRow(pos, t, whiteAttacking, row - 1, 8))
  }

  /** _is_square_under_attack: some square of the board holds an attacker of t. */
  predicate Attacked(pos: Position, t: Square, whiteAttacking: bool)
    decreases 1, 90
  {
    AttackedInRows(pos, t, whiteAttacking, 8)
  }

  /** An attacker on (row, c) is found by the scan of the first col squares of the row, for any
      col beyond c. */
  lemma {:induction false} AttackedInRowHit(pos: Position, t: Square, whiteAttacking: bool, row: int, col: int, c: int)
    requires 0 <= row < 8 && 0 <= c < col <= 8
    requires AttacksFrom(pos, Square(row, c), t, whiteAttacking, true)
    decreases col
    ensures AttackedInRow(pos, t, whiteAttacking, row, col)
  {
    if c < col - 1 {
      AttackedInRowHit(pos, t, whiteAttacking, row, col - 1, c);
    }
  }

  /** An attacker on s is found by the scan of every row count beyond s.row. */
  lemma {:induction false} AttackedInRowsHit(pos: Position, t: Square, whiteAttacking: bool, row: int, s: Square)
    requires InBounds(s) && s.row < row <= 8
    requires AttacksFrom(pos, s, t, whiteAttacking, true)
    decreases row
    ensures AttackedInRows(pos, t, whiteAttacking, row)
  {
    if s.row < row - 1 {
      AttackedInRowsHit(pos, t, whiteAttacking, row - 1, s);
    } else {
      AttackedInRowHit(pos, t, whiteAttacking, s.row, 8, s.col);
    }
  }

  /** A scan of a row that finds an attacker names it: a column before col. */
  lemma {:induction false} AttackerInRow(pos: Position, t: Square, whiteAttacking: bool, row: int, col: int)
    returns (c: int)
    requires 0 <= row < 8 && 0 <= col <= 8
    requires AttackedInRow(pos, t, whiteAttacking, row, col)
    ensures 0 <= c < col && AttacksFrom(pos, Square(row, c), t, whiteAttacking, true)
  {
    if AttackedInRow(pos, t, whiteAttacking, row, col - 1) {
      c := AttackerInRow(pos, t, whiteAttacking, row, col - 1);
    } else {
      c := col - 1;
    }
  }

  /** A scan of the first rows that finds an attacker names it: a square above row. */
  lemma {:induction false} AttackerInRows(pos: Position, t: Square, whiteAttacking: bool, row: int)
    returns (s: Square)
    requires 0 <= row <= 8
    requires AttackedInRows(pos, t, whiteAttacking, row)
    ensures InBounds(s) && s.row < row && AttacksFrom(pos, s, t, whiteAttacking, true)
  {
    if AttackedInRows(pos, t, whiteAttacking, row - 1) {
      s := AttackerInRows(pos, t, whiteAttacking, row - 1);
    } else {
      var c := AttackerInRow(pos, t, whiteAttacking, row - 1, 8);
      s := Square(row - 1, c);
    }
  }

  /** A square is attacked exactly when some square of the board holds a piece of the attacking
      colour that lists it among its moves. */
  lemma AttackedMeaning(pos: Position, t: Square, whiteAttacking: bool)
    ensures Attacked(pos, t, whiteAttacking) <==>
      exists s :: InBounds(s) && AttacksFrom(pos, s, t, whiteAttacking, true)
  {
    if Attacked(pos, t, whiteAttacking) {
      var s := AttackerInRows(pos, t, whiteAttacking, 8);
    }
    if exists s :: InBounds(s) && AttacksFrom(pos, s, t, whiteAttacking, true) {
      var s :| InBounds(s) && AttacksFrom(pos, s, t, whiteAttacking, true);
      AttackedInRowsHit(pos, t, whiteAttacking, 8, s);
    }
  }

  /** Every generated destination is on the board. */
  lemma MovesInBounds(pos: Position, piece: Piece, s: Square, disableCastling: bool)
    requires piece != Empty && InBounds(s)
    ensures forall t :: t in MovesFor(pos, piece, s, disableCastling) ==> InBounds(t)
  {
    match piece
    case WhitePawn => PawnMovesOnBoard(pos, s, true);
    case BlackPawn => PawnMovesOnBoard(pos, s, false);
    case WhiteBishop | BlackBishop => BishopRaysInBounds(pos, s);
    case WhiteRook | BlackRook => RookRaysInBounds(pos, s);
    case WhiteQueen | BlackQueen => BishopRaysInBounds(pos, s); RookRaysInBounds(pos, s);
    case WhiteKing | BlackKing =>
      JumpsMeaning(pos.grid, At(pos.grid, s), s, KingOffsets);
      forall t | t in Castling(pos, s, disableCastling) ensures InBounds(t) {
        CastlingRequirements(pos, s, disableCastling, t);
      }
    case WhiteKnight | BlackKnight =>
      JumpsMeaning(pos.grid, At(pos.grid, s), s, KnightOffsets);
  }

  lemma RayInBounds(g: Grid, mover: Piece, s: Square, dr: int, dc: int)
    requires IsDirection(dr, dc)
    ensures forall t :: t in Ray(g, mover, s, 1, dr, dc) ==> InBounds(t)
  {
    RayPositions(g, mover, s, 1, dr, dc);
  }

  lemma BishopRaysInBounds(pos: Position, s: Square)
    requires InBounds(s)
    ensures forall t :: t in BishopMoves(pos, s) ==> InBounds(t)
  {
    var g, mover := pos.grid, At(pos.grid, s);
    RayInBounds(g, mover, s, -1, 1);
    RayInBounds(g, mover, s, 1, 1);
    RayInBounds(g, mover, s, -1, -1);
    RayInBounds(g, mover, s, 1, -1);
  }

  lemma RookRaysInBounds(pos: Position, s: Square)
    requires InBounds(s)
    ensures forall t :: t in RookMoves(pos, s) ==> InBounds(t)
  {
    var g, mover := pos.grid, At(pos.grid, s);
    RayInBounds(g, mover, s, 0, 1);
    RayInBounds(g, mover, s, 0, -1);
    RayInBounds(g, mover, s, -1, 0);
    RayInBounds(g, mover, s, 1, 0);
  }

  /** No generator lists the square it starts from: every move changes the square. */
  lemma MovesLeaveStart(pos: Position, piece: Piece, s: Square, disableCastling: bool)
    requires piece != Empty && InBounds(s)
    ensures s !in MovesFor(pos, piece, s, disableCastling)
  {
    var g, mover := pos.grid, At(pos.grid, s);
    match piece
    case WhitePawn => PawnMovesMeaning(pos, s, true, s);
    case BlackPawn => PawnMovesMeaning(pos, s, false, s);
    case WhiteBishop | BlackBishop =>
      RayLeavesStart(g, mover, s, -1, 1);
      RayLeavesStart(g, mover, s, 1, 1);
      RayLeavesStart(g, mover, s, -1, -1);
      RayLeavesStart(g, mover, s, 1, -1);
    case WhiteRook | BlackRook =>
      RayLeavesStart(g, mover, s, 0, 1);
      RayLeavesStart(g, mover, s, 0, -1);
      RayLeavesStart(g, mover, s, -1, 0);
      RayLeavesStart(g, mover, s, 1, 0);
    case WhiteQueen | BlackQueen =>
      RayLeavesStart(g, mover, s, -1, 1);
      RayLeavesStart(g, mover, s, 1, 1);
      RayLeavesStart(g, mover, s, -1, -1);
      RayLeavesStart(g, mover, s, 1, -1);
      RayLeavesStart(g, mover, s, 0, 1);
      RayLeavesStart(g, mover, s, 0, -1);
      RayLeavesStart(g, mover, s, -1, 0);
      RayLeavesStart(g, mover, s, 1, 0);
    case WhiteKing | BlackKing =>
      JumpsLeaveStart(g, mover, s, KingOffsets);
      if s in Castling(pos, s, disableCastling) {
        CastlingRequirements(pos, s, disableCastling, s);
        assert false;
      }
    case WhiteKnight | BlackKnight =>
      JumpsLeaveStart(g, mover, s, KnightOffsets);
  }

  lemma RayLeavesStart(g: Grid, mover: Piece, s: Square, dr: int, dc: int)
    requires IsDirection(dr, dc)
    ensures s !in Ray(g, mover, s, 1, dr, dc)
  {
    RayPositions(g, mover, s, 1, dr, dc);
  }

  lemma JumpsLeaveStart(g: Grid, mover: Piece, s: Square, offsets: seq<(int, int)>)
    requires forall k :: 0 <= k < |offsets| ==> offsets[k] != (0, 0)
    ensures s !in Jumps(g, mover, s, offsets)
  {
    JumpsMeaning(g, mover, s, offsets);
  }

  /** Castling adds only empty landing squares on columns 2 and 6, so for every other target the
      move lists with and without castling agree. */
  lemma CastlingOnlyAddsEmptyLandings(pos: Position, piece: Piece, s: Square, t: Square)
    requires piece != Empty && InBounds(s) && InBounds(t)
    requires At(pos.grid, t) != Empty || (t.col != 2 && t.col != 6)
    ensures t in MovesFor(pos, piece, s, false) <==> t in MovesFor(pos, piece, s, true)
  {
    if piece == WhiteKing || piece == BlackKing {
      if t in Castling(pos, s, false) {
        CastlingRequirements(pos, s, false, t);
      }
      assert MovesFor(pos, piece, s, false) == KingMoves(pos, s, false);
      assert MovesFor(pos, piece, s, true) == KingMoves(pos, s, true);
    }
  }

  /** For a target castling cannot land on, attacking it does not depend on castling. */
  lemma AttacksIgnoreCastling(pos: Position, s: Square, t: Square, whiteAttacking: bool)
    requires InBounds(s) && InBounds(t)
    requires At(pos.grid, t) != Empty || (t.col != 2 && t.col != 6)
    ensures AttacksFrom(pos, s, t, whiteAttacking, false) <==> AttacksFrom(pos, s, t, whiteAttacking, true)
  {
    if At(pos.grid, s) != Empty {
      CastlingOnlyAddsEmptyLandings(pos, At(pos.grid, s), s, t);
    }
  }

  /** As written, the attack query counts a pawn's forward push: a white pawn with an empty
      square in front of it "attacks" that square, although article 3.7 of the FIDE Laws of
      Chess lets a pawn capture only diagonally. */
  lemma PawnPushCountsAsAttack(pos: Position, s: Square)
    requires InBounds(s) && s.row != 0 && At(pos.grid, s) == WhitePawn
    requires At(pos.grid, Square(s.row - 1, s.col)) == Empty
    ensures Attacked(pos, Square(s.row - 1, s.col), true)
  {
    var t := Square(s.row - 1, s.col);
    PawnMovesMeaning(pos, s, true, t);
    assert PieceAttacks(pos, WhitePawn, s, t, true, true);
    assert AttacksFrom(pos, s, t, true, true);
    AttackedMeaning(pos, t, true);
  }

  // ---------------------------------------------------------------------------------------------
  // The generators as the source runs them

  /** One ray walk of moves_for_bishop or moves_for_rook, returning the squares it appends:
      the row and column counters start one step beyond `from` and advance while on the board;
      an empty square is appended, an enemy is appended and ends the walk, any other piece ends
      it. The source tests only the two bounds a
      direction can cross; testing all four is the same on the board. */
  method WalkRay(g: Grid, mover: Piece, from: Square, dr: int, dc: int) returns (moves: seq<Square>)
    requires IsDirection(dr, dc)
    ensures moves == Ray(g, mover, from, 1, dr, dc)
  {
    moves := [];
    assert moves + Ray(g, mover, from, 1, dr, dc) == Ray(g, mover, from, 1, dr, dc);
    var row, col := from.row + dr, from.col + dc;
    ghost var k: nat := 1;
    while 0 <= row <= 7 && 0 <= col <= 7
      invariant Square(row, col) == Along(from, k, dr, dc)
      invariant moves + Ray(g, mover, from, k, dr, dc) == Ray(g, mover, from, 1, dr, dc)
      decreases RayBudget(Square(row, col), dr, dc)
    {
      var square := Square(row, col);
      var target := At(g, square);
      if target == Empty {
        RayStep(g, mover, from, k, dr, dc);
        moves := moves + [square];
      } else if IsEnemyPiece(mover, target) {
        moves := moves + [square];
        break;
      } else {
        break;
      }
      row, col := row + dr, col + dc;
      k := k + 1;
    }
  }

  /** An empty square on a ray is followed by the rest of the ray. */
  lemma RayStep(g: Grid, mover: Piece, from: Square, k: nat, dr: int, dc: int)
    requires IsDirection(dr, dc) && IsEmptySquare(g, Along(from, k, dr, dc))
    ensures forall acc: seq<Square> ::
      (acc + Ray(g, mover, from, k, dr, dc) ==
       (acc + [Along(from, k, dr, dc)]) + Ray(g, mover, from, k + 1, dr, dc))
  {
  }

  /** moves_for_bishop: the four diagonal walks. */
  method MovesForBishop(pos: Position, start: Square) returns (moves: seq<Square>)
    requires InBounds(start)
    ensures moves == BishopMoves(pos, start)
    ensures forall t :: t in moves <==> DiagonalReach(pos, start, t)
  {
    var piece := At(pos.grid, start);
    var upRight := WalkRay(pos.grid, piece, start, -1, 1);
    var downRight := WalkRay(pos.grid, piece, start, 1, 1);
    var upLeft := WalkRay(pos.grid, piece, start, -1, -1);
    var downLeft := WalkRay(pos.grid, piece, start, 1, -1);
    moves := upRight + downRight + upLeft + downLeft;
    BishopMovesMeaning(pos, start);
  }

  /** moves_for_rook: the four orthogonal walks. */
  method MovesForRook(pos: Position, start: Square) returns (moves: seq<Square>)
    requires InBounds(start)
    ensures moves == RookMoves(pos, start)
    ensures forall t :: t in moves <==> OrthogonalReach(pos, start, t)
  {
    var piece := At(pos.grid, start);
    var right := WalkRay(pos.grid, piece, start, 0, 1);
    var left := WalkRay(pos.grid, piece, start, 0, -1);
    var up := WalkRay(pos.grid, piece, start, -1, 0);
    var down := WalkRay(pos.grid, piece, start, 1, 0);
    moves := right + left + up + down;
    RookMovesMeaning(pos, start);
  }

  /** moves_for_queen: the bishop list followed by the rook list from the same square, so a
      queen reaches exactly the squares on a clear line in any of the eight directions. */
  method MovesForQueen(pos: Position, start: Square) returns (moves: seq<Square>)
    requires InBounds(start)
    ensures moves == BishopMoves(pos, start) + RookMoves(pos, start)
    ensures forall t :: t in moves <==> DiagonalReach(pos, start, t) || OrthogonalReach(pos, start, t)
  {
    var diagonal := MovesForBishop(pos, start);
    var orthogonal := MovesForRook(pos, start);
    moves := diagonal + orthogonal;
  }

  /** The try_moves loop of moves_for_knight and moves_for_king: each offset square that is on
      the board and empty or an enemy is appended, in the order of the offsets. */
  method AppendJumps(g: Grid, mover: Piece, s: Square, offsets: seq<(int, int)>)
    returns (moves: seq<Square>)
    ensures moves == Jumps(g, mover, s, offsets)
  {
    moves := [];
    for i := 0 to |offsets|
      invariant moves == Jumps(g, mover, s, offsets[..i])
    {
      var row, col := s.row + offsets[i].0, s.col + offsets[i].1;
      var isInBounds := row >= 0 && row <= 7 && col >= 0 && col <= 7;
      ghost var prefix := offsets[..i + 1];
      assert prefix[..i] == offsets[..i] && Offset(s, prefix[i]) == Square(row, col);
      if isInBounds && (At(g, Square(row, col)) == Empty || IsEnemyPiece(mover, At(g, Square(row, col)))) {
        moves := moves + [Square(row, col)];
      }
    }
    assert offsets[..|offsets|] == offsets;
  }

  /** moves_for_knight. */
  method MovesForKnight(pos: Position, start: Square) returns (moves: seq<Square>)
    requires InBounds(start)
    ensures moves == KnightMoves(pos, start)
    ensures forall t :: t in moves <==> IsKnightJump(start, t) && CanLand(pos.grid, At(pos.grid, start), t)
  {
    moves := AppendJumps(pos.grid, At(pos.grid, start), start, KnightOffsets);
    forall t | t in moves || (IsKnightJump(start, t) && CanLand(pos.grid, At(pos.grid, start), t))
      ensures t in moves <==> IsKnightJump(start, t) && CanLand(pos.grid, At(pos.grid, start), t)
    {
      KnightMovesAreLShapes(pos, start, t);
    }
  }

  /** moves_for_king: the adjacent squares, then, unless castling is disabled, the castling
      candidates, whose safety is asked of the attack query. */
  method MovesForKing(pos: Position, start: Square, disableCastling: bool) returns (moves: seq<Square>)
    requires InBounds(start)
    decreases Level(disableCastling), 3
    ensures moves == KingMoves(pos, start, disableCastling)
  {
    var piece := At(pos.grid, start);
    moves := AppendJumps(pos.grid, piece, start, KingOffsets);
    if !disableCastling {
      if piece == WhiteKing && !pos.whiteKingMoved {
        var castles := CastlingMovesFor(pos, true);
        moves := moves + castles;
      }
      if piece == BlackKing && !pos.blackKingMoved {
        var castles := CastlingMovesFor(pos, false);
        moves := moves + castles;
      }
    }
  }

  /** The castling block of moves_for_king for one colour: king side first, then queen side. */
  method CastlingMovesFor(pos: Position, white: bool) returns (moves: seq<Square>)
    decreases 2, 2
    ensures moves == CastlingFor(pos, white)
  {
    var kingSide := CastleSideMoves(pos, white, true);
    var queenSide := CastleSideMoves(pos, white, false);
    moves := kingSide + queenSide;
  }

  /** One castling candidate as moves_for_king tests it: the rook flag, the two squares empty,
      then the attack query on both squares, the second query asked only when the first finds no
      attack. The king side asks about the crossed square (column 5) first, the queen side about
      the landing square (column 2) first. */
  method CastleSideMoves(pos: Position, white: bool, kingSide: bool) returns (moves: seq<Square>)
    decreases 2, 1
    ensures moves == CastleSide(pos, white, kingSide)
  {
    var row, foe := if white then 7 else 0, !white;
    var rookMoved :=
      if white then (if kingSide then pos.whiteKingSideRookMoved else pos.whiteQueenSideRookMoved)
      else (if kingSide then pos.blackKingSideRookMoved else pos.blackQueenSideRookMoved);
    var crossed := Square(row, if kingSide then 5 else 3);
    var landing := Square(row, if kingSide then 6 else 2);
    var first, second := if kingSide then crossed else landing, if kingSide then landing else crossed;
    moves := [];
    if !rookMoved && At(pos.grid, crossed) == Empty && At(pos.grid, landing) == Empty {
      var firstAttacked := IsSquareUnderAttack(pos, first, foe);
      if !firstAttacked {
        var secondAttacked := IsSquareUnderAttack(pos, second, foe);
        if !secondAttacked {
          moves := [landing];
        }
      }
    }
  }

  /** get_moves_for_piece: dispatch on the piece kind. */
  method GetMovesForPiece(pos: Position, piece: Piece, square: Square, disableCastling: bool)
    returns (moves: seq<Square>)
    requires piece != Empty && InBounds(square)
    decreases Level(disableCastling), 4
    ensures moves == MovesFor(pos, piece, square, disableCastling)
    ensures forall t :: t in moves ==> InBounds(t)
  {
    if piece == WhitePawn {
      moves := PawnMoves(pos, square, true);
    } else if piece == BlackPawn {
      moves := PawnMoves(pos, square, false);
    } else if piece == WhiteBishop || piece == BlackBishop {
      moves := MovesForBishop(pos, square);
    } else if piece == WhiteRook || piece == BlackRook {
      moves := MovesForRook(pos, square);
    } else if piece == WhiteQueen || piece == BlackQueen {
      moves := MovesForQueen(pos, square);
    } else if piece == WhiteKing || piece == BlackKing {
      moves := MovesForKing(pos, square, disableCastling);
    } else {
      moves := MovesForKnight(pos, square);
    }
    MovesInBounds(pos, piece, square, disableCastling);
  }

  /** _is_square_under_attack: scan the board row by row and answer true as soon as one square
      holds an attacker of the target. Nothing is written. */
  method IsSquareUnderAttack(pos: Position, targetSquare: Square, whiteAttacking: bool)
    returns (attacked: bool)
    decreases 1, 91
    ensures attacked == Attacked(pos, targetSquare, whiteAttacking)
  {
    for row := 0 to 8
      invariant !AttackedInRows(pos, targetSquare, whiteAttacking, row)
    {
      for col := 0 to 8
        invariant !AttackedInRow(pos, targetSquare, whiteAttacking, row, col)
      {
        var square := Square(row, col);
        var hit := AttacksFromSquare(pos, square, targetSquare, whiteAttacking, true);
        if hit {
          AttackedInRowsHit(pos, targetSquare, whiteAttacking, 8, square);
          return true;
        }
      }
    }
    return false;
  }

  /** The body of the scans in _is_square_under_attack (castling disabled) and in the board's
      check test (castling enabled) for one square: skip an empty square and a piece of the
      other colour, otherwise generate the piece's moves and look for the target among them. */
  method AttacksFromSquare(pos: Position, square: Square, targetSquare: Square, whiteAttacking: bool,
                           disableCastling: bool)
    returns (hit: bool)
    requires InBounds(square)
    decreases Level(disableCastling), 7
    ensures hit == AttacksFrom(pos, square, targetSquare, whiteAttacking, disableCastling)
  {
    var piece := At(pos.grid, square);
    if piece == Empty {
      return false;
    }
    if whiteAttacking && IsBlackPiece(piece) {
      return false;
    }
    if !whiteAttacking && IsWhitePiece(piece) {
      return false;
    }
    var moves := GetMovesForPiece(pos, piece, square, disableCastling);
    hit := targetSquare in moves;
  }
}
