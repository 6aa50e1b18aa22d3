/** The two premade positions of board_setup.py, written square by square into the board's
    64 cells. setup_standard writes only rows 0, 1, 6 and 7; the board clears the other rows
    before calling it. */
module BoardSetup {
  import opened Pieces
  import opened Squares

  /** The back-rank piece on column col: rook, knight, bishop, queen, king, bishop, knight, rook. */
  function BackRank(white: bool, col: int): Piece
    requires 0 <= col <= 7
  {
    if col == 0 || col == 7 then (if white then WhiteRook else BlackRook)
    else if col == 1 || col == 6 then (if white then WhiteKnight else BlackKnight)
    else if col == 2 || col == 5 then (if white then WhiteBishop else BlackBishop)
    else if col == 3 then (if white then WhiteQueen else BlackQueen)
    else (if white then WhiteKing else BlackKing)
  }

  /** The piece setup_standard leaves in cell i (row-major) when the cell held `before`:
      black's back rank on row 0 and pawns on row 1, white's pawns on row 6 and back rank on
      row 7; rows 2 to 5 keep what they held. */
  function StandardCell(i: int, before: Piece): Piece
    requires 0 <= i < 64
  {
    if i < 8 then BackRank(false, i)
    else if i < 16 then BlackPawn
    else if i < 48 then before
    else if i < 56 then WhitePawn
    else BackRank(true, i - 56)
  }

  /** The cells after setup_standard. */
  function StandardGrid(before: Grid): Grid {
    seq(64, i requires 0 <= i < 64 => StandardCell(i, before[i]))
  }

  /** The standard start position: setup_standard applied to an empty board. */
  function StartGrid(): Grid {
    StandardGrid(seq(64, _ => Empty))
  }

  /** setup_standard: the pawn rows by loops, then the back ranks piece by piece. */
  method SetupStandard(cells: array<Piece>)
    requires cells.Length == 64
    modifies cells
    ensures cells[..] == StandardGrid(old(cells[..]))
  {
    ghost var before := cells[..];
    for i := 0 to 8
      invariant forall j :: 0 <= j < 64 ==> cells[j] == (if 8 <= j < 8 + i then BlackPawn else before[j])
    {
      cells[Index(Square(1, i))] := BlackPawn;
    }
    for i := 0 to 8
      invariant forall j :: 0 <= j < 64 ==>
        cells[j] == (if 8 <= j < 16 then BlackPawn else if 48 <= j < 48 + i then WhitePawn else before[j])
    {
      cells[Index(Square(6, i))] := WhitePawn;
    }
    SetupBlackBackRank(cells);
    SetupWhiteBackRank(cells);
  }

  /** The back-rank writes of setup_standard, one colour at a time: rooks on columns 0 and 7,
      knights on 1 and 6, bishops on 2 and 5, the queen on 3 and the king on 4. Square (r, c)
      is cell 8r + c, so black's row 0 is cells 0 to 7 and white's row 7 cells 56 to 63. The
      source interleaves the two colours kind by kind; the cells written and their values are
      the same. */
  method SetupBlackBackRank(cells: array<Piece>)
    requires cells.Length == 64
    modifies cells
    ensures forall c :: 0 <= c < 8 ==> cells[0 + c] == BackRank(false, c)
    ensures forall j :: 0 <= j < 64 && !(0 <= j < 8) ==> cells[j] == old(cells[j])
  {
    cells[0], cells[7] := BlackRook, BlackRook;
    cells[1], cells[6] := BlackKnight, BlackKnight;
    cells[2], cells[5] := BlackBishop, BlackBishop;
    cells[3] := BlackQueen;
    cells[4] := BlackKing;
    forall c | 0 <= c < 8 ensures cells[0 + c] == BackRank(false, c) {
      if c == 0 {} else if c == 1 {} else if c == 2 {} else if c == 3 {}
      else if c == 4 {} else if c == 5 {} else if c == 6 {} else {}
    }
  }

  method SetupWhiteBackRank(cells: array<Piece>)
    requires cells.Length == 64
    modifies cells
    ensures forall c :: 0 <= c < 8 ==> cells[56 + c] == BackRank(true, c)
    ensures forall j :: 0 <= j < 64 && !(56 <= j < 64) ==> cells[j] == old(cells[j])
  {
    cells[56], cells[63] := WhiteRook, WhiteRook;
    cells[57], cells[62] := WhiteKnight, WhiteKnight;
    cells[58], cells[61] := WhiteBishop, WhiteBishop;
    cells[59] := WhiteQueen;
    cells[60] := WhiteKing;
    forall c | 0 <= c < 8 ensures cells[56 + c] == BackRank(true, c) {
      if c == 0 {} else if c == 1 {} else if c == 2 {} else if c == 3 {}
      else if c == 4 {} else if c == 5 {} else if c == 6 {} else {}
    }
  }

  /** setup_stale_mate: a black king in the corner (0, 0), a white king in the corner (7, 7)
      and a white queen on (4, 4); nothing else is written. */
  method SetupStaleMate(cells: array<Piece>)
    requires cells.Length == 64
    modifies cells
    ensures cells[..] == old(cells[..])[Index(Square(0, 0)) := BlackKing]
                                       [Index(Square(7, 7)) := WhiteKing]
                                       [Index(Square(4, 4)) := WhiteQueen]
  {
    cells[Index(Square(0, 0))] := BlackKing;
    cells[Index(Square(7, 7))] := WhiteKing;
    cells[Index(Square(4, 4))] := WhiteQueen;
  }

  /** Row 1 holds eight black pawns and row 6 eight white pawns. */
  lemma StartPawnRows(c: int)
    requires 0 <= c <= 7
    ensures At(StartGrid(), Square(1, c)) == BlackPawn
    ensures At(StartGrid(), Square(6, c)) == WhitePawn
  {
  }

  /** The back ranks hold the BackRank pieces: black on row 0, white on row 7. */
  lemma StartBackRanks(c: int)
    requires 0 <= c <= 7
    ensures At(StartGrid(), Square(0, c)) == BackRank(false, c)
    ensures At(StartGrid(), Square(7, c)) == BackRank(true, c)
  {
  }

  /** Rows 2 to 5 start empty. */
  lemma StartMiddleEmpty(s: Square)
    requires InBounds(s) && 2 <= s.row <= 5
    ensures At(StartGrid(), s) == Empty
  {
  }

  /** Row 0 mirrors row 7: the same kind in the other colour, column by column. */
  lemma StartRanksMirror(c: int)
    requires 0 <= c <= 7
    ensures At(StartGrid(), Square(0, c)) == Mirror(At(StartGrid(), Square(7, c)))
    ensures At(StartGrid(), Square(1, c)) == Mirror(At(StartGrid(), Square(6, c)))
  {
  }

  /** Each colour has exactly one king: white's on (7, 4), black's on (0, 4). */
  lemma StartOneKingEach(s: Square)
    requires InBounds(s)
    ensures At(StartGrid(), s) == WhiteKing <==> s == Square(7, 4)
    ensures At(StartGrid(), s) == BlackKing <==> s == Square(0, 4)
  {
  }
}
