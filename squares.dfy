/** Board coordinates shared by the whole engine.
    A square is a (row, column) pair; row 0 is black's back rank and column 0 the a-file.
    The 8x8 grid is stored row-major in 64 cells, square (r, c) at index 8r + c. */
module Squares {
  import opened Pieces

  /** A (row, column) pair. Coordinates are plain integers: callers may hand the engine
      squares that are off the board (the mouse layer returns (-1, -1)). */
  datatype Square = Square(row: int, col: int)

  predicate InBounds(s: Square) {
    0 <= s.row <= 7 && 0 <= s.col <= 7
  }

  /** Row-major index of an on-board square. */
  function Index(s: Square): (i: nat)
    requires InBounds(s)
    ensures i < 64
  {
    8 * s.row + s.col
  }

  /** The square stored at row-major index i; the inverse of Index. */
  function SquareAt(i: int): (s: Square)
    requires 0 <= i < 64
    ensures InBounds(s) && Index(s) == i
  {
    Square(i / 8, i % 8)
  }

  /** Index and SquareAt are inverse on the board. */
  lemma IndexRoundTrip(s: Square)
    requires InBounds(s)
    ensures SquareAt(Index(s)) == s
  {
  }

  /** The square at row-major index 8r + c is (r, c). */
  lemma SquareAtIndex(r: int, c: int)
    requires 0 <= r <= 7 && 0 <= c <= 7
    ensures SquareAt(8 * r + c) == Square(r, c)
  {
    IndexRoundTrip(Square(r, c));
  }

  /** The 8x8 board contents, row-major. */
  type Grid = g: seq<Piece> | |g| == 64 witness seq(64, _ => Empty)

  /** The piece on an on-board square. */
  function At(g: Grid, s: Square): Piece
    requires InBounds(s)
  {
    g[Index(s)]
  }

  /** The square k steps from s along the direction (dr, dc), each component in -1..1. */
  function Along(s: Square, k: int, dr: int, dc: int): Square
    requires -1 <= dr <= 1 && -1 <= dc <= 1
  {
    Square(Shift(s.row, k, dr), Shift(s.col, k, dc))
  }

  function Shift(x: int, k: int, d: int): int
    requires -1 <= d <= 1
  {
    if d == 1 then x + k else if d == -1 then x - k else x
  }
}
