/** The 13-valued piece enumeration of piece.py and its three colour predicates.
    As written, a piece is "black" exactly when it is not white, so the empty value
    classifies as black; the lemmas below record the consequences. */
module Pieces {

  datatype Piece =
    | Empty
    | WhitePawn | WhiteKnight | WhiteBishop | WhiteRook | WhiteQueen | WhiteKing
    | BlackPawn | BlackKnight | BlackBishop | BlackRook | BlackQueen | BlackKing

  /** The enumeration value the source assigns to each member (0 for the empty marker). */
  function Value(p: Piece): (v: nat)
    ensures v <= 12
    ensures v == 0 <==> p == Empty
  {
    match p
    case Empty => 0
    case WhitePawn => 1
    case WhiteKnight => 2
    case WhiteBishop => 3
    case WhiteRook => 4
    case WhiteQueen => 5
    case WhiteKing => 6
    case BlackPawn => 7
    case BlackKnight => 8
    case BlackBishop => 9
    case BlackRook => 10
    case BlackQueen => 11
    case BlackKing => 12
  }

  predicate IsWhitePiece(p: Piece) {
    p == WhitePawn || p == WhiteBishop || p == WhiteRook ||
    p == WhiteKnight || p == WhiteKing || p == WhiteQueen
  }

  /** As written: "not white". The empty value is therefore black. */
  predicate IsBlackPiece(p: Piece) {
    !IsWhitePiece(p)
  }

  /** False when the target is empty; otherwise true when the two colour tests disagree. */
  predicate IsEnemyPiece(p: Piece, target: Piece) {
    if target == Empty then false
    else if IsWhitePiece(p) && IsBlackPiece(target) then true
    else if IsBlackPiece(p) && IsWhitePiece(target) then true
    else false
  }

  /** The same kind in the other colour; the empty value maps to itself. */
  function Mirror(p: Piece): (m: Piece)
    ensures m == Empty <==> p == Empty
    ensures p != Empty ==> IsWhitePiece(m) != IsWhitePiece(p)
  {
    match p
    case Empty => Empty
    case WhitePawn => BlackPawn
    case WhiteKnight => BlackKnight
    case WhiteBishop => BlackBishop
    case WhiteRook => BlackRook
    case WhiteQueen => BlackQueen
    case WhiteKing => BlackKing
    case BlackPawn => WhitePawn
    case BlackKnight => WhiteKnight
    case BlackBishop => WhiteBishop
    case BlackRook => WhiteRook
    case BlackQueen => WhiteQueen
    case BlackKing => WhiteKing
  }

  /** Mirroring twice gives the piece back. */
  lemma MirrorInvolution(p: Piece)
    ensures Mirror(Mirror(p)) == p
  {
  }

  /** White pieces are exactly the enumeration values 1 through 6. */
  lemma WhiteIsValuesOneToSix(p: Piece)
    ensures IsWhitePiece(p) <==> 1 <= Value(p) <= 6
  {
  }

  /** Black is every other value, including 0, the empty marker. */
  lemma BlackIsNotWhite(p: Piece)
    ensures IsBlackPiece(p) <==> (Value(p) == 0 || 7 <= Value(p))
    ensures IsBlackPiece(Empty)
  {
  }

  /** Nothing is the enemy of an empty square. */
  lemma NeverEnemyOfEmpty(p: Piece)
    ensures !IsEnemyPiece(p, Empty)
  {
  }

  /** On two real pieces, enmity is "exactly one of them is white", hence symmetric. */
  lemma EnemyOnPieces(p: Piece, t: Piece)
    requires p != Empty && t != Empty
    ensures IsEnemyPiece(p, t) <==> IsWhitePiece(p) != IsWhitePiece(t)
    ensures IsEnemyPiece(p, t) <==> IsEnemyPiece(t, p)
  {
  }

  /** A real piece is never the enemy of a piece of its own colour, itself included. */
  lemma NotEnemyOfOwnColour(p: Piece, t: Piece)
    requires p != Empty && IsWhitePiece(p) == IsWhitePiece(t)
    ensures !IsEnemyPiece(p, t)
  {
  }

  /** As written, the empty value counts as a black piece that is the enemy of every white piece. */
  lemma EmptyIsEnemyOfWhite(w: Piece)
    requires IsWhitePiece(w)
    ensures IsEnemyPiece(Empty, w)
    ensures !IsEnemyPiece(w, Empty)
  {
  }
}
