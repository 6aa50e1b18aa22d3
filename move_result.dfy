/** The structured outcome of one move attempt (move_result.py). */
module MoveResults {
  import opened Squares

  datatype MoveResult = MoveResult(
    movePerformed: bool,
    opponentNowInCheck: bool,
    moveDeniedSelfCheck: bool,
    opponentCheckMate: bool,
    opponentStaleMate: bool,
    promoteAvailable: bool,
    promotePosition: Square)

  /** A freshly constructed result: nothing happened, no promotion pending at (0, 0). */
  function Fresh(): (r: MoveResult)
    ensures !r.movePerformed
    ensures !r.opponentNowInCheck && !r.moveDeniedSelfCheck
    ensures !r.opponentCheckMate && !r.opponentStaleMate
    ensures !r.promoteAvailable && r.promotePosition == Square(0, 0)
  {
    MoveResult(false, false, false, false, false, false, Square(0, 0))
  }
}
