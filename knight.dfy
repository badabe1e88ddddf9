/** The knight (pieces/Knight.kt): an L-shaped jump that ignores the squares in between. */
module Knights {
  import opened Outcomes
  import opened Colors
  import opened Positions
  import opened Pieces
  import opened Grids
  import opened Boards
  import opened Rays

  /** The eight jumps, in the order `getValidMoves` tries them. */
  const Offsets: seq<(int, int)> := [(-2, -1), (-2, 1), (-1, -2), (-1, 2), (1, -2), (1, 2), (2, -1), (2, 1)]

  /** What `getValidMoves` returns. */
  function Moves(g: Grid, color: PieceColor, from: Square): seq<Square> {
    Hops(g, color, from, Offsets)
  }

  /** `canMove`: two rows and one column, or one row and two columns, and not onto an own
      piece; nothing in between is looked at. */
  predicate CanMove(g: Grid, color: PieceColor, from: Square, to: Square) {
    var rowDiff, colDiff := Abs(to.row - from.row), Abs(to.col - from.col);
    ((rowDiff == 2 && colDiff == 1) || (rowDiff == 1 && colDiff == 2)) && !IsOwnPiece(g, color, to)
  }

  /** `getValidMoves`. */
  method GetValidMoves(board: Board, color: PieceColor, from: Square) returns (moves: seq<Square>)
    requires board.Valid()
    ensures moves == Moves(board.Cells(), color, from)
  {
    moves := CollectHops(board, color, from, Offsets);
  }

  /** The offsets are exactly the L-shaped displacements. */
  lemma OffsetsAreJumps(dr: int, dc: int)
    ensures (dr, dc) in Offsets <==> (Abs(dr) == 2 && Abs(dc) == 1) || (Abs(dr) == 1 && Abs(dc) == 2)
  {
  }

  /** At most eight destinations, all on the board, none holding an own piece, none repeated. */
  lemma MovesShape(g: Grid, color: PieceColor, from: Square)
    ensures |Moves(g, color, from)| <= 8
    ensures forall q | q in Moves(g, color, from) :: !IsOwnPiece(g, color, q)
    ensures forall i, j | 0 <= i < j < |Moves(g, color, from)| :: Moves(g, color, from)[i] != Moves(g, color, from)[j]
  {
    forall q | q in Moves(g, color, from)
      ensures !IsOwnPiece(g, color, q)
    {
      HopsMembers(g, color, from, Offsets, q);
    }
    HopsDistinct(g, color, from, Offsets);
  }

  /** The list and the predicate agree, wherever the knight stands. */
  lemma Agreement(g: Grid, color: PieceColor, from: Square, to: Square)
    ensures to in Moves(g, color, from) <==> CanMove(g, color, from, to)
  {
    HopsMembers(g, color, from, Offsets, to);
    OffsetsAreJumps(to.row - from.row, to.col - from.col);
  }

  /** Alone in the centre, the knight reaches all eight of its squares. */
  lemma CentreKnightHasEight(color: PieceColor)
    ensures |Moves(Lone(Position(3, 3), Piece(color, Knight)), color, Position(3, 3))| == 8
  {
    HopsKeepsAll(Lone(Position(3, 3), Piece(color, Knight)), color, Position(3, 3), Offsets);
  }
}
