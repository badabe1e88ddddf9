/** The king (pieces/King.kt): one step in any of the eight directions. */
module Kings {
  import opened Outcomes
  import opened Colors
  import opened Positions
  import opened Pieces
  import opened Grids
  import opened Boards
  import opened Rays

  /** The eight directions, in the order `getValidMoves` tries them. */
  const Offsets: seq<(int, int)> := [(-1, -1), (-1, 0), (-1, 1), (0, -1), (0, 1), (1, -1), (1, 0), (1, 1)]

  /** What `getValidMoves` returns. */
  function Moves(g: Grid, color: PieceColor, from: Square): seq<Square> {
    Hops(g, color, from, Offsets)
  }

  /** `canMove`: at most one row and one column away, and not onto an own piece. */
  predicate CanMove(g: Grid, color: PieceColor, from: Square, to: Square) {
    Abs(to.row - from.row) <= 1 && Abs(to.col - from.col) <= 1 && !IsOwnPiece(g, color, to)
  }

  /** `getValidMoves`. */
  method GetValidMoves(board: Board, color: PieceColor, from: Square) returns (moves: seq<Square>)
    requires board.Valid()
    ensures moves == Moves(board.Cells(), color, from)
  {
    moves := CollectHops(board, color, from, Offsets);
  }

  /** The offsets are exactly the non-zero displacements of at most one in each coordinate. */
  lemma OffsetsAreKingSteps(dr: int, dc: int)
    ensures (dr, dc) in Offsets <==> Abs(dr) <= 1 && Abs(dc) <= 1 && (dr, dc) != (0, 0)
  {
  }

  /** Every destination is one step away and holds no own piece; none repeats. */
  lemma MovesShape(g: Grid, color: PieceColor, from: Square)
    ensures forall q | q in Moves(g, color, from) :: Dist(from, q) == 1 && !IsOwnPiece(g, color, q)
    ensures |Moves(g, color, from)| <= 8
    ensures forall i, j | 0 <= i < j < |Moves(g, color, from)| :: Moves(g, color, from)[i] != Moves(g, color, from)[j]
  {
    forall q | q in Moves(g, color, from)
      ensures Dist(from, q) == 1 && !IsOwnPiece(g, color, q)
    {
      HopsMembers(g, color, from, Offsets, q);
      OffsetsAreKingSteps(q.row - from.row, q.col - from.col);
    }
    HopsDistinct(g, color, from, Offsets);
  }

  /** With the king standing on `from`, the list and the predicate agree. */
  lemma Agreement(g: Grid, color: PieceColor, from: Square, to: Square)
    requires IsOwnPiece(g, color, from)
    ensures to in Moves(g, color, from) <==> CanMove(g, color, from, to)
  {
    HopsMembers(g, color, from, Offsets, to);
    OffsetsAreKingSteps(to.row - from.row, to.col - from.col);
  }

  /** A two-file hop, such as a castling move, is never a king move. */
  lemma NoTwoFileHop(g: Grid, color: PieceColor, from: Square, to: Square)
    requires Abs(to.col - from.col) >= 2 || Abs(to.row - from.row) >= 2
    ensures !CanMove(g, color, from, to)
    ensures to !in Moves(g, color, from)
  {
    HopsMembers(g, color, from, Offsets, to);
  }

  /** Alone on the board in the centre, the king has eight destinations. */
  lemma CentreKingHasEight(color: PieceColor)
    ensures |Moves(Lone(Position(3, 3), Piece(color, King)), color, Position(3, 3))| == 8
  {
    HopsKeepsAll(Lone(Position(3, 3), Piece(color, King)), color, Position(3, 3), Offsets);
  }
}
