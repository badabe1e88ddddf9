/** The bishop (pieces/Bishop.kt): any distance along a diagonal. */
module Bishops {
  import opened Outcomes
  import opened Colors
  import opened Positions
  import opened Pieces
  import opened Grids
  import opened Boards
  import opened Rays

  /** Up-left, up-right, down-left, down-right: the order `getValidMoves` walks them. */
  const Directions: seq<(int, int)> := [(-1, -1), (-1, 1), (1, -1), (1, 1)]

  /** What `getValidMoves` returns. */
  function Moves(g: Grid, color: PieceColor, from: Square): seq<Square> {
    RaysAlong(g, color, from, Directions)
  }

  /** `canMove`: as many rows as columns and at least one, every square in between empty,
      and not onto an own piece. */
  predicate CanMove(g: Grid, color: PieceColor, from: Square, to: Square) {
    var rowDiff, colDiff := Abs(to.row - from.row), Abs(to.col - from.col);
    rowDiff == colDiff && rowDiff != 0 && ClearPath(g, from, to) && !IsOwnPiece(g, color, to)
  }

  /** `getValidMoves`. */
  method GetValidMoves(board: Board, color: PieceColor, from: Square) returns (moves: seq<Square>)
    requires board.Valid()
    ensures moves == Moves(board.Cells(), color, from)
  {
    moves := CollectRays(board, color, from, Directions);
  }

  /** `canMove`, with its walk along the diagonal. */
  method CanMoveOn(board: Board, color: PieceColor, from: Square, to: Square) returns (ok: bool)
    requires board.Valid()
    ensures ok == CanMove(board.Cells(), color, from, to)
  {
    var rowDiff, colDiff := Abs(to.row - from.row), Abs(to.col - from.col);
    if rowDiff != colDiff || rowDiff == 0 {
      return false;
    }
    var rowStep := if to.row > from.row then 1 else -1;
    var colStep := if to.col > from.col then 1 else -1;
    var clear := PathIsClear(board, from, to, rowStep, colStep);
    if !clear {
      return false;
    }
    var x := board.GetPiece(to);
    return !(x.Some? && x.value.color == color);
  }

  /** The list and the predicate agree, wherever the bishop stands. */
  lemma Agreement(g: Grid, color: PieceColor, from: Square, to: Square)
    ensures to in Moves(g, color, from) <==> CanMove(g, color, from, to)
  {
    RaysAlongMembers(g, color, from, Directions, to);
  }

  /** A bishop never changes the colour of its square. */
  lemma KeepsSquareColour(g: Grid, color: PieceColor, from: Square)
    ensures forall q | q in Moves(g, color, from) :: (q.row + q.col) % 2 == (from.row + from.col) % 2
  {
    forall q | q in Moves(g, color, from)
      ensures (q.row + q.col) % 2 == (from.row + from.col) % 2
    {
      Agreement(g, color, from, q);
      DiagonalParity(from.row + from.col, q.row - from.row, q.col - from.col);
    }
  }

  lemma DiagonalParity(s: int, dr: int, dc: int)
    requires Abs(dr) == Abs(dc)
    ensures (s + dr + dc) % 2 == s % 2
  {
    if dr == dc {
      assert s + dr + dc == s + 2 * dr;
    } else {
      assert dr + dc == 0;
    }
  }

  /** From the centre of the board there is this much room along the directions. */
  lemma CentreRoom()
    ensures RoomAlong(Position(3, 3), Directions) == 9
  {
    var from, d := Position(3, 3), Directions;
    assert RoomAlong(from, d[..1]) == 3 by { assert d[..1][..0] == []; }
    assert RoomAlong(from, d[..2]) == 5 by { assert d[..2][..1] == d[..1]; }
    assert RoomAlong(from, d[..3]) == 7 by { assert d[..3][..2] == d[..2]; }
    assert d[..4] == d;
  }

  /** Alone in the centre, the bishop has 3 + 2 + 2 + 2 destinations. */
  lemma CentreBishopHasNine(color: PieceColor)
    ensures |Moves(Lone(Position(3, 3), Piece(color, Bishop)), color, Position(3, 3))| == 9
  {
    RaysAlongOpenBoard(Lone(Position(3, 3), Piece(color, Bishop)), color, Position(3, 3), Directions);
    CentreRoom();
  }
}
