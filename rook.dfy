/** The rook (pieces/Rook.kt): any distance along a row or a column. */
module Rooks {
  import opened Outcomes
  import opened Colors
  import opened Positions
  import opened Pieces
  import opened Grids
  import opened Boards
  import opened Rays

  /** Up, down, left, right: the order `getValidMoves` walks them. */
  const Directions: seq<(int, int)> := [(-1, 0), (1, 0), (0, -1), (0, 1)]

  /** What `getValidMoves` returns. */
  function Moves(g: Grid, color: PieceColor, from: Square): seq<Square> {
    RaysAlong(g, color, from, Directions)
  }

  /** `canMove`: same row or same column, every square in between empty, and not onto an
      own piece. */
  predicate CanMove(g: Grid, color: PieceColor, from: Square, to: Square) {
    (from.row == to.row || from.col == to.col) && ClearPath(g, from, to) && !IsOwnPiece(g, color, to)
  }

  /** `getValidMoves`. */
  method GetValidMoves(board: Board, color: PieceColor, from: Square) returns (moves: seq<Square>)
    requires board.Valid()
    ensures moves == Moves(board.Cells(), color, from)
  {
    moves := CollectRays(board, color, from, Directions);
  }

  /** `canMove`, with its walk along the path. */
  method CanMoveOn(board: Board, color: PieceColor, from: Square, to: Square) returns (ok: bool)
    requires board.Valid()
    ensures ok == CanMove(board.Cells(), color, from, to)
  {
    if from.row != to.row && from.col != to.col {
      return false;
    }
    var rowStep := if to.row > from.row then 1 else if to.row < from.row then -1 else 0;
    var colStep := if to.col > from.col then 1 else if to.col < from.col then -1 else 0;
    var clear := PathIsClear(board, from, to, rowStep, colStep);
    if !clear {
      return false;
    }
    var x := board.GetPiece(to);
    return !(x.Some? && x.value.color == color);
  }

  /** With the rook standing on `from`, the list and the predicate agree. */
  lemma Agreement(g: Grid, color: PieceColor, from: Square, to: Square)
    requires IsOwnPiece(g, color, from)
    ensures to in Moves(g, color, from) <==> CanMove(g, color, from, to)
  {
    RaysAlongMembers(g, color, from, Directions, to);
  }

  /** From the centre of the board there is this much room along the directions. */
  lemma CentreRoom()
    ensures RoomAlong(Position(3, 3), Directions) == 10
  {
    var from, d := Position(3, 3), Directions;
    assert RoomAlong(from, d[..1]) == 3 by { assert d[..1][..0] == []; }
    assert RoomAlong(from, d[..2]) == 5 by { assert d[..2][..1] == d[..1]; }
    assert RoomAlong(from, d[..3]) == 8 by { assert d[..3][..2] == d[..2]; }
    assert d[..4] == d;
  }

  /** Alone in the centre, the rook has 3 + 2 + 3 + 2 destinations. */
  lemma CentreRookHasTen(color: PieceColor)
    ensures |Moves(Lone(Position(3, 3), Piece(color, Rook)), color, Position(3, 3))| == 10
  {
    var g := Lone(Position(3, 3), Piece(color, Rook));
    RaysAlongOpenBoard(g, color, Position(3, 3), Directions);
    CentreRoom();
  }
}
