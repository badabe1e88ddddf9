/** The queen (pieces/Queen.kt): any distance along a row, a column or a diagonal. */
module Queens {
  import opened Outcomes
  import opened Colors
  import opened Positions
  import opened Pieces
  import opened Grids
  import opened Boards
  import opened Rays

  /** All eight directions, in the order `getValidMoves` walks them. */
  const Directions: seq<(int, int)> := [(-1, -1), (-1, 0), (-1, 1), (0, -1), (0, 1), (1, -1), (1, 0), (1, 1)]

  /** What `getValidMoves` returns. */
  function Moves(g: Grid, color: PieceColor, from: Square): seq<Square> {
    RaysAlong(g, color, from, Directions)
  }

  /** `canMove`: a non-zero horizontal, vertical or diagonal displacement, every square in
      between empty, and not onto an own piece. */
  predicate CanMove(g: Grid, color: PieceColor, from: Square, to: Square) {
    var rowDiff, colDiff := Abs(to.row - from.row), Abs(to.col - from.col);
    var isHorizontal := rowDiff == 0 && colDiff > 0;
    var isVertical := colDiff == 0 && rowDiff > 0;
    var isDiagonal := rowDiff == colDiff && rowDiff > 0;
    (isHorizontal || isVertical || isDiagonal) && ClearPath(g, from, to) && !IsOwnPiece(g, color, to)
  }

  /** `getValidMoves`. */
  method GetValidMoves(board: Board, color: PieceColor, from: Square) returns (moves: seq<Square>)
    requires board.Valid()
    ensures moves == Moves(board.Cells(), color, from)
  {
    moves := CollectRays(board, color, from, Directions);
  }

  /** `canMove`, with its walk along the path. */
  method CanMoveOn(board: Board, color: PieceColor, from: Square, to: Square) returns (ok: bool)
    requires board.Valid()
    ensures ok == CanMove(board.Cells(), color, from, to)
  {
    var rowDiff, colDiff := Abs(to.row - from.row), Abs(to.col - from.col);
    var isHorizontal := rowDiff == 0 && colDiff > 0;
    var isVertical := colDiff == 0 && rowDiff > 0;
    var isDiagonal := rowDiff == colDiff && rowDiff > 0;
    if !isHorizontal && !isVertical && !isDiagonal {
      return false;
    }
    var rowStep := if to.row > from.row then 1 else if to.row < from.row then -1 else 0;
    var colStep := if to.col > from.col then 1 else if to.col < from.col then -1 else 0;
    var clear := PathIsClear(board, from, to, rowStep, colStep);
    if !clear {
      return false;
    }
    var x := board.GetPiece(to);
    return !(x.Some? && x.value.color == color);
  }

  /** The list and the predicate agree, wherever the queen stands. */
  lemma Agreement(g: Grid, color: PieceColor, from: Square, to: Square)
    ensures to in Moves(g, color, from) <==> CanMove(g, color, from, to)
  {
    RaysAlongMembers(g, color, from, Directions, to);
  }

  /** The first four directions: up-left, up, up-right and left. */
  lemma CentreRoomUpward()
    ensures RoomAlong(Position(3, 3), Directions[..4]) == 11
  {
    var from, d := Position(3, 3), Directions;
    assert RoomAlong(from, d[..1]) == 3 by { assert d[..1][..0] == []; }
    assert RoomAlong(from, d[..2]) == 6 by { assert d[..2][..1] == d[..1]; }
    assert RoomAlong(from, d[..3]) == 8 by { assert d[..3][..2] == d[..2]; }
    assert d[..4][..3] == d[..3];
  }

  /** From the centre of the board there is this much room along the directions. */
  lemma CentreRoom()
    ensures RoomAlong(Position(3, 3), Directions) == 19
  {
    var from, d := Position(3, 3), Directions;
    CentreRoomUpward();
    assert RoomAlong(from, d[..5]) == 13 by { assert d[..5][..4] == d[..4]; }
    assert RoomAlong(from, d[..6]) == 15 by { assert d[..6][..5] == d[..5]; }
    assert RoomAlong(from, d[..7]) == 17 by { assert d[..7][..6] == d[..6]; }
    assert d[..8] == d;
  }

  /** Alone in the centre, the queen has 19 destinations, more than the rook's 10. */
  lemma CentreQueenHasNineteen(color: PieceColor)
    ensures |Moves(Lone(Position(3, 3), Piece(color, Queen)), color, Position(3, 3))| == 19
  {
    RaysAlongOpenBoard(Lone(Position(3, 3), Piece(color, Queen)), color, Position(3, 3), Directions);
    CentreRoom();
  }
}
