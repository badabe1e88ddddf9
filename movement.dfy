/** Dispatch over the six kinds: the abstract `getValidMoves` and `canMove` of Piece.kt,
    answered by the piece object on the square. */
module Movement {
  import opened Outcomes
  import opened Colors
  import opened Positions
  import opened Pieces
  import opened Grids
  import opened Boards
  import opened Rays
  import Kings
  import Queens
  import Rooks
  import Bishops
  import Knights
  import Pawns

  /** `piece.canMove(from, to, board)`. */
  predicate CanMove(g: Grid, piece: Piece, from: Square, to: Square) {
    match piece.kind
    case King => Kings.CanMove(g, piece.color, from, to)
    case Queen => Queens.CanMove(g, piece.color, from, to)
    case Rook => Rooks.CanMove(g, piece.color, from, to)
    case Bishop => Bishops.CanMove(g, piece.color, from, to)
    case Knight => Knights.CanMove(g, piece.color, from, to)
    case Pawn => Pawns.CanMove(g, piece.color, from, to)
  }

  /** `getValidMoves` can run: every piece but a pawn on its far rank. */
  predicate CanGenerate(piece: Piece, from: Square) {
    piece.kind == Pawn ==> Pawns.OffFarRank(piece.color, from)
  }

  /** No pawn stands on its far rank, so every piece on the board can list its moves. */
  ghost predicate NoStrandedPawn(g: Grid) {
    forall p: Square | At(g, p).Some? :: CanGenerate(At(g, p).value, p)
  }

  /** `piece.getValidMoves(from, board)`. */
  function ValidMoves(g: Grid, piece: Piece, from: Square): seq<Square>
    requires CanGenerate(piece, from)
  {
    match piece.kind
    case King => Kings.Moves(g, piece.color, from)
    case Queen => Queens.Moves(g, piece.color, from)
    case Rook => Rooks.Moves(g, piece.color, from)
    case Bishop => Bishops.Moves(g, piece.color, from)
    case Knight => Knights.Moves(g, piece.color, from)
    case Pawn => Pawns.Moves(g, piece.color, from)
  }

  method CanMoveOn(board: Board, piece: Piece, from: Square, to: Square) returns (ok: bool)
    requires board.Valid()
    ensures ok == CanMove(board.Cells(), piece, from, to)
  {
    match piece.kind
    case King => ok := Kings.CanMove(board.Cells(), piece.color, from, to);
    case Queen => ok := Queens.CanMoveOn(board, piece.color, from, to);
    case Rook => ok := Rooks.CanMoveOn(board, piece.color, from, to);
    case Bishop => ok := Bishops.CanMoveOn(board, piece.color, from, to);
    case Knight => ok := Knights.CanMove(board.Cells(), piece.color, from, to);
    case Pawn => ok := Pawns.CanMove(board.Cells(), piece.color, from, to);
  }

  method GetValidMoves(board: Board, piece: Piece, from: Square) returns (moves: seq<Square>)
    requires board.Valid() && CanGenerate(piece, from)
    ensures moves == ValidMoves(board.Cells(), piece, from)
  {
    match piece.kind
    case King => moves := Kings.GetValidMoves(board, piece.color, from);
    case Queen => moves := Queens.GetValidMoves(board, piece.color, from);
    case Rook => moves := Rooks.GetValidMoves(board, piece.color, from);
    case Bishop => moves := Bishops.GetValidMoves(board, piece.color, from);
    case Knight => moves := Knights.GetValidMoves(board, piece.color, from);
    case Pawn => moves := Pawns.GetValidMoves(board, piece.color, from);
  }

  /** For the piece standing on `from`, `to` is in its list exactly when `canMove` holds. */
  lemma Agreement(g: Grid, piece: Piece, from: Square, to: Square)
    requires At(g, from) == Some(piece) && CanGenerate(piece, from)
    ensures to in ValidMoves(g, piece, from) <==> CanMove(g, piece, from, to)
  {
    match piece.kind
    case King => Kings.Agreement(g, piece.color, from, to);
    case Queen => Queens.Agreement(g, piece.color, from, to);
    case Rook => Rooks.Agreement(g, piece.color, from, to);
    case Bishop => Bishops.Agreement(g, piece.color, from, to);
    case Knight => Knights.Agreement(g, piece.color, from, to);
    case Pawn => Pawns.Agreement(g, piece.color, from, to);
  }

  /** No piece may move onto a piece of its own colour, and so none stays where it is. */
  lemma NeverOntoOwnPiece(g: Grid, piece: Piece, from: Square, to: Square)
    requires CanMove(g, piece, from, to)
    ensures !IsOwnPiece(g, piece.color, to)
  {
  }
}
