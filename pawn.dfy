/** The pawn (pieces/Pawn.kt): forward steps onto empty squares, a double step from the
    start row, diagonal captures, en passant and promotion. */
module Pawns {
  import opened Outcomes
  import opened Colors
  import opened Positions
  import opened Pieces
  import opened Grids
  import opened Boards
  import opened Rays
  import opened MoveRecords

  /** White moves up the rows, black down. */
  function Forward(color: PieceColor): int {
    if color == White then 1 else -1
  }

  function StartRow(color: PieceColor): int {
    if color == White then 1 else 4
  }

  function PromotionRow(color: PieceColor): int {
    if color == White then 5 else 0
  }

  /** `getValidMoves` constructs the square ahead before anything else, and a position off
      the board cannot be constructed: it needs the pawn off its far rank. */
  predicate OffFarRank(color: PieceColor, from: Square) {
    0 <= from.row + Forward(color) <= 5
  }

  /** The single step, and the double step from the start row, while the squares are empty. */
  function Pushes(g: Grid, color: PieceColor, from: Square): seq<Square>
    requires OffFarRank(color, from)
  {
    var ahead: Square := Position(from.row + Forward(color), from.col);
    if IsEmpty(g, ahead) then
      [ahead] +
      (if from.row == StartRow(color) && IsEmpty(g, Position(from.row + 2 * Forward(color), from.col))
       then [Position(from.row + 2 * Forward(color), from.col)] else [])
    else []
  }

  /** The diagonal captures, in the order of the listed column offsets. */
  function Captures(g: Grid, color: PieceColor, from: Square, colDeltas: seq<int>): seq<Square>
    requires OffFarRank(color, from)
  {
    if colDeltas == [] then []
    else
      var t := Position(from.row + Forward(color), from.col + colDeltas[|colDeltas| - 1]);
      Captures(g, color, from, colDeltas[..|colDeltas| - 1]) +
        (if 0 <= t.col <= 5 && IsOpponentPiece(g, color, t) then [t] else [])
  }

  /** What `getValidMoves` returns. */
  function Moves(g: Grid, color: PieceColor, from: Square): seq<Square>
    requires OffFarRank(color, from)
  {
    Pushes(g, color, from) + Captures(g, color, from, [-1, 1])
  }

  /** `canMove`. */
  predicate CanMove(g: Grid, color: PieceColor, from: Square, to: Square) {
    var direction := Forward(color);
    var rowDiff, colDiff := to.row - from.row, Abs(to.col - from.col);
    if rowDiff == direction && colDiff == 0 then
      IsEmpty(g, to)
    else if rowDiff == 2 * direction && colDiff == 0 && from.row == StartRow(color) then
      IsEmpty(g, Position(from.row + direction, from.col)) && IsEmpty(g, to)
    else if rowDiff == direction && colDiff == 1 then
      IsOpponentPiece(g, color, to)
    else
      false
  }

  /** `getValidMoves`: the forward steps, then the diagonal captures. */
  method GetValidMoves(board: Board, color: PieceColor, from: Square) returns (moves: seq<Square>)
    requires board.Valid() && OffFarRank(color, from)
    ensures moves == Moves(board.Cells(), color, from)
  {
    var direction := if color == White then 1 else -1;
    moves := ForwardMoves(board, color, from, direction);
    var captures := CaptureMoves(board, color, from, direction);
    moves := moves + captures;
  }

  /** The first half of `getValidMoves`: one step ahead onto an empty square, and then a
      second one from the start row. */
  method ForwardMoves(board: Board, color: PieceColor, from: Square, direction: int) returns (moves: seq<Square>)
    requires board.Valid() && OffFarRank(color, from) && direction == Forward(color)
    ensures moves == Pushes(board.Cells(), color, from)
  {
    moves := [];
    var startRow := if color == White then 1 else 4;
    var oneSquareAhead: Square := Position(from.row + direction, from.col);
    var ahead := board.GetPiece(oneSquareAhead);
    if ahead.None? {
      moves := moves + [oneSquareAhead];
      if from.row == startRow {
        var twoSquaresAhead: Square := Position(from.row + 2 * direction, from.col);
        var beyond := board.GetPiece(twoSquaresAhead);
        if beyond.None? {
          moves := moves + [twoSquaresAhead];
        }
      }
    }
  }

  /** The capture loop of `getValidMoves`: one column to the left, then to the right. */
  method CaptureMoves(board: Board, color: PieceColor, from: Square, direction: int) returns (moves: seq<Square>)
    requires board.Valid() && OffFarRank(color, from) && direction == Forward(color)
    ensures moves == Captures(board.Cells(), color, from, [-1, 1])
  {
    ghost var g := board.Cells();
    moves := [];
    var colDeltas := [-1, 1];
    for i := 0 to |colDeltas|
      invariant moves == Captures(g, color, from, colDeltas[..i])
    {
      CapturesStep(g, color, from, colDeltas, i);
      var newCol := from.col + colDeltas[i];
      if 0 <= newCol <= 5 {
        var capturePosition: Square := Position(from.row + direction, newCol);
        var target := board.GetPiece(capturePosition);
        if target.Some? && target.value.color != color {
          moves := moves + [capturePosition];
        }
      }
    }
    assert colDeltas[..|colDeltas|] == colDeltas;
  }

  lemma CapturesStep(g: Grid, color: PieceColor, from: Square, colDeltas: seq<int>, i: int)
    requires OffFarRank(color, from) && 0 <= i < |colDeltas|
    ensures var t := Position(from.row + Forward(color), from.col + colDeltas[i]);
      Captures(g, color, from, colDeltas[..i + 1]) ==
      Captures(g, color, from, colDeltas[..i]) + (if 0 <= t.col <= 5 && IsOpponentPiece(g, color, t) then [t] else [])
  {
    assert colDeltas[..i + 1][..i] == colDeltas[..i];
  }

  lemma {:induction false} CapturesMembers(g: Grid, color: PieceColor, from: Square, colDeltas: seq<int>, q: Square)
    requires OffFarRank(color, from)
    ensures q in Captures(g, color, from, colDeltas) <==>
      q.row == from.row + Forward(color) && q.col - from.col in colDeltas && IsOpponentPiece(g, color, q)
  {
    if colDeltas != [] {
      var rest := colDeltas[..|colDeltas| - 1];
      CapturesMembers(g, color, from, rest, q);
      assert colDeltas == rest + [colDeltas[|colDeltas| - 1]];
    }
  }

  /** Off the far rank, the list and the predicate agree. */
  lemma Agreement(g: Grid, color: PieceColor, from: Square, to: Square)
    requires OffFarRank(color, from)
    ensures to in Moves(g, color, from) <==> CanMove(g, color, from, to)
  {
    CapturesMembers(g, color, from, [-1, 1], to);
  }

  /** On the far rank there is nowhere to go. */
  lemma FarRankHasNoMoves(g: Grid, color: PieceColor, from: Square, to: Square)
    requires !OffFarRank(color, from)
    ensures !CanMove(g, color, from, to)
  {
  }

  /** What a pawn move can be: one step forward onto an empty square, two steps forward
      from the start row over an empty square onto an empty square, or one step
      diagonally forward onto an opponent. Never backwards, never sideways, and a
      forward step never captures. */
  lemma MoveRules(g: Grid, color: PieceColor, from: Square, to: Square)
    requires CanMove(g, color, from, to)
    ensures Sign(to.row - from.row) == Forward(color)
    ensures to.col == from.col ==> IsEmpty(g, to)
    ensures to.col != from.col ==>
      to.row == from.row + Forward(color) && Abs(to.col - from.col) == 1 && IsOpponentPiece(g, color, to)
    ensures to.row == from.row + 2 * Forward(color) ==>
      from.row == StartRow(color) && to.col == from.col &&
      IsEmpty(g, Position(from.row + Forward(color), from.col))
    ensures Abs(to.row - from.row) <= 2
  {
  }

  /** A pawn on its start row in the opening position can advance one or two squares. */
  lemma OpeningAdvance()
    ensures Position(2, 4) in Moves(InitialGrid(), White, Position(1, 4))
    ensures Position(3, 4) in Moves(InitialGrid(), White, Position(1, 4))
  {
    InitialSetup();
    Agreement(InitialGrid(), White, Position(1, 4), Position(2, 4));
    Agreement(InitialGrid(), White, Position(1, 4), Position(3, 4));
  }

  /** `shouldPromote`. */
  predicate ShouldPromote(color: PieceColor, p: Square) {
    p.row == PromotionRow(color)
  }

  /** The promotion row is exactly the far rank on which `getValidMoves` cannot run. */
  lemma PromotionRowIsFarRank(color: PieceColor, p: Square)
    ensures ShouldPromote(color, p) <==> !OffFarRank(color, p)
  {
  }

  /** The last move was the opponent's pawn stepping two rows from its start row: the only
      double pawn move `canMove` lets through. */
  predicate IsOpponentDoubleStep(color: PieceColor, m: Move) {
    m.piece == Piece(color.Opposite(), Pawn) &&
    m.from.row == StartRow(color.Opposite()) && m.to.row == m.from.row + 2 * Forward(color.Opposite()) &&
    m.to.col == m.from.col
  }

  /** Every two-row pawn move `canMove` allows is such a step. */
  lemma DoubleStepsStartOnStartRow(g: Grid, color: PieceColor, from: Square, to: Square)
    requires CanMove(g, color, from, to) && Abs(to.row - from.row) == 2
    ensures from.row == StartRow(color) && to.row == from.row + 2 * Forward(color) && to.col == from.col
  {
  }

  /** `canEnPassant` as written, with the capturing rows 4 (white) and 1 (black). */
  predicate CanEnPassantAsWritten(color: PieceColor, from: Square, to: Square, lastMove: Option<Move>) {
    lastMove.Some? &&
    var m := lastMove.value;
    var expectedEnemyRow := if color == White then 4 else 1;
    from.row == expectedEnemyRow &&
    m.piece.kind == Pawn && m.IsPawnDoubleMove() &&
    m.to.row == from.row && Abs(m.to.col - from.col) == 1 &&
    to.row == from.row + Forward(color) && to.col == m.to.col
  }

  /** As written, en passant never applies after a double step `canMove` allows: such a
      step ends on row 2 (black) or 3 (white), never on the row 4 or 1 it looks for. */
  lemma EnPassantAsWrittenNeverFires(color: PieceColor, from: Square, to: Square, m: Move)
    requires IsOpponentDoubleStep(color, m)
    ensures !CanEnPassantAsWritten(color, from, to, Some(m))
  {
  }

  /** A white pawn on (2,3) beside a black pawn that has just stepped (4,4) to (2,4). */
  lemma EnPassantCounterexample()
    ensures var m := Move(Position(4, 4), Position(2, 4), Piece(Black, Pawn), None, None, false, false);
      IsOpponentDoubleStep(White, m) &&
      !CanEnPassantAsWritten(White, Position(2, 3), Position(3, 4), Some(m)) &&
      CanEnPassant(White, Position(2, 3), Position(3, 4), Some(m))
  {
  }

  /** `canEnPassant` with the capturing rows of this board: 2 for white and 3 for black,
      where the opponent's double step lands. */
  predicate CanEnPassant(color: PieceColor, from: Square, to: Square, lastMove: Option<Move>) {
    lastMove.Some? &&
    var m := lastMove.value;
    var expectedEnemyRow := if color == White then 2 else 3;
    from.row == expectedEnemyRow &&
    m.piece.kind == Pawn && m.IsPawnDoubleMove() &&
    m.to.row == from.row && Abs(m.to.col - from.col) == 1 &&
    to.row == from.row + Forward(color) && to.col == m.to.col
  }

  /** After the opponent's double step lands beside the pawn, en passant is possible onto
      exactly the square the opponent's pawn passed over. */
  lemma EnPassantTakesPassedSquare(color: PieceColor, from: Square, to: Square, m: Move)
    requires IsOpponentDoubleStep(color, m)
    requires m.to.row == from.row && Abs(m.to.col - from.col) == 1
    ensures CanEnPassant(color, from, to, Some(m)) <==>
      to == Position(m.from.row + Forward(color.Opposite()), m.to.col)
  {
  }

  /** Without a last move, or beyond the double-step rows, no en passant. */
  lemma EnPassantNeedsDoubleStep(color: PieceColor, from: Square, to: Square, lastMove: Option<Move>)
    requires CanEnPassant(color, from, to, lastMove)
    ensures lastMove.Some? && lastMove.value.piece.kind == Pawn
    ensures Abs(lastMove.value.to.row - lastMove.value.from.row) == 2
    ensures to.row == from.row + Forward(color) && Abs(to.col - from.col) == 1
  {
  }
}
