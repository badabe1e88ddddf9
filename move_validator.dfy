/** The authoritative move gate (MoveValidator.kt): ordered rejection reasons, legal-move
    filtering, and the castling, en passant and promotion queries. */
module MoveValidation {
  import opened Outcomes
  import opened Colors
  import opened Positions
  import opened Pieces
  import opened Grids
  import opened Boards
  import opened Collections
  import opened Movement
  import opened Games
  import opened CheckDetection
  import Pawns

  datatype ValidationResult = Valid | Invalid(reason: string) {
    predicate IsValid() {
      this.Valid?
    }
  }

  /** What `isValidMove(from, to, game)` answers: the first failing check gives the reason. */
  function Validation(game: Game, from: Square, to: Square): ValidationResult {
    match At(game.board, from)
    case None => Invalid("No piece at position " + ToAlgebraic(from))
    case Some(piece) =>
      if piece.color != game.currentPlayer then Invalid("Not your turn")
      else if !CanMove(game.board, piece, from, to) then Invalid("Invalid move for " + Name(piece.kind))
      else if IsKingInCheck(piece.color, Relocate(game.board, from, to)) then Invalid("Move would leave king in check")
      else Valid
  }

  /** `isValidMove`: the move is tried on a copy of the board. */
  method IsValidMove(from: Square, to: Square, game: Game) returns (r: ValidationResult)
    ensures r == Validation(game, from, to)
  {
    var board := new Board.Load(game.board);
    var cell := board.GetPiece(from);
    if cell.None? {
      return Invalid("No piece at position " + ToAlgebraic(from));
    }
    var piece := cell.value;
    if piece.color != game.currentPlayer {
      return Invalid("Not your turn");
    }
    var ok := CanMoveOn(board, piece, from, to);
    if !ok {
      return Invalid("Invalid move for " + Name(piece.kind));
    }
    var testBoard := board.Copy();
    testBoard.MovePiece(from, to);
    if IsKingInCheck(piece.color, testBoard.Cells()) {
      return Invalid("Move would leave king in check");
    }
    return Valid;
  }

  /** A move is valid exactly when `from` holds a piece of the side to move, that piece's
      `canMove` allows it, and afterwards the mover's king is not in check. */
  lemma ValidationSpec(game: Game, from: Square, to: Square)
    ensures Validation(game, from, to).IsValid() <==>
      At(game.board, from).Some? && At(game.board, from).value.color == game.currentPlayer &&
      CanMove(game.board, At(game.board, from).value, from, to) &&
      !IsKingInCheck(game.currentPlayer, Relocate(game.board, from, to))
  {
  }

  /** The reasons come in the source's order: no piece, then the wrong side, then the piece
      rule, then the king left in check. */
  lemma ValidationReasons(game: Game, from: Square, to: Square)
    ensures At(game.board, from).None? ==>
      Validation(game, from, to) == Invalid("No piece at position " + ToAlgebraic(from))
    ensures At(game.board, from).Some? && At(game.board, from).value.color != game.currentPlayer ==>
      Validation(game, from, to) == Invalid("Not your turn")
    ensures (At(game.board, from).Some? && At(game.board, from).value.color == game.currentPlayer &&
      !CanMove(game.board, At(game.board, from).value, from, to)) ==>
      Validation(game, from, to) == Invalid("Invalid move for " + Name(At(game.board, from).value.kind))
    ensures Validation(game, from, to) == Invalid("Move would leave king in check") ==>
      CanMove(game.board, At(game.board, from).value, from, to) &&
      IsKingInCheck(game.currentPlayer, Relocate(game.board, from, to))
  {
  }

  /** `getLegalMoves` can run: the piece on `from`, when it belongs to the side to move,
      can list its moves. */
  predicate CanList(game: Game, from: Square) {
    At(game.board, from).Some? && At(game.board, from).value.color == game.currentPlayer ==>
      CanGenerate(At(game.board, from).value, from)
  }

  /** What `getLegalMoves(from, game)` returns. */
  function LegalMoves(game: Game, from: Square): seq<Square>
    requires CanList(game, from)
  {
    match At(game.board, from)
    case None => []
    case Some(piece) =>
      if piece.color != game.currentPlayer then []
      else SafeTargets(game.board, piece.color, from, ValidMoves(game.board, piece, from))
  }

  /** The targets after whose move the mover's king is not in check, in their order. */
  function SafeTargets(g: Grid, color: PieceColor, from: Square, targets: seq<Square>): seq<Square> {
    Filter(targets, t => !IsKingInCheck(color, Relocate(g, from, t)))
  }

  /** `getLegalMoves`: the generated targets, each tried on a fresh copy. */
  method GetLegalMoves(from: Square, game: Game) returns (moves: seq<Square>)
    requires CanList(game, from)
    ensures moves == LegalMoves(game, from)
  {
    var board := new Board.Load(game.board);
    var cell := board.GetPiece(from);
    if cell.None? {
      return [];
    }
    var piece := cell.value;
    if piece.color != game.currentPlayer {
      return [];
    }
    var possible := GetValidMoves(board, piece, from);
    moves := KeepSafeTargets(board, piece.color, from, possible);
  }

  /** The loop of `getLegalMoves`: each target tried on a fresh copy of the board. */
  method KeepSafeTargets(board: Board, color: PieceColor, from: Square, possible: seq<Square>) returns (moves: seq<Square>)
    requires board.Valid()
    ensures moves == SafeTargets(board.Cells(), color, from, possible)
  {
    moves := [];
    for i := 0 to |possible|
      invariant moves == SafeTargets(board.Cells(), color, from, possible[..i])
    {
      assert possible[..i + 1][..i] == possible[..i];
      var testBoard := board.Copy();
      testBoard.MovePiece(from, possible[i]);
      if !IsKingInCheck(color, testBoard.Cells()) {
        moves := moves + [possible[i]];
      }
    }
    assert possible[..|possible|] == possible;
  }

  /** A target is listed by `getLegalMoves` exactly when `isValidMove` accepts it. */
  lemma LegalMovesMatchValidation(game: Game, from: Square, to: Square)
    requires CanList(game, from)
    ensures to in LegalMoves(game, from) <==> Validation(game, from, to).IsValid()
  {
    if At(game.board, from).Some? && At(game.board, from).value.color == game.currentPlayer {
      Agreement(game.board, At(game.board, from).value, from, to);
    }
  }

  /** The row on which a colour castles. */
  function HomeRow(color: PieceColor): int {
    if color == White then 0 else 5
  }

  /** Every column in [lo, hi) of the row is empty. */
  predicate BetweenEmpty(g: Grid, row: int, lo: int, hi: int)
    requires 0 <= row <= 5 && 0 <= lo && hi <= 6
  {
    forall c | lo <= c < hi :: At(g, Position(row, c)).None?
  }

  /** What `canCastle(color, isKingside, game)` answers; a Failure is the exception the
      Position constructor throws for the kingside landing column. */
  function Castling(color: PieceColor, isKingside: bool, game: Game): Result<bool, PositionError> {
    if game.HasKingMoved(color) || game.HasRookMoved(color, isKingside) then Success(false)
    else
      var g, row := game.board, HomeRow(color);
      var kingCol, rookCol := 4, if isKingside then 5 else 0;
      var kingSquare := Position(row, kingCol);
      if At(g, kingSquare) != Some(Piece(color, King)) then Success(false)
      else if At(g, Position(row, rookCol)) != Some(Piece(color, Rook)) then Success(false)
      else
        var lo, hi := if isKingside then kingCol + 1 else rookCol + 1, if isKingside then rookCol else kingCol;
        if !BetweenEmpty(g, row, lo, hi) then Success(false)
        else PathSafety(color, isKingside, g)
  }

  /** The attack checks of `canCastle`: the king where it stands, on the square it passes
      and on the square it lands on. */
  function PathSafety(color: PieceColor, isKingside: bool, g: Grid): Result<bool, PositionError> {
    var row, kingCol := HomeRow(color), 4;
    var kingSquare := Position(row, kingCol);
    if IsKingInCheck(color, g) then Success(false)
    else
      var targetCol := if isKingside then kingCol + 2 else kingCol - 2;
      var passCol := if isKingside then kingCol + 1 else kingCol - 1;
      if IsKingInCheck(color, Relocate(g, kingSquare, Position(row, passCol))) then Success(false)
      else
        match NewPosition(row, targetCol)
        case Failure(e) => Failure(e)
        case Success(target) => Success(!IsKingInCheck(color, Relocate(g, kingSquare, target)))
  }

  /** The `for (col in range)` loop of `canCastle`: stops at the first occupied square. */
  method SquaresEmpty(board: Board, row: int, lo: int, hi: int) returns (empty: bool)
    requires board.Valid()
    requires 0 <= row <= 5 && 0 <= lo <= 6 && hi <= 6
    ensures empty == BetweenEmpty(board.Cells(), row, lo, hi)
  {
    var col := lo;
    while col < hi
      invariant lo <= col <= 6
      invariant BetweenEmpty(board.Cells(), row, lo, col)
    {
      if board.GetPiece(Position(row, col)).Some? {
        return false;
      }
      col := col + 1;
    }
    return true;
  }

  /** `canCastle`: the flag and placement checks, the loop over the squares between king
      and rook, then the king's square, the passing square and the landing square. */
  method CanCastle(color: PieceColor, isKingside: bool, game: Game) returns (r: Result<bool, PositionError>)
    ensures r == Castling(color, isKingside, game)
  {
    if game.HasKingMoved(color) || game.HasRookMoved(color, isKingside) {
      return Success(false);
    }
    var row := if color == White then 0 else 5;
    var kingCol := 4;
    var rookCol := if isKingside then 5 else 0;
    var board := new Board.Load(game.board);
    var king := board.GetPiece(Position(row, kingCol));
    var rook := board.GetPiece(Position(row, rookCol));
    if king != Some(Piece(color, King)) {
      return Success(false);
    }
    if rook != Some(Piece(color, Rook)) {
      return Success(false);
    }
    var lo, hi := if isKingside then kingCol + 1 else rookCol + 1, if isKingside then rookCol else kingCol;
    var empty := SquaresEmpty(board, row, lo, hi);
    if !empty {
      return Success(false);
    }
    r := CheckPathSafety(board, color, isKingside);
  }

  /** The attack checks of `canCastle`, each on a fresh copy of the board. */
  method CheckPathSafety(board: Board, color: PieceColor, isKingside: bool) returns (r: Result<bool, PositionError>)
    requires board.Valid()
    ensures r == PathSafety(color, isKingside, board.Cells())
  {
    var row := if color == White then 0 else 5;
    var kingCol := 4;
    if IsKingInCheck(color, board.Cells()) {
      return Success(false);
    }
    var targetCol := if isKingside then kingCol + 2 else kingCol - 2;
    var passCol := if isKingside then kingCol + 1 else kingCol - 1;
    var testBoard1 := board.Copy();
    testBoard1.MovePiece(Position(row, kingCol), Position(row, passCol));
    if IsKingInCheck(color, testBoard1.Cells()) {
      return Success(false);
    }
    var target := NewPosition(row, targetCol);
    if target.Failure? {
      return Failure(target.error);
    }
    var testBoard2 := board.Copy();
    testBoard2.MovePiece(Position(row, kingCol), target.value);
    if IsKingInCheck(color, testBoard2.Cells()) {
      return Success(false);
    }
    return Success(true);
  }

  /** Kingside castling is never allowed: either an earlier check says no, or the landing
      column 6 makes the Position constructor throw. */
  lemma KingsideNeverCastles(color: PieceColor, game: Game)
    ensures Castling(color, true, game) != Success(true)
    ensures Castling(color, true, game).Failure? ==> Castling(color, true, game).error == ColumnOutOfRange
  {
  }

  /** Queenside castling is allowed exactly when neither king nor rook has moved, both stand
      on their home squares, b, c and d are empty, and the king is attacked neither where it
      stands nor on d or c. */
  lemma QueensideCastling(color: PieceColor, game: Game)
    ensures var g, row := game.board, HomeRow(color);
      Castling(color, false, game) == Success(true) <==>
        !game.HasKingMoved(color) && !game.HasRookMoved(color, false) &&
        At(g, Position(row, 4)) == Some(Piece(color, King)) && At(g, Position(row, 0)) == Some(Piece(color, Rook)) &&
        At(g, Position(row, 1)).None? && At(g, Position(row, 2)).None? && At(g, Position(row, 3)).None? &&
        !IsKingInCheck(color, g) &&
        !IsKingInCheck(color, Relocate(g, Position(row, 4), Position(row, 3))) &&
        !IsKingInCheck(color, Relocate(g, Position(row, 4), Position(row, 2)))
    ensures Castling(color, false, game).Success?
  {
    var g, row := game.board, HomeRow(color);
    assert BetweenEmpty(g, row, 1, 4) <==>
      At(g, Position(row, 1)).None? && At(g, Position(row, 2)).None? && At(g, Position(row, 3)).None?;
  }

  /** `canEnPassant(from, to, game)` as written: a pawn on `from`, a last move, and the
      pawn's rule with its capturing rows 4 (white) and 1 (black). */
  function CanEnPassant(from: Square, to: Square, game: Game): bool {
    match At(game.board, from)
    case None => false
    case Some(piece) =>
      piece.kind == Pawn && game.LastMove().Some? && Pawns.CanEnPassantAsWritten(piece.color, from, to, game.LastMove())
  }

  /** En passant as written holds exactly for a pawn on row 4 (white) or 1 (black) when
      the game's last move was a two-row pawn move that ended beside it; the pawn lands one
      row forward, in the file of that move. */
  lemma EnPassantSpec(from: Square, to: Square, game: Game)
    ensures CanEnPassant(from, to, game) <==>
      At(game.board, from).Some? && At(game.board, from).value.kind == Pawn &&
      game.moveHistory != [] &&
      var color := At(game.board, from).value.color;
      var m := game.moveHistory[|game.moveHistory| - 1];
      from.row == (if color == White then 4 else 1) &&
      m.piece.kind == Pawn && Abs(m.to.row - m.from.row) == 2 &&
      m.to.row == from.row && Abs(m.to.col - from.col) == 1 &&
      to.row == from.row + Pawns.Forward(color) && to.col == m.to.col
    ensures game.moveHistory == [] ==> !CanEnPassant(from, to, game)
  {
  }

  /** As written, the validator's en passant never applies right after an opponent's
      double step from its start row. */
  lemma ValidatorEnPassantNeverFires(from: Square, to: Square, game: Game)
    requires At(game.board, from).Some? && game.moveHistory != []
    requires Pawns.IsOpponentDoubleStep(At(game.board, from).value.color, game.moveHistory[|game.moveHistory| - 1])
    ensures !CanEnPassant(from, to, game)
  {
    Pawns.EnPassantAsWrittenNeverFires(At(game.board, from).value.color, from, to, game.moveHistory[|game.moveHistory| - 1]);
  }

  /** `canEnPassant` with the corrected capturing rows, 2 for white and 3 for black. */
  function CanEnPassantCorrected(from: Square, to: Square, game: Game): bool {
    match At(game.board, from)
    case None => false
    case Some(piece) =>
      piece.kind == Pawn && game.LastMove().Some? && Pawns.CanEnPassant(piece.color, from, to, game.LastMove())
  }

  /** With the correction, a pawn beside an opponent's pawn that has just stepped two rows
      from its start row may take en passant onto exactly the square that pawn passed over. */
  lemma CorrectedEnPassantSpec(from: Square, to: Square, game: Game)
    requires At(game.board, from).Some? && At(game.board, from).value.kind == Pawn && game.moveHistory != []
    requires var m := game.moveHistory[|game.moveHistory| - 1];
      Pawns.IsOpponentDoubleStep(At(game.board, from).value.color, m) &&
      m.to.row == from.row && Abs(m.to.col - from.col) == 1
    ensures var m := game.moveHistory[|game.moveHistory| - 1];
      CanEnPassantCorrected(from, to, game) <==>
        to == Position(m.from.row + Pawns.Forward(At(game.board, from).value.color.Opposite()), m.to.col)
  {
    Pawns.EnPassantTakesPassedSquare(At(game.board, from).value.color, from, to, game.moveHistory[|game.moveHistory| - 1]);
  }

  /** `shouldPromote(position, game)`: a pawn standing on its far rank. */
  function ShouldPromote(position: Square, game: Game): bool {
    match At(game.board, position)
    case None => false
    case Some(piece) => piece.kind == Pawn && Pawns.ShouldPromote(piece.color, position)
  }

  /** Promotion is due exactly for a pawn on its far rank: row 5 for white, row 0 for black. */
  lemma ShouldPromoteSpec(position: Square, game: Game)
    ensures ShouldPromote(position, game) <==>
      (At(game.board, position) == Some(Piece(White, Pawn)) && position.row == 5) ||
      (At(game.board, position) == Some(Piece(Black, Pawn)) && position.row == 0)
  {
  }
}
