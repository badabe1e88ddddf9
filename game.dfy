/** The game snapshot (Game.kt): an immutable record of the board, the side to move, the
    status, the history and the castling flags, and the transition `afterMove`. */
module Games {
  import opened Outcomes
  import opened Colors
  import opened Positions
  import opened Pieces
  import opened Grids
  import opened Boards
  import opened MoveRecords

  datatype GameStatus = Active | Check | Checkmate | Stalemate | Draw

  /** The identifier and the clock readings are inputs: a fresh game is given its id and
      creation time, and each move its time. */
  datatype Game = Game(
    id: string,
    board: Grid,
    currentPlayer: PieceColor,
    status: GameStatus,
    moveHistory: seq<Move>,
    whiteKingMoved: bool,
    blackKingMoved: bool,
    whiteKingsideRookMoved: bool,
    whiteQueensideRookMoved: bool,
    blackKingsideRookMoved: bool,
    blackQueensideRookMoved: bool,
    createdAt: int,
    lastMoveAt: Option<int>)
  {
    /** `getLastMove`. */
    function LastMove(): Option<Move> {
      if moveHistory == [] then None else Some(moveHistory[|moveHistory| - 1])
    }

    /** `hasRookMoved`. */
    function HasRookMoved(color: PieceColor, isKingside: bool): bool {
      if color == White && isKingside then whiteKingsideRookMoved
      else if color == White then whiteQueensideRookMoved
      else if isKingside then blackKingsideRookMoved
      else blackQueensideRookMoved
    }

    /** `hasKingMoved`. */
    function HasKingMoved(color: PieceColor): bool {
      if color == White then whiteKingMoved else blackKingMoved
    }

    /** `getMoveCount`: full moves, a white half-move opening each. */
    function MoveCount(): (n: int)
      ensures 2 * n - 1 <= |moveHistory| <= 2 * n
    {
      (|moveHistory| + 1) / 2
    }

    /** `isGameOver`. */
    predicate IsGameOver() {
      status == Checkmate || status == Stalemate || status == Draw
    }
  }

  /** `Game()`: the opening position, white to move, nothing moved yet. */
  function NewGame(id: string, now: int): Game {
    Game(id, InitialGrid(), White, Active, [], false, false, false, false, false, false, now, None)
  }

  /** A new game is not over, has no last move, counts no moves and has moved no king or rook. */
  lemma NewGameFacts(id: string, now: int, color: PieceColor, isKingside: bool)
    ensures var game := NewGame(id, now);
      !game.IsGameOver() && game.LastMove() == None && game.MoveCount() == 0 &&
      !game.HasKingMoved(color) && !game.HasRookMoved(color, isKingside) &&
      game.currentPlayer == White && game.board == InitialGrid()
  {
  }

  /** Where a colour's rook starts on the given side, the square `afterMove` watches. */
  function RookCorner(color: PieceColor, isKingside: bool): Square {
    Position(if color == White then 0 else 5, if isKingside then 5 else 0)
  }

  /** Why `afterMove` throws: an unsupported promotion piece, or a square off the board. */
  datatype AfterMoveError = InvalidPromotion(kind: PieceType) | OffBoard(error: PositionError)

  /** The promotion step: the moved piece is replaced on `to` by a new piece of the
      requested kind in the mover's colour; only queen, rook, bishop and knight exist. */
  function Promoted(g: Grid, move: Move): Result<Grid, AfterMoveError> {
    if move.promotion.None? then Success(g)
    else
      var kind := move.promotion.value;
      if kind == Queen || kind == Rook || kind == Bishop || kind == Knight then
        Success(With(g, move.to, Some(Piece(move.piece.color, kind))))
      else
        Failure(InvalidPromotion(kind))
  }

  /** The en passant step: the square behind `to`, seen from the mover, is cleared. */
  function PassedPawnRemoved(g: Grid, move: Move): Result<Grid, AfterMoveError> {
    if !move.isEnPassant then Success(g)
    else
      var capturedPawnRow := if move.piece.color == White then move.to.row - 1 else move.to.row + 1;
      match NewPosition(capturedPawnRow, move.to.col)
      case Failure(e) => Failure(OffBoard(e))
      case Success(p) => Success(With(g, p, None))
  }

  /** The castling step: the rook in the corner on the king's side of travel jumps to the
      square next to the king's destination, on the king's row. */
  function RookShifted(g: Grid, move: Move): Result<Grid, AfterMoveError> {
    if !move.isCastling then Success(g)
    else
      var kingside := move.to.col > move.from.col;
      var rookFromCol := if kingside then 5 else 0;
      var rookToCol := if kingside then move.to.col - 1 else move.to.col + 1;
      var row := move.from.row;
      match NewPosition(row, rookToCol)
      case Failure(e) => Failure(OffBoard(e))
      case Success(p) => Success(Relocate(g, Position(row, rookFromCol), p))
  }

  /** The board after the move: relocate, then promote, then en passant, then castling. */
  function NextBoard(g: Grid, move: Move): Result<Grid, AfterMoveError> {
    var r1 := Promoted(Relocate(g, move.from, move.to), move);
    if r1.Failure? then r1
    else
      var r2 := PassedPawnRemoved(r1.value, move);
      if r2.Failure? then r2
      else RookShifted(r2.value, move)
  }

  /** The castling flags after `move`: the mover's king flag when a king moves, and the flag
      of the corner a rook of that colour leaves. */
  function Flagged(game: Game, move: Move): Game {
    var king, rook := move.piece.kind == King, move.piece.kind == Rook;
    var white, black := move.piece.color == White, move.piece.color == Black;
    game.(
      whiteKingMoved := game.whiteKingMoved || (king && white),
      blackKingMoved := game.blackKingMoved || (king && black),
      whiteKingsideRookMoved := game.whiteKingsideRookMoved || (rook && white && move.from == Position(0, 5)),
      whiteQueensideRookMoved := game.whiteQueensideRookMoved || (rook && white && move.from == Position(0, 0)),
      blackKingsideRookMoved := game.blackKingsideRookMoved || (rook && black && move.from == Position(5, 5)),
      blackQueensideRookMoved := game.blackQueensideRookMoved || (rook && black && move.from == Position(5, 0)))
  }

  /** What `afterMove(move, newStatus)` returns, with `now` the time of the move. */
  function Successor(game: Game, move: Move, newStatus: GameStatus, now: int): Result<Game, AfterMoveError> {
    var next := NextBoard(game.board, move);
    if next.Failure? then Failure(next.error)
    else
      Success(Flagged(game, move).(
        board := next.value,
        currentPlayer := game.currentPlayer.Opposite(),
        status := newStatus,
        moveHistory := game.moveHistory + [move],
        lastMoveAt := Some(now)))
  }

  /** The flag updates of `afterMove`, on local copies of the six flags. */
  method UpdatedFlags(game: Game, move: Move) returns (flags: Game)
    ensures flags == Flagged(game, move)
  {
    flags := game;
    if move.piece.kind == King {
      if move.piece.color == White {
        flags := flags.(whiteKingMoved := true);
      } else {
        flags := flags.(blackKingMoved := true);
      }
    }
    if move.piece.kind == Rook {
      if move.piece.color == White && move.from == Position(0, 5) {
        flags := flags.(whiteKingsideRookMoved := true);
      } else if move.piece.color == White && move.from == Position(0, 0) {
        flags := flags.(whiteQueensideRookMoved := true);
      } else if move.piece.color == Black && move.from == Position(5, 5) {
        flags := flags.(blackKingsideRookMoved := true);
      } else if move.piece.color == Black && move.from == Position(5, 0) {
        flags := flags.(blackQueensideRookMoved := true);
      }
    }
  }

  /** The outcome of one board step: the error it throws, or the board it leaves. */
  function StepOutcome(board: Board, err: Option<AfterMoveError>): Result<Grid, AfterMoveError>
    reads board, board.grid
    requires board.Valid()
  {
    if err.Some? then Failure(err.value) else Success(board.Cells())
  }

  /** The promotion step of `afterMove`, on the copied board. */
  method Promote(board: Board, move: Move) returns (err: Option<AfterMoveError>)
    requires board.Valid()
    modifies board.grid
    ensures board.Valid()
    ensures StepOutcome(board, err) == Promoted(old(board.Cells()), move)
  {
    err := None;
    if move.promotion.Some? {
      var kind := move.promotion.value;
      if !(kind == Queen || kind == Rook || kind == Bishop || kind == Knight) {
        return Some(InvalidPromotion(kind));
      }
      board.SetPiece(move.to, Some(Piece(move.piece.color, kind)));
    }
  }

  /** The en passant step of `afterMove`, on the copied board. */
  method RemovePassedPawn(board: Board, move: Move) returns (err: Option<AfterMoveError>)
    requires board.Valid()
    modifies board.grid
    ensures board.Valid()
    ensures StepOutcome(board, err) == PassedPawnRemoved(old(board.Cells()), move)
  {
    err := None;
    if move.isEnPassant {
      var capturedPawnRow := if move.piece.color == White then move.to.row - 1 else move.to.row + 1;
      var captured := NewPosition(capturedPawnRow, move.to.col);
      if captured.Failure? {
        return Some(OffBoard(captured.error));
      }
      board.SetPiece(captured.value, None);
    }
  }

  /** The castling step of `afterMove`, on the copied board. */
  method ShiftRook(board: Board, move: Move) returns (err: Option<AfterMoveError>)
    requires board.Valid()
    modifies board.grid
    ensures board.Valid()
    ensures StepOutcome(board, err) == RookShifted(old(board.Cells()), move)
  {
    err := None;
    if move.isCastling {
      var rookFromCol := if move.to.col > move.from.col then 5 else 0;
      var rookToCol := if move.to.col > move.from.col then move.to.col - 1 else move.to.col + 1;
      var row := move.from.row;
      var rookTo := NewPosition(row, rookToCol);
      if rookTo.Failure? {
        return Some(OffBoard(rookTo.error));
      }
      board.MovePiece(Position(row, rookFromCol), rookTo.value);
    }
  }

  /** The board half of `afterMove`: the move is played on a copy of the board. */
  method PlayOnBoard(g: Grid, move: Move) returns (r: Result<Grid, AfterMoveError>)
    ensures r == NextBoard(g, move)
  {
    var newBoard := new Board.Load(g);
    newBoard.MovePiece(move.from, move.to);
    var err := Promote(newBoard, move);
    if err.Some? {
      return Failure(err.value);
    }
    err := RemovePassedPawn(newBoard, move);
    if err.Some? {
      return Failure(err.value);
    }
    err := ShiftRook(newBoard, move);
    if err.Some? {
      return Failure(err.value);
    }
    var cells := newBoard.Cells();
    return Success(cells);
  }

  /** `afterMove`: a new snapshot with the updated flags, the played board, the other side
      to move and the move appended. */
  method AfterMove(game: Game, move: Move, newStatus: GameStatus, now: int) returns (r: Result<Game, AfterMoveError>)
    ensures r == Successor(game, move, newStatus, now)
  {
    var flags := UpdatedFlags(game, move);
    var board := PlayOnBoard(game.board, move);
    if board.Failure? {
      return Failure(board.error);
    }
    return Success(flags.(
      board := board.value,
      currentPlayer := game.currentPlayer.Opposite(),
      status := newStatus,
      moveHistory := game.moveHistory + [move],
      lastMoveAt := Some(now)));
  }

  /** The side to move flips, the move is appended and becomes the last move, the status
      is the one given, and the id and creation time are kept. */
  lemma Bookkeeping(game: Game, move: Move, newStatus: GameStatus, now: int)
    requires Successor(game, move, newStatus, now).Success?
    ensures var next := Successor(game, move, newStatus, now).value;
      next.currentPlayer == game.currentPlayer.Opposite() && next.currentPlayer != game.currentPlayer &&
      next.moveHistory == game.moveHistory + [move] && next.LastMove() == Some(move) &&
      next.status == newStatus && next.id == game.id && next.createdAt == game.createdAt &&
      next.lastMoveAt == Some(now) &&
      game.MoveCount() <= next.MoveCount() <= game.MoveCount() + 1
  {
  }

  /** The flags only ever go from false to true: the mover's king flag when a king moves,
      and a rook flag only when a rook of that colour leaves that exact corner. */
  lemma FlagsMonotone(game: Game, move: Move, newStatus: GameStatus, now: int, color: PieceColor, isKingside: bool)
    requires Successor(game, move, newStatus, now).Success?
    ensures var next := Successor(game, move, newStatus, now).value;
      (next.HasKingMoved(color) <==> game.HasKingMoved(color) || move.piece == Piece(color, King)) &&
      (next.HasRookMoved(color, isKingside) <==>
        game.HasRookMoved(color, isKingside) ||
        (move.piece == Piece(color, Rook) && move.from == RookCorner(color, isKingside)))
  {
  }

  /** Promotion to a king or a pawn throws; to any other kind it succeeds unless a later
      step goes off the board. */
  lemma PromotionPieces(game: Game, move: Move, newStatus: GameStatus, now: int)
    requires move.promotion.Some?
    ensures move.promotion.value == King || move.promotion.value == Pawn <==>
      Successor(game, move, newStatus, now) == Failure(InvalidPromotion(move.promotion.value))
  {
  }

  /** An ordinary move: `to` holds the moved piece, or the promoted one in the mover's
      colour, `from` is empty, and nothing else changes. */
  lemma PlainMoveBoard(game: Game, move: Move, newStatus: GameStatus, now: int)
    requires !move.isEnPassant && !move.isCastling
    requires move.promotion.Some? ==> move.promotion.value !in {King, Pawn}
    ensures Successor(game, move, newStatus, now).Success?
    ensures var b := Successor(game, move, newStatus, now).value.board;
      (move.promotion.Some? ==> At(b, move.to) == Some(Piece(move.piece.color, move.promotion.value))) &&
      (move.promotion.None? && move.from != move.to ==> At(b, move.to) == At(game.board, move.from)) &&
      (move.from != move.to || move.promotion.None? ==> At(b, move.from) == None) &&
      (forall q: Square | q != move.from && q != move.to :: At(b, q) == At(game.board, q))
  {
  }

  /** En passant clears the square one row behind `to` from the mover's side. */
  lemma EnPassantBoard(game: Game, move: Move, newStatus: GameStatus, now: int)
    requires move.isEnPassant && !move.isCastling
    requires Successor(game, move, newStatus, now).Success?
    ensures var behind := if move.piece.color == White then move.to.row - 1 else move.to.row + 1;
      0 <= behind <= 5 &&
      At(Successor(game, move, newStatus, now).value.board, Position(behind, move.to.col)) == None
  {
  }

  /** Castling moves the corner rook to the square beside the king's destination; the
      move fails when that square would be off the board. */
  lemma CastlingBoard(game: Game, move: Move, newStatus: GameStatus, now: int)
    requires move.isCastling && !move.isEnPassant && move.promotion.None?
    ensures var kingside := move.to.col > move.from.col;
      var rookToCol := if kingside then move.to.col - 1 else move.to.col + 1;
      var rookFrom := Position(move.from.row, if kingside then 5 else 0);
      (Successor(game, move, newStatus, now).Success? <==> 0 <= rookToCol <= 5) &&
      (0 <= rookToCol <= 5 && rookFrom != Position(move.from.row, rookToCol) ==>
        At(Successor(game, move, newStatus, now).value.board, Position(move.from.row, rookToCol)) ==
        At(Relocate(game.board, move.from, move.to), rookFrom))
  {
  }
}
