// The browser client's own copy of move generation and legality (`validation.ts`). It
// works on the board the client last received: the same 6x6 grid of cells the backend
// keeps, held here as a `Grid` value. The client only highlights squares; the server's
// validator decides, and the lemmas at the end say where the two agree and where not.

module ClientValidation {
  import opened Outcomes
  import opened Colors
  import opened Positions
  import opened Pieces
  import opened Grids
  import opened Rays
  import opened Collections
  import Movement
  import Kings
  import Queens
  import Rooks
  import Bishops
  import Knights
  import Pawns
  import CheckDetection
  import Games
  import MoveValidation

  /** A move as the client holds it: two squares and an optional promotion. Unlike the
      server's record it does not say which piece moved. */
  datatype ClientMove = ClientMove(from: Square, to: Square, promotion: Option<PieceType>)

  /** The parts of the client's game state the validation reads. */
  datatype ClientState = ClientState(board: Grid, currentPlayer: PieceColor, lastMove: Option<ClientMove>)

  // The client's own direction lists.

  const KingDirections: seq<(int, int)> := [(-1, -1), (-1, 0), (-1, 1), (0, -1), (0, 1), (1, -1), (1, 0), (1, 1)]
  const QueenDirections: seq<(int, int)> := [(-1, -1), (-1, 0), (-1, 1), (0, -1), (0, 1), (1, -1), (1, 0), (1, 1)]
  const RookDirections: seq<(int, int)> := [(-1, 0), (1, 0), (0, -1), (0, 1)]
  const BishopDirections: seq<(int, int)> := [(-1, -1), (-1, 1), (1, -1), (1, 1)]
  const KnightMoves: seq<(int, int)> := [(-2, -1), (-2, 1), (-1, -2), (-1, 2), (1, -2), (1, 2), (2, -1), (2, 1)]

  /** The client's lists are the server's, entry for entry and in the same order. */
  lemma SameDirections()
    ensures KingDirections == Kings.Offsets && KnightMoves == Knights.Offsets
    ensures QueenDirections == Queens.Directions && RookDirections == Rooks.Directions
    ensures BishopDirections == Bishops.Directions
  {
  }

  /** What `getPieceValidMoves` returns. A pawn on its far rank finds every candidate
      square off the board and gets no moves; everything else gets the server's list,
      square for square. */
  function PieceMoves(g: Grid, piece: Piece, from: Square): (moves: seq<Square>)
    ensures Movement.CanGenerate(piece, from) ==> moves == Movement.ValidMoves(g, piece, from)
    ensures !Movement.CanGenerate(piece, from) ==> moves == []
  {
    SameDirections();
    match piece.kind
    case King => Hops(g, piece.color, from, KingDirections)
    case Queen => RaysAlong(g, piece.color, from, QueenDirections)
    case Rook => RaysAlong(g, piece.color, from, RookDirections)
    case Bishop => RaysAlong(g, piece.color, from, BishopDirections)
    case Knight => Hops(g, piece.color, from, KnightMoves)
    case Pawn => if Pawns.OffFarRank(piece.color, from) then Pawns.Moves(g, piece.color, from) else []
  }

  /** `getPositionsInDirection`: step from `from` while on the board, collecting empty
      squares, then an opponent's square if one blocks the way, never an own one. */
  method PositionsInDirection(from: Square, rowDelta: int, colDelta: int, g: Grid, color: PieceColor)
    returns (positions: seq<Square>)
    requires IsUnitStep(rowDelta, colDelta)
    ensures positions == Ray(g, color, from, rowDelta, colDelta)
    ensures forall i | 0 <= i < |positions| ::
      !IsOwnPiece(g, color, positions[i]) && (i < |positions| - 1 ==> IsEmpty(g, positions[i]))
  {
    RayShape(g, color, from, rowDelta, colDelta);
    ghost var ray := Ray(g, color, from, rowDelta, colDelta);
    positions := [];
    var row, col := from.row + rowDelta, from.col + colDelta;
    assert positions + Walk(g, color, Position(row, col), rowDelta, colDelta) == ray;
    while 0 <= row < 6 && 0 <= col < 6
      invariant positions + Walk(g, color, Position(row, col), rowDelta, colDelta) == ray
      decreases Budget(Position(row, col), rowDelta, colDelta)
    {
      var position: Square := Position(row, col);
      WalkStep(g, color, positions, position, rowDelta, colDelta);
      if At(g, position).None? {
        positions := positions + [position];
      } else if At(g, position).value.color != color {
        positions := positions + [position];
        return;
      } else {
        return;
      }
      row, col := row + rowDelta, col + colDelta;
      assert StepPos(position, rowDelta, colDelta, 1) == Position(row, col);
    }
    WalkStep(g, color, positions, Position(row, col), rowDelta, colDelta);
  }

  /** The king's and the knight's loop: each offset's square if it is on the board and
      holds no own piece. */
  method OffsetTargets(from: Square, color: PieceColor, offsets: seq<(int, int)>, g: Grid)
    returns (moves: seq<Square>)
    ensures moves == Hops(g, color, from, offsets)
  {
    moves := [];
    for i := 0 to |offsets|
      invariant moves == Hops(g, color, from, offsets[..i])
    {
      var (rowDelta, colDelta) := offsets[i];
      var row, col := from.row + rowDelta, from.col + colDelta;
      if 0 <= row < 6 && 0 <= col < 6 {
        var position: Square := Position(row, col);
        if !(At(g, position).Some? && At(g, position).value.color == color) {
          moves := moves + [position];
        }
      }
      assert offsets[..i + 1][..i] == offsets[..i];
    }
    assert offsets[..|offsets|] == offsets;
  }

  /** The sliding pieces' loop: the ray in each listed direction, one after another. */
  method DirectionTargets(from: Square, color: PieceColor, dirs: seq<(int, int)>, g: Grid)
    returns (moves: seq<Square>)
    requires AllUnitSteps(dirs)
    ensures moves == RaysAlong(g, color, from, dirs)
  {
    moves := [];
    for i := 0 to |dirs|
      invariant moves == RaysAlong(g, color, from, dirs[..i])
    {
      var (rowDelta, colDelta) := dirs[i];
      var ray := PositionsInDirection(from, rowDelta, colDelta, g, color);
      moves := moves + ray;
      assert dirs[..i + 1][..i] == dirs[..i];
    }
    assert dirs[..|dirs|] == dirs;
  }

  /** The first half of the pawn branch: one step onto an empty square and, from the start
      row, a second one. */
  method PawnPushes(from: Square, color: PieceColor, g: Grid) returns (moves: seq<Square>)
    ensures Pawns.OffFarRank(color, from) ==> moves == Pawns.Pushes(g, color, from)
    ensures !Pawns.OffFarRank(color, from) ==> moves == []
  {
    var direction := if color == White then 1 else -1;
    var startRow := if color == White then 1 else 4;
    moves := [];
    var aheadRow := from.row + direction;
    if 0 <= aheadRow < 6 {
      var oneAhead: Square := Position(aheadRow, from.col);
      if At(g, oneAhead).None? {
        moves := moves + [oneAhead];
        if from.row == startRow {
          var twoAhead: Square := Position(from.row + 2 * direction, from.col);
          if At(g, twoAhead).None? {
            moves := moves + [twoAhead];
          }
        }
      }
    }
  }

  /** The pawn branch: one step onto an empty square and, from the start row, a second
      one; then the two diagonal captures. Off-board candidates are skipped. */
  method PawnTargets(from: Square, color: PieceColor, g: Grid) returns (moves: seq<Square>)
    ensures Pawns.OffFarRank(color, from) ==> moves == Pawns.Moves(g, color, from)
    ensures !Pawns.OffFarRank(color, from) ==> moves == []
  {
    var direction := if color == White then 1 else -1;
    moves := PawnPushes(from, color, g);
    ghost var pushes := moves;
    var colDeltas := [-1, 1];
    for i := 0 to |colDeltas|
      invariant Pawns.OffFarRank(color, from) ==> moves == pushes + Pawns.Captures(g, color, from, colDeltas[..i])
      invariant !Pawns.OffFarRank(color, from) ==> moves == []
    {
      if Pawns.OffFarRank(color, from) {
        Pawns.CapturesStep(g, color, from, colDeltas, i);
      }
      var row, col := from.row + direction, from.col + colDeltas[i];
      if 0 <= row < 6 && 0 <= col < 6 {
        var capturePos: Square := Position(row, col);
        if At(g, capturePos).Some? && At(g, capturePos).value.color != color {
          moves := moves + [capturePos];
        }
      }
    }
    assert colDeltas[..|colDeltas|] == colDeltas;
  }

  /** `getPieceValidMoves`: the moves of one piece, without regard to check. */
  method GetPieceValidMoves(from: Square, piece: Piece, g: Grid) returns (moves: seq<Square>)
    ensures moves == PieceMoves(g, piece, from)
  {
    match piece.kind {
      case King => moves := OffsetTargets(from, piece.color, KingDirections, g);
      case Queen => moves := DirectionTargets(from, piece.color, QueenDirections, g);
      case Rook => moves := DirectionTargets(from, piece.color, RookDirections, g);
      case Bishop => moves := DirectionTargets(from, piece.color, BishopDirections, g);
      case Knight => moves := OffsetTargets(from, piece.color, KnightMoves, g);
      case Pawn => moves := PawnTargets(from, piece.color, g);
    }
  }

  /** A piece of `byColor` stands on `q` and lists `target` among its moves. */
  predicate ListsTarget(g: Grid, byColor: PieceColor, q: Square, target: Square) {
    At(g, q).Some? && At(g, q).value.color == byColor && target in PieceMoves(g, At(g, q).value, q)
  }

  /** The client's notion of a piece attacking a square is the server's. */
  lemma ListsTargetAgreement(g: Grid, byColor: PieceColor, q: Square, target: Square)
    ensures ListsTarget(g, byColor, q, target) <==> CheckDetection.Attacks(g, byColor, q, target)
  {
    if At(g, q).Some? && At(g, q).value.color == byColor {
      var piece := At(g, q).value;
      if Movement.CanGenerate(piece, q) {
        Movement.Agreement(g, piece, q, target);
      } else {
        Pawns.FarRankHasNoMoves(g, piece.color, q, target);
      }
    }
  }

  /** The body of the scan: whether the piece on `position` is of `byColor` and lists
      the target. */
  method PieceListsTarget(position: Square, g: Grid, byColor: PieceColor, target: Square) returns (lists: bool)
    ensures lists == ListsTarget(g, byColor, position, target)
  {
    var p := At(g, position);
    if p.Some? && p.value.color == byColor {
      var moves := GetPieceValidMoves(position, p.value, g);
      return target in moves;
    }
    return false;
  }

  /** `isSquareAttacked`: scan the board row by row for a piece of `byColor` that lists
      the target; the answer is the server's `isSquareUnderAttack`. */
  method IsSquareAttacked(target: Square, g: Grid, byColor: PieceColor) returns (attacked: bool)
    ensures attacked == CheckDetection.IsSquareUnderAttack(target, byColor, g)
  {
    for row := 0 to 6
      invariant forall q: Square | q.row < row :: !ListsTarget(g, byColor, q, target)
    {
      for col := 0 to 6
        invariant forall q: Square | q.row < row || (q.row == row && q.col < col) ::
          !ListsTarget(g, byColor, q, target)
      {
        var position: Square := Position(row, col);
        var lists := PieceListsTarget(position, g, byColor, target);
        if lists {
          ListsTargetAgreement(g, byColor, position, target);
          CheckDetection.UnderAttackSpec(target, byColor, g);
          return true;
        }
      }
    }
    forall q: Square
      ensures !CheckDetection.Attacks(g, byColor, q, target)
    {
      ListsTargetAgreement(g, byColor, q, target);
    }
    CheckDetection.UnderAttackSpec(target, byColor, g);
    return false;
  }

  /** `findKing`: the first king of that colour in row-major order. */
  method FindKing(g: Grid, color: PieceColor) returns (k: Option<Square>)
    ensures k == KingSquare(g, color)
  {
    for row := 0 to 6
      invariant KingInRows(g, color, row).None?
    {
      for col := 0 to 6
        invariant KingInRow(g, color, row, col).None?
      {
        var p := At(g, Position(row, col));
        if p.Some? && p.value.kind == King && p.value.color == color {
          KingFoundAt(g, color, row, col);
          return Some(Position(row, col));
        }
      }
    }
    return None;
  }

  /** `isKingInCheck`: no king, no check; otherwise whether the opponent attacks the
      king's square. The answer is the server's `isKingInCheck`. */
  method IsKingInCheck(g: Grid, ourColor: PieceColor) returns (inCheck: bool)
    ensures KingSquare(g, ourColor).None? ==> !inCheck
    ensures inCheck == CheckDetection.IsKingInCheck(ourColor, g)
  {
    var kingPos := FindKing(g, ourColor);
    if kingPos.None? {
      return false;
    }
    var opponentColor := if ourColor == White then Black else White;
    inCheck := IsSquareAttacked(kingPos.value, g, opponentColor);
  }

  /** `isPawnDoubleMove`: the last move covered two rows, whatever piece made it. */
  predicate IsDoubleStep(lastMove: Option<ClientMove>) {
    lastMove.Some? && Abs(lastMove.value.to.row - lastMove.value.from.row) == 2
  }

  /** The row a two-row move passed over (the floor of the mean is exact here). */
  function PassedOverRow(m: ClientMove): (row: int)
    requires Abs(m.to.row - m.from.row) == 2
    ensures 1 <= row <= 4
    ensures Abs(row - m.from.row) == 1 && Abs(row - m.to.row) == 1
  {
    (m.from.row + m.to.row) / 2
  }

  /** The square `getLegalMoves` adds for a pawn after a two-row last move that ended in
      an adjacent file of the pawn's own row: the passed-over square of that file, one
      row from the pawn. Neither the mover nor the direction is checked. */
  function EnPassantTarget(position: Square, piece: Piece, state: ClientState): (t: Option<Square>)
    ensures t.Some? ==> piece.kind == Pawn && IsDoubleStep(state.lastMove)
    ensures t.Some? ==> Abs(t.value.row - position.row) == 1 && Abs(t.value.col - position.col) == 1
    ensures t.Some? ==> t.value.col == state.lastMove.value.to.col
  {
    if piece.kind == Pawn && IsDoubleStep(state.lastMove) then
      var lastMove := state.lastMove.value;
      if position.row == lastMove.to.row && Abs(lastMove.to.col - position.col) == 1 then
        Some(Position(PassedOverRow(lastMove), lastMove.to.col))
      else None
    else None
  }

  /** The extra square `applyMoveToBoard` empties: when a pawn changes file onto the
      passed-over square of a two-row last move, the square behind it (for its colour). */
  function CapturedSquare(from: Square, to: Square, piece: Piece, state: ClientState): (c: Option<Square>)
    ensures c.Some? ==> piece.kind == Pawn && to.col != from.col && IsDoubleStep(state.lastMove)
    ensures c.Some? ==> c.value.col == to.col && c.value.row == to.row - Pawns.Forward(piece.color)
  {
    if piece.kind == Pawn && to.col != from.col && IsDoubleStep(state.lastMove) then
      var lastMove := state.lastMove.value;
      if to.row == PassedOverRow(lastMove) && to.col == lastMove.to.col then
        var capturedRow := if piece.color == White then to.row - 1 else to.row + 1;
        Some(Position(capturedRow, to.col))
      else None
    else None
  }

  /** `applyMoveToBoard`: a new board with the piece on `to`, `from` emptied and, in the
      en passant case, the captured square emptied; nothing else changes. */
  function ApplyMoveToBoard(from: Square, to: Square, piece: Piece, g: Grid, state: ClientState): (next: Grid)
    ensures At(next, from) == None
    ensures from != to ==> At(next, to) == Some(piece)
    ensures CapturedSquare(from, to, piece, state).Some? ==>
      At(next, CapturedSquare(from, to, piece, state).value) == None
    ensures forall q: Square | q != from && q != to && Some(q) != CapturedSquare(from, to, piece, state) ::
      At(next, q) == At(g, q)
  {
    var moved := With(With(g, to, Some(piece)), from, None);
    match CapturedSquare(from, to, piece, state)
    case None => moved
    case Some(c) => With(moved, c, None)
  }

  /** Outside the en passant case, applying a move is the server's `movePiece`. */
  lemma ApplyIsRelocate(from: Square, to: Square, g: Grid, state: ClientState)
    requires At(g, from).Some? && CapturedSquare(from, to, At(g, from).value, state).None?
    ensures ApplyMoveToBoard(from, to, At(g, from).value, g, state) == Relocate(g, from, to)
  {
    var next := ApplyMoveToBoard(from, to, At(g, from).value, g, state);
    GridsEqual(next, Relocate(g, from, to));
  }

  /** The squares `getLegalMoves` tries: the piece's moves, then the en passant square. */
  function Candidates(position: Square, piece: Piece, state: ClientState): seq<Square> {
    PieceMoves(state.board, piece, position) +
      (match EnPassantTarget(position, piece, state) case None => [] case Some(t) => [t])
  }

  /** What `getLegalMoves` returns: nothing for an empty square or the other side's piece;
      otherwise the candidates after which the own king is not attacked. */
  function LegalMoves(position: Square, state: ClientState): (moves: seq<Square>)
    ensures At(state.board, position).None? ==> moves == []
    ensures At(state.board, position).Some? && At(state.board, position).value.color != state.currentPlayer ==>
      moves == []
    ensures forall t | t in moves ::
      At(state.board, position).Some? && t in Candidates(position, At(state.board, position).value, state) &&
      !CheckDetection.IsKingInCheck(state.currentPlayer,
        ApplyMoveToBoard(position, t, At(state.board, position).value, state.board, state))
  {
    match At(state.board, position)
    case None => []
    case Some(piece) =>
      if piece.color != state.currentPlayer then []
      else KeepSafe(position, piece, state, Candidates(position, piece, state))
  }

  /** The filter of `getLegalMoves`: the candidates after which the mover's king is not
      attacked, in their order. */
  function KeepSafe(position: Square, piece: Piece, state: ClientState, candidates: seq<Square>): (kept: seq<Square>)
    ensures forall t :: t in kept <==>
      t in candidates && !CheckDetection.IsKingInCheck(piece.color, ApplyMoveToBoard(position, t, piece, state.board, state))
  {
    Filter(candidates,
      t => !CheckDetection.IsKingInCheck(piece.color, ApplyMoveToBoard(position, t, piece, state.board, state)))
  }

  /** The filter's loop: each candidate tried on a new board. */
  method SafeMoves(position: Square, piece: Piece, state: ClientState, candidates: seq<Square>) returns (moves: seq<Square>)
    ensures moves == KeepSafe(position, piece, state, candidates)
  {
    moves := [];
    for i := 0 to |candidates|
      invariant moves == KeepSafe(position, piece, state, candidates[..i])
    {
      assert candidates[..i + 1][..i] == candidates[..i];
      var boardAfter := ApplyMoveToBoard(position, candidates[i], piece, state.board, state);
      var inCheck := IsKingInCheck(boardAfter, piece.color);
      if !inCheck {
        moves := moves + [candidates[i]];
      }
    }
    assert candidates[..|candidates|] == candidates;
  }

  /** The first half of `getLegalMoves`: the piece's moves, then the en passant square. */
  method CandidateSquares(position: Square, piece: Piece, state: ClientState) returns (candidates: seq<Square>)
    ensures candidates == Candidates(position, piece, state)
  {
    candidates := GetPieceValidMoves(position, piece, state.board);
    if piece.kind == Pawn && state.lastMove.Some? && IsDoubleStep(state.lastMove) {
      var lastMove := state.lastMove.value;
      var passedOverRow := (lastMove.from.row + lastMove.to.row) / 2;
      if position.row == lastMove.to.row && Abs(lastMove.to.col - position.col) == 1 {
        candidates := candidates + [Position(passedOverRow, lastMove.to.col)];
      }
    }
  }

  /** `getLegalMoves`: the candidates of the side to move's piece, kept when safe. */
  method GetLegalMoves(position: Square, state: ClientState) returns (moves: seq<Square>)
    ensures moves == LegalMoves(position, state)
  {
    var p := At(state.board, position);
    if p.None? || p.value.color != state.currentPlayer {
      return [];
    }
    var piece := p.value;
    var candidates := CandidateSquares(position, piece, state);
    moves := SafeMoves(position, piece, state, candidates);
  }

  /** `isValidMove`: `from` holds a piece of the side to move and `to` is among its legal
      moves. */
  method IsValidMove(from: Square, to: Square, state: ClientState) returns (valid: bool)
    ensures valid <==>
      (At(state.board, from).Some? && At(state.board, from).value.color == state.currentPlayer &&
       to in LegalMoves(from, state))
  {
    var piece := At(state.board, from);
    if piece.None? || piece.value.color != state.currentPlayer {
      return false;
    }
    var validMoves := GetLegalMoves(from, state);
    valid := to in validMoves;
  }

  // Client and server.

  /** When the last move did not cover two rows, the client lists exactly the moves the
      server's validator accepts, from every square, including a pawn on its far rank. */
  lemma {:induction false} AgreesWithServer(state: ClientState, game: Games.Game, position: Square, to: Square)
    requires game.board == state.board && game.currentPlayer == state.currentPlayer
    requires !IsDoubleStep(state.lastMove)
    ensures to in LegalMoves(position, state) <==> MoveValidation.Validation(game, position, to).IsValid()
  {
    MoveValidation.ValidationSpec(game, position, to);
    var g := state.board;
    if At(g, position).Some? && At(g, position).value.color == state.currentPlayer {
      var piece := At(g, position).value;
      assert Candidates(position, piece, state) == PieceMoves(g, piece, position);
      ApplyIsRelocate(position, to, g, state);
      if Movement.CanGenerate(piece, position) {
        Movement.Agreement(g, piece, position, to);
      } else {
        Pawns.FarRankHasNoMoves(g, piece.color, position, to);
      }
    }
  }

  /** The client offers the en passant square, but the server never accepts a pawn's
      diagonal step onto an empty square. */
  lemma EnPassantOfferRejected(state: ClientState, game: Games.Game, position: Square, t: Square)
    requires game.board == state.board && game.currentPlayer == state.currentPlayer
    requires At(state.board, position).Some?
    requires EnPassantTarget(position, At(state.board, position).value, state) == Some(t)
    requires IsEmpty(state.board, t)
    ensures !MoveValidation.Validation(game, position, t).IsValid()
  {
    MoveValidation.ValidationSpec(game, position, t);
  }

  /** The en passant square depends on the last move's squares alone: what stands on
      them, and so whether a pawn made that move, does not matter. */
  lemma EnPassantIgnoresMover(position: Square, piece: Piece, state: ClientState, other: Grid)
    ensures EnPassantTarget(position, piece, state) == EnPassantTarget(position, piece, state.(board := other))
  {
  }
}
