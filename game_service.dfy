/** The move orchestrator (GameService.kt): a registry of games by id and `makeMove`,
    which validates, classifies, applies and records a move. */
module Service {
  import opened Outcomes
  import opened Colors
  import opened Positions
  import opened Pieces
  import opened Grids
  import opened MoveRecords
  import opened Movement
  import opened Games
  import opened CheckDetection
  import opened MoveValidation
  import Kings
  import Pawns

  /** What `makeMove` returns. `Threw` stands for the exception `afterMove` raises for a
      KING or PAWN promotion piece: it leaves `makeMove` before anything is stored. */
  datatype MoveResult =
    | Success(game: Game, move: Move)
    | InvalidMove(reason: string)
    | PromotionRequired
    | GameNotFound
    | GameOver
    | Threw(error: AfterMoveError)

  /** A piece kind a pawn may become. */
  predicate IsPromotionPiece(kind: PieceType) {
    kind == Queen || kind == Rook || kind == Bishop || kind == Knight
  }

  /** The opening position strands no pawn: pawns start on rows 1 and 4. */
  lemma InitialHasNoStrandedPawn()
    ensures NoStrandedPawn(InitialGrid())
  {
    InitialSetup();
    forall p: Square | At(InitialGrid(), p).Some?
      ensures CanGenerate(At(InitialGrid(), p).value, p)
    {
      if p.row == 0 || p.row == 5 {
        assert InitialGrid()[p.row] == BackRank(if p.row == 0 then White else Black);
      }
    }
  }

  /** A pawn reaching its far rank, the one case in which `makeMove` demands a promotion
      piece. */
  predicate Promotes(piece: Piece, to: Square) {
    piece.kind == Pawn && Pawns.ShouldPromote(piece.color, to)
  }

  /** The move record `makeMove` builds, as written: the requested promotion piece is
      recorded for every move. */
  function MoveRecordAsWritten(game: Game, from: Square, to: Square, promotionType: Option<PieceType>): (m: Move)
    requires At(game.board, from).Some?
    ensures m.promotion == promotionType
    ensures m.piece == At(game.board, from).value && m.capturedPiece == At(game.board, to)
    ensures !m.isCastling && !m.isEnPassant
  {
    Move(from, to, At(game.board, from).value, At(game.board, to), promotionType, false, false)
  }

  /** The move record with the promotion piece kept only for a promoting pawn. */
  function MoveRecord(game: Game, from: Square, to: Square, promotionType: Option<PieceType>): (m: Move)
    requires At(game.board, from).Some?
    ensures m.promotion.Some? ==> Promotes(m.piece, to)
    ensures Promotes(m.piece, to) ==> m.promotion == promotionType
    ensures m.piece == At(game.board, from).value && m.capturedPiece == At(game.board, to)
    ensures !m.isCastling && !m.isEnPassant
  {
    var piece := At(game.board, from).value;
    Move(from, to, piece, At(game.board, to), if Promotes(piece, to) then promotionType else None, false, false)
  }

  /** A validated move never hops two files with a king, and a pawn that changes file
      always captures what stands on `to`. */
  lemma SpecialBranchesDead(game: Game, from: Square, to: Square)
    requires Validation(game, from, to).IsValid()
    ensures At(game.board, from).value.kind == King ==> Abs(to.col - from.col) != 2
    ensures At(game.board, from).value.kind == Pawn && to.col != from.col ==> At(game.board, to).Some?
  {
    var piece := At(game.board, from).value;
    if piece.kind == King && Abs(to.col - from.col) == 2 {
      Kings.NoTwoFileHop(game.board, piece.color, from, to);
    }
    if piece.kind == Pawn {
      Pawns.MoveRules(game.board, piece.color, from, to);
    }
  }

  /** The record as written is accepted by `afterMove` exactly when the promotion piece is
      absent or a queen, rook, bishop or knight; then no pawn is left on its far rank. */
  lemma AsWrittenRecordApplies(game: Game, from: Square, to: Square, promotionType: Option<PieceType>, newStatus: GameStatus, now: int)
    requires NoStrandedPawn(game.board)
    requires Validation(game, from, to).IsValid()
    requires Promotes(At(game.board, from).value, to) ==> promotionType.Some?
    ensures var m := MoveRecordAsWritten(game, from, to, promotionType);
      (Successor(game, m, newStatus, now).Success? <==> promotionType.None? || IsPromotionPiece(promotionType.value)) &&
      (Successor(game, m, newStatus, now).Success? ==> NoStrandedPawn(Successor(game, m, newStatus, now).value.board))
  {
    var m := MoveRecordAsWritten(game, from, to, promotionType);
    if promotionType.Some? && !IsPromotionPiece(promotionType.value) {
      PromotionPieces(game, m, newStatus, now);
    } else {
      PlainMoveBoard(game, m, newStatus, now);
      var b := Successor(game, m, newStatus, now).value.board;
      var piece := m.piece;
      Pawns.PromotionRowIsFarRank(piece.color, to);
      forall q: Square | At(b, q).Some?
        ensures CanGenerate(At(b, q).value, q)
      {
        if q == to && from != to && m.promotion.None? {
          assert At(b, q) == Some(piece);
        }
      }
    }
  }

  /** The corrected record is always accepted by `afterMove` once the promotion checks have
      passed, and no pawn is left on its far rank. */
  lemma RecordedMoveApplies(game: Game, from: Square, to: Square, promotionType: Option<PieceType>, newStatus: GameStatus, now: int)
    requires NoStrandedPawn(game.board)
    requires Validation(game, from, to).IsValid()
    requires Promotes(At(game.board, from).value, to) ==> promotionType.Some? && IsPromotionPiece(promotionType.value)
    ensures var m := MoveRecord(game, from, to, promotionType);
      Successor(game, m, newStatus, now).Success? && NoStrandedPawn(Successor(game, m, newStatus, now).value.board)
  {
    var m := MoveRecord(game, from, to, promotionType);
    PlainMoveBoard(game, m, newStatus, now);
    var b := Successor(game, m, newStatus, now).value.board;
    var piece := m.piece;
    Pawns.PromotionRowIsFarRank(piece.color, to);
    forall q: Square | At(b, q).Some?
      ensures CanGenerate(At(b, q).value, q)
    {
      if q == to && from != to && m.promotion.None? {
        assert At(b, q) == Some(piece);
      }
    }
  }

  /** What `makeMove` returns for a stored game, as written; `now` is the time of the move.
      The status comes from a first `afterMove` with the default status, the stored game
      from a second one with that status. */
  function MoveOutcome(game: Game, from: Square, to: Square, promotionType: Option<PieceType>, now: int): MoveResult {
    if game.IsGameOver() then GameOver
    else
      match Validation(game, from, to)
      case Invalid(reason) => InvalidMove(reason)
      case Valid =>
        var piece := At(game.board, from).value;
        if Promotes(piece, to) && promotionType.None? then PromotionRequired
        else if Promotes(piece, to) && !IsPromotionPiece(promotionType.value) then InvalidMove("Invalid promotion piece")
        else
          var move := MoveRecordAsWritten(game, from, to, promotionType);
          match Successor(game, move, Active, now)
          case Failure(e) => Threw(e)
          case Success(probe) =>
            match Successor(game, move, Status(probe), now)
            case Failure(e) => Threw(e)
            case Success(next) => MoveResult.Success(next, move)
  }

  /** `makeMove` with the corrected record: a promotion piece sent with a move that does not
      promote is ignored, so `afterMove` never throws. */
  function CorrectedMoveOutcome(game: Game, from: Square, to: Square, promotionType: Option<PieceType>, now: int): (r: MoveResult)
    requires NoStrandedPawn(game.board)
    ensures !r.Threw?
  {
    if game.IsGameOver() then GameOver
    else
      match Validation(game, from, to)
      case Invalid(reason) => InvalidMove(reason)
      case Valid =>
        var piece := At(game.board, from).value;
        if Promotes(piece, to) && promotionType.None? then PromotionRequired
        else if Promotes(piece, to) && !IsPromotionPiece(promotionType.value) then InvalidMove("Invalid promotion piece")
        else
          var move := MoveRecord(game, from, to, promotionType);
          RecordedMoveApplies(game, from, to, promotionType, Active, now);
          var status := Status(Successor(game, move, Active, now).value);
          RecordedMoveApplies(game, from, to, promotionType, status, now);
          MoveResult.Success(Successor(game, move, status, now).value, move)
  }

  /** As written, a promotion piece sent with a valid move that does not promote is still
      applied: a queen, rook, bishop or knight replaces the moving piece on `to` (a knight
      becomes a queen, say), and a king or pawn makes `afterMove` throw. */
  lemma StrayPromotion(game: Game, from: Square, to: Square, kind: PieceType, now: int)
    requires NoStrandedPawn(game.board)
    requires !game.IsGameOver() && Validation(game, from, to).IsValid()
    requires !Promotes(At(game.board, from).value, to)
    ensures IsPromotionPiece(kind) ==>
      MoveOutcome(game, from, to, Some(kind), now).Success? &&
      At(MoveOutcome(game, from, to, Some(kind), now).game.board, to) == Some(Piece(game.currentPlayer, kind))
    ensures !IsPromotionPiece(kind) ==> MoveOutcome(game, from, to, Some(kind), now) == Threw(InvalidPromotion(kind))
  {
    var m := MoveRecordAsWritten(game, from, to, Some(kind));
    AsWrittenRecordApplies(game, from, to, Some(kind), Active, now);
    if IsPromotionPiece(kind) {
      var status := Status(Successor(game, m, Active, now).value);
      PlainMoveBoard(game, m, status, now);
    } else {
      PromotionPieces(game, m, Active, now);
    }
  }

  /** With the correction, a valid move that does not promote always succeeds and leaves the
      moving piece itself on `to`, whatever promotion piece was sent. */
  lemma CorrectedKeepsPiece(game: Game, from: Square, to: Square, promotionType: Option<PieceType>, now: int)
    requires NoStrandedPawn(game.board)
    requires !game.IsGameOver() && Validation(game, from, to).IsValid()
    requires !Promotes(At(game.board, from).value, to)
    ensures CorrectedMoveOutcome(game, from, to, promotionType, now).Success?
    ensures At(CorrectedMoveOutcome(game, from, to, promotionType, now).game.board, to) == At(game.board, from)
  {
    var m := MoveRecord(game, from, to, promotionType);
    RecordedMoveApplies(game, from, to, promotionType, Active, now);
    var status := Status(Successor(game, m, Active, now).value);
    PlainMoveBoard(game, m, status, now);
  }

  /** The correction changes nothing when no promotion piece is sent, or when the move
      promotes. */
  lemma CorrectionAgrees(game: Game, from: Square, to: Square, promotionType: Option<PieceType>, now: int)
    requires NoStrandedPawn(game.board)
    requires promotionType.None? || (At(game.board, from).Some? && Promotes(At(game.board, from).value, to))
    ensures MoveOutcome(game, from, to, promotionType, now) == CorrectedMoveOutcome(game, from, to, promotionType, now)
  {
    if !game.IsGameOver() && Validation(game, from, to).IsValid() {
      assert MoveRecordAsWritten(game, from, to, promotionType) == MoveRecord(game, from, to, promotionType);
    }
  }

  /** The registry of games, keyed by id. */
  class GameService {
    var games: map<string, Game>

    /** Every stored game sits under its own id, and no pawn stands on its far rank. */
    ghost predicate Valid()
      reads this
    {
      forall id | id in games :: games[id].id == id && NoStrandedPawn(games[id].board)
    }

    constructor()
      ensures Valid() && games == map[]
    {
      games := map[];
    }

    /** `createGame`: a fresh game with the given id and creation time is stored. */
    method CreateGame(id: string, now: int) returns (game: Game)
      requires Valid()
      modifies this
      ensures Valid()
      ensures game == NewGame(id, now) && games == old(games)[id := game]
    {
      InitialHasNoStrandedPawn();
      game := NewGame(id, now);
      games := games[game.id := game];
    }

    /** `getGame`. */
    function GetGame(gameId: string): (r: Option<Game>)
      reads this
      ensures r.Some? <==> gameId in games
      ensures r.Some? ==> r.value == games[gameId]
    {
      if gameId in games then Some(games[gameId]) else None
    }

    /** `deleteGame`. */
    method DeleteGame(gameId: string)
      requires Valid()
      modifies this
      ensures Valid()
      ensures games == old(games) - {gameId}
    {
      games := games - {gameId};
    }

    /** `getAllGames`: every stored game once, in no particular order. */
    method GetAllGames() returns (all: seq<Game>)
      ensures |all| == |games|
      ensures forall g :: g in all <==> g in games.Values
    {
      all := [];
      var left := games.Keys;
      while left != {}
        invariant left <= games.Keys
        invariant |all| + |left| == |games|
        invariant forall g :: g in all <==> exists id | id in games.Keys - left :: games[id] == g
        decreases |left|
      {
        var id :| id in left;
        all := all + [games[id]];
        left := left - {id};
      }
    }

    /** `makeMove`: the registry changes only when the move succeeds. */
    method MakeMove(gameId: string, from: Square, to: Square, promotionType: Option<PieceType>, now: int)
      returns (r: MoveResult)
      requires Valid()
      modifies this
      ensures Valid()
      ensures gameId !in old(games) ==> r == GameNotFound && games == old(games)
      ensures gameId in old(games) ==> r == MoveOutcome(old(games)[gameId], from, to, promotionType, now)
      ensures r.Success? ==> games == old(games)[gameId := r.game]
      ensures !r.Success? ==> games == old(games)
    {
      var found := GetGame(gameId);
      if found.None? {
        return GameNotFound;
      }
      var game := found.value;
      if game.IsGameOver() {
        return GameOver;
      }
      var validationResult := IsValidMove(from, to, game);
      if !validationResult.IsValid() {
        return InvalidMove(validationResult.reason);
      }
      r := Play(game, from, to, promotionType, now);
      if r.Success? {
        SuccessfulMoves(game, from, to, promotionType, now);
        games := games[gameId := r.game];
      }
    }

    /** The rest of `makeMove` once the move is valid: the special-move branches, the
        promotion checks, the move record, and the two `afterMove` calls. */
    method Play(game: Game, from: Square, to: Square, promotionType: Option<PieceType>, now: int)
      returns (r: MoveResult)
      requires NoStrandedPawn(game.board)
      requires !game.IsGameOver() && Validation(game, from, to).IsValid()
      ensures r == MoveOutcome(game, from, to, promotionType, now)
    {
      var piece := At(game.board, from).value;
      var capturedPiece := At(game.board, to);
      var isCastling, isEnPassant := false, false;
      var promotion := promotionType;
      SpecialBranchesDead(game, from, to);

      if piece.kind == King && Abs(to.col - from.col) == 2 {
        assert false;
      }
      if piece.kind == Pawn && to.col != from.col && capturedPiece.None? {
        assert false;
      }

      if Promotes(piece, to) {
        if promotion.None? {
          return PromotionRequired;
        }
        if !IsPromotionPiece(promotion.value) {
          return InvalidMove("Invalid promotion piece");
        }
      }

      var move := Move(from, to, piece, capturedPiece, promotion, isCastling, isEnPassant);
      assert move == MoveRecordAsWritten(game, from, to, promotionType);
      AsWrittenRecordApplies(game, from, to, promotionType, Active, now);
      var after := AfterMove(game, move, Active, now);
      match after
      case Failure(e) =>
        return Threw(e);
      case Success(probe) =>
        var newStatus := GetGameStatus(probe);
        var updatedGame := AfterMove(game, move, newStatus, now);
        match updatedGame
        case Failure(e) =>
          return Threw(e);
        case Success(next) =>
          return MoveResult.Success(next, move);
    }

    /** `getLegalMoves(gameId, position)`: nothing for an unknown game. */
    method GetLegalMovesOf(gameId: string, position: Square) returns (moves: seq<Square>)
      requires Valid()
      ensures gameId !in games ==> moves == []
      ensures gameId in games ==> moves == LegalMoves(games[gameId], position)
    {
      var found := GetGame(gameId);
      if found.None? {
        return [];
      }
      moves := GetLegalMoves(position, found.value);
    }
  }

  /** A successful move is an ordinary one: never castling, never en passant; it records
      the piece that stood on `from`, whatever stood on `to` and the promotion piece sent;
      the stored game is the successor of the old one under the status derived from the
      position after the move, and no pawn is left on its far rank. */
  lemma SuccessfulMoves(game: Game, from: Square, to: Square, promotionType: Option<PieceType>, now: int)
    requires NoStrandedPawn(game.board)
    requires MoveOutcome(game, from, to, promotionType, now).Success?
    ensures var r := MoveOutcome(game, from, to, promotionType, now);
      !r.move.isCastling && !r.move.isEnPassant &&
      Some(r.move.piece) == At(game.board, from) && r.move.capturedPiece == At(game.board, to) &&
      r.move.from == from && r.move.to == to && r.move.promotion == promotionType &&
      Validation(game, from, to).IsValid() && !game.IsGameOver() &&
      r.game.id == game.id &&
      r.game.moveHistory == game.moveHistory + [r.move] &&
      r.game.currentPlayer == game.currentPlayer.Opposite() &&
      r.game.status == Status(Successor(game, r.move, Active, now).value) &&
      NoStrandedPawn(r.game.board)
  {
    var m := MoveRecordAsWritten(game, from, to, promotionType);
    AsWrittenRecordApplies(game, from, to, promotionType, Active, now);
    var status := Status(Successor(game, m, Active, now).value);
    AsWrittenRecordApplies(game, from, to, promotionType, status, now);
  }

  /** The promotion rules: a pawn reaching its far rank needs a promotion piece, which must
      be a queen, rook, bishop or knight, and then stands on `to` in the mover's colour. */
  lemma PromotionRules(game: Game, from: Square, to: Square, promotionType: Option<PieceType>, now: int)
    requires NoStrandedPawn(game.board)
    requires !game.IsGameOver() && Validation(game, from, to).IsValid()
    requires Promotes(At(game.board, from).value, to)
    ensures promotionType.None? ==> MoveOutcome(game, from, to, promotionType, now) == PromotionRequired
    ensures promotionType.Some? && !IsPromotionPiece(promotionType.value) ==>
      MoveOutcome(game, from, to, promotionType, now) == InvalidMove("Invalid promotion piece")
    ensures promotionType.Some? && IsPromotionPiece(promotionType.value) ==>
      MoveOutcome(game, from, to, promotionType, now).Success? &&
      At(MoveOutcome(game, from, to, promotionType, now).game.board, to) ==
        Some(Piece(game.currentPlayer, promotionType.value))
  {
    if promotionType.Some? && IsPromotionPiece(promotionType.value) {
      var m := MoveRecordAsWritten(game, from, to, promotionType);
      AsWrittenRecordApplies(game, from, to, promotionType, Active, now);
      var status := Status(Successor(game, m, Active, now).value);
      PlainMoveBoard(game, m, status, now);
    }
  }
}
