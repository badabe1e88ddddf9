/** Check, checkmate and stalemate (CheckDetector.kt). The `any`/`filter` queries are
    functions over the board value; `hasAnyLegalMoves` is the nested loop over board copies. */
module CheckDetection {
  import opened Outcomes
  import opened Colors
  import opened Positions
  import opened Pieces
  import opened Grids
  import opened Boards
  import opened Movement
  import opened Games
  import opened Collections

  /** The piece on q belongs to `by` and can move onto `target`. */
  predicate Attacks(g: Grid, side: PieceColor, q: Square, target: Square) {
    At(g, q).Some? && At(g, q).value.color == side && CanMove(g, At(g, q).value, q, target)
  }

  /** Whether some listed piece can move onto `target`: the `any` of the source. */
  function AnyReaches(g: Grid, pieces: seq<(Square, Piece)>, target: Square): (b: bool)
    ensures b <==> exists i | 0 <= i < |pieces| :: CanMove(g, pieces[i].1, pieces[i].0, target)
  {
    if pieces == [] then false
    else
      var last := pieces[|pieces| - 1];
      assert forall i | 0 <= i < |pieces| - 1 :: pieces[..|pieces| - 1][i] == pieces[i];
      AnyReaches(g, pieces[..|pieces| - 1], target) || CanMove(g, last.1, last.0, target)
  }

  /** `isSquareUnderAttack(position, byColor, board)`. */
  function IsSquareUnderAttack(position: Square, byColor: PieceColor, g: Grid): bool {
    AnyReaches(g, PiecesOf(g, byColor), position)
  }

  /** `isKingInCheck(color, board)`: no king, no check. */
  function IsKingInCheck(color: PieceColor, g: Grid): bool {
    match KingSquare(g, color)
    case None => false
    case Some(k) => AnyReaches(g, PiecesOf(g, color.Opposite()), k)
  }

  /** A square is under attack exactly when some piece of that colour can move onto it. */
  lemma UnderAttackSpec(position: Square, byColor: PieceColor, g: Grid)
    ensures IsSquareUnderAttack(position, byColor, g) <==> exists q: Square :: Attacks(g, byColor, q, position)
  {
    PiecesOfExactly(g, byColor);
    var ps := PiecesOf(g, byColor);
    if IsSquareUnderAttack(position, byColor, g) {
      var i :| 0 <= i < |ps| && CanMove(g, ps[i].1, ps[i].0, position);
      assert ps[i] in ps;
      assert Attacks(g, byColor, ps[i].0, position);
    }
    if q: Square :| Attacks(g, byColor, q, position) {
      var x := At(g, q).value;
      assert (q, x) in ps;
      var i :| 0 <= i < |ps| && ps[i] == (q, x);
    }
  }

  /** The king is in check exactly when it is on the board and some opposing piece can
      move onto its square. */
  lemma KingInCheckSpec(color: PieceColor, g: Grid)
    ensures KingSquare(g, color).None? ==> !IsKingInCheck(color, g)
    ensures KingSquare(g, color).Some? ==>
      (IsKingInCheck(color, g) <==> exists q: Square :: Attacks(g, color.Opposite(), q, KingSquare(g, color).value))
  {
    if KingSquare(g, color).Some? {
      UnderAttackSpec(KingSquare(g, color).value, color.Opposite(), g);
    }
  }

  /** The squares of the listed pieces that can move onto `target`, in list order. */
  function Reaching(g: Grid, pieces: seq<(Square, Piece)>, target: Square): (r: seq<Square>)
    ensures |r| <= |pieces|
    ensures |r| > 0 <==> AnyReaches(g, pieces, target)
    ensures forall q :: q in r <==> exists i | 0 <= i < |pieces| :: pieces[i].0 == q && CanMove(g, pieces[i].1, q, target)
  {
    if pieces == [] then []
    else
      var last := pieces[|pieces| - 1];
      assert forall i | 0 <= i < |pieces| - 1 :: pieces[..|pieces| - 1][i] == pieces[i];
      Reaching(g, pieces[..|pieces| - 1], target) + (if CanMove(g, last.1, last.0, target) then [last.0] else [])
  }

  /** `getAttackingPieces(color, board)`. */
  function GetAttackingPieces(color: PieceColor, g: Grid): seq<Square> {
    match KingSquare(g, color)
    case None => []
    case Some(k) => Reaching(g, PiecesOf(g, color.Opposite()), k)
  }

  /** The attackers are exactly the opposing pieces that reach the king, and there are
      some exactly when the king is in check. */
  lemma AttackersSpec(color: PieceColor, g: Grid, q: Square)
    ensures |GetAttackingPieces(color, g)| > 0 <==> IsKingInCheck(color, g)
    ensures q in GetAttackingPieces(color, g) <==>
      KingSquare(g, color).Some? && Attacks(g, color.Opposite(), q, KingSquare(g, color).value)
  {
    PiecesOfExactly(g, color.Opposite());
    if KingSquare(g, color).Some? {
      var k := KingSquare(g, color).value;
      var ps := PiecesOf(g, color.Opposite());
      if q in GetAttackingPieces(color, g) {
        var i :| 0 <= i < |ps| && ps[i].0 == q && CanMove(g, ps[i].1, q, k);
        assert ps[i] in ps;
      }
      if Attacks(g, color.Opposite(), q, k) {
        assert (q, At(g, q).value) in ps;
        var i :| 0 <= i < |ps| && ps[i] == (q, At(g, q).value);
      }
    }
  }

  /** Some listed target leaves the mover's own king out of check after the piece on
      `from` is moved there. */
  function AnySafe(g: Grid, color: PieceColor, from: Square, targets: seq<Square>): (b: bool)
    ensures b <==> exists j | 0 <= j < |targets| :: !IsKingInCheck(color, Relocate(g, from, targets[j]))
  {
    if targets == [] then false
    else
      assert forall j | 0 <= j < |targets| - 1 :: targets[..|targets| - 1][j] == targets[j];
      AnySafe(g, color, from, targets[..|targets| - 1]) ||
      !IsKingInCheck(color, Relocate(g, from, targets[|targets| - 1]))
  }

  /** The piece x on `from` has a generated target that leaves its own king safe. */
  function HasSafeMove(g: Grid, color: PieceColor, from: Square, x: Piece): bool
    requires CanGenerate(x, from)
  {
    AnySafe(g, color, from, ValidMoves(g, x, from))
  }

  /** The listed piece can list its moves and has a safe one. */
  predicate SafeMoveFrom(g: Grid, color: PieceColor, entry: (Square, Piece)) {
    CanGenerate(entry.1, entry.0) && HasSafeMove(g, color, entry.0, entry.1)
  }

  /** What `hasAnyLegalMoves(game)` answers. */
  function HasAnyLegal(game: Game): bool {
    AnySafeEntry(game.board, game.currentPlayer, PiecesOf(game.board, game.currentPlayer))
  }

  /** Some listed piece has a safe move. */
  function AnySafeEntry(g: Grid, color: PieceColor, pieces: seq<(Square, Piece)>): bool {
    Any(pieces, e => SafeMoveFrom(g, color, e))
  }

  /** Moving the `color` piece on p to the generated target t leaves its own king safe. */
  predicate IsLegalMove(g: Grid, color: PieceColor, p: Square, t: Square) {
    At(g, p).Some? && At(g, p).value.color == color && CanGenerate(At(g, p).value, p) &&
    t in ValidMoves(g, At(g, p).value, p) && !IsKingInCheck(color, Relocate(g, p, t))
  }

  lemma LegalMoveFromAny(game: Game)
    requires HasAnyLegal(game)
    ensures exists p: Square, t: Square :: IsLegalMove(game.board, game.currentPlayer, p, t)
  {
    var g, c := game.board, game.currentPlayer;
    var ps := PiecesOf(g, c);
    PiecesOfExactly(g, c);
    var i :| 0 <= i < |ps| && SafeMoveFrom(g, c, ps[i]);
    assert ps[i] in ps;
    var (p, x) := ps[i];
    var ts := ValidMoves(g, x, p);
    var j :| 0 <= j < |ts| && !IsKingInCheck(c, Relocate(g, p, ts[j]));
    assert IsLegalMove(g, c, p, ts[j]);
  }

  lemma AnyFromLegalMove(game: Game, p: Square, t: Square)
    requires IsLegalMove(game.board, game.currentPlayer, p, t)
    ensures HasAnyLegal(game)
  {
    var g, c := game.board, game.currentPlayer;
    var ps := PiecesOf(g, c);
    PiecesOfExactly(g, c);
    var x := At(g, p).value;
    assert (p, x) in ps;
    var i :| 0 <= i < |ps| && ps[i] == (p, x);
    var ts := ValidMoves(g, x, p);
    var j :| 0 <= j < |ts| && ts[j] == t;
    assert HasSafeMove(g, c, p, x);
    assert SafeMoveFrom(g, c, ps[i]);
  }

  /** The side to move has a legal move exactly when one of its pieces has a generated
      target after which its own king is not in check; en passant and castling are not
      considered. */
  lemma HasAnyLegalSpec(game: Game)
    ensures HasAnyLegal(game) <==> exists p: Square, t: Square :: IsLegalMove(game.board, game.currentPlayer, p, t)
  {
    if HasAnyLegal(game) {
      LegalMoveFromAny(game);
    }
    if p: Square, t: Square :| IsLegalMove(game.board, game.currentPlayer, p, t) {
      AnyFromLegalMove(game, p, t);
    }
  }

  /** The inner loop of `hasAnyLegalMoves`: each target is tried on a fresh copy. */
  method AnySafeTarget(board: Board, color: PieceColor, position: Square, targets: seq<Square>) returns (found: bool)
    requires board.Valid()
    ensures found == AnySafe(board.Cells(), color, position, targets)
  {
    for j := 0 to |targets|
      invariant !AnySafe(board.Cells(), color, position, targets[..j])
    {
      assert targets[..j + 1][..j] == targets[..j];
      var testBoard := board.Copy();
      testBoard.MovePiece(position, targets[j]);
      if !IsKingInCheck(color, testBoard.Cells()) {
        return true;
      }
    }
    assert targets[..|targets|] == targets;
    return false;
  }

  /** One turn of the loop over the pieces: the piece's generated moves, tried in turn. */
  method PieceHasSafeMove(board: Board, color: PieceColor, entry: (Square, Piece)) returns (found: bool)
    requires board.Valid() && At(board.Cells(), entry.0) == Some(entry.1)
    requires NoStrandedPawn(board.Cells())
    ensures found == SafeMoveFrom(board.Cells(), color, entry)
  {
    var (position, piece) := entry;
    var possibleMoves := GetValidMoves(board, piece, position);
    found := AnySafeTarget(board, color, position, possibleMoves);
  }

  /** `hasAnyLegalMoves(game)`: every own piece, every generated target, first safe one wins. */
  method HasAnyLegalMoves(game: Game) returns (found: bool)
    requires NoStrandedPawn(game.board)
    ensures found == HasAnyLegal(game)
  {
    var board := new Board.Load(game.board);
    var pieces := board.GetPieces(game.currentPlayer);
    PiecesOfExactly(game.board, game.currentPlayer);
    found := AnyPieceHasSafeMove(board, game.currentPlayer, pieces);
  }

  /** The loop of `hasAnyLegalMoves` over the listed pieces, stopping at the first one
      with a safe move. */
  method AnyPieceHasSafeMove(board: Board, color: PieceColor, pieces: seq<(Square, Piece)>) returns (found: bool)
    requires board.Valid() && NoStrandedPawn(board.Cells())
    requires forall e | e in pieces :: At(board.Cells(), e.0) == Some(e.1)
    ensures found == AnySafeEntry(board.Cells(), color, pieces)
  {
    for i := 0 to |pieces|
      invariant !AnySafeEntry(board.Cells(), color, pieces[..i])
    {
      assert pieces[..i + 1][..i] == pieces[..i];
      assert pieces[i] in pieces;
      found := PieceHasSafeMove(board, color, pieces[i]);
      if found {
        return true;
      }
    }
    assert pieces[..|pieces|] == pieces;
    return false;
  }

  /** What `isCheckmate` answers: in check with no legal move. */
  function Checkmated(game: Game): bool {
    IsKingInCheck(game.currentPlayer, game.board) && !HasAnyLegal(game)
  }

  /** What `isStalemate` answers: not in check, yet no legal move. */
  function Stalemated(game: Game): bool {
    !IsKingInCheck(game.currentPlayer, game.board) && !HasAnyLegal(game)
  }

  /** What `getGameStatus` answers. */
  function Status(game: Game): GameStatus {
    if Checkmated(game) then Checkmate
    else if Stalemated(game) then Stalemate
    else if IsKingInCheck(game.currentPlayer, game.board) then Check
    else Active
  }

  /** `isCheckmate(game)`. */
  method IsCheckmate(game: Game) returns (b: bool)
    requires NoStrandedPawn(game.board)
    ensures b == Checkmated(game)
  {
    if !IsKingInCheck(game.currentPlayer, game.board) {
      return false;
    }
    var any := HasAnyLegalMoves(game);
    return !any;
  }

  /** `isStalemate(game)`. */
  method IsStalemate(game: Game) returns (b: bool)
    requires NoStrandedPawn(game.board)
    ensures b == Stalemated(game)
  {
    if IsKingInCheck(game.currentPlayer, game.board) {
      return false;
    }
    var any := HasAnyLegalMoves(game);
    return !any;
  }

  /** `getGameStatus(game)`: checkmate, then stalemate, then check, else active. */
  method GetGameStatus(game: Game) returns (status: GameStatus)
    requires NoStrandedPawn(game.board)
    ensures status == Status(game)
  {
    var mate := IsCheckmate(game);
    if mate {
      return Checkmate;
    }
    var stale := IsStalemate(game);
    if stale {
      return Stalemate;
    }
    if IsKingInCheck(game.currentPlayer, game.board) {
      return Check;
    }
    return Active;
  }

  /** Checkmate and stalemate never hold together. */
  lemma MateAndStalemateExclusive(game: Game)
    ensures !(Checkmated(game) && Stalemated(game))
  {
  }

  /** Each status names exactly its situation, and the derived status is never a draw. */
  lemma StatusSpec(game: Game)
    ensures var inCheck, any := IsKingInCheck(game.currentPlayer, game.board), HasAnyLegal(game);
      (Status(game) == Checkmate <==> inCheck && !any) &&
      (Status(game) == Stalemate <==> !inCheck && !any) &&
      (Status(game) == Check <==> inCheck && any) &&
      (Status(game) == Active <==> !inCheck && any) &&
      Status(game) != Draw
  {
  }
}
