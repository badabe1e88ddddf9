/** Piece kinds and pieces (Piece.kt, the PieceType enum). A piece is a value:
    two pieces are equal exactly when their colours and kinds are equal, which is
    what the overridden `equals` says. */
module Pieces {
  import opened Colors

  datatype PieceType = King | Queen | Rook | Bishop | Knight | Pawn

  /** The enum constant's name, as `PieceType.name` gives it. */
  function Name(k: PieceType): (s: string)
    ensures |s| >= 4
    ensures forall i | 0 <= i < |s| :: 'A' <= s[i] <= 'Z'
  {
    match k
    case King => "KING"
    case Queen => "QUEEN"
    case Rook => "ROOK"
    case Bishop => "BISHOP"
    case Knight => "KNIGHT"
    case Pawn => "PAWN"
  }

  datatype Piece = Piece(color: PieceColor, kind: PieceType)

  /** Value equality: equal colour and kind, nothing else (no identity). */
  lemma PieceEquality(a: Piece, b: Piece)
    ensures a == b <==> a.color == b.color && a.kind == b.kind
  {
  }
}
