/** The move record (Move.kt): an immutable value with two predicates and two renderings. */
module MoveRecords {
  import opened Outcomes
  import opened Colors
  import opened Positions
  import opened Pieces

  datatype Move = Move(
    from: Square,
    to: Square,
    piece: Piece,
    capturedPiece: Option<Piece>,
    promotion: Option<PieceType>,
    isCastling: bool,
    isEnPassant: bool)
  {
    /** `isPawnDoubleMove`: a pawn that moved two rows (either way). */
    predicate IsPawnDoubleMove() {
      piece.kind == Pawn && Abs(to.row - from.row) == 2
    }

    /** `isCapture`: something was taken, directly or en passant. */
    predicate IsCapture() {
      capturedPiece.Some? || isEnPassant
    }

    /** `toAlgebraic`: "O-O" / "O-O-O" for castling; for a pawn the origin file and 'x' on a
        capture, the destination, then '=' and the first letter of the promotion name;
        for any other piece the first letter of its kind's name, 'x' on a capture, and the
        destination. */
    function ToAlgebraic(): (s: string)
      ensures isCastling ==> |s| == 3 || |s| == 5
      ensures !isCastling && piece.kind == Pawn ==>
        |s| == 2 + (if IsCapture() then 2 else 0) + (if promotion.Some? then 2 else 0)
      ensures !isCastling && piece.kind != Pawn ==> |s| == 3 + (if IsCapture() then 1 else 0)
    {
      if isCastling then
        (if to.col > from.col then "O-O" else "O-O-O")
      else if piece.kind == Pawn then
        (if IsCapture() then [Positions.ToAlgebraic(from)[0], 'x'] else []) +
        Positions.ToAlgebraic(to) +
        (if promotion.Some? then ['=', Name(promotion.value)[0]] else [])
      else
        [Name(piece.kind)[0]] + (if IsCapture() then ['x'] else []) + Positions.ToAlgebraic(to)
    }

    /** `toString`: origin and destination joined by '-'. */
    function ToString(): (s: string)
      ensures |s| == 5 && s[2] == '-'
    {
      Positions.ToAlgebraic(from) + "-" + Positions.ToAlgebraic(to)
    }
  }

  /** The two squares can be read back from `toString`. */
  lemma ToStringParses(m: Move)
    ensures FromAlgebraic(m.ToString()[..2]) == Success(m.from)
    ensures FromAlgebraic(m.ToString()[3..]) == Success(m.to)
  {
    var s := m.ToString();
    assert s[..2] == Positions.ToAlgebraic(m.from);
    assert s[3..] == Positions.ToAlgebraic(m.to);
    FromToAlgebraic(m.from);
    FromToAlgebraic(m.to);
  }

  /** Except for castling, the destination square can be read back from the notation: it
      is the last two characters, or the two before "=X" on a promotion. */
  lemma NotationNamesDestination(m: Move)
    requires !m.isCastling
    ensures var s := m.ToAlgebraic();
      var end := if m.piece.kind == Pawn && m.promotion.Some? then |s| - 2 else |s|;
      2 <= end <= |s| && FromAlgebraic(s[end - 2..end]) == Success(m.to)
  {
    var s := m.ToAlgebraic();
    var dest := Positions.ToAlgebraic(m.to);
    if m.piece.kind == Pawn {
      var prefix := if m.IsCapture() then [Positions.ToAlgebraic(m.from)[0], 'x'] else [];
      var suffix := if m.promotion.Some? then ['=', Name(m.promotion.value)[0]] else [];
      assert s == prefix + dest + suffix;
      assert s[|prefix|..|prefix| + 2] == dest;
    } else {
      var prefix := [Name(m.piece.kind)[0]] + (if m.IsCapture() then ['x'] else []);
      assert s == prefix + dest;
      assert s[|prefix|..] == dest;
    }
    FromToAlgebraic(m.to);
  }

  /** A pawn capture starts with the origin file and 'x'; castling ignores the piece and
      depends only on the direction. */
  lemma NotationPrefixes(m: Move)
    ensures !m.isCastling && m.piece.kind == Pawn && m.IsCapture() ==>
      m.ToAlgebraic()[0] == 'a' + (m.from.col as char) && m.ToAlgebraic()[1] == 'x'
    ensures m.isCastling ==> m.ToAlgebraic() == (if m.to.col > m.from.col then "O-O" else "O-O-O")
  {
  }

  /** Outside castling, the second character is 'x' exactly on a capture (otherwise it is
      a file letter or a rank digit); a piece other than a pawn is written with the first
      letter of its kind's name; a pawn promotion ends with '=' and the first letter of the
      promotion piece's name. */
  lemma NotationMarks(m: Move)
    requires !m.isCastling
    ensures var s := m.ToAlgebraic();
      |s| >= 2 && (s[1] == 'x' <==> m.IsCapture())
    ensures m.piece.kind != Pawn ==> m.ToAlgebraic()[0] == Name(m.piece.kind)[0]
    ensures m.piece.kind == Pawn && m.promotion.Some? ==>
      var s := m.ToAlgebraic();
      s[|s| - 2] == '=' && s[|s| - 1] == Name(m.promotion.value)[0]
  {
    var s := m.ToAlgebraic();
    var dest := Positions.ToAlgebraic(m.to);
    if m.piece.kind == Pawn {
      if !m.IsCapture() {
        assert s[1] == dest[1];
      }
    } else {
      if !m.IsCapture() {
        assert s[1] == dest[0];
      }
    }
  }

  /** The notation does not tell a king from a knight: both are written with 'K'. */
  lemma KingAndKnightLookAlike(m: Move, color: PieceColor)
    ensures m.(piece := Piece(color, King)).ToAlgebraic() == m.(piece := Piece(color, Knight)).ToAlgebraic()
    ensures !m.isCastling ==> m.(piece := Piece(color, King)).ToAlgebraic()[0] == 'K'
  {
  }
}
