/** The two sides of the game (PieceColor.kt). */
module Colors {

  datatype PieceColor = White | Black {

    /** The other side: `opposite()` has no fixed point, so on a two-valued
        type it swaps the values. */
    function Opposite(): (c: PieceColor)
      ensures c != this
    {
      if this == White then Black else White
    }
  }

  /** Flipping the side twice gives the side back. */
  lemma OppositeIsInvolution(c: PieceColor)
    ensures c.Opposite().Opposite() == c
    ensures White.Opposite() == Black && Black.Opposite() == White
  {
  }
}
