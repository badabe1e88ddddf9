/** The contents of a board as a value: six rows of six cells, each empty or holding a
    piece (Board.kt's `grid`, seen from outside). Row 0 is white's back rank, column 0
    is file 'a'. */
module Grids {
  import opened Outcomes
  import opened Colors
  import opened Positions
  import opened Pieces

  type Cell = Option<Piece>

  predicate IsGrid(g: seq<seq<Cell>>) {
    |g| == 6 && forall r | 0 <= r < 6 :: |g[r]| == 6
  }

  type Grid = g: seq<seq<Cell>> | IsGrid(g) witness seq(6, r => seq(6, c => None))

  /** `getPiece`. */
  function At(g: Grid, p: Square): Cell {
    g[p.row][p.col]
  }

  /** Two grids that agree on every square are equal. */
  lemma GridsEqual(a: Grid, b: Grid)
    requires forall p: Square :: At(a, p) == At(b, p)
    ensures a == b
  {
    forall r | 0 <= r < 6
      ensures a[r] == b[r]
    {
      forall c | 0 <= c < 6
        ensures a[r][c] == b[r][c]
      {
        assert At(a, Position(r, c)) == At(b, Position(r, c));
      }
    }
  }

  /** `setPiece` on a value: square p now holds x, every other square is as before. */
  function With(g: Grid, p: Square, x: Cell): (r: Grid)
    ensures At(r, p) == x
    ensures forall q: Square | q != p :: At(r, q) == At(g, q)
  {
    g[p.row := g[p.row][p.col := x]]
  }

  /** `movePiece` on a value: put what stood on `from` on `to`, then empty `from`. */
  function Relocate(g: Grid, from: Square, to: Square): (r: Grid)
    ensures At(r, from) == None
    ensures from != to ==> At(r, to) == At(g, from)
    ensures forall q: Square | q != from && q != to :: At(r, q) == At(g, q)
  {
    With(With(g, to, At(g, from)), from, None)
  }

  function EmptyRank(): seq<Cell> {
    seq(6, c => None)
  }

  function PawnRank(color: PieceColor): seq<Cell> {
    seq(6, c => Some(Piece(color, Pawn)))
  }

  /** R N B Q K R, from file a to file f. */
  function BackRank(color: PieceColor): seq<Cell> {
    [Some(Piece(color, Rook)), Some(Piece(color, Knight)), Some(Piece(color, Bishop)),
     Some(Piece(color, Queen)), Some(Piece(color, King)), Some(Piece(color, Rook))]
  }

  /** `setupInitialPosition`. */
  function InitialGrid(): Grid {
    [BackRank(White), PawnRank(White), EmptyRank(), EmptyRank(), PawnRank(Black), BackRank(Black)]
  }

  function EmptyGrid(): Grid {
    seq(6, r => EmptyRank())
  }

  /** A board holding only x, on p: a cleared board after one `setPiece`. */
  function Lone(p: Square, x: Piece): (g: Grid)
    ensures At(g, p) == Some(x)
    ensures forall q: Square | q != p :: At(g, q) == None
  {
    With(EmptyGrid(), p, Some(x))
  }

  /** The standard start: back ranks on rows 0 and 5, pawns on rows 1 and 4, rows 2 and 3 empty. */
  lemma InitialSetup()
    ensures forall c | 0 <= c < 6 ::
      At(InitialGrid(), Position(1, c)) == Some(Piece(White, Pawn)) &&
      At(InitialGrid(), Position(4, c)) == Some(Piece(Black, Pawn)) &&
      At(InitialGrid(), Position(2, c)) == None && At(InitialGrid(), Position(3, c)) == None
    ensures forall c | 0 <= c < 6 ::
      At(InitialGrid(), Position(0, c)).Some? && At(InitialGrid(), Position(0, c)).value.color == White &&
      At(InitialGrid(), Position(5, c)) == Some(Piece(Black, At(InitialGrid(), Position(0, c)).value.kind))
    ensures At(InitialGrid(), Position(0, 4)) == Some(Piece(White, King))
    ensures At(InitialGrid(), Position(0, 0)) == Some(Piece(White, Rook)) == At(InitialGrid(), Position(0, 5))
  {
  }

  /** Row-major order, the order of the nested row/column loops: lower rows first,
      and within a row lower columns first. */
  predicate Precedes(p: Square, q: Square) {
    p.row < q.row || (p.row == q.row && p.col < q.col)
  }

  /** The pieces of one colour on the first n squares of row `row`. */
  function ScanRow(g: Grid, color: PieceColor, row: int, n: nat): seq<(Square, Piece)>
    requires 0 <= row < 6 && n <= 6
  {
    if n == 0 then []
    else
      var p := Position(row, n - 1);
      ScanRow(g, color, row, n - 1) +
        (if At(g, p).Some? && At(g, p).value.color == color then [(p, At(g, p).value)] else [])
  }

  /** The pieces of one colour on the first `rows` rows, row by row. */
  function ScanRows(g: Grid, color: PieceColor, rows: nat): seq<(Square, Piece)>
    requires rows <= 6
  {
    if rows == 0 then [] else ScanRows(g, color, rows - 1) + ScanRow(g, color, rows - 1, 6)
  }

  /** What `getPieces(color)` returns: every row of the grid, scanned in order. */
  function PiecesOf(g: Grid, color: PieceColor): seq<(Square, Piece)> {
    ScanRows(g, color, |g|)
  }

  lemma {:induction false} ScanRowMembers(g: Grid, color: PieceColor, row: int, n: nat)
    requires 0 <= row < 6 && n <= 6
    ensures forall p: Square, x: Piece :: (p, x) in ScanRow(g, color, row, n) <==>
      p.row == row && p.col < n && At(g, p) == Some(x) && x.color == color
  {
    if n > 0 {
      ScanRowMembers(g, color, row, n - 1);
    }
  }

  lemma {:induction false} ScanRowOrdered(g: Grid, color: PieceColor, row: int, n: nat)
    requires 0 <= row < 6 && n <= 6
    ensures forall i | 0 <= i < |ScanRow(g, color, row, n)| ::
      ScanRow(g, color, row, n)[i].0.row == row && ScanRow(g, color, row, n)[i].0.col < n
    ensures forall i, j | 0 <= i < j < |ScanRow(g, color, row, n)| ::
      ScanRow(g, color, row, n)[i].0.col < ScanRow(g, color, row, n)[j].0.col
  {
    if n > 0 {
      ScanRowOrdered(g, color, row, n - 1);
    }
  }

  lemma {:induction false} ScanRowsSpec(g: Grid, color: PieceColor, rows: nat)
    requires rows <= 6
    ensures forall p: Square, x: Piece :: (p, x) in ScanRows(g, color, rows) <==>
      p.row < rows && At(g, p) == Some(x) && x.color == color
    ensures forall i, j | 0 <= i < j < |ScanRows(g, color, rows)| ::
      Precedes(ScanRows(g, color, rows)[i].0, ScanRows(g, color, rows)[j].0)
    ensures forall i | 0 <= i < |ScanRows(g, color, rows)| :: ScanRows(g, color, rows)[i].0.row < rows
  {
    if rows > 0 {
      ScanRowsSpec(g, color, rows - 1);
      ScanRowMembers(g, color, rows - 1, 6);
      ScanRowOrdered(g, color, rows - 1, 6);
      var a: seq<(Square, Piece)>, b: seq<(Square, Piece)> := ScanRows(g, color, rows - 1), ScanRow(g, color, rows - 1, 6);
      forall i, j | 0 <= i < j < |a + b|
        ensures Precedes((a + b)[i].0, (a + b)[j].0)
      {
        if j < |a| {
        } else if i >= |a| {
          assert (a + b)[i] == b[i - |a|] && (a + b)[j] == b[j - |a|];
        } else {
          assert (a + b)[j] == b[j - |a|];
        }
      }
    }
  }

  /** `getPieces(color)` lists exactly the squares holding a piece of that colour,
      each with its piece, in strictly increasing row-major order. */
  lemma PiecesOfExactly(g: Grid, color: PieceColor)
    ensures forall p: Square, x: Piece :: (p, x) in PiecesOf(g, color) <==> At(g, p) == Some(x) && x.color == color
    ensures forall i, j | 0 <= i < j < |PiecesOf(g, color)| ::
      Precedes(PiecesOf(g, color)[i].0, PiecesOf(g, color)[j].0)
  {
    ScanRowsSpec(g, color, |g|);
  }

  /** The first king of the colour on the first n squares of row `row`. */
  function KingInRow(g: Grid, color: PieceColor, row: int, n: nat): Option<Square>
    requires 0 <= row < 6 && n <= 6
  {
    if n == 0 then None
    else if KingInRow(g, color, row, n - 1).Some? then KingInRow(g, color, row, n - 1)
    else if At(g, Position(row, n - 1)) == Some(Piece(color, King)) then Some(Position(row, n - 1))
    else None
  }

  /** The first king of the colour on the first `rows` rows, in row-major order. */
  function KingInRows(g: Grid, color: PieceColor, rows: nat): Option<Square>
    requires rows <= 6
  {
    if rows == 0 then None
    else if KingInRows(g, color, rows - 1).Some? then KingInRows(g, color, rows - 1)
    else KingInRow(g, color, rows - 1, 6)
  }

  /** What `findKing(color)` returns. */
  function KingSquare(g: Grid, color: PieceColor): Option<Square> {
    KingInRows(g, color, |g|)
  }

  /** Once a king has been found in a row, scanning the rest of the row keeps it. */
  lemma {:induction false} KingInRowStable(g: Grid, color: PieceColor, row: int, n: nat, m: nat)
    requires 0 <= row < 6 && n <= m <= 6
    requires KingInRow(g, color, row, n).Some?
    ensures KingInRow(g, color, row, m) == KingInRow(g, color, row, n)
    decreases m
  {
    if m > n {
      KingInRowStable(g, color, row, n, m - 1);
    }
  }

  /** Once a king has been found, scanning further rows keeps it. */
  lemma {:induction false} KingInRowsStable(g: Grid, color: PieceColor, n: nat, m: nat)
    requires n <= m <= 6
    requires KingInRows(g, color, n).Some?
    ensures KingInRows(g, color, m) == KingInRows(g, color, n)
    decreases m
  {
    if m > n {
      KingInRowsStable(g, color, n, m - 1);
    }
  }

  /** The scan stops at the first king it meets. */
  lemma KingFoundAt(g: Grid, color: PieceColor, row: int, col: int)
    requires 0 <= row < 6 && 0 <= col < 6
    requires KingInRows(g, color, row).None? && KingInRow(g, color, row, col).None?
    requires At(g, Position(row, col)) == Some(Piece(color, King))
    ensures KingSquare(g, color) == Some(Position(row, col))
  {
    KingInRowStable(g, color, row, col + 1, 6);
    KingInRowsStable(g, color, row + 1, 6);
  }

  lemma {:induction false} KingInRowSpec(g: Grid, color: PieceColor, row: int, n: nat)
    requires 0 <= row < 6 && n <= 6
    ensures KingInRow(g, color, row, n).None? ==>
      forall p: Square | p.row == row && p.col < n :: At(g, p) != Some(Piece(color, King))
    ensures KingInRow(g, color, row, n).Some? ==>
      var k := KingInRow(g, color, row, n).value;
      k.row == row && k.col < n && At(g, k) == Some(Piece(color, King)) &&
      forall p: Square | p.row == row && p.col < k.col :: At(g, p) != Some(Piece(color, King))
  {
    if n > 0 {
      KingInRowSpec(g, color, row, n - 1);
    }
  }

  lemma {:induction false} KingInRowsSpec(g: Grid, color: PieceColor, rows: nat)
    requires rows <= 6
    ensures KingInRows(g, color, rows).None? ==>
      forall p: Square | p.row < rows :: At(g, p) != Some(Piece(color, King))
    ensures KingInRows(g, color, rows).Some? ==>
      var k := KingInRows(g, color, rows).value;
      k.row < rows && At(g, k) == Some(Piece(color, King)) &&
      forall p: Square | Precedes(p, k) :: At(g, p) != Some(Piece(color, King))
  {
    if rows > 0 {
      KingInRowsSpec(g, color, rows - 1);
      KingInRowSpec(g, color, rows - 1, 6);
    }
  }

  /** `findKing` gives the first king of that colour in row-major order, or nothing
      when the board has no such king. */
  lemma KingSquareSpec(g: Grid, color: PieceColor)
    ensures KingSquare(g, color).None? <==> forall p: Square :: At(g, p) != Some(Piece(color, King))
    ensures KingSquare(g, color).Some? ==>
      var k := KingSquare(g, color).value;
      At(g, k) == Some(Piece(color, King)) &&
      forall p: Square | Precedes(p, k) :: At(g, p) != Some(Piece(color, King))
  {
    KingInRowsSpec(g, color, |g|);
  }
}
