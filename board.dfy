/** The mutable 6x6 board (Board.kt): a class over a 6x6 array whose methods
    update cells in place. `Cells()` reads the array back as a `Grids.Grid` value,
    and every method is specified by what it does to that value. */
module Boards {
  import opened Outcomes
  import opened Colors
  import opened Positions
  import opened Pieces
  import opened Grids

  class Board {
    const grid: array2<Cell>

    ghost predicate Valid() {
      grid.Length0 == 6 && grid.Length1 == 6
    }

    /** The board's contents as a value. */
    function Cells(): (g: Grid)
      requires Valid()
      reads grid
      ensures forall p: Square :: At(g, p) == grid[p.row, p.col]
    {
      seq(6, r requires 0 <= r < 6 reads grid => seq(6, c requires 0 <= c < 6 reads grid => grid[r, c]))
    }

    /** `Board()`: an empty grid, then `setupInitialPosition`. */
    constructor ()
      ensures Valid() && fresh(grid)
      ensures Cells() == InitialGrid()
    {
      grid := new Cell[6, 6]((r, c) => None);
      new;
      SetupInitialPosition();
    }

    /** Row `row` holds R N B Q K R of the colour, from file a to file f. */
    ghost predicate HasBackRank(row: int, color: PieceColor)
      requires Valid() && 0 <= row < 6
      reads grid
    {
      grid[row, 0] == Some(Piece(color, Rook)) && grid[row, 1] == Some(Piece(color, Knight)) &&
      grid[row, 2] == Some(Piece(color, Bishop)) && grid[row, 3] == Some(Piece(color, Queen)) &&
      grid[row, 4] == Some(Piece(color, King)) && grid[row, 5] == Some(Piece(color, Rook))
    }

    /** `setupInitialPosition`, run on the empty grid of a new board: white's back rank
        and pawns, then black's. */
    method SetupInitialPosition()
      requires Valid()
      requires forall r, c | 0 <= r < 6 && 0 <= c < 6 :: grid[r, c] == None
      modifies grid
      ensures Cells() == InitialGrid()
    {
      PlaceBackRank(0, White);
      PlacePawns(1, White);
      PlaceBackRank(5, Black);
      PlacePawns(4, Black);
      forall p: Square
        ensures At(Cells(), p) == At(InitialGrid(), p)
      {
        assert HasBackRank(0, White) && HasBackRank(5, Black);
      }
      GridsEqual(Cells(), InitialGrid());
    }

    /** The six back-rank assignments of `setupInitialPosition` for one colour. */
    method PlaceBackRank(row: int, color: PieceColor)
      requires Valid() && 0 <= row < 6
      modifies grid
      ensures HasBackRank(row, color)
      ensures forall r, c | 0 <= r < 6 && 0 <= c < 6 && r != row :: grid[r, c] == old(grid[r, c])
    {
      grid[row, 0] := Some(Piece(color, Rook));
      grid[row, 1] := Some(Piece(color, Knight));
      grid[row, 2] := Some(Piece(color, Bishop));
      grid[row, 3] := Some(Piece(color, Queen));
      grid[row, 4] := Some(Piece(color, King));
      grid[row, 5] := Some(Piece(color, Rook));
    }

    /** The pawn loop of `setupInitialPosition` for one colour. */
    method PlacePawns(row: int, color: PieceColor)
      requires Valid() && 0 <= row < 6
      modifies grid
      ensures forall c | 0 <= c < 6 :: grid[row, c] == Some(Piece(color, Pawn))
      ensures forall r, c | 0 <= r < 6 && 0 <= c < 6 && r != row :: grid[r, c] == old(grid[r, c])
    {
      for col := 0 to 6
        invariant forall c | 0 <= c < col :: grid[row, c] == Some(Piece(color, Pawn))
        invariant forall r, c | 0 <= r < 6 && 0 <= c < 6 && r != row :: grid[r, c] == old(grid[r, c])
      {
        grid[row, col] := Some(Piece(color, Pawn));
      }
    }

    /** A board holding the given contents. This is how a board value stored in a
        game is turned back into an object; `copy()` of that board gives the same. */
    constructor Load(g: Grid)
      ensures Valid() && fresh(grid)
      ensures Cells() == g
    {
      grid := new Cell[6, 6]((r, c) requires 0 <= r < 6 && 0 <= c < 6 => g[r][c]);
      new;
      GridsEqual(Cells(), g);
    }

    /** `getPiece`. */
    function GetPiece(p: Square): (x: Cell)
      requires Valid()
      reads grid
      ensures x == At(Cells(), p)
    {
      grid[p.row, p.col]
    }

    /** `setPiece`: p holds x afterwards and every other square is unchanged. */
    method SetPiece(p: Square, x: Cell)
      requires Valid()
      modifies grid
      ensures Cells() == With(old(Cells()), p, x)
    {
      grid[p.row, p.col] := x;
      GridsEqual(Cells(), With(old(Cells()), p, x));
    }

    /** `movePiece`: to receives from's piece, then from is emptied, so a move onto
        the same square leaves it empty. */
    method MovePiece(from: Square, to: Square)
      requires Valid()
      modifies grid
      ensures Cells() == Relocate(old(Cells()), from, to)
    {
      var piece := GetPiece(from);
      SetPiece(to, piece);
      SetPiece(from, None);
    }

    /** `getPieces(color)`: the row-major scan. */
    method GetPieces(color: PieceColor) returns (pieces: seq<(Square, Piece)>)
      requires Valid()
      ensures pieces == PiecesOf(Cells(), color)
    {
      pieces := [];
      ghost var g := Cells();
      for row := 0 to 6
        invariant pieces == ScanRows(g, color, row)
      {
        for col := 0 to 6
          invariant pieces == ScanRows(g, color, row) + ScanRow(g, color, row, col)
        {
          var position: Square := Position(row, col);
          var piece := GetPiece(position);
          if piece.Some? && piece.value.color == color {
            pieces := pieces + [(position, piece.value)];
          }
        }
      }
    }

    /** `findKing(color)`: the first king of that colour in row-major order. */
    method FindKing(color: PieceColor) returns (k: Option<Square>)
      requires Valid()
      ensures k == KingSquare(Cells(), color)
    {
      ghost var g := Cells();
      for row := 0 to 6
        invariant KingInRows(g, color, row).None?
      {
        for col := 0 to 6
          invariant KingInRow(g, color, row, col).None?
        {
          var position: Square := Position(row, col);
          var piece := GetPiece(position);
          if piece.Some? && piece.value.kind == King && piece.value.color == color {
            KingFoundAt(g, color, row, col);
            return Some(position);
          }
        }
      }
      return None;
    }

    /** `copy()`: a fresh board (set up, then cleared) receiving a new piece of the same
        kind and colour on every occupied square. The copy shares no storage with this
        board, so changing one never changes the other. */
    method Copy() returns (b: Board)
      requires Valid()
      ensures fresh(b) && fresh(b.grid) && b.Valid()
      ensures b.Cells() == Cells()
    {
      b := new Board();
      for row := 0 to 6
        invariant forall r, c | 0 <= r < row && 0 <= c < 6 :: b.grid[r, c] == None
      {
        for col := 0 to 6
          invariant forall r, c | 0 <= r < 6 && 0 <= c < 6 && (r < row || (r == row && c < col)) ::
            b.grid[r, c] == None
        {
          b.grid[row, col] := None;
        }
      }
      for row := 0 to 6
        invariant forall r, c | 0 <= r < 6 && 0 <= c < 6 ::
          b.grid[r, c] == if r < row then grid[r, c] else None
      {
        for col := 0 to 6
          invariant forall r, c | 0 <= r < 6 && 0 <= c < 6 ::
            b.grid[r, c] == if r < row || (r == row && c < col) then grid[r, c] else None
        {
          var piece := grid[row, col];
          if piece.Some? {
            b.grid[row, col] := Some(Piece(piece.value.color, piece.value.kind));
          }
        }
      }
      GridsEqual(b.Cells(), Cells());
    }
  }
}
