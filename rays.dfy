/** The occupancy helpers and the ray walker shared by all pieces (Piece.kt), and the
    geometry the sliding pieces are specified by. A piece of colour `color` asks
    about squares of a board; "own" and "opponent" are relative to that colour. */
module Rays {
  import opened Colors
  import opened Positions
  import opened Pieces
  import opened Grids
  import opened Boards

  /** `isEmpty`. */
  predicate IsEmpty(g: Grid, p: Square) {
    At(g, p).None?
  }

  /** `isOwnPiece`. */
  predicate IsOwnPiece(g: Grid, color: PieceColor, p: Square) {
    At(g, p).Some? && At(g, p).value.color == color
  }

  /** `isOpponentPiece`. */
  predicate IsOpponentPiece(g: Grid, color: PieceColor, p: Square) {
    At(g, p).Some? && At(g, p).value.color != color
  }

  /** Every square is exactly one of empty, own, opponent. */
  lemma Occupancy(g: Grid, color: PieceColor, p: Square)
    ensures IsEmpty(g, p) || IsOwnPiece(g, color, p) || IsOpponentPiece(g, color, p)
    ensures !(IsEmpty(g, p) && IsOwnPiece(g, color, p))
    ensures !(IsEmpty(g, p) && IsOpponentPiece(g, color, p))
    ensures !(IsOwnPiece(g, color, p) && IsOpponentPiece(g, color, p))
  {
  }

  function Sign(x: int): (s: int)
    ensures -1 <= s <= 1 && (s == 0 <==> x == 0) && (s > 0 <==> x > 0)
  {
    if x > 0 then 1 else if x < 0 then -1 else 0
  }

  /** One of the eight king-step directions. */
  predicate IsUnitStep(dr: int, dc: int) {
    -1 <= dr <= 1 && -1 <= dc <= 1 && (dr != 0 || dc != 0)
  }

  /** x moved k steps in direction d (d is -1, 0 or 1). */
  function Along(x: int, d: int, k: int): int {
    if d > 0 then x + k else if d < 0 then x - k else x
  }

  /** p moved k steps in direction (dr, dc). */
  function StepPos(p: Position, dr: int, dc: int, k: int): Position {
    Position(Along(p.row, dr, k), Along(p.col, dc, k))
  }

  /** Number of steps between two squares on a line: the larger coordinate distance. */
  function Dist(from: Position, to: Position): nat {
    var dr, dc := Abs(to.row - from.row), Abs(to.col - from.col);
    if dr < dc then dc else dr
  }

  /** `to` lies on the line from `from` in direction (dr, dc), at least one step away. */
  predicate InDirection(from: Position, to: Position, dr: int, dc: int) {
    Sign(to.row - from.row) == dr && Sign(to.col - from.col) == dc && (dr != 0 || dc != 0) &&
    (dr != 0 && dc != 0 ==> Abs(to.row - from.row) == Abs(to.col - from.col))
  }

  /** Same row, same column or same diagonal, and not the same square. */
  predicate OnLine(from: Position, to: Position) {
    InDirection(from, to, Sign(to.row - from.row), Sign(to.col - from.col))
  }

  /** The square k steps from `from` on the way to `to`. */
  function PathSquare(from: Position, to: Position, k: int): Position {
    StepPos(from, Sign(to.row - from.row), Sign(to.col - from.col), k)
  }

  /** Walking from `from` towards `to` one step at a time lands on `to` after Dist steps,
      and every square on the way is on the board. */
  lemma LineSquares(from: Square, to: Square)
    requires OnLine(from, to)
    ensures PathSquare(from, to, Dist(from, to)) == to
    ensures Dist(from, to) >= 1
    ensures forall k | 0 <= k <= Dist(from, to) :: PathSquare(from, to, k).IsValid()
  {
  }

  /** Every square strictly between `from` and `to` on their line is empty. */
  predicate ClearPath(g: Grid, from: Position, to: Position) {
    forall k | 0 < k < Dist(from, to) :: PathSquare(from, to, k).IsValid() && IsEmpty(g, PathSquare(from, to, k))
  }

  /** Bound on the number of steps left before a walk in direction (dr, dc) leaves the board. */
  function Budget(p: Position, dr: int, dc: int): int {
    (if dr > 0 then 6 - p.row else if dr < 0 then p.row + 1 else 0) +
    (if dc > 0 then 6 - p.col else if dc < 0 then p.col + 1 else 0)
  }

  /** The squares a walk starting on p collects: p and onwards while squares are empty,
      the first occupied square if it holds an opponent, nothing past it. */
  function Walk(g: Grid, color: PieceColor, p: Position, dr: int, dc: int): seq<Square>
    requires IsUnitStep(dr, dc)
    decreases Budget(p, dr, dc)
  {
    if !p.IsValid() then []
    else if IsEmpty(g, p) then [p] + Walk(g, color, StepPos(p, dr, dc, 1), dr, dc)
    else if IsOpponentPiece(g, color, p) then [p]
    else []
  }

  /** What `getPositionsInDirection(from, dr, dc)` returns. */
  function Ray(g: Grid, color: PieceColor, from: Square, dr: int, dc: int): seq<Square>
    requires IsUnitStep(dr, dc)
  {
    Walk(g, color, StepPos(from, dr, dc, 1), dr, dc)
  }

  lemma {:induction false} WalkShape(g: Grid, color: PieceColor, p: Position, dr: int, dc: int)
    requires IsUnitStep(dr, dc)
    ensures forall i | 0 <= i < |Walk(g, color, p, dr, dc)| ::
      Walk(g, color, p, dr, dc)[i] == StepPos(p, dr, dc, i) &&
      !IsOwnPiece(g, color, Walk(g, color, p, dr, dc)[i]) &&
      (i < |Walk(g, color, p, dr, dc)| - 1 ==> IsEmpty(g, Walk(g, color, p, dr, dc)[i]))
    decreases Budget(p, dr, dc)
  {
    if p.IsValid() && IsEmpty(g, p) {
      var next := StepPos(p, dr, dc, 1);
      WalkShape(g, color, next, dr, dc);
      var w := Walk(g, color, p, dr, dc);
      forall i | 0 <= i < |w|
        ensures w[i] == StepPos(p, dr, dc, i)
      {
        if i > 0 {
          assert w[i] == Walk(g, color, next, dr, dc)[i - 1];
        }
      }
    }
  }

  /** The n squares p, p + d, ..., p + (n - 1)d are on the board and empty. */
  predicate EmptyRun(g: Grid, p: Position, dr: int, dc: int, n: nat)
    decreases n
  {
    n == 0 || (p.IsValid() && IsEmpty(g, p) && EmptyRun(g, StepPos(p, dr, dc, 1), dr, dc, n - 1))
  }

  lemma {:induction false} EmptyRunAt(g: Grid, p: Position, dr: int, dc: int, n: nat)
    ensures EmptyRun(g, p, dr, dc, n) <==>
      forall j | 0 <= j < n :: StepPos(p, dr, dc, j).IsValid() && IsEmpty(g, StepPos(p, dr, dc, j))
    decreases n
  {
    if n > 0 {
      var next := StepPos(p, dr, dc, 1);
      EmptyRunAt(g, next, dr, dc, n - 1);
      assert StepPos(p, dr, dc, 0) == p;
      forall j | 0 <= j < n - 1
        ensures StepPos(next, dr, dc, j) == StepPos(p, dr, dc, j + 1)
      {
      }
      if forall j | 0 <= j < n :: StepPos(p, dr, dc, j).IsValid() && IsEmpty(g, StepPos(p, dr, dc, j)) {
        forall j | 0 <= j < n - 1
          ensures StepPos(next, dr, dc, j).IsValid() && IsEmpty(g, StepPos(next, dr, dc, j))
        {
          assert StepPos(next, dr, dc, j) == StepPos(p, dr, dc, j + 1);
        }
      }
      if EmptyRun(g, p, dr, dc, n) {
        forall j | 0 <= j < n
          ensures StepPos(p, dr, dc, j).IsValid() && IsEmpty(g, StepPos(p, dr, dc, j))
        {
          if j > 0 {
            assert StepPos(next, dr, dc, j - 1) == StepPos(p, dr, dc, j);
          }
        }
      }
    }
  }

  lemma {:induction false} WalkMembers(g: Grid, color: PieceColor, p: Position, dr: int, dc: int, k: nat)
    requires IsUnitStep(dr, dc)
    ensures var q := StepPos(p, dr, dc, k);
      q in Walk(g, color, p, dr, dc) <==>
        q.IsValid() && !IsOwnPiece(g, color, q) && EmptyRun(g, p, dr, dc, k)
    decreases k
  {
    var q := StepPos(p, dr, dc, k);
    var next := StepPos(p, dr, dc, 1);
    if p.IsValid() && IsEmpty(g, p) {
      WalkShape(g, color, next, dr, dc);
      if k == 0 {
        assert q == p;
      } else {
        WalkMembers(g, color, next, dr, dc, k - 1);
        assert StepPos(next, dr, dc, k - 1) == q;
        assert q != p;
      }
    } else if k > 0 {
      assert q != p;
    } else {
      assert q == p;
    }
  }

  /** `getPositionsInDirection` collects the squares k = 1, 2, ... steps away in order;
      all but the last are empty and none holds an own piece. */
  lemma RayShape(g: Grid, color: PieceColor, from: Square, dr: int, dc: int)
    requires IsUnitStep(dr, dc)
    ensures forall i | 0 <= i < |Ray(g, color, from, dr, dc)| ::
      Ray(g, color, from, dr, dc)[i] == StepPos(from, dr, dc, i + 1) &&
      !IsOwnPiece(g, color, Ray(g, color, from, dr, dc)[i]) &&
      (i < |Ray(g, color, from, dr, dc)| - 1 ==> IsEmpty(g, Ray(g, color, from, dr, dc)[i]))
    ensures forall i | 0 <= i < |Ray(g, color, from, dr, dc)| ::
      InDirection(from, Ray(g, color, from, dr, dc)[i], dr, dc)
  {
    var p := StepPos(from, dr, dc, 1);
    WalkShape(g, color, p, dr, dc);
    var r := Ray(g, color, from, dr, dc);
    forall i | 0 <= i < |r|
      ensures r[i] == StepPos(from, dr, dc, i + 1) && InDirection(from, r[i], dr, dc)
    {
      assert r[i] == StepPos(p, dr, dc, i);
      StepsInDirection(from, dr, dc, i + 1);
    }
  }

  /** k >= 1 steps in a unit direction lead to a square in that direction. */
  lemma StepsInDirection(from: Position, dr: int, dc: int, k: int)
    requires IsUnitStep(dr, dc) && k >= 1
    ensures InDirection(from, StepPos(from, dr, dc, k), dr, dc)
    ensures Dist(from, StepPos(from, dr, dc, k)) == k
  {
  }

  /** A square is on the ray in direction (dr, dc) exactly when it lies in that direction,
      every square before it is empty, and it does not hold an own piece. */
  lemma RayMembers(g: Grid, color: PieceColor, from: Square, dr: int, dc: int, q: Square)
    requires IsUnitStep(dr, dc)
    ensures q in Ray(g, color, from, dr, dc) <==>
      InDirection(from, q, dr, dc) && ClearPath(g, from, q) && !IsOwnPiece(g, color, q)
  {
    RayShape(g, color, from, dr, dc);
    if InDirection(from, q, dr, dc) {
      RayMembersInDirection(g, color, from, dr, dc, q);
    }
  }

  /** The same, for a square lying in the ray's direction: the walk reaches it exactly
      when the squares before it are empty. */
  lemma RayMembersInDirection(g: Grid, color: PieceColor, from: Square, dr: int, dc: int, q: Square)
    requires IsUnitStep(dr, dc) && InDirection(from, q, dr, dc)
    ensures q in Ray(g, color, from, dr, dc) <==> ClearPath(g, from, q) && !IsOwnPiece(g, color, q)
  {
    RayReaches(g, color, from, dr, dc, q);
    ClearPathIsRun(g, from, dr, dc, q);
    RunIsClearPath(g, from, dr, dc, q);
  }

  /** The ray reaches a square in its direction after a run of empty squares. */
  lemma RayReaches(g: Grid, color: PieceColor, from: Square, dr: int, dc: int, q: Square)
    requires IsUnitStep(dr, dc) && InDirection(from, q, dr, dc)
    ensures Dist(from, q) >= 1
    ensures q in Ray(g, color, from, dr, dc) <==>
      !IsOwnPiece(g, color, q) && EmptyRun(g, StepPos(from, dr, dc, 1), dr, dc, Dist(from, q) - 1)
  {
    var p := StepPos(from, dr, dc, 1);
    var k := Dist(from, q);
    LineSquares(from, q);
    assert StepPos(p, dr, dc, k - 1) == q;
    WalkMembers(g, color, p, dr, dc, k - 1);
  }

  /** The squares strictly between `from` and `q` are the first Dist - 1 steps of the walk. */
  lemma StepsArePathSquares(from: Square, dr: int, dc: int, q: Square)
    requires IsUnitStep(dr, dc) && InDirection(from, q, dr, dc)
    ensures Dist(from, q) >= 1
    ensures forall j | 0 <= j < Dist(from, q) - 1 ::
      StepPos(StepPos(from, dr, dc, 1), dr, dc, j) == PathSquare(from, q, j + 1)
  {
    LineSquares(from, q);
  }

  lemma ClearPathIsRun(g: Grid, from: Square, dr: int, dc: int, q: Square)
    requires IsUnitStep(dr, dc) && InDirection(from, q, dr, dc)
    ensures Dist(from, q) >= 1
    ensures ClearPath(g, from, q) ==> EmptyRun(g, StepPos(from, dr, dc, 1), dr, dc, Dist(from, q) - 1)
  {
    var p := StepPos(from, dr, dc, 1);
    var k := Dist(from, q);
    StepsArePathSquares(from, dr, dc, q);
    EmptyRunAt(g, p, dr, dc, k - 1);
    if ClearPath(g, from, q) {
      forall j | 0 <= j < k - 1
        ensures StepPos(p, dr, dc, j).IsValid() && IsEmpty(g, StepPos(p, dr, dc, j))
      {
        assert PathSquare(from, q, j + 1) == StepPos(p, dr, dc, j);
      }
    }
  }

  lemma RunIsClearPath(g: Grid, from: Square, dr: int, dc: int, q: Square)
    requires IsUnitStep(dr, dc) && InDirection(from, q, dr, dc)
    ensures Dist(from, q) >= 1
    ensures EmptyRun(g, StepPos(from, dr, dc, 1), dr, dc, Dist(from, q) - 1) ==> ClearPath(g, from, q)
  {
    var p := StepPos(from, dr, dc, 1);
    var k := Dist(from, q);
    StepsArePathSquares(from, dr, dc, q);
    EmptyRunAt(g, p, dr, dc, k - 1);
    if EmptyRun(g, p, dr, dc, k - 1) {
      forall m | 0 < m < k
        ensures PathSquare(from, q, m).IsValid() && IsEmpty(g, PathSquare(from, q, m))
      {
        assert StepPos(p, dr, dc, m - 1) == PathSquare(from, q, m);
      }
    }
  }

  /** One step of the walk, seen from a prefix `done` already collected. */
  lemma WalkStep(g: Grid, color: PieceColor, done: seq<Square>, p: Position, dr: int, dc: int)
    requires IsUnitStep(dr, dc)
    ensures !p.IsValid() ==> done + Walk(g, color, p, dr, dc) == done
    ensures p.IsValid() && IsEmpty(g, p) ==>
      done + Walk(g, color, p, dr, dc) == (done + [p]) + Walk(g, color, StepPos(p, dr, dc, 1), dr, dc)
    ensures p.IsValid() && IsOpponentPiece(g, color, p) ==> done + Walk(g, color, p, dr, dc) == done + [p]
    ensures p.IsValid() && IsOwnPiece(g, color, p) ==> done + Walk(g, color, p, dr, dc) == done
  {
    if p.IsValid() && IsEmpty(g, p) {
      assert done + ([p] + Walk(g, color, StepPos(p, dr, dc, 1), dr, dc))
        == (done + [p]) + Walk(g, color, StepPos(p, dr, dc, 1), dr, dc);
    } else if !p.IsValid() || IsOwnPiece(g, color, p) {
      assert done + [] == done;
    }
  }

  /** `getPositionsInDirection`: advance from `from` one step at a time while on the board,
      collecting empty squares, stopping after an opponent or before an own piece. */
  method PositionsInDirection(board: Board, color: PieceColor, from: Square, dr: int, dc: int)
    returns (positions: seq<Square>)
    requires board.Valid() && IsUnitStep(dr, dc)
    ensures positions == Ray(board.Cells(), color, from, dr, dc)
  {
    ghost var g := board.Cells();
    ghost var ray := Ray(g, color, from, dr, dc);
    positions := [];
    var currentRow, currentCol := from.row + dr, from.col + dc;
    assert positions + Walk(g, color, Position(currentRow, currentCol), dr, dc) == ray;
    while 0 <= currentRow <= 5 && 0 <= currentCol <= 5
      invariant positions + Walk(g, color, Position(currentRow, currentCol), dr, dc) == ray
      decreases Budget(Position(currentRow, currentCol), dr, dc)
    {
      var position: Square := Position(currentRow, currentCol);
      var piece := board.GetPiece(position);
      WalkStep(g, color, positions, position, dr, dc);
      if piece.None? {
        positions := positions + [position];
      } else if piece.value.color != color {
        positions := positions + [position];
        return;
      } else {
        return;
      }
      currentRow, currentCol := currentRow + dr, currentCol + dc;
      assert StepPos(position, dr, dc, 1) == Position(currentRow, currentCol);
    }
    WalkStep(g, color, positions, Position(currentRow, currentCol), dr, dc);
  }

  // Several rays, and single hops: the shapes of the pieces' `getValidMoves`.

  predicate AllUnitSteps(dirs: seq<(int, int)>) {
    forall i | 0 <= i < |dirs| :: IsUnitStep(dirs[i].0, dirs[i].1)
  }

  /** The rays in the listed directions, one after another, as the `getValidMoves` of the
      sliding pieces append them. */
  function RaysAlong(g: Grid, color: PieceColor, from: Square, dirs: seq<(int, int)>): seq<Square>
    requires AllUnitSteps(dirs)
  {
    if dirs == [] then []
    else
      var d := dirs[|dirs| - 1];
      RaysAlong(g, color, from, dirs[..|dirs| - 1]) + Ray(g, color, from, d.0, d.1)
  }

  /** A square is collected exactly when it lies on a line from `from` whose direction is
      listed, the path to it is clear, and it does not hold an own piece. */
  lemma {:induction false} RaysAlongMembers(g: Grid, color: PieceColor, from: Square, dirs: seq<(int, int)>, q: Square)
    requires AllUnitSteps(dirs)
    ensures q in RaysAlong(g, color, from, dirs) <==>
      OnLine(from, q) && (Sign(q.row - from.row), Sign(q.col - from.col)) in dirs &&
      ClearPath(g, from, q) && !IsOwnPiece(g, color, q)
  {
    if dirs != [] {
      var d := dirs[|dirs| - 1];
      var rest := dirs[..|dirs| - 1];
      RaysAlongMembers(g, color, from, rest, q);
      RayMembers(g, color, from, d.0, d.1, q);
      assert dirs == rest + [d];
    }
  }

  /** Along a line, the k-th path square is `to` exactly when k is the distance, and
      each path square is one step from the previous one. */
  lemma PathSteps(from: Square, to: Square, k: int)
    requires OnLine(from, to) && 0 <= k <= Dist(from, to)
    ensures PathSquare(from, to, k) == to <==> k == Dist(from, to)
    ensures PathSquare(from, to, k).IsValid()
    ensures PathSquare(from, to, k + 1) ==
      Position(PathSquare(from, to, k).row + Sign(to.row - from.row), PathSquare(from, to, k).col + Sign(to.col - from.col))
  {
  }

  /** The first k - 1 squares after `from` on the way to `to` are empty. */
  predicate ClearUpTo(g: Grid, from: Position, to: Position, k: int) {
    forall j | 0 < j < k :: PathSquare(from, to, j).IsValid() && IsEmpty(g, PathSquare(from, to, j))
  }

  lemma ClearUpToNext(g: Grid, from: Position, to: Position, k: int)
    requires ClearUpTo(g, from, to, k)
    requires PathSquare(from, to, k).IsValid() && IsEmpty(g, PathSquare(from, to, k))
    ensures ClearUpTo(g, from, to, k + 1)
  {
  }

  /** How many squares from p onwards, p included, lie on the board in direction (dr, dc). */
  function Ahead(p: Position, dr: int, dc: int): nat
    requires IsUnitStep(dr, dc)
    decreases Budget(p, dr, dc)
  {
    if !p.IsValid() then 0 else 1 + Ahead(StepPos(p, dr, dc, 1), dr, dc)
  }

  /** On a board where nothing but `from` is occupied, a ray runs to the edge. */
  lemma {:induction false} RayOnOpenBoard(g: Grid, color: PieceColor, from: Square, dr: int, dc: int, m: nat)
    requires IsUnitStep(dr, dc) && m >= 1
    requires forall q: Square | q != from :: IsEmpty(g, q)
    ensures |Walk(g, color, StepPos(from, dr, dc, m), dr, dc)| == Ahead(StepPos(from, dr, dc, m), dr, dc)
    decreases Budget(StepPos(from, dr, dc, m), dr, dc)
  {
    var p := StepPos(from, dr, dc, m);
    if p.IsValid() {
      assert StepPos(p, dr, dc, 1) == StepPos(from, dr, dc, m + 1);
      RayOnOpenBoard(g, color, from, dr, dc, m + 1);
    }
  }

  /** The total room in front of `from` over the listed directions. */
  function RoomAlong(from: Square, dirs: seq<(int, int)>): nat
    requires AllUnitSteps(dirs)
  {
    if dirs == [] then 0
    else
      var d := dirs[|dirs| - 1];
      RoomAlong(from, dirs[..|dirs| - 1]) + Ahead(StepPos(from, d.0, d.1, 1), d.0, d.1)
  }

  /** On a board where nothing but `from` is occupied, the rays fill all the room there is. */
  lemma {:induction false} RaysAlongOpenBoard(g: Grid, color: PieceColor, from: Square, dirs: seq<(int, int)>)
    requires AllUnitSteps(dirs)
    requires forall q: Square | q != from :: IsEmpty(g, q)
    ensures |RaysAlong(g, color, from, dirs)| == RoomAlong(from, dirs)
  {
    if dirs != [] {
      var d := dirs[|dirs| - 1];
      RaysAlongOpenBoard(g, color, from, dirs[..|dirs| - 1]);
      RayOnOpenBoard(g, color, from, d.0, d.1, 1);
    }
  }

  /** The path walk of the sliding pieces' `canMove`: step from `from` towards `to` and
      report whether every square strictly between them is empty. */
  method PathIsClear(board: Board, from: Square, to: Square, rowStep: int, colStep: int) returns (clear: bool)
    requires board.Valid() && (OnLine(from, to) || from == to)
    requires rowStep == Sign(to.row - from.row) && colStep == Sign(to.col - from.col)
    ensures clear == ClearPath(board.Cells(), from, to)
  {
    ghost var g := board.Cells();
    var currentRow, currentCol := from.row + rowStep, from.col + colStep;
    if from == to {
      assert currentRow == to.row && currentCol == to.col;
    } else {
      PathSteps(from, to, 0);
    }
    ghost var k := 1;
    while currentRow != to.row || currentCol != to.col
      invariant from != to ==> 1 <= k <= Dist(from, to)
      invariant from != to ==> Position(currentRow, currentCol) == PathSquare(from, to, k)
      invariant from == to ==> currentRow == to.row && currentCol == to.col
      invariant ClearUpTo(g, from, to, k)
      decreases Dist(from, to) - k
    {
      PathSteps(from, to, k);
      var position: Square := Position(currentRow, currentCol);
      if board.GetPiece(position).Some? {
        return false;
      }
      ClearUpToNext(g, from, to, k);
      currentRow, currentCol := currentRow + rowStep, currentCol + colStep;
      k := k + 1;
    }
    if from != to {
      PathSteps(from, to, k);
    }
    return true;
  }

  /** The squares reached by the listed single offsets that are on the board and hold no
      own piece, in list order: the `getValidMoves` of the king and the knight. */
  function Hops(g: Grid, color: PieceColor, from: Square, offsets: seq<(int, int)>): seq<Square> {
    if offsets == [] then []
    else
      var o := offsets[|offsets| - 1];
      var t := Position(from.row + o.0, from.col + o.1);
      Hops(g, color, from, offsets[..|offsets| - 1]) +
        (if t.IsValid() && !IsOwnPiece(g, color, t) then [t] else [])
  }

  lemma {:induction false} HopsMembers(g: Grid, color: PieceColor, from: Square, offsets: seq<(int, int)>, q: Square)
    ensures q in Hops(g, color, from, offsets) <==>
      (q.row - from.row, q.col - from.col) in offsets && !IsOwnPiece(g, color, q)
  {
    if offsets != [] {
      var rest := offsets[..|offsets| - 1];
      HopsMembers(g, color, from, rest, q);
      assert offsets == rest + [offsets[|offsets| - 1]];
    }
  }

  /** When every offset lands on the board on a square without an own piece, each offset
      contributes its square. */
  lemma {:induction false} HopsKeepsAll(g: Grid, color: PieceColor, from: Square, offsets: seq<(int, int)>)
    requires forall i | 0 <= i < |offsets| ::
      var t := Position(from.row + offsets[i].0, from.col + offsets[i].1);
      t.IsValid() && !IsOwnPiece(g, color, t)
    ensures |Hops(g, color, from, offsets)| == |offsets|
  {
    if offsets != [] {
      HopsKeepsAll(g, color, from, offsets[..|offsets| - 1]);
    }
  }

  /** At most one square per offset, and distinct offsets give distinct squares. */
  lemma {:induction false} HopsDistinct(g: Grid, color: PieceColor, from: Square, offsets: seq<(int, int)>)
    requires forall i, j | 0 <= i < j < |offsets| :: offsets[i] != offsets[j]
    ensures |Hops(g, color, from, offsets)| <= |offsets|
    ensures forall i, j | 0 <= i < j < |Hops(g, color, from, offsets)| ::
      Hops(g, color, from, offsets)[i] != Hops(g, color, from, offsets)[j]
  {
    if offsets != [] {
      var rest := offsets[..|offsets| - 1];
      var o := offsets[|offsets| - 1];
      HopsDistinct(g, color, from, rest);
      var t := Position(from.row + o.0, from.col + o.1);
      if t.IsValid() && !IsOwnPiece(g, color, t) {
        HopsMembers(g, color, from, rest, t);
      }
    }
  }

  /** The offset loop of the king's and the knight's `getValidMoves`: for each offset in
      turn, keep the target if it is on the board and holds no own piece. */
  method CollectHops(board: Board, color: PieceColor, from: Square, offsets: seq<(int, int)>)
    returns (moves: seq<Square>)
    requires board.Valid()
    ensures moves == Hops(board.Cells(), color, from, offsets)
  {
    ghost var g := board.Cells();
    moves := [];
    for i := 0 to |offsets|
      invariant moves == Hops(g, color, from, offsets[..i])
    {
      var (rowDelta, colDelta) := offsets[i];
      var newRow, newCol := from.row + rowDelta, from.col + colDelta;
      if 0 <= newRow <= 5 && 0 <= newCol <= 5 {
        var position: Square := Position(newRow, newCol);
        var x := board.GetPiece(position);
        if !(x.Some? && x.value.color == color) {
          moves := moves + [position];
        }
      }
      assert offsets[..i + 1][..i] == offsets[..i];
    }
    assert offsets[..|offsets|] == offsets;
  }

  /** The direction loop of the sliding pieces' `getValidMoves`: append the ray in each
      listed direction. */
  method CollectRays(board: Board, color: PieceColor, from: Square, dirs: seq<(int, int)>)
    returns (moves: seq<Square>)
    requires board.Valid() && AllUnitSteps(dirs)
    ensures moves == RaysAlong(board.Cells(), color, from, dirs)
  {
    ghost var g := board.Cells();
    moves := [];
    for i := 0 to |dirs|
      invariant moves == RaysAlong(g, color, from, dirs[..i])
    {
      var (rowDelta, colDelta) := dirs[i];
      var ray := PositionsInDirection(board, color, from, rowDelta, colDelta);
      moves := moves + ray;
      assert dirs[..i + 1][..i] == dirs[..i];
    }
    assert dirs[..|dirs|] == dirs;
  }
}
