# 6x6 chess: move legality and game state

This project models the rules engine of a two-player chess variant on a 6x6 board:

- **The back end** (Kotlin) has:
  - positions and their algebraic names (`a1`…`f6`);
  - the mutable `Board`, with its 6x6 grid, initial setup, moves, copies and piece and king searches;
  - the six piece kinds and their move generators (`getValidMoves`) and move tests (`canMove`);
  - the `Move` record and its notation;
  - the immutable `Game` and its successor under `afterMove`;
  - `CheckDetector`, which covers check, attackers, legal-move search, checkmate, stalemate and status;
  - `MoveValidator`, which covers move validation, legal-move lists, castling, en passant and promotion;
  - the in-memory `GameService` registry with `makeMove`.
- **The browser client's mirror** of the move rules (`validation.ts`) decides which squares the UI offers.

The model is written in Dafny 4.11:

- Board contents are the value `Grids.Grid`, a 6x6 sequence of optional pieces.
- The source's `Board` is the class `Boards.Board`, over an `array2`. Its `Cells()` is the grid it holds.
- Every `getValidMoves`, `canMove` loop, board scan and search loop is a method with loop invariants. Each is proved equal to a specification function on the grid.
- The properties the source promises are lemmas about those functions. Examples:
  - a piece's generated moves are exactly the squares its `canMove` accepts;
  - `getLegalMoves` agrees with `isValidMove`;
  - status, checkmate and stalemate mean what their names say;
  - when the last move was not a two-row move, the client offers exactly the moves the server accepts.
- `Game` is a datatype. `afterMove` copies the board and returns a new game, so the game is a value, and `Game.board` is the `Grid` value.
- Where the source calls `Board` methods on a game's board, the model loads the grid into a fresh `Boards.Board`.
- `GameService` is a class whose `games` map the methods reassign.
- Exceptions thrown by the source are `Result.Failure` values, and one that escapes `makeMove` is the outcome `Service.MoveResult.Threw`:
  - an off-board `Position`;
  - an invalid promotion piece in `afterMove`.
- The one exception the source can never reach from a stored game becomes a precondition, backed by a registry invariant. That is `Pawn.getValidMoves` on a pawn's far rank.

Modules, one per source file:

- `Positions`, `Colors`, `Pieces`, `Grids`, `Boards`, `Rays`, `MoveRecords`;
- `Kings`, `Queens`, `Rooks`, `Bishops`, `Knights`, `Pawns`;
- `Movement`, the dispatch that `Piece` performs by subclass;
- `Games`, `CheckDetection`, `MoveValidation`, `Service`, `ClientValidation`;
- `Outcomes` (Option and Result) and `Collections` (`Any`, `Filter`).

Unit: each row is one member. The source paths are relative to the repository root.

## Model

| member | source | states |
|---|---|---|
| Positions.NewPosition | backend/src/main/kotlin/com/chess/domain/Position.kt:7-14 | construction succeeds exactly for rows and columns 0..5 and keeps them; otherwise it fails with the row error first, then the column error |
| Positions.ConstructedIsValid | backend/src/test/kotlin/com/chess/domain/PositionTest.kt:10-43 | every position the constructor accepts satisfies `isValid` |
| Positions.ToAlgebraic | backend/src/main/kotlin/com/chess/domain/Position.kt:24-28 | the name is two characters, a file `a`..`f` for the column and a rank `1`..`6` for the row |
| Positions.DigitToInt | backend/src/main/kotlin/com/chess/domain/Position.kt:34-39 | `digitToInt` on ASCII text: succeeds exactly on `0`..`9` and gives the digit's value |
| Positions.FromAlgebraic | backend/src/main/kotlin/com/chess/domain/Position.kt:34-39 | parsing fails on any length other than 2, and succeeds exactly on a file `a`..`f` followed by an ASCII rank `1`..`6` |
| Positions.FromToAlgebraic | backend/src/test/kotlin/com/chess/domain/PositionTest.kt:62-75 | parsing the name of any square gives back that square |
| Positions.ToFromAlgebraic | backend/src/main/kotlin/com/chess/domain/Position.kt:24-39 | naming a parsed square gives back the text that was parsed |
| Positions.FromAlgebraicFailures | backend/src/main/kotlin/com/chess/domain/Position.kt:34-39 | for two-character text: a rank that is not an ASCII digit fails in `digitToInt`, a rank outside 1..6 fails on the row, and then a file outside a..f fails on the column |
| Colors.PieceColor.Opposite | backend/src/main/kotlin/com/chess/domain/PieceColor.kt:7 | the opposite colour is never the colour itself |
| Colors.OppositeIsInvolution | backend/src/main/kotlin/com/chess/domain/PieceColor.kt:7 | white and black swap, and taking the opposite twice gives the colour back |
| Pieces.Name | frontend/src/types/Piece.ts:3 | a kind's name is at least four upper-case letters, as in `KING`..`PAWN` |
| Pieces.PieceEquality | backend/src/main/kotlin/com/chess/domain/Piece.kt:82-92 | two pieces are equal exactly when colour and kind are equal |
| Grids.GridsEqual | backend/src/main/kotlin/com/chess/domain/Board.kt:10-11 | two grids that agree on every square are the same grid |
| Grids.With | backend/src/main/kotlin/com/chess/domain/Board.kt:58-60 | setting a square changes that square to the given content and no other square |
| Grids.Relocate | backend/src/main/kotlin/com/chess/domain/Board.kt:65-69 | a move leaves `from` empty, puts the moved piece on `to` (unless from = to), and changes nothing else |
| Grids.Lone | backend/src/test/kotlin/com/chess/domain/pieces/PieceMovementTest.kt:10-27 | a board holding one piece on one square and nothing elsewhere |
| Grids.InitialSetup | backend/src/test/kotlin/com/chess/domain/BoardTest.kt:10-43 | the opening position has pawns on rows 1 and 4, the white king on e1 and the white rooks on a1 and f1 |
| Grids.ScanRowMembers | backend/src/main/kotlin/com/chess/domain/Board.kt:74-86 | the scan of one row lists exactly the pieces of the colour in the scanned columns |
| Grids.ScanRowsSpec | backend/src/main/kotlin/com/chess/domain/Board.kt:74-86 | the scan of the first rows lists exactly the pieces of the colour in them, in row-major order |
| Grids.PiecesOfExactly | backend/src/main/kotlin/com/chess/domain/Board.kt:74-86 | `getPieces` lists each square that holds a piece of the colour, with that piece, in row-major order, each square once |
| Grids.KingFoundAt | backend/src/main/kotlin/com/chess/domain/Board.kt:91-102 | the first king met in row-major order is the one reported |
| Grids.KingInRowSpec | backend/src/main/kotlin/com/chess/domain/Board.kt:91-102 | the search of one row finds no king exactly when there is none in the searched columns, and otherwise finds the first |
| Grids.KingInRowsSpec | backend/src/main/kotlin/com/chess/domain/Board.kt:91-102 | the search of the first rows finds no king exactly when there is none in them, and otherwise finds the first |
| Grids.KingSquareSpec | backend/src/main/kotlin/com/chess/domain/Board.kt:91-102 | `findKing` answers null exactly when no king of the colour is on the board, and otherwise gives the first king's square in row-major order |
| Boards.Board.Cells | backend/src/main/kotlin/com/chess/domain/Board.kt:10-11 | the grid value holds on every square what the array holds |
| Boards.Board.constructor | backend/src/main/kotlin/com/chess/domain/Board.kt:10-15 | a new board is a fresh array holding the opening position |
| Boards.Board.SetupInitialPosition | backend/src/main/kotlin/com/chess/domain/Board.kt:20-46 | the empty board becomes exactly the opening position |
| Boards.Board.PlaceBackRank | backend/src/main/kotlin/com/chess/domain/Board.kt:22-27 | the row gets rook, knight, bishop, queen, king and rook of the colour, and every other row is unchanged |
| Boards.Board.PlacePawns | backend/src/main/kotlin/com/chess/domain/Board.kt:29-32 | the row gets six pawns of the colour, and every other row is unchanged |
| Boards.Board.Load | backend/src/main/kotlin/com/chess/domain/Board.kt:107-132 | a fresh board holding the given grid |
| Boards.Board.GetPiece | backend/src/main/kotlin/com/chess/domain/Board.kt:51-53 | the content of the square |
| Boards.Board.SetPiece | backend/src/main/kotlin/com/chess/domain/Board.kt:58-60 | the new grid is the old one with that one square set |
| Boards.Board.MovePiece | backend/src/main/kotlin/com/chess/domain/Board.kt:65-69 | the new grid is the old one with the piece relocated from `from` to `to` |
| Boards.Board.GetPieces | backend/src/main/kotlin/com/chess/domain/Board.kt:74-86 | the list is the row-major scan of the colour's pieces |
| Boards.Board.FindKing | backend/src/main/kotlin/com/chess/domain/Board.kt:91-102 | the answer is the first king of the colour in row-major order, or none |
| Boards.Board.Copy | backend/src/main/kotlin/com/chess/domain/Board.kt:107-132 | a fresh board, not sharing the array, with the same contents |
| Rays.Occupancy | backend/src/main/kotlin/com/chess/domain/Piece.kt:26-44 | each square is exactly one of empty, own piece or opponent piece |
| Rays.Sign | backend/src/main/kotlin/com/chess/domain/pieces/Queen.kt:41-50 | the step is -1, 0 or 1, with the sign of the difference |
| Rays.LineSquares | backend/src/main/kotlin/com/chess/domain/pieces/Queen.kt:27-65 | on a line through `from`, the squares walked from `from` to `to` are all on the board, and the walk ends on `to` |
| Rays.WalkShape | backend/src/main/kotlin/com/chess/domain/Piece.kt:49-80 | the i-th square collected is i steps from the start, in the direction |
| Rays.RayShape | backend/src/main/kotlin/com/chess/domain/Piece.kt:49-80 | the i-th square of a ray is i+1 steps from `from`; every square before the last is empty, and none holds an own piece |
| Rays.RayMembers | backend/src/main/kotlin/com/chess/domain/Piece.kt:49-80 | a square is on the ray exactly when it lies in that direction, the squares between are empty, and it holds no own piece |
| Rays.RayMembersInDirection | backend/src/main/kotlin/com/chess/domain/Piece.kt:49-80 | for a square in the direction: it is on the ray exactly when the path to it is clear and it holds no own piece |
| Rays.RayReaches | backend/src/main/kotlin/com/chess/domain/Piece.kt:49-80 | for a square in the direction: it is on the ray exactly when the squares before it are empty and it holds no own piece |
| Rays.ClearPathIsRun | backend/src/main/kotlin/com/chess/domain/pieces/Queen.kt:52-61 | a clear path in `canMove`'s sense is an empty run of the walk |
| Rays.RunIsClearPath | backend/src/main/kotlin/com/chess/domain/pieces/Queen.kt:52-61 | an empty run of the walk is a clear path in `canMove`'s sense |
| Rays.PositionsInDirection | backend/src/main/kotlin/com/chess/domain/Piece.kt:49-80 | the loop collects exactly the ray: empty squares up to and including the first opponent, stopping before an own piece or the edge |
| Rays.RaysAlongMembers | backend/src/main/kotlin/com/chess/domain/pieces/Queen.kt:10-25 | a square is in the concatenated rays exactly when it is on the ray of one of the directions |
| Rays.RayOnOpenBoard | backend/src/test/kotlin/com/chess/domain/pieces/PieceMovementTest.kt:30-48 | on an otherwise empty board, a ray runs to the edge |
| Rays.RaysAlongOpenBoard | backend/src/test/kotlin/com/chess/domain/pieces/PieceMovementTest.kt:30-109 | on an otherwise empty board, the move count is the room to the edge, summed over the directions |
| Rays.PathIsClear | backend/src/main/kotlin/com/chess/domain/pieces/Queen.kt:41-61 | the stepping loop answers true exactly when every square strictly between `from` and `to` is empty |
| Rays.HopsMembers | backend/src/main/kotlin/com/chess/domain/pieces/Knight.kt:10-34 | a square is a hop target exactly when it is the start plus one of the offsets, on the board, and holds no own piece |
| Rays.HopsKeepsAll | backend/src/main/kotlin/com/chess/domain/pieces/King.kt:10-33 | when every offset lands on a free square, none is dropped |
| Rays.HopsDistinct | backend/src/main/kotlin/com/chess/domain/pieces/King.kt:10-33 | distinct offsets give distinct targets, at most one per offset |
| Rays.CollectHops | backend/src/main/kotlin/com/chess/domain/pieces/King.kt:10-33 | the offset loop collects exactly the hop targets, in offset order |
| Rays.CollectRays | backend/src/main/kotlin/com/chess/domain/pieces/Queen.kt:10-25 | the direction loop collects exactly the rays, in direction order |
| MoveRecords.Move.ToAlgebraic | backend/src/main/kotlin/com/chess/domain/Move.kt:33-64 | castling gives `O-O` or `O-O-O`; a pawn gives the square, or the file, `x` and the square; any other piece gives a letter, an `x` on capture, and the square |
| MoveRecords.Move.ToString | backend/src/main/kotlin/com/chess/domain/Move.kt:66 | five characters with `-` in the middle |
| MoveRecords.ToStringParses | backend/src/main/kotlin/com/chess/domain/Move.kt:66 | the two halves of `toString` parse back to `from` and `to` |
| MoveRecords.NotationNamesDestination | backend/src/main/kotlin/com/chess/domain/Move.kt:33-64 | the notation of a non-castling move ends with the name of `to` |
| MoveRecords.NotationMarks | backend/src/main/kotlin/com/chess/domain/Move.kt:37-60 | outside castling, the second character is `x` exactly on a capture; a piece other than a pawn starts with the first letter of its kind's name; a pawn promotion ends with `=` and the first letter of the promotion piece's name |
| MoveRecords.NotationPrefixes | backend/src/main/kotlin/com/chess/domain/Move.kt:37-47 | a pawn capture starts with the file of `from` and `x`; castling is `O-O` kingside and `O-O-O` queenside |
| MoveRecords.KingAndKnightLookAlike | backend/src/main/kotlin/com/chess/domain/Move.kt:53-55 | the piece letter is the first letter of the kind's name, so king and knight moves are written alike, both with `K` |
| Kings.GetValidMoves | backend/src/main/kotlin/com/chess/domain/pieces/King.kt:10-33 | the moves are exactly the eight neighbouring squares, on the board and without an own piece, in the source's order |
| Kings.OffsetsAreKingSteps | backend/src/main/kotlin/com/chess/domain/pieces/King.kt:13-18 | the offsets are exactly the non-zero steps of at most one row and one column |
| Kings.MovesShape | backend/src/test/kotlin/com/chess/domain/pieces/PieceMovementTest.kt:10-27 | each move is one step away and holds no own piece; there are at most 8, all distinct |
| Kings.Agreement | backend/src/main/kotlin/com/chess/domain/pieces/King.kt:35-46 | a square is generated exactly when `canMove` accepts it |
| Kings.NoTwoFileHop | backend/src/main/kotlin/com/chess/domain/pieces/King.kt:35-46 | a king never moves two files or two rows, so the castling hop is never accepted |
| Kings.CentreKingHasEight | backend/src/test/kotlin/com/chess/domain/pieces/PieceMovementTest.kt:10-27 | a lone king on d4 has 8 moves |
| Queens.GetValidMoves | backend/src/main/kotlin/com/chess/domain/pieces/Queen.kt:10-25 | the moves are exactly the rays in the eight directions, in order |
| Queens.CanMoveOn | backend/src/main/kotlin/com/chess/domain/pieces/Queen.kt:27-65 | accepted exactly for a target on a line with `from`, with an empty path and no own piece on it |
| Queens.Agreement | backend/src/main/kotlin/com/chess/domain/pieces/Queen.kt:10-65 | a square is generated exactly when `canMove` accepts it |
| Queens.CentreRoom | backend/src/test/kotlin/com/chess/domain/pieces/PieceMovementTest.kt:92-109 | from d4 there are 19 squares to the edges in the eight directions |
| Queens.CentreQueenHasNineteen | backend/src/test/kotlin/com/chess/domain/pieces/PieceMovementTest.kt:92-109 | a lone queen on d4 has 19 moves, more than the 10 the test asks for |
| Rooks.GetValidMoves | backend/src/main/kotlin/com/chess/domain/pieces/Rook.kt:10-26 | the moves are exactly the rays in the four orthogonal directions, in order |
| Rooks.CanMoveOn | backend/src/main/kotlin/com/chess/domain/pieces/Rook.kt:28-59 | accepted exactly for a target on the same row or column, with an empty path and no own piece on it |
| Rooks.Agreement | backend/src/main/kotlin/com/chess/domain/pieces/Rook.kt:10-59 | a square is generated exactly when `canMove` accepts it |
| Rooks.CentreRoom | backend/src/test/kotlin/com/chess/domain/pieces/PieceMovementTest.kt:30-48 | from d4 there are 10 squares to the edges orthogonally |
| Rooks.CentreRookHasTen | backend/src/test/kotlin/com/chess/domain/pieces/PieceMovementTest.kt:30-48 | a lone rook on d4 has 10 moves |
| Bishops.GetValidMoves | backend/src/main/kotlin/com/chess/domain/pieces/Bishop.kt:10-26 | the moves are exactly the rays in the four diagonal directions, in order |
| Bishops.CanMoveOn | backend/src/main/kotlin/com/chess/domain/pieces/Bishop.kt:28-54 | accepted exactly for a target on a diagonal, with an empty path and no own piece on it |
| Bishops.Agreement | backend/src/main/kotlin/com/chess/domain/pieces/Bishop.kt:10-54 | a square is generated exactly when `canMove` accepts it |
| Bishops.KeepsSquareColour | backend/src/test/kotlin/com/chess/domain/pieces/PieceMovementTest.kt:51-68 | every bishop move keeps the square's colour (parity of row + column) |
| Bishops.CentreRoom | backend/src/test/kotlin/com/chess/domain/pieces/PieceMovementTest.kt:51-68 | from d4 there are 9 squares to the edges diagonally |
| Bishops.CentreBishopHasNine | backend/src/test/kotlin/com/chess/domain/pieces/PieceMovementTest.kt:51-68 | a lone bishop on d4 has 9 moves |
| Knights.GetValidMoves | backend/src/main/kotlin/com/chess/domain/pieces/Knight.kt:10-34 | the moves are exactly the eight L-jumps on the board without an own piece, in the source's order |
| Knights.OffsetsAreJumps | backend/src/main/kotlin/com/chess/domain/pieces/Knight.kt:13-19 | the offsets are exactly the (2,1) and (1,2) jumps in every sign |
| Knights.MovesShape | backend/src/test/kotlin/com/chess/domain/pieces/PieceMovementTest.kt:71-89 | at most 8 moves, all distinct, none onto an own piece |
| Knights.Agreement | backend/src/main/kotlin/com/chess/domain/pieces/Knight.kt:10-49 | a square is generated exactly when `canMove` accepts it |
| Knights.CentreKnightHasEight | backend/src/test/kotlin/com/chess/domain/pieces/PieceMovementTest.kt:71-89 | a lone knight on d4 has 8 moves |
| Pawns.GetValidMoves | backend/src/main/kotlin/com/chess/domain/pieces/Pawn.kt:10-41 | the moves are the forward pushes followed by the diagonal captures |
| Pawns.ForwardMoves | backend/src/main/kotlin/com/chess/domain/pieces/Pawn.kt:15-27 | one empty square forward, then a second one from the start row when that one is also empty |
| Pawns.CaptureMoves | backend/src/main/kotlin/com/chess/domain/pieces/Pawn.kt:29-38 | the two forward diagonals that hold an opponent piece, left before right |
| Pawns.CapturesMembers | backend/src/main/kotlin/com/chess/domain/pieces/Pawn.kt:29-38 | a square is a capture exactly when it is one row forward and one column aside, and holds an opponent piece |
| Pawns.Agreement | backend/src/main/kotlin/com/chess/domain/pieces/Pawn.kt:10-67 | off the far rank, a square is generated exactly when `canMove` accepts it |
| Pawns.FarRankHasNoMoves | backend/src/main/kotlin/com/chess/domain/pieces/Pawn.kt:43-67 | `canMove` accepts nothing for a pawn on its far rank |
| Pawns.MoveRules | backend/src/main/kotlin/com/chess/domain/pieces/Pawn.kt:43-67 | an accepted pawn move goes forward and at most two rows; straight onto an empty square, diagonally only onto an opponent piece; two rows only from the start row over an empty square |
| Pawns.OpeningAdvance | backend/src/test/kotlin/com/chess/domain/pieces/PieceMovementTest.kt:112-124 | from the opening position, the white pawn on e2 may go to e3 and e4 |
| Pawns.PromotionRowIsFarRank | backend/src/main/kotlin/com/chess/domain/pieces/Pawn.kt:99-102 | `shouldPromote` holds exactly on the rank where no further push exists |
| Pawns.DoubleStepsStartOnStartRow | backend/src/main/kotlin/com/chess/domain/pieces/Pawn.kt:55-59 | a two-row pawn move starts on the start row and stays in its file |
| Pawns.EnPassantAsWrittenNeverFires | backend/src/main/kotlin/com/chess/domain/pieces/Pawn.kt:72-94 | with the rows as written, no opponent's two-row pawn move ever enables en passant |
| Pawns.EnPassantCounterexample | backend/src/main/kotlin/com/chess/domain/pieces/Pawn.kt:72-94 | a white pawn on d3 beside a black pawn just moved e5 to e3: the code as written says no, the corrected rule says e4 |
| Pawns.EnPassantTakesPassedSquare | backend/src/main/kotlin/com/chess/domain/pieces/Pawn.kt:72-94 | beside an opponent that just moved two rows, the corrected rule allows exactly the square it passed over |
| Pawns.EnPassantNeedsDoubleStep | backend/src/main/kotlin/com/chess/domain/pieces/Pawn.kt:72-94 | en passant needs a previous pawn move of two rows, and goes one row forward and one column aside |
| Movement.CanMoveOn | backend/src/main/kotlin/com/chess/domain/Piece.kt:21 | each kind's `canMove`, chosen by the piece's kind |
| Movement.GetValidMoves | backend/src/main/kotlin/com/chess/domain/Piece.kt:15 | each kind's `getValidMoves`, chosen by the piece's kind |
| Movement.Agreement | backend/src/main/kotlin/com/chess/domain/Piece.kt:15-21 | for every kind, a square is generated exactly when `canMove` accepts it |
| Movement.NeverOntoOwnPiece | backend/src/main/kotlin/com/chess/domain/Piece.kt:34-37 | no piece may move onto a piece of its own colour |
| Games.Game.MoveCount | backend/src/main/kotlin/com/chess/domain/Game.kt:147 | the full-move count is half the history, rounded up |
| Games.NewGameFacts | backend/src/main/kotlin/com/chess/domain/Game.kt:20-34 | a new game: the opening position, white to move, not over, no last move, no moves counted, no king or rook moved |
| Games.UpdatedFlags | backend/src/main/kotlin/com/chess/domain/Game.kt:69-97 | sets the mover's king flag for a king move, and the flag of the corner a rook leaves |
| Games.Promote | backend/src/main/kotlin/com/chess/domain/Game.kt:103-113 | queen, rook, bishop or knight replace the piece on `to` in the mover's colour; any other kind is an error |
| Games.RemovePassedPawn | backend/src/main/kotlin/com/chess/domain/Game.kt:115-119 | for en passant, empties the square one row behind `to`; fails when that square is off the board |
| Games.ShiftRook | backend/src/main/kotlin/com/chess/domain/Game.kt:121-127 | for castling, moves the corner rook beside the king's destination; fails when that square is off the board |
| Games.PlayOnBoard | backend/src/main/kotlin/com/chess/domain/Game.kt:99-127 | the copied board after the move, the promotion, the en passant capture and the rook shift, in that order |
| Games.AfterMove | backend/src/main/kotlin/com/chess/domain/Game.kt:65-142 | the successor game, or the error its board steps raise |
| Games.Bookkeeping | backend/src/main/kotlin/com/chess/domain/Game.kt:129-141 | the side to move flips; the move is appended and becomes the last move; the status is the given one; id and creation time are kept; the move count grows by at most one |
| Games.FlagsMonotone | backend/src/main/kotlin/com/chess/domain/Game.kt:69-97 | a flag becomes set exactly when it was set already or this move is the king, or the rook from that corner; flags never clear |
| Games.PromotionPieces | backend/src/main/kotlin/com/chess/domain/Game.kt:103-113 | `afterMove` throws exactly when the promotion piece is a king or a pawn |
| Games.PlainMoveBoard | backend/src/main/kotlin/com/chess/domain/Game.kt:99-113 | an ordinary move succeeds; `to` holds the mover, or the promoted piece in the mover's colour; `from` is empty; nothing else changes |
| Games.EnPassantBoard | backend/src/main/kotlin/com/chess/domain/Game.kt:115-119 | after en passant, the square behind `to` is empty |
| Games.CastlingBoard | backend/src/main/kotlin/com/chess/domain/Game.kt:121-127 | castling succeeds exactly when the rook's destination is on the board; that square then holds what stood in the corner |
| CheckDetection.AnyReaches | backend/src/main/kotlin/com/chess/service/CheckDetector.kt:29-34 | some listed piece can move onto the target |
| CheckDetection.UnderAttackSpec | backend/src/main/kotlin/com/chess/service/CheckDetector.kt:29-34 | a square is under attack exactly when some piece of the attacking colour may move onto it |
| CheckDetection.KingInCheckSpec | backend/src/main/kotlin/com/chess/service/CheckDetector.kt:15-24 | without a king there is no check; otherwise check means some opposing piece may move onto the king's square |
| CheckDetection.Reaching | backend/src/main/kotlin/com/chess/service/CheckDetector.kt:84-91 | the squares of the listed pieces that can move onto the target, non-empty exactly when any can |
| CheckDetection.AttackersSpec | backend/src/main/kotlin/com/chess/service/CheckDetector.kt:84-91 | the attackers are exactly the opposing pieces that reach the king, and there are some exactly when the king is in check |
| CheckDetection.AnySafe | backend/src/main/kotlin/com/chess/service/CheckDetector.kt:67-75 | some target leaves the mover's king out of check |
| CheckDetection.LegalMoveFromAny | backend/src/main/kotlin/com/chess/service/CheckDetector.kt:61-79 | when the search says yes, a legal move exists |
| CheckDetection.AnyFromLegalMove | backend/src/main/kotlin/com/chess/service/CheckDetector.kt:61-79 | when a legal move exists, the search says yes |
| CheckDetection.HasAnyLegalSpec | backend/src/main/kotlin/com/chess/service/CheckDetector.kt:61-79 | the search says yes exactly when some own piece has a `canMove`-accepted move that leaves its king out of check |
| CheckDetection.AnySafeTarget | backend/src/main/kotlin/com/chess/service/CheckDetector.kt:67-75 | the inner loop, over board copies, finds a safe target exactly when one exists |
| CheckDetection.PieceHasSafeMove | backend/src/main/kotlin/com/chess/service/CheckDetector.kt:64-75 | one piece's generated moves include a safe one |
| CheckDetection.HasAnyLegalMoves | backend/src/main/kotlin/com/chess/service/CheckDetector.kt:61-79 | the nested loop answers the legal-move search |
| CheckDetection.AnyPieceHasSafeMove | backend/src/main/kotlin/com/chess/service/CheckDetector.kt:62-78 | the loop over the pieces stops at the first with a safe move |
| CheckDetection.IsCheckmate | backend/src/main/kotlin/com/chess/service/CheckDetector.kt:40-45 | checkmate is check with no legal move |
| CheckDetection.IsStalemate | backend/src/main/kotlin/com/chess/service/CheckDetector.kt:51-56 | stalemate is no check and no legal move |
| CheckDetection.GetGameStatus | backend/src/main/kotlin/com/chess/service/CheckDetector.kt:96-103 | the status derived from check and the legal-move search |
| CheckDetection.MateAndStalemateExclusive | backend/src/main/kotlin/com/chess/service/CheckDetector.kt:40-56 | no position is both checkmate and stalemate |
| CheckDetection.StatusSpec | backend/src/main/kotlin/com/chess/service/CheckDetector.kt:96-103 | CHECKMATE, STALEMATE, CHECK and ACTIVE each hold exactly in their combination of check and legal moves; the status is never DRAW |
| MoveValidation.IsValidMove | backend/src/main/kotlin/com/chess/service/MoveValidator.kt:16-38 | the checks in the source's order, on a board copy for the final one |
| MoveValidation.ValidationSpec | backend/src/main/kotlin/com/chess/service/MoveValidator.kt:16-38 | valid exactly when `from` holds a piece of the side to move, its `canMove` accepts, and its king is not in check afterwards |
| MoveValidation.ValidationReasons | backend/src/main/kotlin/com/chess/service/MoveValidator.kt:16-38 | each rejection carries the source's message for the first check that fails |
| MoveValidation.GetLegalMoves | backend/src/main/kotlin/com/chess/service/MoveValidator.kt:43-58 | the piece's generated moves that leave its king out of check, in generation order; none for an empty square or the wrong side |
| MoveValidation.KeepSafeTargets | backend/src/main/kotlin/com/chess/service/MoveValidator.kt:53-57 | the filter loop, over board copies, keeps exactly the targets that leave the king out of check |
| MoveValidation.LegalMovesMatchValidation | backend/src/main/kotlin/com/chess/service/MoveValidator.kt:16-58 | a square is listed by `getLegalMoves` exactly when `isValidMove` accepts the move |
| MoveValidation.SquaresEmpty | backend/src/main/kotlin/com/chess/service/MoveValidator.kt:85-90 | the loop answers whether every square between king and rook is empty |
| MoveValidation.CanCastle | backend/src/main/kotlin/com/chess/service/MoveValidator.kt:63-116 | castling rights: flags, king and rook in place, empty squares between, king safe on its square, the square it passes and the square it lands on |
| MoveValidation.CheckPathSafety | backend/src/main/kotlin/com/chess/service/MoveValidator.kt:98-113 | the three attack checks on board copies; the landing square for kingside castling is off the board |
| MoveValidation.KingsideNeverCastles | backend/src/main/kotlin/com/chess/service/MoveValidator.kt:63-116 | kingside castling is never granted; when every earlier check passes, the landing column 6 fails construction |
| MoveValidation.QueensideCastling | backend/src/main/kotlin/com/chess/service/MoveValidator.kt:63-116 | queenside castling is granted exactly when nothing has moved, b, c and d are empty, and the king is safe on e, d and c |
| MoveValidation.EnPassantSpec | backend/src/main/kotlin/com/chess/service/MoveValidator.kt:121-129 | `canEnPassant` holds exactly for a pawn on row 4 (white) or 1 (black) when the last move was a two-row pawn move that ended beside it, with the target one row forward in that file; never with an empty history |
| MoveValidation.ValidatorEnPassantNeverFires | backend/src/main/kotlin/com/chess/service/MoveValidator.kt:121-129 | as written, `canEnPassant` is false right after an opponent's double step from its start row |
| MoveValidation.CorrectedEnPassantSpec | backend/src/main/kotlin/com/chess/domain/pieces/Pawn.kt:72-94 | with rows 2 and 3, after an opponent's double step that ends beside the pawn, en passant goes exactly onto the square that pawn passed over |
| MoveValidation.ShouldPromoteSpec | backend/src/main/kotlin/com/chess/service/MoveValidator.kt:134-140 | promotion is due exactly for a white pawn on row 5 or a black pawn on row 0 |
| Service.InitialHasNoStrandedPawn | backend/src/main/kotlin/com/chess/domain/Board.kt:20-46 | no pawn starts on its far rank, so every piece of a new game can list its moves |
| Service.MoveRecordAsWritten | backend/src/main/kotlin/com/chess/service/GameService.kt:87-95 | the record is an ordinary move of the piece on `from`, capturing what is on `to`, carrying the promotion piece that was sent |
| Service.MoveRecord | backend/src/main/kotlin/com/chess/service/GameService.kt:87-95 | the corrected record: as above, with a promotion only for a pawn reaching its far rank |
| Service.AsWrittenRecordApplies | backend/src/main/kotlin/com/chess/service/GameService.kt:87-100 | once the promotion checks pass, `afterMove` accepts the record exactly when the promotion piece is absent or a queen, rook, bishop or knight, and then leaves no pawn on its far rank |
| Service.StrayPromotion | backend/src/main/kotlin/com/chess/service/GameService.kt:55 | as written, a promotion piece sent with a valid non-promoting move replaces the moving piece on `to` when it is a queen, rook, bishop or knight, and makes `afterMove` throw when it is a king or pawn |
| Service.CorrectedMoveOutcome | backend/src/main/kotlin/com/chess/service/GameService.kt:36-103 | `makeMove` with the corrected record never throws |
| Service.CorrectedKeepsPiece | backend/src/main/kotlin/com/chess/service/GameService.kt:87-95 | with the correction, a valid non-promoting move succeeds and leaves the moving piece itself on `to`, whatever promotion piece was sent |
| Service.CorrectionAgrees | backend/src/main/kotlin/com/chess/service/GameService.kt:36-103 | the correction changes no outcome when no promotion piece is sent or when the move promotes |
| Service.SpecialBranchesDead | backend/src/main/kotlin/com/chess/service/GameService.kt:58-74 | a validated move is never a two-file king hop, and a pawn changing file always captures, so the castling and en passant branches never fire |
| Service.RecordedMoveApplies | backend/src/main/kotlin/com/chess/service/GameService.kt:87-100 | the corrected record is always accepted by `afterMove` once the promotion checks pass, and no pawn is left on its far rank |
| Service.GameService.constructor | backend/src/main/kotlin/com/chess/service/GameService.kt:9-13 | the registry starts empty |
| Service.GameService.CreateGame | backend/src/main/kotlin/com/chess/service/GameService.kt:15-19 | a new game is stored under its id, and the other games are unchanged |
| Service.GameService.GetGame | backend/src/main/kotlin/com/chess/service/GameService.kt:21-23 | the stored game, or none exactly when the id is unknown |
| Service.GameService.DeleteGame | backend/src/main/kotlin/com/chess/service/GameService.kt:25-27 | the id is removed and nothing else |
| Service.GameService.GetAllGames | backend/src/main/kotlin/com/chess/service/GameService.kt:29-31 | one entry per stored game, holding exactly the stored games |
| Service.GameService.MakeMove | backend/src/main/kotlin/com/chess/service/GameService.kt:36-103 | unknown id: GameNotFound; otherwise the as-written outcome for the stored game, which replaces the stored game only on success; an exception from `afterMove` leaves the registry unchanged |
| Service.GameService.Play | backend/src/main/kotlin/com/chess/service/GameService.kt:49-102 | the promotion checks, the move record carrying the promotion piece sent, the exception `afterMove` raises, and the successor game under the derived status |
| Service.GameService.GetLegalMovesOf | backend/src/main/kotlin/com/chess/service/GameService.kt:108-111 | no moves for an unknown id; otherwise the validator's legal moves |
| Service.SuccessfulMoves | backend/src/main/kotlin/com/chess/service/GameService.kt:36-103 | a successful move was validated in a game not over; it is ordinary, records the pieces on `from` and `to` and the promotion piece sent, appends itself to the history, flips the side to move, stores the derived status, and keeps every pawn off its far rank |
| Service.PromotionRules | backend/src/main/kotlin/com/chess/service/GameService.kt:49-84 | a pawn reaching its far rank needs a promotion piece; a king or pawn is refused; a queen, rook, bishop or knight then stands on `to` in the mover's colour |
| ClientValidation.SameDirections | frontend/src/services/validation.ts:79-134 | the client's direction and jump lists equal the server's, in the same order |
| ClientValidation.PieceMoves | frontend/src/services/validation.ts:71-165 | the client lists exactly the server's generated moves; for a pawn on its far rank, none |
| ClientValidation.PositionsInDirection | frontend/src/services/validation.ts:38-66 | the loop collects exactly the server's ray: no own piece, and every square but the last empty |
| ClientValidation.OffsetTargets | frontend/src/services/validation.ts:86-91 | the king and knight loops collect exactly the hop targets |
| ClientValidation.DirectionTargets | frontend/src/services/validation.ts:101-119 | the slider loops collect exactly the concatenated rays |
| ClientValidation.PawnPushes | frontend/src/services/validation.ts:137-152 | the pushes equal the server's; none on the far rank |
| ClientValidation.PawnTargets | frontend/src/services/validation.ts:136-161 | pushes then captures, as on the server; none on the far rank |
| ClientValidation.GetPieceValidMoves | frontend/src/services/validation.ts:71-165 | the per-kind switch gives the client's generated moves |
| ClientValidation.ListsTargetAgreement | frontend/src/services/validation.ts:198-201 | a piece lists the target exactly when it attacks it in the server's sense |
| ClientValidation.PieceListsTarget | frontend/src/services/validation.ts:198-201 | the per-square test of `isSquareAttacked` |
| ClientValidation.IsSquareAttacked | frontend/src/services/validation.ts:191-206 | the client's attack test equals the server's `isSquareUnderAttack` |
| ClientValidation.FindKing | frontend/src/services/validation.ts:235-243 | the first king in row-major order, as on the server |
| ClientValidation.IsKingInCheck | frontend/src/services/validation.ts:248-253 | no king means no check; otherwise the client's check equals the server's |
| ClientValidation.PassedOverRow | frontend/src/services/validation.ts:223 | the row passed over by a two-row move lies between its rows, inside 1..4 |
| ClientValidation.EnPassantTarget | frontend/src/services/validation.ts:268-275 | an extra target is offered only for a pawn after a two-row last move; it is diagonally adjacent, in the file of that move |
| ClientValidation.CapturedSquare | frontend/src/services/validation.ts:221-227 | a square is cleared only for a pawn changing file after a two-row last move; it is one row behind `to` in `to`'s file |
| ClientValidation.ApplyMoveToBoard | frontend/src/services/validation.ts:211-230 | `from` empty, the piece on `to`, the captured square cleared, nothing else changed |
| ClientValidation.ApplyIsRelocate | frontend/src/services/validation.ts:211-230 | with no en passant capture, the client's board update is the server's `movePiece` |
| ClientValidation.LegalMoves | frontend/src/services/validation.ts:259-284 | no moves for an empty square or the wrong side; every move is a candidate that leaves the mover's king out of check |
| ClientValidation.KeepSafe | frontend/src/services/validation.ts:278-281 | keeps exactly the candidates after which the king is not in check |
| ClientValidation.SafeMoves | frontend/src/services/validation.ts:278-281 | the filter loop keeps exactly the safe candidates |
| ClientValidation.CandidateSquares | frontend/src/services/validation.ts:266-275 | the generated moves, plus the en passant target when there is one |
| ClientValidation.GetLegalMoves | frontend/src/services/validation.ts:259-284 | the client's legal moves |
| ClientValidation.IsValidMove | frontend/src/services/validation.ts:170-178 | valid exactly when `from` holds a piece of the side to move and `to` is among its legal moves |
| ClientValidation.AgreesWithServer | frontend/src/services/validation.ts:259-284 | on the same board and side to move, and with no two-row last move, the client lists a square exactly when the server's `isValidMove` accepts it |
| ClientValidation.EnPassantOfferRejected | frontend/src/services/validation.ts:268-275 | an en passant square the client offers, empty on the board, is rejected by the server |
| ClientValidation.EnPassantIgnoresMover | frontend/src/services/validation.ts:268-275 | the client's en passant offer does not look at the board, so it ignores which pawn stands where |

## Left out

- Controllers, WebSocket/STOMP messaging, DTOs, the board editor, undo and annotations are outside the rules engine. The same goes for `Board.toArray`, `Board.toString`, `Piece.toString` and the React UI.
- The client `GameState` fields `gameId`, `status`, `selectedCell` and `validMoves` are UI state. The model's client state keeps `board`, `currentPlayer` and `lastMove`.
- `UUID.randomUUID()` and `Instant.now()` are parameters (`id`, `now`). `makeMove` reads the clock once in the model, and both `afterMove` calls use that value.
- `ConcurrentHashMap` concurrency is left out: each `GameService` method is one atomic step.
- `Service.GameService.GetAllGames` states the contents of the list and not its order. A hash map's iteration order is not specified.
- The Kotlin `PieceType` enum file is not part of this model. `Pieces.Name` follows the kind names of the client type and of `Move.kt`.
- Movement.GetValidMoves, Pawns.GetValidMoves and the methods that call them: these require that no pawn stands on its far rank, where `Pawn.getValidMoves` constructs an off-board `Position` and throws. `Service.InitialHasNoStrandedPawn` and `Service.SuccessfulMoves` prove that no stored game ever has such a pawn.
- Service.GameService.MakeMove: its castling and en passant branches are not modelled as code. In `Service.GameService.Play` they are `assert false` branches, which `Service.SpecialBranchesDead` proves unreachable: `isValidMove` has already rejected every castling hop and every pawn move onto an empty diagonal. The calls to `canCastle` and `canEnPassant` there are therefore absent, and the board effects of castling and en passant are stated on `Games.AfterMove` directly.
- Positions.DigitToInt, Positions.FromAlgebraic, Positions.FromAlgebraicFailures: accept only the ASCII digits `0`..`9` as a rank. Kotlin's `digitToInt` also accepts the other Unicode decimal digits (Arabic-Indic, fullwidth and so on), so a rank written with such a digit parses in the source and fails in the model.
- MoveValidation.CanCastle: never reaches `Success(true)` kingside, because the landing column 6 is off the board (`MoveValidation.KingsideNeverCastles`). No corrected kingside rule is given, because the source does not say where a 6x6 king should land.
- ClientValidation.AgreesWithServer: holds only when the last move was not a two-row move. After one, the client adds its en passant square without checking the mover's kind or position (`ClientValidation.EnPassantIgnoresMover`). The server never accepts that square unless it holds a piece (`ClientValidation.EnPassantOfferRejected`).

## Findings

| source | as written | input that shows it | evidently intended | confidence | as-written member | corrected member |
|---|---|---|---|---|---|---|
| backend/src/main/kotlin/com/chess/domain/pieces/Pawn.kt:76 | a white pawn must stand on row 4 and a black pawn on row 1 to take en passant, as on an 8x8 board | white pawn on d3 (2,3), black pawn just moved e5 to e3, (4,4) to (2,4): as written no en passant; row 2 is where a white pawn stands beside a black pawn after its double step | rows 2 for white and 3 for black, where an enemy double step ends on a 6x6 board | not executed | Pawns.EnPassantAsWrittenNeverFires | Pawns.EnPassantTakesPassedSquare |
| backend/src/main/kotlin/com/chess/service/GameService.kt:55 | any promotion piece the caller sends is stored in the Move, whatever piece moves and wherever it lands | new game, `makeMove(b1, c3, QUEEN)`: the knight's valid move lands a queen on c3; with PAWN instead, `afterMove` throws | a promotion piece is used only for a pawn reaching its far rank | not executed | Service.StrayPromotion | Service.CorrectedKeepsPiece |
