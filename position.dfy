/** Squares of the 6x6 board and their algebraic names (Position.kt). */
module Positions {
  import opened Outcomes

  /** A (row, col) pair; `Square` below is the range the Kotlin `init` block admits. */
  datatype Position = Position(row: int, col: int) {

    predicate IsValid() {
      0 <= row <= 5 && 0 <= col <= 5
    }
  }

  /** `Math.abs`. */
  function Abs(x: int): nat {
    if x < 0 then -x else x
  }

  /** A Position that construction accepted: row and col both in 0..5. */
  type Square = p: Position | p.IsValid() witness Position(0, 0)

  /** The ways constructing or parsing a Position fails (the exceptions thrown). */
  datatype PositionError =
    | RowOutOfRange                    // "Row must be in range 0..5"
    | ColumnOutOfRange                 // "Column must be in range 0..5"
    | InvalidNotation(notation: string) // "Invalid algebraic notation: ..."
    | NotADigit(c: char)               // Char.digitToInt() on a non-digit

  /** The constructor `Position(row, col)`: the row is checked before the column. */
  function NewPosition(row: int, col: int): (r: Result<Square, PositionError>)
    ensures r.Success? <==> 0 <= row <= 5 && 0 <= col <= 5
    ensures r.Success? ==> r.value.row == row && r.value.col == col
    ensures r.Failure? && !(0 <= row <= 5) ==> r.error == RowOutOfRange
    ensures r.Failure? && 0 <= row <= 5 ==> r.error == ColumnOutOfRange
  {
    if !(0 <= row <= 5) then Failure(RowOutOfRange)
    else if !(0 <= col <= 5) then Failure(ColumnOutOfRange)
    else Success(Position(row, col))
  }

  /** Every constructed Position reports itself valid. */
  lemma ConstructedIsValid(row: int, col: int)
    ensures NewPosition(row, col).Success? ==> NewPosition(row, col).value.IsValid()
  {
  }

  /** The file letter 'a' + col followed by the rank digit row + 1. */
  function ToAlgebraic(p: Square): (s: string)
    ensures |s| == 2
    ensures 'a' <= s[0] <= 'f' && '1' <= s[1] <= '6'
    ensures s[0] as int - 'a' as int == p.col && s[1] as int - '1' as int == p.row
  {
    [('a' as int + p.col) as char, ('0' as int + (p.row + 1)) as char]
  }

  /** `Char.digitToInt()` restricted to the ASCII digits. */
  function DigitToInt(c: char): (r: Result<int, PositionError>)
    ensures r.Success? <==> '0' <= c <= '9'
    ensures r.Success? ==> 0 <= r.value <= 9 && r.value == c as int - '0' as int
  {
    if '0' <= c <= '9' then Success(c as int - '0' as int) else Failure(NotADigit(c))
  }

  /** `Position.fromAlgebraic`: length check, then the digit, then the constructor's
      row and column checks, in that order. */
  function FromAlgebraic(notation: string): (r: Result<Square, PositionError>)
    ensures |notation| != 2 ==> r == Failure(InvalidNotation(notation))
    ensures r.Success? <==> |notation| == 2 && 'a' <= notation[0] <= 'f' && '1' <= notation[1] <= '6'
  {
    if |notation| != 2 then Failure(InvalidNotation(notation))
    else
      var col := notation[0] as int - 'a' as int;
      match DigitToInt(notation[1])
      case Failure(e) => Failure(e)
      case Success(d) => NewPosition(d - 1, col)
  }

  /** Parsing the name of a square gives the square back. */
  lemma FromToAlgebraic(p: Square)
    ensures FromAlgebraic(ToAlgebraic(p)) == Success(p)
  {
  }

  /** Naming a parsed square gives the original text back, for every text that parses
      ("a1" .. "f6"). */
  lemma ToFromAlgebraic(s: string)
    requires FromAlgebraic(s).Success?
    ensures ToAlgebraic(FromAlgebraic(s).value) == s
  {
    var p := FromAlgebraic(s).value;
    assert ToAlgebraic(p)[0] == s[0] && ToAlgebraic(p)[1] == s[1];
  }

  /** The failures of parsing: a wrong length, a non-digit rank, then the range checks. */
  lemma FromAlgebraicFailures(s: string)
    requires |s| == 2
    ensures !('0' <= s[1] <= '9') ==> FromAlgebraic(s) == Failure(NotADigit(s[1]))
    ensures '0' <= s[1] <= '9' && !('1' <= s[1] <= '6') ==> FromAlgebraic(s) == Failure(RowOutOfRange)
    ensures '1' <= s[1] <= '6' && !('a' <= s[0] <= 'f') ==> FromAlgebraic(s) == Failure(ColumnOutOfRange)
  {
  }
}
