/**
 * The client's test board for the Amazons (BoardGameModel): a (rows + 1)-by-(columns + 1)
 * grid of marker strings whose row 0 and column 0 stay null, a move-marking operation and the
 * text rendering. A null cell is None.
 */
module BoardModel {
  import opened Wrappers
  import Text

  const POS_MARKED_BLACK: string := "black"
  const POS_MARKED_WHITE: string := "white"
  const POS_MARKED_ARROW: string := "arrow"
  const POS_AVAILABLE: string := "available"

  type Cell = Option<string>
  type Grid = seq<seq<Cell>>

  /** Every row of the grid has `width` cells. */
  predicate Rect(b: Grid, width: int)
  {
    forall i :: 0 <= i < |b| ==> |b[i]| == width
  }

  /** String.equalsIgnoreCase, for ASCII text. */
  predicate EqualsIgnoreCase(a: string, b: string)
  {
    Text.ToLower(a) == Text.ToLower(b)
  }

  /** The cell the constructor leaves at (i, j): "available" inside, null on row 0 and column 0. */
  function FreshCell(i: int, j: int): Cell
  {
    if i >= 1 && j >= 1 then Some(POS_AVAILABLE) else None
  }

  function Put(b: Grid, width: int, r: int, c: int, v: Cell): (nb: Grid)
    requires Rect(b, width) && 0 <= r < |b| && 0 <= c < width
    ensures |nb| == |b| && Rect(nb, width) && nb[r][c] == v
    ensures forall i, j :: 0 <= i < |b| && 0 <= j < width && (i, j) != (r, c) ==> nb[i][j] == b[i][j]
  {
    b[r := b[r][c := v]]
  }

  /**
   * positionMarked as written: the target must lie inside the grid, with the column compared
   * against the row count; the rest is Marking.
   */
  function Marked(b: Grid, width: int, row: int, column: int, arow: int, acol: int, qfr: int, qfc: int): (r: (Grid, Result<bool>))
    requires Rect(b, width)
    ensures |r.0| == |b| && Rect(r.0, width)
  {
    if row >= |b| || column >= |b| || row <= 0 || column <= 0 then (b, Ok(false))
    else Marking(b, width, row, column, arow, acol, qfr, qfc)
  }

  /**
   * positionMarked past its range guard: the target must hold "available" (an index beyond the
   * row or a null target throws); then the target takes the source's marker, the source becomes
   * "available" and the arrow cell "arrow", an index outside the arrays throwing where it is met.
   */
  function Marking(b: Grid, width: int, row: int, column: int, arow: int, acol: int, qfr: int, qfc: int): (r: (Grid, Result<bool>))
    requires Rect(b, width) && 0 < row < |b| && 0 < column
    ensures |r.0| == |b| && Rect(r.0, width)
  {
    if column >= width then (b, Err(IndexOutOfBounds))
    else if b[row][column].None? then (b, Err(NullReference))
    else if !EqualsIgnoreCase(b[row][column].value, POS_AVAILABLE) then (b, Ok(false))
    else if !(0 <= qfr < |b| && 0 <= qfc < width) then (b, Err(IndexOutOfBounds))
    else
      var moved := Put(Put(b, width, row, column, b[qfr][qfc]), width, qfr, qfc, Some(POS_AVAILABLE));
      if !(0 <= arow < |b| && 0 <= acol < width) then (moved, Err(IndexOutOfBounds))
      else (Put(moved, width, arow, acol, Some(POS_MARKED_ARROW)), Ok(true))
  }

  /** A refused move leaves the grid as it was. */
  lemma RefusalChangesNothing(b: Grid, width: int, row: int, column: int, arow: int, acol: int, qfr: int, qfc: int)
    requires Rect(b, width)
    ensures Marked(b, width, row, column, arow, acol, qfr, qfc).1 == Ok(false) ==>
      Marked(b, width, row, column, arow, acol, qfr, qfc).0 == b
  {
  }

  /**
   * An accepted move whose target, source and arrow are three different cells puts the
   * source's marker on the target, frees the source, marks the arrow, and keeps every other cell.
   */
  lemma AcceptedMove(b: Grid, width: int, row: int, column: int, arow: int, acol: int, qfr: int, qfc: int)
    requires Rect(b, width)
    requires Marked(b, width, row, column, arow, acol, qfr, qfc).1 == Ok(true)
    requires (row, column) != (qfr, qfc) && (arow, acol) != (row, column) && (arow, acol) != (qfr, qfc)
    ensures
      var nb := Marked(b, width, row, column, arow, acol, qfr, qfc).0;
      && nb[row][column] == b[qfr][qfc]
      && nb[qfr][qfc] == Some(POS_AVAILABLE)
      && nb[arow][acol] == Some(POS_MARKED_ARROW)
      && forall i, j :: 0 <= i < |b| && 0 <= j < width && (i, j) !in {(row, column), (qfr, qfc), (arow, acol)} ==> nb[i][j] == b[i][j]
  {
  }

  /** A move is accepted exactly when the target is inside, holds "available", and the source and arrow cells exist. */
  lemma AcceptedIff(b: Grid, width: int, row: int, column: int, arow: int, acol: int, qfr: int, qfc: int)
    requires Rect(b, width) && column < width
    ensures Marked(b, width, row, column, arow, acol, qfr, qfc).1 == Ok(true) <==>
      && 0 < row < |b| && 0 < column < |b|
      && b[row][column].Some? && EqualsIgnoreCase(b[row][column].value, POS_AVAILABLE)
      && 0 <= qfr < |b| && 0 <= qfc < width && 0 <= arow < |b| && 0 <= acol < width
  {
  }

  /** The grid the constructor builds for `rows` rows and `columns` columns. */
  function FreshGrid(rows: int, columns: int): (b: Grid)
    requires rows >= -1 && columns >= -1
    ensures |b| == rows + 1 && Rect(b, columns + 1)
  {
    seq(rows + 1, i => seq(columns + 1, j => FreshCell(i, j)))
  }

  /**
   * On a grid with more rows than columns, a column between the two counts passes the guard
   * and the lookup of the target throws instead of the call answering false.
   */
  lemma WideColumnThrows()
    ensures Marked(FreshGrid(10, 5), 6, 1, 7, 2, 2, 3, 3).1 == Err(IndexOutOfBounds)
  {
  }

  /** On a grid with more columns than rows, an available cell beyond the row count is refused. */
  lemma NarrowRowsRefuse()
    ensures FreshGrid(5, 10)[1][8] == Some(POS_AVAILABLE)
    ensures Marked(FreshGrid(5, 10), 11, 1, 8, 2, 2, 3, 3).1 == Ok(false)
  {
  }

  /** positionMarked with the column compared against the column count. */
  function MarkedIntended(b: Grid, width: int, row: int, column: int, arow: int, acol: int, qfr: int, qfc: int): (r: (Grid, Result<bool>))
    requires Rect(b, width)
    ensures |r.0| == |b| && Rect(r.0, width)
  {
    if row >= |b| || column >= width || row <= 0 || column <= 0 then (b, Ok(false))
    else Marking(b, width, row, column, arow, acol, qfr, qfc)
  }

  /**
   * With the intended guard, a target outside the grid is always refused without a change,
   * and a fresh grid accepts every inside target when the source and arrow cells exist.
   */
  lemma IntendedGuard(rows: int, columns: int, row: int, column: int, arow: int, acol: int, qfr: int, qfc: int)
    requires rows >= -1 && columns >= -1
    ensures !(0 < row <= rows && 0 < column <= columns) ==>
      MarkedIntended(FreshGrid(rows, columns), columns + 1, row, column, arow, acol, qfr, qfc) == (FreshGrid(rows, columns), Ok(false))
    ensures 0 < row <= rows && 0 < column <= columns && 0 <= qfr <= rows && 0 <= qfc <= columns && 0 <= arow <= rows && 0 <= acol <= columns ==>
      MarkedIntended(FreshGrid(rows, columns), columns + 1, row, column, arow, acol, qfr, qfc).1 == Ok(true)
  {
    if 0 < row <= rows && 0 < column <= columns {
      assert FreshGrid(rows, columns)[row][column] == Some(POS_AVAILABLE);
    }
  }

  /** A cell as string concatenation shows it: null prints as "null". */
  function Shown(c: Cell): string
  {
    if c.None? then "null" else c.value
  }

  /** Cells 1 .. m of a row, each followed by a space. */
  function RowText(row: seq<Cell>, m: nat): (s: string)
    requires m < |row|
  {
    if m == 0 then "" else RowText(row, m - 1) + Shown(row[m]) + " "
  }

  /** Rows 1 .. n, cells 1 .. 10 each, each row ended by a newline. */
  function Lines(b: Grid, n: nat): (s: string)
    requires n < |b| && forall i :: 0 <= i < |b| ==> |b[i]| >= 11
  {
    if n == 0 then "" else Lines(b, n - 1) + RowText(b[n], 10) + "\n"
  }

  /** The text toString has built after row n is the text after row n - 1, then row n and a newline. */
  lemma RenderStep(b: Grid, n: nat)
    requires 0 < n < |b| && forall i :: 0 <= i < |b| ==> |b[i]| >= 11
    ensures "null" + Lines(b, n) == "null" + Lines(b, n - 1) + RowText(b[n], 10) + "\n"
  {
  }

  function Repeat(s: string, n: nat): (r: string)
    ensures |r| == n * |s|
  {
    if n == 0 then "" else Repeat(s, n - 1) + s
  }

  /** A row all of whose cells 1 .. m are "available" reads as m copies of "available ". */
  lemma {:induction false} AvailableRow(row: seq<Cell>, m: nat)
    requires m < |row| && forall j :: 1 <= j <= m ==> row[j] == Some(POS_AVAILABLE)
    ensures RowText(row, m) == Repeat(POS_AVAILABLE + " ", m)
  {
    if m > 0 {
      AvailableRow(row, m - 1);
    }
  }

  /** Rows 1 .. n of a fresh grid read as n lines of ten "available " entries. */
  lemma {:induction false} FreshLines(rows: int, columns: int, n: nat)
    requires rows >= 10 && columns >= 10 && n <= 10
    ensures Lines(FreshGrid(rows, columns), n) == Repeat(Repeat(POS_AVAILABLE + " ", 10) + "\n", n)
  {
    if n > 0 {
      FreshLines(rows, columns, n - 1);
      AvailableRow(FreshGrid(rows, columns)[n], 10);
    }
  }

  class BoardGameModel {
    var gameBoard: array2<Cell>

    /** The grid held in gameBoard, as a value. */
    ghost function Cells(): (b: Grid)
      reads this, gameBoard
      ensures |b| == gameBoard.Length0 && Rect(b, gameBoard.Length1)
    {
      var a := gameBoard;
      seq(a.Length0, i requires 0 <= i < a.Length0 reads a =>
        seq(a.Length1, j requires 0 <= j < a.Length1 reads a => a[i, j]))
    }

    /**
     * The constructor: a (rows + 1)-by-(columns + 1) grid whose cells with both indices at
     * least 1 are "available" and the rest null.
     */
    constructor (rows: int, columns: int)
      requires rows >= -1 && columns >= -1
      ensures fresh(gameBoard)
      ensures Cells() == FreshGrid(rows, columns)
    {
      var a := new Cell[rows + 1, columns + 1]((i, j) => None);
      var i := 1;
      while i < rows + 1
        invariant 1 <= i <= rows + 1 || (rows == -1 && i == 1)
        invariant forall r, c :: 0 <= r < rows + 1 && 0 <= c < columns + 1 ==>
          a[r, c] == (if 1 <= r < i then FreshCell(r, c) else None)
      {
        var j := 1;
        while j < columns + 1
          invariant 1 <= j <= columns + 1 || (columns == -1 && j == 1)
          invariant forall r, c :: 0 <= r < rows + 1 && 0 <= c < columns + 1 ==>
            a[r, c] == (if 1 <= r < i || (r == i && 1 <= c < j) then FreshCell(r, c) else None)
          modifies a
        {
          a[i, j] := Some(POS_AVAILABLE);
          j := j + 1;
        }
        i := i + 1;
      }
      gameBoard := a;
      new;
      assert forall r | 0 <= r < rows + 1 :: Cells()[r] == FreshGrid(rows, columns)[r];
    }

    /** One cell of gameBoard written. */
    method Write(r: int, c: int, v: Cell)
      requires 0 <= r < gameBoard.Length0 && 0 <= c < gameBoard.Length1
      modifies gameBoard
      ensures Cells() == Put(old(Cells()), gameBoard.Length1, r, c, v)
    {
      gameBoard[r, c] := v;
      assert forall i | 0 <= i < gameBoard.Length0 :: Cells()[i] == Put(old(Cells()), gameBoard.Length1, r, c, v)[i];
    }

    /**
     * positionMarked: the answer and the new grid are those Marked gives; opponentMove takes
     * no part in either.
     */
    method PositionMarked(row: int, column: int, arow: int, acol: int, qfr: int, qfc: int, opponentMove: bool)
      returns (r: Result<bool>)
      modifies gameBoard
      ensures (Cells(), r) == Marked(old(Cells()), gameBoard.Length1, row, column, arow, acol, qfr, qfc)
    {
      var valid := true;
      if row >= gameBoard.Length0 || column >= gameBoard.Length0 || row <= 0 || column <= 0 {
        valid := false;
      } else {
        if column >= gameBoard.Length1 {
          return Err(IndexOutOfBounds);
        }
        var target := gameBoard[row, column];
        if target.None? {
          return Err(NullReference);
        }
        if !EqualsIgnoreCase(target.value, POS_AVAILABLE) {
          valid := false;
        }
      }
      if valid {
        if !(0 <= qfr < gameBoard.Length0 && 0 <= qfc < gameBoard.Length1) {
          return Err(IndexOutOfBounds);
        }
        Write(row, column, gameBoard[qfr, qfc]);
        Write(qfr, qfc, Some(POS_AVAILABLE));
        if !(0 <= arow < gameBoard.Length0 && 0 <= acol < gameBoard.Length1) {
          return Err(IndexOutOfBounds);
        }
        Write(arow, acol, Some(POS_MARKED_ARROW));
      }
      return Ok(valid);
    }

    /** One row of toString: cells 1 .. 10 of row i, each followed by a space. */
    method RowString(i: int) returns (s: string)
      requires 1 <= i < gameBoard.Length0 && gameBoard.Length1 >= 11
      ensures s == RowText(Cells()[i], 10)
    {
      ghost var row := Cells()[i];
      s := "";
      var j := 1;
      while j < 11
        invariant 1 <= j <= 11
        invariant s == RowText(row, j - 1)
      {
        assert row[j] == gameBoard[i, j];
        s := s + Shown(gameBoard[i, j]) + " ";
        j := j + 1;
      }
    }

    /** toString's loops over rows and columns 1 .. 10 of a grid large enough for them. */
    method Render() returns (b: string)
      requires gameBoard.Length0 >= 11 && gameBoard.Length1 >= 11
      ensures b == "null" + Lines(Cells(), 10)
    {
      ghost var cells := Cells();
      b := "null";
      var i := 1;
      while i < 11
        invariant 1 <= i <= 11
        invariant b == "null" + Lines(cells, i - 1)
      {
        var row := RowString(i);
        RenderStep(cells, i);
        b := b + row + "\n";
        i := i + 1;
      }
    }

    /**
     * toString: the accumulator starts as null, so the text opens with "null"; rows and
     * columns 1 .. 10 are read whatever the grid's size, a smaller grid throwing.
     */
    method ToString() returns (r: Result<string>)
      ensures r.Err? <==> gameBoard.Length0 < 11 || gameBoard.Length1 < 11
      ensures r.Ok? ==> r.value == "null" + Lines(Cells(), 10)
    {
      if gameBoard.Length0 < 11 || gameBoard.Length1 < 11 {
        return Err(IndexOutOfBounds);
      }
      var b := Render();
      return Ok(b);
    }
  }

  /** A fresh board of at least 10 by 10 renders as "null" and ten lines of ten "available " entries. */
  lemma FreshBoardText(rows: int, columns: int)
    requires rows >= 10 && columns >= 10
    ensures "null" + Lines(FreshGrid(rows, columns), 10) == "null" + Repeat(Repeat(POS_AVAILABLE + " ", 10) + "\n", 10)
  {
    FreshLines(rows, columns, 10);
  }
}
