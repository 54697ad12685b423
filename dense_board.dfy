/**
 * The dense storage strategy: a rows x columns character grid mutated in place, with the
 * tie check and the win scans re-implemented directly on the grid.
 */
module DenseBoard {
  import opened Positions
  import opened Rules

  class GameBoard {
    var board: array2<char>
    var numRows: int
    var numColumns: int
    var numToWin: int

    /** The abstract grid the array stands for. */
    ghost var grid: seq<seq<char>>

    ghost function Model(): State
      reads this
    {
      State(numRows, numColumns, numToWin, grid)
    }

    ghost predicate Valid()
      reads this, board
    {
      Model().Wf() && Model().Gravity() &&
      board.Length0 == numRows && board.Length1 == numColumns &&
      forall r, c :: 0 <= r < numRows && 0 <= c < numColumns ==> board[r, c] == grid[r][c]
    }

    /** A rows x columns board with every cell empty. */
    constructor (rows: int, columns: int, numToWin: int)
      requires ValidDims(rows, columns, numToWin)
      ensures Valid() && fresh(board)
      ensures Model() == EmptyBoard(rows, columns, numToWin)
    {
      var cells := new char[rows, columns];
      var row := 0;
      while row < rows
        invariant 0 <= row <= rows
        invariant forall r, c :: 0 <= r < row && 0 <= c < columns ==> cells[r, c] == EMPTY
      {
        var column := 0;
        while column < columns
          invariant 0 <= column <= columns
          invariant forall r, c :: 0 <= r < row && 0 <= c < columns ==> cells[r, c] == EMPTY
          invariant forall c :: 0 <= c < column ==> cells[row, c] == EMPTY
        {
          cells[row, column] := EMPTY;
          column := column + 1;
        }
        row := row + 1;
      }
      numRows := rows;
      numColumns := columns;
      this.numToWin := numToWin;
      board := cells;
      grid := EmptyBoard(rows, columns, numToWin).grid;
      EmptyBoardHasGravity(rows, columns, numToWin);
    }

    /** Drops p into column c: the lowest empty cell of c receives p; a full column is untouched. */
    method PlaceToken(p: char, c: int)
      requires Valid() && 0 <= c < numColumns && p != EMPTY
      modifies this`grid, board
      ensures Valid()
      ensures Model() == old(Model()).Drop(p, c)
      ensures var k := old(Model()).LowestEmpty(c);
        forall r, c' :: 0 <= r < numRows && 0 <= c' < numColumns ==>
          board[r, c'] == if r == k && c' == c then p else old(board[r, c'])
    {
      DropKeepsGravity(Model(), p, c);
      var row := 0;
      while row < numRows
        invariant 0 <= row <= numRows
        invariant forall i :: 0 <= i < row ==> grid[i][c] != EMPTY
      {
        if board[row, c] == EMPTY {
          FirstEmptyIsLowest(Model(), c, row);
          board[row, c] := p;
          grid := grid[row := grid[row][c := p]];
          return;
        }
        row := row + 1;
      }
      FilledColumnHasNoEmpty(Model(), c);
    }

    /** The token at pos, or EMPTY. */
    method WhatsAtPos(pos: BoardPosition) returns (t: char)
      requires Valid() && Model().InBounds(pos.row, pos.column)
      ensures t == Model().At(pos)
    {
      t := board[pos.GetRow(), pos.GetColumn()];
    }

    /** The override of checkTie: reads only the top row of the array. */
    method CheckTie() returns (tie: bool)
      requires Valid()
      ensures tie == Model().Tie()
    {
      var column := 0;
      while column < GetNumColumns()
        invariant 0 <= column <= numColumns
        invariant forall c :: 0 <= c < column ==> Model().TopRow()[c] != EMPTY
      {
        if board[numRows - 1, column] == EMPTY {
          assert Model().TopRow()[column] == EMPTY;
          return false;
        }
        column := column + 1;
      }
      return true;
    }

    /**
     * One direction of a run-length scan on the array: how many consecutive cells holding p
     * follow (r, c) along (dr, dc) before the board edge or another value.
     */
    method Scan(r: int, c: int, dr: int, dc: int, p: char) returns (n: int)
      requires Valid() && Model().InBounds(r, c) && IsDir(dr, dc)
      ensures n == Model().RunFrom(r, c, dr, dc, p, 1)
    {
      ghost var s := Model();
      ghost var total := s.RunFrom(r, c, dr, dc, p, 1);
      n := 0;
      var shift := 1;
      while 0 <= Off(r, dr, shift) < numRows && 0 <= Off(c, dc, shift) < numColumns
            && board[Off(r, dr, shift), Off(c, dc, shift)] == p
        invariant n >= 0 && shift >= 1
        invariant total == n + s.RunFrom(r, c, dr, dc, p, shift)
        decreases numRows + numColumns - shift
      {
        ghost var n0, shift0 := n, shift;
        n := n + 1;
        shift := shift + 1;
        ScanStep(s, r, c, dr, dc, p, n0, shift0, n, shift, total);
      }
      ScanEnd(s, r, c, dr, dc, p, n, shift, total);
    }

    /** The override of checkHorizWin: to the right, then to the left, on the array. */
    method CheckHorizWin(pos: BoardPosition, p: char) returns (w: bool)
      requires Valid() && Model().InBounds(pos.row, pos.column)
      ensures w == Model().HorizWin(pos.row, pos.column, p)
    {
      var right := Scan(pos.GetRow(), pos.GetColumn(), 0, 1, p);
      var left := Scan(pos.GetRow(), pos.GetColumn(), 0, -1, p);
      var inRow := 1 + right + left;
      w := inRow >= numToWin;
    }

    /** The override of checkVertWin: upwards, then downwards, on the array. */
    method CheckVertWin(pos: BoardPosition, p: char) returns (w: bool)
      requires Valid() && Model().InBounds(pos.row, pos.column)
      ensures w == Model().VertWin(pos.row, pos.column, p)
    {
      var up := Scan(pos.GetRow(), pos.GetColumn(), 1, 0, p);
      var down := Scan(pos.GetRow(), pos.GetColumn(), -1, 0, p);
      var inRow := 1 + up + down;
      w := inRow >= numToWin;
    }

    /**
     * The override of checkDiagWin: the rising diagonal first; only if it falls short is
     * the count restarted at 1 for the falling diagonal.
     */
    method CheckDiagWin(pos: BoardPosition, p: char) returns (w: bool)
      requires Valid() && Model().InBounds(pos.row, pos.column)
      ensures w == Model().DiagWin(pos.row, pos.column, p)
    {
      var upRight := Scan(pos.GetRow(), pos.GetColumn(), 1, 1, p);
      var downLeft := Scan(pos.GetRow(), pos.GetColumn(), -1, -1, p);
      var inRow := 1 + upRight + downLeft;
      if inRow >= numToWin {
        return true;
      }
      var upLeft := Scan(pos.GetRow(), pos.GetColumn(), 1, -1, p);
      var downRight := Scan(pos.GetRow(), pos.GetColumn(), -1, 1, p);
      inRow := 1 + upLeft + downRight;
      w := inRow >= numToWin;
    }

    function GetNumRows(): (n: int)
      reads this
      ensures n == Model().rows
    {
      numRows
    }

    function GetNumColumns(): (n: int)
      reads this
      ensures n == Model().cols
    {
      numColumns
    }

    function GetNumToWin(): (n: int)
      reads this
      ensures n == Model().win
    {
      numToWin
    }
  }
}
