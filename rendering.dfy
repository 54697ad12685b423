/**
 * The text dump shared by every board: a header of column numbers, then one line per row
 * from the top row down to row 0, each cell written as a bar, its content and a space.
 * It is built only from the dimensions and whatsAtPos, so it cannot tell the strategies apart.
 */
module Rendering {
  import opened Positions
  import opened Rules
  import opened Contract

  /** The strings of ls, one after another. */
  function Concat(ls: seq<string>): string
  {
    if ls == [] then "" else Concat(ls[..|ls| - 1]) + ls[|ls| - 1]
  }

  /** The header cell of column c: a bar, then the number right-aligned in two characters. */
  function ColumnLabel(c: nat): string
  {
    if c < 10 then "| " + NatToString(c) else "|" + NatToString(c)
  }

  /** The labels of columns 0..n-1, one after another. */
  function HeaderCells(n: nat): string
  {
    if n == 0 then "" else HeaderCells(n - 1) + ColumnLabel(n - 1)
  }

  function HeaderLine(cols: nat): string
  {
    HeaderCells(cols) + "|\n"
  }

  /** Columns 0..n-1 of row r, each as '|', the cell, ' '. */
  function Cells(s: State, r: int, n: nat): string
    requires s.Shaped() && 0 <= r < s.rows && n <= s.cols
  {
    if n == 0 then "" else Cells(s, r, n - 1) + ['|', s.grid[r][n - 1], ' ']
  }

  function RowLine(s: State, r: int): string
    requires s.Shaped() && 0 <= r < s.rows
  {
    Cells(s, r, s.cols) + "|\n"
  }

  /** The text once the header and the top k rows are written: the header, then rows rows-1 down to rows-k. */
  function Text(s: State, k: nat): string
    requires s.Shaped() && k <= s.rows
  {
    if k == 0 then HeaderLine(s.cols) else Text(s, k - 1) + RowLine(s, s.rows - k)
  }

  /** The whole text: the header, then every row from the top one down to row 0. */
  function Render(s: State): string
    requires s.Shaped()
  {
    Text(s, s.rows)
  }

  /** The same text as a list of lines: the header line first, then one line per row. */
  function Lines(s: State, k: nat): seq<string>
    requires s.Shaped() && k <= s.rows
  {
    if k == 0 then [HeaderLine(s.cols)] else Lines(s, k - 1) + [RowLine(s, s.rows - k)]
  }

  lemma ConcatSnoc(ls: seq<string>, x: string)
    ensures Concat(ls + [x]) == Concat(ls) + x
  {
    assert (ls + [x])[..|ls|] == ls;
  }

  /** The text is its lines, one after another. */
  lemma {:induction false} TextIsConcat(s: State, k: nat)
    requires s.Shaped() && k <= s.rows
    ensures Text(s, k) == Concat(Lines(s, k))
  {
    if k == 0 {
      ConcatSnoc([], HeaderLine(s.cols));
      assert [] + [HeaderLine(s.cols)] == Lines(s, 0);
    } else {
      TextIsConcat(s, k - 1);
      ConcatSnoc(Lines(s, k - 1), RowLine(s, s.rows - k));
    }
  }

  /** Writing row r, the next one down, extends the text by that row's line. */
  lemma TextStep(s: State, k: nat, r: int, text: string, line: string)
    requires s.Shaped() && k < s.rows && r == s.rows - 1 - k
    requires text == Text(s, k) && line == RowLine(s, r)
    ensures text + line == Text(s, k + 1)
  {
  }

  /** Once all rows are written, the text is the whole rendering. */
  lemma TextEnd(s: State, k: nat)
    requires s.Shaped() && k == s.rows
    ensures Text(s, k) == Render(s)
  {
  }

  /** One row of the dump: every cell of row r, left to right, then the closing bar. */
  method RowText(b: Board, r: int) returns (line: string)
    requires b.Valid() && 0 <= r < b.GetNumRows()
    ensures line == RowLine(b.Model(), r)
  {
    line := "";
    for column := 0 to b.GetNumColumns()
      invariant line == Cells(b.Model(), r, column)
    {
      var t := b.WhatsAtPos(BoardPosition(r, column));
      line := line + ['|', t, ' '];
    }
    line := line + "|\n";
  }

  /** The header of the dump: the label of every column, left to right, then a closing bar. */
  method HeaderText(b: Board) returns (header: string)
    requires b.Valid()
    ensures header == HeaderLine(b.Model().cols)
  {
    header := "";
    for column := 0 to b.GetNumColumns()
      invariant header == HeaderCells(column)
    {
      if column < 10 {
        header := header + ("| " + NatToString(column));
      } else {
        header := header + ("|" + NatToString(column));
      }
    }
    header := header + "|\n";
  }

  /** toString: the header, then the rows from the top down. */
  method ToString(b: Board) returns (returnString: string)
    requires b.Valid()
    ensures returnString == Render(b.Model())
  {
    ghost var s := b.Model();
    returnString := HeaderText(b);
    var row := b.GetNumRows() - 1;
    ghost var k := 0;
    while row >= 0
      invariant 0 <= k <= s.rows && row == s.rows - 1 - k
      invariant returnString == Text(s, k)
      decreases row
    {
      var line := RowText(b, row);
      TextStep(s, k, row, returnString, line);
      returnString := returnString + line;
      row := row - 1;
      k := k + 1;
    }
    TextEnd(s, k);
  }

  // ---------------------------------------------------------------- layout lemmas

  /** Label c is a bar and the number right-aligned in two characters. */
  lemma LabelLayout(c: nat)
    requires c < 100
    ensures |ColumnLabel(c)| == 3 && ColumnLabel(c)[0] == '|'
    ensures c < 10 ==> ColumnLabel(c)[1] == ' ' && ColumnLabel(c)[2] == DigitChar(c)
    ensures 10 <= c ==> ColumnLabel(c)[1] == DigitChar(c / 10) && ColumnLabel(c)[2] == DigitChar(c % 10)
  {
    if 10 <= c {
      assert NatToString(c) == NatToString(c / 10) + [DigitChar(c % 10)];
    }
  }

  /** The header cells are 3 characters per column, with a bar at the start of each, as in the rows. */
  lemma {:induction false} HeaderCellsLayout(n: nat)
    requires n <= 100
    ensures |HeaderCells(n)| == 3 * n
    ensures forall j :: 0 <= j < n ==> HeaderCells(n)[3 * j] == '|'
  {
    if n > 0 {
      HeaderCellsLayout(n - 1);
      LabelLayout(n - 1);
    }
  }

  /** Cell j of row r is written at characters 3j..3j+2 as '|', the cell's content, ' '. */
  lemma {:induction false} CellsLayout(s: State, r: int, n: nat)
    requires s.Shaped() && 0 <= r < s.rows && n <= s.cols
    ensures |Cells(s, r, n)| == 3 * n
    ensures forall j :: 0 <= j < n ==>
      Cells(s, r, n)[3 * j] == '|' && Cells(s, r, n)[3 * j + 1] == s.grid[r][j] && Cells(s, r, n)[3 * j + 2] == ' '
  {
    if n > 0 {
      CellsLayout(s, r, n - 1);
    }
  }

  /** Every row line is 3 * cols + 1 characters and a newline, and shows the row's cells in order. */
  lemma RowLineLayout(s: State, r: int)
    requires s.Shaped() && 0 <= r < s.rows
    ensures |RowLine(s, r)| == 3 * s.cols + 2
    ensures RowLine(s, r)[3 * s.cols] == '|' && RowLine(s, r)[3 * s.cols + 1] == '\n'
    ensures forall j :: 0 <= j < s.cols ==> RowLine(s, r)[3 * j] == '|' && RowLine(s, r)[3 * j + 1] == s.grid[r][j]
  {
    CellsLayout(s, r, s.cols);
  }

  /** The header is 3 * cols + 1 characters and a newline, with its bars where the rows have theirs. */
  lemma HeaderLineLayout(cols: nat)
    requires cols <= 100
    ensures |HeaderLine(cols)| == 3 * cols + 2
    ensures HeaderLine(cols)[3 * cols] == '|' && HeaderLine(cols)[3 * cols + 1] == '\n'
    ensures forall j :: 0 <= j < cols ==> HeaderLine(cols)[3 * j] == '|'
  {
    HeaderCellsLayout(cols);
  }

  /** There are k + 1 lines and the first is the header. */
  lemma {:induction false} LinesHeader(s: State, k: nat)
    requires s.Shaped() && k <= s.rows
    ensures |Lines(s, k)| == k + 1 && Lines(s, k)[0] == HeaderLine(s.cols)
  {
    if k > 0 {
      LinesHeader(s, k - 1);
    }
  }

  /** Line i is row rows - i: the top row first. */
  lemma {:induction false} LinesRow(s: State, k: nat, i: nat)
    requires s.Shaped() && k <= s.rows && 1 <= i <= k
    ensures |Lines(s, k)| == k + 1 && Lines(s, k)[i] == RowLine(s, s.rows - i)
  {
    LinesHeader(s, k - 1);
    var prev, last := Lines(s, k - 1), RowLine(s, s.rows - k);
    assert Lines(s, k) == prev + [last];
    if i < k {
      LinesRow(s, k - 1, i);
      assert (prev + [last])[i] == prev[i];
    } else {
      assert (prev + [last])[i] == last;
    }
  }

  /** Every line, header or row, is 3 * cols + 1 characters and a newline. */
  lemma LineWidth(s: State, i: nat)
    requires s.Shaped() && s.cols <= 100 && i <= s.rows
    ensures |Lines(s, s.rows)| == s.rows + 1
    ensures |Lines(s, s.rows)[i]| == 3 * s.cols + 2 && Lines(s, s.rows)[i][3 * s.cols + 1] == '\n'
  {
    if i == 0 {
      LinesHeader(s, s.rows);
      HeaderLineLayout(s.cols);
    } else {
      LinesRow(s, s.rows, i);
      RowLineLayout(s, s.rows - i);
    }
  }

  /**
   * The text of a board with at most 100 columns is rows + 1 lines, each 3 * cols + 1
   * characters and a newline: first the header, then line i is row rows - i, down to row 0.
   */
  lemma RenderLayout(s: State)
    requires s.Shaped() && s.cols <= 100
    ensures Render(s) == Concat(Lines(s, s.rows))
    ensures |Lines(s, s.rows)| == s.rows + 1
    ensures Lines(s, s.rows)[0] == HeaderLine(s.cols)
    ensures forall i :: 1 <= i <= s.rows ==> Lines(s, s.rows)[i] == RowLine(s, s.rows - i)
    ensures forall i :: 0 <= i < |Lines(s, s.rows)| ==>
      |Lines(s, s.rows)[i]| == 3 * s.cols + 2 && Lines(s, s.rows)[i][3 * s.cols + 1] == '\n'
  {
    TextIsConcat(s, s.rows);
    LinesHeader(s, s.rows);
    forall i | 1 <= i <= s.rows
      ensures Lines(s, s.rows)[i] == RowLine(s, s.rows - i)
    {
      LinesRow(s, s.rows, i);
    }
    forall i | 0 <= i < |Lines(s, s.rows)|
      ensures |Lines(s, s.rows)[i]| == 3 * s.cols + 2 && Lines(s, s.rows)[i][3 * s.cols + 1] == '\n'
    {
      LineWidth(s, i);
    }
  }

  lemma SmallLabels()
    ensures ColumnLabel(0) == "| 0" && ColumnLabel(1) == "| 1"
    ensures ColumnLabel(2) == "| 2" && ColumnLabel(3) == "| 3"
  {
    assert DigitChar(0) == '0' && DigitChar(1) == '1' && DigitChar(2) == '2' && DigitChar(3) == '3';
  }

  lemma EmptyFourColumnRow(s: State, r: int)
    requires s.Shaped() && s.cols == 4 && 0 <= r < s.rows
    requires forall c :: 0 <= c < 4 ==> s.grid[r][c] == EMPTY
    ensures RowLine(s, r) == "|  |  |  |  |\n"
  {
    assert Cells(s, r, 1) == "|  ";
    assert Cells(s, r, 2) == "|  |  ";
    assert Cells(s, r, 3) == "|  |  |  ";
    assert Cells(s, r, 4) == "|  |  |  |  ";
  }

  /** The lines of an empty 4 x 4 board, as the program prints them. */
  lemma EmptyFourByFour()
    ensures Lines(EmptyBoard(4, 4, 3), 4) ==
      [HeaderLine(4), "|  |  |  |  |\n", "|  |  |  |  |\n", "|  |  |  |  |\n", "|  |  |  |  |\n"]
  {
    var s := EmptyBoard(4, 4, 3);
    EmptyFourColumnRow(s, 0);
    EmptyFourColumnRow(s, 1);
    EmptyFourColumnRow(s, 2);
    EmptyFourColumnRow(s, 3);
    LinesHeader(s, 4);
  }
}
