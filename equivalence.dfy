/**
 * The two storage strategies are interchangeable: played the same moves they stand for the
 * same board, and on the same board every query of the contract answers alike on both,
 * except isPlayerAtPos asked about the blank token.
 */
module Equivalence {
  import opened Positions
  import opened Rules
  import opened DenseBoard
  import opened SparseBoard
  import opened Contract
  import opened Rendering

  /** A fresh board of each kind, then every move played on both, in order. */
  method PlayBoth(rows: int, cols: int, win: int, moves: seq<Move>) returns (d: GameBoard, s: GameBoardMem)
    requires ValidDims(rows, cols, win) && ValidMoves(cols, moves)
    ensures fresh(d) && fresh(d.board) && fresh(s)
    ensures d.Valid() && s.Valid()
    ensures d.Model() == s.Model() == Replay(EmptyBoard(rows, cols, win), moves)
  {
    d := new GameBoard(rows, cols, win);
    s := new GameBoardMem(rows, cols, win);
    for i := 0 to |moves|
      invariant fresh(d) && fresh(d.board) && fresh(s)
      invariant d.Valid() && s.Valid()
      invariant ValidMoves(cols, moves[..i])
      invariant d.Model() == s.Model() == Replay(EmptyBoard(rows, cols, win), moves[..i])
    {
      d.PlaceToken(moves[i].token, moves[i].column);
      s.PlaceToken(moves[i].token, moves[i].column);
      assert moves[..i + 1][..i] == moves[..i];
    }
    assert moves[..|moves|] == moves;
  }

  /** whatsAtPos gives the same token on both boards. */
  method SameContents(d: GameBoard, s: GameBoardMem, pos: BoardPosition) returns (a: char, b: char)
    requires d.Valid() && s.Valid() && d.Model() == s.Model()
    requires d.Model().InBounds(pos.row, pos.column)
    ensures a == b == d.Model().At(pos)
  {
    a := Board.Dense(d).WhatsAtPos(pos);
    b := Board.Sparse(s).WhatsAtPos(pos);
  }

  /** For every real token isPlayerAtPos answers alike, default and override. */
  method SamePlayerAnswer(d: GameBoard, s: GameBoardMem, pos: BoardPosition, p: char) returns (a: bool, b: bool)
    requires d.Valid() && s.Valid() && d.Model() == s.Model()
    requires d.Model().InBounds(pos.row, pos.column) && p != EMPTY
    ensures a == b
    ensures a <==> d.Model().At(pos) == p
  {
    a := Board.Dense(d).IsPlayerAtPos(pos, p);
    b := Board.Sparse(s).IsPlayerAtPos(pos, p);
  }

  /**
   * Asked whether the blank token is at an empty cell, the default isPlayerAtPos (used by the
   * dense board) says yes and the sparse override says no.
   */
  method BlankTokenAnswersDiffer(d: GameBoard, s: GameBoardMem, pos: BoardPosition) returns (a: bool, b: bool)
    requires d.Valid() && s.Valid() && d.Model() == s.Model()
    requires d.Model().InBounds(pos.row, pos.column) && d.Model().At(pos) == EMPTY
    ensures a && !b
  {
    a := Board.Dense(d).IsPlayerAtPos(pos, EMPTY);
    b := Board.Sparse(s).IsPlayerAtPos(pos, EMPTY);
  }

  /** checkIfFree and checkTie answer alike on both boards, for every column. */
  method SameVerdicts(d: GameBoard, s: GameBoardMem, c: int) returns (f1: bool, f2: bool, t1: bool, t2: bool)
    requires d.Valid() && s.Valid() && d.Model() == s.Model()
    requires 0 <= c < d.numColumns
    ensures f1 == f2 == d.Model().Free(c)
    ensures t1 == t2 == d.Model().Tie()
  {
    var dense := Board.Dense(d);
    var sparse := Board.Sparse(s);
    f1 := dense.CheckIfFree(c);
    f2 := sparse.CheckIfFree(c);
    t1 := dense.CheckTie();
    t2 := sparse.CheckTie();
  }

  /** checkForWin answers alike on both boards, for every column holding a token. */
  method SameWinVerdict(d: GameBoard, s: GameBoardMem, c: int) returns (w1: bool, w2: bool)
    requires d.Valid() && s.Valid() && d.Model() == s.Model()
    requires 0 <= c < d.numColumns && d.Model().Occupied(c)
    ensures w1 == w2 == d.Model().ForWin(c)
  {
    w1 := Board.Dense(d).CheckForWin(c);
    w2 := Board.Sparse(s).CheckForWin(c);
  }

  /** Both boards print the same text. */
  method SameText(d: GameBoard, s: GameBoardMem) returns (a: string, b: string)
    requires d.Valid() && s.Valid() && d.Model() == s.Model()
    ensures a == b == Render(d.Model())
  {
    a := ToString(Board.Dense(d));
    b := ToString(Board.Sparse(s));
  }

  /**
   * The dense board's overrides of checkTie and the three scans answer exactly as the
   * contract's default algorithms do on the same board.
   */
  method OverridesMatchDefaults(d: GameBoard, pos: BoardPosition, p: char)
    returns (t1: bool, t2: bool, h1: bool, h2: bool, v1: bool, v2: bool, g1: bool, g2: bool)
    requires d.Valid() && d.Model().InBounds(pos.row, pos.column) && p != EMPTY
    ensures t1 == t2 == d.Model().Tie()
    ensures h1 == h2 == d.Model().HorizWin(pos.row, pos.column, p)
    ensures v1 == v2 == d.Model().VertWin(pos.row, pos.column, p)
    ensures g1 == g2 == d.Model().DiagWin(pos.row, pos.column, p)
  {
    var b := Board.Dense(d);
    t1 := d.CheckTie();
    t2 := b.DefaultCheckTie();
    h1 := d.CheckHorizWin(pos, p);
    h2 := b.DefaultCheckHorizWin(pos, p);
    v1 := d.CheckVertWin(pos, p);
    v2 := b.DefaultCheckVertWin(pos, p);
    g1 := d.CheckDiagWin(pos, p);
    g2 := b.DefaultCheckDiagWin(pos, p);
  }
}
