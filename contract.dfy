/**
 * The board contract as the program uses it: either storage strategy behind one interface.
 * The methods here are the contract's default algorithms, written once against the primitive
 * queries; each strategy's overrides are dispatched to exactly where that strategy has one
 * (the dense board overrides checkTie and the three scans, the sparse board isPlayerAtPos).
 */
module Contract {
  import opened Positions
  import opened Rules
  import opened DenseBoard
  import opened SparseBoard

  datatype Board = Dense(dense: GameBoard) | Sparse(sparse: GameBoardMem) {

    function Obj(): object
    {
      match this
      case Dense(d) => d
      case Sparse(s) => s
    }

    ghost function Repr(): set<object>
      reads Obj()
    {
      match this
      case Dense(d) => {d, d.board}
      case Sparse(s) => {s}
    }

    ghost predicate Valid()
      reads Obj(), Repr()
    {
      match this
      case Dense(d) => d.Valid()
      case Sparse(s) => s.Valid()
    }

    ghost function Model(): State
      reads Obj()
    {
      match this
      case Dense(d) => d.Model()
      case Sparse(s) => s.Model()
    }

    function GetNumRows(): (n: int)
      reads Obj()
      ensures n == Model().rows
    {
      match this
      case Dense(d) => d.GetNumRows()
      case Sparse(s) => s.GetNumRows()
    }

    function GetNumColumns(): (n: int)
      reads Obj()
      ensures n == Model().cols
    {
      match this
      case Dense(d) => d.GetNumColumns()
      case Sparse(s) => s.GetNumColumns()
    }

    function GetNumToWin(): (n: int)
      reads Obj()
      ensures n == Model().win
    {
      match this
      case Dense(d) => d.GetNumToWin()
      case Sparse(s) => s.GetNumToWin()
    }

    method PlaceToken(p: char, c: int)
      requires Valid() && 0 <= c < GetNumColumns() && p != EMPTY
      modifies Repr()
      ensures Valid()
      ensures Model() == old(Model()).Drop(p, c)
    {
      match this
      case Dense(d) => d.PlaceToken(p, c);
      case Sparse(s) => s.PlaceToken(p, c);
    }

    method WhatsAtPos(pos: BoardPosition) returns (t: char)
      requires Valid() && Model().InBounds(pos.row, pos.column)
      ensures t == Model().At(pos)
    {
      match this
      case Dense(d) => t := d.WhatsAtPos(pos);
      case Sparse(s) => t := s.WhatsAtPos(pos);
    }

    /** The default isPlayerAtPos: does whatsAtPos give p. */
    method DefaultIsPlayerAtPos(pos: BoardPosition, p: char) returns (b: bool)
      requires Valid() && Model().InBounds(pos.row, pos.column)
      ensures b == (Model().At(pos) == p)
    {
      var t := WhatsAtPos(pos);
      b := t == p;
    }

    /**
     * isPlayerAtPos as each strategy answers it. The sparse override never reports EMPTY as a
     * player, so the two agree for every real token.
     */
    method IsPlayerAtPos(pos: BoardPosition, p: char) returns (b: bool)
      requires Valid() && Model().InBounds(pos.row, pos.column)
      ensures p != EMPTY ==> b == (Model().At(pos) == p)
      ensures Dense? ==> b == (Model().At(pos) == p)
      ensures Sparse? && p == EMPTY ==> !b
    {
      match this
      case Dense(_) => b := DefaultIsPlayerAtPos(pos, p);
      case Sparse(s) => b := s.IsPlayerAtPos(pos, p);
    }

    /** checkIfFree: is the top cell of column c empty. */
    method CheckIfFree(c: int) returns (free: bool)
      requires Valid() && 0 <= c < GetNumColumns()
      ensures free == Model().Free(c)
    {
      var t := WhatsAtPos(BoardPosition(GetNumRows() - 1, c));
      free := t == EMPTY;
    }

    /** The default checkTie: every cell of the top row, read through whatsAtPos. */
    method DefaultCheckTie() returns (tie: bool)
      requires Valid()
      ensures tie == Model().Tie()
    {
      var row := GetNumRows() - 1;
      var column := 0;
      while column < GetNumColumns()
        invariant 0 <= column <= Model().cols
        invariant forall c :: 0 <= c < column ==> Model().TopRow()[c] != EMPTY
      {
        var t := WhatsAtPos(BoardPosition(row, column));
        if t == EMPTY {
          assert Model().TopRow()[column] == EMPTY;
          return false;
        }
        column := column + 1;
      }
      return true;
    }

    method CheckTie() returns (tie: bool)
      requires Valid()
      ensures tie == Model().Tie()
    {
      match this
      case Dense(d) => tie := d.CheckTie();
      case Sparse(_) => tie := DefaultCheckTie();
    }

    /**
     * The guard of a default scan loop: the cell k steps from (r, c) along (dr, dc) is on
     * the board and isPlayerAtPos says p is there; the board test comes first.
     */
    method DefaultProbe(r: int, c: int, dr: int, dc: int, p: char, k: int) returns (b: bool)
      requires Valid() && p != EMPTY
      ensures b == Model().Holds(r, c, dr, dc, p, k)
    {
      b := false;
      if 0 <= Off(r, dr, k) < GetNumRows() && 0 <= Off(c, dc, k) < GetNumColumns() {
        b := IsPlayerAtPos(BoardPosition(Off(r, dr, k), Off(c, dc, k)), p);
      }
    }

    /**
     * One direction of the default run-length scan: how many consecutive cells for which
     * isPlayerAtPos(_, p) holds follow (r, c) along (dr, dc) before the board edge.
     */
    method DefaultScan(r: int, c: int, dr: int, dc: int, p: char) returns (n: int)
      requires Valid() && Model().InBounds(r, c) && IsDir(dr, dc) && p != EMPTY
      ensures n == Model().RunFrom(r, c, dr, dc, p, 1)
    {
      ghost var s := Model();
      ghost var total := s.RunFrom(r, c, dr, dc, p, 1);
      n := 0;
      var shift := 1;
      var more := DefaultProbe(r, c, dr, dc, p, shift);
      while more
        invariant n >= 0 && shift >= 1
        invariant more == s.Holds(r, c, dr, dc, p, shift)
        invariant total == n + s.RunFrom(r, c, dr, dc, p, shift)
        decreases s.rows + s.cols - shift
      {
        ghost var n0, shift0 := n, shift;
        n := n + 1;
        shift := shift + 1;
        ScanStep(s, r, c, dr, dc, p, n0, shift0, n, shift, total);
        more := DefaultProbe(r, c, dr, dc, p, shift);
      }
      ScanEnd(s, r, c, dr, dc, p, n, shift, total);
    }

    /** The default checkHorizWin: to the right, then to the left. */
    method DefaultCheckHorizWin(pos: BoardPosition, p: char) returns (w: bool)
      requires Valid() && Model().InBounds(pos.row, pos.column) && p != EMPTY
      ensures w == Model().HorizWin(pos.row, pos.column, p)
    {
      var right := DefaultScan(pos.GetRow(), pos.GetColumn(), 0, 1, p);
      var left := DefaultScan(pos.GetRow(), pos.GetColumn(), 0, -1, p);
      var inRow := 1 + right + left;
      w := inRow >= GetNumToWin();
    }

    /** The default checkVertWin: upwards, then downwards. */
    method DefaultCheckVertWin(pos: BoardPosition, p: char) returns (w: bool)
      requires Valid() && Model().InBounds(pos.row, pos.column) && p != EMPTY
      ensures w == Model().VertWin(pos.row, pos.column, p)
    {
      var up := DefaultScan(pos.GetRow(), pos.GetColumn(), 1, 0, p);
      var down := DefaultScan(pos.GetRow(), pos.GetColumn(), -1, 0, p);
      var inRow := 1 + up + down;
      w := inRow >= GetNumToWin();
    }

    /** The default checkDiagWin: the rising diagonal, then, counting afresh, the falling one. */
    method DefaultCheckDiagWin(pos: BoardPosition, p: char) returns (w: bool)
      requires Valid() && Model().InBounds(pos.row, pos.column) && p != EMPTY
      ensures w == Model().DiagWin(pos.row, pos.column, p)
    {
      var upRight := DefaultScan(pos.GetRow(), pos.GetColumn(), 1, 1, p);
      var downLeft := DefaultScan(pos.GetRow(), pos.GetColumn(), -1, -1, p);
      var inRow := 1 + upRight + downLeft;
      if inRow >= GetNumToWin() {
        return true;
      }
      var upLeft := DefaultScan(pos.GetRow(), pos.GetColumn(), 1, -1, p);
      var downRight := DefaultScan(pos.GetRow(), pos.GetColumn(), -1, 1, p);
      inRow := 1 + upLeft + downRight;
      w := inRow >= GetNumToWin();
    }

    method CheckHorizWin(pos: BoardPosition, p: char) returns (w: bool)
      requires Valid() && Model().InBounds(pos.row, pos.column) && p != EMPTY
      ensures w == Model().HorizWin(pos.row, pos.column, p)
    {
      match this
      case Dense(d) => w := d.CheckHorizWin(pos, p);
      case Sparse(_) => w := DefaultCheckHorizWin(pos, p);
    }

    method CheckVertWin(pos: BoardPosition, p: char) returns (w: bool)
      requires Valid() && Model().InBounds(pos.row, pos.column) && p != EMPTY
      ensures w == Model().VertWin(pos.row, pos.column, p)
    {
      match this
      case Dense(d) => w := d.CheckVertWin(pos, p);
      case Sparse(_) => w := DefaultCheckVertWin(pos, p);
    }

    method CheckDiagWin(pos: BoardPosition, p: char) returns (w: bool)
      requires Valid() && Model().InBounds(pos.row, pos.column) && p != EMPTY
      ensures w == Model().DiagWin(pos.row, pos.column, p)
    {
      match this
      case Dense(d) => w := d.CheckDiagWin(pos, p);
      case Sparse(_) => w := DefaultCheckDiagWin(pos, p);
    }

    /**
     * checkForWin: walk down column c from the top to its highest occupied cell, then run the
     * horizontal, vertical and diagonal checks from there for the token found in it.
     */
    method CheckForWin(c: int) returns (w: bool)
      requires Valid() && 0 <= c < GetNumColumns() && Model().Occupied(c)
      ensures w == Model().ForWin(c)
    {
      ghost var s := Model();
      var row := GetNumRows() - 1;
      while row >= 0
        invariant -1 <= row < s.rows
        invariant s.HighestOccupied(c) == s.HighestOccupiedFrom(c, row)
        decreases row
      {
        var t := WhatsAtPos(BoardPosition(row, c));
        if t != EMPTY {
          HighestStopsAtToken(s, c, row);
          break;
        }
        ghost var row0 := row;
        row := row - 1;
        HighestSkipsEmpty(s, c, row0, row);
      }
      OccupiedHasHighest(s, c);
      assert row == s.HighestOccupied(c);
      var testPosition := BoardPosition(row, c);
      var p := WhatsAtPos(testPosition);
      w := CheckHorizWin(testPosition, p);
      if w {
        return true;
      }
      w := CheckVertWin(testPosition, p);
      if w {
        return true;
      }
      w := CheckDiagWin(testPosition, p);
    }
  }
}
