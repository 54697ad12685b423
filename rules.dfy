/**
 * The abstract Connect-X board that every storage strategy must present, and the game
 * rules stated on it: gravity placement, tie detection on the top row, and the
 * pivot-centred two-way run-length scans that decide a win.
 */
module Rules {
  import opened Positions

  /** The cell content that means "no token here". */
  const EMPTY: char := ' '

  /** The construction bounds: 3..100 rows and columns, 3..25 to win, win below both sizes. */
  predicate ValidDims(rows: int, cols: int, win: int)
  {
    3 <= rows <= 100 && 3 <= cols <= 100 && 3 <= win <= 25 && win < rows && win < cols
  }

  /** Cell offset along one axis: k steps in direction d (d is -1, 0 or 1). */
  function Off(x: int, d: int, k: int): int
  {
    if d > 0 then x + k else if d < 0 then x - k else x
  }

  /** (dr, dc) is one of the eight compass directions. */
  predicate IsDir(dr: int, dc: int)
  {
    -1 <= dr <= 1 && -1 <= dc <= 1 && (dr != 0 || dc != 0)
  }

  /** One placement: a token dropped into a column. */
  datatype Move = Move(token: char, column: int)

  predicate ValidMoves(cols: int, moves: seq<Move>)
  {
    forall i :: 0 <= i < |moves| ==> moves[i].token != EMPTY && 0 <= moves[i].column < cols
  }

  /** rows x cols cells, row 0 at the bottom; grid[r][c] is the cell at row r, column c. */
  datatype State = State(rows: int, cols: int, win: int, grid: seq<seq<char>>) {

    predicate Shaped()
    {
      rows >= 0 && cols >= 0 && |grid| == rows && forall r :: 0 <= r < rows ==> |grid[r]| == cols
    }

    predicate Wf()
    {
      ValidDims(rows, cols, win) && Shaped()
    }

    predicate InBounds(r: int, c: int)
    {
      0 <= r < rows && 0 <= c < cols
    }

    /** No empty cell lies below an occupied cell of the same column. */
    predicate Gravity()
      requires Shaped()
    {
      forall r, r', c :: 0 <= r < r' < rows && 0 <= c < cols && grid[r'][c] != EMPTY ==> grid[r][c] != EMPTY
    }

    function At(pos: BoardPosition): char
      requires Shaped() && InBounds(pos.row, pos.column)
    {
      grid[pos.row][pos.column]
    }

    // ------------------------------------------------------------ run-length scans

    /** The cell k steps from (r, c) along (dr, dc) is on the board and holds p. */
    predicate Holds(r: int, c: int, dr: int, dc: int, p: char, k: int)
      requires Shaped()
    {
      InBounds(Off(r, dr, k), Off(c, dc, k)) && grid[Off(r, dr, k)][Off(c, dc, k)] == p
    }

    /** The number of consecutive p cells at steps k, k+1, ... from (r, c) along (dr, dc). */
    function RunFrom(r: int, c: int, dr: int, dc: int, p: char, k: nat): nat
      requires Shaped() && InBounds(r, c) && IsDir(dr, dc)
      decreases rows + cols - k
    {
      if Holds(r, c, dr, dc, p, k) then 1 + RunFrom(r, c, dr, dc, p, k + 1) else 0
    }

    /** The scan's total: the pivot itself plus the runs on both sides of it. */
    function Count(r: int, c: int, dr: int, dc: int, p: char): nat
      requires Shaped() && InBounds(r, c) && IsDir(dr, dc)
    {
      1 + RunFrom(r, c, dr, dc, p, 1) + RunFrom(r, c, -dr, -dc, p, 1)
    }

    /** checkHorizWin: along the row, right then left. */
    predicate HorizWin(r: int, c: int, p: char)
      requires Shaped() && InBounds(r, c)
    {
      Count(r, c, 0, 1, p) >= win
    }

    /** checkVertWin: along the column, up then down. */
    predicate VertWin(r: int, c: int, p: char)
      requires Shaped() && InBounds(r, c)
    {
      Count(r, c, 1, 0, p) >= win
    }

    /** checkDiagWin: the rising and the falling diagonal, each counted on its own. */
    predicate DiagWin(r: int, c: int, p: char)
      requires Shaped() && InBounds(r, c)
    {
      Count(r, c, 1, 1, p) >= win || Count(r, c, 1, -1, p) >= win
    }

    // ------------------------------------------------------------ columns

    /** The lowest empty row of column c at or above row k; rows when there is none. */
    function LowestEmptyFrom(c: int, k: nat): (r: nat)
      requires Shaped() && 0 <= c < cols && k <= rows
      ensures k <= r <= rows
      ensures r < rows ==> grid[r][c] == EMPTY
      ensures forall i :: k <= i < r ==> grid[i][c] != EMPTY
      decreases rows - k
    {
      if k == rows then rows else if grid[k][c] == EMPTY then k else LowestEmptyFrom(c, k + 1)
    }

    function LowestEmpty(c: int): nat
      requires Shaped() && 0 <= c < cols
    {
      LowestEmptyFrom(c, 0)
    }

    /** The highest occupied row of column c at or below row k; -1 when there is none. */
    function HighestOccupiedFrom(c: int, k: int): (r: int)
      requires Shaped() && 0 <= c < cols && -1 <= k < rows
      ensures -1 <= r <= k
      ensures r >= 0 ==> grid[r][c] != EMPTY
      ensures forall i :: r < i <= k ==> grid[i][c] == EMPTY
      decreases k + 1
    {
      if k < 0 then -1 else if grid[k][c] != EMPTY then k else HighestOccupiedFrom(c, k - 1)
    }

    function HighestOccupied(c: int): int
      requires Shaped() && 0 <= c < cols
    {
      HighestOccupiedFrom(c, rows - 1)
    }

    /** checkIfFree: the top cell of column c is empty. */
    predicate Free(c: int)
      requires Shaped() && 0 <= c < cols && rows >= 1
    {
      grid[rows - 1][c] == EMPTY
    }

    /** placeToken: p fills the lowest empty cell of c; a full column is left as it is. */
    function Drop(p: char, c: int): (s: State)
      requires Shaped() && 0 <= c < cols
      ensures s.Shaped() && s.rows == rows && s.cols == cols && s.win == win
      ensures Wf() ==> s.Wf()
    {
      var r := LowestEmpty(c);
      if r == rows then this else this.(grid := grid[r := grid[r][c := p]])
    }

    function TopRow(): seq<char>
      requires Shaped() && rows >= 1
    {
      grid[rows - 1]
    }

    /** checkTie: no cell of the top row is empty. */
    predicate Tie()
      requires Shaped() && rows >= 1
    {
      forall c :: 0 <= c < cols ==> TopRow()[c] != EMPTY
    }

    predicate Full()
      requires Shaped()
    {
      forall r, c :: 0 <= r < rows && 0 <= c < cols ==> grid[r][c] != EMPTY
    }

    predicate Occupied(c: int)
      requires Shaped() && 0 <= c < cols
    {
      exists r :: 0 <= r < rows && grid[r][c] != EMPTY
    }

    /** checkForWin: scan from the highest occupied cell of c with the token found there. */
    predicate ForWin(c: int)
      requires Shaped() && 0 <= c < cols && Occupied(c)
    {
      var r := HighestOccupied(c);
      var p := grid[r][c];
      HorizWin(r, c, p) || VertWin(r, c, p) || DiagWin(r, c, p)
    }

    // ------------------------------------------------------------ reference: winning lines

    /** Every cell at signed steps a..b (pivot at 0) along (dr, dc) is on the board and holds p. */
    predicate Window(r: int, c: int, dr: int, dc: int, p: char, a: int, b: int)
      requires Shaped()
    {
      a <= 0 <= b && b - a + 1 >= win && forall i :: a <= i <= b ==> Holds(r, c, dr, dc, p, i)
    }

    /** There are win cells in line through (r, c) along (dr, dc) all holding p. */
    ghost predicate LineThrough(r: int, c: int, dr: int, dc: int, p: char)
      requires Shaped()
    {
      exists a, b :: Window(r, c, dr, dc, p, a, b)
    }

    /** p has win in a row through (r, c) horizontally, vertically or on a diagonal. */
    ghost predicate WinningLine(r: int, c: int, p: char)
      requires Shaped()
    {
      LineThrough(r, c, 0, 1, p) || LineThrough(r, c, 1, 0, p) ||
      LineThrough(r, c, 1, 1, p) || LineThrough(r, c, 1, -1, p)
    }

    /** Some token on the board has win in a row through its own cell: someone has won. */
    ghost predicate AnyWin()
      requires Shaped()
    {
      exists r, c :: InBounds(r, c) && grid[r][c] != EMPTY && WinningLine(r, c, grid[r][c])
    }
  }

  /** A board of the given size with every cell empty. */
  function EmptyBoard(rows: int, cols: int, win: int): (s: State)
    requires ValidDims(rows, cols, win)
    ensures s.Wf() && s.rows == rows && s.cols == cols && s.win == win
    ensures forall r, c :: 0 <= r < rows && 0 <= c < cols ==> s.grid[r][c] == EMPTY
  {
    State(rows, cols, win, seq(rows, _ => seq(cols, _ => EMPTY)))
  }

  /** The board after the moves are played, in order, from s. */
  function Replay(s: State, moves: seq<Move>): (t: State)
    requires s.Wf() && ValidMoves(s.cols, moves)
    ensures t.Wf() && t.rows == s.rows && t.cols == s.cols && t.win == s.win
    decreases |moves|
  {
    if moves == [] then s
    else
      var last := moves[|moves| - 1];
      assert ValidMoves(s.cols, moves[..|moves| - 1]);
      Replay(s, moves[..|moves| - 1]).Drop(last.token, last.column)
  }

  // ================================================================ lemmas: scans

  /** One step of a scan: a cell holding p adds one to the run, any other ends it. */
  lemma RunFromStep(s: State, r: int, c: int, dr: int, dc: int, p: char, k: nat)
    requires s.Shaped() && s.InBounds(r, c) && IsDir(dr, dc)
    ensures s.Holds(r, c, dr, dc, p, k) ==> s.RunFrom(r, c, dr, dc, p, k) == 1 + s.RunFrom(r, c, dr, dc, p, k + 1)
    ensures !s.Holds(r, c, dr, dc, p, k) ==> s.RunFrom(r, c, dr, dc, p, k) == 0
  {
  }

  /** A cell k >= 0 steps along a direction that is still on the board is fewer than rows + cols steps away. */
  lemma HoldsIsNear(s: State, r: int, c: int, dr: int, dc: int, p: char, k: int)
    requires s.Shaped() && s.InBounds(r, c) && IsDir(dr, dc) && k >= 0 && s.Holds(r, c, dr, dc, p, k)
    ensures k < s.rows + s.cols
  {
  }

  /**
   * One more cell of the run seen at step shift: the count n and the step both advance by one,
   * and what is left of the run shrinks by one.
   */
  lemma ScanStep(s: State, r: int, c: int, dr: int, dc: int, p: char,
                 n: nat, shift: nat, n': nat, shift': nat, total: nat)
    requires s.Shaped() && s.InBounds(r, c) && IsDir(dr, dc)
    requires n' == n + 1 && shift' == shift + 1
    requires s.Holds(r, c, dr, dc, p, shift) && total == n + s.RunFrom(r, c, dr, dc, p, shift)
    ensures total == n' + s.RunFrom(r, c, dr, dc, p, shift')
    ensures shift < s.rows + s.cols
  {
    RunFromStep(s, r, c, dr, dc, p, shift);
    HoldsIsNear(s, r, c, dr, dc, p, shift);
  }

  /** The first cell off the run ends the scan with the whole run counted. */
  lemma ScanEnd(s: State, r: int, c: int, dr: int, dc: int, p: char, n: nat, shift: nat, total: nat)
    requires s.Shaped() && s.InBounds(r, c) && IsDir(dr, dc)
    requires !s.Holds(r, c, dr, dc, p, shift) && total == n + s.RunFrom(r, c, dr, dc, p, shift)
    ensures total == n
  {
    RunFromStep(s, r, c, dr, dc, p, shift);
  }

  /** RunFrom is the length of the maximal run: all cells in it hold p, the next one does not. */
  lemma {:induction false} RunFromIsMaximal(s: State, r: int, c: int, dr: int, dc: int, p: char, k: nat)
    requires s.Shaped() && s.InBounds(r, c) && IsDir(dr, dc)
    ensures forall i :: k <= i < k + s.RunFrom(r, c, dr, dc, p, k) ==> s.Holds(r, c, dr, dc, p, i)
    ensures !s.Holds(r, c, dr, dc, p, k + s.RunFrom(r, c, dr, dc, p, k))
    decreases s.rows + s.cols - k
  {
    if s.Holds(r, c, dr, dc, p, k) {
      RunFromIsMaximal(s, r, c, dr, dc, p, k + 1);
    }
  }

  /** If n cells from step k on all hold p, the run from k is at least n long. */
  lemma {:induction false} RunFromAtLeast(s: State, r: int, c: int, dr: int, dc: int, p: char, k: nat, n: nat)
    requires s.Shaped() && s.InBounds(r, c) && IsDir(dr, dc)
    requires forall i :: k <= i < k + n ==> s.Holds(r, c, dr, dc, p, i)
    ensures s.RunFrom(r, c, dr, dc, p, k) >= n
    decreases n
  {
    if n > 0 {
      assert s.Holds(r, c, dr, dc, p, k);
      RunFromAtLeast(s, r, c, dr, dc, p, k + 1, n - 1);
    }
  }

  /** A step backwards along (dr, dc) is a step forwards along (-dr, -dc). */
  lemma HoldsReversed(s: State, r: int, c: int, dr: int, dc: int, p: char, k: int)
    requires s.Shaped()
    ensures s.Holds(r, c, -dr, -dc, p, k) == s.Holds(r, c, dr, dc, p, -k)
  {
    assert Off(r, -dr, k) == Off(r, dr, -k);
    assert Off(c, -dc, k) == Off(c, dc, -k);
  }

  /**
   * The two-way scan from a pivot holding p reaches win exactly when some line of win
   * cells through the pivot along that axis holds p throughout.
   */
  lemma CountReachesWinIffLine(s: State, r: int, c: int, dr: int, dc: int, p: char)
    requires s.Shaped() && s.InBounds(r, c) && IsDir(dr, dc) && s.grid[r][c] == p
    ensures s.Count(r, c, dr, dc, p) >= s.win <==> s.LineThrough(r, c, dr, dc, p)
  {
    var ndr, ndc := -dr, -dc;
    var fwd: int := s.RunFrom(r, c, dr, dc, p, 1);
    var bwd: int := s.RunFrom(r, c, ndr, ndc, p, 1);
    RunFromIsMaximal(s, r, c, dr, dc, p, 1);
    RunFromIsMaximal(s, r, c, ndr, ndc, p, 1);
    assert Off(r, dr, 0) == r && Off(c, dc, 0) == c;
    if s.Count(r, c, dr, dc, p) >= s.win {
      forall i | -bwd <= i <= fwd
        ensures s.Holds(r, c, dr, dc, p, i)
      {
        if i < 0 {
          HoldsReversed(s, r, c, dr, dc, p, -i);
        }
      }
      assert s.Window(r, c, dr, dc, p, -bwd, fwd);
    }
    if s.LineThrough(r, c, dr, dc, p) {
      var a, b :| s.Window(r, c, dr, dc, p, a, b);
      RunFromAtLeast(s, r, c, dr, dc, p, 1, b);
      forall i | 1 <= i < 1 - a
        ensures s.Holds(r, c, ndr, ndc, p, i)
      {
        HoldsReversed(s, r, c, dr, dc, p, i);
      }
      RunFromAtLeast(s, r, c, ndr, ndc, p, 1, -a);
    }
  }

  /**
   * checkForWin is true exactly when the token in the highest occupied cell of c has
   * win in a row through that cell along one of the four axes.
   */
  lemma ForWinIffWinningLine(s: State, c: int)
    requires s.Shaped() && 0 <= c < s.cols && s.Occupied(c)
    ensures s.HighestOccupied(c) >= 0
    ensures s.ForWin(c) <==> s.WinningLine(s.HighestOccupied(c), c, s.grid[s.HighestOccupied(c)][c])
  {
    var r := s.HighestOccupied(c);
    var p := s.grid[r][c];
    CountReachesWinIffLine(s, r, c, 0, 1, p);
    CountReachesWinIffLine(s, r, c, 1, 0, p);
    CountReachesWinIffLine(s, r, c, 1, 1, p);
    CountReachesWinIffLine(s, r, c, 1, -1, p);
  }

  /** k steps and then i more along the same direction are k + i steps. */
  lemma OffShift(x: int, d: int, k: int, i: int)
    ensures Off(Off(x, d, k), d, i) == Off(x, d, k + i)
  {
  }

  /** A window seen from its cell at step i is the same window, its steps shifted by -i. */
  lemma WindowRecentre(s: State, r: int, c: int, dr: int, dc: int, p: char, a: int, b: int, i: int)
    requires s.Shaped() && s.Window(r, c, dr, dc, p, a, b) && a <= i <= b
    ensures s.Window(Off(r, dr, i), Off(c, dc, i), dr, dc, p, a - i, b - i)
  {
    forall j | a - i <= j <= b - i
      ensures s.Holds(Off(r, dr, i), Off(c, dc, i), dr, dc, p, j)
    {
      OffShift(r, dr, i, j);
      OffShift(c, dc, i, j);
      assert s.Holds(r, c, dr, dc, p, i + j);
    }
  }

  /**
   * A line of q after p is dropped into c either was there before the drop, or passes through
   * the cell just filled, and then it is a line of p through that cell.
   */
  lemma LineAfterDrop(s: State, p: char, c: int, r0: int, c0: int, dr: int, dc: int, q: char)
    requires s.Wf() && s.Gravity() && 0 <= c < s.cols && s.Free(c)
    requires s.Drop(p, c).LineThrough(r0, c0, dr, dc, q)
    ensures s.LineThrough(r0, c0, dr, dc, q) || s.Drop(p, c).LineThrough(s.LowestEmpty(c), c, dr, dc, p)
  {
    var t := s.Drop(p, c);
    var k := s.LowestEmpty(c);
    DropFillsLowestEmpty(s, p, c);
    var a, b :| t.Window(r0, c0, dr, dc, q, a, b);
    if i :| a <= i <= b && Off(r0, dr, i) == k && Off(c0, dc, i) == c {
      WindowRecentre(t, r0, c0, dr, dc, q, a, b, i);
      assert t.Holds(k, c, dr, dc, q, 0);
      assert t.Window(k, c, dr, dc, p, a - i, b - i);
    } else {
      forall j | a <= j <= b
        ensures s.Holds(r0, c0, dr, dc, q, j)
      {
        assert t.Holds(r0, c0, dr, dc, q, j);
      }
      assert s.Window(r0, c0, dr, dc, q, a, b);
    }
  }

  /**
   * Any new win passes through the last token placed: on a board where nobody has won yet,
   * checkForWin on the column just played is true exactly when somebody now has win in a row.
   */
  lemma NewWinThroughPivot(s: State, p: char, c: int)
    requires s.Wf() && s.Gravity() && 0 <= c < s.cols && s.Free(c) && p != EMPTY && !s.AnyWin()
    ensures s.Drop(p, c).Occupied(c)
    ensures s.Drop(p, c).ForWin(c) <==> s.Drop(p, c).AnyWin()
  {
    var t := s.Drop(p, c);
    var k := s.LowestEmpty(c);
    DropMakesPivot(s, p, c);
    ForWinIffWinningLine(t, c);
    if t.WinningLine(k, c, p) {
      assert t.InBounds(k, c) && t.grid[k][c] != EMPTY;
    }
    if t.AnyWin() {
      var r0, c0 :| t.InBounds(r0, c0) && t.grid[r0][c0] != EMPTY && t.WinningLine(r0, c0, t.grid[r0][c0]);
      var q := t.grid[r0][c0];
      if r0 != k || c0 != c {
        DropFillsLowestEmpty(s, p, c);
        assert s.grid[r0][c0] == q;
        if t.LineThrough(r0, c0, 0, 1, q) {
          LineAfterDrop(s, p, c, r0, c0, 0, 1, q);
        } else if t.LineThrough(r0, c0, 1, 0, q) {
          LineAfterDrop(s, p, c, r0, c0, 1, 0, q);
        } else if t.LineThrough(r0, c0, 1, 1, q) {
          LineAfterDrop(s, p, c, r0, c0, 1, 1, q);
        } else {
          LineAfterDrop(s, p, c, r0, c0, 1, -1, q);
        }
      }
    }
  }

  /** An empty cell at row k passes the search for the highest occupied cell on to row k - 1. */
  lemma HighestSkipsEmpty(s: State, c: int, k: int, k': int)
    requires s.Shaped() && 0 <= c < s.cols && 0 <= k < s.rows && k' == k - 1
    requires s.grid[k][c] == EMPTY
    ensures s.HighestOccupiedFrom(c, k) == s.HighestOccupiedFrom(c, k')
  {
  }

  /** An occupied cell at row k is the highest occupied cell at or below k. */
  lemma HighestStopsAtToken(s: State, c: int, k: int)
    requires s.Shaped() && 0 <= c < s.cols && 0 <= k < s.rows
    requires s.grid[k][c] != EMPTY
    ensures s.HighestOccupiedFrom(c, k) == k
  {
  }

  /** A column holding some token has a highest occupied cell. */
  lemma OccupiedHasHighest(s: State, c: int)
    requires s.Shaped() && 0 <= c < s.cols && s.Occupied(c)
    ensures 0 <= s.HighestOccupied(c) < s.rows
  {
  }

  // ================================================================ lemmas: gravity

  /** Under gravity, an empty cell has only empty cells above it. */
  lemma EmptyAbove(s: State, r: int, c: int, r': int)
    requires s.Shaped() && s.Gravity() && 0 <= r <= r' < s.rows && 0 <= c < s.cols
    requires s.grid[r][c] == EMPTY
    ensures s.grid[r'][c] == EMPTY
  {
  }

  /** Under gravity, checkIfFree(c) holds exactly when column c has an empty cell. */
  lemma FreeIffRoom(s: State, c: int)
    requires s.Wf() && s.Gravity() && 0 <= c < s.cols
    ensures s.Free(c) <==> s.LowestEmpty(c) < s.rows
    ensures s.Free(c) <==> exists r :: 0 <= r < s.rows && s.grid[r][c] == EMPTY
  {
    var k := s.LowestEmpty(c);
    if k < s.rows {
      EmptyAbove(s, k, c, s.rows - 1);
    }
  }

  /** Under gravity, checkTie holds exactly when no cell of the board is empty. */
  lemma TieIffFull(s: State)
    requires s.Wf() && s.Gravity()
    ensures s.Tie() <==> s.Full()
  {
    var top := s.TopRow();
    if s.Tie() {
      forall r, c | 0 <= r < s.rows && 0 <= c < s.cols
        ensures s.grid[r][c] != EMPTY
      {
        assert top[c] != EMPTY;
      }
    }
    if s.Full() {
      forall c | 0 <= c < s.cols
        ensures top[c] != EMPTY
      {
        assert s.grid[s.rows - 1][c] != EMPTY;
      }
    }
  }

  /**
   * The gravity law: on a free column c, placing p fills exactly the lowest empty cell of c,
   * every cell below it is occupied, and every other cell is unchanged.
   */
  lemma DropFillsLowestEmpty(s: State, p: char, c: int)
    requires s.Wf() && s.Gravity() && 0 <= c < s.cols && s.Free(c)
    ensures s.LowestEmpty(c) < s.rows
    ensures s.grid[s.LowestEmpty(c)][c] == EMPTY
    ensures forall i :: 0 <= i < s.LowestEmpty(c) ==> s.grid[i][c] != EMPTY
    ensures s.Drop(p, c).grid[s.LowestEmpty(c)][c] == p
    ensures forall r', c' :: s.InBounds(r', c') && (r' != s.LowestEmpty(c) || c' != c) ==>
              s.Drop(p, c).grid[r'][c'] == s.grid[r'][c']
  {
    FreeIffRoom(s, c);
  }

  /** On a full column, placing a token changes nothing. */
  lemma DropOnFullColumnIsNoOp(s: State, p: char, c: int)
    requires s.Wf() && s.Gravity() && 0 <= c < s.cols && !s.Free(c)
    ensures s.Drop(p, c) == s
  {
    FreeIffRoom(s, c);
  }

  /** Walking up column c, the first empty cell met is the lowest empty one. */
  lemma FirstEmptyIsLowest(s: State, c: int, r: int)
    requires s.Shaped() && 0 <= c < s.cols && 0 <= r < s.rows
    requires s.grid[r][c] == EMPTY && forall i :: 0 <= i < r ==> s.grid[i][c] != EMPTY
    ensures s.LowestEmpty(c) == r
  {
  }

  /** A column with no empty cell has no lowest empty cell. */
  lemma FilledColumnHasNoEmpty(s: State, c: int)
    requires s.Shaped() && 0 <= c < s.cols
    requires forall i :: 0 <= i < s.rows ==> s.grid[i][c] != EMPTY
    ensures s.LowestEmpty(c) == s.rows
  {
  }

  /** Placing a real token preserves the gravity invariant. */
  lemma DropKeepsGravity(s: State, p: char, c: int)
    requires s.Shaped() && s.Gravity() && 0 <= c < s.cols && p != EMPTY
    ensures s.Drop(p, c).Gravity()
  {
    var k := s.LowestEmpty(c);
    if k < s.rows {
      var t := s.Drop(p, c);
      forall r, r', c' | 0 <= r < r' < s.rows && 0 <= c' < s.cols && t.grid[r'][c'] != EMPTY
        ensures t.grid[r][c'] != EMPTY
      {
        if c' == c && r' > k {
          EmptyAbove(s, k, c, r');
        }
      }
    }
  }

  /**
   * After a token is dropped into a free column, the highest occupied cell of that column is
   * the one just filled and holds the token: checkForWin scans from the last move.
   */
  lemma DropMakesPivot(s: State, p: char, c: int)
    requires s.Wf() && s.Gravity() && 0 <= c < s.cols && s.Free(c) && p != EMPTY
    ensures s.Drop(p, c).Occupied(c)
    ensures s.Drop(p, c).HighestOccupied(c) == s.LowestEmpty(c)
    ensures s.Drop(p, c).grid[s.LowestEmpty(c)][c] == p
  {
    DropFillsLowestEmpty(s, p, c);
    var k := s.LowestEmpty(c);
    var t := s.Drop(p, c);
    forall i | k < i < s.rows
      ensures t.grid[i][c] == EMPTY
    {
      EmptyAbove(s, k, c, i);
    }
    var h := t.HighestOccupied(c);
    assert t.grid[k][c] != EMPTY;
  }

  /** Every board reached by playing real tokens from a gravity-respecting board respects gravity. */
  lemma {:induction false} ReplayKeepsGravity(s: State, moves: seq<Move>)
    requires s.Wf() && s.Gravity() && ValidMoves(s.cols, moves)
    ensures Replay(s, moves).Gravity()
    decreases |moves|
  {
    if moves != [] {
      var init := moves[..|moves| - 1];
      assert ValidMoves(s.cols, init);
      ReplayKeepsGravity(s, init);
      var last := moves[|moves| - 1];
      DropKeepsGravity(Replay(s, init), last.token, last.column);
    }
  }

  lemma EmptyBoardHasGravity(rows: int, cols: int, win: int)
    requires ValidDims(rows, cols, win)
    ensures EmptyBoard(rows, cols, win).Gravity()
    ensures !EmptyBoard(rows, cols, win).Tie()
  {
    var s := EmptyBoard(rows, cols, win);
    assert s.grid[rows - 1][0] == EMPTY;
    assert s.TopRow()[0] == EMPTY;
  }
}
