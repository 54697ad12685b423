/**
 * Short games on a 4 x 4 board where 3 in a row wins, replayed on the abstract board.
 */
module Scenarios {
  import opened Positions
  import opened Rules

  function Start(): State
  {
    EmptyBoard(4, 4, 3)
  }

  /** Three moves replayed are three drops, one after the other. */
  lemma ReplayThree(s: State, m1: Move, m2: Move, m3: Move)
    requires s.Wf()
    requires m1.token != EMPTY && 0 <= m1.column < s.cols
    requires m2.token != EMPTY && 0 <= m2.column < s.cols
    requires m3.token != EMPTY && 0 <= m3.column < s.cols
    ensures ValidMoves(s.cols, [m1, m2, m3])
    ensures Replay(s, [m1, m2, m3]) ==
      s.Drop(m1.token, m1.column).Drop(m2.token, m2.column).Drop(m3.token, m3.column)
  {
    var one, two, three := [m1], [m1, m2], [m1, m2, m3];
    assert ValidMoves(s.cols, three);
    assert three[..2] == two && two[..1] == one && one[..0] == [];
    assert Replay(s, one) == s.Drop(m1.token, m1.column);
  }

  /** A drop landing at (r, c) writes p there and leaves every other cell as it was. */
  lemma DropCell(s: State, p: char, c: int, r: int)
    requires s.Shaped() && 0 <= c < s.cols && 0 <= r < s.rows
    requires s.grid[r][c] == EMPTY && forall i :: 0 <= i < r ==> s.grid[i][c] != EMPTY
    ensures s.Drop(p, c).grid[r][c] == p
    ensures forall r', c' :: s.InBounds(r', c') && (r' != r || c' != c) ==> s.Drop(p, c).grid[r'][c'] == s.grid[r'][c']
  {
    FirstEmptyIsLowest(s, c, r);
  }

  /** Three real tokens dropped into column 0 of the empty board stack up from row 0. */
  lemma ThreeInColumnZero(a: char, b: char, t: char)
    requires a != EMPTY && b != EMPTY && t != EMPTY
    ensures var s := Replay(Start(), [Move(a, 0), Move(b, 0), Move(t, 0)]);
      s.grid[0][0] == a && s.grid[1][0] == b && s.grid[2][0] == t && s.grid[3][0] == EMPTY &&
      forall r, c :: 0 <= r < 4 && 1 <= c < 4 ==> s.grid[r][c] == EMPTY
  {
    var s0 := Start();
    var s1 := s0.Drop(a, 0);
    var s2 := s1.Drop(b, 0);
    DropCell(s0, a, 0, 0);
    DropCell(s1, b, 0, 1);
    DropCell(s2, t, 0, 2);
    ReplayThree(s0, Move(a, 0), Move(b, 0), Move(t, 0));
  }

  /** Three real tokens dropped into columns 0, 1 and 2 of the empty board fill the bottom row. */
  lemma ThreeOnBottomRow(a: char, b: char, t: char)
    requires a != EMPTY && b != EMPTY && t != EMPTY
    ensures var s := Replay(Start(), [Move(a, 0), Move(b, 1), Move(t, 2)]);
      s.grid[0][0] == a && s.grid[0][1] == b && s.grid[0][2] == t &&
      forall r, c :: 0 <= r < 4 && 0 <= c < 4 && (r > 0 || c == 3) ==> s.grid[r][c] == EMPTY
  {
    var s0 := Start();
    var s1 := s0.Drop(a, 0);
    var s2 := s1.Drop(b, 1);
    DropCell(s0, a, 0, 0);
    DropCell(s1, b, 1, 0);
    DropCell(s2, t, 2, 0);
    ReplayThree(s0, Move(a, 0), Move(b, 1), Move(t, 2));
  }

  /** Three X dropped into column 0 stack up and win vertically. */
  lemma StackOfThreeWins()
    ensures var s := Replay(Start(), [Move('X', 0), Move('X', 0), Move('X', 0)]);
      s.Occupied(0) && s.HighestOccupied(0) == 2 && s.VertWin(2, 0, 'X') && s.ForWin(0)
  {
    ThreeInColumnZero('X', 'X', 'X');
    var s := Replay(Start(), [Move('X', 0), Move('X', 0), Move('X', 0)]);
    assert s.grid[2][0] != EMPTY;
    assert s.HighestOccupiedFrom(0, 3) == s.HighestOccupiedFrom(0, 2) == 2;
    RunFromStep(s, 2, 0, 1, 0, 'X', 1);
    RunFromStep(s, 2, 0, -1, 0, 'X', 1);
    RunFromStep(s, 2, 0, -1, 0, 'X', 2);
    RunFromStep(s, 2, 0, -1, 0, 'X', 3);
  }

  /** X, X and then O in column 0: the O on top does not win. */
  lemma InterruptedStackDoesNotWin()
    ensures var s := Replay(Start(), [Move('X', 0), Move('X', 0), Move('O', 0)]);
      s.Occupied(0) && s.HighestOccupied(0) == 2 && !s.ForWin(0)
  {
    ThreeInColumnZero('X', 'X', 'O');
    var s := Replay(Start(), [Move('X', 0), Move('X', 0), Move('O', 0)]);
    assert s.grid[2][0] != EMPTY;
    assert s.HighestOccupiedFrom(0, 3) == s.HighestOccupiedFrom(0, 2) == 2;
    RunFromStep(s, 2, 0, 0, 1, 'O', 1);
    RunFromStep(s, 2, 0, 0, -1, 'O', 1);
    RunFromStep(s, 2, 0, 1, 0, 'O', 1);
    RunFromStep(s, 2, 0, -1, 0, 'O', 1);
    RunFromStep(s, 2, 0, 1, 1, 'O', 1);
    RunFromStep(s, 2, 0, -1, -1, 'O', 1);
    RunFromStep(s, 2, 0, 1, -1, 'O', 1);
    RunFromStep(s, 2, 0, -1, 1, 'O', 1);
  }

  /** X in columns 0, 1 and 2 of the bottom row: the last drop wins horizontally. */
  lemma BottomRowWins()
    ensures var s := Replay(Start(), [Move('X', 0), Move('X', 1), Move('X', 2)]);
      s.Occupied(2) && s.HighestOccupied(2) == 0 && s.HorizWin(0, 2, 'X') && s.ForWin(2)
  {
    ThreeOnBottomRow('X', 'X', 'X');
    var s := Replay(Start(), [Move('X', 0), Move('X', 1), Move('X', 2)]);
    assert s.grid[0][2] != EMPTY;
    assert s.HighestOccupiedFrom(2, 3) == s.HighestOccupiedFrom(2, 0) == 0;
    RunFromStep(s, 0, 2, 0, 1, 'X', 1);
    RunFromStep(s, 0, 2, 0, -1, 'X', 1);
    RunFromStep(s, 0, 2, 0, -1, 'X', 2);
    RunFromStep(s, 0, 2, 0, -1, 'X', 3);
  }
}
