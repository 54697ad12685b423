/**
 * The sparse storage strategy: for each token, the list of positions it occupies, in play
 * order. Lookups scan the lists; only the cells actually played take up space.
 */
module SparseBoard {
  import opened Positions
  import opened Rules

  /**
   * m stands for the grid of s: every listed position is on the board and s holds its token
   * there; every occupied cell of s is listed under its token; EMPTY is never a key.
   */
  ghost predicate Represents(m: map<char, seq<BoardPosition>>, s: State)
    requires s.Shaped()
  {
    EMPTY !in m &&
    (forall k, i :: k in m && 0 <= i < |m[k]| ==>
       s.InBounds(m[k][i].row, m[k][i].column) && s.grid[m[k][i].row][m[k][i].column] == k) &&
    (forall r, c :: 0 <= r < s.rows && 0 <= c < s.cols && s.grid[r][c] != EMPTY ==>
       s.grid[r][c] in m && BoardPosition(r, c) in m[s.grid[r][c]])
  }

  /** A new, empty list for a token that had none stands for the same grid. */
  lemma NewListRepresents(m: map<char, seq<BoardPosition>>, s: State, p: char)
    requires s.Shaped() && Represents(m, s) && p != EMPTY && p !in m
    ensures Represents(m[p := []], s)
  {
    var m': map<char, seq<BoardPosition>> := m[p := []];
    forall k, i | k in m' && 0 <= i < |m'[k]|
      ensures s.InBounds(m'[k][i].row, m'[k][i].column) && s.grid[m'[k][i].row][m'[k][i].column] == k
    {
      assert k != p && m'[k] == m[k];
    }
  }

  /** Appending an empty cell to p's list stands for writing p into that cell. */
  lemma AppendRepresents(m: map<char, seq<BoardPosition>>, s: State, p: char, pos: BoardPosition)
    requires s.Shaped() && Represents(m, s) && p != EMPTY && p in m
    requires s.InBounds(pos.row, pos.column) && s.grid[pos.row][pos.column] == EMPTY
    ensures Represents(m[p := m[p] + [pos]], s.(grid := s.grid[pos.row := s.grid[pos.row][pos.column := p]]))
  {
    var m': map<char, seq<BoardPosition>> := m[p := m[p] + [pos]];
    var s': State := s.(grid := s.grid[pos.row := s.grid[pos.row][pos.column := p]]);
    forall k, i | k in m' && 0 <= i < |m'[k]|
      ensures s'.InBounds(m'[k][i].row, m'[k][i].column) && s'.grid[m'[k][i].row][m'[k][i].column] == k
    {
      if k == p && i == |m[p]| {
        assert m'[k][i] == pos;
      } else {
        assert m'[k][i] == m[k][i];
      }
    }
    forall r, c | 0 <= r < s'.rows && 0 <= c < s'.cols && s'.grid[r][c] != EMPTY
      ensures s'.grid[r][c] in m' && BoardPosition(r, c) in m'[s'.grid[r][c]]
    {
      if r == pos.row && c == pos.column {
        assert m'[p][|m[p]|] == pos;
      } else {
        assert s'.grid[r][c] == s.grid[r][c];
        var k := s.grid[r][c];
        var i :| 0 <= i < |m[k]| && m[k][i] == BoardPosition(r, c);
        assert m'[k][i] == m[k][i];
      }
    }
  }

  class GameBoardMem {
    var boardMap: map<char, seq<BoardPosition>>
    var numRows: int
    var numColumns: int
    var numToWin: int

    /** The abstract grid the lists stand for. */
    ghost var grid: seq<seq<char>>

    ghost function Model(): State
      reads this
    {
      State(numRows, numColumns, numToWin, grid)
    }

    ghost predicate Valid()
      reads this
    {
      Model().Wf() && Model().Gravity() && Represents(boardMap, Model())
    }

    /** Some token's list holds pos. */
    ghost predicate Listed(pos: BoardPosition)
      reads this
    {
      exists k :: k in boardMap && pos in boardMap[k]
    }

    /** A rows x columns board with no positions recorded. */
    constructor (row: int, column: int, numToWin: int)
      requires ValidDims(row, column, numToWin)
      ensures Valid() && boardMap == map[]
      ensures Model() == EmptyBoard(row, column, numToWin)
    {
      numRows := row;
      numColumns := column;
      this.numToWin := numToWin;
      boardMap := map[];
      grid := EmptyBoard(row, column, numToWin).grid;
      EmptyBoardHasGravity(row, column, numToWin);
    }

    /**
     * Drops p into column c: finds the lowest row whose position is in no token's list and
     * appends that position to p's list. A list for p is created first if there is none, so
     * on a full column p may gain an empty list while no position is added.
     */
    method PlaceToken(p: char, c: int)
      requires Valid() && 0 <= c < numColumns && p != EMPTY
      modifies this`boardMap, this`grid
      ensures Valid()
      ensures Model() == old(Model()).Drop(p, c)
      ensures boardMap.Keys == old(boardMap.Keys) + {p}
      ensures forall k :: k in old(boardMap) && k != p ==> boardMap[k] == old(boardMap[k])
      ensures var before := if p in old(boardMap) then old(boardMap[p]) else [];
              var k := old(Model()).LowestEmpty(c);
              boardMap[p] == if k < numRows then before + [BoardPosition(k, c)] else before
    {
      DropKeepsGravity(Model(), p, c);
      if p !in boardMap {
        NewListRepresents(boardMap, Model(), p);
        boardMap := boardMap[p := []];
      }
      var row := LowestUnlisted(c);
      if row < numRows {
        var tempPos := BoardPosition(row, c);
        AppendRepresents(boardMap, Model(), p, tempPos);
        boardMap := boardMap[p := boardMap[p] + [tempPos]];
        grid := grid[row := grid[row][c := p]];
      }
    }

    /**
     * placeToken's search: the rows of column c from the bottom up, until one whose position
     * is in no token's list.
     */
    method LowestUnlisted(c: int) returns (row: int)
      requires Valid() && 0 <= c < numColumns
      ensures row == Model().LowestEmpty(c)
    {
      row := 0;
      while row < numRows
        invariant 0 <= row <= numRows
        invariant forall i :: 0 <= i < row ==> grid[i][c] != EMPTY
      {
        var tempPos := BoardPosition(row, c);
        var posEmpty := IsUnlisted(tempPos);
        OccupiedIffListed(tempPos);
        if posEmpty {
          FirstEmptyIsLowest(Model(), c, row);
          return;
        }
        row := row + 1;
      }
      FilledColumnHasNoEmpty(Model(), c);
    }

    /** Whether no token's list holds pos: every list is scanned to its end. */
    method IsUnlisted(pos: BoardPosition) returns (posEmpty: bool)
      ensures posEmpty <==> !Listed(pos)
    {
      posEmpty := true;
      var keys := boardMap.Keys;
      while keys != {}
        invariant keys <= boardMap.Keys
        invariant posEmpty <==> forall k :: k in boardMap && k !in keys ==> pos !in boardMap[k]
        decreases keys
      {
        var key :| key in keys;
        var players := boardMap[key];
        var listIndex := 0;
        while listIndex < |players|
          invariant 0 <= listIndex <= |players|
          invariant posEmpty <==>
            (forall k :: k in boardMap && k !in keys ==> pos !in boardMap[k]) &&
            (forall j :: 0 <= j < listIndex ==> players[j] != pos)
        {
          if players[listIndex].Equals(PositionValue(pos)) {
            posEmpty := false;
          }
          listIndex := listIndex + 1;
        }
        keys := keys - {key};
      }
    }

    /** The token whose list holds pos, or EMPTY; by disjointness the visiting order does not matter. */
    method WhatsAtPos(pos: BoardPosition) returns (t: char)
      requires Valid() && Model().InBounds(pos.row, pos.column)
      ensures t == Model().At(pos)
    {
      var keys := boardMap.Keys;
      while keys != {}
        invariant keys <= boardMap.Keys
        invariant forall k :: k in boardMap && k !in keys ==> pos !in boardMap[k]
        decreases keys
      {
        var key :| key in keys;
        var entry := boardMap[key];
        var arrayIndex := 0;
        while arrayIndex < |entry|
          invariant 0 <= arrayIndex <= |entry|
          invariant forall j :: 0 <= j < arrayIndex ==> entry[j] != pos
        {
          if pos.Equals(PositionValue(entry[arrayIndex])) {
            return key;
          }
          arrayIndex := arrayIndex + 1;
        }
        keys := keys - {key};
      }
      OccupiedIffListed(pos);
      return EMPTY;
    }

    /** The override of isPlayerAtPos: scans only p's own list. */
    method IsPlayerAtPos(pos: BoardPosition, p: char) returns (b: bool)
      requires Valid() && Model().InBounds(pos.row, pos.column)
      ensures b == (p in boardMap && pos in boardMap[p])
      ensures p != EMPTY ==> b == (Model().At(pos) == p)
      ensures p == EMPTY ==> !b
    {
      if p !in boardMap {
        return false;
      }
      var arrayIndex := 0;
      while arrayIndex < |boardMap[p]|
        invariant 0 <= arrayIndex <= |boardMap[p]|
        invariant forall j :: 0 <= j < arrayIndex ==> boardMap[p][j] != pos
      {
        if boardMap[p][arrayIndex].Equals(PositionValue(pos)) {
          return true;
        }
        arrayIndex := arrayIndex + 1;
      }
      return false;
    }

    /** A cell of the grid is occupied exactly when its position is in some list. */
    lemma OccupiedIffListed(pos: BoardPosition)
      requires Valid() && Model().InBounds(pos.row, pos.column)
      ensures Model().At(pos) != EMPTY <==> Listed(pos)
      ensures forall k :: k in boardMap && pos in boardMap[k] ==> Model().At(pos) == k
    {
      if Model().At(pos) != EMPTY {
        assert pos == BoardPosition(pos.row, pos.column);
      }
    }

    /** No position is listed under two different tokens. */
    lemma ListsAreDisjoint(k1: char, k2: char, pos: BoardPosition)
      requires Valid() && k1 in boardMap && k2 in boardMap
      requires pos in boardMap[k1] && pos in boardMap[k2]
      ensures k1 == k2
    {
      var i :| 0 <= i < |boardMap[k1]| && boardMap[k1][i] == pos;
      var j :| 0 <= j < |boardMap[k2]| && boardMap[k2][j] == pos;
    }

    /** The listed positions of each column are rows 0..h-1 for some h: a listed cell has a listed cell below. */
    lemma ListedColumnsAreContiguous(pos: BoardPosition)
      requires Valid() && Listed(pos) && pos.row > 0
      ensures Listed(BoardPosition(pos.row - 1, pos.column))
    {
      var k :| k in boardMap && pos in boardMap[k];
      var i :| 0 <= i < |boardMap[k]| && boardMap[k][i] == pos;
      var below := BoardPosition(pos.row - 1, pos.column);
      assert grid[pos.row][pos.column] != EMPTY;
      assert grid[below.row][below.column] in boardMap;
    }

    function GetNumRows(): (n: int)
      reads this
      ensures n == Model().rows
    {
      numRows
    }

    function GetNumColumns(): (n: int)
      reads this
      ensures n == Model().cols
    {
      numColumns
    }

    function GetNumToWin(): (n: int)
      reads this
      ensures n == Model().win
    {
      numToWin
    }
  }
}
