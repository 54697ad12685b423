# ConnectX board models in Dafny

This project models the `models` package of the ConnectX game: a rows x columns Connect-X
board where tokens drop under gravity into columns and a player wins with `win` tokens in a
row. It covers the board contract `IGameBoard` with all its default algorithms, the two storage
strategies behind it, the `BoardPosition` value type and the shared text dump of
`AbsGameBoard`. The two strategies are:

- `GameBoard`: a dense character grid updated in place.
- `GameBoardMem`: a sparse map from each token to the list of positions it holds.

The model is built in layers:

- **`Rules`** is the abstract board of the contract. A `State` holds the dimensions and a grid
  of characters with row 0 at the bottom; `' '` means an empty cell. The module defines the
  rules on that state:
  - gravity placement (`Drop`);
  - the top-row tie test;
  - the pivot-centred two-way run-length scans (`RunFrom`, `Count`, `HorizWin`, `VertWin`,
    `DiagWin`);
  - `checkForWin`'s walk down the column.

  These scans and placements are proved equal to independent reference definitions:
  - a win exactly when some `win` consecutive cells through the pivot hold the token;
  - a tie exactly when the board is full;
  - a drop fills the lowest empty cell, keeps gravity, and makes that cell the next pivot.
- **`DenseBoard.GameBoard`** is a class over an `array2<char>`. **`SparseBoard.GameBoardMem`**
  is a class over a `map<char, seq<BoardPosition>>`. Each keeps a ghost grid tied to its
  storage by `Valid()`. Each method is proved against `Rules`:
  - `placeToken` yields `Drop`;
  - the scans yield `RunFrom`;
  - `whatsAtPos` yields the grid cell.
- **`Contract.Board`** stands for "some `IGameBoard`". It holds the interface's default
  algorithms, written once against the primitive queries, and it dispatches to an override
  exactly where a class has one. The dense board overrides `checkTie` and the three win checks.
  The sparse board overrides `isPlayerAtPos`.
- **`Rendering`** is `AbsGameBoard.toString`, proved to produce a text described line by line.
- **`Equivalence`** shows the two strategies are interchangeable. The same moves give the
  same board, and every query then answers alike. There is one exception: `isPlayerAtPos`
  asked about the blank token. The dense overrides also give the same answers as the defaults.
- **`Scenarios`** replays a few short games.

## Model

| member | source | states |
|---|---|---|
| Positions.BoardPosition.GetRow | ConnectXGui/src/cpsc2150/extendedConnectX/models/BoardPosition.java:27-30 | returns the row the position was built with |
| Positions.BoardPosition.GetColumn | ConnectXGui/src/cpsc2150/extendedConnectX/models/BoardPosition.java:37-40 | returns the column the position was built with |
| Positions.BoardPosition.Equals | ConnectXGui/src/cpsc2150/extendedConnectX/models/BoardPosition.java:48-60 | true exactly when the other value is a position with the same row and column; false for any non-position |
| Positions.EqualsReflexiveSymmetric | ConnectXGui/src/cpsc2150/extendedConnectX/models/BoardPosition.java:48-60 | equals is reflexive and symmetric, and never holds against a non-position |
| Positions.NatToString | ConnectXGui/src/cpsc2150/extendedConnectX/models/BoardPosition.java:68-72 | the decimal text is non-empty, all digits, with no leading zero for n > 0; one digit exactly below 10, two digits from 10 to 99 |
| Positions.BoardPosition.ToString | ConnectXGui/src/cpsc2150/extendedConnectX/models/BoardPosition.java:68-72 | the text is the decimal row, a comma, then the decimal column: the first comma ends the row's digits and the rest is exactly the column's; decoded back by ToStringRoundTrip |
| Positions.CommaIndex | ConnectXGui/src/cpsc2150/extendedConnectX/models/BoardPosition.java:68-72 | the index found is the first comma, or the length when there is none |
| Positions.NatToStringRoundTrip | ConnectXGui/src/cpsc2150/extendedConnectX/models/BoardPosition.java:68-72 | reading the decimal text of n back gives n |
| Positions.IntToStringRoundTrip | ConnectXGui/src/cpsc2150/extendedConnectX/models/BoardPosition.java:68-72 | reading the signed decimal text of i back gives i, negatives included |
| Positions.IntToStringHasNoComma | ConnectXGui/src/cpsc2150/extendedConnectX/models/BoardPosition.java:68-72 | the text of a number has no comma, so the separator is unambiguous |
| Positions.ToStringRoundTrip | ConnectXGui/src/cpsc2150/extendedConnectX/models/BoardPosition.java:68-72 | parsing the "row,column" text of a position gives back that position |
| Positions.ToStringInjective | ConnectXGui/src/cpsc2150/extendedConnectX/models/BoardPosition.java:68-72 | two positions with the same text are the same position |
| Rules.EmptyBoard | ConnectXGui/src/cpsc2150/extendedConnectX/models/IGameBoard.java:3-16 | a board of the given size, well formed, with every cell empty |
| Rules.Replay | ConnectXGui/src/cpsc2150/extendedConnectX/models/IGameBoard.java:29-36 | playing legal moves keeps the board well formed and its dimensions unchanged |
| Rules.State.LowestEmptyFrom | ConnectXGui/src/cpsc2150/extendedConnectX/models/GameBoard.java:52-62 | the row found is empty and every row below it down to the start is occupied; the row count when there is none |
| Rules.State.HighestOccupiedFrom | ConnectXGui/src/cpsc2150/extendedConnectX/models/IGameBoard.java:44-53 | the row found is occupied and every row above it up to the start is empty; -1 when there is none |
| Rules.State.Drop | ConnectXGui/src/cpsc2150/extendedConnectX/models/IGameBoard.java:29-36 | placing keeps the board's shape, dimensions and well-formedness |
| Rules.RunFromIsMaximal | ConnectXGui/src/cpsc2150/extendedConnectX/models/IGameBoard.java:96-114 | every cell counted by a scan holds the token, and the cell just past the run does not (or is off the board) |
| Rules.RunFromAtLeast | ConnectXGui/src/cpsc2150/extendedConnectX/models/IGameBoard.java:124-142 | n consecutive cells holding the token make the scan count at least n |
| Rules.HoldsReversed | ConnectXGui/src/cpsc2150/extendedConnectX/models/IGameBoard.java:152-189 | stepping k cells in the opposite direction is stepping -k cells in the original one |
| Rules.CountReachesWinIffLine | ConnectXGui/src/cpsc2150/extendedConnectX/models/IGameBoard.java:115-142 | the two-way count from a pivot holding p reaches win exactly when win consecutive cells through the pivot hold p |
| Rules.ForWinIffWinningLine | ConnectXGui/src/cpsc2150/extendedConnectX/models/IGameBoard.java:37-68 | checkForWin on an occupied column is true exactly when its top token lies on a winning line, in any of the four directions |
| Rules.WindowRecentre | ConnectXGui/src/cpsc2150/extendedConnectX/models/IGameBoard.java:37-43 | a window of p cells seen from any of its cells is the same window, with its steps shifted |
| Rules.LineAfterDrop | ConnectXGui/src/cpsc2150/extendedConnectX/models/IGameBoard.java:37-43 | after a drop, a line of some token either was already on the board or runs through the cell just filled, as a line of the token dropped |
| Rules.NewWinThroughPivot | ConnectXGui/src/cpsc2150/extendedConnectX/models/IGameBoard.java:37-43 | on a board nobody has won yet, after a drop checkForWin on the column just played is true exactly when some token now has win in a row anywhere on the board |
| Rules.EmptyAbove | ConnectXGui/src/cpsc2150/extendedConnectX/models/IGameBoard.java:10-11 | under gravity every cell above an empty cell of a column is empty |
| Rules.FreeIffRoom | ConnectXGui/src/cpsc2150/extendedConnectX/models/IGameBoard.java:18-28 | the top cell is empty exactly when the column is not full, i.e. some cell of it is empty |
| Rules.TieIffFull | ConnectXGui/src/cpsc2150/extendedConnectX/models/IGameBoard.java:69-85 | testing only the top row is the same as testing that no cell of the board is empty |
| Rules.DropFillsLowestEmpty | ConnectXGui/src/cpsc2150/extendedConnectX/models/IGameBoard.java:29-36 | on a free column the token lands in the lowest empty cell, everything below is occupied, and no other cell changes |
| Rules.DropOnFullColumnIsNoOp | ConnectXGui/src/cpsc2150/extendedConnectX/models/GameBoard.java:52-62 | placing into a full column leaves the board unchanged |
| Rules.DropKeepsGravity | ConnectXGui/src/cpsc2150/extendedConnectX/models/GameBoard.java:5-6 | placing a real token preserves gravity |
| Rules.DropMakesPivot | ConnectXGui/src/cpsc2150/extendedConnectX/models/IGameBoard.java:37-53 | after a drop into a free column, checkForWin's walk stops at exactly the cell just filled, which holds the token just played |
| Rules.ReplayKeepsGravity | ConnectXGui/src/cpsc2150/extendedConnectX/models/IGameBoard.java:10-11 | any sequence of legal moves from a board with gravity keeps gravity |
| Rules.EmptyBoardHasGravity | ConnectXGui/src/cpsc2150/extendedConnectX/models/GameBoard.java:22-49 | the empty board satisfies gravity and is not a tie |
| DenseBoard.GameBoard.constructor | ConnectXGui/src/cpsc2150/extendedConnectX/models/GameBoard.java:36-49 | a fresh array of the given size with every cell blank, standing for the empty board |
| DenseBoard.GameBoard.PlaceToken | ConnectXGui/src/cpsc2150/extendedConnectX/models/GameBoard.java:52-62 | the board becomes Drop of the old one; exactly the lowest empty cell of the column is written, and a full column is untouched |
| DenseBoard.GameBoard.WhatsAtPos | ConnectXGui/src/cpsc2150/extendedConnectX/models/GameBoard.java:159-162 | returns the grid cell at the position |
| DenseBoard.GameBoard.CheckTie | ConnectXGui/src/cpsc2150/extendedConnectX/models/GameBoard.java:63-75 | true exactly when no cell of the top row is blank |
| DenseBoard.GameBoard.Scan | ConnectXGui/src/cpsc2150/extendedConnectX/models/GameBoard.java:83-87 | the number of consecutive cells holding p beyond the pivot in one direction |
| DenseBoard.GameBoard.CheckHorizWin | ConnectXGui/src/cpsc2150/extendedConnectX/models/GameBoard.java:77-95 | the horizontal two-way count reaches win |
| DenseBoard.GameBoard.CheckVertWin | ConnectXGui/src/cpsc2150/extendedConnectX/models/GameBoard.java:97-115 | the vertical two-way count reaches win |
| DenseBoard.GameBoard.CheckDiagWin | ConnectXGui/src/cpsc2150/extendedConnectX/models/GameBoard.java:117-156 | the rising or, counted afresh, the falling diagonal count reaches win |
| DenseBoard.GameBoard.GetNumRows | ConnectXGui/src/cpsc2150/extendedConnectX/models/GameBoard.java:164-167 | the board's row count |
| DenseBoard.GameBoard.GetNumColumns | ConnectXGui/src/cpsc2150/extendedConnectX/models/GameBoard.java:169-172 | the board's column count |
| DenseBoard.GameBoard.GetNumToWin | ConnectXGui/src/cpsc2150/extendedConnectX/models/GameBoard.java:174-177 | the number in a row needed to win |
| SparseBoard.AppendRepresents | ConnectXGui/src/cpsc2150/extendedConnectX/models/GameBoardMem.java:72-77 | appending an empty position to p's list stands for writing p into that cell of the grid |
| SparseBoard.GameBoardMem.constructor | ConnectXGui/src/cpsc2150/extendedConnectX/models/GameBoardMem.java:40-46 | an empty map, standing for the empty board |
| SparseBoard.GameBoardMem.PlaceToken | ConnectXGui/src/cpsc2150/extendedConnectX/models/GameBoardMem.java:48-80 | the board becomes Drop of the old one; p gains a list if it had none, the lowest unlisted position of the column is appended to p's list, and every other list is unchanged |
| SparseBoard.NewListRepresents | ConnectXGui/src/cpsc2150/extendedConnectX/models/GameBoardMem.java:50-53 | giving a token with no list an empty one leaves the stood-for grid unchanged |
| SparseBoard.GameBoardMem.LowestUnlisted | ConnectXGui/src/cpsc2150/extendedConnectX/models/GameBoardMem.java:55-78 | the row found is the lowest empty cell of the column, or the row count when it is full |
| SparseBoard.GameBoardMem.IsUnlisted | ConnectXGui/src/cpsc2150/extendedConnectX/models/GameBoardMem.java:58-71 | true exactly when no token's list holds the position |
| SparseBoard.GameBoardMem.WhatsAtPos | ConnectXGui/src/cpsc2150/extendedConnectX/models/GameBoardMem.java:82-96 | returns the grid cell at the position: the token whose list holds it, else blank |
| SparseBoard.GameBoardMem.IsPlayerAtPos | ConnectXGui/src/cpsc2150/extendedConnectX/models/GameBoardMem.java:98-111 | true exactly when p's list holds the position; for a real token that is p being at the cell, and for the blank token it is always false |
| SparseBoard.GameBoardMem.OccupiedIffListed | ConnectXGui/src/cpsc2150/extendedConnectX/models/GameBoardMem.java:14-17 | a cell is occupied exactly when some list holds its position, and then it holds that list's token |
| SparseBoard.GameBoardMem.ListsAreDisjoint | ConnectXGui/src/cpsc2150/extendedConnectX/models/GameBoardMem.java:82-96 | no position is listed under two tokens, so the map's visiting order cannot change whatsAtPos |
| SparseBoard.GameBoardMem.ListedColumnsAreContiguous | ConnectXGui/src/cpsc2150/extendedConnectX/models/GameBoardMem.java:8-9 | a listed position above row 0 has a listed position directly below it |
| SparseBoard.GameBoardMem.GetNumRows | ConnectXGui/src/cpsc2150/extendedConnectX/models/GameBoardMem.java:112 | the board's row count |
| SparseBoard.GameBoardMem.GetNumColumns | ConnectXGui/src/cpsc2150/extendedConnectX/models/GameBoardMem.java:114 | the board's column count |
| SparseBoard.GameBoardMem.GetNumToWin | ConnectXGui/src/cpsc2150/extendedConnectX/models/GameBoardMem.java:116 | the number in a row needed to win |
| Contract.Board.GetNumRows | ConnectXGui/src/cpsc2150/extendedConnectX/models/IGameBoard.java:212-218 | rows of the abstract board |
| Contract.Board.GetNumColumns | ConnectXGui/src/cpsc2150/extendedConnectX/models/IGameBoard.java:220-226 | columns of the abstract board |
| Contract.Board.GetNumToWin | ConnectXGui/src/cpsc2150/extendedConnectX/models/IGameBoard.java:228-234 | win of the abstract board |
| Contract.Board.PlaceToken | ConnectXGui/src/cpsc2150/extendedConnectX/models/IGameBoard.java:29-36 | either strategy turns the board into Drop of the old one |
| Contract.Board.WhatsAtPos | ConnectXGui/src/cpsc2150/extendedConnectX/models/IGameBoard.java:190-197 | the character at the position |
| Contract.Board.DefaultIsPlayerAtPos | ConnectXGui/src/cpsc2150/extendedConnectX/models/IGameBoard.java:199-210 | true exactly when whatsAtPos gives p |
| Contract.Board.IsPlayerAtPos | ConnectXGui/src/cpsc2150/extendedConnectX/models/IGameBoard.java:199-210 | for a real token, p being at the position; the dense board answers so for the blank too, the sparse board never reports the blank |
| Contract.Board.CheckIfFree | ConnectXGui/src/cpsc2150/extendedConnectX/models/IGameBoard.java:18-28 | the top cell of the column is blank (the column is not full, by FreeIffRoom) |
| Contract.Board.DefaultCheckTie | ConnectXGui/src/cpsc2150/extendedConnectX/models/IGameBoard.java:69-85 | true exactly when no top-row cell, read through whatsAtPos, is blank |
| Contract.Board.CheckTie | ConnectXGui/src/cpsc2150/extendedConnectX/models/IGameBoard.java:69-85 | either strategy answers the top-row tie test |
| Contract.Board.DefaultProbe | ConnectXGui/src/cpsc2150/extendedConnectX/models/IGameBoard.java:100-101 | the loop guard: the cell k steps away is on the board and isPlayerAtPos says p is there |
| Contract.Board.DefaultScan | ConnectXGui/src/cpsc2150/extendedConnectX/models/IGameBoard.java:98-105 | the number of consecutive cells, tested through isPlayerAtPos, holding p beyond the pivot in one direction |
| Contract.Board.DefaultCheckHorizWin | ConnectXGui/src/cpsc2150/extendedConnectX/models/IGameBoard.java:124-142 | the horizontal two-way count reaches win |
| Contract.Board.DefaultCheckVertWin | ConnectXGui/src/cpsc2150/extendedConnectX/models/IGameBoard.java:96-114 | the vertical two-way count reaches win |
| Contract.Board.DefaultCheckDiagWin | ConnectXGui/src/cpsc2150/extendedConnectX/models/IGameBoard.java:152-189 | the rising or, counted afresh, the falling diagonal count reaches win |
| Contract.Board.CheckHorizWin | ConnectXGui/src/cpsc2150/extendedConnectX/models/IGameBoard.java:124-142 | either strategy answers the horizontal test |
| Contract.Board.CheckVertWin | ConnectXGui/src/cpsc2150/extendedConnectX/models/IGameBoard.java:96-114 | either strategy answers the vertical test |
| Contract.Board.CheckDiagWin | ConnectXGui/src/cpsc2150/extendedConnectX/models/IGameBoard.java:152-189 | either strategy answers the diagonal test |
| Contract.Board.CheckForWin | ConnectXGui/src/cpsc2150/extendedConnectX/models/IGameBoard.java:44-68 | the three tests run from the highest occupied cell of the column for its token; by ForWinIffWinningLine, a winning line through it, and by NewWinThroughPivot, after the last move, some token having win in a row anywhere |
| Rendering.HeaderText | ConnectXGui/src/cpsc2150/extendedConnectX/models/AbsGameBoard.java:25-36 | the header: the label of every column, left to right, then a closing bar and newline |
| Rendering.RowText | ConnectXGui/src/cpsc2150/extendedConnectX/models/AbsGameBoard.java:39-43 | one row's text: each cell as bar, content, space, left to right, then a closing bar and newline |
| Rendering.ToString | ConnectXGui/src/cpsc2150/extendedConnectX/models/AbsGameBoard.java:21-46 | the header line followed by the row lines from the top row down to row 0 |
| Rendering.TextIsConcat | ConnectXGui/src/cpsc2150/extendedConnectX/models/AbsGameBoard.java:24-45 | the text built so far is the header line and the top rows' lines, one after another |
| Rendering.LabelLayout | ConnectXGui/src/cpsc2150/extendedConnectX/models/AbsGameBoard.java:27-34 | a column label below 100 is three characters: a bar, then the number right-aligned in two places |
| Rendering.HeaderCellsLayout | ConnectXGui/src/cpsc2150/extendedConnectX/models/AbsGameBoard.java:25-35 | the labels take three characters per column, each starting with a bar |
| Rendering.HeaderLineLayout | ConnectXGui/src/cpsc2150/extendedConnectX/models/AbsGameBoard.java:25-36 | the header is 3 * cols + 2 characters, its bars line up with the rows' bars, and it ends in a bar and newline |
| Rendering.CellsLayout | ConnectXGui/src/cpsc2150/extendedConnectX/models/AbsGameBoard.java:39-42 | cell j of a row sits at characters 3j to 3j+2 as bar, content, space |
| Rendering.RowLineLayout | ConnectXGui/src/cpsc2150/extendedConnectX/models/AbsGameBoard.java:37-44 | a row line is 3 * cols + 2 characters, shows the row's cells in order and ends in a bar and newline |
| Rendering.LinesHeader | ConnectXGui/src/cpsc2150/extendedConnectX/models/AbsGameBoard.java:24-36 | after k rows there are k + 1 lines and the first is the header |
| Rendering.LinesRow | ConnectXGui/src/cpsc2150/extendedConnectX/models/AbsGameBoard.java:37-44 | line i is row rows - i: the top row comes first and row 0 last |
| Rendering.LineWidth | ConnectXGui/src/cpsc2150/extendedConnectX/models/AbsGameBoard.java:24-45 | every line, header or row, is 3 * cols + 2 characters ending in a newline |
| Rendering.RenderLayout | ConnectXGui/src/cpsc2150/extendedConnectX/models/AbsGameBoard.java:21-46 | the text is rows + 1 lines of equal width, each ending in a newline: the header, then line i is row rows - i |
| Rendering.SmallLabels | ConnectXGui/src/cpsc2150/extendedConnectX/models/AbsGameBoard.java:27-30 | the labels of columns 0 to 3 are "\| 0" to "\| 3" |
| Rendering.EmptyFourColumnRow | ConnectXGui/src/cpsc2150/extendedConnectX/models/AbsGameBoard.java:37-44 | a blank row of four columns prints as four empty cells |
| Rendering.EmptyFourByFour | ConnectXGui/src/cpsc2150/extendedConnectX/models/AbsGameBoard.java:21-46 | the lines printed for an empty 4 x 4 board: the header, then four rows of empty cells |
| Equivalence.PlayBoth | ConnectXGui/src/cpsc2150/extendedConnectX/models/IGameBoard.java:29-36 | the same moves played on a fresh board of each kind give the same abstract board, namely Replay of the moves |
| Equivalence.SameContents | ConnectXGui/src/cpsc2150/extendedConnectX/models/IGameBoard.java:190-197 | on the same board both strategies' whatsAtPos give the same token |
| Equivalence.SamePlayerAnswer | ConnectXGui/src/cpsc2150/extendedConnectX/models/GameBoardMem.java:98-111 | for a real token the sparse override of isPlayerAtPos agrees with the default |
| Equivalence.BlankTokenAnswersDiffer | ConnectXGui/src/cpsc2150/extendedConnectX/models/GameBoardMem.java:98-111 | asked whether the blank is at an empty cell, the default says yes and the sparse override says no |
| Equivalence.SameVerdicts | ConnectXGui/src/cpsc2150/extendedConnectX/models/IGameBoard.java:18-85 | the dense and sparse answers of checkIfFree are equal to each other and to Free(c), and likewise for checkTie and Tie(), for every column of every board |
| Equivalence.SameWinVerdict | ConnectXGui/src/cpsc2150/extendedConnectX/models/IGameBoard.java:37-68 | the dense and sparse answers of checkForWin are equal to each other and to ForWin(c), for every column holding a token |
| Equivalence.SameText | ConnectXGui/src/cpsc2150/extendedConnectX/models/AbsGameBoard.java:3-6 | both strategies print the same text for the same board |
| Equivalence.OverridesMatchDefaults | ConnectXGui/src/cpsc2150/extendedConnectX/models/GameBoard.java:63-156 | each dense override (checkTie and the three win checks) returns the same answer as the interface default it replaces, and both equal Tie(), HorizWin, VertWin or DiagWin |
| Scenarios.ReplayThree | ConnectXGui/src/cpsc2150/extendedConnectX/models/IGameBoard.java:29-36 | three legal moves replayed are three drops, one after the other |
| Scenarios.DropCell | ConnectXGui/src/cpsc2150/extendedConnectX/models/IGameBoard.java:29-36 | a drop landing at a cell writes the token there and changes no other cell |
| Scenarios.ThreeInColumnZero | ConnectXGui/src/cpsc2150/extendedConnectX/models/IGameBoard.java:29-36 | three tokens dropped into column 0 of the empty 4 x 4 board stack up from row 0, and the rest stays empty |
| Scenarios.ThreeOnBottomRow | ConnectXGui/src/cpsc2150/extendedConnectX/models/IGameBoard.java:29-36 | three tokens dropped into columns 0, 1 and 2 of the empty board fill the bottom row from the left |
| Scenarios.StackOfThreeWins | ConnectXGui/src/cpsc2150/extendedConnectX/models/IGameBoard.java:96-114 | three X dropped into one column of a 4 x 4, 3-to-win board win vertically |
| Scenarios.InterruptedStackDoesNotWin | ConnectXGui/src/cpsc2150/extendedConnectX/models/IGameBoard.java:44-68 | X, X, then O in one column is not a win for the O on top |
| Scenarios.BottomRowWins | ConnectXGui/src/cpsc2150/extendedConnectX/models/IGameBoard.java:124-142 | X in columns 0, 1 and 2 wins horizontally on the last drop |

## Left out

- The GUI, the controller and the game loop are not part of this model. Neither is anything
  that chooses moves or players.
- Java inheritance is not modelled as such. The interface, the abstract class and the two
  classes become `Contract.Board`, a closed choice of the two strategies, and each method
  dispatches to the override where the class has one.
- HashMap and ArrayList iteration order is not modelled. `WhatsAtPos` and `IsUnlisted` visit
  the map's keys in an arbitrary order, chosen with `:|`. `ListsAreDisjoint` shows that the
  order cannot change the answer.
- Java's 32-bit `int` is not modelled: integers are unbounded. The dimensions are at most 100,
  so no arithmetic here can overflow.
- Off-board columns and positions are not modelled. The two strategies treat them differently,
  and the model has a precondition in their place:
  - every column must be in range, and so must every position passed to `whatsAtPos`,
    `isPlayerAtPos` and the win checks;
  - the dense board throws on such input (an array index out of range);
  - the sparse board never throws. Each `placeToken` on an off-board column c records the
    next position not yet listed, (0, c), then (1, c), and so on up to (rows-1, c). Once all
    of them are recorded, the call does nothing;
  - on the sparse board, `whatsAtPos` and `isPlayerAtPos` report a recorded off-board
    position like any other. At an unrecorded one they answer `' '` and false.
    `checkIfFree(c)` stays true until (rows-1, c) is recorded;
  - each loop guard of the win checks tests only the bounds that its direction moves toward.
    So from an off-board pivot the scans can read off-board cells as well as on-board ones;
  - `checkForWin` requires an occupied column. On an empty column the walk ends at row -1.
    From there the dense board throws, while the sparse board answers false. The doc comment
    requires that `c` is the column last played, so this case never arises.
- The blank token `' '` as a player is not modelled:
  - `PlaceToken` requires a real token. Placing `' '` would leave a blank listed in the map,
    which breaks the sparse board's invariant. Java does not forbid it, but the interface uses
    `' '` as the empty-cell sentinel (IGameBoard.java:27, 49, 79), not as a player token.
  - `Contract.Board.DefaultScan` requires a real token. With `' '` the default scans would count
    empty cells through `isPlayerAtPos`, and the two strategies would disagree. The difference
    itself is proved in `Equivalence.BlankTokenAnswersDiffer`.
- Placing into a full column follows the code, not the interface precondition. The interface
  asks callers not to do it, but both classes handle it without failing:
  - the dense board leaves the array unchanged;
  - the sparse board may add an empty list for the token.

  Both keep the abstract board unchanged.
- The documented bounds on `BoardPosition` (rows 0..6, columns 0..9) are not modelled. They are
  left over from a fixed-size board, and the code never checks them. Positions are unbounded
  pairs.
- `Positions.BoardPosition.Equals` takes a `Value`: either a position or some other object. This
  stands in for Java's `Object` parameter and `instanceof` test. `hashCode` is not modelled,
  because nothing in these classes hashes a position.
- The `GameBoardMem` constructor comment allows `numToWin <= columns` and `numToWin <= rows`. The
  model uses the interface's stricter `win < rows` and `win < columns` (`Rules.ValidDims`) for
  both classes.
- The example in the `AbsGameBoard.toString` doc comment shows one-character cells. The code
  writes three characters per cell and per label. The model follows the code; see
  `Rendering.EmptyFourByFour`.
- The dense board's paired scan loops are modelled by one shared method, `Scan`, used for each
  direction. The default `checkHorizWin`, `checkVertWin` and `checkDiagWin` likewise share
  `DefaultScan`. Each call covers exactly one of the loops written out in the source.
- The getters are modelled as Dafny functions, so specifications can read them. The dense
  constructor's contract is stated with `fresh`, because it allocates the array.
- Rendering.HeaderCellsLayout: states only the width of the header and where its bars are.
  The digits of each label are stated one label at a time, by `Rendering.LabelLayout`.
- Rendering.EmptyFourByFour: states the header line as `HeaderLine(4)` rather than as a
  literal string. `Rendering.SmallLabels` gives the four labels it is made of.
