/** The server's authoritative tic-tac-toe rules engine (`TicTacToeGame`).
    Every mutating method of the class is a pure transition here. The cyclic
    player iterator is an index into the configured players taken modulo
    their number. */
module Game {
  import opened Wrappers
  import opened Elements

  /** The board size and the players the server is started with. */
  const DefaultBoardSize: nat := 3
  const DefaultPlayers: seq<Player> := [Player("X", "blue"), Player("O", "green")]

  /** A (row, column) pair naming one cell. */
  type Coord = (int, int)

  /** The board: `moves[row][col]` is the move occupying that cell. */
  type Grid = seq<seq<Move>>

  /** The state of one game.
      `players`     all_players, which is also the turn order
      `playerIdx`   position of current_player in that order
      `winnerCombo` the winning line, empty until somebody wins
      `running`     true once a move has been played since the last reset */
  datatype GameState = GameState(
    players: seq<Player>,
    boardSize: nat,
    moves: Grid,
    playerIdx: nat,
    hasWinner: bool,
    winnerCombo: seq<Coord>,
    running: bool)

  predicate IsSquare(moves: Grid, n: nat) {
    |moves| == n && forall r :: 0 <= r < n ==> |moves[r]| == n
  }

  predicate WellFormed(g: GameState) {
    0 < |g.players| && g.playerIdx < |g.players| && IsSquare(g.moves, g.boardSize)
  }

  function CurrentPlayer(g: GameState): Player
    requires WellFormed(g)
  {
    g.players[g.playerIdx]
  }

  /** Python list indexing: `i` addresses a list of length `len` when
      `-len <= i < len`; a negative index counts from the end. */
  predicate IndexOk(i: int, len: nat) {
    -(len as int) <= i < len
  }

  function Slot(i: int, len: nat): (k: nat)
    requires IndexOk(i, len)
    ensures k < len
    ensures 0 <= i ==> k == i
  {
    if i < 0 then i + len else i
  }

  /** `current_moves[m.row][m.col]` does not raise. */
  predicate Addressable(g: GameState, m: Move) {
    IndexOk(m.row, g.boardSize) && IndexOk(m.col, g.boardSize)
  }

  /** The move at the cell a move addresses. */
  function CellAt(g: GameState, m: Move): Move
    requires WellFormed(g) && Addressable(g, m)
  {
    g.moves[Slot(m.row, g.boardSize)][Slot(m.col, g.boardSize)]
  }

  /** The board of a game nobody has played: cell (r, c) holds `Move(r, c)`. */
  function EmptyBoard(n: nat): (b: Grid)
    ensures IsSquare(b, n)
  {
    seq(n, r requires 0 <= r < n => seq(n, c requires 0 <= c < n => EmptyMove(r, c)))
  }

  /** `TicTacToeGame(players, board_size)`. Taking the first player from the
      cycle of an empty player list raises, hence `None`. */
  function NewGame(players: seq<Player>, n: nat): (r: Option<GameState>)
    ensures r.None? <==> |players| == 0
    ensures r.Some? ==>
      && WellFormed(r.value)
      && r.value.players == players
      && r.value.boardSize == n
      && CurrentPlayer(r.value) == players[0]
      && (forall row, col :: 0 <= row < n && 0 <= col < n ==>
            r.value.moves[row][col] == Move(row, col, Unplayed))
      && !r.value.hasWinner
      && r.value.winnerCombo == []
      && !r.value.running
  {
    if |players| == 0 then None
    else Some(GameState(players, n, EmptyBoard(n), 0, false, [], false))
  }

  // ---------------------------------------------------------------------
  // Winning lines

  /** `c` names a cell of an n-by-n board. */
  predicate OnBoard(c: Coord, n: nat) {
    0 <= c.0 < n && 0 <= c.1 < n
  }

  predicate LineOn(line: seq<Coord>, n: nat) {
    forall k :: 0 <= k < |line| ==> OnBoard(line[k], n)
  }

  /** The coordinates of every move, row by row. */
  function CoordRows(moves: Grid): seq<seq<Coord>> {
    seq(|moves|, r requires 0 <= r < |moves| =>
      seq(|moves[r]|, c requires 0 <= c < |moves[r]| => (moves[r][c].row, moves[r][c].col)))
  }

  /** The length of the shortest list, where `zip` stops. */
  function MinWidth<T>(rows: seq<seq<T>>): (w: nat)
    requires 0 < |rows|
    ensures forall i :: 0 <= i < |rows| ==> w <= |rows[i]|
    ensures exists i :: 0 <= i < |rows| && w == |rows[i]|
  {
    if |rows| == 1 then |rows[0]|
    else
      var rest := MinWidth(rows[1..]);
      assert forall i :: 1 <= i < |rows| ==> rows[i] == rows[1..][i - 1];
      if |rows[0]| <= rest then |rows[0]| else rest
  }

  /** `zip(*rows)`: the j-th result collects the j-th element of every list. */
  function Zip<T>(rows: seq<seq<T>>): seq<seq<T>> {
    if |rows| == 0 then []
    else
      var w := MinWidth(rows);
      seq(w, j requires 0 <= j < w => seq(|rows|, i requires 0 <= i < |rows| => rows[i][j]))
  }

  function Reverse<T>(s: seq<T>): seq<T> {
    seq(|s|, k requires 0 <= k < |s| => s[|s| - 1 - k])
  }

  /** `[row[i] for i, row in enumerate(rows)]`. */
  function Diagonal<T>(rows: seq<seq<T>>): seq<T>
    requires forall i :: 0 <= i < |rows| ==> i < |rows[i]|
  {
    seq(|rows|, i requires 0 <= i < |rows| => rows[i][i])
  }

  /** Row `i`, column `j`, and the two diagonals of an n-by-n board, each
      listed from the top row down. */
  function RowLine(n: nat, i: int): seq<Coord> {
    seq(n, j => (i, j))
  }

  function ColumnLine(n: nat, j: int): seq<Coord> {
    seq(n, i => (i, j))
  }

  function MainDiagonal(n: nat): seq<Coord> {
    seq(n, i => (i, i))
  }

  function AntiDiagonal(n: nat): seq<Coord> {
    seq(n, i => (i, n - 1 - i))
  }

  /** The winning lines of an n-by-n board in scan order: every row, then
      every column, then the main diagonal, then the anti-diagonal. */
  function Lines(n: nat): (lines: seq<seq<Coord>>)
    ensures |lines| == 2 * n + 2
    ensures forall k :: 0 <= k < |lines| ==> |lines[k]| == n && LineOn(lines[k], n)
  {
    seq(n, i => RowLine(n, i)) + seq(n, j => ColumnLine(n, j)) + [MainDiagonal(n), AntiDiagonal(n)]
  }

  /** `_get_winning_combos` on the freshly built board: its rows, its columns
      (the transposed rows), the diagonal of the rows, and the diagonal of
      the reversed columns. These are exactly the rows, columns and two
      diagonals, in that order. */
  function WinningCombos(n: nat): (lines: seq<seq<Coord>>)
    ensures lines == Lines(n)
  {
    var rows := CoordRows(EmptyBoard(n));
    assert rows == seq(n, i => RowLine(n, i)) by {
      forall i | 0 <= i < n
        ensures rows[i] == RowLine(n, i)
      {
      }
    }
    var columns := Zip(rows);
    assert columns == seq(n, j => ColumnLine(n, j)) by {
      assert |columns| == n;
      forall j | 0 <= j < n
        ensures columns[j] == ColumnLine(n, j)
      {
      }
    }
    var reversed := Reverse(columns);
    assert forall j :: 0 <= j < n ==> reversed[j] == ColumnLine(n, n - 1 - j);
    assert Diagonal(rows) == MainDiagonal(n);
    assert Diagonal(reversed) == AntiDiagonal(n);
    rows + columns + [Diagonal(rows), Diagonal(reversed)]
  }

  /** The set of labels found along a line (`results` in `process_move`). */
  function LabelsOn(moves: Grid, n: nat, line: seq<Coord>): set<string>
    requires IsSquare(moves, n) && LineOn(line, n)
  {
    set k | 0 <= k < |line| :: moves[line[k].0][line[k].1].mark
  }

  /** The winning test of `process_move`: exactly one label along the line,
      and it is not the empty-cell label. */
  predicate IsWinningLine(moves: Grid, n: nat, line: seq<Coord>)
    requires IsSquare(moves, n) && LineOn(line, n)
  {
    var labels := LabelsOn(moves, n, line);
    |labels| == 1 && Unplayed !in labels
  }

  /** The line is non-empty and all its cells carry one non-empty label. */
  predicate MonoLabelled(moves: Grid, n: nat, line: seq<Coord>)
    requires IsSquare(moves, n) && LineOn(line, n)
  {
    && 0 < |line|
    && moves[line[0].0][line[0].1].mark != Unplayed
    && forall k :: 0 <= k < |line| ==>
         moves[line[k].0][line[k].1].mark == moves[line[0].0][line[0].1].mark
  }

  /** The set-of-labels test says exactly that the line carries one
      non-empty label in every cell. */
  lemma WinningLineIsMonoLabelled(moves: Grid, n: nat, line: seq<Coord>)
    requires IsSquare(moves, n) && LineOn(line, n)
    ensures IsWinningLine(moves, n, line) <==> MonoLabelled(moves, n, line)
  {
    var labels := LabelsOn(moves, n, line);
    if IsWinningLine(moves, n, line) {
      var x :| x in labels;
      assert labels == {x} by {
        assert |labels - {x}| == 0;
      }
      var k0 :| 0 <= k0 < |line| && x == moves[line[k0].0][line[k0].1].mark;
      forall k | 0 <= k < |line|
        ensures moves[line[k].0][line[k].1].mark == x
      {
        assert moves[line[k].0][line[k].1].mark in labels;
      }
    }
    if MonoLabelled(moves, n, line) {
      var x := moves[line[0].0][line[0].1].mark;
      assert labels == {x} by {
        assert x in labels;
        forall y | y in labels
          ensures y == x
        {
          var k :| 0 <= k < |line| && y == moves[line[k].0][line[k].1].mark;
        }
      }
      assert |labels| == 1;
    }
  }

  /** Some line of the board wins. */
  predicate AnyWin(moves: Grid, n: nat)
    requires IsSquare(moves, n)
  {
    var combos := WinningCombos(n);
    exists k :: 0 <= k < |combos| && IsWinningLine(moves, n, combos[k])
  }

  /** The scan of `process_move`: the index of the first winning line at or
      after `from`, in the order the lines were built. */
  function FirstWin(moves: Grid, n: nat, combos: seq<seq<Coord>>, from: nat): (r: Option<nat>)
    requires IsSquare(moves, n) && from <= |combos|
    requires forall k :: 0 <= k < |combos| ==> LineOn(combos[k], n)
    ensures r.Some? ==>
      && from <= r.value < |combos|
      && IsWinningLine(moves, n, combos[r.value])
      && forall j :: from <= j < r.value ==> !IsWinningLine(moves, n, combos[j])
    ensures r.None? ==> forall j :: from <= j < |combos| ==> !IsWinningLine(moves, n, combos[j])
    decreases |combos| - from
  {
    if from == |combos| then None
    else if IsWinningLine(moves, n, combos[from]) then Some(from)
    else FirstWin(moves, n, combos, from + 1)
  }

  /** `line` is the first winning line of the board in scan order. */
  predicate IsFirstWin(moves: Grid, n: nat, line: seq<Coord>)
    requires IsSquare(moves, n)
  {
    var combos := WinningCombos(n);
    exists k :: 0 <= k < |combos| && combos[k] == line
      && IsWinningLine(moves, n, combos[k])
      && forall j :: 0 <= j < k ==> !IsWinningLine(moves, n, combos[j])
  }

  // ---------------------------------------------------------------------
  // Moves

  /** `is_valid_move`: the addressed cell is unplayed and nobody has won.
      Turn ownership is not checked here. A game in which some move is
      valid is over neither by a win nor by a tie. */
  function IsValidMove(g: GameState, m: Move): (r: bool)
    requires WellFormed(g) && Addressable(g, m)
    ensures r ==> !g.hasWinner && !IsTied(g)
  {
    IsUnplayed(CellAt(g, m)) && !g.hasWinner
  }

  /** Some cell of the board takes a move, whatever its label, exactly when
      the game is neither won nor tied. */
  lemma MovePossibleIffNotOver(g: GameState, mark: string)
    requires WellFormed(g)
    ensures (exists row, col :: 0 <= row < g.boardSize && 0 <= col < g.boardSize
               && IsValidMove(g, Move(row, col, mark)))
            <==> !g.hasWinner && !IsTied(g)
  {
    if !g.hasWinner && !IsTied(g) {
      var row, col :| 0 <= row < g.boardSize && 0 <= col < g.boardSize
                      && g.moves[row][col].mark == Unplayed;
      assert IsValidMove(g, Move(row, col, mark));
    }
  }

  /** `process_move`: store the move, mark the game running, then record the
      first winning line if there is one. It does not check validity and
      does not advance the turn. */
  function ProcessMove(g: GameState, m: Move): (r: GameState)
    requires WellFormed(g) && Addressable(g, m)
    ensures WellFormed(r) && r.running
    ensures r.players == g.players && r.boardSize == g.boardSize && r.playerIdx == g.playerIdx
    ensures CellAt(r, m) == m
    ensures forall row, col ::
              (0 <= row < g.boardSize && 0 <= col < g.boardSize
               && (row, col) != (Slot(m.row, g.boardSize), Slot(m.col, g.boardSize))) ==>
              r.moves[row][col] == g.moves[row][col]
    ensures r.hasWinner <==> g.hasWinner || AnyWin(r.moves, r.boardSize)
    ensures AnyWin(r.moves, r.boardSize) ==> IsFirstWin(r.moves, r.boardSize, r.winnerCombo)
    ensures !AnyWin(r.moves, r.boardSize) ==> r.winnerCombo == g.winnerCombo
  {
    var n := g.boardSize;
    var row := Slot(m.row, n);
    var col := Slot(m.col, n);
    var moves := g.moves[row := g.moves[row][col := m]];
    assert IsSquare(moves, n);
    var combos := WinningCombos(n);
    match FirstWin(moves, n, combos, 0)
    case Some(k) =>
      g.(moves := moves, running := true, hasWinner := true, winnerCombo := combos[k])
    case None =>
      g.(moves := moves, running := true)
  }

  /** Every cell of the board carries a non-empty label (`all(played_moves)`). */
  function AllPlayed(moves: Grid): (r: bool)
    ensures r <==> forall i, j :: 0 <= i < |moves| && 0 <= j < |moves[i]| ==> moves[i][j].mark != Unplayed
  {
    if |moves| == 0 then true
    else
      assert forall i :: 1 <= i < |moves| ==> moves[i] == moves[1..][i - 1];
      RowPlayed(moves[0]) && AllPlayed(moves[1..])
  }

  function RowPlayed(row: seq<Move>): (r: bool)
    ensures r <==> forall j :: 0 <= j < |row| ==> row[j].mark != Unplayed
  {
    if |row| == 0 then true
    else
      assert forall j :: 1 <= j < |row| ==> row[j] == row[1..][j - 1];
      row[0].mark != Unplayed && RowPlayed(row[1..])
  }

  /** `is_tied`: the board is full and nobody has won, so a full board that
      also holds a winning line is not a tie. */
  function IsTied(g: GameState): (r: bool)
    requires WellFormed(g)
    ensures r <==> (forall row, col :: 0 <= row < g.boardSize && 0 <= col < g.boardSize ==>
                      g.moves[row][col].mark != Unplayed)
                   && !g.hasWinner
    ensures r ==> !g.hasWinner
  {
    AllPlayed(g.moves) && !g.hasWinner
  }

  // ---------------------------------------------------------------------
  // Turns and reset

  /** `toggle_player`: the next player of the configured order, wrapping
      from the last to the first. */
  function TogglePlayer(g: GameState): (r: GameState)
    requires WellFormed(g)
    ensures WellFormed(r)
    ensures r == g.(playerIdx := r.playerIdx)
    ensures CurrentPlayer(r) ==
              if g.playerIdx + 1 == |g.players| then g.players[0] else g.players[g.playerIdx + 1]
  {
    g.(playerIdx := NextIndex(g.playerIdx, |g.players|))
  }

  /** The successor of position `i` on a cycle of length `p`. */
  function NextIndex(i: nat, p: nat): (r: nat)
    requires i < p
    ensures r == if i + 1 == p then 0 else i + 1
  {
    (i + 1) % p
  }

  /** `toggle_player` called `k` times. */
  function ToggleTimes(g: GameState, k: nat): (r: GameState)
    requires WellFormed(g)
    ensures WellFormed(r)
  {
    if k == 0 then g else TogglePlayer(ToggleTimes(g, k - 1))
  }

  /** After `k <= |players|` toggles the current player sits `k` places
      further along the cycle, wrapping past the last player once. */
  lemma {:induction false} ToggleTimesIndex(g: GameState, k: nat)
    requires WellFormed(g) && k <= |g.players|
    ensures ToggleTimes(g, k) == g.(playerIdx :=
              if g.playerIdx + k < |g.players| then g.playerIdx + k
              else g.playerIdx + k - |g.players|)
  {
    if k > 0 {
      ToggleTimesIndex(g, k - 1);
      var p := |g.players|;
      var i := if g.playerIdx + k - 1 < p then g.playerIdx + k - 1 else g.playerIdx + k - 1 - p;
      assert ToggleTimes(g, k) == TogglePlayer(g.(playerIdx := i));
    }
  }

  /** Toggling once per configured player brings back the current player. */
  lemma ToggleCycle(g: GameState)
    requires WellFormed(g)
    ensures ToggleTimes(g, |g.players|) == g
  {
    ToggleTimesIndex(g, |g.players|);
  }

  /** Every cell of the given board shape set back to `Move(row, col)`. */
  function ClearBoard(moves: Grid): Grid {
    seq(|moves|, r requires 0 <= r < |moves| =>
      seq(|moves[r]|, c requires 0 <= c < |moves[r]| => EmptyMove(r, c)))
  }

  /** `reset_game`: an empty board, no winner, not running. The current
      player is kept. */
  function ResetGame(g: GameState): (r: GameState)
    ensures r.players == g.players && r.boardSize == g.boardSize && r.playerIdx == g.playerIdx
    ensures |r.moves| == |g.moves|
    ensures forall row :: 0 <= row < |g.moves| ==> |r.moves[row]| == |g.moves[row]|
    ensures forall row, col :: 0 <= row < |r.moves| && 0 <= col < |r.moves[row]| ==>
              r.moves[row][col] == Move(row, col, Unplayed)
    ensures !r.hasWinner && r.winnerCombo == [] && !r.running
  {
    g.(moves := ClearBoard(g.moves), hasWinner := false, winnerCombo := [], running := false)
  }

  /** A reset game is the freshly constructed game, except that the current
      player is kept. */
  lemma ResetIsFreshGame(g: GameState)
    requires WellFormed(g)
    ensures NewGame(g.players, g.boardSize).Some?
    ensures ResetGame(g) == NewGame(g.players, g.boardSize).value.(playerIdx := g.playerIdx)
  {
    var n := g.boardSize;
    var cleared := ClearBoard(g.moves);
    var empty := EmptyBoard(n);
    assert |cleared| == |empty|;
    forall r | 0 <= r < n
      ensures cleared[r] == empty[r]
    {
      assert |cleared[r]| == |empty[r]|;
    }
  }

  /** After a reset every cell accepts a move. */
  lemma ResetMakesEveryCellPlayable(g: GameState, m: Move)
    requires WellFormed(g) && Addressable(g, m)
    ensures WellFormed(ResetGame(g))
    ensures IsValidMove(ResetGame(g), m)
  {
  }

  // ---------------------------------------------------------------------
  // Invariants

  /** What holds of every game the server can reach: the winner flag agrees
      with the board, and a game that is not running has an empty board. */
  predicate Inv(g: GameState) {
    && WellFormed(g)
    && (g.hasWinner ==>
          && LineOn(g.winnerCombo, g.boardSize)
          && g.winnerCombo in WinningCombos(g.boardSize)
          && |g.winnerCombo| == g.boardSize
          && MonoLabelled(g.moves, g.boardSize, g.winnerCombo))
    && (!g.hasWinner ==> g.winnerCombo == [] && !AnyWin(g.moves, g.boardSize))
    && (!g.running ==> g.moves == EmptyBoard(g.boardSize) && !g.hasWinner)
  }

  /** Every cell holds a move whose coordinates are the cell's own. */
  predicate CoordsMatch(moves: Grid) {
    forall r, c :: 0 <= r < |moves| && 0 <= c < |moves[r]| ==>
      moves[r][c].row == r && moves[r][c].col == c
  }

  /** No line of an empty board wins. */
  lemma {:induction false} EmptyBoardHasNoWin(n: nat)
    ensures !AnyWin(EmptyBoard(n), n)
  {
    var b := EmptyBoard(n);
    var combos := WinningCombos(n);
    forall k | 0 <= k < |combos|
      ensures !IsWinningLine(b, n, combos[k])
    {
      var labels := LabelsOn(b, n, combos[k]);
      assert labels <= {Unplayed};
    }
  }

  /** A new game satisfies the invariant. */
  lemma NewGameInv(players: seq<Player>, n: nat)
    requires 0 < |players|
    ensures Inv(NewGame(players, n).value)
    ensures CoordsMatch(NewGame(players, n).value.moves)
  {
    EmptyBoardHasNoWin(n);
  }

  /** A reset game satisfies the invariant, whatever came before. */
  lemma ResetInv(g: GameState)
    requires WellFormed(g)
    ensures Inv(ResetGame(g))
    ensures CoordsMatch(ResetGame(g).moves)
  {
    ResetIsFreshGame(g);
    NewGameInv(g.players, g.boardSize);
  }

  /** A valid move keeps the invariant: a win it creates is recorded with a
      line that carries one non-empty label. */
  lemma ProcessMoveInv(g: GameState, m: Move)
    requires Inv(g) && Addressable(g, m) && IsValidMove(g, m)
    ensures Inv(ProcessMove(g, m))
  {
    var r := ProcessMove(g, m);
    var n := g.boardSize;
    if r.hasWinner {
      assert AnyWin(r.moves, n);
      var combos := WinningCombos(n);
      var k :| 0 <= k < |combos| && combos[k] == r.winnerCombo
               && IsWinningLine(r.moves, n, combos[k])
               && forall j :: 0 <= j < k ==> !IsWinningLine(r.moves, n, combos[j]);
      WinningLineIsMonoLabelled(r.moves, n, combos[k]);
    }
  }

  /** Changing one cell leaves the labels of every line that avoids it as
      they were. */
  lemma LabelsAvoidingCell(before: Grid, after: Grid, n: nat, line: seq<Coord>, target: Coord)
    requires IsSquare(before, n) && IsSquare(after, n) && LineOn(line, n)
    requires forall row, col ::
               (0 <= row < n && 0 <= col < n && (row, col) != target) ==>
               after[row][col] == before[row][col]
    requires forall i :: 0 <= i < |line| ==> line[i] != target
    ensures LabelsOn(after, n, line) == LabelsOn(before, n, line)
  {
  }

  /** A line that wins only after one cell changed runs through that cell,
      so all of it carries the label of the move placed there. */
  lemma NewWinRunsThroughCell(before: Grid, after: Grid, n: nat, line: seq<Coord>, target: Coord)
    requires IsSquare(before, n) && IsSquare(after, n) && LineOn(line, n) && OnBoard(target, n)
    requires forall row, col ::
               (0 <= row < n && 0 <= col < n && (row, col) != target) ==>
               after[row][col] == before[row][col]
    requires !IsWinningLine(before, n, line) && IsWinningLine(after, n, line)
    ensures forall k :: 0 <= k < |line| ==>
              after[line[k].0][line[k].1].mark == after[target.0][target.1].mark
  {
    WinningLineIsMonoLabelled(after, n, line);
    if forall i :: 0 <= i < |line| ==> line[i] != target {
      LabelsAvoidingCell(before, after, n, line, target);
      assert false;
    }
    var i :| 0 <= i < |line| && line[i] == target;
  }

  /** The winning line a valid move creates runs through the cell it was
      played in, so every cell of that line carries the mover's label. */
  lemma WinnerIsTheMover(g: GameState, m: Move)
    requires Inv(g) && Addressable(g, m) && IsValidMove(g, m)
    requires ProcessMove(g, m).hasWinner
    ensures var r := ProcessMove(g, m);
      forall k :: 0 <= k < |r.winnerCombo| ==>
        r.moves[r.winnerCombo[k].0][r.winnerCombo[k].1].mark == m.mark
  {
    var r := ProcessMove(g, m);
    var n := g.boardSize;
    var combos := WinningCombos(n);
    var k :| 0 <= k < |combos| && combos[k] == r.winnerCombo
             && IsWinningLine(r.moves, n, combos[k]);
    assert !IsWinningLine(g.moves, n, combos[k]);
    NewWinRunsThroughCell(g.moves, r.moves, n, combos[k], (Slot(m.row, n), Slot(m.col, n)));
  }
}
