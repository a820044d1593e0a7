/** A complete game on the default 3-by-3 board with players X and O, run
    through the server's dispatch: X and O alternate, a repeated cell is
    refused, X completes the top row, and a restart clears the board. */
module Scenario {
  import opened Wrappers
  import opened Elements
  import opened Protocol
  import opened Game
  import opened Server

  const X: Player := Player("X", "blue")
  const O: Player := Player("O", "green")

  /** The boards of the game, written out: `B0` is the empty board and
      each next board adds one move. */
  function B0(): Grid {
    [ [Move(0, 0, ""), Move(0, 1, ""), Move(0, 2, "")],
      [Move(1, 0, ""), Move(1, 1, ""), Move(1, 2, "")],
      [Move(2, 0, ""), Move(2, 1, ""), Move(2, 2, "")] ]
  }

  function B1(): Grid {
    [ [Move(0, 0, "X"), Move(0, 1, ""), Move(0, 2, "")],
      [Move(1, 0, ""), Move(1, 1, ""), Move(1, 2, "")],
      [Move(2, 0, ""), Move(2, 1, ""), Move(2, 2, "")] ]
  }

  function B2(): Grid {
    [ [Move(0, 0, "X"), Move(0, 1, ""), Move(0, 2, "")],
      [Move(1, 0, ""), Move(1, 1, "O"), Move(1, 2, "")],
      [Move(2, 0, ""), Move(2, 1, ""), Move(2, 2, "")] ]
  }

  function B3(): Grid {
    [ [Move(0, 0, "X"), Move(0, 1, "X"), Move(0, 2, "")],
      [Move(1, 0, ""), Move(1, 1, "O"), Move(1, 2, "")],
      [Move(2, 0, ""), Move(2, 1, ""), Move(2, 2, "")] ]
  }

  function B4(): Grid {
    [ [Move(0, 0, "X"), Move(0, 1, "X"), Move(0, 2, "")],
      [Move(1, 0, ""), Move(1, 1, "O"), Move(1, 2, "")],
      [Move(2, 0, ""), Move(2, 1, ""), Move(2, 2, "O")] ]
  }

  function B5(): Grid {
    [ [Move(0, 0, "X"), Move(0, 1, "X"), Move(0, 2, "X")],
      [Move(1, 0, ""), Move(1, 1, "O"), Move(1, 2, "")],
      [Move(2, 0, ""), Move(2, 1, ""), Move(2, 2, "O")] ]
  }

  /** The empty 3-by-3 board is `B0`. */
  lemma EmptyBoardOfThree()
    ensures EmptyBoard(3) == B0()
  {
    var e := EmptyBoard(3);
    assert e[0] == B0()[0] && e[1] == B0()[1] && e[2] == B0()[2];
  }

  /** The server's state after each move. */
  function G0(): GameState { GameState(DefaultPlayers, 3, B0(), 0, false, [], false) }
  function G1(): GameState { G0().(moves := B1(), running := true, playerIdx := 1) }
  function G2(): GameState { G1().(moves := B2(), playerIdx := 0) }
  function G3(): GameState { G2().(moves := B3(), playerIdx := 1) }
  function G4(): GameState { G3().(moves := B4(), playerIdx := 0) }
  function G5(): GameState { G4().(moves := B5(), hasWinner := true, winnerCombo := Lines3[0]) }

  function Play(g: GameState, row: int, col: int, mark: string): (GameState, Outbound)
    requires WellFormed(g)
  {
    Step(g, MoveRequest(EncodeMove(Move(row, col, mark))))
  }

  function Announce(row: int, col: int, mark: string, current: Player, status: string): Outbound {
    Broadcast(MoveResult(EncodeMove(Move(row, col, mark)), EncodePlayer(current), status))
  }

  /** A line with an unplayed cell does not win. */
  lemma UnplayedCellBlocksLine(moves: Grid, line: seq<Coord>, i: nat)
    requires IsSquare(moves, 3) && LineOn(line, 3) && i < |line|
    requires moves[line[i].0][line[i].1].mark == Unplayed
    ensures !IsWinningLine(moves, 3, line)
  {
    assert Unplayed in LabelsOn(moves, 3, line);
  }

  /** A line holding two different labels does not win. */
  lemma MixedLineBlocks(moves: Grid, line: seq<Coord>, i: nat, j: nat)
    requires IsSquare(moves, 3) && LineOn(line, 3) && i < |line| && j < |line|
    requires moves[line[i].0][line[i].1].mark != moves[line[j].0][line[j].1].mark
    ensures !IsWinningLine(moves, 3, line)
  {
    WinningLineIsMonoLabelled(moves, 3, line);
  }

  /** A valid move on a board where it wins no line, with an empty cell
      left, passes the turn and is announced as running. */
  lemma RunningMove(g: GameState, m: Move, b: Grid, next: GameState, free: Coord)
    requires WellFormed(g) && OnBoard((m.row, m.col), 3) && g.boardSize == 3
    requires IsValidMove(g, m)
    requires b == g.moves[m.row := g.moves[m.row][m.col := m]]
    requires !AnyWin(b, 3)
    requires OnBoard(free, 3) && b[free.0][free.1].mark == Unplayed
    requires next == g.(moves := b, running := true, playerIdx := NextIndex(g.playerIdx, |g.players|))
    ensures Step(g, MoveRequest(EncodeMove(m)))
            == (next, Broadcast(MoveResult(EncodeMove(m), EncodePlayer(CurrentPlayer(next)), StatusRunning)))
  {
    MoveRoundTrip(m);
    var p := ProcessMove(g, m);
    assert p.moves == b;
    assert !IsTied(p);
  }

  /** The eight lines of the 3-by-3 board in scan order: the three rows,
      the three columns, the diagonal and the anti-diagonal. */
  const Lines3: seq<seq<Coord>> := [
    [(0, 0), (0, 1), (0, 2)],
    [(1, 0), (1, 1), (1, 2)],
    [(2, 0), (2, 1), (2, 2)],
    [(0, 0), (1, 0), (2, 0)],
    [(0, 1), (1, 1), (2, 1)],
    [(0, 2), (1, 2), (2, 2)],
    [(0, 0), (1, 1), (2, 2)],
    [(0, 2), (1, 1), (2, 0)]
  ]

  lemma LinesOfThree()
    ensures WinningCombos(3) == Lines3
  {
    var lines := Lines(3);
    assert lines[0] == RowLine(3, 0) == Lines3[0];
    assert lines[1] == RowLine(3, 1) == Lines3[1];
    assert lines[2] == RowLine(3, 2) == Lines3[2];
    assert lines[3] == ColumnLine(3, 0) == Lines3[3];
    assert lines[4] == ColumnLine(3, 1) == Lines3[4];
    assert lines[5] == ColumnLine(3, 2) == Lines3[5];
    assert lines[6] == MainDiagonal(3) == Lines3[6];
    assert lines[7] == AntiDiagonal(3) == Lines3[7];
  }

  /** A 3-by-3 board on which none of the eight lines wins has no winner. */
  lemma NoWinWhenEveryLineBlocked(b: Grid)
    requires IsSquare(b, 3)
    requires && !IsWinningLine(b, 3, Lines3[0]) && !IsWinningLine(b, 3, Lines3[1])
             && !IsWinningLine(b, 3, Lines3[2]) && !IsWinningLine(b, 3, Lines3[3])
             && !IsWinningLine(b, 3, Lines3[4]) && !IsWinningLine(b, 3, Lines3[5])
             && !IsWinningLine(b, 3, Lines3[6]) && !IsWinningLine(b, 3, Lines3[7])
    ensures !AnyWin(b, 3)
  {
    LinesOfThree();
    forall k | 0 <= k < |Lines3|
      ensures !IsWinningLine(b, 3, Lines3[k])
    {
      assert k == 0 || k == 1 || k == 2 || k == 3 || k == 4 || k == 5 || k == 6 || k == 7;
    }
  }

  lemma NoWinB1()
    ensures !AnyWin(B1(), 3)
  {
    UnplayedCellBlocksLine(B1(), Lines3[0], 1);
    UnplayedCellBlocksLine(B1(), Lines3[1], 0);
    UnplayedCellBlocksLine(B1(), Lines3[2], 0);
    UnplayedCellBlocksLine(B1(), Lines3[3], 1);
    UnplayedCellBlocksLine(B1(), Lines3[4], 0);
    UnplayedCellBlocksLine(B1(), Lines3[5], 0);
    UnplayedCellBlocksLine(B1(), Lines3[6], 1);
    UnplayedCellBlocksLine(B1(), Lines3[7], 0);
    NoWinWhenEveryLineBlocked(B1());
  }

  lemma NoWinB2()
    ensures !AnyWin(B2(), 3)
  {
    UnplayedCellBlocksLine(B2(), Lines3[0], 1);
    UnplayedCellBlocksLine(B2(), Lines3[1], 0);
    UnplayedCellBlocksLine(B2(), Lines3[2], 0);
    UnplayedCellBlocksLine(B2(), Lines3[3], 1);
    UnplayedCellBlocksLine(B2(), Lines3[4], 0);
    UnplayedCellBlocksLine(B2(), Lines3[5], 0);
    UnplayedCellBlocksLine(B2(), Lines3[6], 2);
    UnplayedCellBlocksLine(B2(), Lines3[7], 0);
    NoWinWhenEveryLineBlocked(B2());
  }

  lemma NoWinB3()
    ensures !AnyWin(B3(), 3)
  {
    UnplayedCellBlocksLine(B3(), Lines3[0], 2);
    UnplayedCellBlocksLine(B3(), Lines3[1], 0);
    UnplayedCellBlocksLine(B3(), Lines3[2], 0);
    UnplayedCellBlocksLine(B3(), Lines3[3], 1);
    UnplayedCellBlocksLine(B3(), Lines3[4], 2);
    UnplayedCellBlocksLine(B3(), Lines3[5], 0);
    UnplayedCellBlocksLine(B3(), Lines3[6], 2);
    UnplayedCellBlocksLine(B3(), Lines3[7], 0);
    NoWinWhenEveryLineBlocked(B3());
  }

  lemma NoWinB4()
    ensures !AnyWin(B4(), 3)
  {
    UnplayedCellBlocksLine(B4(), Lines3[0], 2);
    UnplayedCellBlocksLine(B4(), Lines3[1], 0);
    UnplayedCellBlocksLine(B4(), Lines3[2], 0);
    UnplayedCellBlocksLine(B4(), Lines3[3], 1);
    UnplayedCellBlocksLine(B4(), Lines3[4], 2);
    UnplayedCellBlocksLine(B4(), Lines3[5], 0);
    MixedLineBlocks(B4(), Lines3[6], 0, 1);
    UnplayedCellBlocksLine(B4(), Lines3[7], 0);
    NoWinWhenEveryLineBlocked(B4());
  }

  /** X opens at (0,0); the game runs on with O to play. */
  lemma Move1()
    ensures NewGame(DefaultPlayers, DefaultBoardSize) == Some(G0())
    ensures Play(G0(), 0, 0, "X") == (G1(), Announce(0, 0, "X", O, StatusRunning))
  {
    EmptyBoardOfThree();
    NoWinB1();
    assert B1() == B0()[0 := B0()[0][0 := Move(0, 0, "X")]] by {
      assert B1()[0] == B0()[0][0 := Move(0, 0, "X")];
    }
    RunningMove(G0(), Move(0, 0, "X"), B1(), G1(), (1, 0));
  }

  /** O plays the taken cell (0,0): the move is dropped without a reply and
      the board is unchanged. */
  lemma RepeatedCellRefused()
    ensures Play(G1(), 0, 0, "O") == (G1(), Silent)
  {
    InvalidMoveIsDropped(G1(), Move(0, 0, "O"));
  }

  /** O takes the centre: the move is announced as running and X is to
      play. */
  lemma Move2()
    ensures Play(G1(), 1, 1, "O") == (G2(), Announce(1, 1, "O", X, StatusRunning))
  {
    NoWinB2();
    assert B2() == B1()[1 := B1()[1][1 := Move(1, 1, "O")]] by {
      assert B2()[1] == B1()[1][1 := Move(1, 1, "O")];
    }
    RunningMove(G1(), Move(1, 1, "O"), B2(), G2(), (1, 0));
  }

  /** X takes (0,1): the move is announced as running and O is to play. */
  lemma Move3()
    ensures Play(G2(), 0, 1, "X") == (G3(), Announce(0, 1, "X", O, StatusRunning))
  {
    NoWinB3();
    assert B3() == B2()[0 := B2()[0][1 := Move(0, 1, "X")]] by {
      assert B3()[0] == B2()[0][1 := Move(0, 1, "X")];
    }
    RunningMove(G2(), Move(0, 1, "X"), B3(), G3(), (1, 0));
  }

  /** O takes (2,2): the move is announced as running and X is to play. */
  lemma Move4()
    ensures Play(G3(), 2, 2, "O") == (G4(), Announce(2, 2, "O", X, StatusRunning))
  {
    NoWinB4();
    assert B4() == B3()[2 := B3()[2][2 := Move(2, 2, "O")]] by {
      assert B4()[2] == B3()[2][2 := Move(2, 2, "O")];
    }
    RunningMove(G3(), Move(2, 2, "O"), B4(), G4(), (1, 0));
  }

  /** X completes the top row: a win is announced naming X, the top row is
      recorded, and the turn stays with X. */
  lemma TopRowWins()
    ensures Play(G4(), 0, 2, "X") == (G5(), Announce(0, 2, "X", X, StatusWin))
    ensures G5().winnerCombo == [(0, 0), (0, 1), (0, 2)]
  {
    var m := Move(0, 2, "X");
    MoveRoundTrip(m);
    WinningMoveRecorded();
    assert !IsTied(G5()) by {
      assert G5().moves[1][0].mark == Unplayed;
    }
  }

  /** Placing X at (0,2) records the top row, the first line in scan order,
      as the winning line. */
  lemma WinningMoveRecorded()
    ensures ProcessMove(G4(), Move(0, 2, "X")) == G5()
  {
    var p := ProcessMove(G4(), Move(0, 2, "X"));
    assert B5() == B4()[0 := B4()[0][2 := Move(0, 2, "X")]] by {
      assert B5()[0] == B4()[0][2 := Move(0, 2, "X")];
    }
    assert Slot(0, 3) == 0 && Slot(2, 3) == 2;
    assert p.moves == B5();
    TopRowIsFirstWin();
    LinesOfThree();
    var k :| 0 <= k < |Lines3| && Lines3[k] == p.winnerCombo
             && IsWinningLine(p.moves, 3, Lines3[k])
             && forall j :: 0 <= j < k ==> !IsWinningLine(p.moves, 3, Lines3[j]);
    assert k == 0;
  }

  /** The top row is the first line in scan order, and it wins on the final
      board. */
  lemma TopRowIsFirstWin()
    ensures IsWinningLine(B5(), 3, WinningCombos(3)[0])
    ensures WinningCombos(3)[0] == [(0, 0), (0, 1), (0, 2)]
  {
    LinesOfThree();
    WinningLineIsMonoLabelled(B5(), 3, Lines3[0]);
  }

  /** After the win a restart is accepted and the board is empty again; X,
      whose turn it was, still moves first. */
  lemma RestartAfterWin()
    ensures Step(G5(), Restart).1 == Broadcast(RestartAccepted)
    ensures Step(G5(), Restart).0.moves == EmptyBoard(3)
    ensures CurrentPlayer(Step(G5(), Restart).0) == X
  {
    ResetIsFreshGame(G5());
  }
}
