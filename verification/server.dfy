/** The server's message dispatch (the `match` in `handler` of server.py) as
    a pure step from the game state and one inbound message to the next
    state and what is sent back. Sockets, the connection set and JSON are
    left abstract: a broadcast is an outbound value. */
module Server {
  import opened Wrappers
  import opened Elements
  import opened Protocol
  import opened Game

  /** What handling one message sends. `Aborted`: rebuilding or indexing the
      move raised, which ends this connection's handler loop with the game
      untouched and nothing sent. */
  datatype Outbound = Silent | Reply(msg: ServerMsg) | Broadcast(msg: ServerMsg) | Aborted

  /** `handle_connection_response`: the board is included only once the game
      is running; the current player, the size and all players always are. */
  function ConnectionResponse(g: GameState): (s: Snapshot)
    requires WellFormed(g)
    ensures s.alreadyStarted == g.running
    ensures s.boardData.boardState.Some? <==> g.running
    ensures s.boardData.boardSize == g.boardSize
    ensures DecodePlayer(s.boardData.currentPlayer) == Some(CurrentPlayer(g))
    ensures |s.boardData.allPlayers| == |g.players|
  {
    PlayerRoundTrip(CurrentPlayer(g));
    Snapshot(g.running, BoardData(
      EncodePlayer(CurrentPlayer(g)),
      g.boardSize,
      EncodePlayers(g.players),
      if g.running then Some(EncodeGrid(g.moves)) else None))
  }

  /** The body of the `move` arm once the move is rebuilt and addressable:
      an invalid move is dropped without a reply; a valid one is played and
      broadcast with the game status, and the turn passes on only while the
      game keeps running. The mover's label is never compared with the
      current player's. */
  function PlayMove(g: GameState, m: Move): (r: (GameState, Outbound))
    requires WellFormed(g) && Addressable(g, m)
    ensures WellFormed(r.0)
    ensures !IsValidMove(g, m) ==> r == (g, Silent)
    ensures IsValidMove(g, m) ==>
      var played := ProcessMove(g, m);
      && r.1.Broadcast? && r.1.msg.MoveResult?
      && r.1.msg.move == EncodeMove(m)
      && DecodePlayer(r.1.msg.currentPlayer) == Some(CurrentPlayer(r.0))
      && (r.1.msg.gameStatus == StatusTie <==> IsTied(played))
      && (r.1.msg.gameStatus == StatusWin <==> played.hasWinner)
      && (r.1.msg.gameStatus == StatusRunning <==> !IsTied(played) && !played.hasWinner)
      && r.0 == (if r.1.msg.gameStatus == StatusRunning then TogglePlayer(played) else played)
  {
    if !IsValidMove(g, m) then (g, Silent)
    else
      var played := ProcessMove(g, m);
      if IsTied(played) then
        PlayerRoundTrip(CurrentPlayer(played));
        (played, Broadcast(MoveResult(EncodeMove(m), EncodePlayer(CurrentPlayer(played)), StatusTie)))
      else if played.hasWinner then
        PlayerRoundTrip(CurrentPlayer(played));
        (played, Broadcast(MoveResult(EncodeMove(m), EncodePlayer(CurrentPlayer(played)), StatusWin)))
      else
        var next := TogglePlayer(played);
        PlayerRoundTrip(CurrentPlayer(next));
        (next, Broadcast(MoveResult(EncodeMove(m), EncodePlayer(CurrentPlayer(next)), StatusRunning)))
  }

  /** The `move` arm as it is evidently meant to behave: `Move(*fields)`
      must succeed and the move must lie on the board, 0 <= row, col <
      board size; any other move is refused by aborting the handler. The
      code as written also accepts -n..-1 (see `HandleMoveAsWritten`). */
  function HandleMove(g: GameState, fields: Fields): (r: (GameState, Outbound))
    requires WellFormed(g)
    ensures WellFormed(r.0)
    ensures DecodeMove(fields).None? ==> r == (g, Aborted)
    ensures DecodeMove(fields).Some? && !OnBoard((DecodeMove(fields).value.row, DecodeMove(fields).value.col), g.boardSize)
            ==> r == (g, Aborted)
    ensures DecodeMove(fields).Some? && OnBoard((DecodeMove(fields).value.row, DecodeMove(fields).value.col), g.boardSize)
            ==> r == PlayMove(g, DecodeMove(fields).value)
  {
    match DecodeMove(fields)
    case None => (g, Aborted)
    case Some(m) =>
      if OnBoard((m.row, m.col), g.boardSize) then PlayMove(g, m) else (g, Aborted)
  }

  /** The `move` arm exactly as written: Python's negative indexing lets a
      row or column in -n..-1 through, addressing a cell counted from the
      end of the board. */
  function HandleMoveAsWritten(g: GameState, fields: Fields): (r: (GameState, Outbound))
    requires WellFormed(g)
    ensures WellFormed(r.0)
    ensures DecodeMove(fields).None? ==> r == (g, Aborted)
    ensures DecodeMove(fields).Some? && !Addressable(g, DecodeMove(fields).value) ==> r == (g, Aborted)
    ensures DecodeMove(fields).Some? && Addressable(g, DecodeMove(fields).value)
            ==> r == PlayMove(g, DecodeMove(fields).value)
  {
    match DecodeMove(fields)
    case None => (g, Aborted)
    case Some(m) =>
      if Addressable(g, m) then PlayMove(g, m) else (g, Aborted)
  }

  /** One message handled by `handler`, with the move arm corrected to
      refuse coordinates off the board (see `StepAsWritten` for the code as
      written). Only a broadcast changes the game, and only `connect` and
      `request_disconnect` are answered to the sender alone. */
  function Step(g: GameState, msg: ClientMsg): (r: (GameState, Outbound))
    requires WellFormed(g)
    ensures WellFormed(r.0)
    ensures msg.MoveRequest? ==> r == HandleMove(g, msg.move)
    ensures msg.Connect? ==> r == (g, Reply(StartGame(ConnectionResponse(g))))
    ensures msg.RequestDisconnect? ==> r == (g, Reply(ConfirmDisconnect))
    ensures msg.Restart? ==>
      if IsTied(g) || g.hasWinner then r == (ResetGame(g), Broadcast(RestartAccepted))
      else r == (g, Silent)
    ensures msg.Unrecognized? ==> r == (g, Silent)
    ensures !r.1.Broadcast? ==> r.0 == g
    ensures r.1.Reply? <==> msg.Connect? || msg.RequestDisconnect?
  {
    match msg
    case Connect => (g, Reply(StartGame(ConnectionResponse(g))))
    case MoveRequest(fields) => HandleMove(g, fields)
    case Restart =>
      if IsTied(g) || g.hasWinner then (ResetGame(g), Broadcast(RestartAccepted))
      else (g, Silent)
    case RequestDisconnect => (g, Reply(ConfirmDisconnect))
    case Unrecognized(_) => (g, Silent)
  }

  /** `handler` exactly as written, negative coordinates included. */
  function StepAsWritten(g: GameState, msg: ClientMsg): (r: (GameState, Outbound))
    requires WellFormed(g)
    ensures WellFormed(r.0)
    ensures !msg.MoveRequest? ==> r == Step(g, msg)
    ensures msg.MoveRequest? ==> r == HandleMoveAsWritten(g, msg.move)
  {
    match msg
    case MoveRequest(fields) => HandleMoveAsWritten(g, fields)
    case _ => Step(g, msg)
  }

  // ---------------------------------------------------------------------
  // Properties of the dispatch

  /** Every step keeps the game invariant, and keeps each cell's move at its
      own coordinates. */
  lemma StepInv(g: GameState, msg: ClientMsg)
    requires Inv(g) && CoordsMatch(g.moves)
    ensures Inv(Step(g, msg).0) && CoordsMatch(Step(g, msg).0.moves)
  {
    match msg {
      case MoveRequest(fields) =>
        var m := DecodeMove(fields);
        if m.Some? && OnBoard((m.value.row, m.value.col), g.boardSize) {
          PlayMoveInv(g, m.value);
        }
      case Restart =>
        ResetInv(g);
      case _ =>
    }
  }

  lemma PlayMoveInv(g: GameState, m: Move)
    requires Inv(g) && CoordsMatch(g.moves) && OnBoard((m.row, m.col), g.boardSize)
    ensures Inv(PlayMove(g, m).0) && CoordsMatch(PlayMove(g, m).0.moves)
  {
    PlayMoveKeepsInv(g, m);
    if IsValidMove(g, m) {
      PlacedAtOwnCell(g, m);
      assert PlayMove(g, m).0.moves == ProcessMove(g, m).moves;
    }
  }

  /** The `move` arm keeps the game invariant for every move Python can
      index, negative coordinates included. */
  lemma PlayMoveKeepsInv(g: GameState, m: Move)
    requires Inv(g) && Addressable(g, m)
    ensures Inv(PlayMove(g, m).0)
  {
    if IsValidMove(g, m) {
      var played := ProcessMove(g, m);
      ProcessMoveInv(g, m);
      if !IsTied(played) && !played.hasWinner {
        ToggleKeepsInv(played);
      }
    }
  }

  /** The dispatch as written keeps the game invariant on every message: a
      recorded winner is a full winning line of one non-empty label, and an
      idle board is empty. Only `CoordsMatch` needs the correction. */
  lemma StepAsWrittenInv(g: GameState, msg: ClientMsg)
    requires Inv(g)
    ensures Inv(StepAsWritten(g, msg).0)
  {
    match msg {
      case MoveRequest(fields) =>
        var m := DecodeMove(fields);
        if m.Some? && Addressable(g, m.value) {
          PlayMoveKeepsInv(g, m.value);
        }
      case Restart =>
        ResetInv(g);
      case _ =>
    }
  }

  /** A move placed at its own on-board coordinates keeps every cell's move
      at that cell's coordinates. */
  lemma PlacedAtOwnCell(g: GameState, m: Move)
    requires WellFormed(g) && CoordsMatch(g.moves) && OnBoard((m.row, m.col), g.boardSize)
    ensures CoordsMatch(ProcessMove(g, m).moves)
  {
    var r := ProcessMove(g, m);
    assert Slot(m.row, g.boardSize) == m.row && Slot(m.col, g.boardSize) == m.col;
    forall row, col | 0 <= row < |r.moves| && 0 <= col < |r.moves[row]|
      ensures r.moves[row][col].row == row && r.moves[row][col].col == col
    {
      if (row, col) != (m.row, m.col) {
        assert r.moves[row][col] == g.moves[row][col];
      }
    }
  }

  /** Passing the turn changes nothing the invariant speaks about. */
  lemma ToggleKeepsInv(g: GameState)
    requires Inv(g)
    ensures Inv(TogglePlayer(g)) && TogglePlayer(g).moves == g.moves
  {
    var t := TogglePlayer(g);
    assert t.moves == g.moves && t.hasWinner == g.hasWinner && t.running == g.running;
  }

  /** A played cell keeps its move until an accepted restart clears the
      board. */
  lemma StepNeverOverwrites(g: GameState, msg: ClientMsg, row: nat, col: nat)
    requires WellFormed(g)
    requires row < g.boardSize && col < g.boardSize
    requires !IsUnplayed(g.moves[row][col])
    requires Step(g, msg).1 != Broadcast(RestartAccepted)
    ensures Step(g, msg).0.moves[row][col] == g.moves[row][col]
  {
    if msg.MoveRequest? {
      var m := DecodeMove(msg.move);
      if m.Some? && OnBoard((m.value.row, m.value.col), g.boardSize) && IsValidMove(g, m.value) {
        assert (row, col) != (Slot(m.value.row, g.boardSize), Slot(m.value.col, g.boardSize));
      }
    }
  }

  /** As written too, a played cell keeps its move until an accepted
      restart clears the board: a negative coordinate only ever reaches an
      unplayed cell. */
  lemma StepAsWrittenNeverOverwrites(g: GameState, msg: ClientMsg, row: nat, col: nat)
    requires WellFormed(g)
    requires row < g.boardSize && col < g.boardSize
    requires !IsUnplayed(g.moves[row][col])
    requires StepAsWritten(g, msg).1 != Broadcast(RestartAccepted)
    ensures StepAsWritten(g, msg).0.moves[row][col] == g.moves[row][col]
  {
    if msg.MoveRequest? {
      var m := DecodeMove(msg.move);
      if m.Some? && Addressable(g, m.value) && IsValidMove(g, m.value) {
        assert (row, col) != (Slot(m.value.row, g.boardSize), Slot(m.value.col, g.boardSize));
      }
    }
  }

  /** A broadcast win names the player whose turn it was, unchanged, and
      the recorded line carries the winning move's label in every cell. */
  lemma WinBroadcast(g: GameState, m: Move)
    requires Inv(g) && OnBoard((m.row, m.col), g.boardSize)
    requires var r := Step(g, MoveRequest(EncodeMove(m)));
      r.1.Broadcast? && r.1.msg.MoveResult? && r.1.msg.gameStatus == StatusWin
    ensures var r := Step(g, MoveRequest(EncodeMove(m)));
      && r.0.hasWinner
      && r.0.playerIdx == g.playerIdx
      && DecodePlayer(r.1.msg.currentPlayer) == Some(CurrentPlayer(g))
      && forall k :: 0 <= k < |r.0.winnerCombo| ==>
           r.0.moves[r.0.winnerCombo[k].0][r.0.winnerCombo[k].1].mark == m.mark
  {
    MoveRoundTrip(m);
    WinnerIsTheMover(g, m);
  }

  /** A move that leaves the game running hands the turn to the next
      configured player; a tying or winning move keeps the turn where it
      was. */
  lemma TurnPassesOnlyWhileRunning(g: GameState, m: Move)
    requires WellFormed(g) && OnBoard((m.row, m.col), g.boardSize) && IsValidMove(g, m)
    ensures var r := Step(g, MoveRequest(EncodeMove(m)));
      r.1.Broadcast? && r.1.msg.MoveResult?
      && (r.1.msg.gameStatus == StatusRunning ==> r.0.playerIdx == NextIndex(g.playerIdx, |g.players|))
      && (r.1.msg.gameStatus != StatusRunning ==> r.0.playerIdx == g.playerIdx)
  {
    MoveRoundTrip(m);
  }

  /** A move rejected by the rules leaves the game as it was and sends
      nothing, not even to its sender. */
  lemma InvalidMoveIsDropped(g: GameState, m: Move)
    requires WellFormed(g) && OnBoard((m.row, m.col), g.boardSize) && !IsValidMove(g, m)
    ensures Step(g, MoveRequest(EncodeMove(m))) == (g, Silent)
  {
    MoveRoundTrip(m);
  }

  /** Nothing ties a move to the player whose turn it is: a move on an empty
      cell is broadcast whatever label it carries. */
  lemma OutOfTurnMoveAccepted(g: GameState, m: Move)
    requires WellFormed(g) && OnBoard((m.row, m.col), g.boardSize)
    requires IsUnplayed(g.moves[m.row][m.col]) && !g.hasWinner
    requires m.mark != CurrentPlayer(g).mark
    ensures Step(g, MoveRequest(EncodeMove(m))).1.Broadcast?
  {
    MoveRoundTrip(m);
  }

  /** A restart is accepted exactly when the game is over. */
  lemma RestartOnlyWhenOver(g: GameState)
    requires Inv(g)
    ensures Step(g, Restart).1.Broadcast? <==> IsTied(g) || g.hasWinner
    ensures Step(g, Restart).1.Broadcast? ==> Step(g, Restart).0 == ResetGame(g)
    ensures 0 < g.boardSize && !g.running ==> Step(g, Restart) == (g, Silent)
  {
    if 0 < g.boardSize && !g.running {
      assert IsUnplayed(g.moves[0][0]);
    }
  }

  /** As written, a move at row -1 of a fresh board is accepted and stored in
      the last row, where its coordinates no longer name its cell; the
      corrected dispatch refuses it. */
  lemma NegativeRowLandsOnLastRow()
    ensures NewGame(DefaultPlayers, DefaultBoardSize).Some?
    ensures var g := NewGame(DefaultPlayers, DefaultBoardSize).value;
      var m := Move(-1, 0, "X");
      var r := StepAsWritten(g, MoveRequest(EncodeMove(m)));
      && r.1.Broadcast?
      && r.0.moves[2][0] == m
      && !CoordsMatch(r.0.moves)
      && Step(g, MoveRequest(EncodeMove(m))) == (g, Aborted)
  {
    var g := NewGame(DefaultPlayers, DefaultBoardSize).value;
    var m := Move(-1, 0, "X");
    assert IsValidMove(g, m);
    AsWrittenPlaysAtSlot(g, m);
    assert CellAt(ProcessMove(g, m), m) == m;
    assert Slot(-1, 3) == 2 && Slot(0, 3) == 0;
    MoveRoundTrip(m);
  }

  /** As written, a valid addressable move is broadcast and its board is
      the one `process_move` builds, wherever its coordinates point. */
  lemma AsWrittenPlaysAtSlot(g: GameState, m: Move)
    requires WellFormed(g) && Addressable(g, m) && IsValidMove(g, m)
    ensures var r := StepAsWritten(g, MoveRequest(EncodeMove(m)));
      r.1.Broadcast? && r.0.moves == ProcessMove(g, m).moves
  {
    MoveRoundTrip(m);
  }
}
