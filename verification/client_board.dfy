/** The client's view of the game (`GameState` and the status logic of
    `TicTacToeBoard` in client_logic/board.py). The client changes its state
    only when the server says so; drawing on widgets is left out. */
module ClientBoard {
  import opened Wrappers
  import opened Elements
  import opened Protocol
  import Game
  import Server

  /** The status line: its text and its colour. */
  datatype Display = Display(text: string, color: string)

  /** The client's `GameState`, plus the status line it shows. */
  datatype ClientState = ClientState(
    boardSize: int,
    currentPlayer: Player,
    assignedPlayer: Player,
    currentMoves: seq<seq<Move>>,
    allPlayers: seq<Player>,
    display: Display)

  const Black: string := "black"
  const Red: string := "red"
  const YourTurn: string := "Your turn!"
  const YouWon: string := "You won!"
  const TiedGame: string := "Tied game!"

  /** `find_player_by_label`: the first player carrying the label, or
      nothing when none does. */
  function FindPlayerByLabel(players: seq<Player>, mark: string): (r: Option<Player>)
    ensures r.None? <==> forall i :: 0 <= i < |players| ==> players[i].mark != mark
    ensures r.Some? ==>
      exists i :: 0 <= i < |players| && players[i] == r.value && r.value.mark == mark
        && forall j :: 0 <= j < i ==> players[j].mark != mark
  {
    if |players| == 0 then None
    else if players[0].mark == mark then Some(players[0])
    else
      var r := FindPlayerByLabel(players[1..], mark);
      assert forall i :: 1 <= i < |players| ==> players[i] == players[1..][i - 1];
      if r.Some? then
        var i :| 0 <= i < |players[1..]| && players[1..][i] == r.value && r.value.mark == mark
                 && forall j :: 0 <= j < i ==> players[1..][j].mark != mark;
        assert players[i + 1] == r.value;
        r
      else r
  }

  /** The status after a move broadcast, from the game status and from
      whether this client is the current player. An unknown status leaves
      the line as it was. */
  function MoveDisplay(status: string, assignedPlayer: Player, currentPlayer: Player, previous: Display): (r: Display)
    ensures status == StatusTie ==> r == Display(TiedGame, Red)
    ensures status == StatusWin ==>
      && r.color == currentPlayer.color
      && (r.text == YouWon <==> assignedPlayer.mark == currentPlayer.mark)
      && (assignedPlayer.mark != currentPlayer.mark ==> r.text == "Player \"" + currentPlayer.mark + "\" won!")
    ensures status == StatusRunning ==>
      && r.color == Black
      && (r.text == YourTurn <==> assignedPlayer.mark == currentPlayer.mark)
      && (assignedPlayer.mark != currentPlayer.mark ==> r.text == currentPlayer.mark + "'s turn")
    ensures status !in {StatusTie, StatusWin, StatusRunning} ==> r == previous
  {
    EndsDiffer(currentPlayer.mark, "'s turn", YourTurn);
    StartsDiffer("Player \"", currentPlayer.mark + "\" won!", YouWon);
    if status == StatusTie then Display(TiedGame, Red)
    else if status == StatusWin then
      var text := if assignedPlayer.mark == currentPlayer.mark then YouWon
                  else "Player \"" + currentPlayer.mark + "\" won!";
      Display(text, currentPlayer.color)
    else if status == StatusRunning then
      var text := if assignedPlayer.mark == currentPlayer.mark then YourTurn
                  else currentPlayer.mark + "'s turn";
      Display(text, Black)
    else previous
  }

  /** The status after a reset, also shown when the window opens. */
  function ReadyDisplay(assignedPlayer: Player, currentPlayer: Player): (r: Display)
    ensures r.color == Black
    ensures r.text == YourTurn <==> assignedPlayer.mark == currentPlayer.mark
    ensures assignedPlayer.mark != currentPlayer.mark ==> r.text == currentPlayer.mark + "'s turn."
  {
    EndsDiffer(currentPlayer.mark, "'s turn.", YourTurn);
    var text := if assignedPlayer.mark == currentPlayer.mark then YourTurn
                else currentPlayer.mark + "'s turn.";
    Display(text, Black)
  }

  /** Two texts whose last characters differ are different. */
  lemma EndsDiffer(head: string, tail: string, other: string)
    requires 0 < |tail| && 0 < |other| && tail[|tail| - 1] != other[|other| - 1]
    ensures head + tail != other
  {
    var t := head + tail;
    assert t[|t| - 1] == tail[|tail| - 1];
  }

  /** Two texts whose first characters differ are different. */
  lemma StartsDiffer(head: string, tail: string, other: string)
    requires 0 < |head| && 0 < |other| && head[0] != other[0]
    ensures head + tail != other
  {
    assert (head + tail)[0] == head[0];
  }

  /** `receive_move`: the message must be `is_valid_move`; the move must
      rebuild, name a cell the client drew and carry a known label (the
      widget update would raise otherwise); then the transmitted player
      becomes current and the status line follows. The client's own board
      is not written. */
  function ReceiveMove(cs: ClientState, msg: ServerMsg): (r: Option<ClientState>)
    ensures r.Some? ==> msg.MoveResult?
    ensures r.Some? ==> DecodePlayer(msg.currentPlayer) == Some(r.value.currentPlayer)
    ensures r.Some? ==> r.value == cs.(currentPlayer := r.value.currentPlayer, display := r.value.display)
    ensures r.Some? ==> r.value.display == MoveDisplay(msg.gameStatus, cs.assignedPlayer, r.value.currentPlayer, cs.display)
    ensures r.Some? <==>
      && msg.MoveResult?
      && DecodeMove(msg.move).Some?
      && 0 <= DecodeMove(msg.move).value.row < cs.boardSize
      && 0 <= DecodeMove(msg.move).value.col < cs.boardSize
      && (exists i :: 0 <= i < |cs.allPlayers| && cs.allPlayers[i].mark == DecodeMove(msg.move).value.mark)
      && DecodePlayer(msg.currentPlayer).Some?
  {
    if !msg.MoveResult? then None
    else match DecodeMove(msg.move)
      case None => None
      case Some(m) =>
        if !(0 <= m.row < cs.boardSize && 0 <= m.col < cs.boardSize) then None
        else if FindPlayerByLabel(cs.allPlayers, m.mark).None? then None
        else match DecodePlayer(msg.currentPlayer)
          case None => None
          case Some(current) =>
            Some(cs.(currentPlayer := current,
                     display := MoveDisplay(msg.gameStatus, cs.assignedPlayer, current, cs.display)))
  }

  /** `receive_reset_order`: only the status line changes; the client's own
      board is not cleared. */
  function ReceiveResetOrder(cs: ClientState): (r: ClientState)
    ensures r == cs.(display := r.display)
    ensures r.display == ReadyDisplay(cs.assignedPlayer, cs.currentPlayer)
  {
    cs.(display := ReadyDisplay(cs.assignedPlayer, cs.currentPlayer))
  }

  /** A client that drew the server's board and knows the mover's label
      accepts every move broadcast, and afterwards shows the server's
      current player; after a win it announces its own victory exactly when
      that player is the one it was assigned. */
  lemma MirrorFollowsServer(g: Game.GameState, cs: ClientState, m: Move)
    requires Game.WellFormed(g) && Game.OnBoard((m.row, m.col), g.boardSize) && Game.IsValidMove(g, m)
    requires cs.boardSize == g.boardSize
    requires exists i :: 0 <= i < |cs.allPlayers| && cs.allPlayers[i].mark == m.mark
    ensures var r := Server.Step(g, MoveRequest(EncodeMove(m)));
      && r.1.Broadcast?
      && ReceiveMove(cs, r.1.msg).Some?
      && ReceiveMove(cs, r.1.msg).value.currentPlayer == Game.CurrentPlayer(r.0)
      && (r.1.msg.gameStatus == StatusWin ==>
            (ReceiveMove(cs, r.1.msg).value.display.text == YouWon
             <==> cs.assignedPlayer.mark == Game.CurrentPlayer(g).mark))
  {
    MoveRoundTrip(m);
  }

  /** As written, the server broadcasts a move at row -1 of a fresh game,
      and no client can take it in: the move names no cell it drew, so its
      widget lookup fails. */
  lemma NegativeMoveBreaksClients(cs: ClientState)
    ensures Game.NewGame(Game.DefaultPlayers, Game.DefaultBoardSize).Some?
    ensures var g := Game.NewGame(Game.DefaultPlayers, Game.DefaultBoardSize).value;
      var r := Server.StepAsWritten(g, MoveRequest(EncodeMove(Move(-1, 0, "X"))));
      && r.1.Broadcast?
      && r.1.msg.MoveResult?
      && r.1.msg.move == EncodeMove(Move(-1, 0, "X"))
      && ReceiveMove(cs, r.1.msg).None?
  {
    var g := Game.NewGame(Game.DefaultPlayers, Game.DefaultBoardSize).value;
    var m := Move(-1, 0, "X");
    Server.NegativeRowLandsOnLastRow();
    assert Game.IsValidMove(g, m);
    MoveRoundTrip(m);
  }
}
