/** How a client rebuilds the board and the roster from the server's
    `start_game` message (client.py). */
module Client {
  import opened Wrappers
  import opened Elements
  import opened Protocol
  import Game
  import Server

  /** The number of values `range(k)` yields. */
  function RangeLen(k: int): nat {
    if k < 0 then 0 else k
  }

  /** `board_state[row][col]` exists for every row, col in `range(n)` and
      rebuilds into a move. */
  predicate DecodableBoard(state: seq<seq<Fields>>, n: nat) {
    && n <= |state|
    && (forall r :: 0 <= r < n ==> n <= |state[r]|)
    && (forall r, c :: 0 <= r < n && 0 <= c < n ==> DecodeMove(state[r][c]).Some?)
  }

  /** `handle_current_moves`: a board_size-by-board_size grid, every cell
      `Move(row, col)` before the game has started, else the move rebuilt
      from the transmitted board. `None` when a missing key, a short row or a
      malformed move would raise. */
  function HandleCurrentMoves(s: Snapshot): (r: Option<seq<seq<Move>>>)
    ensures r.Some? ==> Game.IsSquare(r.value, RangeLen(s.boardData.boardSize))
    ensures !s.alreadyStarted ==>
      && r.Some?
      && forall row, col :: 0 <= row < |r.value| && 0 <= col < |r.value[row]| ==>
           r.value[row][col] == Move(row, col, Unplayed)
    ensures s.alreadyStarted ==>
      (r.Some? <==> s.boardData.boardState.Some?
                    && DecodableBoard(s.boardData.boardState.value, RangeLen(s.boardData.boardSize)))
    ensures s.alreadyStarted && r.Some? ==>
      forall row, col :: 0 <= row < |r.value| && 0 <= col < |r.value[row]| ==>
        DecodeMove(s.boardData.boardState.value[row][col]) == Some(r.value[row][col])
  {
    var n := RangeLen(s.boardData.boardSize);
    if s.alreadyStarted then
      match s.boardData.boardState
      case None => None
      case Some(state) =>
        if DecodableBoard(state, n) then
          Some(seq(n, row requires 0 <= row < n =>
                 seq(n, col requires 0 <= col < n => DecodeMove(state[row][col]).value)))
        else None
    else
      Some(Game.EmptyBoard(n))
  }

  /** The loop of `handle_all_players`: one `Player(*fields)` per entry, in
      order; the first malformed entry raises. */
  function DecodePlayers(entries: seq<Fields>): (r: Option<seq<Player>>)
    ensures r.Some? ==> |r.value| == |entries|
    ensures r.Some? ==> forall i :: 0 <= i < |entries| ==> EncodePlayer(r.value[i]) == entries[i]
    ensures r.None? <==> exists i :: 0 <= i < |entries| && DecodePlayer(entries[i]).None?
  {
    if |entries| == 0 then Some([])
    else
      assert forall i :: 1 <= i < |entries| ==> entries[i] == entries[1..][i - 1];
      match DecodePlayer(entries[0])
      case None => None
      case Some(p) =>
        match DecodePlayers(entries[1..])
        case None => None
        case Some(rest) => Some([p] + rest)
  }

  /** `handle_all_players`: one player per entry, each the decoding of its
      entry, in order. */
  function HandleAllPlayers(s: Snapshot): (r: Option<seq<Player>>)
    ensures r.Some? ==> |r.value| == |s.boardData.allPlayers|
    ensures r.Some? ==> forall i :: 0 <= i < |r.value| ==>
              DecodePlayer(s.boardData.allPlayers[i]) == Some(r.value[i])
  {
    var r := DecodePlayers(s.boardData.allPlayers);
    assert r.Some? ==> forall i :: 0 <= i < |r.value| ==>
      DecodePlayer(s.boardData.allPlayers[i]) == DecodePlayer(EncodePlayer(r.value[i]));
    r
  }

  /** Decoding an encoded roster gives the roster back, in order. */
  lemma {:induction false} PlayersRoundTrip(players: seq<Player>)
    ensures DecodePlayers(EncodePlayers(players)) == Some(players)
  {
    if |players| > 0 {
      PlayerRoundTrip(players[0]);
      PlayersRoundTrip(players[1..]);
      assert EncodePlayers(players)[1..] == EncodePlayers(players[1..]);
      assert [players[0]] + players[1..] == players;
    }
  }

  /** The client's board rebuilt from the connection response is the
      server's board, whether or not the game has started. */
  lemma SnapshotBoardRoundTrip(g: Game.GameState)
    requires Game.Inv(g)
    ensures HandleCurrentMoves(Server.ConnectionResponse(g)) == Some(g.moves)
  {
    var s := Server.ConnectionResponse(g);
    var n := g.boardSize;
    if g.running {
      var state := EncodeGrid(g.moves);
      forall r, c | 0 <= r < n && 0 <= c < n
        ensures DecodeMove(state[r][c]) == Some(g.moves[r][c])
      {
        MoveRoundTrip(g.moves[r][c]);
      }
      assert DecodableBoard(state, n);
      assert s.boardData.boardState == Some(state);
      assert HandleCurrentMoves(s).Some?;
      var rebuilt := HandleCurrentMoves(s).value;
      assert |rebuilt| == |g.moves|;
      forall r | 0 <= r < n
        ensures rebuilt[r] == g.moves[r]
      {
        assert |rebuilt[r]| == |g.moves[r]|;
        forall c | 0 <= c < n
          ensures rebuilt[r][c] == g.moves[r][c]
        {
          assert DecodeMove(state[r][c]) == Some(rebuilt[r][c]);
        }
      }
      assert rebuilt == g.moves;
    } else {
      assert RangeLen(s.boardData.boardSize) == n;
      assert HandleCurrentMoves(s) == Some(Game.EmptyBoard(n));
    }
  }

  /** The client's roster rebuilt from the connection response is the
      server's, in turn order; so is the current player. */
  lemma SnapshotPlayersRoundTrip(g: Game.GameState)
    requires Game.WellFormed(g)
    ensures HandleAllPlayers(Server.ConnectionResponse(g)) == Some(g.players)
    ensures DecodePlayer(Server.ConnectionResponse(g).boardData.currentPlayer) == Some(Game.CurrentPlayer(g))
  {
    PlayersRoundTrip(g.players);
  }
}
