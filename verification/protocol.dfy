/** The messages exchanged between server and client, with JSON left abstract.
    A NamedTuple (`Player`, `Move`) crosses the wire as the list of its
    fields in declaration order, and the receiver rebuilds it positionally
    (`Move(*fields)`, `Player(*fields)`). */
module Protocol {
  import opened Wrappers
  import opened Elements

  /** A scalar inside a JSON array. */
  datatype Value = Int(i: int) | Str(s: string)

  /** The list a NamedTuple becomes on the wire. */
  type Fields = seq<Value>

  function EncodeMove(m: Move): Fields {
    [Int(m.row), Int(m.col), Str(m.mark)]
  }

  /** `Move(*fs)`: two or three positional fields; a missing label takes the
      default. Any other arity makes Python raise, which is `None` here. */
  function DecodeMove(fs: Fields): (r: Option<Move>)
    ensures r.Some? ==> fs == EncodeMove(r.value)
                        || (fs == [Int(r.value.row), Int(r.value.col)] && IsUnplayed(r.value))
    ensures |fs| < 2 || 3 < |fs| ==> r.None?
  {
    if |fs| == 2 && fs[0].Int? && fs[1].Int? then
      Some(EmptyMove(fs[0].i, fs[1].i))
    else if |fs| == 3 && fs[0].Int? && fs[1].Int? && fs[2].Str? then
      Some(Move(fs[0].i, fs[1].i, fs[2].s))
    else
      None
  }

  function EncodePlayer(p: Player): Fields {
    [Str(p.mark), Str(p.color)]
  }

  /** `Player(*fs)`: exactly two positional fields. */
  function DecodePlayer(fs: Fields): (r: Option<Player>)
    ensures r.Some? <==> exists p :: fs == EncodePlayer(p)
    ensures r.Some? ==> fs == EncodePlayer(r.value)
  {
    if |fs| == 2 && fs[0].Str? && fs[1].Str? then
      assert fs == EncodePlayer(Player(fs[0].s, fs[1].s));
      Some(Player(fs[0].s, fs[1].s))
    else
      None
  }

  /** A board crosses the wire as rows of encoded moves. */
  function EncodeGrid(moves: seq<seq<Move>>): seq<seq<Fields>> {
    seq(|moves|, r requires 0 <= r < |moves| =>
      seq(|moves[r]|, c requires 0 <= c < |moves[r]| => EncodeMove(moves[r][c])))
  }

  function EncodePlayers(players: seq<Player>): seq<Fields> {
    seq(|players|, i requires 0 <= i < |players| => EncodePlayer(players[i]))
  }

  /** Decoding an encoded move gives the move back. */
  lemma MoveRoundTrip(m: Move)
    ensures DecodeMove(EncodeMove(m)) == Some(m)
  {
  }

  /** A move sent as just (row, col) is rebuilt with the empty-cell label. */
  lemma MoveDefaultLabel(row: int, col: int)
    ensures DecodeMove([Int(row), Int(col)]) == Some(Move(row, col, Unplayed))
  {
  }

  /** Decoding an encoded player gives the player back. */
  lemma PlayerRoundTrip(p: Player)
    ensures DecodePlayer(EncodePlayer(p)) == Some(p)
  {
  }

  /** The `game_status` values of a move broadcast. */
  const StatusTie: string := "tie"
  const StatusWin: string := "win"
  const StatusRunning: string := "running"

  /** `board_data` of the connection response; `boardState` is present only
      when the game has started. */
  datatype BoardData = BoardData(
    currentPlayer: Fields,
    boardSize: int,
    allPlayers: seq<Fields>,
    boardState: Option<seq<seq<Fields>>>)

  /** The `start_game` message a client receives after `connect`. */
  datatype Snapshot = Snapshot(alreadyStarted: bool, boardData: BoardData)

  /** Messages the server sends, one constructor per `type` tag:
      `start_game`, `is_valid_move`, `is_valid_restart`, `confirm_disconnect`. */
  datatype ServerMsg =
    | StartGame(snapshot: Snapshot)
    | MoveResult(move: Fields, currentPlayer: Fields, gameStatus: string)
    | RestartAccepted
    | ConfirmDisconnect

  /** Messages a client sends; `Unrecognized` is any other `type` tag. */
  datatype ClientMsg =
    | Connect
    | MoveRequest(move: Fields)
    | Restart
    | RequestDisconnect
    | Unrecognized(kind: string)
}
