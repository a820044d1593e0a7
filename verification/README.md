# Tic-tac-toe over websockets: rules engine, server dispatch and client mirror

This project models the core of a networked tic-tac-toe game:

- the server's authoritative rules engine, `TicTacToeGame` (module `Game`);
- the server's handling of the `connect`, `move`, `restart` and
  `request_disconnect` messages (module `Server`);
- the client's reconstruction of the board and the roster from the server's
  `start_game` message (module `Client`);
- the client's state update and status line on a move broadcast or a reset
  (module `ClientBoard`);
- the shared `Player` and `Move` values (module `Elements`) and their
  encoding as field lists on the wire (module `Protocol`);
- one complete game on the default board, played through the server's
  dispatch from the opening move to a won game and a restart (module
  `Scenario`).

Everything is an immutable datatype with pure functions.

The game is the record `GameState(players, boardSize, moves, playerIdx,
hasWinner, winnerCombo, running)`:

- The cyclic player iterator becomes `playerIdx`, taken modulo `|players|`.
- Every mutating method becomes a function from the old state to the new one.
- The dispatch is `Server.Step(state, message) -> (state, outbound)`.
  `Step` is the corrected dispatch: its move arm refuses every coordinate
  outside 0..n-1. `Server.StepAsWritten` is the code as written, which also
  accepts -n..-1 through Python's negative indexing (see "## Findings").
  The outbound value is one of:
  - `Silent`: nothing is sent.
  - `Reply(msg)`: sent to the sender only.
  - `Broadcast(msg)`: sent to every connection.
  - `Aborted`: the handler ends and the game is untouched. As written, this
    happens when `Move(*fields)` raises, or when indexing the board raises
    (a row or column outside -n..n-1). `Step` also ends it this way for a
    row or column in -n..-1.
- A message that cannot be built, or a lookup that finds nothing, is an
  `Option`.
- Python raising is `None`.

The field holding a player's or a move's label is called `mark`, because
`label` is a Dafny keyword.

Some facts about the code that the model keeps:

- The server keeps no registry of player roles.
- The server does not check whose turn it is. A move's label comes from the
  client, which labels its move with whoever's turn it is
  (client_logic/board.py:100-102).
- The server sends no reply to an invalid move or a refused restart.
- On a move broadcast the client changes only its current player and its
  status line; on a reset it changes only its status line. Its own
  `current_moves` is never written; only the widgets are.

## Model

| member | source | states |
|---|---|---|
| Protocol.DecodeMove | game_elements.py:12-15 | `Move(*fields)` succeeds only on two or three fields. The fields are then the move's encoding, or its row and column alone with the empty label as default. |
| Protocol.MoveRoundTrip | server.py:35 | A move sent as its field list is rebuilt positionally into the same move. |
| Protocol.MoveDefaultLabel | game_elements.py:15 | A move built from only a row and a column carries the empty label, which marks an unplayed cell. |
| Protocol.DecodePlayer | game_elements.py:7-9 | `Player(*fields)` succeeds exactly on a (label, colour) pair, and that pair is the player's encoding. |
| Protocol.PlayerRoundTrip | client.py:29 | A player sent as its field list is rebuilt into the same player. |
| Game.NewGame | server_logic/game.py:16-32 | The constructor gives an n×n board with `Move(r, c, "")` in every cell. The first configured player is current. There is no winner, the winner combo is empty, and the game is not running. An empty player list raises. |
| Game.WinningCombos | server_logic/game.py:35-43 | Deriving the lines by transposing and reversing the board gives exactly the n rows, then the n columns, then the diagonal (i, i), then the anti-diagonal (i, n-1-i). That is 2n+2 lines of length n. |
| Game.WinningLineIsMonoLabelled | server_logic/game.py:56-60 | The winning test (a label set of size one, not containing "") holds exactly when the line is non-empty and every cell carries the same non-empty label. |
| Game.FirstWin | server_logic/game.py:55-64 | The scan returns the first winning line in build order, or nothing exactly when no line wins. |
| Game.IsValidMove | server_logic/game.py:45-48 | A move is valid only in a game that is neither won nor tied. |
| Game.MovePossibleIffNotOver | server_logic/game.py:45-48 | Some cell of the board accepts a move, whatever its label, exactly when the game is neither won nor tied. |
| Game.ProcessMove | server_logic/game.py:50-64 | The move is stored at its cell and every other cell is unchanged. The game is running. The winner flag is the old flag or "some line now wins". A new win records the first winning line in scan order. The turn is not advanced. |
| Game.IsTied | server_logic/game.py:69-75 | A tie holds exactly when every cell is played and there is no winner, so a tie and a win are never both true. |
| Game.NextIndex | server_logic/game.py:17-20 | The cyclic iterator's step is the next position, wrapping from the last player to the first. |
| Game.TogglePlayer | server_logic/game.py:77-78 | The next configured player becomes current, wrapping from the last to the first. Nothing else changes. |
| Game.ToggleTimesIndex | server_logic/game.py:77-78 | After k ≤ \|players\| toggles, the current player is k places further along the cycle. |
| Game.ToggleCycle | server_logic/game.py:17-20 | Toggling once per configured player gives back the original current player. |
| Game.ResetGame | server_logic/game.py:80-86 | Every cell is reset to `Move(r, c, "")`. The winner flag and combo are cleared and the game stops running. The current player is kept. |
| Game.ResetIsFreshGame | server_logic/game.py:80-86 | A reset game equals a freshly constructed game, except that the current player is kept. |
| Game.ResetMakesEveryCellPlayable | server_logic/game.py:45-48 | After a reset, `is_valid_move` holds for every addressable cell. |
| Game.EmptyBoardHasNoWin | server_logic/game.py:55-64 | No line of an unplayed board passes the winning test. |
| Game.NewGameInv | server_logic/game.py:16-32 | A new game satisfies the invariant. |
| Game.ResetInv | server_logic/game.py:80-86 | A reset game satisfies the invariant. |
| Game.ProcessMoveInv | server_logic/game.py:45-64 | A valid move keeps the invariant. In particular, a recorded winner has a winning line whose cells all carry one non-empty label. |
| Game.LabelsAvoidingCell | server_logic/game.py:54-59 | Storing a move in one cell leaves the label set of every line avoiding that cell unchanged. |
| Game.NewWinRunsThroughCell | server_logic/game.py:54-64 | A line that wins only after one cell changed runs through that cell. |
| Game.WinnerIsTheMover | server_logic/game.py:50-64 | The line a valid move wins with carries that move's label in every cell. |
| Server.ConnectionResponse | server.py:68-87 | `already_started` equals `running`. `board_state` is present exactly when the game is running. The current player, the board size and every player are always included. |
| Server.PlayMove | server.py:36-56 | An invalid move changes nothing and sends nothing. A valid move is broadcast with status "tie" exactly when the game is then tied, and "win" exactly when it then has a winner. Otherwise the status is "running". Only a running game passes the turn, and the broadcast names the resulting current player. |
| Server.HandleMove | server.py:35-37 | This is the corrected move arm. A move that cannot be rebuilt, or that lies off the board, aborts the handler and leaves the game untouched. A move on the board is handled exactly by `PlayMove`. |
| Server.HandleMoveAsWritten | server.py:35-37 | This is the move arm as written. A move that cannot be rebuilt, or that Python cannot index (outside -n..n-1), aborts and leaves the game untouched. Every indexable move is handled exactly by `PlayMove`. |
| Server.Step | server.py:29-65 | This is the corrected dispatch: a move goes to the corrected move arm `HandleMove`. Each message type gets its reply or broadcast. Only a broadcast changes the game. Only `connect` and `request_disconnect` are answered to the sender alone. A restart is accepted only on a tied or won game and then resets it. |
| Server.StepAsWritten | server.py:29-65 | This is the dispatch as written. It equals `Step` for every message other than a move, and a move goes to `HandleMoveAsWritten`. |
| Server.StepInv | server.py:34-62 | Every step keeps the game invariant and keeps each cell's move at its own coordinates. |
| Server.PlayMoveInv | server.py:36-56 | The `move` arm keeps the invariant and the coordinates. |
| Server.PlacedAtOwnCell | server_logic/game.py:50-54 | A move stored at its own on-board coordinates keeps every cell's move at that cell's coordinates. |
| Server.ToggleKeepsInv | server_logic/game.py:77-78 | Passing the turn keeps the invariant and leaves the board as it was. |
| Server.PlayMoveKeepsInv | server.py:36-56 | The `move` arm keeps the invariant for every move Python can index, negative coordinates included. |
| Server.StepAsWrittenInv | server.py:29-65 | The dispatch as written keeps the invariant on every message. A recorded winner is a full winning line of one non-empty label, and an idle board is empty. |
| Server.StepNeverOverwrites | server.py:36-38 | A played cell keeps its move under every message except an accepted restart. |
| Server.StepAsWrittenNeverOverwrites | server.py:34-62 | As written too, a played cell keeps its move under every message except an accepted restart. A negative coordinate only ever reaches an unplayed cell. |
| Server.WinBroadcast | server.py:43-47 | A "win" broadcast names the unchanged current player. Every cell of the recorded line carries the winning move's label. |
| Server.TurnPassesOnlyWhileRunning | server.py:38-56 | A valid move hands the turn to the next player exactly when the status is "running". |
| Server.InvalidMoveIsDropped | server.py:36 | A move refused by the rules leaves the state unchanged and sends nothing, not even to the sender. |
| Server.OutOfTurnMoveAccepted | server.py:35-37 | A move carrying another player's label is accepted like any other. |
| Server.RestartOnlyWhenOver | server.py:57-62 | A restart is broadcast exactly when the game is tied or won, and it then resets the game. On a board that is not running (size > 0), it does nothing. |
| Server.NegativeRowLandsOnLastRow | server_logic/game.py:45-54 | As written, a fresh 3×3 game accepts a move at row -1 and stores it in row 2 with mismatched coordinates. The corrected step aborts it. |
| Server.AsWrittenPlaysAtSlot | server.py:35-37 | As written, a valid move at any index Python accepts is broadcast, and the board becomes the one `process_move` builds. |
| Scenario.Move1 | server.py:34-56 | A fresh default game matches the opening state. X's opening move at (0,0) is broadcast as "running", with O to play. |
| Scenario.RepeatedCellRefused | server.py:36 | O's move on the taken cell (0,0) is dropped without a reply. |
| Scenario.Move2 | server.py:48-56 | O at (1,1) is broadcast as "running", and X is to play. |
| Scenario.Move3 | server.py:48-56 | X at (0,1) is broadcast as "running", and O is to play. |
| Scenario.Move4 | server.py:48-56 | O at (2,2) is broadcast as "running", and X is to play. |
| Scenario.LinesOfThree | server_logic/game.py:35-43 | The lines of a 3×3 board, in scan order, are the three rows, the three columns, the diagonal and the anti-diagonal, written out. |
| Scenario.EmptyBoardOfThree | server_logic/game.py:28-32 | The fresh 3×3 board is `Move(r, c, "")` in each of its nine cells, written out. |
| Scenario.TopRowWins | server.py:43-47 | X at (0,2) is broadcast as "win" naming X. The recorded line is the top row, and the turn stays with X. |
| Scenario.WinningMoveRecorded | server_logic/game.py:50-64 | After X at (0,2), the first winning line in scan order is the top row, and it is the recorded line. |
| Scenario.TopRowIsFirstWin | server_logic/game.py:35-43 | The top row is the first line in scan order, and it wins on the final board. |
| Scenario.RestartAfterWin | server.py:57-62 | After the win a restart is broadcast and the board is empty again. X, whose turn it was, still moves first. |
| Client.HandleCurrentMoves | client.py:10-23 | The result is a board_size×board_size grid. It is all `Move(r, c, "")` before the game starts. Afterwards each cell is rebuilt from `board_state[r][c]`, and a short or malformed board raises. |
| Client.DecodePlayers | client.py:26-30 | One player per entry, in order, each encoding back to its entry. It raises exactly when some entry is malformed. |
| Client.HandleAllPlayers | client.py:26-30 | The roster has as many players as entries, and each entry decodes to its player. |
| Client.PlayersRoundTrip | client.py:26-30 | Decoding an encoded roster gives the roster back. |
| Client.SnapshotBoardRoundTrip | server.py:84-85 | The grid a client rebuilds from the connection response is the server's grid, whether or not the game has started. |
| Client.SnapshotPlayersRoundTrip | server.py:74-79 | The roster and the current player a client rebuilds from the connection response are the server's. |
| ClientBoard.FindPlayerByLabel | client_logic/board.py:25-28 | The result is the first player carrying the label, or nothing exactly when no player carries it. |
| ClientBoard.MoveDisplay | client_logic/board.py:112-129 | "tie" shows "Tied game!" in red. "win" shows "You won!" exactly when this client is the current player, otherwise `Player "<label>" won!`, in the current player's colour. "running" shows "Your turn!" exactly when this client is current, otherwise "<label>'s turn", in black. |
| ClientBoard.ReadyDisplay | client_logic/board.py:161-167 | After a reset, the status is "Your turn!" exactly when this client is the current player, otherwise "<label>'s turn." with a period, in black. |
| ClientBoard.EndsDiffer | client_logic/board.py:124-128 | A proof helper for `MoveDisplay` and `ReadyDisplay`: a turn text ending in something other than "!" is never "Your turn!". |
| ClientBoard.StartsDiffer | client_logic/board.py:116-120 | A proof helper for `MoveDisplay`: a `Player "..." won!` text is never "You won!". |
| ClientBoard.ReceiveMove | client_logic/board.py:105-129 | The message must be `is_valid_move`. The move must rebuild, name a drawn cell and carry a known label. Then the transmitted player becomes current, and nothing else but the status line changes. The status line is the one `MoveDisplay` selects for the broadcast status, the assigned player and the new current player. |
| ClientBoard.ReceiveResetOrder | client_logic/board.py:161-171 | Only the status line changes, to the ready text. |
| ClientBoard.MirrorFollowsServer | client_logic/board.py:105-122 | A client with the server's board size that knows the mover's label accepts every move broadcast by the corrected `Step`. It then shows the server's current player, and after a win it says "You won!" exactly when it was assigned that player. |
| ClientBoard.NegativeMoveBreaksClients | client_logic/board.py:105-109 | As written, the server broadcasts `[-1, 0, "X"]` on a fresh 3×3 game, and every client fails to take it in: the move names no cell the client drew, so the button lookup at client_logic/board.py:131-141 finds nothing. |

## Left out

- Websocket plumbing is left out: `register`, the `CONNECTIONS` set, delivery of `websockets.broadcast`/`send`, the asyncio tasks and both `main`s. This is I/O and concurrency. A broadcast is an outbound value.
- JSON is left out. Messages are records, and a NamedTuple travels as its field list.
- Protocol.DecodeMove: a move field of the wrong JSON type (a string row, a numeric label) counts as undecodable. Python would build the NamedTuple anyway and fail later, or not at all.
- Protocol.DecodePlayer: a player field of the wrong JSON type (a numeric label or colour) counts as undecodable. `Player(*fields)` accepts any two values.
- A message without a `type` key (a `KeyError` in Python) is not modelled. A message with an unknown type is `Unrecognized` and does nothing.
- Game.NewGame: the board size is a `nat`. A negative size, which Python's `range` would treat as an empty board, is not modelled; the server only ever uses 3.
- `has_winner` is the `hasWinner` field and has no separate function.
- All tkinter code is left out: widget creation, layout, menus, `_set_buttons`, `_update_button`, `_find_button`, `run_board`. The conditions under which `_update_button` raises are kept in `ReceiveMove`; the drawing is not.
- `_create_board_display` shows the same text as `ReadyDisplay` and is not modelled separately.
- client.py `receive_message` (the client's loop over the type tag) is not modelled. `main`'s `GameState` construction omits `assigned_player`, and `TicTacToeBoard, GameState` is imported from a module that lacks `GameState`. The client state is taken as given.
- client/board.py is an older interface whose game logic is disabled. board.py is a local driver importing a module that does not exist. Neither is part of this model.
- Session roles, spectators and turn ownership do not exist in the code, so nothing models them.

## Findings

| source | as written | input that shows it | evidently intended | confidence | as-written member | corrected member |
|---|---|---|---|---|---|---|
| server_logic/game.py:45-54 | `is_valid_move` and `process_move` index the board with the move's row and column as given. Python's negative indexing therefore accepts a row or column in -n..-1 and stores the move in a cell counted from the end, keeping its negative coordinates. | On a fresh 3×3 game, the message `move` with `[-1, 0, "X"]` is broadcast as valid. Cell (2, 0) then holds `Move(-1, 0, "X")`. Every client's `receive_move` then fails, because `_find_button` finds no button for row -1 (`ClientBoard.NegativeMoveBreaksClients`). | Only coordinates 0..n-1 are accepted. A move outside the board fails like any other out-of-range index, and every cell's move keeps its own coordinates. | medium, not executed | Server.NegativeRowLandsOnLastRow | Server.StepInv |
