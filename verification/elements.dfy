/** The two value types shared by the server and the client. */
module Elements {

  /** A participant: the label it draws in the cells it plays (`mark`, since
      `label` is a Dafny keyword) and a display colour. Lookups elsewhere
      compare players by label only. */
  datatype Player = Player(mark: string, color: string)

  /** A move at (`row`, `col`) carrying a player's label in `mark`. A move whose label is `Unplayed` is how the
      board encodes a cell nobody has played yet. */
  datatype Move = Move(row: int, col: int, mark: string)

  /** The default label of a move, and the mark of an empty cell. */
  const Unplayed: string := ""

  /** `Move(row, col)`: a move built without a label takes the default one. */
  function EmptyMove(row: int, col: int): Move {
    Move(row, col, Unplayed)
  }

  /** A cell counts as unplayed exactly when its move carries the default label. */
  predicate IsUnplayed(m: Move) {
    m.mark == Unplayed
  }
}
