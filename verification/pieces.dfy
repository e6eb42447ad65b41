/**
 * Pieces and the squares that hold them.
 *
 * A piece is identified by the side that owns it and whether it has been
 * crowned. A square of the board is either empty or holds exactly one piece
 * (an empty square is the `Empty` variant, not a missing piece).
 */
module Pieces {

  /** A piece: `isPlayerOne` tells its side, `isKing` its rank. */
  datatype Piece = Piece(isPlayerOne: bool, isKing: bool)

  /** The contents of one square. */
  datatype Square = Empty | Holds(piece: Piece)

  /** A piece as it enters the game: a man of the given side. */
  function NewPiece(isPlayerOne: bool): (p: Piece)
    ensures p.isPlayerOne == isPlayerOne && !p.isKing
  {
    Piece(isPlayerOne, false)
  }

  /** Crowning sets the king flag and keeps the side. */
  function PromoteToKing(p: Piece): (q: Piece)
    ensures q.isKing && q.isPlayerOne == p.isPlayerOne
  {
    p.(isKing := true)
  }
}
