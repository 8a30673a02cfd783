/**
 * The record of one committed move (Move.cs): where the piece came from,
 * where it went, and which piece it was.
 */
module Moves {
  import opened Data
  import opened Pieces

  datatype Move = Move(startPosition: Coord, endPosition: Coord, piece: Piece)

  /**
   * The struct's constructor. Its arguments come in the order
   * (destination, origin, piece), the reverse of the fields.
   */
  function NewMove(newPosition: Coord, currentPosition: Coord, piece: Piece): (m: Move)
    ensures m.startPosition == currentPosition
    ensures m.endPosition == newPosition
    ensures m.piece == piece
  {
    Move(currentPosition, newPosition, piece)
  }
}
