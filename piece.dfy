/**
 * The state of a piece (Piece.cs). A piece is an object: the board and the
 * move history refer to it, and commits move it by updating its
 * `currentPosition` in place.
 */
module Pieces {
  import opened Data

  class Piece {
    /** The side the piece belongs to; no code of the core reassigns it. */
    const color: Color
    /** The piece's kind (the C# field `type`, and the name of its subclass). */
    const kind: PieceType
    /**
     * Read by the king's castling test but never assigned anywhere in the core,
     * so it keeps the value the piece was created with.
     */
    const hasMoved: bool
    /** The square the piece believes it stands on. */
    var currentPosition: Coord

    /** A freshly spawned piece; its position is Vector2Int's default until it is placed. */
    constructor (color: Color, kind: PieceType, hasMoved: bool)
      ensures this.color == color && this.kind == kind && this.hasMoved == hasMoved
      ensures currentPosition == Coord(0, 0)
    {
      this.color := color;
      this.kind := kind;
      this.hasMoved := hasMoved;
      currentPosition := Coord(0, 0);
    }
  }
}
