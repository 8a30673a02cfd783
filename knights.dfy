/** Knight.GetMoves: the eight L-shaped jumps, kept when they land on the board and not on a friendly piece. */
module Knights {
  import opened Data
  import opened Pieces
  import opened Boards
  import opened Targets
  import opened Manager

  /** The offset table, in the order the scan visits it. */
  const KnightOffsets: seq<Coord> := [
    Coord(2, 1), Coord(1, 2), Coord(-1, 2), Coord(-2, 1),
    Coord(-2, -1), Coord(-1, -2), Coord(1, -2), Coord(2, -1)
  ]

  /** A knight's jump: two squares along one axis and one along the other. */
  predicate KnightJump(from: Coord, to: Coord) {
    var dx, dy := Abs(to.x - from.x), Abs(to.y - from.y);
    (dx == 1 && dy == 2) || (dx == 2 && dy == 1)
  }

  /** The offset table holds exactly the eight knight's jumps, each once. */
  lemma KnightOffsetsAreJumps(from: Coord, to: Coord)
    ensures Offset(from, to) in KnightOffsets <==> KnightJump(from, to)
    ensures NoDuplicates(KnightOffsets)
  {
  }

  /** The squares Knight.GetMoves returns for a knight of side `color` on `pos`. */
  function KnightMoves(g: Grid, color: Color, pos: Coord): seq<Coord>
    requires IsGrid(g)
  {
    OffsetMoves(g, color, pos, KnightOffsets)
  }

  /**
   * A square is a knight move exactly when it is a knight's jump away, on the
   * board, and empty or enemy-occupied; no square comes twice and there are
   * at most eight.
   */
  lemma KnightMovesSpec(g: Grid, color: Color, pos: Coord)
    requires IsGrid(g)
    ensures forall c :: c in KnightMoves(g, color, pos) <==> KnightJump(pos, c) && Open(g, color, c)
    ensures forall c :: c in KnightMoves(g, color, pos) ==> InBounds(c) && !Friendly(g, color, c)
    ensures NoDuplicates(KnightMoves(g, color, pos))
    ensures |KnightMoves(g, color, pos)| <= 8
  {
    OffsetMovesSpec(g, color, pos, KnightOffsets);
    forall c
      ensures Offset(pos, c) in KnightOffsets <==> KnightJump(pos, c)
    {
      KnightOffsetsAreJumps(pos, c);
    }
    KnightOffsetsAreJumps(pos, pos);
  }

  /** Knight.GetMoves: scans the offset table in order. */
  method GetMoves(bm: BoardManager, piece: Piece) returns (moves: seq<Coord>)
    requires bm.gameBoard.Valid()
    ensures moves == KnightMoves(bm.Cells(), piece.color, piece.currentPosition)
    ensures forall c :: c in moves <==> KnightJump(piece.currentPosition, c) && Open(bm.Cells(), piece.color, c)
    ensures NoDuplicates(moves) && |moves| <= 8
  {
    moves := ScanOffsets(bm, piece, KnightOffsets);
    KnightMovesSpec(bm.Cells(), piece.color, piece.currentPosition);
  }
}
