/** Queen.GetMoves: the rook's four slides followed by the bishop's four. */
module Queens {
  import opened Data
  import opened Pieces
  import opened Boards
  import opened Targets
  import opened Sliding
  import opened Manager
  import Rooks
  import Bishops

  /** The directions Queen.GetMoves slides in, in its order: the rook's, then the bishop's. */
  const QueenDirections: seq<Coord> :=
    [Coord(1, 0), Coord(-1, 0), Coord(0, 1), Coord(0, -1), Coord(1, 1), Coord(-1, -1), Coord(1, -1), Coord(-1, 1)]

  /** The eight directions are distinct unit directions: the rook's four, then the bishop's four. */
  lemma QueenDirectionsAreUnit()
    ensures AllUnit(QueenDirections) && NoDuplicates(QueenDirections)
    ensures QueenDirections == Rooks.RookDirections + Bishops.BishopDirections
  {
    Rooks.RookDirectionsAreOrthogonal(Coord(0, 0), Coord(0, 0));
    Bishops.BishopDirectionsAreDiagonals(Coord(0, 0), Coord(0, 0));
  }

  /**
   * A square is in the rook's or the bishop's list exactly when it lies on a
   * line through `pos` that the slide reaches; no square is in both.
   */
  lemma RookOrBishop(g: Grid, color: Color, pos: Coord, c: Coord)
    requires IsGrid(g)
    ensures c in Rooks.RookMoves(g, color, pos) + Bishops.BishopMoves(g, color, pos) <==>
      OnLine(pos, c) && Reaches(g, color, pos, Direction(pos, c), Distance(pos, c))
    ensures c in Rooks.RookMoves(g, color, pos) ==> c !in Bishops.BishopMoves(g, color, pos)
  {
    Rooks.RookMovesSpec(g, color, pos);
    Bishops.BishopMovesSpec(g, color, pos);
    LineShape(pos, c);
  }

  /**
   * The squares Queen.GetMoves returns: the slides towards (1,0), (-1,0), (0,1), (0,-1), then
   * (1,1), (-1,-1), (1,-1), (-1,1), concatenated in that order.
   */
  function QueenMoves(g: Grid, color: Color, pos: Coord): seq<Coord>
    requires IsGrid(g)
  {
    QueenDirectionsAreUnit();
    Rays(g, color, pos, QueenDirections)
  }

  /** The queen's list is the rook's list followed by the bishop's list for the same square and board. */
  lemma QueenIsRookThenBishop(g: Grid, color: Color, pos: Coord)
    requires IsGrid(g)
    ensures QueenMoves(g, color, pos) == Rooks.RookMoves(g, color, pos) + Bishops.BishopMoves(g, color, pos)
  {
    QueenDirectionsAreUnit();
    RaysAppend(g, color, pos, Rooks.RookDirections, Bishops.BishopDirections);
  }

  /**
   * A square is in the queen's list exactly when it lies on a file,
   * rank or diagonal through `pos` and the slide along that line reaches it;
   * every result is on the board, not friendly, and appears once.
   */
  lemma QueenMovesSpec(g: Grid, color: Color, pos: Coord)
    requires IsGrid(g)
    ensures forall c :: c in QueenMoves(g, color, pos) <==>
      OnLine(pos, c) && Reaches(g, color, pos, Direction(pos, c), Distance(pos, c))
    ensures forall c :: c in QueenMoves(g, color, pos) ==> InBounds(c) && !Friendly(g, color, c)
    ensures NoDuplicates(QueenMoves(g, color, pos))
  {
    var rook := Rooks.RookMoves(g, color, pos);
    var bishop := Bishops.BishopMoves(g, color, pos);
    QueenIsRookThenBishop(g, color, pos);
    forall c
      ensures c in rook + bishop <==> OnLine(pos, c) && Reaches(g, color, pos, Direction(pos, c), Distance(pos, c))
      ensures c in rook ==> c !in bishop
    {
      RookOrBishop(g, color, pos, c);
    }
    assert NoDuplicates(rook) && NoDuplicates(bishop) by {
      Rooks.RookMovesSpec(g, color, pos);
      Bishops.BishopMovesSpec(g, color, pos);
    }
    NoDuplicatesConcat(rook, bishop);
  }

  /** Queen.GetMoves: appends the four orthogonal slides, then the four diagonal ones. */
  method GetMoves(bm: BoardManager, piece: Piece) returns (moves: seq<Coord>)
    requires bm.gameBoard.Valid()
    ensures moves == QueenMoves(bm.Cells(), piece.color, piece.currentPosition)
  {
    ghost var g, color, pos, dirs := bm.Cells(), piece.color, piece.currentPosition, QueenDirections;
    QueenDirectionsAreUnit();
    assert dirs[..0] == [];
    moves := [];
    var ray;
    ray := GetSlidingMoves(bm, piece, 1, 0);
    RaysSnoc(g, color, pos, dirs, 0);
    moves := moves + ray;
    ray := GetSlidingMoves(bm, piece, -1, 0);
    RaysSnoc(g, color, pos, dirs, 1);
    moves := moves + ray;
    ray := GetSlidingMoves(bm, piece, 0, 1);
    RaysSnoc(g, color, pos, dirs, 2);
    moves := moves + ray;
    ray := GetSlidingMoves(bm, piece, 0, -1);
    RaysSnoc(g, color, pos, dirs, 3);
    moves := moves + ray;
    ray := GetSlidingMoves(bm, piece, 1, 1);
    RaysSnoc(g, color, pos, dirs, 4);
    moves := moves + ray;
    ray := GetSlidingMoves(bm, piece, -1, -1);
    RaysSnoc(g, color, pos, dirs, 5);
    moves := moves + ray;
    ray := GetSlidingMoves(bm, piece, 1, -1);
    RaysSnoc(g, color, pos, dirs, 6);
    moves := moves + ray;
    ray := GetSlidingMoves(bm, piece, -1, 1);
    RaysSnoc(g, color, pos, dirs, 7);
    moves := moves + ray;
    assert dirs[..8] == dirs;
  }
}
