/** Rook.GetMoves: the four orthogonal slides. */
module Rooks {
  import opened Data
  import opened Pieces
  import opened Boards
  import opened Targets
  import opened Sliding
  import opened Manager

  /** The directions Rook.GetMoves slides in, in its order. */
  const RookDirections: seq<Coord> := [Coord(1, 0), Coord(-1, 0), Coord(0, 1), Coord(0, -1)]

  /**
   * The four directions are distinct unit directions, and a direction is a rook's
   * exactly when one of its components is zero and the other is not.
   */
  lemma RookDirectionsAreOrthogonal(from: Coord, to: Coord)
    ensures AllUnit(RookDirections) && NoDuplicates(RookDirections)
    ensures Direction(from, to) in RookDirections <==> (to.x == from.x) != (to.y == from.y)
  {
    LineShape(from, to);
  }

  /**
   * The squares Rook.GetMoves returns: the slides towards (1,0), (-1,0), (0,1) and (0,-1),
   * concatenated in that order.
   */
  function RookMoves(g: Grid, color: Color, pos: Coord): seq<Coord>
    requires IsGrid(g)
  {
    RookDirectionsAreOrthogonal(pos, pos);
    Rays(g, color, pos, RookDirections)
  }

  /** The four orthogonal rays hold exactly the reached squares on the file and rank of `pos`, each once. */
  lemma RookMovesSpec(g: Grid, color: Color, pos: Coord)
    requires IsGrid(g)
    ensures forall c :: c in RookMoves(g, color, pos) <==>
      (c.x == pos.x) != (c.y == pos.y) && Reaches(g, color, pos, Direction(pos, c), Distance(pos, c))
    ensures forall c :: c in RookMoves(g, color, pos) ==> InBounds(c) && !Friendly(g, color, c)
    ensures NoDuplicates(RookMoves(g, color, pos))
  {
    RookDirectionsAreOrthogonal(pos, pos);
    RaysNoDuplicates(g, color, pos, RookDirections);
    forall c
      ensures c in Rays(g, color, pos, RookDirections) <==>
        (c.x == pos.x) != (c.y == pos.y) && Reaches(g, color, pos, Direction(pos, c), Distance(pos, c))
      ensures c in Rays(g, color, pos, RookDirections) ==> InBounds(c) && !Friendly(g, color, c)
    {
      RaysMember(g, color, pos, RookDirections, c);
      LineShape(pos, c);
      RookDirectionsAreOrthogonal(pos, c);
    }
  }

  /** Rook.GetMoves: appends the four slides in order. */
  method GetMoves(bm: BoardManager, piece: Piece) returns (moves: seq<Coord>)
    requires bm.gameBoard.Valid()
    ensures moves == RookMoves(bm.Cells(), piece.color, piece.currentPosition)
  {
    ghost var g, color, pos, dirs := bm.Cells(), piece.color, piece.currentPosition, RookDirections;
    RookDirectionsAreOrthogonal(pos, pos);
    assert dirs[..0] == [];
    moves := [];
    var ray;
    ray := GetSlidingMoves(bm, piece, 1, 0);
    RaysSnoc(g, color, pos, dirs, 0);
    moves := moves + ray;
    ray := GetSlidingMoves(bm, piece, -1, 0);
    RaysSnoc(g, color, pos, dirs, 1);
    moves := moves + ray;
    ray := GetSlidingMoves(bm, piece, 0, 1);
    RaysSnoc(g, color, pos, dirs, 2);
    moves := moves + ray;
    ray := GetSlidingMoves(bm, piece, 0, -1);
    RaysSnoc(g, color, pos, dirs, 3);
    moves := moves + ray;
    assert dirs[..4] == dirs;
  }
}
