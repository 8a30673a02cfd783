/** Bishop.GetMoves: the four diagonal slides. */
module Bishops {
  import opened Data
  import opened Pieces
  import opened Boards
  import opened Targets
  import opened Sliding
  import opened Manager

  /** The directions Bishop.GetMoves slides in, in its order. */
  const BishopDirections: seq<Coord> := [Coord(1, 1), Coord(-1, -1), Coord(1, -1), Coord(-1, 1)]

  /** The four directions are distinct unit directions, and they are exactly the directions with no zero component. */
  lemma BishopDirectionsAreDiagonals(from: Coord, to: Coord)
    ensures AllUnit(BishopDirections) && NoDuplicates(BishopDirections)
    ensures Direction(from, to) in BishopDirections <==> to.x != from.x && to.y != from.y
  {
    LineShape(from, to);
  }

  /**
   * The squares Bishop.GetMoves returns: the slides towards (1,1), (-1,-1),
   * (1,-1) and (-1,1), concatenated in that order.
   */
  function BishopMoves(g: Grid, color: Color, pos: Coord): seq<Coord>
    requires IsGrid(g)
  {
    BishopDirectionsAreDiagonals(pos, pos);
    Rays(g, color, pos, BishopDirections)
  }

  /** The four diagonal rays hold exactly the reached squares on the diagonals through `pos`, each once. */
  lemma BishopMovesSpec(g: Grid, color: Color, pos: Coord)
    requires IsGrid(g)
    ensures forall c :: c in BishopMoves(g, color, pos) <==>
      c != pos && Abs(c.x - pos.x) == Abs(c.y - pos.y)
      && Reaches(g, color, pos, Direction(pos, c), Distance(pos, c))
    ensures forall c :: c in BishopMoves(g, color, pos) ==> InBounds(c) && !Friendly(g, color, c)
    ensures NoDuplicates(BishopMoves(g, color, pos))
  {
    BishopDirectionsAreDiagonals(pos, pos);
    RaysNoDuplicates(g, color, pos, BishopDirections);
    forall c
      ensures c in Rays(g, color, pos, BishopDirections) <==>
        c != pos && Abs(c.x - pos.x) == Abs(c.y - pos.y)
        && Reaches(g, color, pos, Direction(pos, c), Distance(pos, c))
      ensures c in Rays(g, color, pos, BishopDirections) ==> InBounds(c) && !Friendly(g, color, c)
    {
      RaysMember(g, color, pos, BishopDirections, c);
      LineShape(pos, c);
      BishopDirectionsAreDiagonals(pos, c);
    }
  }

  /** Bishop.GetMoves: appends the four slides in order. */
  method GetMoves(bm: BoardManager, piece: Piece) returns (moves: seq<Coord>)
    requires bm.gameBoard.Valid()
    ensures moves == BishopMoves(bm.Cells(), piece.color, piece.currentPosition)
  {
    ghost var g, color, pos, dirs := bm.Cells(), piece.color, piece.currentPosition, BishopDirections;
    BishopDirectionsAreDiagonals(pos, pos);
    assert dirs[..0] == [];
    moves := [];
    var ray;
    ray := GetSlidingMoves(bm, piece, 1, 1);
    RaysSnoc(g, color, pos, dirs, 0);
    moves := moves + ray;
    ray := GetSlidingMoves(bm, piece, -1, -1);
    RaysSnoc(g, color, pos, dirs, 1);
    moves := moves + ray;
    ray := GetSlidingMoves(bm, piece, 1, -1);
    RaysSnoc(g, color, pos, dirs, 2);
    moves := moves + ray;
    ray := GetSlidingMoves(bm, piece, -1, 1);
    RaysSnoc(g, color, pos, dirs, 3);
    moves := moves + ray;
    assert dirs[..4] == dirs;
  }
}
