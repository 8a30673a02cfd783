/**
 * The occupancy tests every move generator applies to a candidate square,
 * and the fixed-offset scan shared by the knight and the king.
 */
module Targets {
  import opened Data
  import opened Pieces
  import opened Boards
  import opened Manager

  /** Square `c` holds a piece of side `color`. */
  predicate Friendly(g: Grid, color: Color, c: Coord)
    requires IsGrid(g) && InBounds(c)
  {
    At(g, c) != null && At(g, c).color == color
  }

  /** Square `c` holds a piece of the other side. */
  predicate Enemy(g: Grid, color: Color, c: Coord)
    requires IsGrid(g) && InBounds(c)
  {
    At(g, c) != null && At(g, c).color != color
  }

  /** Square `c` is on the board and empty or enemy-occupied. */
  predicate Open(g: Grid, color: Color, c: Coord)
    requires IsGrid(g)
  {
    InBounds(c) && !Friendly(g, color, c)
  }

  predicate NoDuplicates<T(==)>(s: seq<T>) {
    forall i, j :: 0 <= i < j < |s| ==> s[i] != s[j]
  }

  /**
   * The squares a scan over `offsets` from `pos` keeps, in the order of the
   * offsets: each `pos + offset` that is on the board and not friendly.
   */
  function OffsetMoves(g: Grid, color: Color, pos: Coord, offsets: seq<Coord>): seq<Coord>
    requires IsGrid(g)
    decreases |offsets|
  {
    if offsets == [] then []
    else
      var c := pos.Plus(offsets[|offsets| - 1]);
      OffsetMoves(g, color, pos, offsets[..|offsets| - 1]) + (if Open(g, color, c) then [c] else [])
  }

  /**
   * A square is kept exactly when its offset from `pos` is one of the
   * offsets and it is open; distinct offsets give distinct squares, and at
   * most one square is kept per offset.
   */
  lemma {:induction false} OffsetMovesSpec(g: Grid, color: Color, pos: Coord, offsets: seq<Coord>)
    requires IsGrid(g)
    ensures forall c :: c in OffsetMoves(g, color, pos, offsets) <==> Offset(pos, c) in offsets && Open(g, color, c)
    ensures NoDuplicates(offsets) ==> NoDuplicates(OffsetMoves(g, color, pos, offsets))
    ensures |OffsetMoves(g, color, pos, offsets)| <= |offsets|
    decreases |offsets|
  {
    if offsets != [] {
      var n := |offsets| - 1;
      var prefix := offsets[..n];
      var last := pos.Plus(offsets[n]);
      OffsetMovesSpec(g, color, pos, prefix);
      assert offsets == prefix + [offsets[n]];
      assert Offset(pos, last) == offsets[n];
      forall c
        ensures c in OffsetMoves(g, color, pos, offsets) <==> Offset(pos, c) in offsets && Open(g, color, c)
      {
        if Offset(pos, c) == offsets[n] {
          assert c == last;
        }
      }
    }
  }

  /**
   * The fixed-offset loop of Knight.GetMoves and King.GetMoves: visits the
   * offsets in order and keeps each target square that is on the board and
   * empty or enemy-occupied.
   */
  method ScanOffsets(bm: BoardManager, piece: Piece, permutations: seq<Coord>) returns (moves: seq<Coord>)
    requires bm.gameBoard.Valid()
    ensures moves == OffsetMoves(bm.Cells(), piece.color, piece.currentPosition, permutations)
  {
    ghost var g := bm.Cells();
    var pos := piece.currentPosition;
    moves := [];
    for i := 0 to |permutations|
      invariant moves == OffsetMoves(g, piece.color, pos, permutations[..i])
    {
      var xPos := pos.x + permutations[i].x;
      var yPos := pos.y + permutations[i].y;
      var move := Coord(xPos, yPos);
      assert permutations[..i + 1][..i] == permutations[..i];
      if bm.IsWithinBounds(move) {
        if bm.GetPieceAtPosition(move) == null {
          moves := moves + [move];
        } else if bm.GetPieceAtPosition(move).color != piece.color {
          moves := moves + [move];
        }
      }
    }
    assert permutations[..|permutations|] == permutations;
  }
}
