/**
 * Board storage (Board.cs): an 8x8 array of optional piece references with
 * unchecked set, clear and get, and a separate bounds test.
 *
 * The array's contents are described by a value, `Grid`, so that the move
 * generators and the commit can be specified as functions of values.
 */
module Boards {
  import opened Data
  import opened Pieces

  /** `g[x][y]` is the occupant of file `x`, rank `y`, or null. */
  type Grid = seq<seq<Piece?>>

  predicate IsGrid(g: Grid) {
    |g| == 8 && forall x :: 0 <= x < 8 ==> |g[x]| == 8
  }

  /** The occupant of square `c`. */
  function At(g: Grid, c: Coord): Piece?
    requires IsGrid(g) && InBounds(c)
  {
    g[c.x][c.y]
  }

  /** `g` with square `c` holding `p` (null clears it). */
  function Updated(g: Grid, c: Coord, p: Piece?): (h: Grid)
    requires IsGrid(g) && InBounds(c)
    ensures IsGrid(h)
    ensures At(h, c) == p
    ensures forall d :: InBounds(d) && d != c ==> At(h, d) == At(g, d)
  {
    g[c.x := g[c.x][c.y := p]]
  }

  /** The board with no piece on it. */
  function EmptyGrid(): (g: Grid)
    ensures IsGrid(g)
    ensures forall c :: InBounds(c) ==> At(g, c) == null
  {
    seq(8, _ => seq(8, _ => null))
  }

  /** Two grids that agree on every square are the same grid. */
  lemma {:induction false} GridExtensionality(g: Grid, h: Grid)
    requires IsGrid(g) && IsGrid(h)
    requires forall c :: InBounds(c) ==> At(g, c) == At(h, c)
    ensures g == h
  {
    forall x | 0 <= x < 8
      ensures g[x] == h[x]
    {
      forall y | 0 <= y < 8
        ensures g[x][y] == h[x][y]
      {
        assert At(g, Coord(x, y)) == At(h, Coord(x, y));
      }
    }
  }

  /** Clearing a square twice leaves the same board as clearing it once. */
  lemma ClearIdempotent(g: Grid, c: Coord)
    requires IsGrid(g) && InBounds(c)
    ensures Updated(Updated(g, c, null), c, null) == Updated(g, c, null)
  {
    GridExtensionality(Updated(Updated(g, c, null), c, null), Updated(g, c, null));
  }

  /** A write that is overwritten at the same square leaves no trace. */
  lemma OverwriteSquare(g: Grid, c: Coord, p: Piece?, q: Piece?)
    requires IsGrid(g) && InBounds(c)
    ensures Updated(Updated(g, c, p), c, q) == Updated(g, c, q)
  {
    GridExtensionality(Updated(Updated(g, c, p), c, q), Updated(g, c, q));
  }

  class Board {
    /** The 8x8 array; the field is never reassigned, only its cells are. */
    const board: array2<Piece?>

    ghost predicate Valid() {
      board.Length0 == 8 && board.Length1 == 8
    }

    /** Files 0 up to, not including, `n` of the array, as values. */
    ghost function Columns(n: int): (g: seq<seq<Piece?>>)
      reads board
      requires Valid() && 0 <= n <= 8
      ensures |g| == n && forall x :: 0 <= x < n ==> |g[x]| == 8
      decreases n
    {
      if n == 0 then []
      else Columns(n - 1) + [seq(8, y requires 0 <= y < 8 reads board => board[n - 1, y])]
    }

    /** The contents of the array as a value. */
    ghost function Cells(): (g: Grid)
      reads board
      requires Valid()
      ensures IsGrid(g)
    {
      Columns(8)
    }

    /** The first `n` files, square by square, are the array's. */
    lemma {:induction false} ColumnsAt(n: int)
      requires Valid() && 0 <= n <= 8
      ensures forall x, y :: 0 <= x < n && 0 <= y < 8 ==> Columns(n)[x][y] == board[x, y]
      decreases n
    {
      if n > 0 {
        ColumnsAt(n - 1);
      }
    }

    /** Square by square, the value is the array. */
    lemma CellsAt()
      requires Valid()
      ensures forall c :: InBounds(c) ==> At(Cells(), c) == board[c.x, c.y]
    {
      ColumnsAt(8);
    }

    /** `new Piece[8, 8]`: every cell starts empty. */
    constructor ()
      ensures Valid() && fresh(board)
      ensures Cells() == EmptyGrid()
    {
      board := new Piece?[8, 8]((_, _) => null);
      new;
      CellsAt();
      GridExtensionality(Cells(), EmptyGrid());
    }

    /** Records `piece` at (x, y). The array access is unchecked, hence the requires. */
    method SetPosition(piece: Piece, x: int, y: int)
      requires Valid() && InBounds(Coord(x, y))
      modifies board
      ensures Cells() == Updated(old(Cells()), Coord(x, y), piece)
    {
      CellsAt();
      board[x, y] := piece;
      CellsAt();
      GridExtensionality(Cells(), Updated(old(Cells()), Coord(x, y), piece));
    }

    /** Marks (x, y) empty. */
    method ClearPosition(x: int, y: int)
      requires Valid() && InBounds(Coord(x, y))
      modifies board
      ensures Cells() == Updated(old(Cells()), Coord(x, y), null)
    {
      CellsAt();
      board[x, y] := null;
      CellsAt();
      GridExtensionality(Cells(), Updated(old(Cells()), Coord(x, y), null));
    }

    /** The piece, if any, at (x, y). */
    function GetPieceAtPosition(x: int, y: int): (p: Piece?)
      reads board
      requires Valid() && InBounds(Coord(x, y))
      ensures p == At(Cells(), Coord(x, y))
    {
      CellsAt();
      board[x, y]
    }

    /** The bounds test every caller performs before indexing the array. */
    function IsMoveWithinBounds(x: int, y: int): (r: bool)
      ensures r <==> InBounds(Coord(x, y))
      ensures Valid() ==> (r <==> 0 <= x < board.Length0 && 0 <= y < board.Length1)
    {
      if x >= 0 && x <= 7 && y >= 0 && y <= 7 then true else false
    }
  }
}
