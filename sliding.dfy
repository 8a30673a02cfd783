/**
 * The ray walk shared by bishops, rooks and queens (Piece.GetSlidingMoves):
 * step from the piece's square in one direction, keep every empty square,
 * keep an enemy-occupied square and stop there, stop before a friendly piece
 * or the edge of the board.
 */
module Sliding {
  import opened Data
  import opened Pieces
  import opened Boards
  import opened Targets
  import opened Manager

  /** How many more squares along `d` can be on the board from `at`; shrinks with every step. */
  function Room(at: Coord, d: Coord): int {
    if d.x > 0 then 8 - at.x
    else if d.x < 0 then at.x + 1
    else if d.y > 0 then 8 - at.y
    else at.y + 1
  }

  /** The squares the walk collects once it has arrived at `at`. */
  function Walk(g: Grid, color: Color, at: Coord, d: Coord): seq<Coord>
    requires IsGrid(g) && d != Coord(0, 0)
    decreases Room(at, d)
  {
    if !InBounds(at) then []
    else if At(g, at) == null then [at] + Walk(g, color, at.Plus(d), d)
    else if At(g, at).color != color then [at]
    else []
  }

  /** The squares GetSlidingMoves(d.x, d.y) returns for a piece of side `color` on `pos`. */
  function SlidingMoves(g: Grid, color: Color, pos: Coord, d: Coord): seq<Coord>
    requires IsGrid(g) && d != Coord(0, 0)
  {
    Walk(g, color, pos.Plus(d), d)
  }

  /** Steps `m` up to, not including, `k` are all on the board and empty. */
  predicate ClearBetween(g: Grid, pos: Coord, d: Coord, m: int, k: int)
    requires IsGrid(g)
  {
    forall j :: m <= j < k ==> InBounds(Step(pos, d, j)) && At(g, Step(pos, d, j)) == null
  }

  /**
   * Step `k` of the ray is a destination: it is on the board, holds no
   * friendly piece, and every earlier step is on the board and empty.
   */
  predicate Reaches(g: Grid, color: Color, pos: Coord, d: Coord, k: int)
    requires IsGrid(g)
  {
    k >= 1 && InBounds(Step(pos, d, k)) && !Friendly(g, color, Step(pos, d, k)) && ClearBetween(g, pos, d, 1, k)
  }

  /** One more step along `d` is the next multiple of `d`. */
  lemma StepNext(pos: Coord, d: Coord, m: int)
    ensures Step(pos, d, m).Plus(d) == Step(pos, d, m + 1)
  {
    assert (m + 1) * d.x == m * d.x + d.x;
    assert (m + 1) * d.y == m * d.y + d.y;
  }

  /** The walk from step `m` returns steps m, m+1, ... in order. */
  lemma {:induction false} WalkSteps(g: Grid, color: Color, pos: Coord, d: Coord, m: int)
    requires IsGrid(g) && d != Coord(0, 0)
    ensures forall i :: 0 <= i < |Walk(g, color, Step(pos, d, m), d)| ==>
      Walk(g, color, Step(pos, d, m), d)[i] == Step(pos, d, m + i)
    decreases Room(Step(pos, d, m), d)
  {
    var at := Step(pos, d, m);
    if InBounds(at) && At(g, at) == null {
      StepNext(pos, d, m);
      WalkSteps(g, color, pos, d, m + 1);
      var rest := Walk(g, color, Step(pos, d, m + 1), d);
      assert Walk(g, color, at, d) == [at] + rest;
      forall i | 1 <= i < 1 + |rest|
        ensures ([at] + rest)[i] == Step(pos, d, m + i)
      {
        assert ([at] + rest)[i] == rest[i - 1] == Step(pos, d, (m + 1) + (i - 1));
        assert (m + 1) + (i - 1) == m + i;
      }
    }
  }

  /** The walk from step `m` returns exactly the steps that are reached from step `m`. */
  lemma {:induction false} WalkReaches(g: Grid, color: Color, pos: Coord, d: Coord, m: int)
    requires IsGrid(g) && d != Coord(0, 0)
    ensures var r := Walk(g, color, Step(pos, d, m), d);
      forall k :: k >= m ==>
        (k < m + |r| <==>
           InBounds(Step(pos, d, k)) && !Friendly(g, color, Step(pos, d, k)) && ClearBetween(g, pos, d, m, k))
    decreases Room(Step(pos, d, m), d)
  {
    var at := Step(pos, d, m);
    var r := Walk(g, color, at, d);
    if InBounds(at) && At(g, at) == null {
      StepNext(pos, d, m);
      WalkReaches(g, color, pos, d, m + 1);
      assert |r| == 1 + |Walk(g, color, Step(pos, d, m + 1), d)|;
      forall k | k > m
        ensures ClearBetween(g, pos, d, m, k) <==> ClearBetween(g, pos, d, m + 1, k)
      {
      }
    } else {
      forall k | k > m
        ensures !ClearBetween(g, pos, d, m, k)
      {
        assert Step(pos, d, m) == at;
      }
    }
  }

  /** A positive multiple of a non-zero integer is at least as large as the multiplier. */
  lemma MultipleAtLeast(n: nat, a: int)
    requires a != 0
    ensures n <= Abs(n * a)
  {
    if a > 0 {
      assert n * a == n * (a - 1) + n;
    } else {
      assert n * a == -(n * (-a - 1)) - n;
    }
  }

  /** The slide returns steps 1, 2, ... in order, all on the board. */
  lemma SlideSteps(g: Grid, color: Color, pos: Coord, d: Coord)
    requires IsGrid(g) && d != Coord(0, 0)
    ensures var r := SlidingMoves(g, color, pos, d);
      forall i :: 0 <= i < |r| ==> r[i] == Step(pos, d, i + 1) && InBounds(r[i])
  {
    var r := SlidingMoves(g, color, pos, d);
    StepNext(pos, d, 0);
    assert Step(pos, d, 0) == pos;
    WalkSteps(g, color, pos, d, 1);
    WalkReaches(g, color, pos, d, 1);
    forall i | 0 <= i < |r|
      ensures InBounds(r[i])
    {
      assert i + 1 < 1 + |r|;
    }
  }

  /** Step `k` is returned exactly when the walk reaches it. */
  lemma SlideReaches(g: Grid, color: Color, pos: Coord, d: Coord)
    requires IsGrid(g) && d != Coord(0, 0)
    ensures var r := SlidingMoves(g, color, pos, d);
      forall k :: k >= 1 ==> (k <= |r| <==> Reaches(g, color, pos, d, k))
  {
    StepNext(pos, d, 0);
    assert Step(pos, d, 0) == pos;
    WalkReaches(g, color, pos, d, 1);
  }

  /**
   * The shape of a slide: step i+1 at position i, all on the board, all but
   * the last empty, the last not friendly, exactly the steps the walk
   * reaches, and at most 7 of them from a square on the board.
   */
  lemma SlidingMovesSpec(g: Grid, color: Color, pos: Coord, d: Coord)
    requires IsGrid(g) && d != Coord(0, 0)
    ensures var r := SlidingMoves(g, color, pos, d);
      && (forall i :: 0 <= i < |r| ==> r[i] == Step(pos, d, i + 1) && InBounds(r[i]))
      && (forall k :: k >= 1 ==> (k <= |r| <==> Reaches(g, color, pos, d, k)))
      && (forall i :: 0 <= i < |r| - 1 ==> At(g, r[i]) == null)
      && (|r| > 0 ==> !Friendly(g, color, r[|r| - 1]))
      && (InBounds(pos) ==> |r| <= 7)
  {
    var r := SlidingMoves(g, color, pos, d);
    SlideSteps(g, color, pos, d);
    SlideReaches(g, color, pos, d);
    if |r| > 0 {
      var n := |r|;
      assert Reaches(g, color, pos, d, n);
      forall i | 0 <= i < n - 1
        ensures At(g, r[i]) == null
      {
        assert r[i] == Step(pos, d, i + 1);
      }
      if InBounds(pos) {
        var last := Step(pos, d, n);
        if d.x != 0 {
          MultipleAtLeast(n, d.x);
          assert last.x - pos.x == n * d.x;
        } else {
          MultipleAtLeast(n, d.y);
          assert last.y - pos.y == n * d.y;
        }
      }
    }
  }

  /** Along a unit direction, different numbers of steps land on different squares. */
  lemma StepsDiffer(pos: Coord, d: Coord, i: int, j: int)
    requires IsUnit(d) && 1 <= i < j
    ensures Step(pos, d, i) != Step(pos, d, j)
  {
    StepGeometry(pos, d, i);
    StepGeometry(pos, d, j);
  }

  /**
   * For one of the eight unit directions: a square is returned exactly when
   * it lies on the line from `pos` in that direction and the walk reaches it.
   */
  lemma SlideMember(g: Grid, color: Color, pos: Coord, d: Coord, c: Coord)
    requires IsGrid(g) && IsUnit(d)
    ensures c in SlidingMoves(g, color, pos, d) <==>
      OnLine(pos, c) && Direction(pos, c) == d && Reaches(g, color, pos, d, Distance(pos, c))
  {
    var r := SlidingMoves(g, color, pos, d);
    SlideSteps(g, color, pos, d);
    SlideReaches(g, color, pos, d);
    if c in r {
      var i :| 0 <= i < |r| && r[i] == c;
      StepGeometry(pos, d, i + 1);
    }
    if OnLine(pos, c) && Direction(pos, c) == d && Reaches(g, color, pos, d, Distance(pos, c)) {
      assert r[Distance(pos, c) - 1] == c;
    }
  }

  /** Along a unit direction the walk never returns a square twice. */
  lemma SlideNoDuplicates(g: Grid, color: Color, pos: Coord, d: Coord)
    requires IsGrid(g) && IsUnit(d)
    ensures NoDuplicates(SlidingMoves(g, color, pos, d))
  {
    var r := SlidingMoves(g, color, pos, d);
    SlideSteps(g, color, pos, d);
    forall i, j | 0 <= i < j < |r|
      ensures r[i] != r[j]
    {
      StepsDiffer(pos, d, i + 1, j + 1);
    }
  }

  predicate AllUnit(dirs: seq<Coord>) {
    forall i :: 0 <= i < |dirs| ==> IsUnit(dirs[i])
  }

  /** The slides along each direction of `dirs`, concatenated in that order. */
  function Rays(g: Grid, color: Color, pos: Coord, dirs: seq<Coord>): seq<Coord>
    requires IsGrid(g) && AllUnit(dirs)
    decreases |dirs|
  {
    if dirs == [] then []
    else
      var n := |dirs| - 1;
      assert IsUnit(dirs[n]);
      Rays(g, color, pos, dirs[..n]) + SlidingMoves(g, color, pos, dirs[n])
  }

  /** The rays along the first k + 1 directions are those along the first k, then the slide along direction k. */
  lemma RaysSnoc(g: Grid, color: Color, pos: Coord, dirs: seq<Coord>, k: int)
    requires IsGrid(g) && AllUnit(dirs) && 0 <= k < |dirs|
    ensures Rays(g, color, pos, dirs[..k + 1]) == Rays(g, color, pos, dirs[..k]) + SlidingMoves(g, color, pos, dirs[k])
  {
    assert dirs[..k + 1][..k] == dirs[..k];
  }

  /** The rays along two lists of directions are the rays along the first, then the rays along the second. */
  lemma {:induction false} RaysAppend(g: Grid, color: Color, pos: Coord, a: seq<Coord>, b: seq<Coord>)
    requires IsGrid(g) && AllUnit(a) && AllUnit(b)
    ensures AllUnit(a + b)
    ensures Rays(g, color, pos, a + b) == Rays(g, color, pos, a) + Rays(g, color, pos, b)
    decreases |b|
  {
    assert AllUnit(a + b) by {
      forall i | 0 <= i < |a + b|
        ensures IsUnit((a + b)[i])
      {
        if i >= |a| {
          assert (a + b)[i] == b[i - |a|];
        }
      }
    }
    if b == [] {
      assert a + b == a;
    } else {
      var n := |b| - 1;
      var front := b[..n];
      assert AllUnit(front);
      RaysAppend(g, color, pos, a, front);
      assert (a + b)[..|a + b| - 1] == a + front;
      assert (a + b)[|a + b| - 1] == b[n];
    }
  }

  lemma NoDuplicatesConcat<T>(a: seq<T>, b: seq<T>)
    requires NoDuplicates(a) && NoDuplicates(b)
    requires forall x :: x in a ==> x !in b
    ensures NoDuplicates(a + b)
  {
    var s := a + b;
    forall i, j | 0 <= i < j < |s|
      ensures s[i] != s[j]
    {
      if i < |a| && j >= |a| {
        assert s[i] in a && s[j] in b;
      }
    }
  }

  /**
   * A square is among the slides along `dirs` exactly when it lies on a
   * line from `pos` whose direction is one of `dirs`, and the walk along that
   * line reaches it. With distinct directions no square appears twice.
   */
  lemma {:induction false} RaysSpec(g: Grid, color: Color, pos: Coord, dirs: seq<Coord>)
    requires IsGrid(g) && AllUnit(dirs)
    ensures forall c :: c in Rays(g, color, pos, dirs) <==>
      OnLine(pos, c) && Direction(pos, c) in dirs && Reaches(g, color, pos, Direction(pos, c), Distance(pos, c))
    ensures NoDuplicates(dirs) ==> NoDuplicates(Rays(g, color, pos, dirs))
    ensures forall c :: c in Rays(g, color, pos, dirs) ==> InBounds(c) && !Friendly(g, color, c)
    decreases |dirs|
  {
    if dirs != [] {
      var n := |dirs| - 1;
      var d := dirs[n];
      var front := dirs[..n];
      assert AllUnit(front);
      RaysSpec(g, color, pos, front);
      assert dirs == front + [d];
      forall c
        ensures c in Rays(g, color, pos, dirs) <==>
          OnLine(pos, c) && Direction(pos, c) in dirs && Reaches(g, color, pos, Direction(pos, c), Distance(pos, c))
      {
        SlideMember(g, color, pos, d, c);
      }
      if NoDuplicates(dirs) {
        var last := SlidingMoves(g, color, pos, d);
        SlideNoDuplicates(g, color, pos, d);
        forall c | c in Rays(g, color, pos, front)
          ensures c !in last
        {
          SlideMember(g, color, pos, d, c);
          assert d !in front;
        }
        NoDuplicatesConcat(Rays(g, color, pos, front), last);
      }
    }
  }

  /** One square at a time: RaysSpec for `c`. */
  lemma RaysMember(g: Grid, color: Color, pos: Coord, dirs: seq<Coord>, c: Coord)
    requires IsGrid(g) && AllUnit(dirs)
    ensures c in Rays(g, color, pos, dirs) <==>
      OnLine(pos, c) && Direction(pos, c) in dirs && Reaches(g, color, pos, Direction(pos, c), Distance(pos, c))
    ensures c in Rays(g, color, pos, dirs) ==> InBounds(c) && !Friendly(g, color, c)
  {
    RaysSpec(g, color, pos, dirs);
  }

  /** With distinct directions the rays never repeat a square. */
  lemma RaysNoDuplicates(g: Grid, color: Color, pos: Coord, dirs: seq<Coord>)
    requires IsGrid(g) && AllUnit(dirs)
    requires NoDuplicates(dirs)
    ensures NoDuplicates(Rays(g, color, pos, dirs))
  {
    RaysSpec(g, color, pos, dirs);
  }

  /** Piece.GetSlidingMoves: walk from the piece's square in direction (xDirection, yDirection). */
  method GetSlidingMoves(bm: BoardManager, piece: Piece, xDirection: int, yDirection: int)
    returns (moves: seq<Coord>)
    requires bm.gameBoard.Valid() && Coord(xDirection, yDirection) != Coord(0, 0)
    ensures moves == SlidingMoves(bm.Cells(), piece.color, piece.currentPosition, Coord(xDirection, yDirection))
  {
    var d := Coord(xDirection, yDirection);
    ghost var g := bm.Cells();
    moves := [];
    var nextPos := piece.currentPosition.Plus(d);
    while bm.IsWithinBounds(nextPos)
      invariant moves + Walk(g, piece.color, nextPos, d) == SlidingMoves(g, piece.color, piece.currentPosition, d)
      decreases Room(nextPos, d)
    {
      var occupant := bm.GetPieceAtPosition(nextPos);
      if occupant == null {
        moves := moves + [nextPos];
      } else if occupant.color != piece.color {
        moves := moves + [nextPos];
        break;
      } else {
        // a friendly piece blocks the ray
        break;
      }
      nextPos := nextPos.Plus(d);
    }
  }
}
