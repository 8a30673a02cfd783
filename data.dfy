/**
 * Value types shared by the rules engine: the two sides (PieceColor), the six
 * piece kinds (PieceType) and integer board coordinates (Unity's Vector2Int),
 * with the small amount of geometry the move generators are described by.
 */
module Data {

  /** The two sides. White moves first. */
  datatype Color = White | Black

  /** The side that is not `c`. */
  function Opponent(c: Color): (r: Color)
    ensures r != c
  {
    if c == White then Black else White
  }

  /** The six piece kinds, in the order of the source's enum. */
  datatype PieceType = Pawn | Knight | Bishop | Rook | Queen | King

  /** A board coordinate: `x` is the file, `y` the rank. Neither is clamped. */
  datatype Coord = Coord(x: int, y: int) {
    /** Vector addition, as `Vector2Int +`. */
    function Plus(d: Coord): Coord {
      Coord(x + d.x, y + d.y)
    }
  }

  /** The 8x8 playing area: both coordinates in 0..7. */
  predicate InBounds(c: Coord) {
    0 <= c.x <= 7 && 0 <= c.y <= 7
  }

  /** The vector that leads from `from` to `to`. */
  function Offset(from: Coord, to: Coord): Coord {
    Coord(to.x - from.x, to.y - from.y)
  }

  /** The square `k` steps from `from` in direction `d`. */
  function Step(from: Coord, d: Coord, k: int): Coord {
    Coord(from.x + k * d.x, from.y + k * d.y)
  }

  function Abs(n: int): nat {
    if n < 0 then -n else n
  }

  function Sign(n: int): int {
    if n > 0 then 1 else if n < 0 then -1 else 0
  }

  /** The number of king steps between two squares (Chebyshev distance). */
  function Distance(from: Coord, to: Coord): nat {
    var dx, dy := Abs(to.x - from.x), Abs(to.y - from.y);
    if dx < dy then dy else dx
  }

  /** The unit vector pointing from `from` towards `to`, component by component. */
  function Direction(from: Coord, to: Coord): Coord {
    Coord(Sign(to.x - from.x), Sign(to.y - from.y))
  }

  /** One of the eight king directions: components in -1..1, not both zero. */
  predicate IsUnit(d: Coord) {
    -1 <= d.x <= 1 && -1 <= d.y <= 1 && d != Coord(0, 0)
  }

  /**
   * `to` lies on a rank, file or diagonal through `from`, and is not `from`:
   * walking `Distance` steps along `Direction` from `from` lands on it.
   */
  predicate OnLine(from: Coord, to: Coord) {
    Distance(from, to) >= 1 && to == Step(from, Direction(from, to), Distance(from, to))
  }

  /** Walking `k >= 1` steps along a unit direction determines the direction and the distance back. */
  lemma StepGeometry(from: Coord, d: Coord, k: int)
    requires IsUnit(d) && k >= 1
    ensures Direction(from, Step(from, d, k)) == d
    ensures Distance(from, Step(from, d, k)) == k
    ensures OnLine(from, Step(from, d, k))
  {
    var to := Step(from, d, k);
    assert d.x == -1 || d.x == 0 || d.x == 1;
    assert d.y == -1 || d.y == 0 || d.y == 1;
    if d.x == 1 { assert to.x - from.x == k; }
    else if d.x == -1 { assert to.x - from.x == -k; }
    else { assert to.x - from.x == 0; }
    if d.y == 1 { assert to.y - from.y == k; }
    else if d.y == -1 { assert to.y - from.y == -k; }
    else { assert to.y - from.y == 0; }
  }

  /** The size of `a` times its sign is `a`. */
  lemma SignTimesAbs(a: int)
    ensures Abs(a) * Sign(a) == a
  {
  }

  /**
   * A square lies on a line through `from` exactly when it differs from
   * `from` and shares its file, its rank or a diagonal; the direction of the
   * line is zero in a coordinate exactly when that coordinate is shared.
   */
  lemma LineShape(from: Coord, to: Coord)
    ensures OnLine(from, to) <==>
      to != from && (to.x == from.x || to.y == from.y || Abs(to.x - from.x) == Abs(to.y - from.y))
    ensures Direction(from, to).x == 0 <==> to.x == from.x
    ensures Direction(from, to).y == 0 <==> to.y == from.y
  {
    var dx, dy := to.x - from.x, to.y - from.y;
    var d, n := Direction(from, to), Distance(from, to);
    if to != from && (dx == 0 || dy == 0 || Abs(dx) == Abs(dy)) {
      SignTimesAbs(dx);
      SignTimesAbs(dy);
      if dx == 0 {
        assert n == Abs(dy);
      } else if dy == 0 {
        assert n == Abs(dx);
      } else {
        assert n == Abs(dx) == Abs(dy);
      }
      assert to == Step(from, d, n);
    }
    if OnLine(from, to) {
      assert dx == n * d.x && dy == n * d.y;
      if d.x == 0 {
      } else if d.y == 0 {
      } else {
        assert Abs(dx) == n by {
          if d.x == 1 { assert dx == n; } else { assert dx == -n; }
        }
        assert Abs(dy) == n by {
          if d.y == 1 { assert dy == n; } else { assert dy == -n; }
        }
      }
    }
  }
}
