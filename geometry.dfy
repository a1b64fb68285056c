/**
 * An integer model of the repository's Vector2 value type. Positions and
 * directions on the board are always integral, so the tolerance comparison
 * `equalsWithMargin(v, .1)` is plain equality and `round()` is the identity.
 */
module Geometry {

  datatype Vector2 = Vector2(x: int, y: int) {

    function Add(other: Vector2): Vector2 {
      Vector2(x + other.x, y + other.y)
    }

    function AddXY(dx: int, dy: int): Vector2 {
      Vector2(x + dx, y + dy)
    }

    /** `scale(-1)`: the opposite vector. */
    function Negate(): Vector2 {
      Vector2(-x, -y)
    }

    /** `scale(.5).floor()`: each coordinate halved and rounded down. */
    function HalfFloor(): (h: Vector2)
      ensures 2 * h.x <= x < 2 * h.x + 2
      ensures 2 * h.y <= y < 2 * h.y + 2
    {
      Vector2(x / 2, y / 2)
    }
  }

  const Up := Vector2(0, 1)
  const Down := Vector2(0, -1)
  const Left := Vector2(-1, 0)
  const Right := Vector2(1, 0)

  predicate IsUnitDirection(v: Vector2) {
    v == Up || v == Down || v == Left || v == Right
  }

  /** No direction is its own opposite. */
  lemma UnitNotSelfOpposite(v: Vector2)
    requires IsUnitDirection(v)
    ensures v.Negate() != v
  {
    assert v.x != 0 || v.y != 0;
  }

  /**
   * JavaScript's `a % b`: the remainder of the division truncated toward
   * zero, so it takes the sign of the dividend (unlike Dafny's `%`).
   */
  function Rem(a: int, b: int): (r: int)
    requires b > 0
    ensures a >= 0 ==> 0 <= r < b
    ensures a < 0 ==> -b < r <= 0
    ensures r == (if r < 0 then a % b - b else a % b)
  {
    if a >= 0 then a % b
    else
      var m := (-a) % b;
      ModUnique(a, b, -((-a) / b) - (if m == 0 then 0 else 1), if m == 0 then 0 else b - m);
      -m
  }

  /** Euclidean division is determined by its quotient and remainder. */
  lemma ModUnique(a: int, b: int, q: int, r: int)
    requires b > 0 && 0 <= r < b && a == b * q + r
    ensures a % b == r && a / b == q
  {
    var k := q - a / b;
    assert b * k == a % b - r;
  }
}
