/** Planar geometry of the game. Positions are `ofVec2f` values; the velocities
    the source keeps in three-component vectors always have a zero third
    component, so every vector here has two real components. */
module Geometry {

  datatype Vec2 = Vec2(x: real, y: real) {

    function Plus(v: Vec2): Vec2 { Vec2(x + v.x, y + v.y) }

    function Minus(v: Vec2): Vec2 { Vec2(x - v.x, y - v.y) }

    function Times(k: real): Vec2 { Vec2(k * x, k * y) }

    function Over(k: real): Vec2
      requires k != 0.0
    {
      Vec2(x / k, y / k)
    }

    /** The squared Euclidean length, which needs no square root. */
    function LengthSq(): real { x * x + y * y }
  }

  const Origin := Vec2(0.0, 0.0)

  /** `(p - q).length() < d`, decided on squares: a length is never negative,
      so no point is strictly closer than a distance that is zero or less. */
  predicate Near(p: Vec2, q: Vec2, d: real)
  {
    0.0 < d && p.Minus(q).LengthSq() < d * d
  }

  /** `Near` agrees with the comparison on the true Euclidean length `len`,
      for every distance `d`, negative ones included. */
  lemma NearIffCloserThan(p: Vec2, q: Vec2, d: real, len: real)
    requires 0.0 <= len && len * len == p.Minus(q).LengthSq()
    ensures Near(p, q, d) <==> len < d
  {
    if 0.0 < d {
      if len < d {
        SquareLess(len, d);
      } else if d < len {
        SquareLess(d, len);
      }
    }
  }

  lemma SquareLess(a: real, b: real)
    requires 0.0 <= a < b
    ensures a * a < b * b
  {
    ProductPositive(b - a, b + a);
    assert b * b - a * a == (b - a) * (b + a);
  }

  lemma ProductPositive(a: real, b: real)
    requires 0.0 < a && 0.0 < b
    ensures 0.0 < a * b
  {
  }

  /** `ofRectangle(x, y, width, height)`: its edges are the minimum and maximum
      of the two corners on each axis, whatever the sign of the size. */
  datatype Rect = Rect(x: real, y: real, width: real, height: real) {

    function Left(): real { if width < 0.0 then x + width else x }

    function Right(): real { if width < 0.0 then x else x + width }

    function Top(): real { if height < 0.0 then y + height else y }

    function Bottom(): real { if height < 0.0 then y else y + height }

    predicate Contains(p: Vec2)
    {
      Left() <= p.x <= Right() && Top() <= p.y <= Bottom()
    }
  }
}
