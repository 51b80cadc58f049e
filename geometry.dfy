/** Points of the planar ground frame and the squared distances the
    controller compares. Every distance test of the controller compares a
    square root against a non-negative bound, so the model compares the
    squares instead; `SquaredOrder` and `SquaredBound` say why that is the
    same decision. */
module Geometry {

  /** A position in the map frame (x, y, z). */
  datatype Point = Point(x: real, y: real, z: real)

  /** A path point expressed in the vehicle frame: x forward, y left. */
  datatype LocalPoint = LocalPoint(x: real, y: real)

  const Origin: Point := Point(0.0, 0.0, 0.0)

  /** Squared planar distance between two map points (x and y only). */
  function SqDist2(a: Point, b: Point): (d: real)
    ensures d >= 0.0
  {
    var dx, dy := a.x - b.x, a.y - b.y;
    assert dx * dx >= 0.0 && dy * dy >= 0.0;
    dx * dx + dy * dy
  }

  /** Squared spatial distance between two map points. */
  function SqDist3(a: Point, b: Point): (d: real)
    ensures d >= SqDist2(a, b)
  {
    var dz := a.z - b.z;
    assert dz * dz >= 0.0;
    SqDist2(a, b) + dz * dz
  }

  /** Squared distance of a vehicle-frame point from the vehicle. */
  function SqNorm(p: LocalPoint): (d: real)
    ensures d >= 0.0
  {
    assert p.x * p.x >= 0.0 && p.y * p.y >= 0.0;
    p.x * p.x + p.y * p.y
  }

  /** Squaring keeps the strict order of non-negative numbers, so comparing
      two square roots is comparing the squares under them. */
  lemma SquaredOrder(a: real, b: real)
    requires a >= 0.0 && b >= 0.0
    ensures a > b <==> a * a > b * b
  {
    var gap, sum := a - b, a + b;
    assert a * a - b * b == gap * sum;
    if a > b {
      assert gap > 0.0 && sum > 0.0;
      assert gap * sum > 0.0;
    } else {
      assert -gap >= 0.0 && sum >= 0.0;
      assert -gap * sum >= 0.0;
    }
  }

  /** A root `d` of a squared distance is at least (at most) a
      non-negative bound exactly when the square is at least (at most)
      the bound's square. */
  lemma SquaredBound(d: real, bound: real)
    requires d >= 0.0 && bound >= 0.0
    ensures d >= bound <==> d * d >= bound * bound
    ensures d <= bound <==> d * d <= bound * bound
  {
    SquaredOrder(d, bound);
    SquaredOrder(bound, d);
  }
}
