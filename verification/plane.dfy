// Ray against infinite plane (Engine/src/math/plane.h, plane.cpp).

module Planes {
  import opened Vectors
  import opened Intersections

  /** FLT_EPSILON, 2^-23. */
  const FloatEpsilon: real := 0.00000011920928955078125

  function Abs(r: real): real {
    if r < 0.0 then -r else r
  }

  datatype Plane = Plane(point: Vec3, normal: Vec3) {

    /** The ray is not (nearly) parallel to the plane: |normal . direction| > FLT_EPSILON. */
    predicate Facing(ray: Ray) {
      Abs(Dot(normal, ray.direction)) > FloatEpsilon
    }

    /** Distance along the ray to the plane: (point - origin) . normal / (normal . direction). */
    function Distance(ray: Ray): real
      requires Facing(ray)
    {
      Dot(point.Minus(ray.origin), normal) / Dot(normal, ray.direction)
    }

    /** The test commits a hit against the bound `nearest`: a facing ray whose
        distance is at least 0 and strictly below the bound. */
    predicate Commits(ray: Ray, nearest: Dist) {
      Facing(ray) && Distance(ray) >= 0.0 && nearest.Above(Distance(ray))
    }
  }

  /** `isIntersecting`: on a hit the record gets the distance, the point
      reached and the plane's normal; on a miss it is left as it was. */
  method IsIntersecting(plane: Plane, ray: Ray, outNearest: Intersection) returns (hit: bool, nearest: Intersection)
    ensures hit <==> plane.Commits(ray, outNearest.t)
    ensures hit ==> nearest == Intersection(Finite(plane.Distance(ray)), ray.At(plane.Distance(ray)), plane.normal)
    ensures !hit ==> nearest == outNearest
  {
    nearest := outNearest;
    hit := false;
    var denominator := Dot(plane.normal, ray.direction);
    if Abs(denominator) > FloatEpsilon {
      var t := Dot(plane.point.Minus(ray.origin), plane.normal) / denominator;
      if t >= 0.0 && outNearest.t.Above(t) {
        nearest := Intersection(Finite(t), ray.At(t), plane.normal);
        hit := true;
      }
    }
  }

  /** The committed point lies on the plane: its offset from `point` is
      orthogonal to the normal. */
  lemma {:induction false} HitLiesOnPlane(plane: Plane, ray: Ray)
    requires plane.Facing(ray)
    ensures Dot(plane.normal, ray.At(plane.Distance(ray)).Minus(plane.point)) == 0.0
  {
    var n, o, d, p := plane.normal, ray.origin, ray.direction, plane.point;
    var den := Dot(n, d);
    var t := plane.Distance(ray);
    assert Dot(p.Minus(o), n) == Dot(n, p) - Dot(n, o);
    assert t * den == Dot(n, p) - Dot(n, o);
    DotAlongRay(n, ray, t);
    var q := ray.At(t);
    assert Dot(n, q.Minus(p)) == Dot(n, q) - Dot(n, p);
  }

  /** A hit moves the bound strictly closer, and any bound at least as far
      away also admits it. */
  lemma {:induction false} CommitsMonotone(plane: Plane, ray: Ray, a: Dist, b: Dist)
    requires plane.Commits(ray, a) && a.LessEq(b)
    ensures plane.Commits(ray, b)
    ensures Finite(plane.Distance(ray)).Less(a)
  {
  }
}
