// Ray against triangle (Engine/src/math/triangle.h, triangle.cpp): the plane
// distance, the strict inside-the-edges test and the mesh-record wrapper.

module Triangles {
  import opened Vectors
  import opened Intersections
  import opened Planes

  /** Three indices into the mesh's vertex array and the precomputed unit normal. */
  datatype Triangle = Triangle(i0: nat, i1: nat, i2: nat, normal: Vec3) {

    predicate IndicesIn(vertices: seq<Vec3>) {
      i0 < |vertices| && i1 < |vertices| && i2 < |vertices|
    }

    /** |normal . direction| > FLT_EPSILON */
    predicate Facing(ray: Ray) {
      Abs(Dot(normal, ray.direction)) > FloatEpsilon
    }

    /** t = -(normal . origin + D) / (normal . direction), with D = -normal . v0. */
    function Distance(vertices: seq<Vec3>, ray: Ray): real
      requires IndicesIn(vertices) && Facing(ray)
    {
      var D := -Dot(normal, vertices[i0]);
      -(Dot(normal, ray.origin) + D) / Dot(normal, ray.direction)
    }

    /** `p` lies strictly on the inner side of all three edges. */
    predicate InsideEdges(vertices: seq<Vec3>, p: Vec3)
      requires IndicesIn(vertices)
    {
      var v0, v1, v2 := vertices[i0], vertices[i1], vertices[i2];
      Dot(normal, Cross(v0.Minus(v1), p.Minus(v0))) > 0.0 &&
      Dot(normal, Cross(v1.Minus(v2), p.Minus(v1))) > 0.0 &&
      Dot(normal, Cross(v2.Minus(v0), p.Minus(v2))) > 0.0
    }

    /** The test commits a hit against the bound `nearest`. */
    predicate Commits(vertices: seq<Vec3>, ray: Ray, nearest: Dist)
      requires IndicesIn(vertices)
    {
      Facing(ray) && Distance(vertices, ray) >= 0.0 && nearest.Above(Distance(vertices, ray)) &&
      InsideEdges(vertices, ray.At(Distance(vertices, ray)))
    }
  }

  /** `isIntersecting(ray, Intersection&)`. On a hit the record gets the
      distance, the point reached and the triangle's normal; on a miss it is
      left as it was. */
  method IsIntersecting(tri: Triangle, vertices: seq<Vec3>, ray: Ray, outNearest: Intersection)
    returns (hit: bool, nearest: Intersection)
    requires tri.IndicesIn(vertices)
    ensures hit <==> tri.Commits(vertices, ray, outNearest.t)
    ensures hit ==> nearest == Intersection(Finite(tri.Distance(vertices, ray)),
                                            ray.At(tri.Distance(vertices, ray)), tri.normal)
    ensures !hit ==> nearest == outNearest
  {
    nearest := outNearest;
    hit := false;
    var denominator := Dot(tri.normal, ray.direction);
    if Abs(denominator) > FloatEpsilon {
      var v0 := vertices[tri.i0];
      var D := -Dot(tri.normal, v0);
      var t := -(Dot(tri.normal, ray.origin) + D) / denominator;
      if t >= 0.0 && outNearest.t.Above(t) {
        var P := ray.At(t);
        var v1, v2 := vertices[tri.i1], vertices[tri.i2];
        var edge01, edge12, edge20 := v0.Minus(v1), v1.Minus(v2), v2.Minus(v0);
        var C0, C1, C2 := P.Minus(v0), P.Minus(v1), P.Minus(v2);
        if Dot(tri.normal, Cross(edge01, C0)) > 0.0 &&
           Dot(tri.normal, Cross(edge12, C1)) > 0.0 &&
           Dot(tri.normal, Cross(edge20, C2)) > 0.0
        {
          nearest := Intersection(Finite(t), P, tri.normal);
          hit := true;
        }
      }
    }
  }

  /** `isIntersecting(ray, MeshIntersection&)`: the same test on a copy of the
      record's distance, position and normal; `near` and `triangle` are untouched. */
  method IsIntersectingMesh(tri: Triangle, vertices: seq<Vec3>, ray: Ray, outNearest: MeshIntersection)
    returns (hit: bool, nearest: MeshIntersection)
    requires tri.IndicesIn(vertices)
    ensures hit <==> tri.Commits(vertices, ray, outNearest.t)
    ensures hit ==> nearest == outNearest.(t := Finite(tri.Distance(vertices, ray)),
                                           position := ray.At(tri.Distance(vertices, ray)), normal := tri.normal)
    ensures !hit ==> nearest == outNearest
  {
    var inter;
    hit, inter := IsIntersecting(tri, vertices, ray, outNearest.AsIntersection());
    nearest := outNearest;
    if hit {
      nearest := outNearest.WithHit(inter);
    }
  }

  /** The triangle's distance is the distance to its supporting plane, the
      plane through its first vertex with its normal. */
  lemma {:induction false} DistanceIsPlaneDistance(tri: Triangle, vertices: seq<Vec3>, ray: Ray)
    requires tri.IndicesIn(vertices) && tri.Facing(ray)
    ensures Plane(vertices[tri.i0], tri.normal).Facing(ray)
    ensures tri.Distance(vertices, ray) == Plane(vertices[tri.i0], tri.normal).Distance(ray)
  {
    var n, o, v0 := tri.normal, ray.origin, vertices[tri.i0];
    assert Dot(v0.Minus(o), n) == -(Dot(n, o) + -Dot(n, v0));
  }

  /** The committed point lies in the triangle's plane. */
  lemma {:induction false} HitLiesInTrianglePlane(tri: Triangle, vertices: seq<Vec3>, ray: Ray)
    requires tri.IndicesIn(vertices) && tri.Facing(ray)
    ensures Dot(tri.normal, ray.At(tri.Distance(vertices, ray)).Minus(vertices[tri.i0])) == 0.0
  {
    DistanceIsPlaneDistance(tri, vertices, ray);
    HitLiesOnPlane(Plane(vertices[tri.i0], tri.normal), ray);
  }

  lemma {:induction false} CrossParallel(a: Vec3, s: real)
    ensures Cross(a, a.Times(s)) == Zero
  {
    assert a.y * (a.z * s) - a.z * (a.y * s) == 0.0;
    assert a.z * (a.x * s) - a.x * (a.z * s) == 0.0;
    assert a.x * (a.y * s) - a.y * (a.x * s) == 0.0;
  }

  /** The inside test is strict: no point on the line through v0 and v1 (so
      no point of that edge, and neither vertex) passes it. */
  lemma {:induction false} EdgePointsAreOutside(tri: Triangle, vertices: seq<Vec3>, s: real)
    requires tri.IndicesIn(vertices)
    ensures var v0, v1 := vertices[tri.i0], vertices[tri.i1];
            !tri.InsideEdges(vertices, v0.Plus(v1.Minus(v0).Times(s)))
  {
    var v0, v1 := vertices[tri.i0], vertices[tri.i1];
    var e := v0.Minus(v1);
    var p := v0.Plus(v1.Minus(v0).Times(s));
    assert p.Minus(v0) == e.Times(-s);
    CrossParallel(e, -s);
  }

  /** A hit moves the bound strictly closer, and any bound at least as far
      away also admits it. */
  lemma {:induction false} CommitsMonotone(tri: Triangle, vertices: seq<Vec3>, ray: Ray, a: Dist, b: Dist)
    requires tri.IndicesIn(vertices) && tri.Commits(vertices, ray, a) && a.LessEq(b)
    ensures tri.Commits(vertices, ray, b)
    ensures Finite(tri.Distance(vertices, ray)).Less(a)
  {
  }
}
