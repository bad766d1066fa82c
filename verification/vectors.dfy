// Three-component vectors over the reals and the parametric ray
// (Engine/src/math/mathUtils.h's Vec3f and Engine/src/math/ray.h).

module Vectors {

  datatype Vec3 = Vec3(x: real, y: real, z: real) {

    function Plus(o: Vec3): Vec3 {
      Vec3(x + o.x, y + o.y, z + o.z)
    }

    function Minus(o: Vec3): Vec3 {
      Vec3(x - o.x, y - o.y, z - o.z)
    }

    function Times(s: real): Vec3 {
      Vec3(x * s, y * s, z * s)
    }

    function Half(): Vec3 {
      Vec3(x / 2.0, y / 2.0, z / 2.0)
    }

    function Over(s: real): Vec3
      requires s != 0.0
    {
      Vec3(x / s, y / s, z / s)
    }

    /** Component by axis number, as the source's `v[0]`, `v[1]`, `v[2]`. */
    function Get(axis: nat): real
      requires axis < 3
    {
      if axis == 0 then x else if axis == 1 then y else z
    }
  }

  function Dot(a: Vec3, b: Vec3): real {
    a.x * b.x + a.y * b.y + a.z * b.z
  }

  function Cross(a: Vec3, b: Vec3): Vec3 {
    Vec3(a.y * b.z - a.z * b.y, a.z * b.x - a.x * b.z, a.x * b.y - a.y * b.x)
  }

  const Zero := Vec3(0.0, 0.0, 0.0)
  const UnitX := Vec3(1.0, 0.0, 0.0)
  const UnitY := Vec3(0.0, 1.0, 0.0)
  const UnitZ := Vec3(0.0, 0.0, 1.0)

  /** One of the six axis-aligned unit vectors. */
  predicate IsAxisUnit(n: Vec3) {
    n == UnitX || n == UnitY || n == UnitZ ||
    n == UnitX.Times(-1.0) || n == UnitY.Times(-1.0) || n == UnitZ.Times(-1.0)
  }

  datatype Ray = Ray(origin: Vec3, direction: Vec3) {

    /** The point reached after travelling `t` along the ray: origin + direction * t. */
    function At(t: real): Vec3 {
      origin.Plus(direction.Times(t))
    }
  }

  /** No component of the direction is zero, so the slab test never divides by zero. */
  predicate NonZeroDirection(ray: Ray) {
    ray.direction.x != 0.0 && ray.direction.y != 0.0 && ray.direction.z != 0.0
  }

  /** The ray starts at its origin and moves by `direction` per unit of `t`:
      the points at `s` and `t` differ by direction * (t - s). */
  lemma {:induction false} RayAffine(ray: Ray, s: real, t: real)
    ensures ray.At(0.0) == ray.origin
    ensures ray.At(t).Minus(ray.At(s)) == ray.direction.Times(t - s)
  {
    var d := ray.direction;
    assert d.x * t - d.x * s == d.x * (t - s);
    assert d.y * t - d.y * s == d.y * (t - s);
    assert d.z * t - d.z * s == d.z * (t - s);
  }

  /** The scalar product distributes over points of a ray. */
  lemma {:induction false} DotAlongRay(n: Vec3, ray: Ray, t: real)
    ensures Dot(n, ray.At(t)) == Dot(n, ray.origin) + Dot(n, ray.direction) * t
  {
    var o, d := ray.origin, ray.direction;
    calc {
      Dot(n, ray.At(t));
      n.x * (o.x + d.x * t) + n.y * (o.y + d.y * t) + n.z * (o.z + d.z * t);
      { assert n.x * (o.x + d.x * t) == n.x * o.x + (n.x * d.x) * t;
        assert n.y * (o.y + d.y * t) == n.y * o.y + (n.y * d.y) * t;
        assert n.z * (o.z + d.z * t) == n.z * o.z + (n.z * d.z) * t; }
      Dot(n, o) + Dot(n, d) * t;
    }
  }
}
