// Intersection records threaded through every ray test as the
// "best hit so far" (Engine/src/math/intersection.h).

module Intersections {
  import opened Vectors

  /** A float distance that may be +infinity: the only non-finite value the
      ray tests ever store in `t`. */
  datatype Dist = Finite(v: real) | Infinite {

    /** `a < this` */
    predicate Above(a: real) {
      Infinite? || a < v
    }

    /** `a <= this`, i.e. not `a > this` */
    predicate AtLeast(a: real) {
      Infinite? || a <= v
    }

    /** `this < o` */
    predicate Less(o: Dist) {
      Finite? && o.Above(v)
    }

    /** `this <= o` */
    predicate LessEq(o: Dist) {
      if Finite? then o.AtLeast(v) else o.Infinite?
    }
  }

  datatype Intersection = Intersection(t: Dist, position: Vec3, normal: Vec3) {

    /** `valid()`: the distance is finite. */
    predicate Valid() {
      t.Finite?
    }

    /** `reset()` assigns +infinity to `t` and nothing else. */
    function Reset(): (r: Intersection)
      ensures !r.Valid()
      ensures r.position == position && r.normal == normal
    {
      this.(t := Infinite)
    }
  }

  datatype MeshIntersection = MeshIntersection(position: Vec3, normal: Vec3, near: real, t: Dist, triangle: nat) {

    predicate Valid() {
      t.Finite?
    }

    /** `reset(_near, _far = +infinity)`: sets the near bound and the distance only. */
    function Reset(newNear: real, far: Dist := Infinite): (r: MeshIntersection)
      ensures r.near == newNear && r.t == far
      ensures r.Valid() <==> far.Finite?
      ensures r.position == position && r.normal == normal && r.triangle == triangle
    {
      this.(near := newNear, t := far)
    }

    /** The generic record the mesh-level tests copy `t`, `position` and `normal` into. */
    function AsIntersection(): Intersection {
      Intersection(t, position, normal)
    }

    /** Copies a generic record's `t`, `position` and `normal` back. */
    function WithHit(r: Intersection): (m: MeshIntersection)
      ensures m.AsIntersection() == r
      ensures m.near == near && m.triangle == triangle
    {
      this.(t := r.t, position := r.position, normal := r.normal)
    }
  }

  /** Strict improvement never goes both ways, and improvement is transitive. */
  lemma {:induction false} LessIsStrictOrder(a: Dist, b: Dist, c: Dist)
    ensures !(a.Less(b) && b.Less(a))
    ensures a.Less(b) && b.Less(c) ==> a.Less(c)
    ensures a.Less(b) ==> a.LessEq(b) && !b.LessEq(a)
  {
  }
}
