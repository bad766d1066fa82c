// Axis-aligned bounding box (Engine/src/math/box.h): size, center, reset,
// the two expand overloads and the closed containment test.

module Boxes {
  import opened Vectors

  /** FLT_MAX, the largest finite single-precision float. */
  const MaxFloat: real := 340282346638528859811704183484516925440.0

  function Min(a: real, b: real): real {
    if a < b then a else b
  }

  function Max(a: real, b: real): real {
    if a < b then b else a
  }

  /** Component-wise minimum and maximum (Eigen's cwiseMin / cwiseMax). */
  function CwiseMin(a: Vec3, b: Vec3): Vec3 {
    Vec3(Min(a.x, b.x), Min(a.y, b.y), Min(a.z, b.z))
  }

  function CwiseMax(a: Vec3, b: Vec3): Vec3 {
    Vec3(Max(a.x, b.x), Max(a.y, b.y), Max(a.z, b.z))
  }

  predicate LessEq(a: Vec3, b: Vec3) {
    a.x <= b.x && a.y <= b.y && a.z <= b.z
  }

  datatype Box = Box(min: Vec3, max: Vec3) {

    function Size(): Vec3 {
      max.Minus(min)
    }

    function Center(): Vec3 {
      min.Plus(max).Half()
    }

    /** Closed on every axis: points on a face are inside. */
    predicate Contains(p: Vec3) {
      min.x <= p.x && p.x <= max.x &&
      min.y <= p.y && p.y <= max.y &&
      min.z <= p.z && p.z <= max.z
    }

    /** `expand(point)` */
    function Expand(p: Vec3): (r: Box)
      ensures r.Contains(p)
      ensures forall q :: Contains(q) ==> r.Contains(q)
    {
      Box(CwiseMin(min, p), CwiseMax(max, p))
    }

    /** `expand(box)` */
    function ExpandBox(b: Box): (r: Box)
      ensures forall q :: Contains(q) || b.Contains(q) ==> r.Contains(q)
    {
      Box(CwiseMin(min, b.min), CwiseMax(max, b.max))
    }

    /** `min <= max` on every axis: the box holds at least one point. */
    predicate Proper() {
      LessEq(min, max)
    }

    /** No axis has zero extent, so the normal computation never divides by zero. */
    predicate NonDegenerate() {
      Size().x != 0.0 && Size().y != 0.0 && Size().z != 0.0
    }

    /** `b` encloses this box. */
    predicate Within(b: Box) {
      LessEq(b.min, min) && LessEq(max, b.max)
    }
  }

  /** `reset()`: min at +FLT_MAX and max at -FLT_MAX, whatever the box held. */
  function ResetBox(): (r: Box)
    ensures !r.Proper()
    ensures forall p :: !r.Contains(p)
  {
    var m := Vec3(MaxFloat, MaxFloat, MaxFloat);
    Box(m, m.Times(-1.0))
  }

  /** A point inside the float range: at most FLT_MAX in magnitude on every axis. */
  predicate InFloatRange(p: Vec3) {
    -MaxFloat <= p.x <= MaxFloat && -MaxFloat <= p.y <= MaxFloat && -MaxFloat <= p.z <= MaxFloat
  }

  /** Expanding the reset box by one in-range point yields the degenerate box
      holding exactly that point: `reset()` is the identity element of `expand`. */
  lemma {:induction false} ResetThenExpand(p: Vec3)
    requires InFloatRange(p)
    ensures ResetBox().Expand(p) == Box(p, p)
    ensures forall q :: ResetBox().Expand(p).Contains(q) <==> q == p
  {
  }

  /** `expand(point)` yields the smallest box holding the old box and the point. */
  lemma {:induction false} ExpandIsSmallest(a: Box, p: Vec3, c: Box)
    requires a.Within(c) && c.Contains(p)
    ensures a.Expand(p).Within(c)
    ensures a.Within(a.Expand(p))
  {
  }

  /** `expand(box)` yields the smallest box enclosing both, in either order,
      and expanding a box by itself changes nothing. */
  lemma {:induction false} ExpandBoxIsSmallest(a: Box, b: Box, c: Box)
    ensures a.ExpandBox(b) == b.ExpandBox(a)
    ensures a.ExpandBox(a) == a
    ensures a.Within(a.ExpandBox(b)) && b.Within(a.ExpandBox(b))
    ensures a.Within(c) && b.Within(c) ==> a.ExpandBox(b).Within(c)
  {
  }

  /** The center lies halfway: center -/+ size/2 are exactly the corners,
      and a proper box contains its center and both corners. */
  lemma {:induction false} CenterAndSize(b: Box)
    ensures b.Center().Minus(b.Size().Half()) == b.min
    ensures b.Center().Plus(b.Size().Half()) == b.max
    ensures b.Proper() ==> b.Contains(b.Center()) && b.Contains(b.min) && b.Contains(b.max)
  {
  }

  /** Containment is convex: the centroid of three contained points is contained. */
  lemma {:induction false} ContainsCentroid(b: Box, p: Vec3, q: Vec3, r: Vec3)
    requires b.Contains(p) && b.Contains(q) && b.Contains(r)
    ensures b.Contains(p.Plus(q).Plus(r).Over(3.0))
  {
  }
}
