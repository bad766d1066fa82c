// Ray against axis-aligned box (Engine/src/math/box.cpp): the slab test,
// the committed distance and the face normal, and the mesh-record wrapper.

module BoxRay {
  import opened Vectors
  import opened Intersections
  import opened Boxes

  /** A float that may be either infinity: what the slab test's quotients
      become when a direction component is zero. */
  datatype Ext = NegInf | Fin(r: real) | PosInf {

    predicate Le(o: Ext) {
      NegInf? || o.PosInf? || (Fin? && o.Fin? && r <= o.r)
    }

    /** `this > o` */
    predicate Gt(o: Ext) {
      !Le(o)
    }

    /** `this < o` */
    predicate Lt(o: Ext) {
      !o.Le(this)
    }
  }

  /** `std::min(a, b)`, which returns `b` only when `b < a`. */
  function ExtMin(a: Ext, b: Ext): Ext {
    if b.Lt(a) then b else a
  }

  /** `std::max(a, b)`, which returns `b` only when `a < b`. */
  function ExtMax(a: Ext, b: Ext): Ext {
    if a.Lt(b) then b else a
  }

  /** One step of the slab merge: with both intervals ordered, the early-out
      test fails exactly when the merged interval is non-empty, the two
      conditional assignments compute the merge, and a non-empty later merge
      implies a non-empty earlier one. */
  lemma {:induction false} MergeStep(lo: Ext, hi: Ext, n: Ext, f: Ext)
    requires lo.Le(hi) && n.Le(f)
    ensures (lo.Gt(f) || n.Gt(hi)) <==> !ExtMax(lo, n).Le(ExtMin(hi, f))
    ensures (if n.Gt(lo) then n else lo) == ExtMax(lo, n)
    ensures (if f.Lt(hi) then f else hi) == ExtMin(hi, f)
  {
  }

  lemma {:induction false} MergeMonotone(lo: Ext, hi: Ext, n: Ext, f: Ext)
    ensures ExtMax(lo, n).Le(ExtMin(hi, f)) ==> lo.Le(hi)
  {
  }

  /** On finite values `std::min` and `std::max` are the real minimum and maximum. */
  lemma {:induction false} ClampOnFinite(lo: Ext, hi: Ext)
    requires lo.Fin? && hi.Fin?
    ensures ExtMin(ExtMax(lo, Fin(0.0)), ExtMax(hi, Fin(0.0))) == Fin(Min(Max(lo.r, 0.0), Max(hi.r, 0.0)))
  {
  }

  function DistToExt(d: Dist): Ext {
    if d.Finite? then Fin(d.v) else PosInf
  }

  /** Float division `num / d`; a zero divisor yields the infinity of the
      numerator's sign. */
  function Quotient(num: real, d: real): Ext
    requires d != 0.0 || num != 0.0
  {
    if d != 0.0 then Fin(num / d) else if num > 0.0 then PosInf else NegInf
  }

  /** On axis `a`, either the ray moves or its origin is off both bounding
      planes, so no quotient is 0/0. */
  predicate AxisOk(box: Box, ray: Ray, a: nat)
    requires a < 3
  {
    ray.direction.Get(a) != 0.0 ||
    (box.min.Get(a) != ray.origin.Get(a) && box.max.Get(a) != ray.origin.Get(a))
  }

  /** The slab test's domain: a moving ray and no 0/0 quotient. */
  predicate RayOk(box: Box, ray: Ray) {
    ray.direction != Zero && AxisOk(box, ray, 0) && AxisOk(box, ray, 1) && AxisOk(box, ray, 2)
  }

  /** Distances at which the ray crosses the two planes of axis `a`, in increasing order. */
  function Near(box: Box, ray: Ray, a: nat): Ext
    requires a < 3 && AxisOk(box, ray, a)
  {
    ExtMin(Quotient(box.min.Get(a) - ray.origin.Get(a), ray.direction.Get(a)),
           Quotient(box.max.Get(a) - ray.origin.Get(a), ray.direction.Get(a)))
  }

  function Far(box: Box, ray: Ray, a: nat): Ext
    requires a < 3 && AxisOk(box, ray, a)
  {
    ExtMax(Quotient(box.min.Get(a) - ray.origin.Get(a), ray.direction.Get(a)),
           Quotient(box.max.Get(a) - ray.origin.Get(a), ray.direction.Get(a)))
  }

  /** The swap in the source orders the two crossings of axis `a`. */
  lemma {:induction false} SwapOrders(box: Box, ray: Ray, a: nat, lo: Ext, hi: Ext)
    requires a < 3 && AxisOk(box, ray, a)
    requires lo == Quotient(box.min.Get(a) - ray.origin.Get(a), ray.direction.Get(a))
    requires hi == Quotient(box.max.Get(a) - ray.origin.Get(a), ray.direction.Get(a))
    ensures (if lo.Gt(hi) then hi else lo) == Near(box, ray, a)
    ensures (if lo.Gt(hi) then lo else hi) == Far(box, ray, a)
    ensures Near(box, ray, a).Le(Far(box, ray, a))
  {
  }

  /** The latest entry into a slab and the earliest exit from one. */
  function SlabLo(box: Box, ray: Ray): Ext
    requires RayOk(box, ray)
  {
    ExtMax(ExtMax(Near(box, ray, 0), Near(box, ray, 1)), Near(box, ray, 2))
  }

  function SlabHi(box: Box, ray: Ray): Ext
    requires RayOk(box, ray)
  {
    ExtMin(ExtMin(Far(box, ray, 0), Far(box, ray, 1)), Far(box, ray, 2))
  }

  /** The three slab intervals overlap. */
  predicate Overlaps(box: Box, ray: Ray)
    requires RayOk(box, ray)
  {
    SlabLo(box, ray).Le(SlabHi(box, ray))
  }

  /** When the slabs overlap, both ends of the overlap are finite. */
  lemma {:induction false} OverlapIsFinite(box: Box, ray: Ray)
    requires RayOk(box, ray) && Overlaps(box, ray)
    ensures SlabLo(box, ray).Fin? && SlabHi(box, ray).Fin?
  {
    var d := ray.direction;
    var a := if d.x != 0.0 then 0 else if d.y != 0.0 then 1 else 2;
    assert d.Get(a) != 0.0;
    assert Near(box, ray, a).Fin? && Far(box, ray, a).Fin?;
  }

  /** The distance the test commits: the overlap clamped to `t >= 0`,
      `min(max(tmin, 0), max(tmax, 0))`. */
  function EntryT(box: Box, ray: Ray): real
    requires RayOk(box, ray) && Overlaps(box, ray)
  {
    OverlapIsFinite(box, ray);
    Min(Max(SlabLo(box, ray).r, 0.0), Max(SlabHi(box, ray).r, 0.0))
  }

  function Abs(r: real): real {
    if r < 0.0 then -r else r
  }

  function AxisUnit(a: nat): Vec3
    requires a < 3
  {
    if a == 0 then UnitX else if a == 1 then UnitY else UnitZ
  }

  /** The unit normal along axis `a` pointing away from the center,
      given `offset` = center - position on that axis. */
  function AwayFromCenter(a: nat, offset: real): Vec3
    requires a < 3
  {
    if offset > 0.0 then AxisUnit(a).Times(-1.0) else AxisUnit(a)
  }

  /** Offset of `p` from the center on axis `a`, as a fraction of the box's extent. */
  function Ratio(box: Box, p: Vec3, a: nat): real
    requires a < 3 && box.NonDegenerate()
  {
    (box.Center().Get(a) - p.Get(a)) / box.Size().Get(a)
  }

  /** The normal as box.cpp writes it: the axis is picked by the signed
      ratios, and the sign on every axis is taken from the x offset. */
  function FaceNormalAsWritten(box: Box, p: Vec3): Vec3
    requires box.NonDegenerate()
  {
    var px, py, pz := Ratio(box, p, 0), Ratio(box, p, 1), Ratio(box, p, 2);
    var offsetX := box.Center().x - p.x;
    if px > py && px > pz then AwayFromCenter(0, offsetX)
    else if py > px && py > pz then AwayFromCenter(1, offsetX)
    else AwayFromCenter(2, offsetX)
  }

  /** On the +x face of any box the normal as written is never +x: the signed
      x ratio there is -1/2, below every other ratio, so the x branch is never
      taken (for `Box::unit()` and the point (1, 0, 0) it yields +z). */
  lemma {:induction false} FaceNormalAsWrittenMissesPlusX(box: Box, p: Vec3)
    requires box.min.x < box.max.x && box.min.y < box.max.y && box.min.z < box.max.z
    requires OnFace(box, p, 0, true)
    ensures box.NonDegenerate()
    ensures FaceNormalAsWritten(box, p) != UnitX
    ensures FaceNormal(box, p) == UnitX
  {
    FaceNormalIsOutward(box, p, 0, true);
    HalfRatioOnAxis(box, p, 0);
    HalfRatioOnAxis(box, p, 1);
    assert box.min.Get(1) < p.Get(1) < box.max.Get(1);
  }

  /** On the lower y face, at or right of the center in x, the normal as
      written points into the box: the y branch is taken (the y ratio there is
      +1/2, above the others) but its sign comes from the x offset. */
  lemma {:induction false} FaceNormalAsWrittenSignFromX(box: Box, p: Vec3)
    requires box.min.x < box.max.x && box.min.y < box.max.y && box.min.z < box.max.z
    requires OnFace(box, p, 1, false) && p.x >= box.Center().x
    ensures box.NonDegenerate()
    ensures FaceNormalAsWritten(box, p) == UnitY
    ensures FaceNormal(box, p) == UnitY.Times(-1.0)
  {
    FaceNormalIsOutward(box, p, 1, false);
    AsWrittenOnLowerY(box, p);
  }

  lemma {:induction false} AsWrittenOnLowerY(box: Box, p: Vec3)
    requires box.min.x < box.max.x && box.min.y < box.max.y && box.min.z < box.max.z
    requires OnFace(box, p, 1, false) && p.x >= box.Center().x
    ensures box.NonDegenerate() && FaceNormalAsWritten(box, p) == UnitY
  {
    assert box.Size().x != 0.0 && box.Size().y != 0.0 && box.Size().z != 0.0;
    assert box.min.Get(0) < p.Get(0) < box.max.Get(0);
    assert box.min.Get(2) < p.Get(2) < box.max.Get(2);
    HalfRatioOnAxis(box, p, 0);
    HalfRatioOnAxis(box, p, 1);
    HalfRatioOnAxis(box, p, 2);
    var px, py, pz := Ratio(box, p, 0), Ratio(box, p, 1), Ratio(box, p, 2);
    assert py == 0.5 && px < 0.5 && pz < 0.5;
    assert box.Center().x - p.x <= 0.0;
  }

  /** The hit (0.5, -1, 0) on the cube [-1, 1]^3 gets the normal (0, 1, 0)
      where the face's outward normal is (0, -1, 0). */
  lemma CubeBottomHitNormal()
    ensures var cube := Box(Vec3(-1.0, -1.0, -1.0), Vec3(1.0, 1.0, 1.0));
            cube.NonDegenerate() && FaceNormalAsWritten(cube, Vec3(0.5, -1.0, 0.0)) == Vec3(0.0, 1.0, 0.0)
  {
    var cube := Box(Vec3(-1.0, -1.0, -1.0), Vec3(1.0, 1.0, 1.0));
    FaceNormalAsWrittenSignFromX(cube, Vec3(0.5, -1.0, 0.0));
  }

  /** The normal the test commits: the axis on which the point lies
      proportionally farthest from the center (ties go to x, then y),
      pointing away from the center along that axis. */
  function FaceNormal(box: Box, p: Vec3): (n: Vec3)
    requires box.NonDegenerate()
    ensures IsAxisUnit(n)
  {
    var rx, ry, rz := Abs(Ratio(box, p, 0)), Abs(Ratio(box, p, 1)), Abs(Ratio(box, p, 2));
    if rx >= ry && rx >= rz then AwayFromCenter(0, box.Center().x - p.x)
    else if ry >= rz then AwayFromCenter(1, box.Center().y - p.y)
    else AwayFromCenter(2, box.Center().z - p.z)
  }

  /** `p` lies on the face of axis `a` (the upper one when `upper`) and strictly
      inside that face, away from its edges. */
  predicate OnFace(box: Box, p: Vec3, a: nat, upper: bool)
    requires a < 3
  {
    box.Contains(p) &&
    p.Get(a) == (if upper then box.max.Get(a) else box.min.Get(a)) &&
    forall b :: 0 <= b < 3 && b != a ==> box.min.Get(b) < p.Get(b) < box.max.Get(b)
  }

  function Outward(a: nat, upper: bool): Vec3
    requires a < 3
  {
    if upper then AxisUnit(a) else AxisUnit(a).Times(-1.0)
  }

  lemma {:induction false} CancelPositive(r: real, q: real, s: real)
    requires s > 0.0
    ensures r * s < q * s ==> r < q
    ensures r * s == q * s ==> r == q
  {
  }

  /** The ratio of a point strictly inside an axis range is below one half in
      magnitude; on the upper bound it is -1/2, on the lower +1/2, at the middle 0. */
  lemma {:induction false} HalfRatio(m: real, mx: real, p: real)
    requires m < mx
    ensures var r := ((m + mx) / 2.0 - p) / (mx - m);
            (m < p < mx ==> -0.5 < r < 0.5) && (p == mx ==> r == -0.5) && (p == m ==> r == 0.5) &&
            (p == (m + mx) / 2.0 ==> r == 0.0)
  {
    var s := mx - m;
    var num := (m + mx) / 2.0 - p;
    var r := num / s;
    assert r * s == num;
    assert 0.5 * s - num == p - m && num + 0.5 * s == mx - p;
    CancelPositive(r, 0.5, s);
    CancelPositive(-0.5, r, s);
    CancelPositive(r, -0.5, s);
    CancelPositive(r, 0.0, s);
  }

  lemma {:induction false} HalfRatioOnAxis(box: Box, p: Vec3, a: nat)
    requires a < 3 && box.NonDegenerate() && box.min.Get(a) < box.max.Get(a)
    ensures box.min.Get(a) < p.Get(a) < box.max.Get(a) ==> Abs(Ratio(box, p, a)) < 0.5
    ensures p.Get(a) == box.max.Get(a) ==> Ratio(box, p, a) == -0.5
    ensures p.Get(a) == box.min.Get(a) ==> Ratio(box, p, a) == 0.5
    ensures p.Get(a) == box.Center().Get(a) ==> Ratio(box, p, a) == 0.0
  {
    HalfRatio(box.min.Get(a), box.max.Get(a), p.Get(a));
    assert box.Center().Get(a) == (box.min.Get(a) + box.max.Get(a)) / 2.0;
    assert box.Size().Get(a) == box.max.Get(a) - box.min.Get(a);
  }

  /** On every face, away from the edges, the committed normal is that face's
      outward unit normal. */
  lemma {:induction false} FaceNormalIsOutward(box: Box, p: Vec3, a: nat, upper: bool)
    requires a < 3
    requires box.min.x < box.max.x && box.min.y < box.max.y && box.min.z < box.max.z
    requires OnFace(box, p, a, upper)
    ensures box.NonDegenerate()
    ensures FaceNormal(box, p) == Outward(a, upper)
  {
    HalfRatioOnAxis(box, p, 0);
    HalfRatioOnAxis(box, p, 1);
    HalfRatioOnAxis(box, p, 2);
    if a == 0 {
      assert box.min.Get(1) < p.Get(1) < box.max.Get(1);
      assert box.min.Get(2) < p.Get(2) < box.max.Get(2);
    } else if a == 1 {
      assert box.min.Get(0) < p.Get(0) < box.max.Get(0);
      assert box.min.Get(2) < p.Get(2) < box.max.Get(2);
    } else {
      assert box.min.Get(0) < p.Get(0) < box.max.Get(0);
      assert box.min.Get(1) < p.Get(1) < box.max.Get(1);
    }
  }

  /** The two crossings of axis `a`, swapped into increasing order. */
  method AxisCrossings(box: Box, ray: Ray, a: nat) returns (lo: Ext, hi: Ext)
    requires a < 3 && AxisOk(box, ray, a)
    ensures lo == Near(box, ray, a) && hi == Far(box, ray, a)
    ensures lo.Le(hi)
  {
    lo := Quotient(box.min.Get(a) - ray.origin.Get(a), ray.direction.Get(a));
    hi := Quotient(box.max.Get(a) - ray.origin.Get(a), ray.direction.Get(a));
    SwapOrders(box, ray, a, lo, hi);
    if lo.Gt(hi) {
      lo, hi := hi, lo;
    }
  }

  /** The slab merge of `intersects` (box.cpp:9-61): the x and y
      intervals are merged, then the z interval, returning early as soon as
      the running interval is empty. */
  method MergeSlabs(box: Box, ray: Ray) returns (overlap: bool, tmin: Ext, tmax: Ext)
    requires RayOk(box, ray)
    ensures overlap <==> Overlaps(box, ray)
    ensures overlap ==> tmin == SlabLo(box, ray) && tmax == SlabHi(box, ray)
  {
    var tymin, tymax;
    tmin, tmax := AxisCrossings(box, ray, 0);
    tymin, tymax := AxisCrossings(box, ray, 1);

    MergeStep(tmin, tmax, tymin, tymax);
    MergeMonotone(ExtMax(tmin, tymin), ExtMin(tmax, tymax), Near(box, ray, 2), Far(box, ray, 2));
    if tmin.Gt(tymax) || tymin.Gt(tmax) {
      return false, tmin, tmax;
    }
    if tymin.Gt(tmin) {
      tmin := tymin;
    }
    if tymax.Lt(tmax) {
      tmax := tymax;
    }
    assert tmin == ExtMax(Near(box, ray, 0), Near(box, ray, 1));
    assert tmax == ExtMin(Far(box, ray, 0), Far(box, ray, 1));

    var tzmin, tzmax := AxisCrossings(box, ray, 2);

    MergeStep(tmin, tmax, tzmin, tzmax);
    if tmin.Gt(tzmax) || tzmin.Gt(tmax) {
      return false, tmin, tmax;
    }
    if tzmin.Gt(tmin) {
      tmin := tzmin;
    }
    if tzmax.Lt(tmax) {
      tmax := tzmax;
    }
    overlap := true;
  }

  /** `intersects(ray, Intersection&)`: the slab test. A hit is reported when
      the three slabs overlap and the clamped entry distance is not beyond the
      best hit so far; it then commits that distance, the point reached and
      the face normal, and nothing changes on a miss. */
  method Intersects(box: Box, ray: Ray, outNearest: Intersection) returns (hit: bool, nearest: Intersection)
    requires RayOk(box, ray) && box.NonDegenerate()
    ensures hit <==> Overlaps(box, ray) && outNearest.t.AtLeast(EntryT(box, ray))
    ensures hit ==> nearest == Intersection(Finite(EntryT(box, ray)), ray.At(EntryT(box, ray)),
                                            FaceNormalAsWritten(box, ray.At(EntryT(box, ray))))
    ensures !hit ==> nearest == outNearest
  {
    nearest := outNearest;
    var overlap, tmin, tmax := MergeSlabs(box, ray);
    if !overlap {
      return false, nearest;
    }
    OverlapIsFinite(box, ray);

    var t := ExtMin(ExtMax(tmin, Fin(0.0)), ExtMax(tmax, Fin(0.0)));
    ClampOnFinite(tmin, tmax);
    if t.Gt(DistToExt(outNearest.t)) {
      return false, nearest;
    }

    var position := ray.At(t.r);
    nearest := Intersection(Finite(t.r), position, FaceNormalAsWritten(box, position));
    hit := true;
  }

  /** `intersects(ray, MeshIntersection&)`: the same test on a copy of the
      record's distance, position and normal; `near` and `triangle` are never touched. */
  method IntersectsMesh(box: Box, ray: Ray, outNearest: MeshIntersection) returns (hit: bool, nearest: MeshIntersection)
    requires RayOk(box, ray) && box.NonDegenerate()
    ensures hit <==> Overlaps(box, ray) && outNearest.t.AtLeast(EntryT(box, ray))
    ensures hit ==> nearest == outNearest.(t := Finite(EntryT(box, ray)), position := ray.At(EntryT(box, ray)),
                                           normal := FaceNormalAsWritten(box, ray.At(EntryT(box, ray))))
    ensures !hit ==> nearest == outNearest
  {
    var inter;
    hit, inter := Intersects(box, ray, outNearest.AsIntersection());
    nearest := outNearest;
    if hit {
      nearest := outNearest.WithHit(inter);
    }
  }

  /** Dividing by a non-zero divisor keeps (positive) or flips (negative) the order. */
  lemma {:induction false} DivOrder(num: real, d: real, t: real)
    requires d != 0.0
    ensures d > 0.0 ==> (num / d <= t <==> num <= d * t) && (t <= num / d <==> d * t <= num)
    ensures d < 0.0 ==> (num / d <= t <==> d * t <= num) && (t <= num / d <==> num <= d * t)
  {
    var q := num / d;
    assert q * d == num;
    if d > 0.0 {
      assert q <= t ==> (t - q) * d >= 0.0;
      assert t <= q ==> (q - t) * d >= 0.0;
      assert num <= d * t ==> (t - q) * d >= 0.0;
      assert d * t <= num ==> (q - t) * d >= 0.0;
    } else {
      assert q <= t ==> (t - q) * d <= 0.0;
      assert t <= q ==> (q - t) * d <= 0.0;
      assert d * t <= num ==> (t - q) * d <= 0.0;
      assert num <= d * t ==> (q - t) * d <= 0.0;
    }
  }

  lemma {:induction false} AtOnAxis(ray: Ray, t: real, a: nat)
    requires a < 3
    ensures ray.At(t).Get(a) == ray.origin.Get(a) + ray.direction.Get(a) * t
  {
  }

  /** One axis in scalars: with bounds `lo <= hi`, origin `o` and direction `d`. */
  lemma {:induction false} ScalarAxisMeaning(lo: real, hi: real, o: real, d: real, t: real, x: real)
    requires lo <= hi && (d != 0.0 || (lo != o && hi != o))
    requires x == o + d * t
    ensures var q1, q2 := Quotient(lo - o, d), Quotient(hi - o, d);
            ExtMin(q1, q2).Le(Fin(t)) && Fin(t).Le(ExtMax(q1, q2)) <==> lo <= x <= hi
  {
    if d > 0.0 {
      DivOrder(lo - o, d, t);
      DivOrder(hi - o, d, t);
      DivOrder(lo - o, d, (hi - o) / d);
      assert (lo - o) / d <= (hi - o) / d;
    } else if d < 0.0 {
      DivOrder(lo - o, d, t);
      DivOrder(hi - o, d, t);
      DivOrder(hi - o, d, (lo - o) / d);
      assert (hi - o) / d <= (lo - o) / d;
    }
  }

  /** On one axis: `t` lies between the two crossings exactly when the point
      reached at `t` lies between the box's two planes of that axis. */
  lemma {:induction false} AxisMeaning(box: Box, ray: Ray, a: nat, t: real)
    requires a < 3 && AxisOk(box, ray, a) && box.min.Get(a) <= box.max.Get(a)
    ensures Near(box, ray, a).Le(Fin(t)) && Fin(t).Le(Far(box, ray, a)) <==>
            box.min.Get(a) <= ray.At(t).Get(a) <= box.max.Get(a)
  {
    var lo, hi, o, d := box.min.Get(a), box.max.Get(a), ray.origin.Get(a), ray.direction.Get(a);
    AtOnAxis(ray, t, a);
    assert Near(box, ray, a) == ExtMin(Quotient(lo - o, d), Quotient(hi - o, d));
    assert Far(box, ray, a) == ExtMax(Quotient(lo - o, d), Quotient(hi - o, d));
    ScalarAxisMeaning(lo, hi, o, d, t, ray.At(t).Get(a));
  }

  lemma {:induction false} MaxLe(a: Ext, b: Ext, x: Ext)
    ensures ExtMax(a, b).Le(x) <==> a.Le(x) && b.Le(x)
    ensures x.Le(ExtMin(a, b)) <==> x.Le(a) && x.Le(b)
  {
  }

  /** The slab test's meaning: for a proper box, `t` lies in the overlap of the
      three slabs exactly when the ray's point at `t` is inside the box. */
  lemma {:induction false} SlabMeaning(box: Box, ray: Ray, t: real)
    requires RayOk(box, ray) && box.Proper()
    ensures SlabLo(box, ray).Le(Fin(t)) && Fin(t).Le(SlabHi(box, ray)) <==> box.Contains(ray.At(t))
  {
    AxisMeaning(box, ray, 0, t);
    AxisMeaning(box, ray, 1, t);
    AxisMeaning(box, ray, 2, t);
    MaxLe(Near(box, ray, 0), Near(box, ray, 1), Fin(t));
    MaxLe(ExtMax(Near(box, ray, 0), Near(box, ray, 1)), Near(box, ray, 2), Fin(t));
    MaxLe(Far(box, ray, 0), Far(box, ray, 1), Fin(t));
    MaxLe(ExtMin(Far(box, ray, 0), Far(box, ray, 1)), Far(box, ray, 2), Fin(t));
  }

  /** When the box is not entirely behind the origin, the committed distance is
      the first `t >= 0` at which the ray is inside the box. */
  lemma {:induction false} EntryIsFirstPointInside(box: Box, ray: Ray)
    requires RayOk(box, ray) && box.Proper() && Overlaps(box, ray)
    requires SlabHi(box, ray).r >= 0.0
    ensures EntryT(box, ray) >= 0.0 && box.Contains(ray.At(EntryT(box, ray)))
    ensures forall t :: 0.0 <= t && box.Contains(ray.At(t)) ==> EntryT(box, ray) <= t
  {
    OverlapIsFinite(box, ray);
    SlabMeaning(box, ray, EntryT(box, ray));
    forall t | 0.0 <= t && box.Contains(ray.At(t))
      ensures EntryT(box, ray) <= t
    {
      SlabMeaning(box, ray, t);
    }
  }

  /** A box entirely behind the origin still overlaps the ray's line, and the
      committed distance is then 0 although no point with `t >= 0` is inside:
      such a box is reported hit at the origin. */
  lemma {:induction false} BoxBehindOriginHitsAtZero(box: Box, ray: Ray)
    requires RayOk(box, ray) && box.Proper() && Overlaps(box, ray)
    requires SlabHi(box, ray).r < 0.0
    ensures EntryT(box, ray) == 0.0
    ensures forall t :: 0.0 <= t ==> !box.Contains(ray.At(t))
  {
    OverlapIsFinite(box, ray);
    forall t | 0.0 <= t
      ensures !box.Contains(ray.At(t))
    {
      SlabMeaning(box, ray, t);
    }
  }

  /** The test never misses a box the ray enters at or before the best hit so
      far: it reports a hit no farther than that point. */
  lemma {:induction false} HitWhenInsideBeforeNearest(box: Box, ray: Ray, t: real, nearest: Dist)
    requires RayOk(box, ray) && box.Proper()
    requires 0.0 <= t && box.Contains(ray.At(t)) && nearest.AtLeast(t)
    ensures Overlaps(box, ray)
    ensures EntryT(box, ray) <= t && nearest.AtLeast(EntryT(box, ray))
  {
    SlabMeaning(box, ray, t);
    OverlapIsFinite(box, ray);
  }
}
