// A mesh with its bounding box and octree
// (Engine/src/render/meshSystem/mesh/mesh.h, mesh.cpp).

module Meshes {
  import opened Vectors
  import opened Boxes
  import opened Triangles
  import opened Octree

  /** `triangle.getVertex(k).position` */
  function Corner(vertices: seq<Vec3>, triangles: seq<Triangle>, i: nat, k: nat): Vec3
    requires MeshOk(vertices, triangles) && i < |triangles| && k < 3
  {
    var t := triangles[i];
    vertices[if k == 0 then t.i0 else if k == 1 then t.i1 else t.i2]
  }

  /** The box after `reset()` and the three `expand` calls of each of the
      first `n` triangles, in order. */
  function BoundsOf(vertices: seq<Vec3>, triangles: seq<Triangle>, n: nat): Box
    requires MeshOk(vertices, triangles) && n <= |triangles|
  {
    if n == 0 then ResetBox()
    else
      BoundsOf(vertices, triangles, n - 1)
        .Expand(Corner(vertices, triangles, n - 1, 0))
        .Expand(Corner(vertices, triangles, n - 1, 1))
        .Expand(Corner(vertices, triangles, n - 1, 2))
  }

  predicate AllInFloatRange(vertices: seq<Vec3>) {
    forall j :: 0 <= j < |vertices| ==> InFloatRange(vertices[j])
  }

  /** The box holds every vertex of the triangles folded into it. */
  lemma {:induction false} BoundsEnclose(vertices: seq<Vec3>, triangles: seq<Triangle>, n: nat)
    requires MeshOk(vertices, triangles) && n <= |triangles|
    ensures forall i, k :: 0 <= i < n && 0 <= k < 3 ==>
              BoundsOf(vertices, triangles, n).Contains(Corner(vertices, triangles, i, k))
  {
    if n > 0 {
      BoundsEnclose(vertices, triangles, n - 1);
    }
  }

  /** Each lower bound of a non-empty fold is attained by some vertex. */
  lemma {:induction false} LowerAttained(vertices: seq<Vec3>, triangles: seq<Triangle>, n: nat, a: nat)
    returns (i: nat, k: nat)
    requires MeshOk(vertices, triangles) && 0 < n <= |triangles| && a < 3 && AllInFloatRange(vertices)
    ensures i < n && k < 3 && Corner(vertices, triangles, i, k).Get(a) == BoundsOf(vertices, triangles, n).min.Get(a)
  {
    var m := BoundsOf(vertices, triangles, n).min.Get(a);
    var c0, c1, c2 := Corner(vertices, triangles, n - 1, 0), Corner(vertices, triangles, n - 1, 1),
                      Corner(vertices, triangles, n - 1, 2);
    var before := BoundsOf(vertices, triangles, n - 1).min.Get(a);
    assert m == Min(Min(Min(before, c0.Get(a)), c1.Get(a)), c2.Get(a));
    if m == c2.Get(a) {
      i, k := n - 1, 2;
    } else if m == c1.Get(a) {
      i, k := n - 1, 1;
    } else if m == c0.Get(a) {
      i, k := n - 1, 0;
    } else {
      assert c0.Get(a) <= MaxFloat;
      i, k := LowerAttained(vertices, triangles, n - 1, a);
    }
  }

  /** Each upper bound of a non-empty fold is attained by some vertex. */
  lemma {:induction false} UpperAttained(vertices: seq<Vec3>, triangles: seq<Triangle>, n: nat, a: nat)
    returns (i: nat, k: nat)
    requires MeshOk(vertices, triangles) && 0 < n <= |triangles| && a < 3 && AllInFloatRange(vertices)
    ensures i < n && k < 3 && Corner(vertices, triangles, i, k).Get(a) == BoundsOf(vertices, triangles, n).max.Get(a)
  {
    var m := BoundsOf(vertices, triangles, n).max.Get(a);
    var c0, c1, c2 := Corner(vertices, triangles, n - 1, 0), Corner(vertices, triangles, n - 1, 1),
                      Corner(vertices, triangles, n - 1, 2);
    var before := BoundsOf(vertices, triangles, n - 1).max.Get(a);
    assert m == Max(Max(Max(before, c0.Get(a)), c1.Get(a)), c2.Get(a));
    if m == c2.Get(a) {
      i, k := n - 1, 2;
    } else if m == c1.Get(a) {
      i, k := n - 1, 1;
    } else if m == c0.Get(a) {
      i, k := n - 1, 0;
    } else {
      assert -MaxFloat <= c0.Get(a);
      i, k := UpperAttained(vertices, triangles, n - 1, a);
    }
  }

  /** With at least one triangle (and vertices inside the float range), the
      box corners are exactly the component-wise minimum and maximum over
      all vertices: every vertex lies between them, and each of the six
      bounds is some vertex's coordinate. */
  lemma {:induction false} BoundsAreTight(vertices: seq<Vec3>, triangles: seq<Triangle>)
    requires MeshOk(vertices, triangles) && 0 < |triangles| && AllInFloatRange(vertices)
    ensures var b := BoundsOf(vertices, triangles, |triangles|);
            forall a :: 0 <= a < 3 ==>
              (forall i, k :: 0 <= i < |triangles| && 0 <= k < 3 ==>
                 b.min.Get(a) <= Corner(vertices, triangles, i, k).Get(a) <= b.max.Get(a)) &&
              (exists i, k :: 0 <= i < |triangles| && 0 <= k < 3 && Corner(vertices, triangles, i, k).Get(a) == b.min.Get(a)) &&
              (exists i, k :: 0 <= i < |triangles| && 0 <= k < 3 && Corner(vertices, triangles, i, k).Get(a) == b.max.Get(a))
  {
    var n := |triangles|;
    BoundsEnclose(vertices, triangles, n);
    var b := BoundsOf(vertices, triangles, n);
    forall a, i, k | 0 <= a < 3 && 0 <= i < n && 0 <= k < 3
      ensures b.min.Get(a) <= Corner(vertices, triangles, i, k).Get(a) <= b.max.Get(a)
    {
      assert b.Contains(Corner(vertices, triangles, i, k));
    }
    forall a | 0 <= a < 3
      ensures exists i, k :: 0 <= i < n && 0 <= k < 3 &&
                Corner(vertices, triangles, i, k).Get(a) == BoundsOf(vertices, triangles, n).min.Get(a)
      ensures exists i, k :: 0 <= i < n && 0 <= k < 3 &&
                Corner(vertices, triangles, i, k).Get(a) == BoundsOf(vertices, triangles, n).max.Get(a)
    {
      var i, k := LowerAttained(vertices, triangles, n, a);
      var i', k' := UpperAttained(vertices, triangles, n, a);
    }
  }

  /** The folded box encloses the mesh in the octree's sense, so building
      the octree from it stores every triangle. */
  lemma {:induction false} BoundsEncloseMesh(vertices: seq<Vec3>, triangles: seq<Triangle>)
    requires MeshOk(vertices, triangles)
    ensures Encloses(BoundsOf(vertices, triangles, |triangles|), vertices, triangles)
  {
    var b := BoundsOf(vertices, triangles, |triangles|);
    BoundsEnclose(vertices, triangles, |triangles|);
    forall i | 0 <= i < |triangles|
      ensures b.Contains(vertices[triangles[i].i0]) && b.Contains(vertices[triangles[i].i1]) &&
              b.Contains(vertices[triangles[i].i2])
    {
      assert Corner(vertices, triangles, i, 0) == vertices[triangles[i].i0];
      assert Corner(vertices, triangles, i, 1) == vertices[triangles[i].i1];
      assert Corner(vertices, triangles, i, 2) == vertices[triangles[i].i2];
    }
  }

  class Mesh {
    var vertices: seq<Vec3>
    var triangles: seq<Triangle>
    var boundingBox: Box
    var octree: TriangleOctree

    /** A mesh over the given data; the box holds whatever it was given. */
    constructor(vs: seq<Vec3>, ts: seq<Triangle>, box: Box)
      ensures vertices == vs && triangles == ts && boundingBox == box
      ensures fresh(octree) && !octree.inited
    {
      vertices, triangles, boundingBox := vs, ts, box;
      octree := new TriangleOctree();
    }

    /** `createBoundingBox`: reset, then expand by the three vertices of
        every triangle. */
    method CreateBoundingBox()
      requires MeshOk(vertices, triangles)
      modifies this
      ensures vertices == old(vertices) && triangles == old(triangles) && octree == old(octree)
      ensures boundingBox == BoundsOf(vertices, triangles, |triangles|)
      ensures triangles == [] ==> boundingBox == ResetBox()
      ensures Encloses(boundingBox, vertices, triangles)
    {
      var box := ResetBox();
      for i := 0 to |triangles|
        invariant box == BoundsOf(vertices, triangles, i)
      {
        box := box.Expand(Corner(vertices, triangles, i, 0));
        box := box.Expand(Corner(vertices, triangles, i, 1));
        box := box.Expand(Corner(vertices, triangles, i, 2));
      }
      boundingBox := box;
      BoundsEncloseMesh(vertices, triangles);
    }

    /** `initializeOctree`: rebuild the octree from this mesh. When the box
        is the one `createBoundingBox` computes, every triangle is stored
        exactly once. */
    method InitializeOctree()
      requires MeshOk(vertices, triangles)
      modifies octree
      ensures octree.Valid() && octree.inited
      ensures octree.vertices == vertices && octree.triangles == triangles
      ensures |octree.nodes| > 0 && octree.nodes[0].box == PaddedBox(boundingBox)
      ensures boundingBox == BoundsOf(vertices, triangles, |triangles|) ==>
                AllTriangles(octree.nodes) == multiset(Range(|triangles|))
    {
      if boundingBox == BoundsOf(vertices, triangles, |triangles|) {
        BoundsEncloseMesh(vertices, triangles);
      }
      octree.Initialize(vertices, triangles, boundingBox);
    }
  }
}
