// Triangle octree used for ray picking
// (Engine/src/render/meshSystem/mesh/triangleOctree.h, triangleOctree.cpp).
//
// The source's tree of heap-allocated nodes, each owning an array of eight
// children, is kept as an arena: `nodes` holds every node, and a split node
// records the index of the first of its eight consecutive children.

module Octree {
  import opened Vectors
  import opened Intersections
  import opened Boxes
  import opened BoxRay
  import opened Triangles

  /** PREFFERED_TRIANGLE_COUNT: a leaf holds up to this many triangles before splitting. */
  const PreferredTriangleCount: nat := 32

  /** MAX_STRETCHING_RATIO - 1: how far a child box reaches across the split plane. */
  const StretchFraction: real := 0.05

  /** The root box is the mesh box grown by 1e-5 on every side. */
  const RootPadding: real := 0.00001

  /** Recursion depth granted to one insertion from the root. */
  const MaxDepth: nat := 64
  /** The number of children of a split node. */
  const Octants: nat := 8

  function Centroid(v1: Vec3, v2: Vec3, v3: Vec3): Vec3 {
    v1.Plus(v2).Plus(v3).Over(3.0)
  }

  /** Every triangle names three existing vertices. */
  predicate MeshOk(vertices: seq<Vec3>, triangles: seq<Triangle>) {
    forall i :: 0 <= i < |triangles| ==> triangles[i].IndicesIn(vertices)
  }

  /** `getPos`: vertex `v` of triangle `tri`; a mesh without a triangle list
      is read as consecutive vertex triples. */
  function GetPos(vertices: seq<Vec3>, triangles: seq<Triangle>, tri: nat, v: nat): Vec3
    requires v < 3 && MeshOk(vertices, triangles)
    requires if triangles == [] then 3 * tri + v < |vertices| else tri < |triangles|
  {
    if triangles == [] then vertices[tri * 3 + v]
    else
      var t := triangles[tri];
      vertices[if v == 0 then t.i0 else if v == 1 then t.i1 else t.i2]
  }

  /** `initialize(mesh)`'s root box: the mesh box padded by 1e-5. */
  function PaddedBox(b: Box): Box {
    var eps := Vec3(RootPadding, RootPadding, RootPadding);
    Box(b.min.Minus(eps), b.max.Plus(eps))
  }

  /** Lower or upper half of one axis, split at `c`. */
  function HalfLo(lower: bool, pmin: real, c: real): real {
    if lower then pmin else c
  }

  function HalfHi(lower: bool, pmax: real, c: real): real {
    if lower then c else pmax
  }

  /** Octant bits: bit 0 picks the lower x half, bit 1 the y half, bit 2 the z half. */
  predicate LowerX(octet: nat) { octet % 2 == 0 }
  predicate LowerY(octet: nat) { octet % 4 < 2 }
  predicate LowerZ(octet: nat) { octet < 4 }

  /** The child's strict box, `m_initialBoundingBox`: one octant of the
      parent's strict box split at `c`. */
  function ChildInitialBox(parent: Box, c: Vec3, octet: nat): Box
    requires octet < 8
  {
    Box(Vec3(HalfLo(LowerX(octet), parent.min.x, c.x),
             HalfLo(LowerY(octet), parent.min.y, c.y),
             HalfLo(LowerZ(octet), parent.min.z, c.z)),
        Vec3(HalfHi(LowerX(octet), parent.max.x, c.x),
             HalfHi(LowerY(octet), parent.max.y, c.y),
             HalfHi(LowerZ(octet), parent.max.z, c.z)))
  }

  /** The child's elongated box, `m_boundingBox`: the strict box stretched by
      5% of its size on the side facing the parent's split plane. */
  function ChildBox(parent: Box, c: Vec3, octet: nat): Box
    requires octet < 8
  {
    var s := ChildInitialBox(parent, c, octet);
    var e := s.Size().Times(StretchFraction);
    Box(Vec3(if LowerX(octet) then s.min.x else s.min.x - e.x,
             if LowerY(octet) then s.min.y else s.min.y - e.y,
             if LowerZ(octet) then s.min.z else s.min.z - e.z),
        Vec3(if LowerX(octet) then s.max.x + e.x else s.max.x,
             if LowerY(octet) then s.max.y + e.y else s.max.y,
             if LowerZ(octet) then s.max.z + e.z else s.max.z))
  }

  /** The octant of `c` that `q` falls in, ties going to the lower half. */
  function OctantOf(q: Vec3, c: Vec3): (octet: nat)
    ensures octet < 8
  {
    (if q.x <= c.x then 0 else 1) + (if q.y <= c.y then 0 else 2) + (if q.z <= c.z then 0 else 4)
  }

  /** The eight strict boxes lie inside the parent, and together they cover
      it: every point of the parent is in the octant `OctantOf` names. */
  lemma {:induction false} OctantsTileParent(parent: Box, octet: nat, q: Vec3)
    requires parent.Proper() && octet < 8
    ensures ChildInitialBox(parent, parent.Center(), octet).Within(parent)
    ensures ChildInitialBox(parent, parent.Center(), octet).Proper()
    ensures parent.Contains(q) ==> ChildInitialBox(parent, parent.Center(), OctantOf(q, parent.Center())).Contains(q)
  {
  }

  /** A child's elongated box holds its strict box, differs from it only on
      the side facing the split plane, and reaches 5% of the child's size
      past that plane. */
  lemma {:induction false} ChildBoxStretchesAcrossSplit(parent: Box, octet: nat)
    requires parent.Proper() && octet < 8
    ensures var s, b := ChildInitialBox(parent, parent.Center(), octet), ChildBox(parent, parent.Center(), octet);
            s.Within(b) &&
            (if LowerX(octet) then b.min.x == s.min.x && b.max.x == s.max.x + StretchFraction * s.Size().x
             else b.max.x == s.max.x && b.min.x == s.min.x - StretchFraction * s.Size().x) &&
            (if LowerY(octet) then b.min.y == s.min.y && b.max.y == s.max.y + StretchFraction * s.Size().y
             else b.max.y == s.max.y && b.min.y == s.min.y - StretchFraction * s.Size().y) &&
            (if LowerZ(octet) then b.min.z == s.min.z && b.max.z == s.max.z + StretchFraction * s.Size().z
             else b.max.z == s.max.z && b.min.z == s.min.z - StretchFraction * s.Size().z)
  {
    var s := ChildInitialBox(parent, parent.Center(), octet);
    assert LessEq(s.min, s.max);
  }

  /** Octants of a box with extent on every axis have extent on every axis,
      strict and elongated alike. */
  lemma {:induction false} ChildBoxesNonDegenerate(parent: Box, octet: nat)
    requires parent.NonDegenerate() && octet < 8
    ensures ChildInitialBox(parent, parent.Center(), octet).NonDegenerate()
    ensures ChildBox(parent, parent.Center(), octet).NonDegenerate()
  {
    var s := ChildInitialBox(parent, parent.Center(), octet);
    assert s.Size() == parent.Size().Half();
  }

  datatype Children = Leaf | Split(first: nat)

  /** One octree node: its own triangle indices (`m_triangles`), its
      elongated and strict boxes, and where its eight children start. */
  datatype Node = Node(triangles: seq<nat>, box: Box, initialBox: Box, children: Children)

  /** The acceptance test of `addTriangle`: the centroid in the strict box and
      all three vertices in the elongated box. */
  predicate AcceptsPoints(node: Node, v1: Vec3, v2: Vec3, v3: Vec3, center: Vec3) {
    node.initialBox.Contains(center) &&
    node.box.Contains(v1) && node.box.Contains(v2) && node.box.Contains(v3)
  }

  predicate Accepts(vertices: seq<Vec3>, triangles: seq<Triangle>, node: Node, idx: nat)
    requires MeshOk(vertices, triangles) && idx < |triangles|
  {
    var v1, v2, v3 := GetPos(vertices, triangles, idx, 0), GetPos(vertices, triangles, idx, 1),
                      GetPos(vertices, triangles, idx, 2);
    AcceptsPoints(node, v1, v2, v3, Centroid(v1, v2, v3))
  }

  /** Child `j` of split node `k` sits where the split put it: its parent
      link, strict box and elongated box. */
  ghost predicate IsOctant(nodes: seq<Node>, parent: seq<int>, k: nat, j: nat)
  {
    k < |nodes| && nodes[k].children.Split? && j < 8 &&
    var p, q := nodes[k], nodes[k].children.first + j;
    q < |nodes| && q < |parent| && parent[q] == k &&
    nodes[q].initialBox == ChildInitialBox(p.initialBox, p.initialBox.Center(), j) &&
    nodes[q].box == ChildBox(p.initialBox, p.initialBox.Center(), j)
  }

  /** The arena is a tree rooted at node 0: every other node is one of the
      eight consecutive children of exactly one earlier node, and split nodes
      point forward. */
  ghost predicate Shape(nodes: seq<Node>, parent: seq<int>) {
    |parent| == |nodes| &&
    (|nodes| > 0 ==> parent[0] == -1) &&
    (forall k :: 0 <= k < |nodes| && nodes[k].children.Split? ==>
       k < nodes[k].children.first && nodes[k].children.first + 8 <= |nodes|) &&
    (forall k, j {:trigger IsOctant(nodes, parent, k, j)} :: 0 <= k < |nodes| && nodes[k].children.Split? && 0 <= j < 8 ==> IsOctant(nodes, parent, k, j)) &&
    (forall q {:trigger parent[q]} :: 1 <= q < |nodes| ==>
       0 <= parent[q] < q && nodes[parent[q]].children.Split? &&
       nodes[parent[q]].children.first <= q < nodes[parent[q]].children.first + 8)
  }

  /** Every index the node stores names a triangle the node accepts. */
  ghost predicate NodeStored(vertices: seq<Vec3>, triangles: seq<Triangle>, node: Node)
    requires MeshOk(vertices, triangles)
  {
    forall j :: 0 <= j < |node.triangles| ==>
      node.triangles[j] < |triangles| && Accepts(vertices, triangles, node, node.triangles[j])
  }

  ghost predicate Stored(vertices: seq<Vec3>, triangles: seq<Triangle>, nodes: seq<Node>)
    requires MeshOk(vertices, triangles)
  {
    forall k {:trigger NodeStored(vertices, triangles, nodes[k])} :: 0 <= k < |nodes| ==> NodeStored(vertices, triangles, nodes[k])
  }

  /** All stored indices of the tree, with multiplicity. */
  ghost function AllTriangles(nodes: seq<Node>): multiset<nat> {
    if nodes == [] then multiset{}
    else AllTriangles(nodes[..|nodes| - 1]) + multiset(nodes[|nodes| - 1].triangles)
  }

  lemma {:induction false} AllTrianglesAppend(nodes: seq<Node>, more: seq<Node>)
    ensures AllTriangles(nodes + more) == AllTriangles(nodes) + AllTriangles(more)
    decreases |more|
  {
    if more == [] {
      assert nodes + more == nodes;
    } else {
      var last := more[|more| - 1];
      assert (nodes + more)[..|nodes + more| - 1] == nodes + more[..|more| - 1];
      AllTrianglesAppend(nodes, more[..|more| - 1]);
    }
  }

  /** Adding the same multiset to both sides keeps an equation. */
  lemma MultisetShift(a: multiset<nat>, b: multiset<nat>, c: multiset<nat>, d: multiset<nat>, e: multiset<nat>)
    requires a + c == b + d
    ensures a + e + c == b + e + d
  {
    forall y
      ensures (a + e + c)[y] == (b + e + d)[y]
    {
      assert (a + c)[y] == (b + d)[y];
    }
  }

  /** Replacing one node's list changes the tree's contents by exactly that list's change. */
  lemma {:induction false} AllTrianglesUpdate(nodes: seq<Node>, k: nat, n: Node)
    requires k < |nodes|
    ensures AllTriangles(nodes[k := n]) + multiset(nodes[k].triangles) == AllTriangles(nodes) + multiset(n.triangles)
    decreases |nodes|
  {
    var m := |nodes| - 1;
    var updated := nodes[k := n];
    assert updated[..m] == if k == m then nodes[..m] else nodes[..m][k := n];
    if k < m {
      AllTrianglesUpdate(nodes[..m], k, n);
      assert updated[m] == nodes[m];
      MultisetShift(AllTriangles(updated[..m]), AllTriangles(nodes[..m]), multiset(nodes[k].triangles),
                    multiset(n.triangles), multiset(nodes[m].triangles));
    } else {
      assert AllTriangles(updated) == AllTriangles(nodes[..m]) + multiset(n.triangles);
    }
  }

  /** The contents depend on the nodes' triangle lists alone. */
  lemma {:induction false} AllTrianglesSameLists(a: seq<Node>, b: seq<Node>)
    requires |a| == |b| && forall i :: 0 <= i < |a| ==> a[i].triangles == b[i].triangles
    ensures AllTriangles(a) == AllTriangles(b)
    decreases |a|
  {
    if a != [] {
      AllTrianglesSameLists(a[..|a| - 1], b[..|b| - 1]);
    }
  }

  /** Eight fresh children with no triangles add nothing. */
  lemma {:induction false} AllTrianglesOfEmpty(more: seq<Node>)
    requires forall i :: 0 <= i < |more| ==> more[i].triangles == []
    ensures AllTriangles(more) == multiset{}
    decreases |more|
  {
    if more != [] {
      AllTrianglesOfEmpty(more[..|more| - 1]);
    }
  }

  /** The eight children a split appends, in octant order. */
  function SplitChildren(p: Box): (r: seq<Node>)
    ensures |r| == 8
    ensures forall j :: 0 <= j < 8 ==>
      r[j] == Node([], ChildBox(p, p.Center(), j), ChildInitialBox(p, p.Center(), j), Leaf)
  {
    var c := p.Center();
    seq(8, j requires 0 <= j < 8 => Node([], ChildBox(p, c, j), ChildInitialBox(p, c, j), Leaf))
  }

  /** Changing only a node's triangle list keeps the tree's shape. */
  lemma {:induction false} ShapeIgnoresTriangles(nodes: seq<Node>, parent: seq<int>, k: nat, ts: seq<nat>)
    requires Shape(nodes, parent) && k < |nodes|
    ensures Shape(nodes[k := nodes[k].(triangles := ts)], parent)
  {
    var nodes' := nodes[k := nodes[k].(triangles := ts)];
    forall q, j | 0 <= q < |nodes'| && nodes'[q].children.Split? && 0 <= j < 8
      ensures IsOctant(nodes', parent, q, j)
    {
      assert IsOctant(nodes, parent, q, j);
    }
  }

  /** Splitting a leaf appends its eight octants and keeps the tree's shape. */
  lemma {:induction false} ShapeAfterSplit(nodes: seq<Node>, parent: seq<int>, k: nat)
    requires Shape(nodes, parent) && k < |nodes| && nodes[k].children.Leaf?
    ensures var first := |nodes|;
            Shape(nodes[k := nodes[k].(children := Split(first))] + SplitChildren(nodes[k].initialBox),
                  parent + seq(8, _ => k))
  {
    var first := |nodes|;
    var p := nodes[k].initialBox;
    var kids := SplitChildren(p);
    var nodes' := nodes[k := nodes[k].(children := Split(first))] + kids;
    var parent' := parent + seq(8, _ => k);
    forall q, j | 0 <= q < |nodes'| && nodes'[q].children.Split? && 0 <= j < 8
      ensures IsOctant(nodes', parent', q, j)
    {
      if q != k {
        assert IsOctant(nodes, parent, q, j);
      }
    }
    forall q | 1 <= q < |nodes'|
      ensures 0 <= parent'[q] < q && nodes'[parent'[q]].children.Split? &&
              nodes'[parent'[q]].children.first <= q < nodes'[parent'[q]].children.first + 8
    {
      if q < first {
        assert nodes[parent[q]].children.Split?;
      }
    }
  }

  /** The later state keeps every node below index `k` as it was, keeps
      every old node's boxes, and keeps the children of every old split node. */
  ghost predicate Grows(before: seq<Node>, after: seq<Node>, k: nat) {
    |before| <= |after| &&
    (forall q {:trigger before[q]} :: 0 <= q < k && q < |before| ==> after[q] == before[q]) &&
    (forall q {:trigger before[q]} :: 0 <= q < |before| ==>
       after[q].box == before[q].box && after[q].initialBox == before[q].initialBox &&
       (before[q].children.Split? ==> after[q].children == before[q].children))
  }

  lemma {:induction false} GrowsTrans(a: seq<Node>, b: seq<Node>, c: seq<Node>, x: nat, y: nat, z: nat)
    requires Grows(a, b, x) && Grows(b, c, y) && z <= x && z <= y
    ensures Grows(a, c, z)
  {
  }

  lemma GrowsWeaken(a: seq<Node>, b: seq<Node>, x: nat, z: nat)
    requires Grows(a, b, x) && z <= x
    ensures Grows(a, b, z)
  {
  }

  /** How many parent links lead from node `q` up to the root. */
  ghost function Depth(parent: seq<int>, q: nat): nat
    decreases q
  {
    if q < |parent| && 0 <= parent[q] < q then 1 + Depth(parent, parent[q]) else 0
  }

  /** Every split node lies fewer than `MaxDepth` links below the root, so an
      insertion that starts at the root with `MaxDepth` fuel still has fuel
      at every split node it reaches. */
  ghost predicate Shallow(nodes: seq<Node>, parent: seq<int>) {
    forall q {:trigger Depth(parent, q)} :: 0 <= q < |nodes| && nodes[q].children.Split? ==> Depth(parent, q) < MaxDepth
  }

  /** `parent'` keeps every link of `parent` and may add more. */
  ghost predicate Extends(parent: seq<int>, parent': seq<int>) {
    |parent| <= |parent'| && forall q :: 0 <= q < |parent| ==> parent'[q] == parent[q]
  }

  /** Every old node keeps its depth. */
  ghost predicate KeepsDepths(parent: seq<int>, parent': seq<int>) {
    |parent| <= |parent'| && forall q :: 0 <= q < |parent| ==> Depth(parent', q) == Depth(parent, q)
  }

  lemma KeepsDepthsTrans(a: seq<int>, b: seq<int>, c: seq<int>)
    requires KeepsDepths(a, b) && KeepsDepths(b, c)
    ensures KeepsDepths(a, c)
  {
  }

  /** Adding links leaves the depth of every old node as it was. */
  lemma {:induction false} DepthExtends(parent: seq<int>, parent': seq<int>, q: nat)
    requires Extends(parent, parent') && q < |parent|
    ensures Depth(parent', q) == Depth(parent, q)
    decreases q
  {
    if 0 <= parent[q] < q {
      DepthExtends(parent, parent', parent[q]);
    }
  }

  /** Child `j` of a split node lies one link deeper than the node. */
  lemma ChildDepth(nodes: seq<Node>, parent: seq<int>, k: nat, j: nat)
    requires Shape(nodes, parent) && k < |nodes| && nodes[k].children.Split? && j < 8
    ensures Depth(parent, nodes[k].children.first + j) == Depth(parent, k) + 1
  {
    assert IsOctant(nodes, parent, k, j);
  }

  /** The eight links a split appends leave every old depth as it was. */
  lemma SplitKeepsDepths(parent: seq<int>, k: nat)
    ensures KeepsDepths(parent, parent + seq(8, _ => k))
  {
    var parent' := parent + seq(8, _ => k);
    assert Extends(parent, parent');
    forall q | 0 <= q < |parent|
      ensures Depth(parent', q) == Depth(parent, q)
    {
      DepthExtends(parent, parent', q);
    }
  }

  /** Splitting a leaf that lies above the depth bound keeps every split
      node above it. */
  lemma ShallowAfterSplit(nodes: seq<Node>, parent: seq<int>, k: nat)
    requires |parent| == |nodes| && Shallow(nodes, parent) && k < |nodes| && Depth(parent, k) < MaxDepth
    ensures KeepsDepths(parent, parent + seq(8, _ => k))
    ensures Shallow(SplitAt(nodes, k), parent + seq(8, _ => k))
  {
    var parent' := parent + seq(8, _ => k);
    SplitKeepsDepths(parent, k);
    var split := SplitAt(nodes, k);
    forall q | 0 <= q < |split| && split[q].children.Split?
      ensures Depth(parent', q) < MaxDepth
    {
      if q < |nodes| && q != k {
        assert split[q] == nodes[q];
      }
    }
  }

  /** Replacing a node's list keeps every split node where it was. */
  lemma ShallowWithTriangles(nodes: seq<Node>, parent: seq<int>, k: nat, ts: seq<nat>)
    requires Shallow(nodes, parent) && k < |nodes|
    ensures Shallow(WithTriangles(nodes, k, ts), parent)
  {
    var after := WithTriangles(nodes, k, ts);
    forall q | 0 <= q < |after| && after[q].children.Split?
      ensures Depth(parent, q) < MaxDepth
    {
      assert after[q].children == nodes[q].children;
    }
  }

  /** Node `q` lies in the subtree of node `a`. */
  ghost predicate Below(parent: seq<int>, a: nat, q: nat)
    decreases q
  {
    q == a || (a < q < |parent| && 0 <= parent[q] < q && Below(parent, a, parent[q]))
  }

  /** The subtree of child `c` lies in the subtree of its parent `k`. */
  lemma {:induction false} BelowParent(parent: seq<int>, k: nat, c: nat, q: nat)
    requires c < |parent| && parent[c] == k && k < c && Below(parent, c, q)
    ensures Below(parent, k, q)
    decreases q
  {
    if q != c {
      BelowParent(parent, k, c, parent[q]);
    }
  }

  /** A subtree of a node in the subtree of `a` lies in the subtree of `a`. */
  lemma {:induction false} BelowTrans(parent: seq<int>, a: nat, b: nat, q: nat)
    requires Below(parent, a, b) && Below(parent, b, q)
    ensures Below(parent, a, q)
    decreases q
  {
    if q != b {
      BelowTrans(parent, a, b, parent[q]);
    }
  }

  /** Added links leave every old node in the subtrees it was in. */
  lemma {:induction false} BelowExtends(parent: seq<int>, parent': seq<int>, a: nat, q: nat)
    requires Extends(parent, parent') && q < |parent|
    ensures Below(parent', a, q) == Below(parent, a, q)
    decreases q
  {
    if a < q && 0 <= parent[q] < q {
      BelowExtends(parent, parent', a, parent[q]);
    }
  }

  /** Every old node lies in the same subtrees under both link lists. */
  ghost predicate KeepsBelow(parent: seq<int>, parent': seq<int>) {
    |parent| <= |parent'| &&
    forall a, q :: 0 <= q < |parent| ==> Below(parent', a, q) == Below(parent, a, q)
  }

  lemma KeepsBelowAfterSplit(parent: seq<int>, k: nat)
    ensures KeepsBelow(parent, parent + seq(8, _ => k))
  {
    var grown := parent + seq(8, _ => k);
    assert Extends(parent, grown);
    forall a, q | 0 <= q < |parent|
      ensures Below(grown, a, q) == Below(parent, a, q)
    {
      BelowExtends(parent, grown, a, q);
    }
  }

  /** Some node of the subtree of `a` holds index `idx`. */
  ghost predicate StoredUnder(nodes: seq<Node>, parent: seq<int>, a: nat, idx: nat) {
    exists q :: 0 <= q < |nodes| && Below(parent, a, q) && idx in nodes[q].triangles
  }

  lemma StoredHere(nodes: seq<Node>, parent: seq<int>, k: nat, idx: nat)
    requires k < |nodes| && idx in nodes[k].triangles
    ensures StoredUnder(nodes, parent, k, idx)
  {
    assert Below(parent, k, k);
  }

  /** Child `j` of split node `k` is the first to accept the triangle with
      these corners and centroid, and triangle `idx` sits in its subtree. */
  ghost predicate FirstTaker(nodes: seq<Node>, parent: seq<int>, k: nat, j: nat, idx: nat,
                             v1: Vec3, v2: Vec3, v3: Vec3, center: Vec3) {
    k < |nodes| && nodes[k].children.Split? && nodes[k].children.first + 8 <= |nodes| && j < 8 &&
    NoneAccept(nodes, nodes[k].children.first, j, v1, v2, v3, center) &&
    AcceptsPoints(nodes[nodes[k].children.first + j], v1, v2, v3, center) &&
    StoredUnder(nodes, parent, nodes[k].children.first + j, idx)
  }

  /** Triangle `idx` went to the first child of split node `k` that accepts it. */
  ghost predicate SentToFirstChild(nodes: seq<Node>, parent: seq<int>, k: nat, idx: nat,
                                   v1: Vec3, v2: Vec3, v3: Vec3, center: Vec3) {
    exists j :: FirstTaker(nodes, parent, k, j, idx, v1, v2, v3, center)
  }

  /** Child `j`, the first to accept, took triangle `idx` into its subtree;
      the arena may have grown from `j` on without changing any boxes. */
  lemma TakenByFirst(nodes: seq<Node>, after: seq<Node>, parent': seq<int>, k: nat, j: nat, idx: nat,
                     v1: Vec3, v2: Vec3, v3: Vec3, center: Vec3)
    requires k < |nodes| && nodes[k].children.Split? && nodes[k].children.first + 8 <= |nodes| && j < 8
    requires NoneAccept(nodes, nodes[k].children.first, j, v1, v2, v3, center)
    requires AcceptsPoints(nodes[nodes[k].children.first + j], v1, v2, v3, center)
    requires Grows(nodes, after, 0) && StoredUnder(after, parent', nodes[k].children.first + j, idx)
    ensures SentToFirstChild(after, parent', k, idx, v1, v2, v3, center)
  {
    var first := nodes[k].children.first;
    NoneAcceptSameBoxes(nodes, after, first, j, v1, v2, v3, center);
    assert FirstTaker(after, parent', k, j, idx, v1, v2, v3, center);
  }

  /** What is sent to a child is stored below the node. */
  lemma SentIsStored(nodes: seq<Node>, parent: seq<int>, k: nat, idx: nat, v1: Vec3, v2: Vec3, v3: Vec3, center: Vec3)
    requires Shape(nodes, parent) && SentToFirstChild(nodes, parent, k, idx, v1, v2, v3, center)
    ensures StoredUnder(nodes, parent, k, idx)
    ensures exists q :: k < q < |nodes| && Below(parent, k, q) && idx in nodes[q].triangles
  {
    var j :| FirstTaker(nodes, parent, k, j, idx, v1, v2, v3, center);
    var c := nodes[k].children.first + j;
    assert IsOctant(nodes, parent, k, j);
    var q :| 0 <= q < |nodes| && Below(parent, c, q) && idx in nodes[q].triangles;
    BelowParent(parent, k, c, q);
  }

  /** Mesh triangle `idx` went to the first child of split node `k` accepting it. */
  ghost predicate SentIndex(vertices: seq<Vec3>, triangles: seq<Triangle>, nodes: seq<Node>, parent: seq<int>,
                            k: nat, idx: nat) {
    MeshOk(vertices, triangles) && idx < |triangles| &&
    var v1, v2, v3 := GetPos(vertices, triangles, idx, 0), GetPos(vertices, triangles, idx, 1),
                      GetPos(vertices, triangles, idx, 2);
    SentToFirstChild(nodes, parent, k, idx, v1, v2, v3, Centroid(v1, v2, v3))
  }

  /** Every index stored in the subtree of an old node is still stored there. */
  ghost predicate KeepsStored(nodes: seq<Node>, parent: seq<int>, after: seq<Node>, parent': seq<int>) {
    forall a, x :: 0 <= a < |nodes| && StoredUnder(nodes, parent, a, x) ==> StoredUnder(after, parent', a, x)
  }

  /** The change from `nodes` to `after` stays inside the subtree of `k`:
      every old node outside it is as it was, old nodes keep their subtrees,
      and no stored index leaves a subtree it was in. */
  ghost predicate StaysWithin(nodes: seq<Node>, parent: seq<int>, after: seq<Node>, parent': seq<int>, k: nat) {
    |nodes| <= |after| && KeepsBelow(parent, parent') &&
    (forall q :: 0 <= q < |nodes| && !Below(parent, k, q) ==> after[q] == nodes[q]) &&
    KeepsStored(nodes, parent, after, parent')
  }

  lemma StaysRefl(nodes: seq<Node>, parent: seq<int>, k: nat)
    ensures StaysWithin(nodes, parent, nodes, parent, k)
  {
  }

  lemma StaysTrans(n1: seq<Node>, p1: seq<int>, n2: seq<Node>, p2: seq<int>, n3: seq<Node>, p3: seq<int>, k: nat)
    requires |n1| <= |p1| && StaysWithin(n1, p1, n2, p2, k) && StaysWithin(n2, p2, n3, p3, k)
    ensures StaysWithin(n1, p1, n3, p3, k)
  {
    forall q | 0 <= q < |n1| && !Below(p1, k, q)
      ensures n3[q] == n1[q]
    {
      assert Below(p2, k, q) == Below(p1, k, q);
    }
  }

  /** A change inside the subtree of child `c` stays inside the subtree of its parent `k`. */
  lemma StaysWiden(n: seq<Node>, p: seq<int>, n': seq<Node>, p': seq<int>, k: nat, c: nat)
    requires c < |p| && p[c] == k && k < c && StaysWithin(n, p, n', p', c)
    ensures StaysWithin(n, p, n', p', k)
  {
    forall q | 0 <= q < |n| && !Below(p, k, q)
      ensures n'[q] == n[q]
    {
      if Below(p, c, q) {
        BelowParent(p, k, c, q);
      }
    }
  }

  /** Giving node `k` a list that keeps all its indices stays within `k`. */
  lemma StaysAppend(nodes: seq<Node>, parent: seq<int>, k: nat, ts: seq<nat>)
    requires k < |nodes| && forall x :: x in nodes[k].triangles ==> x in ts
    ensures StaysWithin(nodes, parent, WithTriangles(nodes, k, ts), parent, k)
  {
    var after := WithTriangles(nodes, k, ts);
    forall a, x | 0 <= a < |nodes| && StoredUnder(nodes, parent, a, x)
      ensures StoredUnder(after, parent, a, x)
    {
      var q :| 0 <= q < |nodes| && Below(parent, a, q) && x in nodes[q].triangles;
      assert x in after[q].triangles;
    }
  }

  /** Splitting leaf `k` stays within `k`. */
  lemma StaysSplit(nodes: seq<Node>, parent: seq<int>, k: nat)
    requires |parent| == |nodes| && k < |nodes|
    ensures StaysWithin(nodes, parent, SplitAt(nodes, k), parent + seq(8, _ => k), k)
  {
    var after, grown := SplitAt(nodes, k), parent + seq(8, _ => k);
    KeepsBelowAfterSplit(parent, k);
    forall a, x | 0 <= a < |nodes| && StoredUnder(nodes, parent, a, x)
      ensures StoredUnder(after, grown, a, x)
    {
      var q :| 0 <= q < |nodes| && Below(parent, a, q) && x in nodes[q].triangles;
      assert Below(grown, a, q);
      assert after[q].triangles == nodes[q].triangles;
    }
  }

  /** Every index on `ts` that a child of split node `k` accepts went to
      the first child accepting it. */
  ghost predicate HandedDown(vertices: seq<Vec3>, triangles: seq<Triangle>, nodes: seq<Node>, parent: seq<int>,
                             k: nat, ts: seq<nat>)
    requires MeshOk(vertices, triangles) && k < |nodes|
  {
    forall s :: 0 <= s < |ts| && ts[s] < |triangles| && ChildTakes(vertices, triangles, nodes, k, ts[s]) ==>
      SentIndex(vertices, triangles, nodes, parent, k, ts[s])
  }

  /** An index sent to a child stays with it while the arena grows with the
      same boxes and keeps what every subtree stores. */
  lemma SentIndexKept(vertices: seq<Vec3>, triangles: seq<Triangle>, a: seq<Node>, pa: seq<int>,
                      b: seq<Node>, pb: seq<int>, k: nat, x: nat)
    requires k < |a| && Grows(a, b, 0) && KeepsStored(a, pa, b, pb)
    requires SentIndex(vertices, triangles, a, pa, k, x)
    ensures SentIndex(vertices, triangles, b, pb, k, x)
  {
    var v1, v2, v3 := GetPos(vertices, triangles, x, 0), GetPos(vertices, triangles, x, 1),
                      GetPos(vertices, triangles, x, 2);
    var j :| FirstTaker(a, pa, k, j, x, v1, v2, v3, Centroid(v1, v2, v3));
    TakenByFirst(a, b, pb, k, j, x, v1, v2, v3, Centroid(v1, v2, v3));
  }

  lemma HandedDownKept(vertices: seq<Vec3>, triangles: seq<Triangle>, a: seq<Node>, pa: seq<int>,
                       b: seq<Node>, pb: seq<int>, k: nat, ts: seq<nat>)
    requires MeshOk(vertices, triangles) && k < |a| && a[k].children.Split? && a[k].children.first + 8 <= |a|
    requires Grows(a, b, 0) && KeepsStored(a, pa, b, pb) && HandedDown(vertices, triangles, a, pa, k, ts)
    ensures HandedDown(vertices, triangles, b, pb, k, ts)
  {
    forall s | 0 <= s < |ts| && ts[s] < |triangles| && ChildTakes(vertices, triangles, b, k, ts[s])
      ensures SentIndex(vertices, triangles, b, pb, k, ts[s])
    {
      var x := ts[s];
      var v1, v2, v3 := GetPos(vertices, triangles, x, 0), GetPos(vertices, triangles, x, 1),
                        GetPos(vertices, triangles, x, 2);
      NoneAcceptSameBoxes(a, b, a[k].children.first, 8, v1, v2, v3, Centroid(v1, v2, v3));
      SentIndexKept(vertices, triangles, a, pa, b, pb, k, x);
    }
  }

  lemma HandedDownStep(vertices: seq<Vec3>, triangles: seq<Triangle>, nodes: seq<Node>, parent: seq<int>,
                       k: nat, ts: seq<nat>, x: nat)
    requires MeshOk(vertices, triangles) && k < |nodes| && HandedDown(vertices, triangles, nodes, parent, k, ts)
    requires x < |triangles| && ChildTakes(vertices, triangles, nodes, k, x) ==>
               SentIndex(vertices, triangles, nodes, parent, k, x)
    ensures HandedDown(vertices, triangles, nodes, parent, k, ts + [x])
  {
    forall s | 0 <= s < |ts + [x]| && (ts + [x])[s] < |triangles| && ChildTakes(vertices, triangles, nodes, k, (ts + [x])[s])
      ensures SentIndex(vertices, triangles, nodes, parent, k, (ts + [x])[s])
    {
      if s < |ts| {
        assert (ts + [x])[s] == ts[s];
      }
    }
  }

  /** A split node's list replaced: what went to its children stays there. */
  lemma SentIndexAfterReplace(vertices: seq<Vec3>, triangles: seq<Triangle>, nodes: seq<Node>, parent: seq<int>,
                              k: nat, x: nat, kept: seq<nat>)
    requires Shape(nodes, parent) && k < |nodes| && SentIndex(vertices, triangles, nodes, parent, k, x)
    ensures SentIndex(vertices, triangles, WithTriangles(nodes, k, kept), parent, k, x)
  {
    var after := WithTriangles(nodes, k, kept);
    var v1, v2, v3 := GetPos(vertices, triangles, x, 0), GetPos(vertices, triangles, x, 1),
                      GetPos(vertices, triangles, x, 2);
    var center := Centroid(v1, v2, v3);
    var j :| FirstTaker(nodes, parent, k, j, x, v1, v2, v3, center);
    var c := nodes[k].children.first + j;
    var q :| 0 <= q < |nodes| && Below(parent, c, q) && x in nodes[q].triangles;
    assert after[q] == nodes[q];
    NoneAcceptSameBoxes(nodes, after, nodes[k].children.first, j, v1, v2, v3, center);
    assert FirstTaker(after, parent, k, j, x, v1, v2, v3, center);
  }

  lemma HandedDownAfterReplace(vertices: seq<Vec3>, triangles: seq<Triangle>, nodes: seq<Node>, parent: seq<int>,
                               k: nat, ts: seq<nat>, kept: seq<nat>)
    requires Inv(vertices, triangles, nodes, parent) && k < |nodes| && nodes[k].children.Split?
    requires HandedDown(vertices, triangles, nodes, parent, k, ts)
    ensures HandedDown(vertices, triangles, WithTriangles(nodes, k, kept), parent, k, ts)
  {
    var after := WithTriangles(nodes, k, kept);
    forall s | 0 <= s < |ts| && ts[s] < |triangles| && ChildTakes(vertices, triangles, after, k, ts[s])
      ensures SentIndex(vertices, triangles, after, parent, k, ts[s])
    {
      var x := ts[s];
      var v1, v2, v3 := GetPos(vertices, triangles, x, 0), GetPos(vertices, triangles, x, 1),
                        GetPos(vertices, triangles, x, 2);
      NoneAcceptSameBoxes(nodes, after, nodes[k].children.first, 8, v1, v2, v3, Centroid(v1, v2, v3));
      SentIndexAfterReplace(vertices, triangles, nodes, parent, k, x, kept);
    }
  }

  /** Node `k`'s list replaced by `kept`, where every index dropped went to
      a child: the change still stays within `k`. */
  lemma StaysAfterHandingDown(vertices: seq<Vec3>, triangles: seq<Triangle>, nodes: seq<Node>, parent: seq<int>,
                              current: seq<Node>, parent': seq<int>, k: nat, kept: seq<nat>)
    requires Inv(vertices, triangles, current, parent') && k < |nodes| && StaysWithin(nodes, parent, current, parent', k)
    requires forall s :: 0 <= s < |current[k].triangles| ==>
               current[k].triangles[s] in kept ||
               SentIndex(vertices, triangles, current, parent', k, current[k].triangles[s])
    ensures StaysWithin(nodes, parent, WithTriangles(current, k, kept), parent', k)
  {
    var after := WithTriangles(current, k, kept);
    forall a, x | 0 <= a < |nodes| && StoredUnder(nodes, parent, a, x)
      ensures StoredUnder(after, parent', a, x)
    {
      assert StoredUnder(current, parent', a, x);
      var q :| 0 <= q < |current| && Below(parent', a, q) && x in current[q].triangles;
      if q != k {
        assert after[q] == current[q];
      } else {
        var s :| 0 <= s < |current[k].triangles| && current[k].triangles[s] == x;
        if x !in kept {
          assert SentIndex(vertices, triangles, current, parent', k, x);
          var v1, v2, v3 := GetPos(vertices, triangles, x, 0), GetPos(vertices, triangles, x, 1),
                            GetPos(vertices, triangles, x, 2);
          SentIsStored(current, parent', k, x, v1, v2, v3, Centroid(v1, v2, v3));
          var q' :| k < q' < |current| && Below(parent', k, q') && x in current[q'].triangles;
          BelowTrans(parent', a, k, q');
          assert after[q'] == current[q'];
        }
      }
    }
  }

  /** An index of `ts` that no child takes is one of the indices `Unplaced` keeps. */
  lemma {:induction false} UnplacedHas(vertices: seq<Vec3>, triangles: seq<Triangle>, nodes: seq<Node>, k: nat,
                                       ts: seq<nat>, s: nat)
    requires MeshOk(vertices, triangles) && k < |nodes| && s < |ts|
    requires !(ts[s] < |triangles| && ChildTakes(vertices, triangles, nodes, k, ts[s]))
    ensures ts[s] in Unplaced(vertices, triangles, nodes, k, ts)
    decreases |ts|
  {
    if s < |ts| - 1 {
      UnplacedHas(vertices, triangles, nodes, k, ts[..|ts| - 1], s);
    }
  }

  /** Split node `k` keeps `residual` of its own list, and triangle `idx`
      went to the first child accepting it, or onto the end of the list
      when no child accepts it. */
  ghost predicate PlacedAt(nodes: seq<Node>, parent: seq<int>, k: nat, idx: nat,
                           v1: Vec3, v2: Vec3, v3: Vec3, center: Vec3, residual: seq<nat>) {
    k < |nodes| && nodes[k].children.Split? && nodes[k].children.first + 8 <= |nodes| &&
    if AnyChildAccepts(nodes, k, v1, v2, v3, center)
    then nodes[k].triangles == residual && SentToFirstChild(nodes, parent, k, idx, v1, v2, v3, center)
    else nodes[k].triangles == residual + [idx]
  }

  /** None of the `j` nodes from `first` on accepts the triangle with these
      corners and centroid. */
  predicate NoneAccept(nodes: seq<Node>, first: nat, j: nat, v1: Vec3, v2: Vec3, v3: Vec3, center: Vec3)
    requires first + j <= |nodes|
    decreases j
  {
    j == 0 || (NoneAccept(nodes, first, j - 1, v1, v2, v3, center) && !AcceptsPoints(nodes[first + j - 1], v1, v2, v3, center))
  }

  lemma {:induction false} NoneAcceptPrefix(nodes: seq<Node>, first: nat, i: nat, j: nat,
                                            v1: Vec3, v2: Vec3, v3: Vec3, center: Vec3)
    requires i <= j && first + j <= |nodes| && NoneAccept(nodes, first, j, v1, v2, v3, center)
    ensures NoneAccept(nodes, first, i, v1, v2, v3, center)
    decreases j
  {
    if i < j {
      NoneAcceptPrefix(nodes, first, i, j - 1, v1, v2, v3, center);
    }
  }

  /** One turn of the child loop: a refusing child extends the refused
      prefix, an accepting one makes the whole loop succeed. The child
      tested, `n`, may have gained triangles but has the same boxes. */
  lemma {:induction false} NoneAcceptStep(nodes: seq<Node>, first: nat, j: nat, v1: Vec3, v2: Vec3, v3: Vec3, center: Vec3,
                                          n: Node, ok: bool)
    requires first + 8 <= |nodes| && j < 8 && NoneAccept(nodes, first, j, v1, v2, v3, center)
    requires n.box == nodes[first + j].box && n.initialBox == nodes[first + j].initialBox
    requires ok == AcceptsPoints(n, v1, v2, v3, center)
    ensures !ok ==> NoneAccept(nodes, first, j + 1, v1, v2, v3, center)
    ensures ok ==> !NoneAccept(nodes, first, 8, v1, v2, v3, center)
  {
    if ok && NoneAccept(nodes, first, 8, v1, v2, v3, center) {
      NoneAcceptPrefix(nodes, first, j + 1, 8, v1, v2, v3, center);
    }
  }

  /** The refusal depends on the nodes' boxes alone. */
  lemma {:induction false} NoneAcceptSameBoxes(a: seq<Node>, b: seq<Node>, first: nat, j: nat,
                                               v1: Vec3, v2: Vec3, v3: Vec3, center: Vec3)
    requires first + j <= |a| && first + j <= |b|
    requires forall q :: first <= q < first + j ==> a[q].box == b[q].box && a[q].initialBox == b[q].initialBox
    ensures NoneAccept(a, first, j, v1, v2, v3, center) == NoneAccept(b, first, j, v1, v2, v3, center)
    decreases j
  {
    if j > 0 {
      NoneAcceptSameBoxes(a, b, first, j - 1, v1, v2, v3, center);
    }
  }

  /** Some child of split node `k` accepts the triangle with these corners and centroid. */
  predicate AnyChildAccepts(nodes: seq<Node>, k: nat, v1: Vec3, v2: Vec3, v3: Vec3, center: Vec3)
    requires k < |nodes|
  {
    nodes[k].children.Split? && nodes[k].children.first + 8 <= |nodes| &&
    !NoneAccept(nodes, nodes[k].children.first, Octants, v1, v2, v3, center)
  }

  /** The corners and centroid `getPos` yields for triangle `idx`. */
  predicate PointsOf(vertices: seq<Vec3>, triangles: seq<Triangle>, idx: nat, v1: Vec3, v2: Vec3, v3: Vec3, center: Vec3)
    requires MeshOk(vertices, triangles) && idx < |triangles|
  {
    v1 == GetPos(vertices, triangles, idx, 0) && v2 == GetPos(vertices, triangles, idx, 1) &&
    v3 == GetPos(vertices, triangles, idx, 2) && center == Centroid(v1, v2, v3)
  }

  /** A child of split node `k` accepts triangle `idx`. */
  predicate ChildTakes(vertices: seq<Vec3>, triangles: seq<Triangle>, nodes: seq<Node>, k: nat, idx: nat)
    requires MeshOk(vertices, triangles) && idx < |triangles| && k < |nodes|
  {
    var v1, v2, v3 := GetPos(vertices, triangles, idx, 0), GetPos(vertices, triangles, idx, 1),
                      GetPos(vertices, triangles, idx, 2);
    AnyChildAccepts(nodes, k, v1, v2, v3, Centroid(v1, v2, v3))
  }

  /** The indices of `ts` that no child of `k` accepts, in order. */
  ghost function Unplaced(vertices: seq<Vec3>, triangles: seq<Triangle>, nodes: seq<Node>, k: nat, ts: seq<nat>): seq<nat>
    requires MeshOk(vertices, triangles) && k < |nodes|
  {
    if ts == [] then []
    else
      var last := ts[|ts| - 1];
      Unplaced(vertices, triangles, nodes, k, ts[..|ts| - 1]) +
      (if last < |triangles| && ChildTakes(vertices, triangles, nodes, k, last) then [] else [last])
  }

  lemma UnplacedStep(vertices: seq<Vec3>, triangles: seq<Triangle>, nodes: seq<Node>, k: nat, ts: seq<nat>, i: nat)
    requires MeshOk(vertices, triangles) && k < |nodes| && i < |ts|
    ensures Unplaced(vertices, triangles, nodes, k, ts[..i + 1]) ==
            Unplaced(vertices, triangles, nodes, k, ts[..i]) +
            (if ts[i] < |triangles| && ChildTakes(vertices, triangles, nodes, k, ts[i]) then [] else [ts[i]])
  {
    assert ts[..i + 1][..i] == ts[..i];
  }

  /** Which indices stay depends on the boxes of the node's children alone. */
  lemma {:induction false} UnplacedSameBoxes(vertices: seq<Vec3>, triangles: seq<Triangle>, a: seq<Node>, b: seq<Node>,
                                             k: nat, ts: seq<nat>)
    requires MeshOk(vertices, triangles) && k < |a| && k < |b| && a[k].children == b[k].children
    requires a[k].children.Split? ==>
               a[k].children.first + 8 <= |a| && a[k].children.first + 8 <= |b| &&
               forall q :: a[k].children.first <= q < a[k].children.first + 8 ==>
                 a[q].box == b[q].box && a[q].initialBox == b[q].initialBox
    ensures Unplaced(vertices, triangles, a, k, ts) == Unplaced(vertices, triangles, b, k, ts)
    decreases |ts|
  {
    if ts != [] {
      UnplacedSameBoxes(vertices, triangles, a, b, k, ts[..|ts| - 1]);
      var last := ts[|ts| - 1];
      if last < |triangles| && a[k].children.Split? {
        var v1, v2, v3 := GetPos(vertices, triangles, last, 0), GetPos(vertices, triangles, last, 1),
                          GetPos(vertices, triangles, last, 2);
        NoneAcceptSameBoxes(a, b, a[k].children.first, 8, v1, v2, v3, Centroid(v1, v2, v3));
      }
    }
  }

  /** The indices below `n` that a node with these boxes accepts, in order. */
  ghost function AcceptedBy(vertices: seq<Vec3>, triangles: seq<Triangle>, node: Node, n: nat): seq<nat>
    requires MeshOk(vertices, triangles) && n <= |triangles|
  {
    if n == 0 then []
    else AcceptedBy(vertices, triangles, node, n - 1) + (if Accepts(vertices, triangles, node, n - 1) then [n - 1] else [])
  }

  /** The mesh box holds all three vertices of every triangle. */
  predicate Encloses(b: Box, vertices: seq<Vec3>, triangles: seq<Triangle>)
    requires MeshOk(vertices, triangles)
  {
    forall i :: 0 <= i < |triangles| ==>
      b.Contains(vertices[triangles[i].i0]) && b.Contains(vertices[triangles[i].i1]) && b.Contains(vertices[triangles[i].i2])
  }

  function Range(n: nat): (r: seq<nat>)
    ensures |r| == n && forall i :: 0 <= i < n ==> r[i] == i
  {
    seq(n, i requires 0 <= i => i)
  }

  /** The padded root accepts every triangle of a mesh its box encloses, so
      no insertion from `initialize` fails. */
  lemma {:induction false} EnclosedMeshIsAccepted(vertices: seq<Vec3>, triangles: seq<Triangle>, b: Box, n: nat)
    requires MeshOk(vertices, triangles) && Encloses(b, vertices, triangles) && n <= |triangles|
    ensures AcceptedBy(vertices, triangles, Node([], PaddedBox(b), PaddedBox(b), Leaf), n) == Range(n)
  {
    if n > 0 {
      EnclosedMeshIsAccepted(vertices, triangles, b, n - 1);
      var v1, v2, v3 := GetPos(vertices, triangles, n - 1, 0), GetPos(vertices, triangles, n - 1, 1),
                        GetPos(vertices, triangles, n - 1, 2);
      var pb := PaddedBox(b);
      assert pb.Contains(v1) && pb.Contains(v2) && pb.Contains(v3);
      ContainsCentroid(pb, v1, v2, v3);
      assert Range(n - 1) + [n - 1] == Range(n);
    }
  }

  /** Every node box below a non-degenerate root has extent on every axis,
      and a ray with no zero direction component passes the slab test's
      precondition for all of them. */
  lemma {:induction false} NonDegenerateBelowRoot(nodes: seq<Node>, parent: seq<int>, q: nat)
    requires Shape(nodes, parent) && q < |nodes|
    requires nodes[0].box.NonDegenerate() && nodes[0].initialBox.NonDegenerate()
    ensures nodes[q].box.NonDegenerate() && nodes[q].initialBox.NonDegenerate()
    decreases q
  {
    if q > 0 {
      var p := parent[q];
      NonDegenerateBelowRoot(nodes, parent, p);
      var j := q - nodes[p].children.first;
      assert IsOctant(nodes, parent, p, j);
      ChildBoxesNonDegenerate(nodes[p].initialBox, j);
    }
  }

  /** Both boxes of every node can be tested against the ray. */
  ghost predicate TraversableBy(nodes: seq<Node>, ray: Ray) {
    forall q :: 0 <= q < |nodes| ==>
      RayOk(nodes[q].box, ray) && nodes[q].box.NonDegenerate() &&
      RayOk(nodes[q].initialBox, ray) && nodes[q].initialBox.NonDegenerate()
  }

  lemma {:induction false} TraversableFromRoot(nodes: seq<Node>, parent: seq<int>, ray: Ray)
    requires Shape(nodes, parent) && |nodes| > 0 && NonZeroDirection(ray)
    requires nodes[0].box.NonDegenerate() && nodes[0].initialBox.NonDegenerate()
    ensures TraversableBy(nodes, ray)
  {
    forall q | 0 <= q < |nodes|
      ensures RayOk(nodes[q].box, ray) && nodes[q].box.NonDegenerate() &&
              RayOk(nodes[q].initialBox, ray) && nodes[q].initialBox.NonDegenerate()
    {
      NonDegenerateBelowRoot(nodes, parent, q);
    }
  }

  /** An entry of the child list `boxIntersections`: the octant (or -1 for a
      missed one) and its entry distance. */
  datatype Octant = Octant(index: int, t: Dist)

  predicate OctantsSorted(s: seq<Octant>) {
    forall p, q :: 0 <= p < q < |s| ==> s[p].t.LessEq(s[q].t)
  }

  /** `std::sort` of the entries by distance, as an insertion sort. */
  method SortOctants(a: array<Octant>)
    modifies a
    ensures OctantsSorted(a[..])
    ensures multiset(a[..]) == multiset(old(a[..]))
  {
    for i := 0 to a.Length
      invariant forall p, q :: 0 <= p < q < i ==> a[p].t.LessEq(a[q].t)
      invariant multiset(a[..]) == multiset(old(a[..]))
    {
      var j := i;
      while j > 0 && a[j].t.Less(a[j - 1].t)
        invariant 0 <= j <= i
        invariant forall p, q :: 0 <= p < q <= i && q != j ==> a[p].t.LessEq(a[q].t)
        invariant multiset(a[..]) == multiset(old(a[..]))
      {
        a[j], a[j - 1] := a[j - 1], a[j];
        j := j - 1;
      }
    }
  }

  /** No triangle among the first `n` of the list commits against `bound`. */
  ghost predicate NoneCommit(vertices: seq<Vec3>, triangles: seq<Triangle>, ts: seq<nat>, n: nat, ray: Ray, bound: Dist) {
    MeshOk(vertices, triangles) && n <= |ts| && (forall s :: 0 <= s < |ts| ==> ts[s] < |triangles|) &&
    forall s :: 0 <= s < n ==> !triangles[ts[s]].Commits(vertices, ray, bound)
  }

  /** Lowering the bound keeps every triangle from committing. */
  lemma {:induction false} NoneCommitBelow(vertices: seq<Vec3>, triangles: seq<Triangle>, ts: seq<nat>, n: nat,
                                           ray: Ray, a: Dist, b: Dist)
    requires NoneCommit(vertices, triangles, ts, n, ray, b) && a.LessEq(b)
    ensures NoneCommit(vertices, triangles, ts, n, ray, a)
  {
    forall s | 0 <= s < n
      ensures !triangles[ts[s]].Commits(vertices, ray, a)
    {
      if triangles[ts[s]].Commits(vertices, ray, a) {
        Triangles.CommitsMonotone(triangles[ts[s]], vertices, ray, a, b);
      }
    }
  }


  /** The tree invariant: a valid mesh, a well-shaped arena, and every
      stored index accepted by the node holding it. */
  ghost predicate Inv(vertices: seq<Vec3>, triangles: seq<Triangle>, nodes: seq<Node>, parent: seq<int>) {
    MeshOk(vertices, triangles) && Shape(nodes, parent) && Stored(vertices, triangles, nodes)
  }

  /** Node `k` with its list of triangle indices replaced. */
  function WithTriangles(nodes: seq<Node>, k: nat, ts: seq<nat>): seq<Node>
    requires k < |nodes|
  {
    nodes[k := nodes[k].(triangles := ts)]
  }

  lemma {:induction false} WithTrianglesKeeps(vertices: seq<Vec3>, triangles: seq<Triangle>, nodes: seq<Node>,
                                              parent: seq<int>, k: nat, ts: seq<nat>)
    requires Inv(vertices, triangles, nodes, parent) && k < |nodes|
    requires forall i :: 0 <= i < |ts| ==> ts[i] < |triangles| && Accepts(vertices, triangles, nodes[k], ts[i])
    ensures Inv(vertices, triangles, WithTriangles(nodes, k, ts), parent)
    ensures AllTriangles(WithTriangles(nodes, k, ts)) + multiset(nodes[k].triangles) == AllTriangles(nodes) + multiset(ts)
    ensures Grows(nodes, WithTriangles(nodes, k, ts), k)
  {
    AllTrianglesUpdate(nodes, k, nodes[k].(triangles := ts));
    ShapeIgnoresTriangles(nodes, parent, k, ts);
    var after := WithTriangles(nodes, k, ts);
    forall q | 0 <= q < |after|
      ensures NodeStored(vertices, triangles, after[q])
    {
      if q != k {
        assert after[q] == nodes[q];
      }
    }
  }

  lemma PrefixStep(s: seq<nat>, i: nat)
    requires i < |s|
    ensures s[..i + 1] == s[..i] + [s[i]]
  {
  }

  lemma MultisetCancel(a: multiset<nat>, b: multiset<nat>, c: multiset<nat>)
    requires a + c == b + c
    ensures a == b
  {
    forall x
      ensures a[x] == b[x]
    {
      assert (a + c)[x] == (b + c)[x];
    }
  }

  /** One step of the redistribution: the index moves into the tree or onto the kept list. */
  lemma MultisetStep(a: multiset<nat>, a': multiset<nat>, n: multiset<nat>, n': multiset<nat>,
                     base: multiset<nat>, prefix: multiset<nat>, x: nat, placed: bool)
    requires a + n == base + prefix
    requires a' == a + (if placed then multiset{x} else multiset{})
    requires n' == n + (if placed then multiset{} else multiset{x})
    ensures a' + n' == base + (prefix + multiset{x})
  {
    forall y
      ensures (a' + n')[y] == (base + (prefix + multiset{x}))[y]
    {
      assert (a + n)[y] == (base + prefix)[y];
    }
  }

  /** Appending an index the node accepts adds exactly that index. */
  lemma {:induction false} AppendKeeps(vertices: seq<Vec3>, triangles: seq<Triangle>, nodes: seq<Node>,
                                       parent: seq<int>, k: nat, idx: nat, v1: Vec3, v2: Vec3, v3: Vec3, center: Vec3)
    requires Inv(vertices, triangles, nodes, parent) && k < |nodes| && idx < |triangles|
    requires PointsOf(vertices, triangles, idx, v1, v2, v3, center) && AcceptsPoints(nodes[k], v1, v2, v3, center)
    ensures Inv(vertices, triangles, WithTriangles(nodes, k, nodes[k].triangles + [idx]), parent)
    ensures AllTriangles(WithTriangles(nodes, k, nodes[k].triangles + [idx])) == AllTriangles(nodes) + multiset{idx}
    ensures Grows(nodes, WithTriangles(nodes, k, nodes[k].triangles + [idx]), k)
  {
    var ts := nodes[k].triangles + [idx];
    assert NodeStored(vertices, triangles, nodes[k]);
    forall i | 0 <= i < |ts|
      ensures ts[i] < |triangles| && Accepts(vertices, triangles, nodes[k], ts[i])
    {
      if i < |nodes[k].triangles| {
        assert ts[i] == nodes[k].triangles[i];
      }
    }
    WithTrianglesKeeps(vertices, triangles, nodes, parent, k, ts);
    assert multiset(ts) == multiset(nodes[k].triangles) + multiset{idx};
    MultisetCancel(AllTriangles(WithTriangles(nodes, k, ts)), AllTriangles(nodes) + multiset{idx}, multiset(nodes[k].triangles));
  }

  /** Leaf `k` split: it points at eight empty octants appended to the arena. */
  function SplitAt(nodes: seq<Node>, k: nat): seq<Node>
    requires k < |nodes|
  {
    nodes[k := nodes[k].(children := Split(|nodes|))] + SplitChildren(nodes[k].initialBox)
  }

  lemma {:induction false} SplitAtKeeps(vertices: seq<Vec3>, triangles: seq<Triangle>, nodes: seq<Node>,
                                        parent: seq<int>, k: nat)
    requires Inv(vertices, triangles, nodes, parent) && k < |nodes| && nodes[k].children.Leaf?
    ensures Inv(vertices, triangles, SplitAt(nodes, k), parent + seq(8, _ => k))
    ensures AllTriangles(SplitAt(nodes, k)) == AllTriangles(nodes)
    ensures Grows(nodes, SplitAt(nodes, k), k)
    ensures SplitAt(nodes, k)[k].triangles == nodes[k].triangles
  {
    var updated := nodes[k := nodes[k].(children := Split(|nodes|))];
    var kids := SplitChildren(nodes[k].initialBox);
    ShapeAfterSplit(nodes, parent, k);
    AllTrianglesSameLists(nodes, updated);
    AllTrianglesAppend(updated, kids);
    AllTrianglesOfEmpty(kids);
    StoredAfterSplit(vertices, triangles, nodes, k);
  }

  /** The split node keeps its list and boxes, and its new children hold nothing. */
  lemma StoredAfterSplit(vertices: seq<Vec3>, triangles: seq<Triangle>, nodes: seq<Node>, k: nat)
    requires MeshOk(vertices, triangles) && Stored(vertices, triangles, nodes) && k < |nodes|
    ensures Stored(vertices, triangles, SplitAt(nodes, k))
  {
    var after := SplitAt(nodes, k);
    forall q | 0 <= q < |after|
      ensures NodeStored(vertices, triangles, after[q])
    {
      if q < |nodes| {
        assert NodeStored(vertices, triangles, nodes[q]);
      }
    }
  }

  /** Where an accepted triangle goes: onto the end of a leaf with room (or
      of a leaf at the depth bound); otherwise into the first accepting
      child, after a full leaf has been split and has handed down its
      triangles, or onto the node's list when no child accepts it. */
  ghost predicate Inserted(vertices: seq<Vec3>, triangles: seq<Triangle>, nodes: seq<Node>, parent: seq<int>,
                           after: seq<Node>, parent': seq<int>, k: nat, idx: nat,
                           v1: Vec3, v2: Vec3, v3: Vec3, center: Vec3, fuel: nat)
    requires MeshOk(vertices, triangles) && k < |nodes| && |nodes| <= |after|
  {
    if nodes[k].children.Leaf? && (|nodes[k].triangles| < PreferredTriangleCount || fuel == 0) then
      after == WithTriangles(nodes, k, nodes[k].triangles + [idx]) && parent' == parent
    else if nodes[k].children.Leaf? then
      PlacedAt(after, parent', k, idx, v1, v2, v3, center, Unplaced(vertices, triangles, after, k, nodes[k].triangles)) &&
      HandedDown(vertices, triangles, after, parent', k, nodes[k].triangles)
    else
      PlacedAt(after, parent', k, idx, v1, v2, v3, center, nodes[k].triangles)
  }

  /** `addTriangle` on node `k` of the arena: refuses a triangle the node
      does not accept; otherwise stores it in a leaf with room, splits a full
      leaf and hands its triangles down, and passes the triangle to the first
      accepting child, keeping it at `k` when none does. `v1`..`v3` and
      `center` are the corners and centroid the caller computed; `fuel` is
      what is left of the depth bound at `k`. */
  method AddTriangle(vertices: seq<Vec3>, triangles: seq<Triangle>, nodes: seq<Node>, ghost parent: seq<int>,
                     k: nat, idx: nat, v1: Vec3, v2: Vec3, v3: Vec3, center: Vec3, fuel: nat)
    returns (ok: bool, after: seq<Node>, ghost parent': seq<int>)
    requires Inv(vertices, triangles, nodes, parent) && k < |nodes| && idx < |triangles|
    requires Shallow(nodes, parent) && Depth(parent, k) + fuel == MaxDepth
    requires PointsOf(vertices, triangles, idx, v1, v2, v3, center)
    decreases fuel, 6
    ensures Inv(vertices, triangles, after, parent') && Shallow(after, parent') && KeepsDepths(parent, parent')
    ensures ok == AcceptsPoints(nodes[k], v1, v2, v3, center)
    ensures AllTriangles(after) == AllTriangles(nodes) + (if ok then multiset{idx} else multiset{})
    ensures Grows(nodes, after, k) && StaysWithin(nodes, parent, after, parent', k)
    ensures !ok ==> after == nodes && parent' == parent
    ensures ok ==> StoredUnder(after, parent', k, idx) &&
                   Inserted(vertices, triangles, nodes, parent, after, parent', k, idx, v1, v2, v3, center, fuel)
  {
    after, parent' := nodes, parent;
    if !nodes[k].initialBox.Contains(center) ||
       !nodes[k].box.Contains(v1) || !nodes[k].box.Contains(v2) || !nodes[k].box.Contains(v3)
    {
      StaysRefl(nodes, parent, k);
      return false, after, parent';
    }
    ok := true;
    if nodes[k].children.Leaf? && (|nodes[k].triangles| < PreferredTriangleCount || fuel == 0) {
      AppendKeeps(vertices, triangles, nodes, parent, k, idx, v1, v2, v3, center);
      StaysAppend(nodes, parent, k, nodes[k].triangles + [idx]);
      after := WithTriangles(nodes, k, nodes[k].triangles + [idx]);
      StoredHere(after, parent', k, idx);
      return;
    }
    after, parent' := AddBelow(vertices, triangles, nodes, parent, k, idx, v1, v2, v3, center, fuel);
  }

  /** `addTriangle` past the containment test on a node that does not simply
      keep the triangle: a full leaf splits first, then the triangle goes down. */
  method AddBelow(vertices: seq<Vec3>, triangles: seq<Triangle>, nodes: seq<Node>, ghost parent: seq<int>,
                  k: nat, idx: nat, v1: Vec3, v2: Vec3, v3: Vec3, center: Vec3, fuel: nat)
    returns (after: seq<Node>, ghost parent': seq<int>)
    requires Inv(vertices, triangles, nodes, parent) && k < |nodes| && idx < |triangles|
    requires Shallow(nodes, parent) && Depth(parent, k) + fuel == MaxDepth
    requires PointsOf(vertices, triangles, idx, v1, v2, v3, center)
    requires AcceptsPoints(nodes[k], v1, v2, v3, center)
    requires nodes[k].children.Leaf? ==> |nodes[k].triangles| >= PreferredTriangleCount && fuel > 0
    decreases fuel, 5
    ensures Inv(vertices, triangles, after, parent') && Shallow(after, parent') && KeepsDepths(parent, parent')
    ensures AllTriangles(after) == AllTriangles(nodes) + multiset{idx}
    ensures Grows(nodes, after, k) && StaysWithin(nodes, parent, after, parent', k)
    ensures StoredUnder(after, parent', k, idx)
    ensures Inserted(vertices, triangles, nodes, parent, after, parent', k, idx, v1, v2, v3, center, fuel)
  {
    var split := nodes;
    ghost var splitParent := parent;
    if nodes[k].children.Leaf? {
      split, splitParent := SplitLeaf(vertices, triangles, nodes, parent, k, fuel);
    } else {
      assert Depth(parent, k) < MaxDepth;
      StaysRefl(nodes, parent, k);
    }
    after, parent' := PassDown(vertices, triangles, split, splitParent, k, idx, v1, v2, v3, center, fuel);
    GrowsTrans(nodes, split, after, k, k, k);
    KeepsDepthsTrans(parent, splitParent, parent');
    StaysTrans(nodes, parent, split, splitParent, after, parent', k);
    if nodes[k].children.Leaf? {
      UnplacedSameBoxes(vertices, triangles, split, after, k, nodes[k].triangles);
      GrowsWeaken(split, after, k, 0);
      HandedDownKept(vertices, triangles, split, splitParent, after, parent', k, nodes[k].triangles);
    }
  }

  /** The middle of `addTriangle` on a full leaf: the node gets its eight
      children and hands its triangles down, keeping those no child takes. */
  method SplitLeaf(vertices: seq<Vec3>, triangles: seq<Triangle>, nodes: seq<Node>, ghost parent: seq<int>,
                   k: nat, fuel: nat)
    returns (after: seq<Node>, ghost parent': seq<int>)
    requires Inv(vertices, triangles, nodes, parent) && k < |nodes| && nodes[k].children.Leaf? && fuel > 0
    requires Shallow(nodes, parent) && Depth(parent, k) + fuel == MaxDepth
    decreases fuel, 4
    ensures Inv(vertices, triangles, after, parent') && Shallow(after, parent') && KeepsDepths(parent, parent')
    ensures AllTriangles(after) == AllTriangles(nodes)
    ensures Grows(nodes, after, k) && k < |after| && after[k].children.Split?
    ensures after[k].triangles == Unplaced(vertices, triangles, after, k, nodes[k].triangles)
    ensures StaysWithin(nodes, parent, after, parent', k)
    ensures HandedDown(vertices, triangles, after, parent', k, nodes[k].triangles)
  {
    ghost var grown := parent + seq(8, _ => k);
    SplitAtKeeps(vertices, triangles, nodes, parent, k);
    ShallowAfterSplit(nodes, parent, k);
    StaysSplit(nodes, parent, k);
    after, parent' := Redistribute(vertices, triangles, SplitAt(nodes, k), grown, k, fuel);
    GrowsTrans(nodes, SplitAt(nodes, k), after, k, k, k);
    KeepsDepthsTrans(parent, grown, parent');
    StaysTrans(nodes, parent, SplitAt(nodes, k), grown, after, parent', k);
    UnplacedSameBoxes(vertices, triangles, SplitAt(nodes, k), after, k, nodes[k].triangles);
  }

  /** The end of `addTriangle` on a split node: the triangle goes to the
      first child accepting it, and onto the node's own list when none does. */
  method PassDown(vertices: seq<Vec3>, triangles: seq<Triangle>, nodes: seq<Node>, ghost parent: seq<int>,
                  k: nat, idx: nat, v1: Vec3, v2: Vec3, v3: Vec3, center: Vec3, fuel: nat)
    returns (after: seq<Node>, ghost parent': seq<int>)
    requires Inv(vertices, triangles, nodes, parent) && k < |nodes| && idx < |triangles| && nodes[k].children.Split?
    requires Shallow(nodes, parent) && Depth(parent, k) + fuel == MaxDepth
    requires PointsOf(vertices, triangles, idx, v1, v2, v3, center) && AcceptsPoints(nodes[k], v1, v2, v3, center)
    decreases fuel, 2
    ensures Inv(vertices, triangles, after, parent') && Shallow(after, parent') && KeepsDepths(parent, parent')
    ensures AllTriangles(after) == AllTriangles(nodes) + multiset{idx}
    ensures Grows(nodes, after, k)
    ensures StoredUnder(after, parent', k, idx) && StaysWithin(nodes, parent, after, parent', k)
    ensures PlacedAt(after, parent', k, idx, v1, v2, v3, center, nodes[k].triangles)
  {
    assert Depth(parent, k) < MaxDepth;
    var placed;
    placed, after, parent' := TryChildren(vertices, triangles, nodes, parent, k, idx, v1, v2, v3, center, fuel);
    GrowsWeaken(nodes, after, k + 1, k);
    if placed {
      SentIsStored(after, parent', k, idx, v1, v2, v3, center);
    } else {
      KeptAtNode(vertices, triangles, nodes, parent, k, idx, v1, v2, v3, center);
      after := WithTriangles(nodes, k, nodes[k].triangles + [idx]);
    }
  }

  /** No child of split node `k` accepts the triangle, so the node appends it. */
  lemma KeptAtNode(vertices: seq<Vec3>, triangles: seq<Triangle>, nodes: seq<Node>, parent: seq<int>,
                   k: nat, idx: nat, v1: Vec3, v2: Vec3, v3: Vec3, center: Vec3)
    requires Inv(vertices, triangles, nodes, parent) && Shallow(nodes, parent)
    requires k < |nodes| && idx < |triangles| && nodes[k].children.Split?
    requires PointsOf(vertices, triangles, idx, v1, v2, v3, center) && AcceptsPoints(nodes[k], v1, v2, v3, center)
    requires !AnyChildAccepts(nodes, k, v1, v2, v3, center)
    ensures var after := WithTriangles(nodes, k, nodes[k].triangles + [idx]);
            Inv(vertices, triangles, after, parent) && Shallow(after, parent) &&
            AllTriangles(after) == AllTriangles(nodes) + multiset{idx} && Grows(nodes, after, k) &&
            StoredUnder(after, parent, k, idx) && PlacedAt(after, parent, k, idx, v1, v2, v3, center, nodes[k].triangles) &&
            StaysWithin(nodes, parent, after, parent, k)
  {
    var after := WithTriangles(nodes, k, nodes[k].triangles + [idx]);
    AppendKeeps(vertices, triangles, nodes, parent, k, idx, v1, v2, v3, center);
    StaysAppend(nodes, parent, k, nodes[k].triangles + [idx]);
    ShallowWithTriangles(nodes, parent, k, nodes[k].triangles + [idx]);
    StoredHere(after, parent, k, idx);
    assert nodes[k].children.first + 8 <= |nodes|;
    KeptPlaced(nodes, parent, k, idx, v1, v2, v3, center);
  }

  lemma KeptPlaced(nodes: seq<Node>, parent: seq<int>, k: nat, idx: nat, v1: Vec3, v2: Vec3, v3: Vec3, center: Vec3)
    requires k < |nodes| && nodes[k].children.Split? && nodes[k].children.first + 8 <= |nodes|
    requires !AnyChildAccepts(nodes, k, v1, v2, v3, center)
    ensures PlacedAt(WithTriangles(nodes, k, nodes[k].triangles + [idx]), parent, k, idx, v1, v2, v3, center,
                     nodes[k].triangles)
  {
    var after := WithTriangles(nodes, k, nodes[k].triangles + [idx]);
    NoneAcceptSameBoxes(nodes, after, nodes[k].children.first, 8, v1, v2, v3, center);
  }

  /** The redistribution loop of a fresh split: each of node `k`'s indices
      goes to the first child that accepts it, and the node keeps exactly
      those no child accepts. */
  method Redistribute(vertices: seq<Vec3>, triangles: seq<Triangle>, nodes: seq<Node>, ghost parent: seq<int>,
                      k: nat, fuel: nat)
    returns (after: seq<Node>, ghost parent': seq<int>)
    requires Inv(vertices, triangles, nodes, parent) && k < |nodes| && nodes[k].children.Split? && fuel > 0
    requires Shallow(nodes, parent) && Depth(parent, k) + fuel == MaxDepth
    decreases fuel, 3
    ensures Inv(vertices, triangles, after, parent') && Shallow(after, parent') && KeepsDepths(parent, parent')
    ensures AllTriangles(after) == AllTriangles(nodes)
    ensures Grows(nodes, after, k)
    ensures after[k].triangles == Unplaced(vertices, triangles, nodes, k, nodes[k].triangles)
    ensures StaysWithin(nodes, parent, after, parent', k)
    ensures HandedDown(vertices, triangles, after, parent', k, nodes[k].triangles)
  {
    var newTriangles: seq<nat> := [];
    after, parent' := nodes, parent;
    StaysRefl(nodes, parent, k);
    for i := 0 to |nodes[k].triangles|
      invariant Redistributing(vertices, triangles, nodes, parent, after, parent', k, i, newTriangles)
    {
      after, parent', newTriangles := PlaceOrKeep(vertices, triangles, nodes, parent, after, parent', k, i, newTriangles, fuel);
    }
    KeepUnplaced(vertices, triangles, nodes, parent, after, parent', k, newTriangles);
    HandOverDone(vertices, triangles, nodes, parent, after, parent', k, newTriangles);
    after := WithTriangles(after, k, newTriangles);
  }

  /** The state after `i` turns of the redistribution loop over node `k`'s
      original indices, with `kept` the ones no child took. */
  ghost predicate Redistributing(vertices: seq<Vec3>, triangles: seq<Triangle>, nodes: seq<Node>, parent: seq<int>,
                                 current: seq<Node>, parent': seq<int>, k: nat, i: nat, kept: seq<nat>)
  {
    Accounted(vertices, triangles, nodes, parent, current, parent', k, i, kept) &&
    StaysWithin(nodes, parent, current, parent', k) &&
    HandedDown(vertices, triangles, current, parent', k, nodes[k].triangles[..i])
  }

  /** The tree-and-list accounting of `Redistributing`: the tree plus the
      kept list hold the original tree plus the first `i` indices. */
  ghost predicate Accounted(vertices: seq<Vec3>, triangles: seq<Triangle>, nodes: seq<Node>, parent: seq<int>,
                            current: seq<Node>, parent': seq<int>, k: nat, i: nat, kept: seq<nat>)
  {
    Inv(vertices, triangles, nodes, parent) && Inv(vertices, triangles, current, parent') &&
    Shallow(current, parent') && KeepsDepths(parent, parent') &&
    k < |nodes| && nodes[k].children.Split? && i <= |nodes[k].triangles| &&
    Grows(nodes, current, k + 1) &&
    AllTriangles(current) + multiset(kept) == AllTriangles(nodes) + multiset(nodes[k].triangles[..i]) &&
    kept == Unplaced(vertices, triangles, nodes, k, nodes[k].triangles[..i]) &&
    (forall j :: 0 <= j < |kept| ==> kept[j] in nodes[k].triangles)
  }

  /** Closing the redistribution: every original index that a child takes
      went to the first accepting child, and the change stays within `k`. */
  lemma HandOverDone(vertices: seq<Vec3>, triangles: seq<Triangle>, nodes: seq<Node>, parent: seq<int>,
                     after: seq<Node>, parent': seq<int>, k: nat, kept: seq<nat>)
    requires k < |nodes| && Redistributing(vertices, triangles, nodes, parent, after, parent', k, |nodes[k].triangles|, kept)
    ensures StaysWithin(nodes, parent, WithTriangles(after, k, kept), parent', k)
    ensures HandedDown(vertices, triangles, WithTriangles(after, k, kept), parent', k, nodes[k].triangles)
  {
    var ts := nodes[k].triangles;
    assert ts[..|ts|] == ts;
    assert after[k] == nodes[k];
    HandedDownAfterReplace(vertices, triangles, after, parent', k, ts, kept);
    forall s | 0 <= s < |ts|
      ensures ts[s] in kept || SentIndex(vertices, triangles, after, parent', k, ts[s])
    {
      var x := ts[s];
      if x < |triangles| {
        var v1, v2, v3 := GetPos(vertices, triangles, x, 0), GetPos(vertices, triangles, x, 1),
                          GetPos(vertices, triangles, x, 2);
        NoneAcceptSameBoxes(nodes, after, nodes[k].children.first, 8, v1, v2, v3, Centroid(v1, v2, v3));
      }
      if !(x < |triangles| && ChildTakes(vertices, triangles, nodes, k, x)) {
        UnplacedHas(vertices, triangles, nodes, k, ts, s);
      }
    }
    StaysAfterHandingDown(vertices, triangles, nodes, parent, after, parent', k, kept);
  }

  /** Closing the redistribution: the node's list becomes the kept indices,
      and the tree holds what it held before the loop. */
  lemma {:induction false} KeepUnplaced(vertices: seq<Vec3>, triangles: seq<Triangle>, nodes: seq<Node>, parent: seq<int>,
                                        after: seq<Node>, parent': seq<int>, k: nat, kept: seq<nat>)
    requires k < |nodes| && Redistributing(vertices, triangles, nodes, parent, after, parent', k, |nodes[k].triangles|, kept)
    ensures Inv(vertices, triangles, WithTriangles(after, k, kept), parent')
    ensures Shallow(WithTriangles(after, k, kept), parent')
    ensures AllTriangles(WithTriangles(after, k, kept)) == AllTriangles(nodes)
    ensures Grows(nodes, WithTriangles(after, k, kept), k)
    ensures WithTriangles(after, k, kept)[k].triangles == Unplaced(vertices, triangles, nodes, k, nodes[k].triangles)
  {
    assert nodes[k].triangles[..|nodes[k].triangles|] == nodes[k].triangles;
    assert after[k] == nodes[k];
    assert NodeStored(vertices, triangles, nodes[k]);
    WithTrianglesKeeps(vertices, triangles, after, parent', k, kept);
    var last := WithTriangles(after, k, kept);
    GrowsTrans(nodes, after, last, k + 1, k, k);
    MultisetCancel(AllTriangles(last), AllTriangles(nodes), multiset(nodes[k].triangles));
  }

  /** One turn of the redistribution loop: index `i` of the node's original
      list goes to the first child accepting it, or onto the kept list. */
  method PlaceOrKeep(vertices: seq<Vec3>, triangles: seq<Triangle>, nodes: seq<Node>, ghost parent: seq<int>,
                     current: seq<Node>, ghost parent': seq<int>, k: nat, i: nat, kept: seq<nat>, fuel: nat)
    returns (after: seq<Node>, ghost parent'': seq<int>, kept': seq<nat>)
    requires Redistributing(vertices, triangles, nodes, parent, current, parent', k, i, kept)
    requires i < |nodes[k].triangles| && fuel > 0 && Depth(parent, k) + fuel == MaxDepth
    decreases fuel, 2
    ensures Redistributing(vertices, triangles, nodes, parent, after, parent'', k, i + 1, kept')
    ensures var index := nodes[k].triangles[i];
            if index < |triangles| && ChildTakes(vertices, triangles, nodes, k, index)
            then kept' == kept && SentIndex(vertices, triangles, after, parent'', k, index)
            else kept' == kept + [index] && after == current && parent'' == parent'
  {
    assert NodeStored(vertices, triangles, nodes[k]);
    var index := nodes[k].triangles[i];
    var p1, p2, p3 := GetPos(vertices, triangles, index, 0), GetPos(vertices, triangles, index, 1),
                      GetPos(vertices, triangles, index, 2);
    var p := Centroid(p1, p2, p3);
    assert current[k] == nodes[k];
    var placed;
    placed, after, parent'' := TryChildren(vertices, triangles, current, parent', k, index, p1, p2, p3, p, fuel);
    kept' := if placed then kept else kept + [index];
    TurnDone(vertices, triangles, nodes, parent, current, parent', after, parent'', k, i, kept, p1, p2, p3, p, placed);
  }

  /** The bookkeeping of one redistribution turn, once the child loop has
      run on the `i`-th index of node `k`. */
  lemma TurnDone(vertices: seq<Vec3>, triangles: seq<Triangle>, nodes: seq<Node>, parent: seq<int>,
                 current: seq<Node>, parent': seq<int>, after: seq<Node>, parent'': seq<int>,
                 k: nat, i: nat, kept: seq<nat>, p1: Vec3, p2: Vec3, p3: Vec3, p: Vec3, placed: bool)
    requires Redistributing(vertices, triangles, nodes, parent, current, parent', k, i, kept)
    requires i < |nodes[k].triangles| && nodes[k].triangles[i] < |triangles|
    requires PointsOf(vertices, triangles, nodes[k].triangles[i], p1, p2, p3, p)
    requires Inv(vertices, triangles, after, parent'') && Shallow(after, parent'') && KeepsDepths(parent', parent'')
    requires placed == AnyChildAccepts(current, k, p1, p2, p3, p)
    requires placed ==> ChildTook(vertices, triangles, current, parent', after, parent'', k, nodes[k].triangles[i], p1, p2, p3, p)
    requires !placed ==> after == current && parent'' == parent'
    requires StaysWithin(current, parent', after, parent'', k)
    ensures Redistributing(vertices, triangles, nodes, parent, after, parent'', k, i + 1,
                           if placed then kept else kept + [nodes[k].triangles[i]])
    ensures placed == ChildTakes(vertices, triangles, nodes, k, nodes[k].triangles[i])
    ensures placed ==> SentIndex(vertices, triangles, after, parent'', k, nodes[k].triangles[i])
  {
    var index := nodes[k].triangles[i];
    TurnCounts(vertices, triangles, nodes, parent, current, parent', after, parent'', k, i, kept, p1, p2, p3, p, placed);
    HandOverStep(vertices, triangles, nodes, parent, current, parent', after, parent'', k, i, placed);
  }

  /** The tree-and-list accounting of one redistribution turn. */
  lemma TurnCounts(vertices: seq<Vec3>, triangles: seq<Triangle>, nodes: seq<Node>, parent: seq<int>,
                   current: seq<Node>, parent': seq<int>, after: seq<Node>, parent'': seq<int>,
                   k: nat, i: nat, kept: seq<nat>, p1: Vec3, p2: Vec3, p3: Vec3, p: Vec3, placed: bool)
    requires Accounted(vertices, triangles, nodes, parent, current, parent', k, i, kept)
    requires i < |nodes[k].triangles| && nodes[k].triangles[i] < |triangles|
    requires PointsOf(vertices, triangles, nodes[k].triangles[i], p1, p2, p3, p)
    requires Inv(vertices, triangles, after, parent'') && Shallow(after, parent'') && KeepsDepths(parent', parent'')
    requires placed == AnyChildAccepts(current, k, p1, p2, p3, p)
    requires placed ==> ChildTook(vertices, triangles, current, parent', after, parent'', k, nodes[k].triangles[i], p1, p2, p3, p)
    requires !placed ==> after == current && parent'' == parent'
    ensures Accounted(vertices, triangles, nodes, parent, after, parent'', k, i + 1,
                      if placed then kept else kept + [nodes[k].triangles[i]])
    ensures Grows(current, after, k + 1)
    ensures placed == ChildTakes(vertices, triangles, nodes, k, nodes[k].triangles[i])
    ensures placed == ChildTakes(vertices, triangles, current, k, nodes[k].triangles[i])
  {
    var index := nodes[k].triangles[i];
    assert current[k] == nodes[k];
    NoneAcceptSameBoxes(current, nodes, nodes[k].children.first, 8, p1, p2, p3, p);
    PrefixStep(nodes[k].triangles, i);
    UnplacedStep(vertices, triangles, nodes, k, nodes[k].triangles, i);
    if placed {
      TurnTaken(vertices, triangles, nodes, parent, current, parent', after, parent'', k, i, kept, p1, p2, p3, p);
    } else {
      TurnKept(vertices, triangles, nodes, parent, current, parent', k, i, kept);
    }
  }

  /** A child took the `i`-th index: the kept list stays, the tree gains it. */
  lemma TurnTaken(vertices: seq<Vec3>, triangles: seq<Triangle>, nodes: seq<Node>, parent: seq<int>,
                  current: seq<Node>, parent': seq<int>, after: seq<Node>, parent'': seq<int>,
                  k: nat, i: nat, kept: seq<nat>, p1: Vec3, p2: Vec3, p3: Vec3, p: Vec3)
    requires Accounted(vertices, triangles, nodes, parent, current, parent', k, i, kept)
    requires i < |nodes[k].triangles| && nodes[k].triangles[i] < |triangles|
    requires Shallow(after, parent'') && KeepsDepths(parent', parent'')
    requires ChildTook(vertices, triangles, current, parent', after, parent'', k, nodes[k].triangles[i], p1, p2, p3, p)
    requires nodes[k].triangles[..i + 1] == nodes[k].triangles[..i] + [nodes[k].triangles[i]]
    requires Unplaced(vertices, triangles, nodes, k, nodes[k].triangles[..i + 1]) == kept
    ensures Accounted(vertices, triangles, nodes, parent, after, parent'', k, i + 1, kept)
  {
    GrowsTrans(nodes, current, after, k + 1, k + 1, k + 1);
    KeepsDepthsTrans(parent, parent', parent'');
    MultisetStep(AllTriangles(current), AllTriangles(after), multiset(kept), multiset(kept),
                 AllTriangles(nodes), multiset(nodes[k].triangles[..i]), nodes[k].triangles[i], true);
  }

  /** No child took the `i`-th index: the tree stays, the kept list gains it. */
  lemma TurnKept(vertices: seq<Vec3>, triangles: seq<Triangle>, nodes: seq<Node>, parent: seq<int>,
                 current: seq<Node>, parent': seq<int>, k: nat, i: nat, kept: seq<nat>)
    requires Accounted(vertices, triangles, nodes, parent, current, parent', k, i, kept)
    requires i < |nodes[k].triangles|
    requires nodes[k].triangles[..i + 1] == nodes[k].triangles[..i] + [nodes[k].triangles[i]]
    requires Unplaced(vertices, triangles, nodes, k, nodes[k].triangles[..i + 1]) == kept + [nodes[k].triangles[i]]
    ensures Accounted(vertices, triangles, nodes, parent, current, parent', k, i + 1, kept + [nodes[k].triangles[i]])
  {
    MultisetStep(AllTriangles(current), AllTriangles(current), multiset(kept), multiset(kept + [nodes[k].triangles[i]]),
                 AllTriangles(nodes), multiset(nodes[k].triangles[..i]), nodes[k].triangles[i], false);
  }

  /** The locality and hand-down parts of one redistribution turn. */
  lemma HandOverStep(vertices: seq<Vec3>, triangles: seq<Triangle>, nodes: seq<Node>, parent: seq<int>,
                     current: seq<Node>, parent': seq<int>, after: seq<Node>, parent'': seq<int>,
                     k: nat, i: nat, placed: bool)
    requires Inv(vertices, triangles, nodes, parent) && k < |nodes| && nodes[k].children.Split?
    requires Inv(vertices, triangles, current, parent') && i < |nodes[k].triangles|
    requires Grows(nodes, current, k + 1) && Grows(current, after, k + 1)
    requires StaysWithin(nodes, parent, current, parent', k)
    requires HandedDown(vertices, triangles, current, parent', k, nodes[k].triangles[..i])
    requires var x := nodes[k].triangles[i];
             x < |triangles| && placed == ChildTakes(vertices, triangles, current, k, x)
    requires placed ==> StaysWithin(current, parent', after, parent'', k) &&
                        SentIndex(vertices, triangles, after, parent'', k, nodes[k].triangles[i])
    requires !placed ==> after == current && parent'' == parent'
    ensures StaysWithin(nodes, parent, after, parent'', k)
    ensures HandedDown(vertices, triangles, after, parent'', k, nodes[k].triangles[..i + 1])
  {
    var ts := nodes[k].triangles;
    PrefixStep(ts, i);
    if placed {
      StaysTrans(nodes, parent, current, parent', after, parent'', k);
      GrowsWeaken(current, after, k + 1, 0);
      HandedDownKept(vertices, triangles, current, parent', after, parent'', k, ts[..i]);
    }
    var x := ts[i];
    var v1, v2, v3 := GetPos(vertices, triangles, x, 0), GetPos(vertices, triangles, x, 1),
                      GetPos(vertices, triangles, x, 2);
    NoneAcceptSameBoxes(current, after, nodes[k].children.first, 8, v1, v2, v3, Centroid(v1, v2, v3));
    HandedDownStep(vertices, triangles, after, parent'', k, ts[..i], x);
  }

  /** A child of split node `k` took triangle `idx`: the first accepting
      one, and the tree gained exactly that index. */
  ghost predicate ChildTook(vertices: seq<Vec3>, triangles: seq<Triangle>, nodes: seq<Node>, parent: seq<int>,
                            after: seq<Node>, parent': seq<int>, k: nat, idx: nat,
                            v1: Vec3, v2: Vec3, v3: Vec3, center: Vec3) {
    Inv(vertices, triangles, after, parent') && Grows(nodes, after, k + 1) &&
    Shallow(after, parent') && KeepsDepths(parent, parent') &&
    k < |nodes| && AnyChildAccepts(nodes, k, v1, v2, v3, center) && AnyChildAccepts(after, k, v1, v2, v3, center) &&
    SentToFirstChild(after, parent', k, idx, v1, v2, v3, center) &&
    AllTriangles(after) == AllTriangles(nodes) + multiset{idx}
  }

  /** The child loop `for i in 0..8: if children[i].addTriangle(...) break`. */
  method TryChildren(vertices: seq<Vec3>, triangles: seq<Triangle>, nodes: seq<Node>, ghost parent: seq<int>,
                     k: nat, idx: nat, v1: Vec3, v2: Vec3, v3: Vec3, center: Vec3, fuel: nat)
    returns (placed: bool, after: seq<Node>, ghost parent': seq<int>)
    requires Inv(vertices, triangles, nodes, parent) && k < |nodes| && nodes[k].children.Split?
    requires Shallow(nodes, parent) && Depth(parent, k) + fuel == MaxDepth
    requires idx < |triangles| && PointsOf(vertices, triangles, idx, v1, v2, v3, center) && fuel > 0
    decreases fuel, 1
    ensures placed == AnyChildAccepts(nodes, k, v1, v2, v3, center)
    ensures placed ==> ChildTook(vertices, triangles, nodes, parent, after, parent', k, idx, v1, v2, v3, center)
    ensures !placed ==> after == nodes && parent' == parent
    ensures StaysWithin(nodes, parent, after, parent', k)
  {
    var first := nodes[k].children.first;
    assert k < first && first + 8 <= |nodes|;
    placed, after, parent' := false, nodes, parent;
    var j := 0;
    while j < 8
      invariant 0 <= j <= 8 && !placed && after == nodes && parent' == parent
      invariant NoneAccept(nodes, first, j, v1, v2, v3, center)
    {
      placed, after, parent' := TryChild(vertices, triangles, nodes, parent, k, j, idx, v1, v2, v3, center, fuel);
      ChildStep(vertices, triangles, nodes, parent, after, parent', k, j, idx, v1, v2, v3, center, placed);
      if placed {
        return;
      }
      j := j + 1;
    }
    StaysRefl(nodes, parent, k);
  }

  /** What `children[j].addTriangle(...)` did: child `j` of split node `k`
      took the triangle into its subtree exactly when it accepts it, and
      nothing changed when it refused. */
  ghost predicate ChildCalled(vertices: seq<Vec3>, triangles: seq<Triangle>, nodes: seq<Node>, parent: seq<int>,
                              after: seq<Node>, parent': seq<int>, k: nat, j: nat, idx: nat,
                              v1: Vec3, v2: Vec3, v3: Vec3, center: Vec3, placed: bool) {
    k < |nodes| && nodes[k].children.Split? && nodes[k].children.first + j < |nodes| &&
    Inv(vertices, triangles, after, parent') && Shallow(after, parent') && KeepsDepths(parent, parent') &&
    placed == AcceptsPoints(nodes[nodes[k].children.first + j], v1, v2, v3, center) &&
    AllTriangles(after) == AllTriangles(nodes) + (if placed then multiset{idx} else multiset{}) &&
    Grows(nodes, after, nodes[k].children.first + j) &&
    (!placed ==> after == nodes && parent' == parent) &&
    (placed ==> StoredUnder(after, parent', nodes[k].children.first + j, idx))
  }

  /** One turn of the child loop: child `j`, the children before it having
      refused, either took the triangle, which makes it the first taker, or
      refused it too. */
  lemma ChildStep(vertices: seq<Vec3>, triangles: seq<Triangle>, nodes: seq<Node>, parent: seq<int>,
                  after: seq<Node>, parent': seq<int>, k: nat, j: nat, idx: nat,
                  v1: Vec3, v2: Vec3, v3: Vec3, center: Vec3, placed: bool)
    requires k < |nodes| && nodes[k].children.Split? && k < nodes[k].children.first
    requires nodes[k].children.first + 8 <= |nodes| && j < 8
    requires NoneAccept(nodes, nodes[k].children.first, j, v1, v2, v3, center)
    requires ChildCalled(vertices, triangles, nodes, parent, after, parent', k, j, idx, v1, v2, v3, center, placed)
    ensures !placed ==> NoneAccept(nodes, nodes[k].children.first, j + 1, v1, v2, v3, center)
    ensures placed ==> ChildTook(vertices, triangles, nodes, parent, after, parent', k, idx, v1, v2, v3, center)
  {
    var first := nodes[k].children.first;
    if placed {
      GrowsWeaken(nodes, after, first + j, k + 1);
      GrowsWeaken(nodes, after, first + j, 0);
      TakenByFirst(nodes, after, parent', k, j, idx, v1, v2, v3, center);
      NoneAcceptSameBoxes(nodes, after, first, 8, v1, v2, v3, center);
    }
    NoneAcceptStep(nodes, first, j, v1, v2, v3, center, nodes[first + j], placed);
  }

  /** The call `children[j].addTriangle(...)` of the child loop: child `j`
      of split node `k` takes the triangle into its subtree exactly when it
      accepts it. */
  method TryChild(vertices: seq<Vec3>, triangles: seq<Triangle>, nodes: seq<Node>, ghost parent: seq<int>,
                  k: nat, j: nat, idx: nat, v1: Vec3, v2: Vec3, v3: Vec3, center: Vec3, fuel: nat)
    returns (placed: bool, after: seq<Node>, ghost parent': seq<int>)
    requires Inv(vertices, triangles, nodes, parent) && k < |nodes| && nodes[k].children.Split?
    requires Shallow(nodes, parent) && Depth(parent, k) + fuel == MaxDepth
    requires nodes[k].children.first + 8 <= |nodes| && j < 8
    requires idx < |triangles| && PointsOf(vertices, triangles, idx, v1, v2, v3, center) && fuel > 0
    decreases fuel, 0
    ensures ChildCalled(vertices, triangles, nodes, parent, after, parent', k, j, idx, v1, v2, v3, center, placed)
    ensures StaysWithin(nodes, parent, after, parent', k)
  {
    ChildDepth(nodes, parent, k, j);
    placed, after, parent' := AddTriangle(vertices, triangles, nodes, parent, nodes[k].children.first + j, idx,
                                          v1, v2, v3, center, fuel - 1);
    ChildFrame(nodes, parent, after, parent', k, j);
  }

  /** What a call on child `j` changes lies within its parent's subtree. */
  lemma ChildFrame(nodes: seq<Node>, parent: seq<int>, after: seq<Node>, parent': seq<int>, k: nat, j: nat)
    requires Shape(nodes, parent) && k < |nodes| && nodes[k].children.Split? && j < 8
    requires StaysWithin(nodes, parent, after, parent', nodes[k].children.first + j)
    ensures StaysWithin(nodes, parent, after, parent', k)
  {
    assert IsOctant(nodes, parent, k, j);
    StaysWiden(nodes, parent, after, parent', k, nodes[k].children.first + j);
  }

  /** The ray's slab test against `box` reports a hit no farther than `bound`. */
  predicate BoxAdmits(box: Box, ray: Ray, bound: Dist)
    requires RayOk(box, ray)
  {
    Overlaps(box, ray) && bound.AtLeast(EntryT(box, ray))
  }

  /** What the walk needs of the arena: stored indices name triangles, and a
      split node's children follow it. */
  ghost predicate Walkable(vertices: seq<Vec3>, triangles: seq<Triangle>, nodes: seq<Node>) {
    MeshOk(vertices, triangles) &&
    (forall q, s :: 0 <= q < |nodes| && 0 <= s < |nodes[q].triangles| ==> nodes[q].triangles[s] < |triangles|) &&
    (forall q :: 0 <= q < |nodes| && nodes[q].children.Split? ==>
       q < nodes[q].children.first && nodes[q].children.first + 8 <= |nodes|)
  }

  /** No triangle on the list `list` commits against the distance `t`. */
  predicate NoneCommits(vertices: seq<Vec3>, triangles: seq<Triangle>, list: seq<nat>, ray: Ray, t: Dist) {
    MeshOk(vertices, triangles) &&
    forall s :: 0 <= s < |list| ==> list[s] < |triangles| && !triangles[list[s]].Commits(vertices, ray, t)
  }

  lemma InvIsWalkable(vertices: seq<Vec3>, triangles: seq<Triangle>, nodes: seq<Node>, parent: seq<int>)
    requires Inv(vertices, triangles, nodes, parent)
    ensures Walkable(vertices, triangles, nodes)
  {
    forall q, s | 0 <= q < |nodes| && 0 <= s < |nodes[q].triangles|
      ensures nodes[q].triangles[s] < |triangles|
    {
      assert NodeStored(vertices, triangles, nodes[q]);
    }
  }

  /** `after` is `before` with the hit on slot `s` of the list `ts`
      committed: that triangle passes the test against `before`'s distance,
      and the record gets its distance, point and normal, and `s` (the slot,
      not the mesh index) as `triangle`. */
  ghost predicate SlotHit(vertices: seq<Vec3>, triangles: seq<Triangle>, ts: seq<nat>, s: nat, ray: Ray,
                          before: MeshIntersection, after: MeshIntersection)
  {
    MeshOk(vertices, triangles) && s < |ts| && ts[s] < |triangles| &&
    var tri := triangles[ts[s]];
    tri.Commits(vertices, ray, before.t) &&
    after == before.(t := Finite(tri.Distance(vertices, ray)), position := ray.At(tri.Distance(vertices, ray)),
                     normal := tri.normal, triangle := s)
  }

  /** The hit is on slot `s` of node `q`. */
  ghost predicate HitAt(vertices: seq<Vec3>, triangles: seq<Triangle>, nodes: seq<Node>, q: nat, s: nat, ray: Ray,
                        before: MeshIntersection, after: MeshIntersection)
  {
    q < |nodes| && SlotHit(vertices, triangles, nodes[q].triangles, s, ray, before, after)
  }

  /** A hit committed against a nearer bound is also a hit against a farther
      one, and it lies strictly closer than that bound. */
  lemma {:induction false} SlotHitWeaken(vertices: seq<Vec3>, triangles: seq<Triangle>, ts: seq<nat>, s: nat, ray: Ray,
                                         mid: MeshIntersection, before: MeshIntersection, after: MeshIntersection)
    requires SlotHit(vertices, triangles, ts, s, ray, mid, after) && mid.near == before.near && mid.t.LessEq(before.t)
    ensures SlotHit(vertices, triangles, ts, s, ray, before, after)
    ensures after.t.Less(before.t)
  {
    Triangles.CommitsMonotone(triangles[ts[s]], vertices, ray, mid.t, before.t);
  }

  /** The first loop of `intersectInternal`: every triangle of the list is
      tested against the nearest hit so far. The result is the closest
      committing triangle: none commits against it any more. */
  method IntersectOwn(vertices: seq<Vec3>, triangles: seq<Triangle>, ts: seq<nat>, ray: Ray, outNearest: MeshIntersection)
    returns (found: bool, nearest: MeshIntersection, ghost hitSlot: nat)
    requires MeshOk(vertices, triangles) && forall s :: 0 <= s < |ts| ==> ts[s] < |triangles|
    ensures !found ==> nearest == outNearest
    ensures found ==> SlotHit(vertices, triangles, ts, hitSlot, ray, outNearest, nearest)
    ensures found <==> nearest.t.Less(outNearest.t)
    ensures forall s :: 0 <= s < |ts| ==> !triangles[ts[s]].Commits(vertices, ray, nearest.t)
  {
    nearest, found, hitSlot := outNearest, false, 0;
    for i := 0 to |ts|
      invariant !found ==> nearest == outNearest
      invariant found ==> SlotHit(vertices, triangles, ts, hitSlot, ray, outNearest, nearest) && nearest.t.Less(outNearest.t)
      invariant nearest.near == outNearest.near
      invariant NoneCommit(vertices, triangles, ts, i, ray, nearest.t)
    {
      var hit, r := IsIntersectingMesh(triangles[ts[i]], vertices, ray, nearest);
      if hit {
        ghost var prev := nearest;
        nearest := r.(triangle := i);
        found, hitSlot := true, i;
        SlotHitWeaken(vertices, triangles, ts, i, ray, prev, outNearest, nearest);
        SlotHitWeaken(vertices, triangles, ts, i, ray, prev, prev, nearest);
        NoneCommitBelow(vertices, triangles, ts, i, ray, nearest.t, prev.t);
      }
    }
  }

  /** Every entry names its own octant or is -1. */
  predicate OctantsNamed(s: seq<Octant>) {
    forall p :: 0 <= p < |s| ==> -1 <= s[p].index < 8
  }

  lemma OctantsNamedPermuted(a: seq<Octant>, b: seq<Octant>)
    requires OctantsNamed(a) && multiset(a) == multiset(b)
    ensures OctantsNamed(b)
  {
    forall p | 0 <= p < |b|
      ensures -1 <= b[p].index < 8
    {
      assert b[p] in multiset(a);
    }
  }

  /** The entry for child `j` with box `box`: entered at 0 when the box
      holds the origin, at the slab entry distance when the box admits the
      ray within `bound`, and marked -1 otherwise. */
  predicate OctantEntry(box: Box, ray: Ray, bound: Dist, j: int, e: Octant)
    requires RayOk(box, ray)
  {
    (e.index == j <==> box.Contains(ray.origin) || BoxAdmits(box, ray, bound)) &&
    (e.index != j ==> e.index == -1) &&
    (box.Contains(ray.origin) ==> e.t == Finite(0.0)) &&
    (!box.Contains(ray.origin) && e.index == j ==> e.t == Finite(EntryT(box, ray)))
  }

  /** The second loop of `intersectInternal`: each of the eight children
      gets its entry. */
  method CollectOctants(nodes: seq<Node>, first: nat, ray: Ray, nearest: MeshIntersection) returns (entries: array<Octant>)
    requires first + 8 <= |nodes| && TraversableBy(nodes, ray)
    ensures fresh(entries) && entries.Length == 8 && OctantsNamed(entries[..])
    ensures forall j :: 0 <= j < 8 ==> OctantEntry(nodes[first + j].box, ray, nearest.t, j, entries[j])
  {
    entries := new Octant[8](_ => Octant(-1, Infinite));
    for j := 0 to 8
      invariant forall p :: 0 <= p < j ==> OctantEntry(nodes[first + p].box, ray, nearest.t, p, entries[p])
      invariant forall p :: j <= p < 8 ==> entries[p].index == -1
    {
      var box := nodes[first + j].box;
      var e;
      if box.Contains(ray.origin) {
        e := Octant(j, Finite(0.0));
      } else {
        var reached, entry := IntersectsMesh(box, ray, nearest);
        e := if reached then Octant(j, entry.t) else Octant(-1, Infinite);
      }
      assert OctantEntry(box, ray, nearest.t, j, e);
      entries[j] := e;
    }
  }

  /** `intersectInternal` on node `k`: the node's elongated box must admit
      the ray before anything else; then its own triangles are tested in
      order; then the children the ray reaches are visited nearest entry
      first, skipping those whose entry lies beyond the nearest hit so far.
      A hit is always on a triangle of `k` or of a node below it, and no
      triangle of `k` commits against the result. */
  method IntersectNode(vertices: seq<Vec3>, triangles: seq<Triangle>, nodes: seq<Node>, k: nat, ray: Ray,
                       outNearest: MeshIntersection)
    returns (found: bool, nearest: MeshIntersection, ghost hitNode: nat, ghost hitSlot: nat)
    requires Walkable(vertices, triangles, nodes) && k < |nodes| && TraversableBy(nodes, ray)
    decreases |nodes| - k
    ensures !found ==> nearest == outNearest
    ensures found ==> k <= hitNode && HitAt(vertices, triangles, nodes, hitNode, hitSlot, ray, outNearest, nearest)
    ensures found <==> nearest.t.Less(outNearest.t)
    ensures !BoxAdmits(nodes[k].box, ray, outNearest.t) ==> !found
    ensures BoxAdmits(nodes[k].box, ray, outNearest.t) ==>
              forall s :: 0 <= s < |nodes[k].triangles| ==>
                !triangles[nodes[k].triangles[s]].Commits(vertices, ray, nearest.t)
  {
    nearest, found, hitNode, hitSlot := outNearest, false, 0, 0;
    var admitted, tmp := IntersectsMesh(nodes[k].box, ray, outNearest);
    if !admitted {
      return;
    }
    var ts := nodes[k].triangles;
    found, nearest, hitSlot := IntersectOwn(vertices, triangles, ts, ray, outNearest);
    assert NoneCommit(vertices, triangles, ts, |ts|, ray, nearest.t);
    hitNode := k;
    if nodes[k].children.Leaf? {
      return;
    }
    var first := nodes[k].children.first;
    var entries := CollectOctants(nodes, first, ray, nearest);
    ghost var unsorted := entries[..];
    SortOctants(entries);
    var order := entries[..];
    OctantsNamedPermuted(unsorted, order);
    for i := 0 to 8
      invariant !found ==> nearest == outNearest
      invariant found ==> k <= hitNode && HitAt(vertices, triangles, nodes, hitNode, hitSlot, ray, outNearest, nearest)
      invariant found ==> nearest.t.Less(outNearest.t)
      invariant nearest.near == outNearest.near
      invariant NoneCommit(vertices, triangles, ts, |ts|, ray, nearest.t)
    {
      var e := order[i];
      if 0 <= e.index && !nearest.t.Less(e.t) {
        ghost var prev := nearest;
        var f, r;
        ghost var hn, hs;
        f, r, hn, hs := IntersectNode(vertices, triangles, nodes, first + e.index, ray, nearest);
        if f {
          nearest, found, hitNode, hitSlot := r, true, hn, hs;
          SlotHitWeaken(vertices, triangles, nodes[hn].triangles, hs, ray, prev, outNearest, nearest);
          NoneCommitBelow(vertices, triangles, ts, |ts|, ray, nearest.t, prev.t);
        }
      }
    }
  }

  /** `initialize(mesh)` on the arena: a single root whose boxes are the
      mesh box padded by 1e-5, then every triangle inserted from the root in
      order. The tree holds exactly the triangles the root accepts. */
  method Build(vs: seq<Vec3>, ts: seq<Triangle>, meshBox: Box) returns (arena: seq<Node>, ghost links: seq<int>)
    requires MeshOk(vs, ts)
    ensures Inv(vs, ts, arena, links) && |arena| > 0
    ensures arena[0].box == PaddedBox(meshBox) && arena[0].initialBox == PaddedBox(meshBox)
    ensures AllTriangles(arena) == multiset(AcceptedBy(vs, ts, Node([], PaddedBox(meshBox), PaddedBox(meshBox), Leaf), |ts|))
  {
    var b := PaddedBox(meshBox);
    ghost var root := Node([], b, b, Leaf);
    arena := [Node([], b, b, Leaf)];
    links := [-1];
    for i := 0 to |ts|
      invariant Inv(vs, ts, arena, links) && Shallow(arena, links) && |arena| > 0 && arena[0].box == b && arena[0].initialBox == b
      invariant AllTriangles(arena) == multiset(AcceptedBy(vs, ts, root, i))
    {
      var v1, v2, v3 := GetPos(vs, ts, i, 0), GetPos(vs, ts, i, 1), GetPos(vs, ts, i, 2);
      var p := Centroid(v1, v2, v3);
      var inserted;
      inserted, arena, links := AddTriangle(vs, ts, arena, links, 0, i, v1, v2, v3, p, MaxDepth);
    }
  }

  class TriangleOctree {
    var vertices: seq<Vec3>
    var triangles: seq<Triangle>
    /** Node 0 is the root; a split node's eight children are consecutive. */
    var nodes: seq<Node>
    ghost var parent: seq<int>
    /** `inited()`: a mesh is attached. */
    var inited: bool

    ghost predicate Valid()
      reads this
    {
      Inv(vertices, triangles, nodes, parent)
    }

    constructor()
      ensures Valid() && !inited && nodes == []
    {
      vertices, triangles, nodes := [], [], [];
      parent := [];
      inited := false;
    }

    /** `clear()`: detaches the mesh and nothing else. */
    method Clear()
      modifies this
      ensures !inited
      ensures vertices == old(vertices) && triangles == old(triangles) && nodes == old(nodes) && parent == old(parent)
    {
      inited := false;
    }

    /** `initialize(mesh)`: when the mesh box encloses every vertex, each
        triangle is stored exactly once. */
    method Initialize(vs: seq<Vec3>, ts: seq<Triangle>, meshBox: Box)
      requires MeshOk(vs, ts)
      modifies this
      ensures Valid() && inited && vertices == vs && triangles == ts && |nodes| > 0
      ensures nodes[0].box == PaddedBox(meshBox) && nodes[0].initialBox == PaddedBox(meshBox)
      ensures Encloses(meshBox, vs, ts) ==> AllTriangles(nodes) == multiset(Range(|ts|))
    {
      var arena;
      ghost var links;
      arena, links := Build(vs, ts, meshBox);
      if Encloses(meshBox, vs, ts) {
        EnclosedMeshIsAccepted(vs, ts, meshBox, |ts|);
      }
      vertices, triangles, nodes, parent, inited := vs, ts, arena, links, true;
    }

    /** `intersect`: the root's strict box must admit the ray before the
        tree is walked from the root; when both root boxes admit it, no
        triangle on the root's own list commits against the result. */
    method Intersect(ray: Ray, nearest: MeshIntersection)
      returns (found: bool, result: MeshIntersection, ghost hitNode: nat, ghost hitSlot: nat)
      requires Valid() && |nodes| > 0 && TraversableBy(nodes, ray)
      ensures !found ==> result == nearest
      ensures found ==> HitAt(vertices, triangles, nodes, hitNode, hitSlot, ray, nearest, result)
      ensures found <==> result.t.Less(nearest.t)
      ensures !BoxAdmits(nodes[0].initialBox, ray, nearest.t) ==> !found
      ensures !BoxAdmits(nodes[0].box, ray, nearest.t) ==> !found
      ensures BoxAdmits(nodes[0].initialBox, ray, nearest.t) && BoxAdmits(nodes[0].box, ray, nearest.t) ==>
                NoneCommits(vertices, triangles, nodes[0].triangles, ray, result.t)
    {
      var admitted, tmp := IntersectsMesh(nodes[0].initialBox, ray, nearest);
      if !admitted {
        return false, nearest, 0, 0;
      }
      InvIsWalkable(vertices, triangles, nodes, parent);
      found, result, hitNode, hitSlot := IntersectNode(vertices, triangles, nodes, 0, ray, nearest);
    }
  }
}
