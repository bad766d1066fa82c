// The shared vertex and index buffers of a model and the range each mesh
// occupies in them (Engine/src/render/meshSystem/mesh/model.h,
// model.cpp `createVertexBuffer`). Vertices are kept abstract: the
// buffers only copy them.

module ModelRanges {
  import opened Triangles

  /** `Model::MeshRange`: where a mesh's vertices and indices start in the
      model's buffers, and how many there are. */
  datatype MeshRange = MeshRange(vertexOffset: int, indexOffset: int, vertexNum: int, indexNum: int)

  /** A mesh as `createVertexBuffer` reads it: its vertex list and its
      triangles, each holding three vertex indices. */
  datatype MeshData<V> = MeshData(vertices: seq<V>, triangles: seq<Triangle>)

  /** The indices pushed for a list of triangles, three per triangle. */
  function TriangleIndices(ts: seq<Triangle>): (r: seq<nat>)
    ensures |r| == 3 * |ts|
  {
    if ts == [] then []
    else
      var t := ts[|ts| - 1];
      TriangleIndices(ts[..|ts| - 1]) + [t.i0, t.i1, t.i2]
  }

  /** The vertex buffer's contents: every mesh's vertices, meshes in order. */
  function AllVertices<V>(ms: seq<MeshData<V>>): seq<V>
  {
    if ms == [] then [] else AllVertices(ms[..|ms| - 1]) + ms[|ms| - 1].vertices
  }

  /** The index buffer's contents: every mesh's triangle indices, as
      stored in the mesh (not shifted by the mesh's vertex offset). */
  function AllIndices<V>(ms: seq<MeshData<V>>): seq<nat>
  {
    if ms == [] then [] else AllIndices(ms[..|ms| - 1]) + TriangleIndices(ms[|ms| - 1].triangles)
  }

  /** The ranges pushed, one per mesh: the sizes of the buffers before the
      mesh and the amounts the mesh added. */
  function RangesOf<V>(ms: seq<MeshData<V>>): (r: seq<MeshRange>)
    ensures |r| == |ms|
    ensures forall k :: 0 <= k < |ms| ==> r[k].vertexNum == |ms[k].vertices| && r[k].indexNum == 3 * |ms[k].triangles|
  {
    if ms == [] then []
    else
      var front := ms[..|ms| - 1];
      var last := ms[|ms| - 1];
      var rest := RangesOf(front);
      assert forall k :: 0 <= k < |front| ==> front[k] == ms[k];
      rest + [MeshRange(|AllVertices(front)|, |AllIndices(front)|, |last.vertices|, |TriangleIndices(last.triangles)|)]
  }

  // ---- What the ranges mean

  /** Triangle `i`'s three indices sit at positions 3i, 3i+1 and 3i+2. */
  lemma {:induction false} TriangleIndicesAt(ts: seq<Triangle>, i: nat)
    requires i < |ts|
    ensures TriangleIndices(ts)[3 * i] == ts[i].i0
    ensures TriangleIndices(ts)[3 * i + 1] == ts[i].i1
    ensures TriangleIndices(ts)[3 * i + 2] == ts[i].i2
  {
    var front := ts[..|ts| - 1];
    if i < |ts| - 1 {
      TriangleIndicesAt(front, i);
      assert front[i] == ts[i];
    }
  }

  /** A slice inside the first part of a concatenation is a slice of that
      part. */
  lemma SliceOfFront<X>(p: seq<X>, q: seq<X>, i: nat, j: nat)
    requires i <= j <= |p|
    ensures (p + q)[i..j] == p[i..j]
  {
    assert forall n :: 0 <= n < j - i ==> (p + q)[i..j][n] == p[i..j][n];
  }

  /** The second part of a concatenation is the slice after the first. */
  lemma SliceOfBack<X>(p: seq<X>, q: seq<X>)
    ensures (p + q)[|p|..|p| + |q|] == q
  {
    assert forall n :: 0 <= n < |q| ==> (p + q)[|p|..|p| + |q|][n] == q[n];
  }

  /** The last range and the ones before it. */
  lemma RangesOfLast<V>(ms: seq<MeshData<V>>)
    requires ms != []
    ensures var front, last := ms[..|ms| - 1], ms[|ms| - 1];
      RangesOf(ms) == RangesOf(front) +
        [MeshRange(|AllVertices(front)|, |AllIndices(front)|, |last.vertices|, |TriangleIndices(last.triangles)|)] &&
      AllVertices(ms) == AllVertices(front) + last.vertices &&
      AllIndices(ms) == AllIndices(front) + TriangleIndices(last.triangles)
  {
  }

  /** The vertex half of `RangeLocatesMesh`. */
  lemma {:induction false} VertexRangeLocatesMesh<V>(ms: seq<MeshData<V>>, k: nat)
    requires k < |ms|
    ensures var r := RangesOf(ms)[k];
      0 <= r.vertexOffset && r.vertexOffset + r.vertexNum <= |AllVertices(ms)| &&
      AllVertices(ms)[r.vertexOffset..r.vertexOffset + r.vertexNum] == ms[k].vertices
  {
    var front, last := ms[..|ms| - 1], ms[|ms| - 1];
    RangesOfLast(ms);
    var r := RangesOf(ms)[k];
    if k < |ms| - 1 {
      VertexRangeLocatesMesh(front, k);
      assert front[k] == ms[k] && r == RangesOf(front)[k];
      SliceOfFront(AllVertices(front), last.vertices, r.vertexOffset, r.vertexOffset + r.vertexNum);
    } else {
      SliceOfBack(AllVertices(front), last.vertices);
    }
  }

  /** The index half of `RangeLocatesMesh`. */
  lemma {:induction false} IndexRangeLocatesMesh<V>(ms: seq<MeshData<V>>, k: nat)
    requires k < |ms|
    ensures var r := RangesOf(ms)[k];
      0 <= r.indexOffset && r.indexOffset + r.indexNum <= |AllIndices(ms)| &&
      AllIndices(ms)[r.indexOffset..r.indexOffset + r.indexNum] == TriangleIndices(ms[k].triangles)
  {
    var front, last := ms[..|ms| - 1], ms[|ms| - 1];
    RangesOfLast(ms);
    var r := RangesOf(ms)[k];
    if k < |ms| - 1 {
      IndexRangeLocatesMesh(front, k);
      assert front[k] == ms[k] && r == RangesOf(front)[k];
      SliceOfFront(AllIndices(front), TriangleIndices(last.triangles), r.indexOffset, r.indexOffset + r.indexNum);
    } else {
      SliceOfBack(AllIndices(front), TriangleIndices(last.triangles));
    }
  }

  /** Each range locates its own mesh: the vertex buffer holds the mesh's
      vertices at `[vertexOffset, vertexOffset + vertexNum)`, and the index
      buffer holds the mesh's triangle indices, unshifted, at
      `[indexOffset, indexOffset + indexNum)`. */
  lemma RangeLocatesMesh<V>(ms: seq<MeshData<V>>, k: nat)
    requires k < |ms|
    ensures var r := RangesOf(ms)[k];
      0 <= r.vertexOffset && r.vertexOffset + r.vertexNum <= |AllVertices(ms)| &&
      AllVertices(ms)[r.vertexOffset..r.vertexOffset + r.vertexNum] == ms[k].vertices &&
      0 <= r.indexOffset && r.indexOffset + r.indexNum <= |AllIndices(ms)| &&
      AllIndices(ms)[r.indexOffset..r.indexOffset + r.indexNum] == TriangleIndices(ms[k].triangles)
  {
    VertexRangeLocatesMesh(ms, k);
    IndexRangeLocatesMesh(ms, k);
  }

  /** The ranges tile the buffers: the first starts at 0, each next one
      starts where the previous ends, and the last ends at the buffer's
      end. */
  lemma {:induction false} RangesTile<V>(ms: seq<MeshData<V>>)
    ensures var rs := RangesOf(ms);
      (|ms| > 0 ==> rs[0].vertexOffset == 0 && rs[0].indexOffset == 0) &&
      (forall k :: 0 <= k < |ms| - 1 ==>
        rs[k + 1].vertexOffset == rs[k].vertexOffset + rs[k].vertexNum &&
        rs[k + 1].indexOffset == rs[k].indexOffset + rs[k].indexNum) &&
      (|ms| > 0 ==> rs[|ms| - 1].vertexOffset + rs[|ms| - 1].vertexNum == |AllVertices(ms)| &&
                    rs[|ms| - 1].indexOffset + rs[|ms| - 1].indexNum == |AllIndices(ms)|)
  {
    if ms != [] {
      var front := ms[..|ms| - 1];
      RangesTile(front);
      var rs, fs := RangesOf(ms), RangesOf(front);
      assert forall k :: 0 <= k < |front| ==> rs[k] == fs[k];
      if |front| > 0 {
        assert front[..|front| - 1] == ms[..|ms| - 2];
      }
    }
  }

  // ---- createVertexBuffer

  /** The triangle loop of one mesh (model.cpp:23-28). */
  method PushTriangleIndices(indices: seq<nat>, ts: seq<Triangle>) returns (r: seq<nat>)
    ensures r == indices + TriangleIndices(ts)
  {
    r := indices;
    for i := 0 to |ts|
      invariant r == indices + TriangleIndices(ts[..i])
    {
      assert ts[..i + 1][..i] == ts[..i];
      r := r + [ts[i].i0, ts[i].i1, ts[i].i2];
    }
    assert ts[..|ts|] == ts;
  }

  /** The mesh loop (model.cpp:13-33): the combined vertex and index lists
      and the ranges recorded for each mesh. */
  method CollectMeshes<V>(ms: seq<MeshData<V>>) returns (vertices: seq<V>, indices: seq<nat>, ranges: seq<MeshRange>)
    ensures vertices == AllVertices(ms) && indices == AllIndices(ms) && ranges == RangesOf(ms)
  {
    vertices, indices, ranges := [], [], [];
    for i := 0 to |ms|
      invariant vertices == AllVertices(ms[..i]) && indices == AllIndices(ms[..i]) && ranges == RangesOf(ms[..i])
    {
      assert ms[..i + 1][..i] == ms[..i];
      var offset := |vertices|;
      vertices := vertices + ms[i].vertices;
      var num := |vertices| - offset;
      var indOffset := |indices|;
      indices := PushTriangleIndices(indices, ms[i].triangles);
      var indNum := |indices| - indOffset;
      ranges := ranges + [MeshRange(offset, indOffset, num, indNum)];
    }
    assert ms[..|ms|] == ms;
  }

  class Model<V> {
    var meshes: seq<MeshData<V>>
    var ranges: seq<MeshRange>
    var vertexBuffer: seq<V>
    var indexBuffer: seq<nat>

    constructor(meshes: seq<MeshData<V>>)
      ensures this.meshes == meshes && ranges == [] && vertexBuffer == [] && indexBuffer == []
    {
      this.meshes := meshes;
      ranges, vertexBuffer, indexBuffer := [], [], [];
    }

    /** `createVertexBuffer`: with no meshes nothing happens; otherwise
        one range per mesh is appended to the ranges already there, the
        vertex buffer is rebuilt, and the index buffer only when there is
        at least one index. */
    method CreateVertexBuffer()
      modifies this
      ensures meshes == old(meshes)
      ensures meshes == [] ==> ranges == old(ranges) && vertexBuffer == old(vertexBuffer) && indexBuffer == old(indexBuffer)
      ensures meshes != [] ==> ranges == old(ranges) + RangesOf(meshes) && vertexBuffer == AllVertices(meshes)
      ensures meshes != [] ==> indexBuffer == if AllIndices(meshes) == [] then old(indexBuffer) else AllIndices(meshes)
    {
      if meshes == [] {
        return;
      }
      var vertices, indices, added := CollectMeshes(meshes);
      ranges := ranges + added;
      vertexBuffer := vertices;
      if indices != [] {
        indexBuffer := indices;
      }
    }
  }
}
