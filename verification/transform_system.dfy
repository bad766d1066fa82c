// Store of transform matrices addressed by id
// (Engine/src/transformSystem/transformSystem.h, transformSystem.cpp).

module TransformSystems {
  import opened SolidVectors

  /** A 4x4 matrix, row-major. */
  datatype Mat4 = Mat4(entries: seq<real>) {
    function Entry(r: nat, c: nat): real
      requires |entries| == 16 && r < 4 && c < 4
    {
      entries[4 * r + c]
    }
  }

  /** `Mat4f::Identity()` */
  function Identity(): (m: Mat4)
    ensures |m.entries| == 16
    ensures forall r: nat, c: nat :: r < 4 && c < 4 ==> m.Entry(r, c) == if r == c then 1.0 else 0.0
  {
    Mat4(seq(16, i => if i % 5 == 0 then 1.0 else 0.0))
  }

  class TransformSystem {
    var matrices: SolidVector<Mat4>

    /** Nothing here ever erases a matrix, so ids stay equal to dense
        indices. */
    ghost predicate Valid()
      reads this, matrices
    {
      matrices.Valid() && matrices.Dense()
    }

    constructor()
      ensures Valid() && fresh(matrices) && matrices.Contents() == map[]
    {
      matrices := new SolidVector();
    }

    /** `getMatrix(id)`: reads dense slot `id` with `at`, not through the
        forward map; because ids equal slots, that is the matrix of `id`. */
    function GetMatrix(id: nat): (m: Mat4)
      reads this, matrices
      requires Valid() && id < |matrices.data|
      ensures id in matrices.Contents() && m == matrices.Contents()[id]
    {
      matrices.At(id)
    }

    /** `getMatrix(id) = m`: callers assign through the reference
        `getMatrix` returns, which replaces the matrix of `id` and no other. */
    method SetMatrix(id: nat, m: Mat4)
      requires Valid() && id < |matrices.data|
      modifies matrices
      ensures Valid() && |matrices.data| == old(|matrices.data|)
      ensures matrices.Contents() == old(matrices.Contents())[id := m]
      ensures GetMatrix(id) == m
    {
      assert matrices.forwardMap[matrices.backwardMap[id]] == id;
      matrices.SetAt(id, m);
    }

    /** `createMatrix()`: a fresh id holding the identity. */
    method CreateMatrix() returns (id: nat)
      requires Valid()
      modifies matrices
      ensures Valid()
      ensures id == old(|matrices.data|) && id !in old(matrices.Contents()) && |matrices.data| == id + 1
      ensures matrices.Contents() == old(matrices.Contents())[id := Identity()]
      ensures GetMatrix(id) == Identity()
    {
      id := matrices.Insert(Identity());
    }

    /** `clear()` removes every matrix. */
    method Clear()
      requires Valid()
      modifies matrices
      ensures Valid() && matrices.Contents() == map[] && |matrices.data| == 0
    {
      matrices.Clear();
    }
  }
}
