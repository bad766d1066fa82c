// The nested instance lists every shading group keeps, model -> mesh ->
// material -> instances (Engine/src/render/meshSystem/ShadingGroups/shadingGroup.h,
// litInstances.h), with the predicates the add, lookup and removal
// operations are specified by.

module ShadingData {

  /** An instance as the lookups see it: the object id the mesh system
      stamps on it and the id of its model-to-world matrix. */
  datatype Instance = Instance(objectID: nat, modelToWorldID: nat)

  /** A model pointer. `NoModel` is the null pointer of a default-built
      `PerModel`; two references denote the same model exactly when they
      are equal, and a model's mesh count is part of what it refers to. */
  datatype ModelRef = NoModel | ModelRef(id: nat, meshCount: nat)

  datatype PerMaterial<M> = PerMaterial(material: M, instances: seq<Instance>)

  datatype PerMesh<M> = PerMesh(perMaterial: seq<PerMaterial<M>>)

  datatype PerModel<M> = PerModel(model: ModelRef, perMesh: seq<PerMesh<M>>)

  // ---- Where an object id occurs, level by level

  predicate InstancesHave(s: seq<Instance>, id: nat)
  {
    exists j :: 0 <= j < |s| && s[j].objectID == id
  }

  predicate MaterialsHave<M>(s: seq<PerMaterial<M>>, id: nat)
  {
    exists k :: 0 <= k < |s| && InstancesHave(s[k].instances, id)
  }

  predicate MeshesHave<M>(s: seq<PerMesh<M>>, id: nat)
  {
    exists i :: 0 <= i < |s| && MaterialsHave(s[i].perMaterial, id)
  }

  /** Some instance of the group carries object id `id`. */
  predicate GroupHas<M>(g: seq<PerModel<M>>, id: nat)
  {
    exists m :: 0 <= m < |g| && MeshesHave(g[m].perMesh, id)
  }

  // ---- Append-only growth: every list of `a` is a prefix of its
  // counterpart in `b`, and every model keeps its place and its meshes.

  predicate MaterialGrows<M(==)>(a: PerMaterial<M>, b: PerMaterial<M>)
  {
    a.material == b.material && a.instances <= b.instances
  }

  predicate MeshGrows<M(==)>(a: PerMesh<M>, b: PerMesh<M>)
  {
    |a.perMaterial| <= |b.perMaterial| &&
    forall k :: 0 <= k < |a.perMaterial| ==> MaterialGrows(a.perMaterial[k], b.perMaterial[k])
  }

  predicate ModelGrows<M(==)>(a: PerModel<M>, b: PerModel<M>)
  {
    a.model == b.model && |a.perMesh| == |b.perMesh| &&
    forall i :: 0 <= i < |a.perMesh| ==> MeshGrows(a.perMesh[i], b.perMesh[i])
  }

  predicate GroupGrows<M(==)>(a: seq<PerModel<M>>, b: seq<PerModel<M>>)
  {
    |a| <= |b| && forall m :: 0 <= m < |a| ==> ModelGrows(a[m], b[m])
  }

  /** Growth loses no instance: an id present before is present after. */
  lemma {:induction false} GrowthKeepsIds<M>(a: seq<PerModel<M>>, b: seq<PerModel<M>>, id: nat)
    requires GroupGrows(a, b) && GroupHas(a, id)
    ensures GroupHas(b, id)
  {
    var m :| 0 <= m < |a| && MeshesHave(a[m].perMesh, id);
    var i :| 0 <= i < |a[m].perMesh| && MaterialsHave(a[m].perMesh[i].perMaterial, id);
    var k :| 0 <= k < |a[m].perMesh[i].perMaterial| && InstancesHave(a[m].perMesh[i].perMaterial[k].instances, id);
    var s := a[m].perMesh[i].perMaterial[k].instances;
    var j :| 0 <= j < |s| && s[j].objectID == id;
    var t := b[m].perMesh[i].perMaterial[k].instances;
    assert t[j] == s[j];
    assert InstancesHave(t, id);
    assert MaterialsHave(b[m].perMesh[i].perMaterial, id);
    assert MeshesHave(b[m].perMesh, id);
  }

  /** Growth is a preorder: it composes. */
  lemma {:induction false} GrowthTransitive<M>(a: seq<PerModel<M>>, b: seq<PerModel<M>>, c: seq<PerModel<M>>)
    requires GroupGrows(a, b) && GroupGrows(b, c)
    ensures GroupGrows(a, c)
  {
    forall m | 0 <= m < |a|
      ensures ModelGrows(a[m], c[m])
    {
      forall i | 0 <= i < |a[m].perMesh|
        ensures MeshGrows(a[m].perMesh[i], c[m].perMesh[i])
      {
        var x, y, z := a[m].perMesh[i], b[m].perMesh[i], c[m].perMesh[i];
        forall k | 0 <= k < |x.perMaterial|
          ensures MaterialGrows(x.perMaterial[k], z.perMaterial[k])
        {
          assert MaterialGrows(x.perMaterial[k], y.perMaterial[k]);
          assert MaterialGrows(y.perMaterial[k], z.perMaterial[k]);
        }
      }
    }
  }
}
