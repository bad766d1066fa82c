// A shading group's instance bookkeeping: `ShadingGroup` add/getModels/clear
// (Engine/src/render/meshSystem/ShadingGroups/shadingGroup.h) and the lookups
// and removal of `LitInstances`
// (Engine/src/render/meshSystem/ShadingGroups/litInstances.cpp), which the
// other instance groups repeat for their own instance types.

module ShadingGroups {
  import opened ShadingData
  import opened ShadingAdd
  import opened LitInstances

  /** The instance at a location of the group. */
  function InstanceAt<M>(g: seq<PerModel<M>>, loc: Location): Instance
    requires loc.Found? && loc.model < |g| && loc.mesh < |g[loc.model].perMesh|
    requires loc.material < |g[loc.model].perMesh[loc.mesh].perMaterial|
    requires loc.instance < |g[loc.model].perMesh[loc.mesh].perMaterial[loc.material].instances|
  {
    g[loc.model].perMesh[loc.mesh].perMaterial[loc.material].instances[loc.instance]
  }

  /** The first match is unique, so "the" result of a lookup is well defined. */
  lemma {:induction false} FirstAtUnique<M>(g: seq<PerModel<M>>, a: Location, b: Location, id: nat)
    requires FirstAt(g, a, id) && FirstAt(g, b, id)
    ensures a == b
  {
    var m := a.model;
    assert MeshesHave(g[a.model].perMesh, id) by {
      assert InstancesHave(g[m].perMesh[a.mesh].perMaterial[a.material].instances, id);
      assert MaterialsHave(g[m].perMesh[a.mesh].perMaterial, id);
    }
    assert MeshesHave(g[b.model].perMesh, id) by {
      assert InstancesHave(g[b.model].perMesh[b.mesh].perMaterial[b.material].instances, id);
      assert MaterialsHave(g[b.model].perMesh[b.mesh].perMaterial, id);
    }
    assert a.model == b.model;
    assert MaterialsHave(g[m].perMesh[a.mesh].perMaterial, id) by {
      assert InstancesHave(g[m].perMesh[a.mesh].perMaterial[a.material].instances, id);
    }
    assert MaterialsHave(g[m].perMesh[b.mesh].perMaterial, id) by {
      assert InstancesHave(g[m].perMesh[b.mesh].perMaterial[b.material].instances, id);
    }
    assert a.mesh == b.mesh;
    var i := a.mesh;
    assert InstancesHave(g[m].perMesh[i].perMaterial[a.material].instances, id);
    assert InstancesHave(g[m].perMesh[i].perMaterial[b.material].instances, id);
    assert a.material == b.material;
  }

  class ShadingGroup<M(==)> {
    var perModel: seq<PerModel<M>>

    constructor()
      ensures perModel == []
    {
      perModel := [];
    }

    /** `add(model, material, instance)`: finds or creates the model's
        entry, appends the instance to every equal material, or, when none
        is equal, gives each mesh a copy of the material holding just the
        instance; returns what was added. */
    method Add(model: ModelRef, material: M, instance: Instance) returns (added: PerModel<M>)
      requires AddReady(perModel, model, material)
      modifies this
      ensures perModel == AddedGroup(old(perModel), model, material, instance)
      ensures added == AddedRecord(WithModel(old(perModel), model)[FindModel(old(perModel), model)], material, instance)
    {
      ghost var g := perModel;
      var m := 0;
      while m < |perModel| && perModel[m].model != model
        invariant m <= |perModel| && forall q :: 0 <= q < m ==> perModel[q].model != model
      {
        m := m + 1;
      }
      if m == |perModel| {
        perModel := perModel + [PerModel(model, Meshes(model.meshCount, []))];
      }
      assert perModel == WithModel(g, model) && m == FindModel(g, model) && perModel[m].model == model;
      var pm;
      pm, added := AddToFoundModel(perModel[m], material, instance);
      perModel := perModel[m := pm];
    }

    /** `add(PerModel&)`: merges the object into every entry with its model,
        or appends it whole when there is none. */
    method AddPerModel(obj: PerModel<M>)
      requires AddPerModelReady(perModel, obj)
      modifies this
      ensures perModel == MergedGroup(old(perModel), obj)
    {
      ghost var g := perModel;
      var added := false;
      for m := 0 to |perModel|
        invariant |perModel| == |g|
        invariant forall q :: 0 <= q < |g| ==>
          perModel[q] == if q < m && g[q].model == obj.model then MergeModel(g[q], obj) else g[q]
        invariant added <==> exists q :: 0 <= q < m && g[q].model == obj.model
      {
        if perModel[m].model == obj.model {
          added := true;
          var merged := MergeInto(perModel[m], obj);
          perModel := perModel[m := merged];
        }
      }
      if !added {
        perModel := perModel + [obj];
      }
    }

    /** `getModels`: the group's entries. */
    function GetModels(): (r: seq<PerModel<M>>)
      reads this
      ensures |r| == |perModel| && forall m :: 0 <= m < |r| ==> r[m] == perModel[m]
    {
      perModel
    }

    /** `clear`: afterwards no object id is found. */
    method Clear()
      modifies this
      ensures perModel == [] && forall id: nat :: !GroupHas(perModel, id)
    {
      perModel := [];
    }

    /** `getObjectID`: the object id at four in-range indices. */
    function GetObjectID(modelIndex: nat, meshIndex: nat, materialIndex: nat, instanceIndex: nat): (id: nat)
      reads this
      requires modelIndex < |perModel| && meshIndex < |perModel[modelIndex].perMesh|
      requires materialIndex < |perModel[modelIndex].perMesh[meshIndex].perMaterial|
      requires instanceIndex < |perModel[modelIndex].perMesh[meshIndex].perMaterial[materialIndex].instances|
      ensures IsAt(perModel, Found(modelIndex, meshIndex, materialIndex, instanceIndex), id)
    {
      perModel[modelIndex].perMesh[meshIndex].perMaterial[materialIndex].instances[instanceIndex].objectID
    }

    /** `getObjectByID`: the first place holding the id, in model, mesh,
        material, instance order; `NotFound` exactly when it is absent. */
    method GetObjectByID(id: nat) returns (loc: Location)
      ensures loc.Found? ==> FirstAt(perModel, loc, id)
      ensures loc.NotFound? <==> !GroupHas(perModel, id)
    {
      var m := 0;
      while m < |perModel|
        invariant m <= |perModel| && forall q :: 0 <= q < m ==> !MeshesHave(perModel[q].perMesh, id)
      {
        var i, k, j := FindInMeshes(perModel[m].perMesh, id);
        if i < |perModel[m].perMesh| {
          loc := Found(m, i, k, j);
          return;
        }
        m := m + 1;
      }
      loc := NotFound;
    }

    /** `getObjectTransformID`: the matrix id of the first instance with the
        object id. */
    method GetObjectTransformID(id: nat) returns (found: bool, transformID: nat)
      ensures found <==> GroupHas(perModel, id)
      ensures found ==> exists loc :: FirstAt(perModel, loc, id) && InstanceAt(perModel, loc).modelToWorldID == transformID
    {
      var loc := GetObjectByID(id);
      found, transformID := false, 0;
      if loc.Found? {
        found, transformID := true, InstanceAt(perModel, loc).modelToWorldID;
      }
    }

    /** `removeObjectByID`: erases every instance with the id, recording
        each in `removedObject`; reports whether anything was removed. */
    method RemoveObjectByID(id: nat, removedObject: PerModel<M>) returns (found: bool, removedOut: PerModel<M>)
      modifies this
      ensures perModel == GroupWithout(old(perModel), id)
      ensures removedOut == Removed(removedObject, old(perModel), id)
      ensures found <==> GroupHas(old(perModel), id)
    {
      ghost var g := perModel;
      found, removedOut := false, removedObject;
      for m := 0 to |perModel|
        invariant |perModel| == |g|
        invariant forall q :: 0 <= q < |g| ==> perModel[q] == if q < m then ModelWithout(g[q], id) else g[q]
        invariant removedOut == Removed(removedObject, g[..m], id)
        invariant found <==> GroupEntries(g[..m], id) != []
      {
        assert g[..m + 1][..m] == g[..m];
        var pm, out, hit := RemoveFromMeshes(perModel[m], id, removedOut);
        perModel := perModel[m := pm];
        removedOut := out;
        found := found || hit;
      }
      assert g[..|g|] == g;
      GroupEntriesIffHas(g, id);
    }
  }
}
