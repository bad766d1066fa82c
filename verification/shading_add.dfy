// `ShadingGroup::add` in its two forms, on values
// (Engine/src/render/meshSystem/ShadingGroups/shadingGroup.h:64-164).
// The class in shading_group.dfy runs these helpers on its `perModel` field.

module ShadingAdd {
  import opened ShadingData

  // ---- add(model, material, instance)

  /** The position of the first `PerModel` for `model` (`std::find_if`),
      or `|g|` when there is none. */
  function FindModel<M>(g: seq<PerModel<M>>, model: ModelRef): (m: nat)
    ensures m <= |g| && (m < |g| ==> g[m].model == model)
    ensures forall j :: 0 <= j < m ==> g[j].model != model
  {
    if |g| == 0 then 0
    else if g[0].model == model then 0
    else 1 + FindModel(g[1..], model)
  }

  /** `n` meshes, each holding the same `PerMaterial` list. */
  function Meshes<M>(n: nat, mats: seq<PerMaterial<M>>): (r: seq<PerMesh<M>>)
    ensures |r| == n && forall i :: 0 <= i < n ==> r[i] == PerMesh(mats)
  {
    seq(n, _ => PerMesh(mats))
  }

  /** The group with a `PerModel` for `model`: unchanged when there is one,
      else with a new one holding an empty `PerMesh` per mesh of the model. */
  function WithModel<M>(g: seq<PerModel<M>>, model: ModelRef): seq<PerModel<M>>
    requires model.ModelRef?
  {
    if FindModel(g, model) < |g| then g
    else g + [PerModel(model, Meshes(model.meshCount, []))]
  }

  /** A `PerMaterial` after the matching loop: the instance appended when the
      material compares equal, else untouched. */
  function WithMatching<M(==)>(pm: PerMaterial<M>, material: M, inst: Instance): PerMaterial<M>
  {
    if pm.material == material then pm.(instances := pm.instances + [inst]) else pm
  }

  function Matched<M(==)>(mesh: PerMesh<M>, material: M, inst: Instance): PerMesh<M>
  {
    PerMesh(seq(|mesh.perMaterial|, k requires 0 <= k < |mesh.perMaterial| =>
      WithMatching(mesh.perMaterial[k], material, inst)))
  }

  /** What the matching loop records in the returned object for one mesh:
      one `{material, {instance}}` per matching entry. */
  function MatchLog<M(==)>(s: seq<PerMaterial<M>>, material: M, inst: Instance): (r: seq<PerMaterial<M>>)
    ensures forall t :: 0 <= t < |r| ==> r[t] == PerMaterial(material, [inst])
    ensures r != [] <==> exists k :: 0 <= k < |s| && s[k].material == material
  {
    if s == [] then []
    else
      var rest := MatchLog(s[..|s| - 1], material, inst);
      assert forall k :: 0 <= k < |s| - 1 ==> s[..|s| - 1][k] == s[k];
      rest + if s[|s| - 1].material == material then [PerMaterial(material, [inst])] else []
  }

  /** Some `PerMaterial` among the first `n` meshes has `material`. */
  predicate MatchBelow<M(==)>(meshes: seq<PerMesh<M>>, n: nat, material: M)
    requires n <= |meshes|
  {
    exists i, k :: 0 <= i < n && 0 <= k < |meshes[i].perMaterial| && meshes[i].perMaterial[k].material == material
  }

  predicate AnyMatch<M(==)>(meshes: seq<PerMesh<M>>, material: M)
  {
    MatchBelow(meshes, |meshes|, material)
  }

  /** A mesh given a fresh `PerMaterial` holding just the instance. */
  function WithNewMaterial<M>(mesh: PerMesh<M>, material: M, inst: Instance): PerMesh<M>
  {
    PerMesh(mesh.perMaterial + [PerMaterial(material, [inst])])
  }

  /** What `add` needs of its caller: a real model, and, when the model is
      already present and nothing matches, a `PerMesh` for each of its
      meshes (the fallback loop indexes them up to the model's mesh count). */
  predicate AddReady<M(==)>(g: seq<PerModel<M>>, model: ModelRef, material: M)
  {
    model.ModelRef? &&
    var m := FindModel(g, model);
    (m < |g| && !AnyMatch(g[m].perMesh, material) ==> model.meshCount <= |g[m].perMesh|)
  }

  /** The found `PerModel` after `add`. */
  function AddToModel<M(==)>(pm: PerModel<M>, material: M, inst: Instance): PerModel<M>
    requires pm.model.ModelRef?
    requires !AnyMatch(pm.perMesh, material) ==> pm.model.meshCount <= |pm.perMesh|
  {
    if AnyMatch(pm.perMesh, material) then
      PerModel(pm.model, seq(|pm.perMesh|, i requires 0 <= i < |pm.perMesh| => Matched(pm.perMesh[i], material, inst)))
    else
      PerModel(pm.model, seq(|pm.perMesh|, i requires 0 <= i < |pm.perMesh| =>
        if i < pm.model.meshCount then WithNewMaterial(pm.perMesh[i], material, inst) else pm.perMesh[i]))
  }

  /** The `PerModel` that `add` returns: what was added, mesh by mesh. */
  function AddedRecord<M(==)>(pm: PerModel<M>, material: M, inst: Instance): PerModel<M>
    requires pm.model.ModelRef?
  {
    if AnyMatch(pm.perMesh, material) then
      PerModel(pm.model, seq(|pm.perMesh|, i requires 0 <= i < |pm.perMesh| =>
        PerMesh(MatchLog(pm.perMesh[i].perMaterial, material, inst))))
    else
      PerModel(pm.model, seq(|pm.perMesh|, i requires 0 <= i < |pm.perMesh| =>
        if i < pm.model.meshCount then PerMesh([PerMaterial(material, [inst])]) else PerMesh([])))
  }

  /** The whole group after `add(model, material, instance)`. */
  function AddedGroup<M(==)>(g: seq<PerModel<M>>, model: ModelRef, material: M, inst: Instance): (r: seq<PerModel<M>>)
    requires AddReady(g, model, material)
  {
    var h := WithModel(g, model);
    var m := FindModel(g, model);
    assert m < |h| && h[m].model == model;
    h[m := AddToModel(h[m], material, inst)]
  }

  /** The matching loop over one mesh's materials
      (Engine/src/render/meshSystem/ShadingGroups/shadingGroup.h:88-97). */
  method AppendToMatching<M(==)>(mats: seq<PerMaterial<M>>, material: M, inst: Instance)
    returns (r: seq<PerMaterial<M>>, log: seq<PerMaterial<M>>, found: bool)
    ensures PerMesh(r) == Matched(PerMesh(mats), material, inst)
    ensures log == MatchLog(mats, material, inst)
    ensures found <==> exists k :: 0 <= k < |mats| && mats[k].material == material
  {
    r, log, found := mats, [], false;
    for k := 0 to |mats|
      invariant |r| == |mats|
      invariant forall j :: 0 <= j < k ==> r[j] == WithMatching(mats[j], material, inst)
      invariant forall j :: k <= j < |mats| ==> r[j] == mats[j]
      invariant log == MatchLog(mats[..k], material, inst)
      invariant found <==> exists j :: 0 <= j < k && mats[j].material == material
    {
      assert mats[..k + 1][..k] == mats[..k];
      if r[k].material == material {
        r := r[k := r[k].(instances := r[k].instances + [inst])];
        found := true;
        log := log + [PerMaterial(material, [inst])];
      }
    }
    assert mats[..|mats|] == mats;
  }

  /** The loop over the found model's meshes
      (Engine/src/render/meshSystem/ShadingGroups/shadingGroup.h:84-98). */
  method AddToMeshes<M(==)>(meshes: seq<PerMesh<M>>, material: M, inst: Instance)
    returns (r: seq<PerMesh<M>>, record: seq<PerMesh<M>>, found: bool)
    ensures |r| == |meshes| && |record| == |meshes|
    ensures forall i :: 0 <= i < |meshes| ==> r[i] == Matched(meshes[i], material, inst)
    ensures forall i :: 0 <= i < |meshes| ==> record[i] == PerMesh(MatchLog(meshes[i].perMaterial, material, inst))
    ensures found <==> AnyMatch(meshes, material)
  {
    r, record, found := meshes, [], false;
    for i := 0 to |meshes|
      invariant |r| == |meshes| && |record| == i
      invariant forall j :: 0 <= j < i ==> r[j] == Matched(meshes[j], material, inst)
      invariant forall j :: i <= j < |meshes| ==> r[j] == meshes[j]
      invariant forall j :: 0 <= j < i ==> record[j] == PerMesh(MatchLog(meshes[j].perMaterial, material, inst))
      invariant found <==> MatchBelow(meshes, i, material)
    {
      record := record + [PerMesh([])];
      var mats, log, hit := AppendToMatching(r[i].perMaterial, material, inst);
      r := r[i := PerMesh(mats)];
      record := record[i := PerMesh(log)];
      found := found || hit;
    }
  }

  /** The fallback when nothing matched: each of the model's meshes gets a
      copy of the material holding just the instance
      (Engine/src/render/meshSystem/ShadingGroups/shadingGroup.h:105-114). */
  method AddAsNewMaterial<M>(meshes: seq<PerMesh<M>>, record: seq<PerMesh<M>>, material: M, inst: Instance, count: nat)
    returns (r: seq<PerMesh<M>>, rec: seq<PerMesh<M>>)
    requires count <= |meshes| && count <= |record|
    ensures |r| == |meshes| && |rec| == |record|
    ensures forall i :: 0 <= i < |meshes| ==> r[i] == if i < count then WithNewMaterial(meshes[i], material, inst) else meshes[i]
    ensures forall i :: 0 <= i < |record| ==> rec[i] == if i < count then WithNewMaterial(record[i], material, inst) else record[i]
  {
    r, rec := meshes, record;
    for i := 0 to count
      invariant |r| == |meshes| && |rec| == |record|
      invariant forall j :: 0 <= j < |meshes| ==> r[j] == if j < i then WithNewMaterial(meshes[j], material, inst) else meshes[j]
      invariant forall j :: 0 <= j < |record| ==> rec[j] == if j < i then WithNewMaterial(record[j], material, inst) else record[j]
    {
      r := r[i := WithNewMaterial(r[i], material, inst)];
      rec := rec[i := WithNewMaterial(rec[i], material, inst)];
    }
  }

  /** Everything `add` does once the model's entry is found: the matching
      loop, and the fallback when nothing matched
      (Engine/src/render/meshSystem/ShadingGroups/shadingGroup.h:83-116). */
  method AddToFoundModel<M(==)>(pm: PerModel<M>, material: M, inst: Instance) returns (r: PerModel<M>, added: PerModel<M>)
    requires pm.model.ModelRef?
    requires !AnyMatch(pm.perMesh, material) ==> pm.model.meshCount <= |pm.perMesh|
    ensures r == AddToModel(pm, material, inst)
    ensures added == AddedRecord(pm, material, inst)
  {
    var meshes, record, any := AddToMeshes(pm.perMesh, material, inst);
    if any {
      r, added := PerModel(pm.model, meshes), PerModel(pm.model, record);
      assert meshes == AddToModel(pm, material, inst).perMesh;
      assert record == AddedRecord(pm, material, inst).perMesh;
      return;
    }
    forall i | 0 <= i < |pm.perMesh|
      ensures meshes[i] == pm.perMesh[i] && record[i] == PerMesh([])
    {
      NoMatchLeavesMesh(pm.perMesh[i], material, inst);
    }
    meshes, record := AddAsNewMaterial(meshes, record, material, inst, pm.model.meshCount);
    r, added := PerModel(pm.model, meshes), PerModel(pm.model, record);
    assert meshes == AddToModel(pm, material, inst).perMesh;
    assert [] + [PerMaterial(material, [inst])] == [PerMaterial(material, [inst])];
    assert record == AddedRecord(pm, material, inst).perMesh;
  }

  // ---- Properties of add(model, material, instance)

  /** With no matching material, the matching loop changes nothing. */
  lemma {:induction false} NoMatchLeavesMesh<M>(mesh: PerMesh<M>, material: M, inst: Instance)
    requires forall k :: 0 <= k < |mesh.perMaterial| ==> mesh.perMaterial[k].material != material
    ensures Matched(mesh, material, inst) == mesh
  {
    assert Matched(mesh, material, inst).perMaterial == mesh.perMaterial;
  }

  /** A model not yet in the group gets exactly one new `PerModel`, at the
      end, with one `PerMesh` per model mesh, each holding one new
      `PerMaterial` with just the instance; the rest is untouched. */
  lemma {:induction false} AddUnknownModel<M>(g: seq<PerModel<M>>, model: ModelRef, material: M, inst: Instance)
    requires model.ModelRef? && FindModel(g, model) == |g|
    ensures AddReady(g, model, material)
    ensures AddedGroup(g, model, material, inst)
         == g + [PerModel(model, Meshes(model.meshCount, [PerMaterial(material, [inst])]))]
  {
    var created := PerModel(model, Meshes(model.meshCount, []));
    assert !AnyMatch(created.perMesh, material);
    var after := AddToModel(created, material, inst).perMesh;
    assert |after| == model.meshCount;
    assert forall i :: 0 <= i < |after| ==> after[i] == WithNewMaterial(PerMesh([]), material, inst);
    assert [] + [PerMaterial(material, [inst])] == [PerMaterial(material, [inst])];
    assert after == Meshes(model.meshCount, [PerMaterial(material, [inst])]);
  }

  /** `add` is append-only: no model moves, no mesh appears or disappears
      on an existing model, and every existing instance list is a prefix of
      its new value. */
  lemma {:induction false} AddGrows<M>(g: seq<PerModel<M>>, model: ModelRef, material: M, inst: Instance)
    requires AddReady(g, model, material)
    ensures GroupGrows(g, AddedGroup(g, model, material, inst))
  {
    var h := WithModel(g, model);
    var m := FindModel(g, model);
    var r := AddedGroup(g, model, material, inst);
    forall n | 0 <= n < |g|
      ensures ModelGrows(g[n], r[n])
    {
      if n == m {
        var a, b := g[m], r[m];
        forall i | 0 <= i < |a.perMesh|
          ensures MeshGrows(a.perMesh[i], b.perMesh[i])
        {
          var x, y := a.perMesh[i], b.perMesh[i];
          forall k | 0 <= k < |x.perMaterial|
            ensures MaterialGrows(x.perMaterial[k], y.perMaterial[k])
          {
            if AnyMatch(a.perMesh, material) {
              assert y == Matched(x, material, inst);
            } else if i < model.meshCount {
              assert y == WithNewMaterial(x, material, inst);
            }
          }
        }
      }
    }
  }

  /** The instance ends up stored, and so found by its object id, exactly
      when some material of the model matched or the model has a mesh: a
      model with no meshes and no matching material drops the instance. */
  lemma {:induction false} AddStores<M>(g: seq<PerModel<M>>, model: ModelRef, material: M, inst: Instance)
    requires AddReady(g, model, material)
    requires AnyMatch(WithModel(g, model)[FindModel(g, model)].perMesh, material) || model.meshCount > 0
    ensures GroupHas(AddedGroup(g, model, material, inst), inst.objectID)
  {
    var h := WithModel(g, model);
    var m := FindModel(g, model);
    var r := AddedGroup(g, model, material, inst);
    var id := inst.objectID;
    if AnyMatch(h[m].perMesh, material) {
      var i, k :| 0 <= i < |h[m].perMesh| && 0 <= k < |h[m].perMesh[i].perMaterial|
               && h[m].perMesh[i].perMaterial[k].material == material;
      var s := r[m].perMesh[i].perMaterial[k].instances;
      assert s == h[m].perMesh[i].perMaterial[k].instances + [inst];
      assert s[|s| - 1].objectID == id;
      assert MaterialsHave(r[m].perMesh[i].perMaterial, id);
      assert MeshesHave(r[m].perMesh, id);
    } else {
      var mats := r[m].perMesh[0].perMaterial;
      assert mats == h[m].perMesh[0].perMaterial + [PerMaterial(material, [inst])];
      assert mats[|mats| - 1].instances[0].objectID == id;
      assert InstancesHave(mats[|mats| - 1].instances, id);
      assert MaterialsHave(mats, id);
      assert MeshesHave(r[m].perMesh, id);
    }
  }

  /** The other direction: with no matching material and no mesh, the
      group only gains the empty `PerModel` (when the model was new). */
  lemma {:induction false} AddDropsWithoutMeshes<M>(g: seq<PerModel<M>>, model: ModelRef, material: M, inst: Instance)
    requires AddReady(g, model, material)
    requires !AnyMatch(WithModel(g, model)[FindModel(g, model)].perMesh, material) && model.meshCount == 0
    ensures AddedGroup(g, model, material, inst) == WithModel(g, model)
  {
    var h := WithModel(g, model);
    var m := FindModel(g, model);
    assert AddToModel(h[m], material, inst).perMesh == h[m].perMesh;
  }

  /** The returned object: one entry per matching `PerMaterial` of each
      mesh when something matched, else one fresh entry per model mesh. */
  lemma {:induction false} AddedRecordShape<M>(pm: PerModel<M>, material: M, inst: Instance, i: nat)
    requires pm.model.ModelRef? && i < |pm.perMesh|
    ensures var rec := AddedRecord(pm, material, inst).perMesh[i].perMaterial;
      (forall t :: 0 <= t < |rec| ==> rec[t] == PerMaterial(material, [inst])) &&
      (AnyMatch(pm.perMesh, material) ==>
        (rec != [] <==> exists k :: 0 <= k < |pm.perMesh[i].perMaterial| && pm.perMesh[i].perMaterial[k].material == material)) &&
      (!AnyMatch(pm.perMesh, material) ==> |rec| == if i < pm.model.meshCount then 1 else 0)
  {
  }

  /** An instance list that grew by `extra` holds old ids and ids of
      `extra`, nothing else. */
  lemma {:induction false} AppendedHas(s: seq<Instance>, extra: seq<Instance>, id: nat)
    requires InstancesHave(s + extra, id)
    ensures InstancesHave(s, id) || InstancesHave(extra, id)
  {
    var t := s + extra;
    var j :| 0 <= j < |t| && t[j].objectID == id;
    if j < |s| {
      assert s[j] == t[j];
    } else {
      assert extra[j - |s|] == t[j];
    }
  }

  lemma {:induction false} MatchedOnlyAdds<M>(mesh: PerMesh<M>, material: M, inst: Instance, id: nat)
    requires MaterialsHave(Matched(mesh, material, inst).perMaterial, id)
    ensures MaterialsHave(mesh.perMaterial, id) || id == inst.objectID
  {
    var r := Matched(mesh, material, inst).perMaterial;
    var k :| 0 <= k < |r| && InstancesHave(r[k].instances, id);
    var pm := mesh.perMaterial[k];
    if pm.material == material {
      AppendedHas(pm.instances, [inst], id);
    }
    if InstancesHave(pm.instances, id) {
      assert MaterialsHave(mesh.perMaterial, id);
    }
  }

  lemma {:induction false} NewMaterialOnlyAdds<M>(mesh: PerMesh<M>, material: M, inst: Instance, id: nat)
    requires MaterialsHave(WithNewMaterial(mesh, material, inst).perMaterial, id)
    ensures MaterialsHave(mesh.perMaterial, id) || id == inst.objectID
  {
    var r := WithNewMaterial(mesh, material, inst).perMaterial;
    var k :| 0 <= k < |r| && InstancesHave(r[k].instances, id);
    if k < |mesh.perMaterial| {
      assert r[k] == mesh.perMaterial[k];
    }
  }

  lemma {:induction false} ModelAddOnlyAdds<M>(pm: PerModel<M>, material: M, inst: Instance, id: nat)
    requires pm.model.ModelRef?
    requires !AnyMatch(pm.perMesh, material) ==> pm.model.meshCount <= |pm.perMesh|
    requires MeshesHave(AddToModel(pm, material, inst).perMesh, id)
    ensures MeshesHave(pm.perMesh, id) || id == inst.objectID
  {
    var r := AddToModel(pm, material, inst).perMesh;
    var i :| 0 <= i < |r| && MaterialsHave(r[i].perMaterial, id);
    if AnyMatch(pm.perMesh, material) {
      MatchedOnlyAdds(pm.perMesh[i], material, inst, id);
    } else if i < pm.model.meshCount {
      NewMaterialOnlyAdds(pm.perMesh[i], material, inst, id);
    }
    if MaterialsHave(pm.perMesh[i].perMaterial, id) {
      assert MeshesHave(pm.perMesh, id);
    }
  }

  /** Making room for a model adds no instance. */
  lemma {:induction false} WithModelHas<M>(g: seq<PerModel<M>>, model: ModelRef, id: nat)
    requires model.ModelRef?
    ensures GroupHas(WithModel(g, model), id) <==> GroupHas(g, id)
  {
    var h := WithModel(g, model);
    if |h| > |g| {
      assert h[|g|].perMesh == Meshes(model.meshCount, []);
      assert !MeshesHave(h[|g|].perMesh, id);
    }
    if GroupHas(h, id) {
      var m :| 0 <= m < |h| && MeshesHave(h[m].perMesh, id);
      assert h[m] == g[m];
    }
    if GroupHas(g, id) {
      var m :| 0 <= m < |g| && MeshesHave(g[m].perMesh, id);
      assert h[m] == g[m];
    }
  }

  /** `add` brings in no other id: every id of the new group was in the old
      one or is the added instance's. */
  lemma {:induction false} AddOnlyAddsInstance<M>(g: seq<PerModel<M>>, model: ModelRef, material: M, inst: Instance, id: nat)
    requires AddReady(g, model, material)
    requires GroupHas(AddedGroup(g, model, material, inst), id)
    ensures GroupHas(g, id) || id == inst.objectID
  {
    var h := WithModel(g, model);
    var m := FindModel(g, model);
    var r := AddedGroup(g, model, material, inst);
    assert m < |h| && h[m].model == model;
    var n :| 0 <= n < |r| && MeshesHave(r[n].perMesh, id);
    if n == m {
      ModelAddOnlyAdds(h[m], material, inst, id);
    } else {
      assert r[n] == h[n];
    }
    if MeshesHave(h[n].perMesh, id) {
      assert GroupHas(h, id);
      WithModelHas(g, model, id);
    }
  }

  // ---- add(PerModel&)

  /** What `add(PerModel&)` needs of its caller for each `PerModel` with the
      same model: the incoming object has a `PerMesh` for each of its
      meshes, with a first `PerMaterial` wherever the mesh has materials to
      compare against (`objectToAdd.perMesh[meshIndex]`,
      `perMaterial.front()`). */
  predicate MergeReady<M>(pm: PerModel<M>, obj: PerModel<M>)
  {
    |pm.perMesh| <= |obj.perMesh| &&
    forall i :: 0 <= i < |pm.perMesh| && pm.perMesh[i].perMaterial != [] ==> obj.perMesh[i].perMaterial != []
  }

  predicate AddPerModelReady<M>(g: seq<PerModel<M>>, obj: PerModel<M>)
  {
    forall m :: 0 <= m < |g| && g[m].model == obj.model ==> MergeReady(g[m], obj)
  }

  /** The materials of a mesh after the first incoming `PerMaterial`
      passed its instances to every material that compares equal. */
  function PassedFront<M(==)>(mats: seq<PerMaterial<M>>, front: PerMaterial<M>): seq<PerMaterial<M>>
  {
    seq(|mats|, k requires 0 <= k < |mats| =>
      if mats[k].material == front.material
      then mats[k].(instances := mats[k].instances + front.instances)
      else mats[k])
  }

  /** One mesh after the merge: the incoming mesh's first `PerMaterial`
      passes its instances to every material that compares equal; if that
      added no instance, all incoming `PerMaterial`s are appended. */
  function MergeMesh<M(==)>(mesh: PerMesh<M>, incoming: PerMesh<M>): PerMesh<M>
    requires mesh.perMaterial != [] ==> incoming.perMaterial != []
  {
    if mesh.perMaterial == [] then PerMesh(incoming.perMaterial)
    else
      var front := incoming.perMaterial[0];
      if front.instances != [] && exists k :: 0 <= k < |mesh.perMaterial| && mesh.perMaterial[k].material == front.material
      then PerMesh(PassedFront(mesh.perMaterial, front))
      else PerMesh(PassedFront(mesh.perMaterial, front) + incoming.perMaterial)
  }

  function MergeModel<M(==)>(pm: PerModel<M>, obj: PerModel<M>): PerModel<M>
    requires MergeReady(pm, obj)
  {
    PerModel(pm.model, seq(|pm.perMesh|, i requires 0 <= i < |pm.perMesh| => MergeMesh(pm.perMesh[i], obj.perMesh[i])))
  }

  /** The group after `add(PerModel&)`: every `PerModel` with the same
      model is merged with the object; with none, the object is appended
      whole. */
  function MergedGroup<M(==)>(g: seq<PerModel<M>>, obj: PerModel<M>): seq<PerModel<M>>
    requires AddPerModelReady(g, obj)
  {
    if exists m :: 0 <= m < |g| && g[m].model == obj.model then
      seq(|g|, m requires 0 <= m < |g| => if g[m].model == obj.model then MergeModel(g[m], obj) else g[m])
    else g + [obj]
  }

  // ---- Properties of add(PerModel&)

  /** A merged mesh keeps every old `PerMaterial` in place, each with its
      old instances as a prefix. */
  lemma {:induction false} MergeMeshGrows<M>(mesh: PerMesh<M>, incoming: PerMesh<M>)
    requires mesh.perMaterial != [] ==> incoming.perMaterial != []
    ensures MeshGrows(mesh, MergeMesh(mesh, incoming))
  {
    if mesh.perMaterial != [] {
      var front := incoming.perMaterial[0];
      var passed := PassedFront(mesh.perMaterial, front);
      var r := MergeMesh(mesh, incoming).perMaterial;
      forall k | 0 <= k < |mesh.perMaterial|
        ensures MaterialGrows(mesh.perMaterial[k], r[k])
      {
        assert r[k] == passed[k];
      }
    }
  }

  /** `add(PerModel&)` is append-only. */
  lemma {:induction false} MergeGrows<M>(g: seq<PerModel<M>>, obj: PerModel<M>)
    requires AddPerModelReady(g, obj)
    ensures GroupGrows(g, MergedGroup(g, obj))
  {
    var r := MergedGroup(g, obj);
    forall m | 0 <= m < |g|
      ensures ModelGrows(g[m], r[m])
    {
      if g[m].model == obj.model {
        forall i | 0 <= i < |g[m].perMesh|
          ensures MeshGrows(g[m].perMesh[i], r[m].perMesh[i])
        {
          MergeMeshGrows(g[m].perMesh[i], obj.perMesh[i]);
        }
      }
    }
  }

  /** With no `PerModel` for its model in the group, the object is appended
      whole: afterwards an id is present exactly when it was present before
      or in the object. */
  lemma {:induction false} MergeNewModel<M>(g: seq<PerModel<M>>, obj: PerModel<M>, id: nat)
    requires forall m :: 0 <= m < |g| ==> g[m].model != obj.model
    ensures AddPerModelReady(g, obj)
    ensures MergedGroup(g, obj) == g + [obj]
    ensures GroupHas(g + [obj], id) <==> GroupHas(g, id) || MeshesHave(obj.perMesh, id)
  {
    var r := g + [obj];
    if GroupHas(r, id) {
      var m :| 0 <= m < |r| && MeshesHave(r[m].perMesh, id);
      if m < |g| {
        assert MeshesHave(g[m].perMesh, id);
      }
    }
    if GroupHas(g, id) {
      var m :| 0 <= m < |g| && MeshesHave(g[m].perMesh, id);
      assert r[m] == g[m];
    }
    if MeshesHave(obj.perMesh, id) {
      assert r[|g|] == obj;
    }
  }

  lemma {:induction false} MergeMeshOnlyAdds<M>(mesh: PerMesh<M>, incoming: PerMesh<M>, id: nat)
    requires mesh.perMaterial != [] ==> incoming.perMaterial != []
    requires MaterialsHave(MergeMesh(mesh, incoming).perMaterial, id)
    ensures MaterialsHave(mesh.perMaterial, id) || MaterialsHave(incoming.perMaterial, id)
  {
    if mesh.perMaterial != [] {
      var front := incoming.perMaterial[0];
      var passed := PassedFront(mesh.perMaterial, front);
      var r := MergeMesh(mesh, incoming).perMaterial;
      var k :| 0 <= k < |r| && InstancesHave(r[k].instances, id);
      if k < |passed| {
        assert r[k] == passed[k];
        var pm := mesh.perMaterial[k];
        if pm.material == front.material {
          AppendedHas(pm.instances, front.instances, id);
          if InstancesHave(front.instances, id) {
            assert MaterialsHave(incoming.perMaterial, id);
          }
        }
        if InstancesHave(pm.instances, id) {
          assert MaterialsHave(mesh.perMaterial, id);
        }
      } else {
        assert r[k] == incoming.perMaterial[k - |passed|];
      }
    }
  }

  /** `add(PerModel&)` brings in no id the object does not carry. */
  lemma {:induction false} MergeOnlyAddsObject<M>(g: seq<PerModel<M>>, obj: PerModel<M>, id: nat)
    requires AddPerModelReady(g, obj)
    requires GroupHas(MergedGroup(g, obj), id)
    ensures GroupHas(g, id) || MeshesHave(obj.perMesh, id)
  {
    var r := MergedGroup(g, obj);
    var n :| 0 <= n < |r| && MeshesHave(r[n].perMesh, id);
    if n < |g| && g[n].model == obj.model {
      assert r[n] == MergeModel(g[n], obj);
      var i :| 0 <= i < |r[n].perMesh| && MaterialsHave(r[n].perMesh[i].perMaterial, id);
      MergeMeshOnlyAdds(g[n].perMesh[i], obj.perMesh[i], id);
      if MaterialsHave(g[n].perMesh[i].perMaterial, id) {
        assert MeshesHave(g[n].perMesh, id);
      }
    } else if n < |g| {
      assert r[n] == g[n];
    } else {
      assert r[n] == obj;
    }
  }

  /** Into an existing `PerModel`, every instance of the first incoming
      `PerMaterial` of each mesh the model has ends up in the group. */
  lemma {:induction false} MergeStoresFront<M>(g: seq<PerModel<M>>, obj: PerModel<M>, m: nat, i: nat, j: nat)
    requires AddPerModelReady(g, obj)
    requires m < |g| && g[m].model == obj.model && i < |g[m].perMesh|
    requires obj.perMesh[i].perMaterial != [] && j < |obj.perMesh[i].perMaterial[0].instances|
    ensures GroupHas(MergedGroup(g, obj), obj.perMesh[i].perMaterial[0].instances[j].objectID)
  {
    var r := MergedGroup(g, obj);
    var mesh, incoming := g[m].perMesh[i], obj.perMesh[i];
    var front := incoming.perMaterial[0];
    var id := front.instances[j].objectID;
    var merged := r[m].perMesh[i];
    assert merged == MergeMesh(mesh, incoming);
    var k: nat, s: seq<Instance>;
    if mesh.perMaterial == [] {
      k, s := 0, front.instances;
      assert merged.perMaterial[k].instances == s;
    } else if front.instances != [] && exists k :: 0 <= k < |mesh.perMaterial| && mesh.perMaterial[k].material == front.material {
      var q :| 0 <= q < |mesh.perMaterial| && mesh.perMaterial[q].material == front.material;
      k, s := q, mesh.perMaterial[q].instances + front.instances;
      assert merged.perMaterial[k] == PassedFront(mesh.perMaterial, front)[k];
      assert s[|mesh.perMaterial[q].instances| + j] == front.instances[j];
    } else {
      k, s := |mesh.perMaterial|, front.instances;
      assert merged.perMaterial == PassedFront(mesh.perMaterial, front) + incoming.perMaterial;
    }
    assert merged.perMaterial[k].instances == s && InstancesHave(s, id);
    assert MaterialsHave(merged.perMaterial, id);
    assert MeshesHave(r[m].perMesh, id);
  }

  /** The instance loop for one matching material
      (Engine/src/render/meshSystem/ShadingGroups/shadingGroup.h:141-145). */
  method PushInstances(instances: seq<Instance>, incoming: seq<Instance>) returns (r: seq<Instance>, pushed: bool)
    ensures r == instances + incoming
    ensures pushed <==> incoming != []
  {
    r, pushed := instances, false;
    for t := 0 to |incoming|
      invariant r == instances + incoming[..t]
      invariant pushed <==> t > 0
    {
      r := r + [incoming[t]];
      pushed := true;
    }
    assert incoming[..|incoming|] == incoming;
  }

  /** The loop over one mesh's materials, comparing each with the first
      incoming `PerMaterial`
      (Engine/src/render/meshSystem/ShadingGroups/shadingGroup.h:134-147). */
  method PassFront<M(==)>(mats: seq<PerMaterial<M>>, front: PerMaterial<M>) returns (r: seq<PerMaterial<M>>, added: bool)
    ensures r == PassedFront(mats, front)
    ensures added <==> front.instances != [] && exists k :: 0 <= k < |mats| && mats[k].material == front.material
  {
    r, added := mats, false;
    for k := 0 to |mats|
      invariant |r| == |mats|
      invariant forall j :: 0 <= j < k ==> r[j] == PassedFront(mats, front)[j]
      invariant forall j :: k <= j < |mats| ==> r[j] == mats[j]
      invariant added <==> front.instances != [] && exists j :: 0 <= j < k && mats[j].material == front.material
    {
      if r[k].material == front.material {
        var instances, pushed := PushInstances(r[k].instances, front.instances);
        r := r[k := r[k].(instances := instances)];
        added := added || pushed;
      }
    }
  }

  /** One mesh of `add(PerModel&)`
      (Engine/src/render/meshSystem/ShadingGroups/shadingGroup.h:130-155). */
  method MergeMeshes<M(==)>(mesh: PerMesh<M>, incoming: PerMesh<M>) returns (r: PerMesh<M>)
    requires mesh.perMaterial != [] ==> incoming.perMaterial != []
    ensures r == MergeMesh(mesh, incoming)
  {
    var mats := mesh.perMaterial;
    var added := false;
    if mats != [] {
      mats, added := PassFront(mats, incoming.perMaterial[0]);
    }
    if !added {
      var base := mats;
      for p := 0 to |incoming.perMaterial|
        invariant mats == base + incoming.perMaterial[..p]
      {
        mats := mats + [incoming.perMaterial[p]];
      }
      assert incoming.perMaterial[..|incoming.perMaterial|] == incoming.perMaterial;
    }
    r := PerMesh(mats);
  }

  /** The loop over the meshes of a `PerModel` with the same model
      (Engine/src/render/meshSystem/ShadingGroups/shadingGroup.h:128-156). */
  method MergeInto<M(==)>(pm: PerModel<M>, obj: PerModel<M>) returns (r: PerModel<M>)
    requires MergeReady(pm, obj)
    ensures r == MergeModel(pm, obj)
  {
    var meshes := pm.perMesh;
    for meshIndex := 0 to |meshes|
      invariant |meshes| == |pm.perMesh|
      invariant forall q :: 0 <= q < |meshes| ==>
        meshes[q] == if q < meshIndex then MergeMesh(pm.perMesh[q], obj.perMesh[q]) else pm.perMesh[q]
    {
      var mesh := MergeMeshes(meshes[meshIndex], obj.perMesh[meshIndex]);
      meshes := meshes[meshIndex := mesh];
    }
    r := PerModel(pm.model, meshes);
  }
}
