// Lookup and removal by object id in a shading group, on values
// (Engine/src/render/meshSystem/ShadingGroups/litInstances.cpp:13-104).
// The class in shading_group.dfy runs these helpers on its `perModel` field.

module LitInstances {
  import opened ShadingData

  // ---- Lookup

  /** A place in the group: indices of model, mesh, material and instance. */
  datatype Location = NotFound | Found(model: nat, mesh: nat, material: nat, instance: nat)

  /** The instance at `loc` exists and carries `id`. */
  predicate IsAt<M>(g: seq<PerModel<M>>, loc: Location, id: nat)
  {
    loc.Found? && loc.model < |g| && loc.mesh < |g[loc.model].perMesh| &&
    loc.material < |g[loc.model].perMesh[loc.mesh].perMaterial| &&
    loc.instance < |g[loc.model].perMesh[loc.mesh].perMaterial[loc.material].instances| &&
    g[loc.model].perMesh[loc.mesh].perMaterial[loc.material].instances[loc.instance].objectID == id
  }

  /** `loc` is the first place, in model, then mesh, then material, then
      instance order, where `id` occurs. */
  predicate FirstAt<M>(g: seq<PerModel<M>>, loc: Location, id: nat)
  {
    IsAt(g, loc, id) &&
    (forall m :: 0 <= m < loc.model ==> !MeshesHave(g[m].perMesh, id)) &&
    (forall i :: 0 <= i < loc.mesh ==> !MaterialsHave(g[loc.model].perMesh[i].perMaterial, id)) &&
    (forall k :: 0 <= k < loc.material ==> !InstancesHave(g[loc.model].perMesh[loc.mesh].perMaterial[k].instances, id)) &&
    (forall j :: 0 <= j < loc.instance ==> g[loc.model].perMesh[loc.mesh].perMaterial[loc.material].instances[j].objectID != id)
  }

  /** The innermost search loop: the first instance with `id`, or `|s|`. */
  method FindInInstances(s: seq<Instance>, id: nat) returns (j: nat)
    ensures j <= |s| && (j < |s| ==> s[j].objectID == id)
    ensures forall q :: 0 <= q < j ==> s[q].objectID != id
  {
    j := 0;
    while j < |s| && s[j].objectID != id
      invariant j <= |s| && forall q :: 0 <= q < j ==> s[q].objectID != id
    {
      j := j + 1;
    }
  }

  /** The search over one mesh's materials: the first material holding
      `id` and the instance's position in it; `k == |mats|` when none. */
  method FindInMaterials<M>(mats: seq<PerMaterial<M>>, id: nat) returns (k: nat, j: nat)
    ensures k <= |mats| && forall q :: 0 <= q < k ==> !InstancesHave(mats[q].instances, id)
    ensures k < |mats| ==>
      (j < |mats[k].instances| && mats[k].instances[j].objectID == id &&
       forall q :: 0 <= q < j ==> mats[k].instances[q].objectID != id)
    ensures k == |mats| <==> !MaterialsHave(mats, id)
  {
    k, j := 0, 0;
    while k < |mats|
      invariant k <= |mats| && forall q :: 0 <= q < k ==> !InstancesHave(mats[q].instances, id)
    {
      j := FindInInstances(mats[k].instances, id);
      if j < |mats[k].instances| {
        return;
      }
      k := k + 1;
    }
  }

  /** The search over one model's meshes. */
  method FindInMeshes<M>(meshes: seq<PerMesh<M>>, id: nat) returns (i: nat, k: nat, j: nat)
    ensures i <= |meshes| && forall q :: 0 <= q < i ==> !MaterialsHave(meshes[q].perMaterial, id)
    ensures i < |meshes| ==>
      var mats := meshes[i].perMaterial;
      k < |mats| && (forall q :: 0 <= q < k ==> !InstancesHave(mats[q].instances, id)) &&
      j < |mats[k].instances| && mats[k].instances[j].objectID == id &&
      forall q :: 0 <= q < j ==> mats[k].instances[q].objectID != id
    ensures i == |meshes| <==> !MeshesHave(meshes, id)
  {
    i, k, j := 0, 0, 0;
    while i < |meshes|
      invariant i <= |meshes| && forall q :: 0 <= q < i ==> !MaterialsHave(meshes[q].perMaterial, id)
    {
      k, j := FindInMaterials(meshes[i].perMaterial, id);
      if k < |meshes[i].perMaterial| {
        return;
      }
      i := i + 1;
    }
  }

  // ---- Removal

  /** The instances that survive `removeObjectByID`, in their old order. */
  function Keep(s: seq<Instance>, id: nat): (r: seq<Instance>)
    ensures |r| <= |s| && !InstancesHave(r, id)
  {
    if s == [] then []
    else
      var rest := Keep(s[1..], id);
      assert forall j :: 0 <= j < |rest| ==> rest[j].objectID != id;
      (if s[0].objectID == id then [] else [s[0]]) + rest
  }

  /** The instances removed, in the order the backward loop meets them. */
  function Taken(s: seq<Instance>, id: nat): (r: seq<Instance>)
    ensures forall t :: 0 <= t < |r| ==> r[t].objectID == id
  {
    if s == [] then []
    else Taken(s[1..], id) + if s[0].objectID == id then [s[0]] else []
  }

  /** The record of one removed instance: a `PerMesh` holding one
      `PerMaterial` with the material it was found under. */
  function Entry<M>(material: M, inst: Instance): PerMesh<M>
  {
    PerMesh([PerMaterial(material, [inst])])
  }

  function Entries<M>(material: M, insts: seq<Instance>): (r: seq<PerMesh<M>>)
    ensures |r| == |insts| && forall t :: 0 <= t < |r| ==> r[t] == Entry(material, insts[t])
  {
    seq(|insts|, t requires 0 <= t < |insts| => Entry(material, insts[t]))
  }

  /** `removedObject` after records `entries` of instances found under
      `model` were pushed: its model is set from the first of them, and only
      if it held no `PerMesh` yet. */
  function Stamp<M>(r: PerModel<M>, model: ModelRef, entries: seq<PerMesh<M>>): PerModel<M>
  {
    if r.perMesh == [] && entries != [] then PerModel(model, entries)
    else PerModel(r.model, r.perMesh + entries)
  }

  function MaterialWithout<M>(pm: PerMaterial<M>, id: nat): PerMaterial<M>
  {
    PerMaterial(pm.material, Keep(pm.instances, id))
  }

  function MeshWithout<M>(mesh: PerMesh<M>, id: nat): PerMesh<M>
  {
    PerMesh(seq(|mesh.perMaterial|, k requires 0 <= k < |mesh.perMaterial| => MaterialWithout(mesh.perMaterial[k], id)))
  }

  function ModelWithout<M>(pm: PerModel<M>, id: nat): PerModel<M>
  {
    PerModel(pm.model, seq(|pm.perMesh|, i requires 0 <= i < |pm.perMesh| => MeshWithout(pm.perMesh[i], id)))
  }

  /** The group after `removeObjectByID(id)`. */
  function GroupWithout<M>(g: seq<PerModel<M>>, id: nat): seq<PerModel<M>>
  {
    seq(|g|, m requires 0 <= m < |g| => ModelWithout(g[m], id))
  }

  /** The records pushed for one mesh's materials, in loop order. */
  function MeshEntries<M>(mats: seq<PerMaterial<M>>, id: nat): seq<PerMesh<M>>
  {
    if mats == [] then []
    else
      var last := mats[|mats| - 1];
      MeshEntries(mats[..|mats| - 1], id) + Entries(last.material, Taken(last.instances, id))
  }

  function ModelEntries<M>(meshes: seq<PerMesh<M>>, id: nat): seq<PerMesh<M>>
  {
    if meshes == [] then []
    else ModelEntries(meshes[..|meshes| - 1], id) + MeshEntries(meshes[|meshes| - 1].perMaterial, id)
  }

  function GroupEntries<M>(g: seq<PerModel<M>>, id: nat): seq<PerMesh<M>>
  {
    if g == [] then []
    else GroupEntries(g[..|g| - 1], id) + ModelEntries(g[|g| - 1].perMesh, id)
  }

  /** `removedObject` after `removeObjectByID(id)` over the whole group. */
  function Removed<M>(r: PerModel<M>, g: seq<PerModel<M>>, id: nat): PerModel<M>
  {
    if g == [] then r
    else Stamp(Removed(r, g[..|g| - 1], id), g[|g| - 1].model, ModelEntries(g[|g| - 1].perMesh, id))
  }

  /** Pushing two batches of records found under one model is pushing them
      together. */
  lemma {:induction false} StampAppend<M>(r: PerModel<M>, model: ModelRef, a: seq<PerMesh<M>>, b: seq<PerMesh<M>>)
    ensures Stamp(Stamp(r, model, a), model, b) == Stamp(r, model, a + b)
  {
    if r.perMesh == [] && a == [] {
      assert a + b == b && r.perMesh + a == r.perMesh;
    } else if r.perMesh == [] {
      assert a + b != [];
    } else {
      assert r.perMesh + a + b == r.perMesh + (a + b);
    }
  }

  /** Pushing one record onto `removedObject`: the model is taken over only
      while no record is held
      (Engine/src/render/meshSystem/ShadingGroups/litInstances.cpp:80-91). */
  method PushRecord<M>(r: PerModel<M>, model: ModelRef, entry: PerMesh<M>) returns (r': PerModel<M>)
    ensures r' == Stamp(r, model, [entry])
    ensures r'.perMesh == r.perMesh + [entry] && r'.model == (if r.perMesh == [] then model else r.model)
  {
    r' := r;
    if r'.perMesh == [] {
      r' := r'.(model := model);
    }
    r' := r'.(perMesh := r'.perMesh + [entry]);
  }

  /** Pushing one more record after those of `taken`. */
  lemma StampEntry<M>(r: PerModel<M>, model: ModelRef, material: M, taken: seq<Instance>, inst: Instance)
    ensures Stamp(Stamp(r, model, Entries(material, taken)), model, [Entry(material, inst)])
         == Stamp(r, model, Entries(material, taken + [inst]))
  {
    StampAppend(r, model, Entries(material, taken), [Entry(material, inst)]);
    assert Entries(material, taken + [inst]) == Entries(material, taken) + [Entry(material, inst)];
  }

  /** One step of the backward loop: what `Keep` and `Taken` do with the
      instance at `i`. */
  lemma KeepTakeStep(s: seq<Instance>, i: nat, id: nat)
    requires i < |s|
    ensures Keep(s[i..], id) == (if s[i].objectID == id then [] else [s[i]]) + Keep(s[i + 1..], id)
    ensures Taken(s[i..], id) == Taken(s[i + 1..], id) + (if s[i].objectID == id then [s[i]] else [])
  {
    assert s[i..][1..] == s[i + 1..];
  }

  /** Erasing position `i` of `s[..i + 1] + k`. */
  lemma CutAt<X>(s: seq<X>, i: nat, k: seq<X>)
    requires i < |s|
    ensures (s[..i + 1] + k)[i] == s[i]
    ensures (s[..i + 1] + k)[..i] + (s[..i + 1] + k)[i + 1..] == s[..i] + k
    ensures s[..i + 1] + k == s[..i] + ([s[i]] + k)
  {
    var t := s[..i + 1] + k;
    assert t[..i] == s[..i] && t[i + 1..] == k;
  }

  /** The backward loop over one material's instances
      (Engine/src/render/meshSystem/ShadingGroups/litInstances.cpp:76-98). */
  method RemoveFromInstances<M>(pm: PerMaterial<M>, model: ModelRef, id: nat, removed: PerModel<M>)
    returns (r: PerMaterial<M>, removedOut: PerModel<M>, hit: bool)
    ensures r == MaterialWithout(pm, id)
    ensures removedOut == Stamp(removed, model, Entries(pm.material, Taken(pm.instances, id)))
    ensures hit <==> Taken(pm.instances, id) != []
  {
    hit := false;
    var s := pm.instances;
    var instances := s;
    removedOut := removed;
    assert removedOut.perMesh + [] == removedOut.perMesh;
    var i := |s|;
    while i > 0
      invariant 0 <= i <= |s|
      invariant instances == s[..i] + Keep(s[i..], id)
      invariant removedOut == Stamp(removed, model, Entries(pm.material, Taken(s[i..], id)))
      invariant hit <==> Taken(s[i..], id) != []
    {
      i := i - 1;
      CutAt(s, i, Keep(s[i + 1..], id));
      KeepTakeStep(s, i, id);
      var taken := Taken(s[i + 1..], id);
      if instances[i].objectID == id {
        removedOut := PushRecord(removedOut, model, Entry(pm.material, instances[i]));
        StampEntry(removed, model, pm.material, taken, s[i]);
        instances := instances[..i] + instances[i + 1..];
        hit := true;
        assert Taken(s[i..], id) == taken + [s[i]];
        assert instances == s[..i] + Keep(s[i..], id);
      } else {
        assert Taken(s[i..], id) == taken + [];
        assert Taken(s[i..], id) == taken;
        assert instances == s[..i] + Keep(s[i..], id);
      }
    }
    r := PerMaterial(pm.material, instances);
  }

  /** The loop over one mesh's materials
      (Engine/src/render/meshSystem/ShadingGroups/litInstances.cpp:74-99). */
  method RemoveFromMaterials<M>(mesh: PerMesh<M>, model: ModelRef, id: nat, removed: PerModel<M>)
    returns (r: PerMesh<M>, removedOut: PerModel<M>, hit: bool)
    ensures r == MeshWithout(mesh, id)
    ensures removedOut == Stamp(removed, model, MeshEntries(mesh.perMaterial, id))
    ensures hit <==> MeshEntries(mesh.perMaterial, id) != []
  {
    var src := mesh.perMaterial;
    var mats := src;
    removedOut, hit := removed, false;
    assert removed.perMesh + [] == removed.perMesh;
    for k := 0 to |src|
      invariant |mats| == |src|
      invariant forall q :: 0 <= q < k ==> mats[q] == MaterialWithout(src[q], id)
      invariant forall q :: k <= q < |src| ==> mats[q] == src[q]
      invariant removedOut == Stamp(removed, model, MeshEntries(src[..k], id))
      invariant hit <==> MeshEntries(src[..k], id) != []
    {
      assert src[..k + 1][..k] == src[..k];
      var before := MeshEntries(src[..k], id);
      var pm, out, found := RemoveFromInstances(mats[k], model, id, removedOut);
      StampAppend(removed, model, before, Entries(src[k].material, Taken(src[k].instances, id)));
      mats := mats[k := pm];
      removedOut := out;
      hit := hit || found;
    }
    assert src[..|src|] == src;
    r := PerMesh(mats);
  }

  /** The loop over one model's meshes
      (Engine/src/render/meshSystem/ShadingGroups/litInstances.cpp:72-100). */
  method RemoveFromMeshes<M>(pm: PerModel<M>, id: nat, removed: PerModel<M>)
    returns (r: PerModel<M>, removedOut: PerModel<M>, hit: bool)
    ensures r == ModelWithout(pm, id)
    ensures removedOut == Stamp(removed, pm.model, ModelEntries(pm.perMesh, id))
    ensures hit <==> ModelEntries(pm.perMesh, id) != []
  {
    var src := pm.perMesh;
    var meshes := src;
    removedOut, hit := removed, false;
    assert removed.perMesh + [] == removed.perMesh;
    for i := 0 to |src|
      invariant |meshes| == |src|
      invariant forall q :: 0 <= q < i ==> meshes[q] == MeshWithout(src[q], id)
      invariant forall q :: i <= q < |src| ==> meshes[q] == src[q]
      invariant removedOut == Stamp(removed, pm.model, ModelEntries(src[..i], id))
      invariant hit <==> ModelEntries(src[..i], id) != []
    {
      assert src[..i + 1][..i] == src[..i];
      var before := ModelEntries(src[..i], id);
      var mesh, out, found := RemoveFromMaterials(meshes[i], pm.model, id, removedOut);
      StampAppend(removed, pm.model, before, MeshEntries(src[i].perMaterial, id));
      meshes := meshes[i := mesh];
      removedOut := out;
      hit := hit || found;
    }
    assert src[..|src|] == src;
    r := PerModel(pm.model, meshes);
  }

  // ---- Properties of removal

  /** Survivors keep their relative order: filtering distributes over
      concatenation. */
  lemma {:induction false} KeepConcat(a: seq<Instance>, b: seq<Instance>, id: nat)
    ensures Keep(a + b, id) == Keep(a, id) + Keep(b, id)
  {
    if a != [] {
      assert (a + b)[1..] == a[1..] + b && (a + b)[0] == a[0];
      KeepConcat(a[1..], b, id);
      var head := if a[0].objectID == id then [] else [a[0]];
      assert Keep(a + b, id) == head + (Keep(a[1..], id) + Keep(b, id));
      assert head + (Keep(a[1..], id) + Keep(b, id)) == (head + Keep(a[1..], id)) + Keep(b, id);
    } else {
      assert a + b == b;
    }
  }

  /** Every instance either survives or is removed, none is lost or
      duplicated. */
  lemma {:induction false} KeepTakenPartition(s: seq<Instance>, id: nat)
    ensures multiset(Keep(s, id)) + multiset(Taken(s, id)) == multiset(s)
    ensures |Keep(s, id)| + |Taken(s, id)| == |s|
  {
    if s != [] {
      KeepTakenPartition(s[1..], id);
      assert s == [s[0]] + s[1..];
    }
  }

  /** Something is removed from a list exactly when the id occurs in it. */
  lemma {:induction false} TakenIffHas(s: seq<Instance>, id: nat)
    ensures Taken(s, id) != [] <==> InstancesHave(s, id)
  {
    if s != [] {
      TakenIffHas(s[1..], id);
      if InstancesHave(s[1..], id) {
        var j :| 0 <= j < |s[1..]| && s[1..][j].objectID == id;
        assert s[j + 1].objectID == id;
      }
      if InstancesHave(s, id) && s[0].objectID != id {
        var j :| 0 <= j < |s| && s[j].objectID == id;
        assert s[1..][j - 1].objectID == id;
      }
    }
  }

  lemma {:induction false} MeshEntriesIffHas<M>(mats: seq<PerMaterial<M>>, id: nat)
    ensures MeshEntries(mats, id) != [] <==> MaterialsHave(mats, id)
  {
    if mats != [] {
      var init, last := mats[..|mats| - 1], mats[|mats| - 1];
      MeshEntriesIffHas(init, id);
      TakenIffHas(last.instances, id);
      if MaterialsHave(mats, id) && !InstancesHave(last.instances, id) {
        var k :| 0 <= k < |mats| && InstancesHave(mats[k].instances, id);
        assert init[k] == mats[k];
      }
      if MaterialsHave(init, id) {
        var k :| 0 <= k < |init| && InstancesHave(init[k].instances, id);
        assert mats[k] == init[k];
      }
    }
  }

  lemma {:induction false} ModelEntriesIffHas<M>(meshes: seq<PerMesh<M>>, id: nat)
    ensures ModelEntries(meshes, id) != [] <==> MeshesHave(meshes, id)
  {
    if meshes != [] {
      var init, last := meshes[..|meshes| - 1], meshes[|meshes| - 1];
      ModelEntriesIffHas(init, id);
      MeshEntriesIffHas(last.perMaterial, id);
      if MeshesHave(meshes, id) && !MaterialsHave(last.perMaterial, id) {
        var i :| 0 <= i < |meshes| && MaterialsHave(meshes[i].perMaterial, id);
        assert init[i] == meshes[i];
      }
      if MeshesHave(init, id) {
        var i :| 0 <= i < |init| && MaterialsHave(init[i].perMaterial, id);
        assert meshes[i] == init[i];
      }
    }
  }

  /** `removeObjectByID` reports a removal exactly when the id was present. */
  lemma {:induction false} GroupEntriesIffHas<M>(g: seq<PerModel<M>>, id: nat)
    ensures GroupEntries(g, id) != [] <==> GroupHas(g, id)
  {
    if g != [] {
      var init, last := g[..|g| - 1], g[|g| - 1];
      GroupEntriesIffHas(init, id);
      ModelEntriesIffHas(last.perMesh, id);
      if GroupHas(g, id) && !MeshesHave(last.perMesh, id) {
        var m :| 0 <= m < |g| && MeshesHave(g[m].perMesh, id);
        assert init[m] == g[m];
      }
      if GroupHas(init, id) {
        var m :| 0 <= m < |init| && MeshesHave(init[m].perMesh, id);
        assert g[m] == init[m];
      }
    }
  }

  /** After `removeObjectByID(id)` no instance with that id remains. */
  lemma {:induction false} NoneLeft<M>(g: seq<PerModel<M>>, id: nat)
    ensures !GroupHas(GroupWithout(g, id), id)
  {
    var r := GroupWithout(g, id);
    forall m | 0 <= m < |r|
      ensures !MeshesHave(r[m].perMesh, id)
    {
      forall i | 0 <= i < |r[m].perMesh|
        ensures !MaterialsHave(r[m].perMesh[i].perMaterial, id)
      {
        var mats := r[m].perMesh[i].perMaterial;
        forall k | 0 <= k < |mats|
          ensures !InstancesHave(mats[k].instances, id)
        {
          assert mats[k].instances == Keep(g[m].perMesh[i].perMaterial[k].instances, id);
        }
      }
    }
  }

  /** Removing an id that is absent changes nothing. */
  lemma {:induction false} KeepAbsent(s: seq<Instance>, id: nat)
    requires !InstancesHave(s, id)
    ensures Keep(s, id) == s
  {
    if s != [] {
      assert s[0].objectID != id;
      assert !InstancesHave(s[1..], id) by {
        forall j | 0 <= j < |s[1..]|
          ensures s[1..][j].objectID != id
        {
          assert s[1..][j] == s[j + 1];
        }
      }
      KeepAbsent(s[1..], id);
      assert s == [s[0]] + s[1..];
    }
  }

  /** A record of one removed instance carrying `id`. */
  predicate RecordOf<M>(e: PerMesh<M>, id: nat)
  {
    |e.perMaterial| == 1 && |e.perMaterial[0].instances| == 1 &&
    e.perMaterial[0].instances[0].objectID == id
  }

  lemma {:induction false} MeshEntriesAreRecords<M>(mats: seq<PerMaterial<M>>, id: nat)
    ensures forall t :: 0 <= t < |MeshEntries(mats, id)| ==> RecordOf(MeshEntries(mats, id)[t], id)
  {
    if mats != [] {
      MeshEntriesAreRecords(mats[..|mats| - 1], id);
    }
  }

  lemma {:induction false} ModelEntriesAreRecords<M>(meshes: seq<PerMesh<M>>, id: nat)
    ensures forall t :: 0 <= t < |ModelEntries(meshes, id)| ==> RecordOf(ModelEntries(meshes, id)[t], id)
  {
    if meshes != [] {
      ModelEntriesAreRecords(meshes[..|meshes| - 1], id);
      MeshEntriesAreRecords(meshes[|meshes| - 1].perMaterial, id);
    }
  }

  /** `removedObject` gains one record per removed instance, each a
      `PerMesh` with one `PerMaterial` holding that one instance; its model
      is kept when it already held records. */
  lemma {:induction false} RemovedRecords<M>(r: PerModel<M>, g: seq<PerModel<M>>, id: nat)
    ensures Removed(r, g, id).perMesh == r.perMesh + GroupEntries(g, id)
    ensures r.perMesh != [] ==> Removed(r, g, id).model == r.model
    ensures forall t :: 0 <= t < |GroupEntries(g, id)| ==> RecordOf(GroupEntries(g, id)[t], id)
  {
    if g != [] {
      var init, last := g[..|g| - 1], g[|g| - 1];
      RemovedRecords(r, init, id);
      ModelEntriesAreRecords(last.perMesh, id);
      assert r.perMesh + GroupEntries(init, id) + ModelEntries(last.perMesh, id)
          == r.perMesh + GroupEntries(g, id);
    }
  }

  /** Starting from an empty record, the model is the first model holding
      the id. */
  lemma {:induction false} RemovedModel<M>(r: PerModel<M>, g: seq<PerModel<M>>, id: nat, m: nat)
    requires r.perMesh == [] && m < |g| && MeshesHave(g[m].perMesh, id)
    requires forall q :: 0 <= q < m ==> !MeshesHave(g[q].perMesh, id)
    ensures Removed(r, g, id).model == g[m].model
  {
    var init, last := g[..|g| - 1], g[|g| - 1];
    if m < |g| - 1 {
      RemovedModel(r, init, id, m);
      RemovedRecords(r, init, id);
      GroupEntriesIffHas(init, id);
      assert MeshesHave(init[m].perMesh, id);
    } else {
      assert Removed(r, init, id) == r by {
        NothingRemoved(r, init, id);
      }
      ModelEntriesIffHas(last.perMesh, id);
    }
  }

  /** A group without the id leaves the record as it was. */
  lemma {:induction false} NothingRemoved<M>(r: PerModel<M>, g: seq<PerModel<M>>, id: nat)
    requires forall q :: 0 <= q < |g| ==> !MeshesHave(g[q].perMesh, id)
    ensures Removed(r, g, id) == r
  {
    if g != [] {
      var init, last := g[..|g| - 1], g[|g| - 1];
      NothingRemoved(r, init, id);
      ModelEntriesIffHas(last.perMesh, id);
      assert r.perMesh + [] == r.perMesh;
    }
  }

  /** What `Keep` leaves was in the list. */
  lemma {:induction false} KeepOnlyRemoves(s: seq<Instance>, x: nat, id: nat)
    requires InstancesHave(Keep(s, x), id)
    ensures InstancesHave(s, id) && id != x
  {
    var kept := Keep(s, x);
    var j :| 0 <= j < |kept| && kept[j].objectID == id;
    KeepTakenPartition(s, x);
    assert kept[j] in multiset(kept);
    assert kept[j] in multiset(s);
    var q :| 0 <= q < |s| && s[q] == kept[j];
  }

  /** Removal brings in nothing: an id left in the group was there before. */
  lemma {:induction false} WithoutOnlyRemoves<M>(g: seq<PerModel<M>>, x: nat, id: nat)
    requires GroupHas(GroupWithout(g, x), id)
    ensures GroupHas(g, id)
  {
    var r := GroupWithout(g, x);
    var m :| 0 <= m < |r| && MeshesHave(r[m].perMesh, id);
    var i :| 0 <= i < |r[m].perMesh| && MaterialsHave(r[m].perMesh[i].perMaterial, id);
    var k :| 0 <= k < |r[m].perMesh[i].perMaterial| && InstancesHave(r[m].perMesh[i].perMaterial[k].instances, id);
    var mats := g[m].perMesh[i].perMaterial;
    assert r[m].perMesh[i].perMaterial[k] == MaterialWithout(mats[k], x);
    KeepOnlyRemoves(mats[k].instances, x, id);
    assert MaterialsHave(mats, id);
    assert MeshesHave(g[m].perMesh, id);
  }

  /** Removing an id the group does not hold leaves it as it is. */
  lemma {:induction false} WithoutAbsent<M>(g: seq<PerModel<M>>, id: nat)
    requires !GroupHas(g, id)
    ensures GroupWithout(g, id) == g
  {
    var r := GroupWithout(g, id);
    forall m | 0 <= m < |g|
      ensures r[m] == g[m]
    {
      assert !MeshesHave(g[m].perMesh, id);
      forall i | 0 <= i < |g[m].perMesh|
        ensures r[m].perMesh[i] == g[m].perMesh[i]
      {
        assert !MaterialsHave(g[m].perMesh[i].perMaterial, id);
        var mats := g[m].perMesh[i].perMaterial;
        forall k | 0 <= k < |mats|
          ensures r[m].perMesh[i].perMaterial[k] == mats[k]
        {
          assert !InstancesHave(mats[k].instances, id);
          KeepAbsent(mats[k].instances, id);
        }
        assert r[m].perMesh[i].perMaterial == mats;
      }
      assert r[m].perMesh == g[m].perMesh;
    }
  }
}
