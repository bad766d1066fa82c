// Object-id allocation and the dispatch of lookups, removals and clears
// over the seven shading groups (Engine/src/render/meshSystem/meshSystem.h,
// meshSystem.cpp). Every group is modelled by the same `ShadingGroup`
// class over one material type; the groups differ only in which of them
// each operation visits.

module MeshSystems {
  import opened ShadingData
  import opened ShadingAdd
  import opened LitInstances
  import opened ShadingGroups
  import opened Intersections

  /** `unsigned int` holds values below 2^32. */
  const UINT_LIMIT: nat := 0x1_0000_0000

  /** The seven groups, in the order the header declares them. */
  datatype GroupName = Hologram | NormalVis | TextureOnly | Lit | EmissionOnly | Dissolution | Incineration

  function Index(which: GroupName): (q: nat)
    ensures q < 7 && (q == 6 <==> which == Incineration)
  {
    match which
    case Hologram => 0
    case NormalVis => 1
    case TextureOnly => 2
    case Lit => 3
    case EmissionOnly => 4
    case Dissolution => 5
    case Incineration => 6
  }

  /** Lookups and removals by id visit the first six groups, in order;
      incineration is never searched. */
  const SEARCHED: nat := 6

  /** `++instanceCounter` on an `unsigned int`: one more, wrapping to 0
      past the largest value. */
  function NextID(counter: nat): (r: nat)
    requires counter < UINT_LIMIT
    ensures r < UINT_LIMIT
    ensures counter + 1 < UINT_LIMIT ==> r == counter + 1
    ensures counter + 1 == UINT_LIMIT ==> r == 0
  {
    (counter + 1) % UINT_LIMIT
  }

  // ---- Stamping one object id on every instance of a `PerModel`

  function StampInstances(s: seq<Instance>, id: nat): seq<Instance>
  {
    seq(|s|, j requires 0 <= j < |s| => s[j].(objectID := id))
  }

  function StampMaterials<M>(s: seq<PerMaterial<M>>, id: nat): seq<PerMaterial<M>>
  {
    seq(|s|, k requires 0 <= k < |s| => PerMaterial(s[k].material, StampInstances(s[k].instances, id)))
  }

  function StampMeshes<M>(s: seq<PerMesh<M>>, id: nat): seq<PerMesh<M>>
  {
    seq(|s|, i requires 0 <= i < |s| => PerMesh(StampMaterials(s[i].perMaterial, id)))
  }

  /** The object after the stamping loops of `add*Instance(PerModel&)`. */
  function Stamped<M>(obj: PerModel<M>, id: nat): PerModel<M>
  {
    PerModel(obj.model, StampMeshes(obj.perMesh, id))
  }

  /** Some `PerMaterial` of the meshes holds an instance. */
  predicate Populated<M>(meshes: seq<PerMesh<M>>)
  {
    exists i, k :: 0 <= i < |meshes| && 0 <= k < |meshes[i].perMaterial| && meshes[i].perMaterial[k].instances != []
  }

  /** Stamping keeps the object's shape (model, meshes, materials), and
      afterwards the object holds exactly one id: the stamped one, present
      as soon as the object has any instance. */
  lemma {:induction false} StampedCarriesOnlyID<M>(obj: PerModel<M>, id: nat, x: nat)
    ensures Stamped(obj, id).model == obj.model && |Stamped(obj, id).perMesh| == |obj.perMesh|
    ensures forall i :: 0 <= i < |obj.perMesh| ==>
      |Stamped(obj, id).perMesh[i].perMaterial| == |obj.perMesh[i].perMaterial|
    ensures MeshesHave(Stamped(obj, id).perMesh, x) <==> x == id && Populated(obj.perMesh)
  {
    var r := Stamped(obj, id).perMesh;
    if MeshesHave(r, x) {
      var i :| 0 <= i < |r| && MaterialsHave(r[i].perMaterial, x);
      var k :| 0 <= k < |r[i].perMaterial| && InstancesHave(r[i].perMaterial[k].instances, x);
      assert obj.perMesh[i].perMaterial[k].instances != [];
    }
    if x == id && Populated(obj.perMesh) {
      var i, k :| 0 <= i < |obj.perMesh| && 0 <= k < |obj.perMesh[i].perMaterial| && obj.perMesh[i].perMaterial[k].instances != [];
      assert r[i].perMaterial[k].instances[0].objectID == id;
      assert InstancesHave(r[i].perMaterial[k].instances, id);
      assert MaterialsHave(r[i].perMaterial, id);
    }
  }

  /** Stamping changes no shape, so an object that could be merged still can. */
  lemma {:induction false} StampKeepsReady<M>(g: seq<PerModel<M>>, obj: PerModel<M>, id: nat)
    requires AddPerModelReady(g, obj)
    ensures AddPerModelReady(g, Stamped(obj, id))
  {
    var s := Stamped(obj, id);
    forall m | 0 <= m < |g| && g[m].model == s.model
      ensures MergeReady(g[m], s)
    {
      assert MergeReady(g[m], obj);
      forall i | 0 <= i < |g[m].perMesh| && g[m].perMesh[i].perMaterial != []
        ensures s.perMesh[i].perMaterial != []
      {
        assert |s.perMesh[i].perMaterial| == |obj.perMesh[i].perMaterial|;
      }
    }
  }

  /** The stamping loops, innermost first
      (Engine/src/render/meshSystem/meshSystem.h:143-152). */
  method StampInstanceList(s: seq<Instance>, id: nat) returns (r: seq<Instance>)
    ensures r == StampInstances(s, id)
  {
    r := s;
    for j := 0 to |r|
      invariant |r| == |s|
      invariant forall q :: 0 <= q < |s| ==> r[q] == if q < j then s[q].(objectID := id) else s[q]
    {
      r := r[j := r[j].(objectID := id)];
    }
  }

  method StampMaterialList<M>(s: seq<PerMaterial<M>>, id: nat) returns (r: seq<PerMaterial<M>>)
    ensures r == StampMaterials(s, id)
  {
    r := s;
    for k := 0 to |r|
      invariant |r| == |s|
      invariant forall q :: 0 <= q < |s| ==>
        r[q] == if q < k then PerMaterial(s[q].material, StampInstances(s[q].instances, id)) else s[q]
    {
      var stamped := StampInstanceList(r[k].instances, id);
      r := r[k := r[k].(instances := stamped)];
    }
  }

  method StampObject<M>(obj: PerModel<M>, id: nat) returns (r: PerModel<M>)
    ensures r == Stamped(obj, id)
  {
    r := obj;
    for i := 0 to |r.perMesh|
      invariant r.model == obj.model && |r.perMesh| == |obj.perMesh|
      invariant forall q :: 0 <= q < |obj.perMesh| ==>
        r.perMesh[q] == if q < i then PerMesh(StampMaterials(obj.perMesh[q].perMaterial, id)) else obj.perMesh[q]
    {
      var stamped := StampMaterialList(r.perMesh[i].perMaterial, id);
      r := r.(perMesh := r.perMesh[i := PerMesh(stamped)]);
    }
  }

  // ---- Ids issued so far

  /** Every object id present in the groups is at most `bound`: with the
      counter as bound, every id the groups hold has been issued. */
  ghost predicate IdsAtMost<M>(cs: seq<seq<PerModel<M>>>, bound: nat)
  {
    forall q, id: nat :: 0 <= q < |cs| && GroupHas(cs[q], id) ==> id <= bound
  }

  /** A single-instance add, before the counter wraps, issues an id that
      is larger than any issued before (so no group holds it yet), and the
      groups again hold only issued ids. */
  lemma {:induction false} AddIssuesFreshID<M>(cs: seq<seq<PerModel<M>>>, q: nat, counter: nat,
                                               model: ModelRef, material: M, inst: Instance)
    requires IdsAtMost(cs, counter) && counter + 1 < UINT_LIMIT
    requires q < |cs| && AddReady(cs[q], model, material) && inst.objectID == NextID(counter)
    ensures forall p, id: nat :: 0 <= p < |cs| && GroupHas(cs[p], id) ==> id < NextID(counter)
    ensures IdsAtMost(cs[q := AddedGroup(cs[q], model, material, inst)], NextID(counter))
  {
    var after := cs[q := AddedGroup(cs[q], model, material, inst)];
    forall p, id: nat | 0 <= p < |after| && GroupHas(after[p], id)
      ensures id <= NextID(counter)
    {
      if p == q {
        AddOnlyAddsInstance(cs[q], model, material, inst, id);
      }
    }
  }

  /** The same for a `PerModel` add, whose instances all carry the new id. */
  lemma {:induction false} MergeIssuesFreshID<M>(cs: seq<seq<PerModel<M>>>, q: nat, counter: nat, obj: PerModel<M>)
    requires IdsAtMost(cs, counter) && counter + 1 < UINT_LIMIT
    requires q < |cs| && AddPerModelReady(cs[q], Stamped(obj, NextID(counter)))
    ensures forall p, id: nat :: 0 <= p < |cs| && GroupHas(cs[p], id) ==> id < NextID(counter)
    ensures IdsAtMost(cs[q := MergedGroup(cs[q], Stamped(obj, NextID(counter)))], NextID(counter))
  {
    var s := Stamped(obj, NextID(counter));
    var after := cs[q := MergedGroup(cs[q], s)];
    forall p, id: nat | 0 <= p < |after| && GroupHas(after[p], id)
      ensures id <= NextID(counter)
    {
      if p == q {
        MergeOnlyAddsObject(cs[q], s, id);
        StampedCarriesOnlyID(obj, NextID(counter), id);
      }
    }
  }

  // ---- removeObjectByID

  /** The first searched group holding `id`, or `SEARCHED` when none does. */
  function FirstHolder<M>(cs: seq<seq<PerModel<M>>>, id: nat, from: nat): (q: nat)
    requires from <= SEARCHED <= |cs|
    ensures from <= q <= SEARCHED
    ensures q < SEARCHED ==> GroupHas(cs[q], id)
    ensures forall p :: from <= p < q ==> !GroupHas(cs[p], id)
    decreases SEARCHED - from
  {
    if from == SEARCHED then SEARCHED
    else if GroupHas(cs[from], id) then from
    else FirstHolder(cs, id, from + 1)
  }

  /** A sequence that agrees with `s` everywhere except at `i`, where it
      holds `x`, is `s[i := x]`. */
  lemma UpdatedAt<X>(s: seq<X>, t: seq<X>, i: nat, x: X)
    requires |s| == |t| && i < |s| && t[i] == x
    requires forall j :: 0 <= j < |s| && j != i ==> t[j] == s[j]
    ensures t == s[i := x]
  {
  }

  /** A group without `id` passes the search on to the next one. */
  lemma FirstHolderSkip<M>(cs: seq<seq<PerModel<M>>>, id: nat, p: nat)
    requires p < SEARCHED <= |cs| && !GroupHas(cs[p], id)
    ensures FirstHolder(cs, id, p) == FirstHolder(cs, id, p + 1)
  {
  }

  /** The groups after `removeObjectByID(id)`: only the first searched
      group that holds the id loses it. */
  function RemovedFromFirst<M>(cs: seq<seq<PerModel<M>>>, id: nat): seq<seq<PerModel<M>>>
    requires SEARCHED <= |cs|
  {
    var q := FirstHolder(cs, id, 0);
    if q < SEARCHED then cs[q := GroupWithout(cs[q], id)] else cs
  }

  /** After the removal an object id survives exactly in the groups other
      than the first holder that held it: the search stops at the first
      group that removes something, and never visits incineration. */
  lemma {:induction false} RemoveStopsAtFirst<M>(cs: seq<seq<PerModel<M>>>, id: nat, p: nat)
    requires SEARCHED <= |cs| && p < |cs|
    ensures GroupHas(RemovedFromFirst(cs, id)[p], id) <==> GroupHas(cs[p], id) && !(p < SEARCHED && p == FirstHolder(cs, id, 0))
  {
    var q := FirstHolder(cs, id, 0);
    if q < SEARCHED && p == q {
      NoneLeft(cs[q], id);
    } else {
      assert RemovedFromFirst(cs, id)[p] == cs[p];
    }
  }

  /** Removing keeps the groups holding only issued ids. */
  lemma {:induction false} RemoveKeepsIdsIssued<M>(cs: seq<seq<PerModel<M>>>, id: nat, bound: nat)
    requires SEARCHED <= |cs| && IdsAtMost(cs, bound)
    ensures IdsAtMost(RemovedFromFirst(cs, id), bound)
  {
    var q := FirstHolder(cs, id, 0);
    var after := RemovedFromFirst(cs, id);
    forall p, x: nat | 0 <= p < |after| && GroupHas(after[p], x)
      ensures x <= bound
    {
      if q < SEARCHED && p == q {
        WithoutOnlyRemoves(cs[q], id, x);
      }
    }
  }

  // ---- findIntersection

  /** What `outIntersection.mover` points at: nothing (a null pointer), or
      a slot that is empty, holds some other mover, or holds a
      `MatrixMover` for a matrix id. */
  datatype Mover = Empty | OtherMover | MatrixMover(matrixID: nat)
  datatype MoverSlot = NoSlot | Slot(held: Mover)

  /** `findIntersection` after the group searches have produced `nearest`
      and the matrix id of the instance it belongs to. */
  function FindIntersection(nearest: Intersection, matID: nat, mover: MoverSlot): (r: (bool, MoverSlot))
    ensures r.0 <==> nearest.Valid()
    ensures r.0 && mover.Slot? ==> r.1 == Slot(MatrixMover(matID))
    ensures !r.0 || mover.NoSlot? ==> r.1 == mover
  {
    if nearest.Valid() then
      (true, if mover.Slot? then Slot(MatrixMover(matID)) else mover)
    else (false, mover)
  }

  class MeshSystem<M(==)> {
    const hologram: ShadingGroup<M>
    const normalVis: ShadingGroup<M>
    const textureOnly: ShadingGroup<M>
    const lit: ShadingGroup<M>
    const emissionOnly: ShadingGroup<M>
    const dissolution: ShadingGroup<M>
    const incineration: ShadingGroup<M>
    var instanceCounter: nat

    function Groups(): seq<ShadingGroup<M>>
    {
      [hologram, normalVis, textureOnly, lit, emissionOnly, dissolution, incineration]
    }

    function GroupOf(which: GroupName): ShadingGroup<M>
    {
      Groups()[Index(which)]
    }

    /** The seven groups are seven distinct objects, and the counter is an
        `unsigned int`. */
    ghost predicate Valid()
      reads this
    {
      instanceCounter < UINT_LIMIT &&
      hologram != normalVis && hologram != textureOnly && hologram != lit && hologram != emissionOnly && hologram != dissolution && hologram != incineration &&
      normalVis != textureOnly && normalVis != lit && normalVis != emissionOnly && normalVis != dissolution && normalVis != incineration &&
      textureOnly != lit && textureOnly != emissionOnly && textureOnly != dissolution && textureOnly != incineration &&
      lit != emissionOnly && lit != dissolution && lit != incineration &&
      emissionOnly != dissolution && emissionOnly != incineration &&
      dissolution != incineration
    }

    /** Distinct positions hold distinct groups. */
    lemma GroupsDistinct()
      requires Valid()
      ensures forall i, j :: 0 <= i < 7 && 0 <= j < 7 && i != j ==> Groups()[i] != Groups()[j]
    {
    }

    /** The instance lists of the seven groups, in declaration order. */
    ghost function Contents(): seq<seq<PerModel<M>>>
      reads hologram, normalVis, textureOnly, lit, emissionOnly, dissolution, incineration
    {
      [hologram.perModel, normalVis.perModel, textureOnly.perModel, lit.perModel,
       emissionOnly.perModel, dissolution.perModel, incineration.perModel]
    }

    constructor()
      ensures Valid() && instanceCounter == 0
      ensures Contents() == [[], [], [], [], [], [], []]
    {
      hologram := new ShadingGroup();
      normalVis := new ShadingGroup();
      textureOnly := new ShadingGroup();
      lit := new ShadingGroup();
      emissionOnly := new ShadingGroup();
      dissolution := new ShadingGroup();
      incineration := new ShadingGroup();
      instanceCounter := 0;
    }

    /** `add*Instance(model, material, instance)`: stamps the next id on
        the instance and adds it to the group. */
    method AddInstance(which: GroupName, model: ModelRef, material: M, instance: Instance) returns (added: PerModel<M>)
      requires Valid() && AddReady(GroupOf(which).perModel, model, material)
      modifies this, GroupOf(which)
      ensures Valid() && instanceCounter == NextID(old(instanceCounter))
      ensures Contents() == old(Contents())[Index(which) :=
        AddedGroup(old(GroupOf(which).perModel), model, material, instance.(objectID := instanceCounter))]
      ensures added == AddedRecord(WithModel(old(GroupOf(which).perModel), model)[FindModel(old(GroupOf(which).perModel), model)],
        material, instance.(objectID := instanceCounter))
      ensures old(IdsAtMost(Contents(), instanceCounter)) && old(instanceCounter) + 1 < UINT_LIMIT ==>
        IdsAtMost(Contents(), instanceCounter) &&
        forall p, id: nat :: 0 <= p < 7 && GroupHas(old(Contents())[p], id) ==> id < instanceCounter
    {
      ghost var cs, counter := Contents(), instanceCounter;
      GroupsDistinct();
      instanceCounter := NextID(instanceCounter);
      var group := GroupOf(which);
      assert group.perModel == cs[Index(which)];
      added := group.Add(model, material, instance.(objectID := instanceCounter));
      UpdatedAt(cs, Contents(), Index(which), AddedGroup(cs[Index(which)], model, material, instance.(objectID := instanceCounter)));
      if IdsAtMost(cs, counter) && counter + 1 < UINT_LIMIT {
        AddIssuesFreshID(cs, Index(which), counter, model, material, instance.(objectID := instanceCounter));
      }
    }

    /** `add*Instance(PerModel&)`: stamps one new id on every instance of
        the object and merges it into the group; the stamped object is
        what the caller's reference holds afterwards. */
    method AddPerModelInstance(which: GroupName, obj: PerModel<M>) returns (stamped: PerModel<M>)
      requires Valid() && AddPerModelReady(GroupOf(which).perModel, obj)
      modifies this, GroupOf(which)
      ensures Valid() && instanceCounter == NextID(old(instanceCounter))
      ensures stamped == Stamped(obj, instanceCounter)
      ensures Contents() == old(Contents())[Index(which) := MergedGroup(old(GroupOf(which).perModel), stamped)]
      ensures old(IdsAtMost(Contents(), instanceCounter)) && old(instanceCounter) + 1 < UINT_LIMIT ==>
        IdsAtMost(Contents(), instanceCounter) &&
        forall p, id: nat :: 0 <= p < 7 && GroupHas(old(Contents())[p], id) ==> id < instanceCounter
    {
      ghost var cs, counter := Contents(), instanceCounter;
      GroupsDistinct();
      instanceCounter := NextID(instanceCounter);
      stamped := StampObject(obj, instanceCounter);
      var group := GroupOf(which);
      assert group.perModel == cs[Index(which)];
      StampKeepsReady(group.perModel, obj, instanceCounter);
      group.AddPerModel(stamped);
      UpdatedAt(cs, Contents(), Index(which), MergedGroup(cs[Index(which)], stamped));
      if IdsAtMost(cs, counter) && counter + 1 < UINT_LIMIT {
        MergeIssuesFreshID(cs, Index(which), counter, obj);
      }
    }

    /** `removeLitInstance`: the lit group's removal, as it is. */
    method RemoveLitInstance(id: nat, removedObject: PerModel<M>) returns (found: bool, removedOut: PerModel<M>)
      requires Valid()
      modifies lit
      ensures Contents() == old(Contents())[Index(Lit) := GroupWithout(old(lit.perModel), id)]
      ensures removedOut == Removed(removedObject, old(lit.perModel), id)
      ensures found <==> GroupHas(old(lit.perModel), id)
    {
      found, removedOut := lit.RemoveObjectByID(id, removedObject);
    }

    /** `getObjectTransformID`: the matrix id of the first instance with
        the object id in the first searched group holding it, else 0. */
    method GetObjectTransformID(id: nat) returns (transformID: nat)
      ensures var q := FirstHolder(Contents(), id, 0);
        (q == SEARCHED ==> transformID == 0) &&
        (q < SEARCHED ==> exists loc :: FirstAt(Contents()[q], loc, id) && InstanceAt(Contents()[q], loc).modelToWorldID == transformID)
    {
      var groups := Groups();
      var p := 0;
      while p < SEARCHED
        invariant p <= SEARCHED && FirstHolder(Contents(), id, 0) == FirstHolder(Contents(), id, p)
      {
        assert groups[p].perModel == Contents()[p];
        var found;
        found, transformID := groups[p].GetObjectTransformID(id);
        if found {
          return;
        }
        FirstHolderSkip(Contents(), id, p);
        p := p + 1;
      }
      transformID := 0;
    }

    /** `removeObjectByID`: asks the searched groups in order, each with a
        fresh empty record, and stops at the first that removes. The six
        calls of the source are written as one loop over those groups. */
    method RemoveObjectByID(id: nat)
      requires Valid()
      modifies hologram, normalVis, textureOnly, lit, emissionOnly, dissolution
      ensures Contents() == RemovedFromFirst(old(Contents()), id)
    {
      ghost var cs := Contents();
      var groups := Groups();
      GroupsDistinct();
      var p := 0;
      while p < SEARCHED
        invariant p <= SEARCHED
        invariant Contents() == cs && FirstHolder(cs, id, 0) == FirstHolder(cs, id, p)
      {
        assert groups[p].perModel == cs[p];
        var found, removed := groups[p].RemoveObjectByID(id, PerModel(NoModel, []));
        if found {
          UpdatedAt(cs, Contents(), p, GroupWithout(cs[p], id));
          return;
        }
        WithoutAbsent(cs[p], id);
        UpdatedAt(cs, Contents(), p, cs[p]);
        FirstHolderSkip(cs, id, p);
        p := p + 1;
      }
    }

    /** `deleteAllInstances`: clears the six searched groups; the
        incineration group keeps its instances. */
    method DeleteAllInstances()
      requires Valid()
      modifies hologram, normalVis, textureOnly, lit, emissionOnly, dissolution
      ensures Contents() == [[], [], [], [], [], [], old(incineration.perModel)]
    {
      hologram.Clear();
      normalVis.Clear();
      textureOnly.Clear();
      lit.Clear();
      emissionOnly.Clear();
      dissolution.Clear();
    }
  }
}
