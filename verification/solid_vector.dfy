// ID-stable dense array with a free list
// (Engine/src/utils/containers/solidVector.h).

module SolidVectors {

  /** The forward and backward maps are inverse bijections between the
      occupied ids and the `n` dense slots. */
  ghost predicate Linked(n: nat, forwardMap: seq<nat>, backwardMap: seq<nat>, occupied: seq<bool>) {
    |forwardMap| == |occupied| && |backwardMap| == n &&
    (forall id :: 0 <= id < |forwardMap| && occupied[id] ==>
       forwardMap[id] < n && backwardMap[forwardMap[id]] == id) &&
    (forall i :: 0 <= i < n ==>
       backwardMap[i] < |forwardMap| && occupied[backwardMap[i]] && forwardMap[backwardMap[i]] == i)
  }

  /** `free` lists the unoccupied ids, each once, in the order the chain
      through `forwardMap` visits them from `nextUnused`; the chain ends at
      `|forwardMap|`. */
  ghost predicate Chain(forwardMap: seq<nat>, occupied: seq<bool>, free: seq<nat>, nextUnused: nat) {
    |forwardMap| == |occupied| &&
    (forall j :: 0 <= j < |free| ==> free[j] < |forwardMap| && !occupied[free[j]]) &&
    (forall id :: 0 <= id < |forwardMap| && !occupied[id] ==> id in free) &&
    (forall i, j :: 0 <= i < j < |free| ==> free[i] != free[j]) &&
    nextUnused == (if free == [] then |forwardMap| else free[0]) &&
    (forall j :: 0 <= j < |free| ==>
       forwardMap[free[j]] == if j + 1 < |free| then free[j + 1] else |forwardMap|)
  }

  /** The value stored under each occupied id. */
  ghost function ContentsOf<T>(data: seq<T>, forwardMap: seq<nat>, occupied: seq<bool>): map<nat, T>
    requires |forwardMap| == |occupied|
    requires forall id :: 0 <= id < |forwardMap| && occupied[id] ==> forwardMap[id] < |data|
  {
    map id | 0 <= id < |forwardMap| && occupied[id] :: data[forwardMap[id]]
  }

  /** A sequence without repeats has as many distinct elements as entries. */
  lemma {:induction false} DistinctCount(s: seq<nat>)
    requires forall i, j :: 0 <= i < j < |s| ==> s[i] != s[j]
    ensures |set i | 0 <= i < |s| :: s[i]| == |s|
  {
    if s != [] {
      var n := |s| - 1;
      DistinctCount(s[..n]);
      assert (set i | 0 <= i < |s| :: s[i]) == (set i | 0 <= i < n :: s[..n][i]) + {s[n]};
    }
  }

  /** Every id in use stands for exactly one stored value. */
  lemma {:induction false} CountIsSize<T>(data: seq<T>, forwardMap: seq<nat>, backwardMap: seq<nat>, occupied: seq<bool>)
    requires Linked(|data|, forwardMap, backwardMap, occupied)
    ensures |ContentsOf(data, forwardMap, occupied).Keys| == |data|
  {
    assert ContentsOf(data, forwardMap, occupied).Keys == set i | 0 <= i < |backwardMap| :: backwardMap[i];
    forall i, j | 0 <= i < j < |backwardMap|
      ensures backwardMap[i] != backwardMap[j]
    {
      assert forwardMap[backwardMap[i]] == i && forwardMap[backwardMap[j]] == j;
    }
    DistinctCount(backwardMap);
  }

  /** `insert`, first step: with no free id, a new unoccupied id is added at
      the end, whose link points one past it. */
  lemma {:induction false} GrowKeeps<T>(data: seq<T>, forwardMap: seq<nat>, backwardMap: seq<nat>, occupied: seq<bool>)
    requires Linked(|data|, forwardMap, backwardMap, occupied) && Chain(forwardMap, occupied, [], |forwardMap|)
    ensures Linked(|data|, forwardMap + [|forwardMap| + 1], backwardMap, occupied + [false])
    ensures Chain(forwardMap + [|forwardMap| + 1], occupied + [false], [|forwardMap|], |forwardMap|)
    ensures ContentsOf(data, forwardMap + [|forwardMap| + 1], occupied + [false]) == ContentsOf(data, forwardMap, occupied)
  {
  }

  /** The link out of the `k`-th free id. */
  lemma ChainLink(forwardMap: seq<nat>, occupied: seq<bool>, free: seq<nat>, nextUnused: nat, k: nat)
    requires Chain(forwardMap, occupied, free, nextUnused) && k < |free|
    ensures forwardMap[free[k]] == if k + 1 < |free| then free[k + 1] else |forwardMap|
  {
  }

  /** Occupying the head of the free chain leaves the rest of the chain,
      starting at the head's old link. */
  lemma TakeHeadChain(forwardMap: seq<nat>, occupied: seq<bool>, free: seq<nat>, slot: nat)
    requires free != [] && Chain(forwardMap, occupied, free, free[0])
    ensures Chain(forwardMap[free[0] := slot], occupied[free[0] := true], free[1..], forwardMap[free[0]])
  {
    var id := free[0];
    var fm, occ := forwardMap[id := slot], occupied[id := true];
    var rest := free[1..];
    forall j | 0 <= j < |rest|
      ensures rest[j] == free[j + 1] && rest[j] != id
      ensures rest[j] < |fm| && !occ[rest[j]]
      ensures fm[rest[j]] == if j + 1 < |rest| then rest[j + 1] else |fm|
    {
      assert free[0] != free[j + 1];
      ChainLink(forwardMap, occupied, free, free[0], j + 1);
      if j + 1 < |rest| {
        assert rest[j + 1] == free[j + 2];
      }
    }
    forall other | 0 <= other < |fm| && !occ[other]
      ensures other in rest
    {
      assert other in free && other != free[0];
      var j :| 0 <= j < |free| && free[j] == other;
      assert rest[j - 1] == other;
    }
    assert forwardMap[id] == if rest == [] then |fm| else rest[0];
    assert Chain(fm, occ, rest, forwardMap[id]);
  }

  /** `insert`, second step: the head of the free chain becomes occupied by
      the new last dense slot. */
  lemma {:induction false} TakeHeadKeeps<T>(data: seq<T>, forwardMap: seq<nat>, backwardMap: seq<nat>,
                                            occupied: seq<bool>, free: seq<nat>, value: T)
    requires Linked(|data|, forwardMap, backwardMap, occupied) && free != [] &&
             Chain(forwardMap, occupied, free, free[0])
    ensures var id := free[0];
            Linked(|data| + 1, forwardMap[id := |data|], backwardMap + [id], occupied[id := true]) &&
            Chain(forwardMap[id := |data|], occupied[id := true], free[1..], forwardMap[id]) &&
            ContentsOf(data + [value], forwardMap[id := |data|], occupied[id := true]) ==
              ContentsOf(data, forwardMap, occupied)[id := value]
  {
    TakeHeadChain(forwardMap, occupied, free, |data|);
  }

  /** `erase(id)`: the last dense value moves into the freed slot, and the
      freed id becomes the head of the chain, linking to the old head. */
  lemma {:induction false} EraseKeeps<T>(data: seq<T>, forwardMap: seq<nat>, backwardMap: seq<nat>,
                                         occupied: seq<bool>, free: seq<nat>, nextUnused: nat, id: nat)
    requires Linked(|data|, forwardMap, backwardMap, occupied) && Chain(forwardMap, occupied, free, nextUnused)
    requires id < |forwardMap| && occupied[id]
    ensures var f, last := forwardMap[id], |data| - 1;
            var b := backwardMap[last];
            var data' := data[f := data[last]][..last];
            var fm := forwardMap[b := f][id := nextUnused];
            Linked(last, fm, backwardMap[f := b][..last], occupied[id := false]) &&
            Chain(fm, occupied[id := false], [id] + free, id) &&
            ContentsOf(data', fm, occupied[id := false]) == ContentsOf(data, forwardMap, occupied) - {id}
  {
    var f, last := forwardMap[id], |data| - 1;
    var b := backwardMap[last];
    var fm := forwardMap[b := f][id := nextUnused];
    var bm := backwardMap[f := b][..last];
    var occ := occupied[id := false];
    LinkedAfterErase(|data|, forwardMap, backwardMap, occupied, nextUnused, id);
    ChainAfterErase(forwardMap, occupied, free, nextUnused, id, b, f);
  }

  /** After `erase(id)` the freed id heads the chain and links to the old
      head; the moved id `b` was occupied, so no other link changes. */
  lemma ChainAfterErase(forwardMap: seq<nat>, occupied: seq<bool>, free: seq<nat>, nextUnused: nat,
                        id: nat, b: nat, f: nat)
    requires Chain(forwardMap, occupied, free, nextUnused)
    requires id < |forwardMap| && occupied[id] && b < |forwardMap| && occupied[b]
    ensures Chain(forwardMap[b := f][id := nextUnused], occupied[id := false], [id] + free, id)
  {
    var fm := forwardMap[b := f][id := nextUnused];
    var occ := occupied[id := false];
    var chain := [id] + free;
    assert chain[0] == id && |fm| == |occ|;
    assert forall j :: 0 <= j < |chain| ==> chain[j] < |fm| && !occ[chain[j]] by {
      forall j | 1 <= j < |chain|
        ensures chain[j] < |fm| && !occ[chain[j]]
      {
        assert chain[j] == free[j - 1];
      }
    }
    assert forall other :: 0 <= other < |fm| && !occ[other] ==> other in chain by {
      forall other | 0 <= other < |fm| && !occ[other]
        ensures other in chain
      {
        if other != id {
          assert other in free;
        }
      }
    }
    assert forall i, j :: 0 <= i < j < |chain| ==> chain[i] != chain[j] by {
      forall i, j | 0 <= i < j < |chain|
        ensures chain[i] != chain[j]
      {
        assert chain[j] == free[j - 1];
        if i > 0 {
          assert chain[i] == free[i - 1];
        }
      }
    }
    EraseLinks(forwardMap, occupied, free, nextUnused, id, b, f, fm, chain);
    assert Chain(fm, occ, chain, id);
  }

  /** The links of the chain after `erase(id)`. */
  lemma EraseLinks(forwardMap: seq<nat>, occupied: seq<bool>, free: seq<nat>, nextUnused: nat,
                   id: nat, b: nat, f: nat, fm: seq<nat>, chain: seq<nat>)
    requires Chain(forwardMap, occupied, free, nextUnused)
    requires id < |forwardMap| && occupied[id] && b < |forwardMap| && occupied[b]
    requires fm == forwardMap[b := f][id := nextUnused] && chain == [id] + free
    ensures forall j :: 0 <= j < |chain| ==> fm[chain[j]] == if j + 1 < |chain| then chain[j + 1] else |fm|
  {
    forall j | 0 <= j < |chain|
      ensures fm[chain[j]] == if j + 1 < |chain| then chain[j + 1] else |fm|
    {
      if j > 0 {
        assert chain[j] == free[j - 1] && free[j - 1] != id && free[j - 1] != b;
        ChainLink(forwardMap, occupied, free, nextUnused, j - 1);
        if j < |free| {
          assert chain[j + 1] == free[j];
        }
      } else if free != [] {
        assert chain[1] == free[0];
      }
    }
  }

  lemma {:induction false} LinkedAfterErase(n: nat, forwardMap: seq<nat>, backwardMap: seq<nat>, occupied: seq<bool>,
                                            nextUnused: nat, id: nat)
    requires Linked(n, forwardMap, backwardMap, occupied) && id < |forwardMap| && occupied[id]
    ensures var f, last := forwardMap[id], n - 1;
            var b := backwardMap[last];
            Linked(last, forwardMap[b := f][id := nextUnused], backwardMap[f := b][..last], occupied[id := false])
  {
    var f, last := forwardMap[id], n - 1;
    var b := backwardMap[last];
    var fm := forwardMap[b := f][id := nextUnused];
    var bm := backwardMap[f := b][..last];
    var occ := occupied[id := false];
    forall q | 0 <= q < |fm| && occ[q]
      ensures fm[q] < last && bm[fm[q]] == q
    {
      if q != b {
        assert forwardMap[q] != last && forwardMap[q] != f;
      }
    }
    forall i | 0 <= i < last
      ensures bm[i] < |fm| && occ[bm[i]] && fm[bm[i]] == i
    {
      if i != f {
        assert backwardMap[i] != id && backwardMap[i] != b;
      }
    }
  }

  /** Every one of the `n` ids is in use and names its own slot. */
  ghost predicate DenseMaps(n: nat, forwardMap: seq<nat>, occupied: seq<bool>) {
    |forwardMap| == n && |occupied| == n &&
    forall id :: 0 <= id < n ==> occupied[id] && forwardMap[id] == id
  }

  /** With every id in use the free chain is empty. */
  lemma DenseNoFree(n: nat, forwardMap: seq<nat>, occupied: seq<bool>, free: seq<nat>, nextUnused: nat)
    requires DenseMaps(n, forwardMap, occupied) && Chain(forwardMap, occupied, free, nextUnused)
    ensures free == [] && nextUnused == n
  {
    if free != [] {
      assert false;
    }
  }

  /** Inserting into a dense vector appends id `n` in slot `n`. */
  lemma GrowDense(n: nat, forwardMap: seq<nat>, occupied: seq<bool>)
    requires DenseMaps(n, forwardMap, occupied)
    ensures DenseMaps(n + 1, (forwardMap + [n + 1])[n := n], (occupied + [false])[n := true])
  {
  }

  /** Values live densely in `data`; an id reaches its value through
      `forwardMap`, a dense slot names its id through `backwardMap`. A
      free id's `forwardMap` entry holds the next free id instead. */
  class SolidVector<T> {
    var data: seq<T>
    var forwardMap: seq<nat>
    var backwardMap: seq<nat>
    var occupied: seq<bool>
    var nextUnused: nat
    /** The free ids in chain order. */
    ghost var free: seq<nat>

    ghost predicate Valid()
      reads this
    {
      Linked(|data|, forwardMap, backwardMap, occupied) && Chain(forwardMap, occupied, free, nextUnused)
    }

    ghost function Contents(): map<nat, T>
      reads this
      requires Valid()
    {
      ContentsOf(data, forwardMap, occupied)
    }

    constructor()
      ensures Valid() && Dense() && Contents() == map[] && |data| == 0 && nextUnused == 0
    {
      data, forwardMap, backwardMap, occupied, nextUnused := [], [], [], [], 0;
      free := [];
    }

    /** `occupied(id)` */
    function Occupied(id: nat): (r: bool)
      reads this
      requires Valid() && id < |occupied|
      ensures r <==> id in Contents()
    {
      occupied[id]
    }

    /** `size()`: the number of stored values. */
    function Size(): (r: nat)
      reads this
      requires Valid()
      ensures r == |Contents().Keys|
    {
      CountIsSize(data, forwardMap, backwardMap, occupied);
      |data|
    }

    /** `at(index)`: the value in dense slot `index`, bypassing ids. */
    function At(index: nat): (r: T)
      reads this
      requires Valid() && index < |data|
      ensures backwardMap[index] in Contents() && r == Contents()[backwardMap[index]]
    {
      data[index]
    }

    /** Assigning through the reference `at(index)` returns: slot `index`
        takes the value, so the id owning that slot now maps to it, and the
        ids, links and free chain stay as they were. */
    method SetAt(index: nat, value: T)
      requires Valid() && index < |data|
      modifies this
      ensures Valid() && data == old(data)[index := value]
      ensures forwardMap == old(forwardMap) && backwardMap == old(backwardMap) && occupied == old(occupied)
      ensures nextUnused == old(nextUnused) && free == old(free)
      ensures Contents() == old(Contents())[backwardMap[index] := value]
    {
      data := data[index := value];
    }

    /** `operator[](id)` */
    function Get(id: nat): (r: T)
      reads this
      requires Valid() && id in Contents()
      ensures r == Contents()[id]
    {
      data[forwardMap[id]]
    }

    /** `insert(value)`: takes the head of the free chain, or a new id at the
        end when the chain is empty. */
    method Insert(value: T) returns (id: nat)
      requires Valid()
      modifies this
      ensures Valid()
      ensures id == old(nextUnused) && id !in old(Contents())
      ensures Contents() == old(Contents())[id := value]
      ensures |data| == old(|data|) + 1
      ensures old(Dense()) ==> Dense() && id == old(|data|)
    {
      ghost var wasDense, n := Dense(), |data|;
      ghost var fm0, occ0 := forwardMap, occupied;
      if wasDense {
        DenseNoFree(n, forwardMap, occupied, free, nextUnused);
      }
      if nextUnused == |forwardMap| {
        GrowIds();
      }
      id := OccupyNext(value);
      if wasDense {
        GrowDense(n, fm0, occ0);
      }
    }

    /** `insert`, lines 67-71: with the chain empty, a new unoccupied id is
        added at the end, linking one past itself. */
    method GrowIds()
      requires Valid() && nextUnused == |forwardMap|
      modifies this
      ensures Valid() && Contents() == old(Contents())
      ensures forwardMap == old(forwardMap) + [|old(forwardMap)| + 1] && occupied == old(occupied) + [false]
      ensures data == old(data) && backwardMap == old(backwardMap) && nextUnused == old(nextUnused)
      ensures free == [nextUnused]
    {
      if free != [] {
        assert false;
      }
      GrowKeeps(data, forwardMap, backwardMap, occupied);
      forwardMap := forwardMap + [|forwardMap| + 1];
      occupied := occupied + [false];
      free := [nextUnused];
    }

    /** `insert`, lines 73-80: the head of the free chain is occupied by a
        new last dense slot holding `value`. */
    method OccupyNext(value: T) returns (id: nat)
      requires Valid() && nextUnused < |forwardMap|
      modifies this
      ensures Valid() && id == old(nextUnused) && !old(occupied[id])
      ensures Contents() == old(Contents())[id := value]
      ensures forwardMap == old(forwardMap)[id := old(|data|)] && occupied == old(occupied)[id := true]
      ensures data == old(data) + [value] && backwardMap == old(backwardMap) + [id]
    {
      id := nextUnused;
      assert free != [] && free[0] == id;
      TakeHeadKeeps(data, forwardMap, backwardMap, occupied, free, value);
      nextUnused := forwardMap[id];
      forwardMap := forwardMap[id := |data|];
      occupied := occupied[id := true];
      data := data + [value];
      backwardMap := backwardMap + [id];
      free := free[1..];
    }

    /** `erase(id)`: the last dense value moves into the freed slot, and `id`
        becomes the head of the free chain. */
    method Erase(id: nat)
      requires Valid() && id < |forwardMap| && occupied[id]
      modifies this
      ensures Valid()
      ensures Contents() == old(Contents()) - {id}
      ensures nextUnused == id
      ensures |data| == old(|data|) - 1
    {
      EraseKeeps(data, forwardMap, backwardMap, occupied, free, nextUnused, id);
      var forwardIndex := forwardMap[id];
      var last := |data| - 1;
      data := data[forwardIndex := data[last]];
      data := data[..last];
      var backwardIndex := backwardMap[last];
      backwardMap := backwardMap[forwardIndex := backwardIndex];
      backwardMap := backwardMap[..last];
      forwardMap := forwardMap[backwardIndex := forwardIndex];
      forwardMap := forwardMap[id := nextUnused];
      occupied := occupied[id := false];
      free := [id] + free;
      nextUnused := id;
    }

    /** `clear()` */
    method Clear()
      modifies this
      ensures Valid() && Dense() && Contents() == map[] && |data| == 0 && nextUnused == 0
    {
      data, forwardMap, backwardMap, occupied, nextUnused := [], [], [], [], 0;
      free := [];
    }

    /** No id was ever freed: every id is in use and names its own slot. */
    ghost predicate Dense()
      reads this
    {
      DenseMaps(|data|, forwardMap, occupied)
    }
  }
}
