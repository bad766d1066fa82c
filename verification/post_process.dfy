// The bloom mip chain of the post-processing pass
// (Engine/src/render/postProcess/postProcess.cpp `applyBloom`,
// `initBloomChain`, `bloomDownsample`, `bloomUpsample`). Textures and
// shaders are not modelled; each pass is recorded by the chain indices it
// renders into and samples from.

module PostProcessing {

  /** A texture size in texels (`math::Vec2i` built from the texture's
      width and height). */
  datatype Size = Size(x: nat, y: nat)

  /** `(prev / 2).cwiseMax(1)`: each side halved, rounded down, at least 1. */
  function Half(s: Size): (r: Size)
    ensures r.x >= 1 && r.y >= 1 && r.x <= s.x + 1 && r.y <= s.y + 1
  {
    Size(if s.x / 2 < 1 then 1 else s.x / 2, if s.y / 2 < 1 then 1 else s.y / 2)
  }

  /** Halving changes nothing exactly at 1x1, where the chain stops. */
  lemma HalfFixedIff(s: Size)
    ensures Half(s) == s <==> s == Size(1, 1)
  {
  }

  /** The sizes the loop adds after `prev`, with `remaining` iterations
      left: each the half of the one before, stopping at the first size
      that halving leaves unchanged. */
  function ChainFrom(prev: Size, remaining: nat): seq<Size>
    decreases remaining
  {
    if remaining == 0 then []
    else
      var next := Half(prev);
      if next == prev then [] else [next] + ChainFrom(next, remaining - 1)
  }

  /** `m_bloomChain.sizes` after `initBloomChain(src, length)`. */
  function ChainSizes(src: Size, length: int): seq<Size>
  {
    [src] + ChainFrom(src, if length < 0 then 0 else length)
  }

  lemma {:induction false} ChainFromShape(prev: Size, remaining: nat)
    ensures var s := [prev] + ChainFrom(prev, remaining);
      |s| <= remaining + 1 &&
      (forall k :: 0 <= k < |s| - 1 ==> s[k + 1] == Half(s[k]) && s[k] != Size(1, 1)) &&
      (|s| < remaining + 1 ==> s[|s| - 1] == Size(1, 1))
    decreases remaining
  {
    var s := [prev] + ChainFrom(prev, remaining);
    if remaining > 0 {
      var next := Half(prev);
      HalfFixedIff(prev);
      if next != prev {
        ChainFromShape(next, remaining - 1);
        var t := [next] + ChainFrom(next, remaining - 1);
        assert s == [prev] + t;
      }
    }
  }

  /** The chain starts at the source size, has at most `length + 1`
      entries, halves from each entry to the next, never goes past 1x1,
      and is shorter than `length + 1` only when it reached 1x1. */
  lemma {:induction false} ChainShape(src: Size, length: int)
    requires length >= 0
    ensures var s := ChainSizes(src, length);
      s[0] == src && |s| <= length + 1 &&
      (forall k :: 0 <= k < |s| - 1 ==> s[k + 1] == Half(s[k]) && s[k] != Size(1, 1)) &&
      (|s| < length + 1 ==> s[|s| - 1] == Size(1, 1))
  {
    ChainFromShape(src, length);
  }

  // ---- The passes

  /** Where a pass renders: a level of the chain, or the destination. */
  datatype Target = Level(index: int) | Destination

  /** One draw: its render target, the chain levels it samples, and the
      chain level whose size gives the viewport. */
  datatype Draw = Draw(target: Target, inputs: seq<int>, viewport: int)

  /** Every chain index the draw uses lies in `[0, n)`. */
  predicate DrawInRange(d: Draw, n: nat)
  {
    (d.target.Level? ==> 0 <= d.target.index < n) &&
    (forall j :: 0 <= j < |d.inputs| ==> 0 <= d.inputs[j] < n) &&
    0 <= d.viewport < n
  }

  /** `bloomDownsample` over `n` levels: level `i` drawn from level `i - 1`,
      for `i` from 1 up. */
  function DownsampleDraws(n: nat): seq<Draw>
  {
    if n <= 1 then [] else DownsampleDraws(n - 1) + [Draw(Level(n - 1), [n - 2], n - 1)]
  }

  /** The upsample loop from level `i` down to 1: level `i` drawn from
      level `i + 1`. */
  function UpsamplePasses(i: int): seq<Draw>
    decreases if i < 0 then 0 else i
  {
    if i <= 0 then [] else [Draw(Level(i), [i + 1], i)] + UpsamplePasses(i - 1)
  }

  /** `bloomUpsample` as written, over `n` levels: the loop from `n - 2`
      down to 1, then the final draw into the destination that samples
      levels 1 and 0, whatever `n` is. */
  function UpsampleDrawsAsWritten(n: nat): seq<Draw>
  {
    UpsamplePasses(n - 2) + [Draw(Destination, [1, 0], 0)]
  }

  /** Every downsample draw stays inside the chain. */
  lemma {:induction false} DownsampleInRange(n: nat)
    ensures |DownsampleDraws(n)| == if n == 0 then 0 else n - 1
    ensures forall d :: d in DownsampleDraws(n) ==> DrawInRange(d, n)
  {
    if n > 1 {
      DownsampleInRange(n - 1);
      forall d | d in DownsampleDraws(n - 1)
        ensures DrawInRange(d, n)
      {
        assert DrawInRange(d, n - 1);
      }
    }
  }

  lemma {:induction false} UpsamplePassesInRange(i: int, n: nat)
    requires i + 2 <= n
    ensures forall d :: d in UpsamplePasses(i) ==> DrawInRange(d, n)
  {
    if i > 0 {
      UpsamplePassesInRange(i - 1, n);
    }
  }

  /** The upsample stays inside the chain exactly when the chain has at
      least two levels: with one level its final draw samples level 1. */
  lemma {:induction false} UpsampleInRangeIff(n: nat)
    ensures (forall d :: d in UpsampleDrawsAsWritten(n) ==> DrawInRange(d, n)) <==> n >= 2
  {
    var last := Draw(Destination, [1, 0], 0);
    assert last in UpsampleDrawsAsWritten(n);
    if n >= 2 {
      UpsamplePassesInRange(n - 2, n);
    } else {
      assert last.inputs[0] == 1;
      assert !DrawInRange(last, n);
    }
  }

  /** A 1x1 source, with any chain length, gives a one-level chain, and
      the upsample as written then samples level 1, which does not exist. */
  lemma OneByOneSourceReadsPastChain(length: int)
    requires length >= 1
    ensures |ChainSizes(Size(1, 1), length)| == 1
    ensures !DrawInRange(UpsampleDrawsAsWritten(1)[|UpsampleDrawsAsWritten(1)| - 1], 1)
  {
    assert Half(Size(1, 1)) == Size(1, 1);
    assert UpsampleDrawsAsWritten(1)[|UpsampleDrawsAsWritten(1)| - 1].inputs[0] == 1;
  }

  /** Only a 1x1 source gives a one-level chain. */
  lemma OneLevelOnlyAtOneByOne(src: Size, length: int)
    requires length >= 1
    ensures |ChainSizes(src, length)| == 1 <==> src == Size(1, 1)
  {
    HalfFixedIff(src);
  }

  /** The texture kept at a chain level: the source's own texture at level
      0, a texture created with the level's size elsewhere. */
  datatype Texture = SourceTexture | CreatedTexture(size: Size)

  class PostProcess {
    var textures: seq<Texture>
    var sizes: seq<Size>

    constructor()
      ensures textures == [] && sizes == []
    {
      textures, sizes := [], [];
    }

    /** The chain's two lists describe the same levels. */
    ghost predicate ChainValid()
      reads this
    {
      |textures| == |sizes| && |sizes| >= 1 && textures[0] == SourceTexture &&
      forall k :: 1 <= k < |textures| ==> textures[k] == CreatedTexture(sizes[k])
    }

    /** `initBloomChain`: both lists cleared, the source at level 0, then a
        halved level per iteration until 1x1. */
    method InitBloomChain(src: Size, length: int)
      modifies this
      ensures sizes == ChainSizes(src, length) && ChainValid()
    {
      textures, sizes := [SourceTexture], [src];
      var prevSize := src;
      var remaining: nat := if length < 0 then 0 else length;
      for i := 0 to remaining
        invariant sizes + ChainFrom(prevSize, remaining - i) == ChainSizes(src, length)
        invariant ChainValid() && prevSize == sizes[|sizes| - 1]
      {
        var downsampleSize := Half(prevSize);
        if downsampleSize == prevSize {
          break;
        }
        prevSize := downsampleSize;
        assert ChainFrom(sizes[|sizes| - 1], remaining - i) == [downsampleSize] + ChainFrom(downsampleSize, remaining - i - 1);
        textures := textures + [CreatedTexture(downsampleSize)];
        sizes := sizes + [downsampleSize];
      }
    }

    /** `bloomDownsample`: one draw per level from 1 up, each sampling the
        level above it. */
    method BloomDownsample() returns (draws: seq<Draw>)
      ensures draws == DownsampleDraws(|textures|)
    {
      draws := [];
      var i := 1;
      while i < |textures|
        invariant 1 <= i && (i <= |textures| || i == 1)
        invariant draws == DownsampleDraws(i)
      {
        draws := draws + [Draw(Level(i), [i - 1], i)];
        i := i + 1;
      }
      assert DownsampleDraws(1) == DownsampleDraws(0) == [];
    }

    /** `bloomUpsample` on a chain of at least two levels: each level from
        `n - 2` down to 1 drawn from the level below it, then the final
        draw into the destination from levels 1 and 0. */
    method BloomUpsample() returns (draws: seq<Draw>)
      requires |textures| >= 2
      ensures draws == UpsampleDrawsAsWritten(|textures|)
    {
      draws := [];
      var i := |textures| - 2;
      while i > 0
        invariant 0 <= i <= |textures| - 2
        invariant draws + UpsamplePasses(i) == UpsamplePasses(|textures| - 2)
      {
        draws := draws + [Draw(Level(i), [i + 1], i)];
        i := i - 1;
      }
      draws := draws + [Draw(Destination, [1, 0], 0)];
    }

    /** `applyBloom`, with the upsample skipped when the chain has only
        the source level: nothing happens for a length below 1, and every
        draw stays inside the chain. */
    method ApplyBloom(src: Size, length: int) returns (draws: seq<Draw>)
      modifies this
      ensures length < 1 ==> draws == [] && textures == old(textures) && sizes == old(sizes)
      ensures length >= 1 ==> sizes == ChainSizes(src, length) && ChainValid()
      ensures length >= 1 ==>
        draws == DownsampleDraws(|sizes|) + (if |sizes| >= 2 then UpsampleDrawsAsWritten(|sizes|) else [])
      ensures forall d :: d in draws ==> DrawInRange(d, |textures|)
    {
      if length < 1 {
        return [];
      }
      InitBloomChain(src, length);
      draws := BloomDownsample();
      DownsampleInRange(|textures|);
      if |textures| >= 2 {
        var up := BloomUpsample();
        UpsampleInRangeIff(|textures|);
        draws := draws + up;
      }
    }
  }
}
