// The fog settings of the renderer: the mode flags, density and phase
// parameter, and the list of volumetric fog transforms
// (Engine/src/render/fogRenderer/fogRenderer.h, fogRenderer.cpp). The
// shaders, the constant buffer and the draws are not modelled.

module FogRenderers {
  import opened Vectors
  import opened TransformSystems

  /** `math::setScale`: the first three diagonal entries take the scale. */
  function SetScale(m: Mat4, scale: Vec3): Mat4
    requires |m.entries| == 16
  {
    Mat4(m.entries[0 := scale.x][5 := scale.y][10 := scale.z])
  }

  /** `math::setTranslation`: the first three entries of row 3 take the
      translation (row-vector convention). */
  function SetTranslation(m: Mat4, translation: Vec3): Mat4
    requires |m.entries| == 16
  {
    Mat4(m.entries[12 := translation.x][13 := translation.y][14 := translation.z])
  }

  /** `math::getTranslation`: the first three entries of row 3. */
  function GetTranslation(m: Mat4): Vec3
    requires |m.entries| == 16
  {
    Vec3(m.Entry(3, 0), m.Entry(3, 1), m.Entry(3, 2))
  }

  /** The transform `addVolumetricFog` stores: identity, then scale, then
      translation. */
  function FogTransform(position: Vec3, scale: Vec3): (m: Mat4)
    ensures |m.entries| == 16
  {
    SetTranslation(SetScale(Identity(), scale), position)
  }

  /** The fog transform scales by `scale` along the axes and moves by
      `position`: the diagonal holds the scale and a final 1, row 3 holds
      the position, and every other entry is 0. */
  lemma FogTransformEntries(position: Vec3, scale: Vec3, r: nat, c: nat)
    requires r < 4 && c < 4
    ensures FogTransform(position, scale).Entry(r, c) ==
      if r == c && r < 3 then scale.Get(r)
      else if r == 3 && c < 3 then position.Get(c)
      else if r == c then 1.0
      else 0.0
  {
    var id := Identity();
    assert id.Entry(r, c) == if r == c then 1.0 else 0.0;
  }

  /** Reading the translation back gives the position it was built from. */
  lemma FogTranslationRoundTrip(position: Vec3, scale: Vec3)
    ensures GetTranslation(FogTransform(position, scale)) == position
  {
    FogTransformEntries(position, scale, 3, 0);
    FogTransformEntries(position, scale, 3, 1);
    FogTransformEntries(position, scale, 3, 2);
  }

  class FogRenderer {
    var density: real
    var phaseFunctionParameter: real
    var uniformFogEnabled: bool
    var volumetricFogEnabled: bool
    var volumetricFogInstances: seq<Mat4>

    /** At most one fog mode is on. */
    ghost predicate Valid()
      reads this
    {
      !(uniformFogEnabled && volumetricFogEnabled)
    }

    /** Density 0.1, phase parameter -0.7, no fog enabled, and one
        volumetric fog at (0, 3, 0) scaled by 3. */
    constructor()
      ensures Valid() && !uniformFogEnabled && !volumetricFogEnabled
      ensures density == 0.1 && phaseFunctionParameter == -0.7
      ensures volumetricFogInstances == [FogTransform(Vec3(0.0, 3.0, 0.0), Vec3(3.0, 3.0, 3.0))]
    {
      density := 0.1;
      phaseFunctionParameter := -0.7;
      uniformFogEnabled, volumetricFogEnabled := false, false;
      volumetricFogInstances := [];
      new;
      AddVolumetricFog(Vec3(0.0, 3.0, 0.0), Vec3(3.0, 3.0, 3.0));
    }

    method AddVolumetricFog(position: Vec3, scale: Vec3)
      modifies this
      ensures volumetricFogInstances == old(volumetricFogInstances) + [FogTransform(position, scale)]
      ensures density == old(density) && phaseFunctionParameter == old(phaseFunctionParameter)
      ensures uniformFogEnabled == old(uniformFogEnabled) && volumetricFogEnabled == old(volumetricFogEnabled)
    {
      var transform := Identity();
      transform := SetScale(transform, scale);
      transform := SetTranslation(transform, position);
      volumetricFogInstances := volumetricFogInstances + [transform];
    }

    function GetDensity(): real
      reads this
    {
      density
    }

    function GetPhaseFunctionParameter(): real
      reads this
    {
      phaseFunctionParameter
    }

    function IsUniformFogEnabled(): bool
      reads this
    {
      uniformFogEnabled
    }

    function IsVolumetricFogEnabled(): bool
      reads this
    {
      volumetricFogEnabled
    }

    function IsFogEnabled(): bool
      reads this
    {
      uniformFogEnabled || volumetricFogEnabled
    }

    /** `setDensity`: the getter then returns the value set; nothing else
        changes. */
    method SetDensity(d: real)
      modifies this
      ensures GetDensity() == d
      ensures phaseFunctionParameter == old(phaseFunctionParameter) && volumetricFogInstances == old(volumetricFogInstances)
      ensures uniformFogEnabled == old(uniformFogEnabled) && volumetricFogEnabled == old(volumetricFogEnabled)
    {
      density := d;
    }

    method SetPhaseFunctionParameter(phase: real)
      modifies this
      ensures GetPhaseFunctionParameter() == phase
      ensures density == old(density) && volumetricFogInstances == old(volumetricFogInstances)
      ensures uniformFogEnabled == old(uniformFogEnabled) && volumetricFogEnabled == old(volumetricFogEnabled)
    {
      phaseFunctionParameter := phase;
    }

    /** `enableUniformFog`: uniform on, volumetric off. */
    method EnableUniformFog()
      modifies this
      ensures Valid() && IsUniformFogEnabled() && !IsVolumetricFogEnabled() && IsFogEnabled()
      ensures density == old(density) && phaseFunctionParameter == old(phaseFunctionParameter)
      ensures volumetricFogInstances == old(volumetricFogInstances)
    {
      uniformFogEnabled := true;
      volumetricFogEnabled := false;
    }

    /** `enableVolumetricFog`: volumetric on, uniform off. */
    method EnableVolumetricFog()
      modifies this
      ensures Valid() && !IsUniformFogEnabled() && IsVolumetricFogEnabled() && IsFogEnabled()
      ensures density == old(density) && phaseFunctionParameter == old(phaseFunctionParameter)
      ensures volumetricFogInstances == old(volumetricFogInstances)
    {
      uniformFogEnabled := false;
      volumetricFogEnabled := true;
    }

    /** `disableFog`: both off. */
    method DisableFog()
      modifies this
      ensures Valid() && !IsUniformFogEnabled() && !IsVolumetricFogEnabled() && !IsFogEnabled()
      ensures density == old(density) && phaseFunctionParameter == old(phaseFunctionParameter)
      ensures volumetricFogInstances == old(volumetricFogInstances)
    {
      uniformFogEnabled := false;
      volumetricFogEnabled := false;
    }
  }

  /** With at most one mode on, fog is enabled exactly when one of the two
      modes is, never both. */
  lemma FogEnabledIffOneMode(f: FogRenderer)
    requires f.Valid()
    ensures f.IsFogEnabled() <==> f.IsUniformFogEnabled() != f.IsVolumetricFogEnabled()
  {
  }
}
