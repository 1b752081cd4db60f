/**
 * Material: one shader set per quality level, the choice of the level a material is bound
 * at, and the texture-unit numbering of `bind`. Shaders are known by their full names;
 * which shader files are readable and the uniform locations a compiled shader reports are
 * inputs (`ShaderEnv`), and the material's textures and constants are the entries of its
 * data in key order (`MaterialData`).
 */
module Material {
  import opened Wrappers
  import opened Quality

  /** GLuint(-1): the value the constructor gives the blob and cube map. */
  const NoTexture: int := 0xFFFF_FFFF

  /** What setShader needs to know about the shader files: access(…, R_OK) and uniformLocation. */
  datatype ShaderEnv = ShaderEnv(readable: string -> bool, location: string -> string -> int)

  /** The parts of MaterialData that setShader reads: shader base names per quality, textures, constants. */
  datatype MaterialData = MaterialData(shaderNames: seq<string>, textures: seq<(string, int)>, constants: seq<(string, real)>)

  datatype ShaderSet = ShaderSet(
    shader: Option<string>,
    textureUnits: seq<(int, int)>,
    constants: seq<(int, real)>,
    blobMapUniform: int,
    cubeMapUniform: int)

  /** A constructed slot: no shader, no units, both uniforms -1. */
  const EmptySlot := ShaderSet(None, [], [], -1, -1)

  datatype ShaderVariant = Default | Blobbing

  function Suffix(v: ShaderVariant): string {
    if v == Blobbing then ".blobbing" else ".default"
  }

  /** The uniform updates bind performs: a constant, or a texture bound to a unit whose number is given to a sampler. */
  datatype GlCall = SetConstant(uniform: int, value: real) | BindUnit(unit: int, texture: int, uniform: int)

  /**
   * The entries whose name the shader knows, paired with the uniform location, in entry order.
   */
  function Located<T>(entries: seq<(string, T)>, location: string -> int): (r: seq<(int, T)>)
    ensures |r| <= |entries|
    ensures forall k :: 0 <= k < |r| ==> r[k].0 >= 0
  {
    if |entries| == 0 then []
    else
      var last := entries[|entries| - 1];
      Located(entries[..|entries| - 1], location) + (if location(last.0) >= 0 then [(location(last.0), last.1)] else [])
  }

  /** Every entry with a location is kept, paired with that location. */
  lemma {:induction false} LocatedKeepsKnown<T>(entries: seq<(string, T)>, location: string -> int, i: int)
    requires 0 <= i < |entries| && location(entries[i].0) >= 0
    ensures (location(entries[i].0), entries[i].1) in Located(entries, location)
  {
    if i < |entries| - 1 {
      LocatedKeepsKnown(entries[..|entries| - 1], location, i);
    }
  }

  /** Every kept pair comes from an entry, with that entry's location. */
  lemma {:induction false} LocatedComesFromEntries<T>(entries: seq<(string, T)>, location: string -> int, k: int)
    requires 0 <= k < |Located(entries, location)|
    ensures exists i :: 0 <= i < |entries| && Located(entries, location)[k] == (location(entries[i].0), entries[i].1)
  {
    var n := |entries|;
    var front := Located(entries[..n - 1], location);
    if k < |front| {
      LocatedComesFromEntries(entries[..n - 1], location, k);
      var i :| 0 <= i < n - 1 && front[k] == (location(entries[..n - 1][i].0), entries[..n - 1][i].1);
      assert Located(entries, location)[k] == (location(entries[i].0), entries[i].1);
    } else {
      assert Located(entries, location)[k] == (location(entries[n - 1].0), entries[n - 1].1);
    }
  }

  /** setShader(quality, name): the slot it leaves behind. */
  function Install(slot: ShaderSet, name: string, env: ShaderEnv, data: MaterialData): (r: ShaderSet)
    ensures r.shader.Some? <==> env.readable(name)
    ensures !env.readable(name) ==> r == slot.(shader := None)
    ensures env.readable(name) ==>
      (r.shader == Some(name) && r.blobMapUniform == env.location(name)("blobMap")
       && r.cubeMapUniform == env.location(name)("cubeMap"))
  {
    if !env.readable(name) then slot.(shader := None)
    else
      var loc := env.location(name);
      ShaderSet(Some(name), Located(data.textures, loc), Located(data.constants, loc), loc("blobMap"), loc("cubeMap"))
  }

  /** An installed shader's sampler and constant uniforms all exist in it. */
  lemma InstalledUniformsExist(slot: ShaderSet, name: string, env: ShaderEnv, data: MaterialData)
    requires env.readable(name)
    ensures var r := Install(slot, name, env, data);
      (forall k :: 0 <= k < |r.textureUnits| ==> r.textureUnits[k].0 >= 0)
      && (forall k :: 0 <= k < |r.constants| ==> r.constants[k].0 >= 0)
      && |r.textureUnits| <= |data.textures| && |r.constants| <= |data.constants|
  {
  }

  /** getBindingQuality over the three slots, with the engine-wide maximum as a parameter. */
  function BindingQuality(slots: seq<ShaderSet>, default: Quality, maximum: Quality): (q: Quality)
    requires |slots| == 3
    ensures Rank(q) <= Rank(default) && Rank(q) <= Rank(maximum)
    ensures q == Low || slots[Rank(q)].shader.Some?
    ensures forall better: Quality ::
      (Rank(q) < Rank(better) <= Rank(default) && Rank(better) <= Rank(maximum) ==> slots[Rank(better)].shader.None?)
  {
    var q0 := if Rank(default) > Rank(maximum) then maximum else default;
    var q1 := if slots[Rank(q0)].shader.None? && q0 == High then Medium else q0;
    if slots[Rank(q1)].shader.None? && q1 == Medium then Low else q1
  }

  /** Texture units 0..n-1 for the slot's sampler uniforms, in order. */
  function TextureCalls(units: seq<(int, int)>): (r: seq<GlCall>)
    ensures |r| == |units|
    ensures forall i :: 0 <= i < |units| ==> r[i] == BindUnit(i, units[i].1, units[i].0)
  {
    seq(|units|, i requires 0 <= i < |units| => BindUnit(i, units[i].1, units[i].0))
  }

  function ConstantCalls(constants: seq<(int, real)>): (r: seq<GlCall>)
    ensures |r| == |constants|
    ensures forall i :: 0 <= i < |constants| ==> r[i] == SetConstant(constants[i].0, constants[i].1)
  {
    seq(|constants|, i requires 0 <= i < |constants| => SetConstant(constants[i].0, constants[i].1))
  }

  /**
   * The calls bind makes for a slot with a shader, as written: the blob and cube map guards
   * test the GLuint fields against 0, which always holds, and the cube map's unit is given to
   * the blob map's uniform.
   */
  function BindCallsAsWritten(slot: ShaderSet, blobMap: int, cubeMap: int): (r: seq<GlCall>)
    ensures |r| == |slot.constants| + |slot.textureUnits|
                   + (if slot.blobMapUniform >= 0 then 1 else 0) + (if slot.cubeMapUniform >= 0 then 1 else 0)
    ensures slot.blobMapUniform >= 0 ==>
              r[|slot.constants| + |slot.textureUnits|] == BindUnit(|slot.textureUnits|, blobMap, slot.blobMapUniform)
    ensures slot.cubeMapUniform >= 0 ==>
              r[|r| - 1] == BindUnit(|r| - 1 - |slot.constants|, cubeMap, slot.blobMapUniform)
  {
    var n := |slot.textureUnits|;
    var blob := if slot.blobMapUniform >= 0 then [BindUnit(n, blobMap, slot.blobMapUniform)] else [];
    var cube := if slot.cubeMapUniform >= 0 then [BindUnit(n + |blob|, cubeMap, slot.blobMapUniform)] else [];
    ConstantCalls(slot.constants) + TextureCalls(slot.textureUnits) + blob + cube
  }

  /** The calls bind evidently intends: maps that were never set are skipped, the cube map goes to its own uniform. */
  function BindCalls(slot: ShaderSet, blobMap: int, cubeMap: int): seq<GlCall> {
    ConstantCalls(slot.constants) + TextureCalls(slot.textureUnits) + MapCalls(slot, |slot.textureUnits|, blobMap, cubeMap)
  }

  /** The blob and cube map bindings from unit n on, each only when the map was set and the shader has its sampler. */
  function MapCalls(slot: ShaderSet, n: int, blobMap: int, cubeMap: int): (r: seq<GlCall>)
    ensures |r| <= 2
    ensures forall i :: 0 <= i < |r| ==> r[i].BindUnit? && r[i].unit == n + i && r[i].texture != NoTexture
  {
    var blob := if blobMap != NoTexture && slot.blobMapUniform >= 0 then [BindUnit(n, blobMap, slot.blobMapUniform)] else [];
    var cube := if cubeMap != NoTexture && slot.cubeMapUniform >= 0 then [BindUnit(n + |blob|, cubeMap, slot.cubeMapUniform)] else [];
    blob + cube
  }

  /**
   * The intended binding: after the constants, the units are numbered 0, 1, 2, … without gaps,
   * the never-set texture is never bound, the blob map (when bound) takes unit n and its own
   * uniform, and the cube map (when bound) takes the next unit and its own uniform.
   */
  lemma BindCallsNumbering(slot: ShaderSet, blobMap: int, cubeMap: int)
    ensures var calls := BindCalls(slot, blobMap, cubeMap);
      var c, n := |slot.constants|, |slot.textureUnits|;
      && (forall i :: 0 <= i < c ==> calls[i] == SetConstant(slot.constants[i].0, slot.constants[i].1))
      && (forall i :: c <= i < |calls| ==> calls[i].BindUnit? && calls[i].unit == i - c)
      && (forall i :: 0 <= i < n ==> calls[c + i] == BindUnit(i, slot.textureUnits[i].1, slot.textureUnits[i].0))
      && (forall i :: c + n <= i < |calls| ==> calls[i].texture != NoTexture)
      && (blobMap != NoTexture && slot.blobMapUniform >= 0 <==>
            (|calls| > c + n && calls[c + n].texture == blobMap && calls[c + n].uniform == slot.blobMapUniform))
      && (cubeMap != NoTexture && slot.cubeMapUniform >= 0 ==>
            calls[|calls| - 1] == BindUnit(|calls| - 1 - c, cubeMap, slot.cubeMapUniform))
  {
  }

  /**
   * The as-written binding of a freshly constructed material (both maps GLuint(-1)) binds the
   * never-set texture to the blob unit, and a shader with both a blob and a cube sampler gets the
   * cube map's unit on the blob sampler, overriding the blob map's unit.
   */
  lemma CubeMapBoundThroughBlobUniform()
    ensures var slot := ShaderSet(Some("terrain"), [], [], 3, 4);
      BindCallsAsWritten(slot, NoTexture, 7) == [BindUnit(0, NoTexture, 3), BindUnit(1, 7, 3)]
      && BindCalls(slot, NoTexture, 7) == [BindUnit(0, 7, 4)]
  {
  }

  /** Clamps the requested filter anisotropy into [1, maximum]; the result is what is stored. */
  function ClampAnisotropy(anisotropy: real, maximum: real): (r: real)
    ensures anisotropy > maximum ==> r == maximum
    ensures anisotropy <= maximum ==> r == if anisotropy < 1.0 then 1.0 else anisotropy
    ensures maximum >= 1.0 ==> 1.0 <= r <= maximum
  {
    if anisotropy > maximum then maximum
    else if anisotropy < 1.0 then 1.0
    else anisotropy
  }

  /** Setting an already clamped value again changes nothing. */
  lemma ClampAnisotropyIdempotent(anisotropy: real, maximum: real)
    requires maximum >= 1.0
    ensures ClampAnisotropy(ClampAnisotropy(anisotropy, maximum), maximum) == ClampAnisotropy(anisotropy, maximum)
  {
  }

  class Material {
    var data: MaterialData
    var env: ShaderEnv
    const shaderSet: array<ShaderSet>
    var blobMap: int
    var cubeMap: int
    var defaultQuality: Quality
    var boundQuality: Quality

    ghost predicate Valid()
      reads this
    {
      shaderSet.Length == 3 && |data.shaderNames| == 3
    }

    function Slots(): (s: seq<ShaderSet>)
      reads this, shaderSet
      requires Valid()
      ensures |s| == 3
    {
      shaderSet[..]
    }

    /** The full shader name of a quality for a variant. */
    function ShaderName(q: Quality, v: ShaderVariant): string
      reads this
      requires Valid()
    {
      data.shaderNames[Rank(q)] + Suffix(v)
    }

    /**
     * A material starts with default quality HIGH, unset blob and cube maps and empty slots,
     * and then installs the shaders of its variant.
     */
    constructor (data: MaterialData, env: ShaderEnv, variant: ShaderVariant)
      requires |data.shaderNames| == 3
      ensures Valid() && fresh(shaderSet)
      ensures this.data == data && this.env == env
      ensures defaultQuality == High && blobMap == NoTexture && cubeMap == NoTexture
      ensures forall q: Quality :: shaderSet[Rank(q)] == Install(EmptySlot, ShaderName(q, variant), env, data)
    {
      this.data := data;
      this.env := env;
      defaultQuality := High;
      boundQuality := Low;
      blobMap, cubeMap := NoTexture, NoTexture;
      shaderSet := new ShaderSet[3](_ => EmptySlot);
      new;
      SetShaderVariant(variant);
    }

    /** The pairs of entries the shader knows, built one entry at a time. */
    static method CollectLocated<T>(entries: seq<(string, T)>, location: string -> int) returns (r: seq<(int, T)>)
      ensures r == Located(entries, location)
    {
      r := [];
      var i := 0;
      while i < |entries|
        invariant 0 <= i <= |entries|
        invariant r == Located(entries[..i], location)
      {
        assert entries[..i + 1][..i] == entries[..i];
        var uniform := location(entries[i].0);
        if uniform >= 0 {
          r := r + [(uniform, entries[i].1)];
        }
        i := i + 1;
      }
      assert entries[..i] == entries;
    }

    /** setShader(quality, name): replaces one slot and no other. */
    method SetShader(q: Quality, name: string)
      requires Valid()
      modifies shaderSet
      ensures shaderSet[Rank(q)] == Install(old(shaderSet[Rank(q)]), name, env, data)
      ensures forall k :: 0 <= k < 3 && k != Rank(q) ==> shaderSet[k] == old(shaderSet[k])
    {
      var slot := shaderSet[Rank(q)].(shader := None);
      if !env.readable(name) {
        shaderSet[Rank(q)] := slot;
        return;
      }
      var loc := env.location(name);
      var units := CollectLocated(data.textures, loc);
      var constants := CollectLocated(data.constants, loc);
      shaderSet[Rank(q)] := ShaderSet(Some(name), units, constants, loc("blobMap"), loc("cubeMap"));
    }

    /** setShader(variant): LOW, MEDIUM and HIGH in turn. */
    method SetShaderVariant(v: ShaderVariant)
      requires Valid()
      modifies shaderSet
      ensures forall q: Quality :: shaderSet[Rank(q)] == Install(old(shaderSet[Rank(q)]), ShaderName(q, v), env, data)
    {
      SetShader(Low, ShaderName(Low, v));
      SetShader(Medium, ShaderName(Medium, v));
      SetShader(High, ShaderName(High, v));
    }

    method SetBlobMap(texture: int)
      modifies this`blobMap
      ensures blobMap == texture
    {
      blobMap := texture;
    }

    method SetCubeMap(texture: int)
      modifies this`cubeMap
      ensures cubeMap == texture
    {
      cubeMap := texture;
    }

    method SetDefaultQuality(q: Quality)
      modifies this`defaultQuality
      ensures defaultQuality == q
    {
      defaultQuality := q;
    }

    /**
     * bind: records the binding quality; with no shader in that slot nothing else happens,
     * otherwise the constants, the texture units, the blob map and the cube map are set up as
     * Material.cpp writes it: the map guards test unsigned names against 0, so both maps are
     * bound whenever the shader has the sampler, and the cube map's unit goes to the blob
     * map's uniform.
     */
    method Bind(maximum: Quality) returns (calls: seq<GlCall>)
      requires Valid()
      modifies this`boundQuality
      ensures boundQuality == BindingQuality(Slots(), defaultQuality, maximum)
      ensures calls == if shaderSet[Rank(boundQuality)].shader.None? then []
        else BindCallsAsWritten(shaderSet[Rank(boundQuality)], blobMap, cubeMap)
    {
      boundQuality := BindingQuality(shaderSet[..], defaultQuality, maximum);
      var slot := shaderSet[Rank(boundQuality)];
      if slot.shader.None? {
        return [];
      }
      calls := [];
      var i := 0;
      while i < |slot.constants|
        invariant 0 <= i <= |slot.constants|
        invariant calls == ConstantCalls(slot.constants[..i])
      {
        calls := calls + [SetConstant(slot.constants[i].0, slot.constants[i].1)];
        i := i + 1;
      }
      assert slot.constants[..i] == slot.constants;
      var texUnit := 0;
      while texUnit < |slot.textureUnits|
        invariant 0 <= texUnit <= |slot.textureUnits|
        invariant calls == ConstantCalls(slot.constants) + TextureCalls(slot.textureUnits[..texUnit])
      {
        calls := calls + [BindUnit(texUnit, slot.textureUnits[texUnit].1, slot.textureUnits[texUnit].0)];
        texUnit := texUnit + 1;
      }
      assert slot.textureUnits[..texUnit] == slot.textureUnits;
      if slot.blobMapUniform >= 0 {
        calls := calls + [BindUnit(texUnit, blobMap, slot.blobMapUniform)];
        texUnit := texUnit + 1;
      }
      if slot.cubeMapUniform >= 0 {
        calls := calls + [BindUnit(texUnit, cubeMap, slot.blobMapUniform)];
        texUnit := texUnit + 1;
      }
    }

    /** release acts only when the bound slot has a shader; it reports whether it did. */
    method Release() returns (released: bool)
      requires Valid()
      ensures released <==> shaderSet[Rank(boundQuality)].shader.Some?
    {
      released := shaderSet[Rank(boundQuality)].shader.Some?;
    }
  }
}
