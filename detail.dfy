/** The `ShaderDetail` records of GlslCompiler.h, the four reflection tables that glslang
    builds for a linked program (as plain input sequences), and the specification of the
    walk that turns the tables into a `ShaderDetail`. */
module Detail {
  import opened Types
  import opened Stages

  // ---------------------------------------------------------------------------------------
  // Output records.
  // ---------------------------------------------------------------------------------------

  /** `ShaderDetail::Uniform`'s nested enum: exactly two kinds. */
  datatype UniformKind = UniformBlock | Combined

  /** `ShaderDetail::Uniform`. `kind` is `None` where the source never assigns `type`
      (a sampler that is not combined), which leaves the field indeterminate. */
  datatype Uniform = Uniform(
    descriptorSet: uint32,
    binding: uint32,
    size: uint32,
    kind: Option<UniformKind>,
    stage: ShaderStage,
    name: string)

  /** `ShaderDetail::Attribute`'s nested enum: exactly two directions. */
  datatype Direction = In | Out

  /** `ShaderDetail::Attribute`. */
  datatype Attribute = Attribute(
    location: uint32,
    size: uint32,
    io: Direction,
    stage: ShaderStage,
    name: string)

  datatype ShaderDetail = ShaderDetail(uniforms: seq<Uniform>, pipelineIo: seq<Attribute>)

  // ---------------------------------------------------------------------------------------
  // Input records: what the reflection getters of a linked glslang program answer for one
  // table index. Layout qualifiers are unsigned bit-fields; reflected sizes are `int`.
  // ---------------------------------------------------------------------------------------

  /** One entry of the uniform-variable table: whether its basic type is a sampler, whether
      that sampler is combined, its layout set/binding, its stage mask, the sampler's
      dimensionality enumerator, and its name. */
  datatype UniformVariable = UniformVariable(
    isSampler: bool,
    isCombined: bool,
    descriptorSet: uint32,
    binding: uint32,
    stages: StageMask,
    dim: uint32,
    name: string)

  /** One entry of the uniform-block table; `size` is the block's size in bytes. */
  datatype UniformBlockInfo = UniformBlockInfo(
    descriptorSet: uint32,
    binding: uint32,
    stages: StageMask,
    size: int,
    name: string)

  /** One entry of the pipe-input or pipe-output table. */
  datatype PipeVariable = PipeVariable(
    location: uint32,
    size: int,
    stages: StageMask,
    name: string)

  datatype Reflection = Reflection(
    uniformVariables: seq<UniformVariable>,
    uniformBlocks: seq<UniformBlockInfo>,
    pipeInputs: seq<PipeVariable>,
    pipeOutputs: seq<PipeVariable>)

  // ---------------------------------------------------------------------------------------
  // The entry built for one table row.
  // ---------------------------------------------------------------------------------------

  /** A sampler variable's entry: an entry from a combined sampler is `Combined`, from any
      other sampler the kind is left unset; no sampler entry is marked `UniformBlock`; its
      size is the sampler's dimensionality. */
  function SamplerUniform(v: UniformVariable): (u: Uniform)
    ensures u.kind != Some(UniformBlock)
    ensures u.kind == Some(Combined) <==> v.isCombined
    ensures u.size == v.dim
    ensures u.descriptorSet == v.descriptorSet && u.binding == v.binding && u.name == v.name
    ensures u.stage != Count
  {
    Uniform(v.descriptorSet, v.binding, v.dim, if v.isCombined then Some(Combined) else None,
            GetStageFromMask(v.stages), v.name)
  }

  /** A uniform block's entry: marked `UniformBlock`, with the block's byte size as a
      `uint32_t` (exact whenever it fits). */
  function BlockUniform(b: UniformBlockInfo): (u: Uniform)
    ensures u.kind == Some(UniformBlock)
    ensures 0 <= b.size < Uint32Modulus ==> u.size as int == b.size
    ensures u.descriptorSet == b.descriptorSet && u.binding == b.binding && u.name == b.name
    ensures u.stage != Count
  {
    Uniform(b.descriptorSet, b.binding, ToUint32(b.size), Some(UniformBlock),
            GetStageFromMask(b.stages), b.name)
  }

  /** A pipe input's or output's entry, tagged with the direction of its table. */
  function PipeAttribute(p: PipeVariable, io: Direction): (a: Attribute)
    ensures a.io == io && a.location == p.location && a.name == p.name
    ensures 0 <= p.size < Uint32Modulus ==> a.size as int == p.size
    ensures a.stage != Count
  {
    Attribute(p.location, ToUint32(p.size), io, GetStageFromMask(p.stages), p.name)
  }

  // ---------------------------------------------------------------------------------------
  // The walk as functions over table prefixes (the shape the loops build them in).
  // ---------------------------------------------------------------------------------------

  /** Number of sampler-typed variables in a table. */
  function SamplerCount(vs: seq<UniformVariable>): nat {
    if vs == [] then 0
    else SamplerCount(vs[..|vs| - 1]) + (if vs[|vs| - 1].isSampler then 1 else 0)
  }

  /** Filter the sampler-typed variables and map each to its entry, in table order. */
  function SamplerUniforms(vs: seq<UniformVariable>): (r: seq<Uniform>)
    ensures |r| == SamplerCount(vs)
  {
    if vs == [] then []
    else
      var last := vs[|vs| - 1];
      SamplerUniforms(vs[..|vs| - 1]) + (if last.isSampler then [SamplerUniform(last)] else [])
  }

  function BlockUniforms(bs: seq<UniformBlockInfo>): (r: seq<Uniform>)
    ensures |r| == |bs|
  {
    if bs == [] then [] else BlockUniforms(bs[..|bs| - 1]) + [BlockUniform(bs[|bs| - 1])]
  }

  function PipeAttributes(ps: seq<PipeVariable>, io: Direction): (r: seq<Attribute>)
    ensures |r| == |ps|
  {
    if ps == [] then [] else PipeAttributes(ps[..|ps| - 1], io) + [PipeAttribute(ps[|ps| - 1], io)]
  }

  /** What `GenDetail` returns for the given tables: sampler entries then block entries;
      input attributes then output attributes. */
  function DetailOf(r: Reflection): (d: ShaderDetail)
    ensures |d.uniforms| == SamplerCount(r.uniformVariables) + |r.uniformBlocks|
    ensures |d.pipelineIo| == |r.pipeInputs| + |r.pipeOutputs|
  {
    ShaderDetail(SamplerUniforms(r.uniformVariables) + BlockUniforms(r.uniformBlocks),
                 PipeAttributes(r.pipeInputs, In) + PipeAttributes(r.pipeOutputs, Out))
  }

  /** One more table row extends each walk by that row's entry (or, for a non-sampler
      variable, by nothing): the step each loop of `GenDetail` takes. */
  lemma SamplerUniformsStep(vs: seq<UniformVariable>, i: nat)
    requires i < |vs|
    ensures SamplerUniforms(vs[..i + 1]) ==
      SamplerUniforms(vs[..i]) + (if vs[i].isSampler then [SamplerUniform(vs[i])] else [])
  {
    assert vs[..i + 1][..i] == vs[..i];
  }

  lemma BlockUniformsStep(bs: seq<UniformBlockInfo>, i: nat)
    requires i < |bs|
    ensures BlockUniforms(bs[..i + 1]) == BlockUniforms(bs[..i]) + [BlockUniform(bs[i])]
  {
    assert bs[..i + 1][..i] == bs[..i];
  }

  lemma PipeAttributesStep(ps: seq<PipeVariable>, io: Direction, i: nat)
    requires i < |ps|
    ensures PipeAttributes(ps[..i + 1], io) == PipeAttributes(ps[..i], io) + [PipeAttribute(ps[i], io)]
  {
    assert ps[..i + 1][..i] == ps[..i];
  }

  // ---------------------------------------------------------------------------------------
  // Properties of the walk.
  // ---------------------------------------------------------------------------------------

  lemma {:induction false} SamplerCountBound(vs: seq<UniformVariable>)
    ensures SamplerCount(vs) <= |vs|
    ensures SamplerCount(vs) == |vs| <==> forall k :: 0 <= k < |vs| ==> vs[k].isSampler
  {
    if vs != [] {
      var init := vs[..|vs| - 1];
      SamplerCountBound(init);
      if forall k :: 0 <= k < |vs| ==> vs[k].isSampler {
        assert forall k :: 0 <= k < |init| ==> init[k].isSampler by {
          forall k | 0 <= k < |init| ensures init[k].isSampler { assert init[k] == vs[k]; }
        }
      } else {
        var j :| 0 <= j < |vs| && !vs[j].isSampler;
        if j < |vs| - 1 {
          assert init[j] == vs[j];
        }
      }
    }
  }

  /** Block j yields the entry at index j of the block part. */
  lemma {:induction false} BlockUniformsAt(bs: seq<UniformBlockInfo>, j: nat)
    requires j < |bs|
    ensures BlockUniforms(bs)[j] == BlockUniform(bs[j])
  {
    if j < |bs| - 1 {
      var init := bs[..|bs| - 1];
      assert init[j] == bs[j];
      BlockUniformsAt(init, j);
    }
  }

  /** Pipe variable j yields the attribute at index j, with the given direction. */
  lemma {:induction false} PipeAttributesAt(ps: seq<PipeVariable>, io: Direction, j: nat)
    requires j < |ps|
    ensures PipeAttributes(ps, io)[j] == PipeAttribute(ps[j], io)
  {
    if j < |ps| - 1 {
      var init := ps[..|ps| - 1];
      assert init[j] == ps[j];
      PipeAttributesAt(init, io, j);
    }
  }

  /** The sampler variable at index i produces the entry at position "number of samplers
      before i", and that entry carries the variable's set, binding, name, mapped stage and
      dimensionality, with kind `Combined` exactly when the sampler is combined. */
  lemma {:induction false} SamplerUniformAt(vs: seq<UniformVariable>, i: nat)
    requires i < |vs| && vs[i].isSampler
    ensures SamplerCount(vs[..i]) < SamplerCount(vs)
    ensures SamplerUniforms(vs)[SamplerCount(vs[..i])] == SamplerUniform(vs[i])
  {
    var init := vs[..|vs| - 1];
    if i == |vs| - 1 {
      assert vs[..i] == init;
    } else {
      assert init[..i] == vs[..i];
      assert init[i] == vs[i];
      SamplerUniformAt(init, i);
    }
  }

  /** Every sampler entry comes from some sampler variable, in order of appearance: the
      k-th entry is the entry of the k-th sampler variable. */
  lemma {:induction false} SamplerUniformSource(vs: seq<UniformVariable>, k: nat)
    requires k < SamplerCount(vs)
    ensures exists i :: 0 <= i < |vs| && vs[i].isSampler && SamplerCount(vs[..i]) == k &&
                        SamplerUniforms(vs)[k] == SamplerUniform(vs[i])
  {
    var init := vs[..|vs| - 1];
    var last := vs[|vs| - 1];
    if k < SamplerCount(init) {
      SamplerUniformSource(init, k);
      var i :| 0 <= i < |init| && init[i].isSampler && SamplerCount(init[..i]) == k &&
               SamplerUniforms(init)[k] == SamplerUniform(init[i]);
      assert init[..i] == vs[..i];
      assert vs[i] == init[i];
    } else {
      assert vs[..|vs| - 1] == init;
      assert SamplerUniforms(vs)[k] == SamplerUniform(last);
    }
  }

  /** In the returned `uniforms`, the entries marked `UniformBlock` are exactly the trailing
      ones, after all sampler entries; block j sits at position (sampler count + j) with its
      set, binding, name, mapped stage and its byte size as `uint32_t`. */
  lemma {:induction false} UniformsLayout(r: Reflection)
    ensures var d := DetailOf(r);
      forall k :: 0 <= k < |d.uniforms| ==>
        (d.uniforms[k].kind == Some(UniformBlock) <==> k >= SamplerCount(r.uniformVariables))
    ensures var d := DetailOf(r);
      forall j :: 0 <= j < |r.uniformBlocks| ==>
        d.uniforms[SamplerCount(r.uniformVariables) + j] == BlockUniform(r.uniformBlocks[j])
  {
    var d := DetailOf(r);
    var vs := r.uniformVariables;
    var n := SamplerCount(vs);
    forall k | 0 <= k < n
      ensures d.uniforms[k].kind != Some(UniformBlock)
    {
      SamplerUniformSource(vs, k);
      var i :| 0 <= i < |vs| && vs[i].isSampler && SamplerCount(vs[..i]) == k &&
               SamplerUniforms(vs)[k] == SamplerUniform(vs[i]);
    }
    forall j | 0 <= j < |r.uniformBlocks|
      ensures d.uniforms[n + j] == BlockUniform(r.uniformBlocks[j])
    {
      BlockUniformsAt(r.uniformBlocks, j);
    }
    forall k | n <= k < |d.uniforms|
      ensures d.uniforms[k].kind == Some(UniformBlock)
    {
      BlockUniformsAt(r.uniformBlocks, k - n);
    }
  }

  /** `pipeline_io` holds every input, as `In`, at its own index, then every output, as
      `Out`, after all inputs; each carries its location, size, name and mapped stage. */
  lemma {:induction false} PipelineIoLayout(r: Reflection)
    ensures var d := DetailOf(r);
      forall i :: 0 <= i < |r.pipeInputs| ==>
        d.pipelineIo[i] == PipeAttribute(r.pipeInputs[i], In)
    ensures var d := DetailOf(r);
      forall j :: 0 <= j < |r.pipeOutputs| ==>
        d.pipelineIo[|r.pipeInputs| + j] == PipeAttribute(r.pipeOutputs[j], Out)
    ensures var d := DetailOf(r);
      forall k :: 0 <= k < |d.pipelineIo| ==> (d.pipelineIo[k].io == In <==> k < |r.pipeInputs|)
  {
    var d := DetailOf(r);
    var n := |r.pipeInputs|;
    forall i | 0 <= i < n
      ensures d.pipelineIo[i] == PipeAttribute(r.pipeInputs[i], In)
    {
      PipeAttributesAt(r.pipeInputs, In, i);
    }
    forall j | 0 <= j < |r.pipeOutputs|
      ensures d.pipelineIo[n + j] == PipeAttribute(r.pipeOutputs[j], Out)
    {
      PipeAttributesAt(r.pipeOutputs, Out, j);
    }
    forall k | 0 <= k < |d.pipelineIo|
      ensures d.pipelineIo[k].io == In <==> k < n
    {
      if k < n {
        PipeAttributesAt(r.pipeInputs, In, k);
      } else {
        PipeAttributesAt(r.pipeOutputs, Out, k - n);
      }
    }
  }
}
