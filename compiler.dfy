/** `ShaderCompiler` and the two free functions of GlslCompiler.cc. Everything glslang does
    (reading a file, parsing, linking, SPIR-V generation, building reflection) is an input of
    the model: a `Backend` record of total functions fixed for the lifetime of a compiler.
    What is modelled is the control flow around those calls. */
module Compiler {
  import opened Types
  import opened Stages
  import opened Detail

  /** A non-null `const char*` file name. */
  type Path = string
  /** The bytes `LoadFile` read from a file. */
  type Source = seq<char>
  /** What a successful `LoadFile` yields: it refuses a file of size zero, so the text is
      never empty. */
  type LoadedText = s: Source | |s| > 0 witness ['\0']
  /** One SPIR-V word. */
  type Word = uint32

  /** The GLSL version passed to `setEnvInput` and `parse`. */
  const GlslVersion: int := 400
  /** The entry point name given to every shader. */
  const EntryPoint: string := "main"

  /** What `compile` configures on a shader before parsing it: the source text, the
      `EShLanguage` value (the stage cast to an integer), the entry point and the version.
      The client (Vulkan 1.1), target (SPIR-V 1.2) and message flags are fixed and are part
      of the backend's behaviour. */
  datatype ParseRequest = ParseRequest(source: Source, language: nat, entryPoint: string, version: int)

  /** A glslang `TShader`, as far as this file changes it: the stage it was created for, the
      request last set on it, and whether the last parse succeeded. */
  datatype ShaderUnit = ShaderUnit(stage: ShaderStage, request: Option<ParseRequest>, parsed: bool)

  /** glslang and the file system, as functions.
      load: `LoadFile`'s outcome (None when the file cannot be opened or is empty);
      parse: `TShader::parse`; link: `TProgram::link` over the attached shaders;
      spirv: `GlslangToSpv` of the linked program's intermediate for an `EShLanguage`;
      reflect: the tables `buildReflection` computes for the linked program. */
  datatype Backend = Backend(
    load: Path -> Option<LoadedText>,
    parse: ParseRequest -> bool,
    link: seq<ShaderUnit> -> bool,
    spirv: (seq<ShaderUnit>, nat) -> seq<Word>,
    reflect: seq<ShaderUnit> -> Reflection)

  function NewShader(stage: ShaderStage): ShaderUnit {
    ShaderUnit(stage, None, false)
  }

  /** The request `compile` sets up: `static_cast<EShLanguage>(stage)` is the stage's
      enumerator number, which is glslang's `EShLangVertex` (0) for a vertex shader and
      `EShLangFragment` (4) for a fragment shader. */
  function Request(source: Source, stage: ShaderStage): (r: ParseRequest)
    ensures r.source == source && r.entryPoint == "main" && r.version == 400
    ensures stage == Vertex ==> r.language == 0
    ensures stage == Fragment ==> r.language == 4
    ensures IsRealStage(stage) ==> r.language < RealStageCount
  {
    ParseRequest(source, Ordinal(stage), EntryPoint, GlslVersion)
  }

  /** The result of `compile(filename, stage)`: a file name is given, the file loads, and the
      loaded text parses for that stage. */
  function StageCompiles(b: Backend, filename: Option<Path>, stage: ShaderStage): (ok: bool)
    ensures ok ==> filename.Some? && b.load(filename.value).Some?
    ensures filename.Some? ==>
      (ok <==> CompileInto(b, Some(NewShader(stage)), filename, stage).value.parsed)
  {
    filename.Some? && b.load(filename.value).Some? &&
    b.parse(Request(b.load(filename.value).value, stage))
  }

  /** The selected shader after `compile(filename, stage)`: untouched when there is no file
      name or loading fails, otherwise configured with the loaded text and parsed. */
  function CompileInto(b: Backend, shader: Option<ShaderUnit>, filename: Option<Path>,
                       stage: ShaderStage): (r: Option<ShaderUnit>)
    requires filename.Some? ==> shader.Some?
    ensures r.Some? == shader.Some?
    ensures r.Some? ==> r.value.stage == shader.value.stage
    ensures filename.None? || b.load(filename.value).None? ==> r == shader
    ensures filename.Some? && b.load(filename.value).Some? ==>
      r.value.request == Some(Request(b.load(filename.value).value, stage)) &&
      r.value.parsed == b.parse(r.value.request.value)
  {
    if filename.None? || b.load(filename.value).None? then shader
    else
      var request := Request(b.load(filename.value).value, stage);
      Some(ShaderUnit(shader.value.stage, Some(request), b.parse(request)))
  }

  /** For a shader that has never been parsed, `compile` leaves it parsed exactly when it
      reports success, and the request it configured names the stage's `EShLanguage` value,
      the entry point "main" and version 400. */
  lemma CompileMarksParsed(b: Backend, filename: Path, stage: ShaderStage)
    ensures var r := CompileInto(b, Some(NewShader(stage)), Some(filename), stage);
      r.value.parsed <==> StageCompiles(b, Some(filename), stage)
    ensures var r := CompileInto(b, Some(NewShader(stage)), Some(filename), stage);
      r.value.request.Some? ==>
        r.value.request.value.language == Ordinal(stage) &&
        r.value.request.value.entryPoint == "main" && r.value.request.value.version == 400
  {
  }

  /** Whether the shader object a stage tag in the program's list points at exists. */
  predicate Resolvable(s: ShaderStage, vertex: Option<ShaderUnit>, fragment: Option<ShaderUnit>) {
    (s == Vertex && vertex.Some?) || (s == Fragment && fragment.Some?)
  }

  predicate AllResolvable(stages: seq<ShaderStage>, vertex: Option<ShaderUnit>, fragment: Option<ShaderUnit>) {
    forall s :: s in stages ==> Resolvable(s, vertex, fragment)
  }

  /** The shader object a stage tag in the program's list points at. */
  function UnitOf(s: ShaderStage, vertex: Option<ShaderUnit>, fragment: Option<ShaderUnit>): ShaderUnit
    requires Resolvable(s, vertex, fragment)
  {
    if s == Vertex then vertex.value else fragment.value
  }

  /** The program holds pointers to the compiler's shader objects; this dereferences them. */
  function Resolve(stages: seq<ShaderStage>, vertex: Option<ShaderUnit>,
                   fragment: Option<ShaderUnit>): (r: seq<ShaderUnit>)
    requires AllResolvable(stages, vertex, fragment)
    ensures |r| == |stages|
  {
    if stages == [] then []
    else
      var init := stages[..|stages| - 1];
      assert forall s :: s in init ==> s in stages;
      Resolve(init, vertex, fragment) + [UnitOf(stages[|stages| - 1], vertex, fragment)]
  }

  /** The k-th attached shader is the object the k-th stage tag points at. */
  lemma {:induction false} ResolveAt(stages: seq<ShaderStage>, vertex: Option<ShaderUnit>,
                                     fragment: Option<ShaderUnit>, k: nat)
    requires AllResolvable(stages, vertex, fragment) && k < |stages|
    ensures Resolvable(stages[k], vertex, fragment)
    ensures Resolve(stages, vertex, fragment)[k] == UnitOf(stages[k], vertex, fragment)
  {
    var init := stages[..|stages| - 1];
    assert stages[k] in stages;
    if k < |stages| - 1 {
      assert init[k] == stages[k];
      ResolveAt(init, vertex, fragment, k);
    }
  }

  // -----------------------------------------------------------------------------------------
  // The compiler's state as a value, and what each operation does to it.
  // -----------------------------------------------------------------------------------------

  /** The fields of a `ShaderCompiler` together with the parts of its `PrivateData`: the two
      request flags, the two file names, the two shader objects (null = `None`), the shaders
      the program points at (by the stage of the object), the attached shaders as the last
      successful link saw them, and the reflection tables once built. */
  datatype CompilerState = CompilerState(
    useVertexShader: bool,
    useFragmentShader: bool,
    vertexFilename: Option<Path>,
    fragmentFilename: Option<Path>,
    vertexShader: Option<ShaderUnit>,
    fragmentShader: Option<ShaderUnit>,
    programShaders: seq<ShaderStage>,
    linked: Option<seq<ShaderUnit>>,
    reflection: Option<Reflection>)
  {
    /** A stage is requested exactly when its file name was given, and then its shader
        object exists and was created for that stage; the program only points at existing
        shader objects. */
    predicate Valid() {
      (useVertexShader <==> vertexFilename.Some?) &&
      (useVertexShader <==> vertexShader.Some?) &&
      (useFragmentShader <==> fragmentFilename.Some?) &&
      (useFragmentShader <==> fragmentShader.Some?) &&
      (vertexShader.Some? ==> vertexShader.value.stage == Vertex) &&
      (fragmentShader.Some? ==> fragmentShader.value.stage == Fragment) &&
      AllResolvable(programShaders, vertexShader, fragmentShader)
    }

    /** The shaders the program points at, in their current state. */
    function AttachedUnits(): seq<ShaderUnit>
      requires Valid()
    {
      Resolve(programShaders, vertexShader, fragmentShader)
    }
  }

  /** The constructor: a flag is set, and its shader object created, only for a non-null
      file name; both flags default to false. */
  function Initial(vertex: Option<Path>, fragment: Option<Path>): (st: CompilerState)
    ensures st.Valid()
    ensures st.useVertexShader == vertex.Some? && st.useFragmentShader == fragment.Some?
    ensures st.programShaders == [] && st.linked == None && st.reflection == None
  {
    CompilerState(
      vertex.Some?, fragment.Some?, vertex, fragment,
      if vertex.Some? then Some(NewShader(Vertex)) else None,
      if fragment.Some? then Some(NewShader(Fragment)) else None,
      [], None, None)
  }

  /** The shader object `compile` works on: the vertex one for `Vertex`, the fragment one
      for any other stage. */
  function SelectedShader(st: CompilerState, stage: ShaderStage): (r: Option<ShaderUnit>)
    ensures st.Valid() && r.Some? ==> (r.value.stage == Vertex <==> stage == Vertex)
    ensures st.Valid() && r.Some? ==> (r.value.stage == Fragment <==> stage != Vertex)
    ensures r == st.vertexShader || r == st.fragmentShader
    ensures st.Valid() ==> (r.Some? <==> if stage == Vertex then st.useVertexShader else st.useFragmentShader)
  {
    if stage == Vertex then st.vertexShader else st.fragmentShader
  }

  /** The state after `compile(filename, stage)`; its result is `StageCompiles`. */
  function AfterCompileStage(b: Backend, st: CompilerState, filename: Option<Path>,
                             stage: ShaderStage): (st': CompilerState)
    requires st.Valid()
    requires filename.Some? ==> SelectedShader(st, stage).Some?
    ensures st'.Valid()
  {
    if stage == Vertex then st.(vertexShader := CompileInto(b, st.vertexShader, filename, stage))
    else st.(fragmentShader := CompileInto(b, st.fragmentShader, filename, stage))
  }

  /** The result of `Compile`: every requested stage compiles. */
  function CompileOk(b: Backend, st: CompilerState): (ok: bool)
    ensures !st.useVertexShader && !st.useFragmentShader ==> ok
    ensures ok ==> (st.useVertexShader ==> st.vertexFilename.Some?) &&
                   (st.useFragmentShader ==> st.fragmentFilename.Some?)
  {
    (!st.useVertexShader || StageCompiles(b, st.vertexFilename, Vertex)) &&
    (!st.useFragmentShader || StageCompiles(b, st.fragmentFilename, Fragment))
  }

  /** The state after `Compile`: the requested stages compiled, vertex then fragment. */
  function AfterCompile(b: Backend, st: CompilerState): (st': CompilerState)
    requires st.Valid()
    ensures st'.Valid()
  {
    var st1 := if st.useVertexShader then AfterCompileStage(b, st, st.vertexFilename, Vertex) else st;
    if st1.useFragmentShader then AfterCompileStage(b, st1, st1.fragmentFilename, Fragment) else st1
  }

  /** The program's shader list after `Link` attached the requested shader objects. */
  function AttachRequested(st: CompilerState): (r: seq<ShaderStage>)
    ensures st.programShaders <= r
    ensures |r| == |st.programShaders| + (if st.useVertexShader && st.vertexShader.Some? then 1 else 0)
                                        + (if st.useFragmentShader && st.fragmentShader.Some? then 1 else 0)
  {
    st.programShaders +
    (if st.useVertexShader && st.vertexShader.Some? then [Vertex] else []) +
    (if st.useFragmentShader && st.fragmentShader.Some? then [Fragment] else [])
  }

  lemma AttachRequestedResolvable(st: CompilerState)
    requires st.Valid()
    ensures AllResolvable(AttachRequested(st), st.vertexShader, st.fragmentShader)
  {
  }

  /** The result of `Link`: some stage is requested and the backend links the shaders the
      program then points at. */
  function LinkOk(b: Backend, st: CompilerState): (ok: bool)
    requires st.Valid()
    ensures ok ==> st.useVertexShader || st.useFragmentShader
    ensures ok ==> |AttachRequested(st)| > |st.programShaders|
  {
    AttachRequestedResolvable(st);
    (st.useVertexShader || st.useFragmentShader) &&
    b.link(Resolve(AttachRequested(st), st.vertexShader, st.fragmentShader))
  }

  /** The state after `Link`: shaders attached; the linked program recorded on success. */
  function AfterLink(b: Backend, st: CompilerState): (st': CompilerState)
    requires st.Valid()
    ensures st'.Valid()
    ensures LinkOk(b, st) ==> st'.linked.Some?
  {
    AttachRequestedResolvable(st);
    var attached := AttachRequested(st);
    var units := Resolve(attached, st.vertexShader, st.fragmentShader);
    st.(programShaders := attached,
        linked := if LinkOk(b, st) then Some(units) else st.linked)
  }

  /** `GenSpv`'s result and the caller's two vectors afterwards. */
  datatype SpvOutput = SpvOutput(ok: bool, vertex: seq<Word>, fragment: seq<Word>)

  /** `GenSpv`: each requested stage's words are appended to the caller's vector for it;
      the result is true only when both vectors end up non-empty. */
  function GenSpvResult(b: Backend, st: CompilerState, vertexIn: seq<Word>, fragmentIn: seq<Word>): (r: SpvOutput)
    requires (st.useVertexShader || st.useFragmentShader) ==> st.linked.Some?
    ensures r.ok <==> |r.vertex| > 0 && |r.fragment| > 0
    ensures vertexIn <= r.vertex && fragmentIn <= r.fragment
    ensures !st.useVertexShader ==> r.vertex == vertexIn
    ensures !st.useFragmentShader ==> r.fragment == fragmentIn
    ensures st.useVertexShader ==> r.vertex == vertexIn + b.spirv(st.linked.value, 0)
    ensures st.useFragmentShader ==> r.fragment == fragmentIn + b.spirv(st.linked.value, 4)
  {
    var vertex := if st.useVertexShader
      then vertexIn + b.spirv(st.linked.value, Ordinal(Vertex)) else vertexIn;
    var fragment := if st.useFragmentShader
      then fragmentIn + b.spirv(st.linked.value, Ordinal(Fragment)) else fragmentIn;
    SpvOutput(|vertex| > 0 && |fragment| > 0, vertex, fragment)
  }

  /** The state after `Reflect`: the tables of the linked program. */
  function AfterReflect(b: Backend, st: CompilerState): (st': CompilerState)
    requires st.linked.Some?
    ensures st'.reflection.Some?
  {
    st.(reflection := Some(b.reflect(st.linked.value)))
  }

  // -----------------------------------------------------------------------------------------
  // Properties of the operations.
  // -----------------------------------------------------------------------------------------

  /** `Compile` attempts the fragment stage whatever the vertex stage's outcome: each
      requested shader object ends up as its own `compile` leaves it, and nothing else
      in the state changes. */
  lemma CompileAttemptsEachRequestedStage(b: Backend, st: CompilerState)
    requires st.Valid()
    ensures var st' := AfterCompile(b, st);
      st'.vertexShader ==
        (if st.useVertexShader then CompileInto(b, st.vertexShader, st.vertexFilename, Vertex) else st.vertexShader) &&
      st'.fragmentShader ==
        (if st.useFragmentShader then CompileInto(b, st.fragmentShader, st.fragmentFilename, Fragment) else st.fragmentShader) &&
      st' == st.(vertexShader := st'.vertexShader, fragmentShader := st'.fragmentShader)
  {
  }

  /** On shader objects never parsed before (as after construction), `Compile` reports
      success exactly when every requested shader object ends up parsed. */
  lemma {:induction false} CompileOkIffRequestedParsed(b: Backend, st: CompilerState)
    requires st.Valid()
    requires st.vertexShader.Some? ==> !st.vertexShader.value.parsed
    requires st.fragmentShader.Some? ==> !st.fragmentShader.value.parsed
    ensures var st' := AfterCompile(b, st);
      CompileOk(b, st) <==>
        (st.useVertexShader ==> st'.vertexShader.value.parsed) &&
        (st.useFragmentShader ==> st'.fragmentShader.value.parsed)
  {
    CompileAttemptsEachRequestedStage(b, st);
    if st.useVertexShader {
      CompileMarksParsed(b, st.vertexFilename.value, Vertex);
    }
    if st.useFragmentShader {
      CompileMarksParsed(b, st.fragmentFilename.value, Fragment);
    }
  }

  /** `Link` with no requested stage fails, attaches nothing and links nothing; with some
      stage requested it attaches the requested shaders (vertex first) and its result is
      the backend's verdict on exactly the shaders the program then points at. */
  lemma LinkOutcome(b: Backend, st: CompilerState)
    requires st.Valid()
    ensures var st' := AfterLink(b, st);
      !st.useVertexShader && !st.useFragmentShader ==>
        !LinkOk(b, st) && st'.programShaders == st.programShaders && st'.linked == st.linked
    ensures var st' := AfterLink(b, st);
      st.useVertexShader || st.useFragmentShader ==>
        st'.programShaders == st.programShaders +
          (if st.useVertexShader then [Vertex] else []) + (if st.useFragmentShader then [Fragment] else []) &&
        (LinkOk(b, st) <==> b.link(st'.AttachedUnits())) &&
        st'.linked == (if LinkOk(b, st) then Some(st'.AttachedUnits()) else st.linked)
  {
    var st' := AfterLink(b, st);
    if !st.useVertexShader && !st.useFragmentShader {
      assert st.programShaders + [] + [] == st.programShaders;
    }
  }

  /** A compiler built with two null file names requests no stage: `Compile` succeeds
      vacuously and `Link` fails without linking. */
  lemma NoStageRequested(b: Backend)
    ensures var st := Initial(None, None);
      !st.useVertexShader && !st.useFragmentShader &&
      CompileOk(b, st) && !LinkOk(b, AfterCompile(b, st))
  {
    LinkOutcome(b, AfterCompile(b, Initial(None, None)));
  }

  // -----------------------------------------------------------------------------------------
  // The compiler object.
  // -----------------------------------------------------------------------------------------

  class ShaderCompiler {
    const backend: Backend
    var useVertexShader: bool
    var useFragmentShader: bool
    var vertexFilename: Option<Path>
    var fragmentFilename: Option<Path>
    var vertexShader: Option<ShaderUnit>
    var fragmentShader: Option<ShaderUnit>
    var programShaders: seq<ShaderStage>
    var linked: Option<seq<ShaderUnit>>
    var reflection: Option<Reflection>

    /** The object's fields as a `CompilerState`. */
    ghost function State(): CompilerState
      reads this
    {
      CompilerState(useVertexShader, useFragmentShader, vertexFilename, fragmentFilename,
                    vertexShader, fragmentShader, programShaders, linked, reflection)
    }

    ghost predicate Valid()
      reads this
    {
      State().Valid()
    }

    constructor(backend: Backend, vertex: Option<Path>, fragment: Option<Path>)
      ensures Valid()
      ensures this.backend == backend
      ensures State() == Initial(vertex, fragment)
    {
      this.backend := backend;
      useVertexShader := false;
      useFragmentShader := false;
      vertexShader := None;
      fragmentShader := None;
      if vertex.Some? {
        useVertexShader := true;
        vertexShader := Some(NewShader(Vertex));
      }
      if fragment.Some? {
        useFragmentShader := true;
        fragmentShader := Some(NewShader(Fragment));
      }
      vertexFilename := vertex;
      fragmentFilename := fragment;
      programShaders := [];
      linked := None;
      reflection := None;
    }

    /** `compile`: false for a null file name, a file that does not load, or a parse
        failure. */
    method CompileStage(filename: Option<Path>, stage: ShaderStage) returns (ok: bool)
      requires Valid()
      requires filename.Some? ==> SelectedShader(State(), stage).Some?
      modifies this`vertexShader, this`fragmentShader
      ensures Valid()
      ensures ok == StageCompiles(backend, filename, stage)
      ensures State() == AfterCompileStage(backend, old(State()), filename, stage)
    {
      if filename.None? {
        return false;
      }
      var content := backend.load(filename.value);
      if content.None? {
        return false;
      }
      var request := Request(content.value, stage);
      ok := backend.parse(request);
      if stage == Vertex {
        vertexShader := Some(ShaderUnit(vertexShader.value.stage, Some(request), ok));
      } else {
        fragmentShader := Some(ShaderUnit(fragmentShader.value.stage, Some(request), ok));
      }
    }

    method Compile() returns (ok: bool)
      requires Valid()
      modifies this`vertexShader, this`fragmentShader
      ensures Valid()
      ensures ok == CompileOk(backend, old(State()))
      ensures State() == AfterCompile(backend, old(State()))
    {
      ok := true;
      if useVertexShader {
        var vertexOk := CompileStage(vertexFilename, Vertex);
        if !vertexOk {
          ok := false;
        }
      }
      if useFragmentShader {
        var fragmentOk := CompileStage(fragmentFilename, Fragment);
        if !fragmentOk {
          ok := false;
        }
      }
    }

    method Link() returns (ok: bool)
      requires Valid()
      modifies this`programShaders, this`linked
      ensures Valid()
      ensures ok == LinkOk(backend, old(State()))
      ensures State() == AfterLink(backend, old(State()))
    {
      ghost var st := State();
      if useVertexShader && vertexShader.Some? {
        programShaders := programShaders + [Vertex];
      }
      if useFragmentShader && fragmentShader.Some? {
        programShaders := programShaders + [Fragment];
      }
      assert programShaders == AttachRequested(st);
      AttachRequestedResolvable(st);
      if useVertexShader || useFragmentShader {
        var units := Resolve(programShaders, vertexShader, fragmentShader);
        if !backend.link(units) {
          return false;
        }
        linked := Some(units);
        return true;
      }
      return false;
    }

    method GenSpv(vertexIn: seq<Word>, fragmentIn: seq<Word>)
      returns (ok: bool, vertex: seq<Word>, fragment: seq<Word>)
      requires (useVertexShader || useFragmentShader) ==> linked.Some?
      ensures SpvOutput(ok, vertex, fragment) == GenSpvResult(backend, State(), vertexIn, fragmentIn)
    {
      vertex, fragment := vertexIn, fragmentIn;
      if useVertexShader {
        vertex := vertex + backend.spirv(linked.value, Ordinal(Vertex));
      }
      if useFragmentShader {
        fragment := fragment + backend.spirv(linked.value, Ordinal(Fragment));
      }
      ok := |vertex| > 0 && |fragment| > 0;
    }

    method Reflect()
      requires Valid() && linked.Some?
      modifies this`reflection
      ensures Valid()
      ensures State() == AfterReflect(backend, old(State()))
    {
      reflection := Some(backend.reflect(linked.value));
    }

    /** `GenDetail`: four passes over the reflection tables. */
    method GenDetail() returns (detail: ShaderDetail)
      requires reflection.Some?
      ensures detail == DetailOf(reflection.value)
    {
      var r := reflection.value;
      var uniforms: seq<Uniform> := [];
      var pipelineIo: seq<Attribute> := [];

      var vars := r.uniformVariables;
      var i := 0;
      while i < |vars|
        invariant 0 <= i <= |vars|
        invariant uniforms == SamplerUniforms(vars[..i])
      {
        var v := vars[i];
        if v.isSampler {
          var kind: Option<UniformKind> := None;
          if v.isCombined {
            kind := Some(Combined);
          }
          var sampler := Uniform(v.descriptorSet, v.binding, v.dim, kind, GetStageFromMask(v.stages), v.name);
          uniforms := uniforms + [sampler];
        }
        SamplerUniformsStep(vars, i);
        i := i + 1;
      }
      assert vars[..i] == vars;

      var blocks := r.uniformBlocks;
      var samplers := uniforms;
      i := 0;
      while i < |blocks|
        invariant 0 <= i <= |blocks|
        invariant uniforms == samplers + BlockUniforms(blocks[..i])
      {
        var b := blocks[i];
        var block := Uniform(b.descriptorSet, b.binding, ToUint32(b.size), Some(UniformBlock),
                             GetStageFromMask(b.stages), b.name);
        uniforms := uniforms + [block];
        BlockUniformsStep(blocks, i);
        i := i + 1;
      }
      assert blocks[..i] == blocks;

      var inputs := r.pipeInputs;
      i := 0;
      while i < |inputs|
        invariant 0 <= i <= |inputs|
        invariant pipelineIo == PipeAttributes(inputs[..i], In)
      {
        var p := inputs[i];
        var pipeIn := Attribute(p.location, ToUint32(p.size), In, GetStageFromMask(p.stages), p.name);
        pipelineIo := pipelineIo + [pipeIn];
        PipeAttributesStep(inputs, In, i);
        i := i + 1;
      }
      assert inputs[..i] == inputs;

      var outputs := r.pipeOutputs;
      var ins := pipelineIo;
      i := 0;
      while i < |outputs|
        invariant 0 <= i <= |outputs|
        invariant pipelineIo == ins + PipeAttributes(outputs[..i], Out)
      {
        var p := outputs[i];
        var pipeOut := Attribute(p.location, ToUint32(p.size), Out, GetStageFromMask(p.stages), p.name);
        pipelineIo := pipelineIo + [pipeOut];
        PipeAttributesStep(outputs, Out, i);
        i := i + 1;
      }
      assert outputs[..i] == outputs;

      detail := ShaderDetail(uniforms, pipelineIo);
    }
  }

  // -----------------------------------------------------------------------------------------
  // The free functions, each run on a fresh compiler: construct, Compile, Link, then GenSpv
  // or Reflect + GenDetail.
  // -----------------------------------------------------------------------------------------

  /** What `GlslToSpv(filename, stage)` returns: the chosen stage's vector after GenSpv, or
      an empty vector for another stage, a failed compile or a failed link. */
  function GlslToSpvResult(b: Backend, filename: Option<Path>, stage: ShaderStage): (r: seq<Word>)
    ensures r != [] ==> filename.Some? && (stage == Vertex || stage == Fragment)
  {
    if stage != Vertex && stage != Fragment then []
    else
      var st0 := Initial(if stage == Vertex then filename else None,
                         if stage == Fragment then filename else None);
      if !CompileOk(b, st0) then []
      else
        var st1 := AfterCompile(b, st0);
        if !LinkOk(b, st1) then []
        else
          var out := GenSpvResult(b, AfterLink(b, st1), [], []);
          if stage == Vertex then out.vertex else out.fragment
  }

  /** What `GenGlslDetail(vertex, fragment)` returns; `None` is the null pointer. */
  function GenGlslDetailResult(b: Backend, vertex: Option<Path>, fragment: Option<Path>): (r: Option<ShaderDetail>)
    ensures vertex.None? && fragment.None? ==> r == None
  {
    var st0 := Initial(vertex, fragment);
    if !CompileOk(b, st0) then None
    else
      var st1 := AfterCompile(b, st0);
      if !LinkOk(b, st1) then None
      else Some(DetailOf(AfterReflect(b, AfterLink(b, st1)).reflection.value))
  }

  /** The shader objects a fresh compiler attaches on its first `Link`, listed directly. */
  function LinkInput(b: Backend, vertex: Option<Path>, fragment: Option<Path>): seq<ShaderUnit> {
    (if vertex.Some? then [CompileInto(b, Some(NewShader(Vertex)), vertex, Vertex).value] else []) +
    (if fragment.Some? then [CompileInto(b, Some(NewShader(Fragment)), fragment, Fragment).value] else [])
  }

  /** Construct, `Compile` and `Link` on a fresh compiler: the compile result is the
      conjunction over the given file names, and the link sees the compiled shader objects,
      vertex first. */
  lemma {:induction false} FreshCompileAndLink(b: Backend, vertex: Option<Path>, fragment: Option<Path>)
    ensures var st0 := Initial(vertex, fragment);
      CompileOk(b, st0) ==
        ((vertex.None? || StageCompiles(b, vertex, Vertex)) &&
         (fragment.None? || StageCompiles(b, fragment, Fragment)))
    ensures var st1 := AfterCompile(b, Initial(vertex, fragment));
      LinkOk(b, st1) == ((vertex.Some? || fragment.Some?) && b.link(LinkInput(b, vertex, fragment))) &&
      (LinkOk(b, st1) ==> AfterLink(b, st1).linked == Some(LinkInput(b, vertex, fragment)))
  {
    var st0 := Initial(vertex, fragment);
    var st1 := AfterCompile(b, st0);
    CompileAttemptsEachRequestedStage(b, st0);
    var vs := st1.vertexShader;
    var fs := st1.fragmentShader;
    var empty: seq<ShaderStage> := [];
    var attached := AttachRequested(st1);
    assert attached == (if vertex.Some? then [Vertex] else []) + (if fragment.Some? then [Fragment] else []);
    assert Resolve(attached, vs, fs) == LinkInput(b, vertex, fragment) by {
      if vertex.Some? && fragment.Some? {
        assert Resolve([Vertex, Fragment], vs, fs) == [vs.value, fs.value];
      } else if vertex.Some? {
        assert Resolve([Vertex], vs, fs) == [vs.value];
      } else if fragment.Some? {
        assert Resolve([Fragment], vs, fs) == [fs.value];
      }
    }
  }

  /** `GlslToSpv` yields words only for a vertex or fragment stage whose file compiles; it
      then returns that stage's words as generated when the lone shader links (although
      `GenSpv` itself reports failure, the other vector being empty), and nothing otherwise. */
  lemma {:induction false} GlslToSpvOutcome(b: Backend, filename: Option<Path>, stage: ShaderStage)
    ensures stage != Vertex && stage != Fragment ==> GlslToSpvResult(b, filename, stage) == []
    ensures filename.None? ==> GlslToSpvResult(b, filename, stage) == []
    ensures !StageCompiles(b, filename, stage) ==> GlslToSpvResult(b, filename, stage) == []
    ensures (stage == Vertex || stage == Fragment) && StageCompiles(b, filename, stage) ==>
      var unit := CompileInto(b, Some(NewShader(stage)), filename, stage).value;
      GlslToSpvResult(b, filename, stage) ==
        (if b.link([unit]) then b.spirv([unit], Ordinal(stage)) else [])
  {
    if stage == Vertex || stage == Fragment {
      var vertex := if stage == Vertex then filename else None;
      var fragment := if stage == Fragment then filename else None;
      FreshCompileAndLink(b, vertex, fragment);
      if filename.Some? {
        var unit := CompileInto(b, Some(NewShader(stage)), filename, stage).value;
        assert LinkInput(b, vertex, fragment) == [unit];
      }
    }
  }

  /** With only one stage requested, `GenSpv` from two empty vectors reports failure even
      when that stage's words are non-empty. */
  lemma SingleStageGenSpvFails(b: Backend, st: CompilerState)
    requires st.useVertexShader != st.useFragmentShader && st.linked.Some?
    ensures !GenSpvResult(b, st, [], []).ok
  {
  }

  /** `GenGlslDetail` returns a detail exactly when every given file compiles, at least one
      is given, and the backend links the compiled shaders; the detail is the walk over the
      tables reflected from exactly those shaders. */
  lemma {:induction false} GenGlslDetailOutcome(b: Backend, vertex: Option<Path>, fragment: Option<Path>)
    ensures vertex.None? && fragment.None? ==> GenGlslDetailResult(b, vertex, fragment) == None
    ensures GenGlslDetailResult(b, vertex, fragment).Some? <==>
      (vertex.None? || StageCompiles(b, vertex, Vertex)) &&
      (fragment.None? || StageCompiles(b, fragment, Fragment)) &&
      (vertex.Some? || fragment.Some?) && b.link(LinkInput(b, vertex, fragment))
    ensures GenGlslDetailResult(b, vertex, fragment).Some? ==>
      GenGlslDetailResult(b, vertex, fragment).value == DetailOf(b.reflect(LinkInput(b, vertex, fragment)))
  {
    FreshCompileAndLink(b, vertex, fragment);
  }

  method GlslToSpv(backend: Backend, filename: Option<Path>, stage: ShaderStage)
    returns (words: seq<Word>)
    ensures words == GlslToSpvResult(backend, filename, stage)
  {
    var compiler: ShaderCompiler;
    if stage == Vertex {
      compiler := new ShaderCompiler(backend, filename, None);
    } else if stage == Fragment {
      compiler := new ShaderCompiler(backend, None, filename);
    } else {
      return [];
    }
    var compiled := compiler.Compile();
    if !compiled {
      return [];
    }
    var linkedOk := compiler.Link();
    if !linkedOk {
      return [];
    }
    var generated, vertex, fragment := compiler.GenSpv([], []);
    // The second switch's default case cannot be reached: stage is Vertex or Fragment here.
    if stage == Vertex {
      words := vertex;
    } else {
      words := fragment;
    }
  }

  method GenGlslDetail(backend: Backend, vertex: Option<Path>, fragment: Option<Path>)
    returns (detail: Option<ShaderDetail>)
    ensures detail == GenGlslDetailResult(backend, vertex, fragment)
  {
    var compiler := new ShaderCompiler(backend, vertex, fragment);
    var compiled := compiler.Compile();
    if !compiled {
      return None;
    }
    var linkedOk := compiler.Link();
    if !linkedOk {
      return None;
    }
    compiler.Reflect();
    var d := compiler.GenDetail();
    return Some(d);
  }
}
