# GlslCompiler core, modelled in Dafny

GlslCompiler is a thin C++ wrapper around glslang. It takes a vertex and/or fragment
shader file name, compiles the requested stages, links them into one program, and then
either emits SPIR-V words per stage or walks glslang's reflection tables into a
`ShaderDetail` (uniforms and pipeline inputs/outputs). This project models that wrapper:

- `types.dfy` (module `Types`): `Option` (a null pointer is `None`), and `uint32` with the
  C++ `int`→`uint32_t` conversion written out as reduction modulo 2^32.
- `stages.dfy` (module `Stages`): the `ShaderStage` enumeration with its C++ numbering, the
  glslang stage masks as natural numbers, and the `GetStageFromMask` switch.
- `detail.dfy` (module `Detail`): the `ShaderDetail` records, the reflection tables they
  are built from, and the specification of the `GenDetail` walk as functions over those
  tables, with lemmas on the order, count and content of the output.
- `compiler.dfy` (module `Compiler`): the `ShaderCompiler` class (fields for the two flags,
  the two file names, the two shader objects, the program's attached shaders and its link
  and reflection results), its methods `compile`, `Compile`, `Link`, `GenSpv`, `Reflect`
  and `GenDetail`, and the free functions `GlslToSpv` and `GenGlslDetail`.
  - `CompilerState` is the object's fields as a value. Each method is proved against a
    pure step function of the old state: `Initial`, `AfterCompileStage`, `AfterCompile`,
    `AfterLink`, `GenSpvResult` and `AfterReflect`. The lemmas about the operations are
    stated over these functions.

Everything glslang and the file system do is an input of the model. A `Backend` record
holds total functions for loading a file, parsing a shader, linking a list of shaders,
generating SPIR-V for a stage, and building reflection tables. The modelled part is the
wrapper's control flow around those calls: which calls happen, in what order, on what
arguments, and how their results become return values and fields.

## Model

| member | source | states |
|---|---|---|
| Types.ToUint32 | src/GlslCompiler.h:40-42 | storing an `int` into a `uint32_t` field keeps a value already in range and otherwise yields the value congruent to it modulo 2^32 |
| Stages.Ordinal | src/GlslCompiler.h:19-36 | the enumerators are numbered 0..15 from `eVertex = 0`, and `eFragment = 4` continues the count; exactly the fourteen real stages take 0..13, `eCount` is 14 and `eUndefine` is 15 |
| Stages.FromOrdinal | src/GlslCompiler.h:19-36 | an integer names an enumerator exactly when it is below 16, and that enumerator's number is the integer |
| Stages.OrdinalBijective | src/GlslCompiler.h:19-36 | the numbering is one-to-one, and every tag 0..13 is a real stage |
| Stages.MaskOfIsShiftedBit | src/GlslCompiler.cc:116-164 | each stage's mask constant is the single bit at the stage's number |
| Stages.GetStageFromMask | src/GlslCompiler.cc:116-164 | the mapper never returns `eCount` |
| Stages.SingletonMaskMapsToItsStage | src/GlslCompiler.cc:116-164 | the mask of a single stage maps back to that stage |
| Stages.ResolvedMaskIsSingleton | src/GlslCompiler.cc:116-164 | a mask that maps to a real stage is exactly that stage's mask |
| Stages.MaskResolvesOnlyFromSingleton | src/GlslCompiler.cc:116-164 | a mask maps to a real stage if and only if it is some stage's single-bit mask; any other mask maps to `eUndefine` (the default branch) |
| Stages.SingletonMasksInjective | src/GlslCompiler.cc:116-164 | distinct stages have distinct masks, and those masks map to distinct stages |
| Stages.NonSingletonMaskIsUndefined | src/GlslCompiler.cc:116-164 | a mask with zero bits or with several bits set, i.e. a variable used by several stages, maps to `eUndefine` |
| Detail.SamplerUniform | src/GlslCompiler.cc:295-303 | a sampler's entry is never assigned `eUniformBlock`; it is assigned `eCombined` exactly when the sampler is combined; it carries the sampler's dimensionality as size, its set, binding and name, and a stage other than `eCount` |
| Detail.BlockUniform | src/GlslCompiler.cc:310-316 | a block's entry is marked `eUniformBlock` and carries the block's set, binding and name, its byte size (exact whenever it fits in `uint32_t`), and a stage other than `eCount` |
| Detail.PipeAttribute | src/GlslCompiler.cc:322-327 | a pipe row's entry has the direction of its table (`eIn` for inputs, `eOut` for outputs, lines 333-338), the row's location and name, its size (exact whenever it fits in `uint32_t`), and a stage other than `eCount` |
| Detail.SamplerUniforms | src/GlslCompiler.cc:291-306 | the first loop emits one uniform per sampler-typed variable and none for other variables |
| Detail.BlockUniforms | src/GlslCompiler.cc:308-319 | the second loop emits exactly one uniform per uniform block |
| Detail.PipeAttributes | src/GlslCompiler.cc:320-341 | the pipe loops emit exactly one attribute per reflected input or output |
| Detail.DetailOf | src/GlslCompiler.cc:288-342 | `uniforms` holds the number of samplers plus the number of blocks; `pipeline_io` holds the number of inputs plus the number of outputs |
| Detail.SamplerCountBound | src/GlslCompiler.cc:291-306 | at most one uniform per uniform variable, with every variable emitted exactly when all of them are samplers |
| Detail.SamplerUniformAt | src/GlslCompiler.cc:291-306 | the i-th variable, when it is a sampler, appears at the position given by the number of samplers before it (source order is kept) |
| Detail.SamplerUniformSource | src/GlslCompiler.cc:291-306 | every sampler entry comes from some sampler variable, in order |
| Detail.BlockUniformsAt | src/GlslCompiler.cc:308-319 | block j becomes the j-th block entry, with its set, binding, mapped stage, name, and byte size as `uint32_t` |
| Detail.PipeAttributesAt | src/GlslCompiler.cc:320-341 | table row j becomes the j-th attribute, with its location, size as `uint32_t`, name, mapped stage and direction |
| Detail.UniformsLayout | src/GlslCompiler.cc:288-319 | in `uniforms` the entries the code assigns `eUniformBlock` are exactly those after all sampler entries; block j sits at the sampler count plus j |
| Detail.PipelineIoLayout | src/GlslCompiler.cc:320-341 | `pipeline_io` holds the inputs as `eIn` at their own indices, then the outputs as `eOut`; an entry is `eIn` if and only if its index is below the number of inputs |
| Compiler.Request | src/GlslCompiler.cc:224-225 | the parse request carries the loaded text, entry point "main" and version 400; the `EShLanguage` cast of the stage is 0 (`EShLangVertex`) for the vertex stage, 4 (`EShLangFragment`) for the fragment stage, and below 14 for any real stage |
| Compiler.SelectedShader | src/GlslCompiler.cc:222 | `compile` works on one of the state's two shader objects: the vertex one, with the vertex tag, exactly for `eVertex`, and the fragment one, with the fragment tag, for every other stage; it is null exactly when that stage was not requested |
| Compiler.StageCompiles | src/GlslCompiler.cc:208-234 | `compile` returns true only for a non-null name whose file loads; for a non-null name, it returns true exactly when a fresh shader object ends up parsed |
| Compiler.CompileOk | src/GlslCompiler.cc:236-249 | `Compile` returns true when no stage is requested, and only when every requested stage has a file name; `CompileOkIffRequestedParsed` and `FreshCompileAndLink` state it is the AND over the requested stages |
| Compiler.CompileInto | src/GlslCompiler.cc:208-234 | `compile` leaves the shader object untouched on a null name or a failed load; otherwise the object, which keeps existing and keeps its stage, holds the request built from the loaded text for that stage and the parse verdict on exactly that request |
| Compiler.CompileMarksParsed | src/GlslCompiler.cc:208-234 | for a fresh shader object, `compile` leaves it parsed exactly when it returns true, and the request uses the stage's `EShLanguage` number, entry point "main" and version 400 |
| Compiler.Resolve | src/GlslCompiler.cc:251-266 | the program's attached-shader list dereferences to one shader object per attached pointer |
| Compiler.ResolveAt | src/GlslCompiler.cc:251-266 | the k-th attached shader is the object that the k-th attached pointer points at |
| Compiler.Initial | src/GlslCompiler.cc:167-181 | a flag is set, and its shader object created, exactly for a non-null file name; nothing is attached, linked or reflected yet |
| Compiler.AfterCompileStage | src/GlslCompiler.cc:208-234 | `compile` keeps the object's invariant: the requested stages and their shader objects stay paired |
| Compiler.AfterCompile | src/GlslCompiler.cc:236-249 | `Compile` keeps the object's invariant |
| Compiler.AttachRequested | src/GlslCompiler.cc:252-257 | `Link` keeps the already attached shaders as a prefix and attaches one more for each requested stage whose shader object exists; `LinkOutcome` gives the exact list, vertex first |
| Compiler.LinkOk | src/GlslCompiler.cc:251-266 | `Link` returns true only when some stage is requested and something was attached; `LinkOutcome` states it is then the backend's verdict on the attached shaders |
| Compiler.AfterLink | src/GlslCompiler.cc:251-266 | `Link` keeps the invariant, and a successful link records a linked program |
| Compiler.GenSpvResult | src/GlslCompiler.cc:268-286 | `GenSpv` returns true if and only if both vectors end up non-empty; the words generated for `EShLanguage` 0 are appended to the vertex vector and those for 4 to the fragment vector, each only when its stage is requested; a vector for an unrequested stage is unchanged |
| Compiler.AfterReflect | src/GlslCompiler.cc:346-351 | after `Reflect` the reflection tables are available |
| Compiler.CompileAttemptsEachRequestedStage | src/GlslCompiler.cc:236-249 | `Compile` calls `compile` on every requested stage, so a vertex failure does not skip the fragment stage; it changes nothing but the two shader objects |
| Compiler.CompileOkIffRequestedParsed | src/GlslCompiler.cc:236-249 | on fresh shader objects `Compile` returns true if and only if every requested shader object ends up parsed (the result is the AND over the requested stages) |
| Compiler.LinkOutcome | src/GlslCompiler.cc:251-266 | with no requested stage `Link` returns false and changes nothing; otherwise it attaches the requested shaders, vertex first, and returns the backend's verdict on them, recording the link only on success |
| Compiler.NoStageRequested | src/GlslCompiler.cc:167-181 | a compiler built from two null names compiles vacuously and then fails to link |
| Compiler.ShaderCompiler.constructor | src/GlslCompiler.cc:167-181 | the new object's state is `Initial` of the two names |
| Compiler.ShaderCompiler.CompileStage | src/GlslCompiler.cc:208-234 | returns false for a null name, a failed load or a failed parse, and true otherwise; the new state is `AfterCompileStage` |
| Compiler.ShaderCompiler.Compile | src/GlslCompiler.cc:236-249 | returns `CompileOk` of the old state; the new state is `AfterCompile` |
| Compiler.ShaderCompiler.Link | src/GlslCompiler.cc:251-266 | returns `LinkOk` of the old state; the new state is `AfterLink` |
| Compiler.ShaderCompiler.GenSpv | src/GlslCompiler.cc:268-286 | the result and the two vectors are `GenSpvResult` of the state and the vectors passed in |
| Compiler.ShaderCompiler.Reflect | src/GlslCompiler.cc:346-351 | the new state is `AfterReflect` |
| Compiler.ShaderCompiler.GenDetail | src/GlslCompiler.cc:288-342 | the four loops build exactly `DetailOf` of the reflection tables |
| Compiler.FreshCompileAndLink | src/GlslCompiler.cc:236-266 | on a fresh compiler, `Compile` is the AND of `compile` over the given names, and `Link` succeeds if and only if some name is given and the backend links the compiled objects, vertex first |
| Compiler.GlslToSpvOutcome | src/GlslCompiler.cc:353-386 | empty for a stage other than vertex or fragment, for a null name, and for a failed compile; otherwise the stage's generated words when the lone shader links, and empty when it does not; `GenSpv`'s result is ignored |
| Compiler.SingleStageGenSpvFails | src/GlslCompiler.cc:268-286 | with only one stage requested, `GenSpv` from two empty vectors always returns false |
| Compiler.GenGlslDetailOutcome | src/GlslCompiler.cc:388-399 | null when both names are null; non-null if and only if every given file compiles, some name is given and the link succeeds; the detail is the walk over the tables reflected from exactly the compiled shaders |
| Compiler.GlslToSpvResult | src/GlslCompiler.cc:353-386 | words come back only for a non-null name and a vertex or fragment stage; `GlslToSpvOutcome` states every case |
| Compiler.GenGlslDetailResult | src/GlslCompiler.cc:388-399 | two null names give a null detail; `GenGlslDetailOutcome` states every case |
| Compiler.GlslToSpv | src/GlslCompiler.cc:353-386 | returns `GlslToSpvResult` |
| Compiler.GenGlslDetail | src/GlslCompiler.cc:388-399 | returns `GenGlslDetailResult` |

## Left out

- `LoadFile` (file I/O): only its outcome is modelled, as the backend's `load`. It gives `None` for a file that cannot be opened or is empty; the text type `LoadedText` of a successful load is never empty.
- glslang itself (`TShader::parse`, `TProgram::link`, `GlslangToSpv`, `buildReflection`, the reflection getters): these are the backend's functions. The model does not capture their internal state, such as glslang's rule that a program links only once.
- `InitResources` (the `TBuiltInResource` limits passed to every parse) and `glslang::InitializeProcess`/`FinalizeProcess`: they do decide what parsing returns, e.g. a shader over a resource limit fails to parse. They are the same on every call, so the model folds them into the backend's `parse`.
- The destructor, the `PRINT` logging, `dumpReflection` under `_DEBUG`, and the `DLL_DECLARE` macros: none of these affects a returned value.
- Compiler.GenSpvResult: takes it that `GlslangToSpv` appends its words to the vector it is given, as glslang's SPIR-V builder does. A backend that cleared the vector first would differ only when the caller passes non-empty vectors, which the free functions never do.
- Compiler.ShaderCompiler.GenDetail: the `int32_t` loop counters are unbounded integers here, so tables with more than 2^31-1 rows are not modelled.
- Compiler.ShaderCompiler.GenDetail: `Uniform::type` is left uninitialised for a non-combined sampler. It is modelled as `None`, meaning an unspecified value. The C++ field can then hold any value, including `eUniformBlock` (0), so a caller reading `type` cannot tell a non-combined sampler from a uniform block. The layout lemmas describe what the code assigns, not what a caller reads.
- Compiler.ShaderCompiler.GenSpv: the two vectors are passed and returned as values, so a caller that passes the same `std::vector` for both is not modelled. Both stages' words would then go into one vector, and the final test would read that vector twice. The source's only caller passes two distinct locals.
- Compiler.ShaderCompiler.GenSpv: requires a linked program whenever a stage is requested. Calling it before a successful `Link` is not modelled; the source's only caller, `GlslToSpv`, calls it after `Link` succeeds.
- Compiler.ShaderCompiler.Reflect: requires a linked program. Calling it before a successful `Link` is not modelled; the source's only caller, `GenGlslDetail`, calls it after `Link` succeeds.
- Compiler.ShaderCompiler.GenDetail: requires the reflection tables to have been built. Calling it before `Reflect` is not modelled; `GenGlslDetail` calls it right after `Reflect`.
- Compiler.ShaderCompiler.CompileStage: dereferencing a null shader object is undefined behaviour. It is stated as a precondition; `Compile` never breaks it.
- The object's shader objects are values. The program holds pointers to them, modelled as the stage of each attached object, and they are resolved at link time. Mutations after linking are not tracked, and nothing in the source makes any.
- `std::unique_ptr` ownership and the `std::move` of the result are not modelled: a null result is `None`.
