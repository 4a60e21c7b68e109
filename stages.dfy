/** The `ShaderStage` enum of GlslCompiler.h, its numbering (which the casts to glslang's
    `EShLanguage` rely on), glslang's one-bit stage masks, and the mapper from a reflected
    stage mask to a single stage tag. */
module Stages {
  import opened Types

  datatype ShaderStage =
    | Vertex | TessControl | TessEvaluation | Geometry | Fragment | Compute
    | RayGenNV | IntersectNV | AnyHitNV | ClosestHitNV | MissNV | CallableNV | TaskNV | MeshNV
    | Count | Undefine

  /** Number of pipeline stages proper (vertex through meshNV). */
  const RealStageCount: nat := 14

  /** A pipeline stage, as opposed to the two trailing markers `eCount` and `eUndefine`. */
  predicate IsRealStage(s: ShaderStage) {
    s != Count && s != Undefine
  }

  /** The integer value of each enumerator: `eVertex = 0` and `eFragment = 4` are explicit,
      every other enumerator is one more than the one before it. */
  function Ordinal(s: ShaderStage): (n: nat)
    ensures n < RealStageCount + 2
    ensures IsRealStage(s) <==> n < RealStageCount
    ensures s == Count <==> n == RealStageCount
  {
    match s
    case Vertex => 0
    case TessControl => 1
    case TessEvaluation => 2
    case Geometry => 3
    case Fragment => 4
    case Compute => 5
    case RayGenNV => 6
    case IntersectNV => 7
    case AnyHitNV => 8
    case ClosestHitNV => 9
    case MissNV => 10
    case CallableNV => 11
    case TaskNV => 12
    case MeshNV => 13
    case Count => 14
    case Undefine => 15
  }

  /** The enumerator with a given value, if any: the inverse of `Ordinal`. */
  function FromOrdinal(n: nat): (r: Option<ShaderStage>)
    ensures r.Some? <==> n < RealStageCount + 2
    ensures r.Some? ==> Ordinal(r.value) == n
  {
    if n == 0 then Some(Vertex)
    else if n == 1 then Some(TessControl)
    else if n == 2 then Some(TessEvaluation)
    else if n == 3 then Some(Geometry)
    else if n == 4 then Some(Fragment)
    else if n == 5 then Some(Compute)
    else if n == 6 then Some(RayGenNV)
    else if n == 7 then Some(IntersectNV)
    else if n == 8 then Some(AnyHitNV)
    else if n == 9 then Some(ClosestHitNV)
    else if n == 10 then Some(MissNV)
    else if n == 11 then Some(CallableNV)
    else if n == 12 then Some(TaskNV)
    else if n == 13 then Some(MeshNV)
    else if n == 14 then Some(Count)
    else if n == 15 then Some(Undefine)
    else None
  }

  /** Distinct enumerators have distinct values, and the real stages fill 0..13 without a gap. */
  lemma OrdinalBijective(s: ShaderStage, n: nat)
    ensures FromOrdinal(Ordinal(s)) == Some(s)
    ensures n < RealStageCount ==> exists t :: IsRealStage(t) && Ordinal(t) == n
  {
    if n < RealStageCount {
      var t := FromOrdinal(n).value;
      assert IsRealStage(t) && Ordinal(t) == n;
    }
  }

  // ---------------------------------------------------------------------------------------
  // Stage masks. glslang defines each `EShLang<X>Mask` as `1 << EShLang<X>`, and its
  // `EShLanguage` numbering agrees with `Ordinal` on the real stages, so bit i stands for
  // the stage with value i. A reflected resource's `stages` field is the union of the masks
  // of the stages that use it.
  // ---------------------------------------------------------------------------------------

  type StageMask = nat

  function Pow2(k: nat): (r: nat)
    ensures r >= 1
  {
    if k == 0 then 1 else 2 * Pow2(k - 1)
  }

  /** Number of set bits of a mask. */
  function BitCount(m: StageMask): nat {
    if m == 0 then 0 else m % 2 + BitCount(m / 2)
  }

  lemma {:induction false} BitCountPow2(k: nat)
    ensures BitCount(Pow2(k)) == 1
  {
    if k > 0 {
      var p := Pow2(k - 1);
      assert Pow2(k) % 2 == 0 && Pow2(k) / 2 == p;
      BitCountPow2(k - 1);
    }
  }

  /** `EShLang<X>Mask` for a real stage X, as glslang spells the fourteen constants. */
  function MaskOf(s: ShaderStage): (m: StageMask)
    requires IsRealStage(s)
  {
    match s
    case Vertex => 0x1
    case TessControl => 0x2
    case TessEvaluation => 0x4
    case Geometry => 0x8
    case Fragment => 0x10
    case Compute => 0x20
    case RayGenNV => 0x40
    case IntersectNV => 0x80
    case AnyHitNV => 0x100
    case ClosestHitNV => 0x200
    case MissNV => 0x400
    case CallableNV => 0x800
    case TaskNV => 0x1000
    case MeshNV => 0x2000
  }

  /** Each stage mask is `1 << EShLang<X>` with `EShLang<X>` the stage's value, so it has
      exactly one bit set, and different stages have different masks. */
  lemma MaskOfIsShiftedBit(s: ShaderStage)
    requires IsRealStage(s)
    ensures MaskOf(s) == Pow2(Ordinal(s))
    ensures BitCount(MaskOf(s)) == 1
  {
    var k := Ordinal(s);
    assert Pow2(1) == 0x2 && Pow2(2) == 0x4 && Pow2(3) == 0x8 && Pow2(4) == 0x10;
    assert Pow2(5) == 0x20 && Pow2(6) == 0x40 && Pow2(7) == 0x80 && Pow2(8) == 0x100;
    assert Pow2(9) == 0x200 && Pow2(10) == 0x400 && Pow2(11) == 0x800;
    assert Pow2(12) == 0x1000 && Pow2(13) == 0x2000;
    BitCountPow2(k);
  }

  /** `GetStageFromMask`: each of the fourteen one-bit stage masks gives its own stage;
      every other mask (empty, several bits, or an unknown bit) gives `Undefine`. */
  function GetStageFromMask(mask: StageMask): (s: ShaderStage)
    ensures s != Count
  {
    match mask
    case 0x1 => Vertex
    case 0x2 => TessControl
    case 0x4 => TessEvaluation
    case 0x8 => Geometry
    case 0x10 => Fragment
    case 0x20 => Compute
    case 0x40 => RayGenNV
    case 0x80 => IntersectNV
    case 0x100 => AnyHitNV
    case 0x200 => ClosestHitNV
    case 0x400 => MissNV
    case 0x800 => CallableNV
    case 0x1000 => TaskNV
    case 0x2000 => MeshNV
    case _ => Undefine
  }

  /** Every singleton mask maps back to its own stage. */
  lemma SingletonMaskMapsToItsStage(s: ShaderStage)
    requires IsRealStage(s)
    ensures GetStageFromMask(MaskOf(s)) == s
  {
    match s
    case Vertex =>
    case TessControl =>
    case TessEvaluation =>
    case Geometry =>
    case Fragment =>
    case Compute =>
    case RayGenNV =>
    case IntersectNV =>
    case AnyHitNV =>
    case ClosestHitNV =>
    case MissNV =>
    case CallableNV =>
    case TaskNV =>
    case MeshNV =>
  }

  /** A mask that resolves to a real stage is that stage's singleton mask. */
  lemma ResolvedMaskIsSingleton(mask: StageMask)
    requires IsRealStage(GetStageFromMask(mask))
    ensures mask == MaskOf(GetStageFromMask(mask))
  {
  }

  /** A mask resolves to a real stage exactly when it is one of the fourteen singleton masks;
      every other mask resolves to `Undefine`. */
  lemma MaskResolvesOnlyFromSingleton(mask: StageMask)
    ensures IsRealStage(GetStageFromMask(mask)) <==>
            exists s :: IsRealStage(s) && mask == MaskOf(s)
    ensures !IsRealStage(GetStageFromMask(mask)) ==> GetStageFromMask(mask) == Undefine
  {
    var r := GetStageFromMask(mask);
    if IsRealStage(r) {
      ResolvedMaskIsSingleton(mask);
    } else if s :| IsRealStage(s) && mask == MaskOf(s) {
      SingletonMaskMapsToItsStage(s);
      assert false;
    }
  }

  /** Distinct singleton masks give distinct stage tags. */
  lemma SingletonMasksInjective(a: ShaderStage, b: ShaderStage)
    requires IsRealStage(a) && IsRealStage(b) && a != b
    ensures MaskOf(a) != MaskOf(b)
    ensures GetStageFromMask(MaskOf(a)) != GetStageFromMask(MaskOf(b))
  {
    SingletonMaskMapsToItsStage(a);
    SingletonMaskMapsToItsStage(b);
  }

  /** The empty mask and every mask with two or more bits set resolve to `Undefine`. */
  lemma NonSingletonMaskIsUndefined(mask: StageMask)
    requires BitCount(mask) != 1
    ensures GetStageFromMask(mask) == Undefine
  {
    var r := GetStageFromMask(mask);
    if IsRealStage(r) {
      ResolvedMaskIsSingleton(mask);
      MaskOfIsShiftedBit(r);
      assert false;
    }
  }
}
