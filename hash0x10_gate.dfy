/**
 * The hash0x10 gate: a compile-time choice of one of three implementation
 * tiers from the CPU features the build targets, and the registration that
 * binds the chosen tier's hash and nonce search into the descriptor.
 */
module Hash0x10Gate {
  import opened AlgoGate

  /** The instruction-set macros the tier decision tests (__AVX512F__, ..., __AES__). */
  datatype CpuFeatures = CpuFeatures(
    avx512f: bool, avx512vl: bool, avx512dq: bool, avx512bw: bool, avx2: bool, aes: bool)

  predicate HasAvx512(f: CpuFeatures)
  {
    f.avx512f && f.avx512vl && f.avx512dq && f.avx512bw
  }

  /**
   * HASH0X10_8WAY / HASH0X10_4WAY / neither: the first branch of the
   * #if / #elif whose condition holds.
   */
  function SelectTier(f: CpuFeatures): (t: Tier)
    ensures t == EightWay <==> HasAvx512(f)
    ensures t == FourWay <==> !HasAvx512(f) && f.avx2 && f.aes
    ensures t == Scalar <==> !HasAvx512(f) && !(f.avx2 && f.aes)
  {
    if HasAvx512(f) then EightWay
    else if f.avx2 && f.aes then FourWay
    else Scalar
  }

  /** `g` has every feature `f` has. */
  predicate Includes(g: CpuFeatures, f: CpuFeatures)
  {
    (f.avx512f ==> g.avx512f) && (f.avx512vl ==> g.avx512vl) && (f.avx512dq ==> g.avx512dq) &&
    (f.avx512bw ==> g.avx512bw) && (f.avx2 ==> g.avx2) && (f.aes ==> g.aes)
  }

  /** More features never select fewer lanes. */
  lemma TierMonotone(f: CpuFeatures, g: CpuFeatures)
    requires Includes(g, f)
    ensures LaneWidth(SelectTier(f)) <= LaneWidth(SelectTier(g))
  {}

  /** The context initialisers: init_hash0x10_ctx and its 4- and 8-way forms. */
  datatype CtxInit = InitHash0x10Ctx(tier: Tier)

  /** The functions a tier declares: one hash, one nonce search, one context initialiser. */
  datatype TierApi = TierApi(hash: HashFn, scanhash: ScanFn, init: CtxInit)

  function Declared(t: Tier): (api: TierApi)
    ensures api.hash == Hash0x10Hash(t) && api.scanhash == ScanhashHash0x10(t)
    ensures api.init == InitHash0x10Ctx(t)
  {
    TierApi(Hash0x10Hash(t), ScanhashHash0x10(t), InitHash0x10Ctx(t))
  }

  /** Different tiers declare different functions: no name is shared between two tiers. */
  lemma DeclaredInjective(t: Tier, u: Tier)
    requires t != u
    ensures Declared(t).hash != Declared(u).hash && Declared(t).scanhash != Declared(u).scanhash
    ensures Declared(t).init != Declared(u).init
  {}

  /** The static hashing context the init_*_ctx functions prepare, and the tier it was prepared for. */
  class Hash0x10Context {
    var initialized: bool
    var tier: Tier

    constructor ()
      ensures !initialized
    {
      initialized := false;
      tier := Scalar;
    }

    /** init_hash0x10_ctx (or its 4-/8-way form): prepares the context for `t`. */
    method Init(t: Tier)
      modifies this
      ensures initialized && tier == t
    {
      initialized := true;
      tier := t;
    }
  }

  /**
   * register_hash0x10_algo for a build targeting `f`: initialise the tier's
   * context, bind its search and hash, set the five flags.
   */
  method RegisterHash0x10(gate: Gate, ctx: Hash0x10Context, f: CpuFeatures) returns (ok: bool)
    modifies gate, ctx
    ensures ok
    ensures ctx.initialized && ctx.tier == SelectTier(f)
    ensures gate.hash == Declared(SelectTier(f)).hash
    ensures gate.scanhash == Declared(SelectTier(f)).scanhash
    ensures gate.hash.tier == gate.scanhash.tier == ctx.tier
    ensures gate.optimizations == {Sse2Opt, AesOpt, Avx2Opt, Avx512Opt, VaesOpt}
    ensures gate.threadInit == old(gate.threadInit)
  {
    var t := SelectTier(f);
    ctx.Init(t);
    gate.scanhash := ScanhashHash0x10(t);
    gate.hash := Hash0x10Hash(t);
    gate.optimizations := {Sse2Opt, AesOpt, Avx2Opt, Avx512Opt, VaesOpt};
    return true;
  }
}
