/**
 * The algorithm descriptor that the registration functions fill in
 * (algo_gate_t): the hash function, the nonce search function and the set
 * of optimisation flags, plus the CPU feature tiers the gates choose among.
 *
 * Function pointers are modelled as names: a field holds the name of the
 * function bound to it, and a field a registration leaves alone keeps
 * whatever name it held before.
 */
module AlgoGate {
  /** The optimisation flags a descriptor advertises (SSE2_OPT, AES_OPT, ...). */
  datatype Opt = Sse2Opt | AesOpt | Avx2Opt | Avx512Opt | VaesOpt | Vaes256Opt

  /** The instruction-set tier an algorithm is compiled for, and its lanes per hash call. */
  datatype Tier = Scalar | FourWay | EightWay

  function LaneWidth(t: Tier): (k: nat)
    ensures k == 1 || k == 4 || k == 8
    ensures t == Scalar <==> k == 1
  {
    match t
    case Scalar => 1
    case FourWay => 4
    case EightWay => 8
  }

  /** The hash functions a descriptor can point to; Other stands for one bound elsewhere. */
  datatype HashFn = OtherHash(id: nat) | CosaHash | Hash0x10Hash(tier: Tier)

  /** The nonce search functions a descriptor can point to. */
  datatype ScanFn = OtherScan(id: nat) | ScanhashOcv2 | ScanhashHash0x10(tier: Tier)

  /**
   * The per-thread initialisers a descriptor can point to: return_true, the
   * default every descriptor starts with, does nothing; lyra2z_thread_init
   * allocates the Lyra2Z matrix as cosa.c writes it; CosaThreadInitFn is that
   * allocation sized for cosa_hash.
   */
  datatype ThreadInitFn = ReturnTrue | Lyra2zThreadInitFn | CosaThreadInitFn

  /** algo_gate_t, the fields these registrations touch. */
  class Gate {
    var hash: HashFn
    var scanhash: ScanFn
    var optimizations: set<Opt>
    var threadInit: ThreadInitFn

    constructor (h: HashFn, s: ScanFn, opts: set<Opt>, ti: ThreadInitFn)
      ensures hash == h && scanhash == s && optimizations == opts && threadInit == ti
    {
      hash := h;
      scanhash := s;
      optimizations := opts;
      threadInit := ti;
    }
  }
}
