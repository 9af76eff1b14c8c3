/**
 * The Cosanta gate: registration of cosa_hash in the algorithm descriptor,
 * and what a miner thread's start-up then does with the Lyra2Z scratch
 * matrix cosa_hash works in.
 */
module CosaGate {
  import opened AlgoGate
  import Cosa

  /** The flags register_cosa_algo advertises: every tier up to 256-bit VAES. */
  const CosaOptimizations: set<Opt> := {Sse2Opt, AesOpt, Avx2Opt, Avx512Opt, VaesOpt, Vaes256Opt}

  /**
   * register_cosa_algo: binds the hash and sets the flags; the nonce search
   * and the thread initialiser are left as they were.
   */
  method RegisterCosa(gate: Gate) returns (ok: bool)
    modifies gate
    ensures ok
    ensures gate.hash == CosaHash
    ensures gate.optimizations == CosaOptimizations
    ensures gate.scanhash == old(gate.scanhash)
    ensures gate.threadInit == old(gate.threadInit)
  {
    gate.hash := CosaHash;
    gate.optimizations := CosaOptimizations;
    return true;
  }

  /** register_cosa_algo with the thread initialiser cosa_hash needs bound as well. */
  method RegisterCosaCorrected(gate: Gate) returns (ok: bool)
    modifies gate
    ensures ok
    ensures gate.hash == CosaHash
    ensures gate.optimizations == CosaOptimizations
    ensures gate.scanhash == old(gate.scanhash)
    ensures gate.threadInit == CosaThreadInitFn
  {
    ok := RegisterCosa(gate);
    gate.threadInit := CosaThreadInitFn;
  }

  /**
   * A miner thread starting up calls the descriptor's thread initialiser
   * with its own scratch. `allocOk` is the allocator's verdict; return_true
   * leaves the scratch alone.
   */
  method StartThread(gate: Gate, t: Cosa.ThreadScratch, allocOk: bool) returns (ok: bool)
    modifies t
    ensures gate.threadInit == ReturnTrue ==> ok && t.matrix == old(t.matrix)
    ensures gate.threadInit == Lyra2zThreadInitFn ==>
      ok == allocOk && (ok ==> t.matrix.Allocated? && 8 * t.matrix.words.Length == Cosa.MatrixBytes)
    ensures gate.threadInit == CosaThreadInitFn ==>
      ok == allocOk && (ok ==> t.matrix.Allocated? && 8 * t.matrix.words.Length == Cosa.LyraMatrixBytes)
  {
    match gate.threadInit
    case ReturnTrue => ok := true;
    case Lyra2zThreadInitFn => ok := Cosa.Lyra2zThreadInit(t, allocOk);
    case CosaThreadInitFn => ok := Cosa.CosaThreadInit(t, allocOk);
  }

  /**
   * A Cosanta miner thread as registered: the descriptor starts with
   * return_true, register_cosa_algo keeps it, so the thread's matrix is
   * never allocated and cosa_hash would be handed a null matrix.
   */
  method CosaThreadAsWritten(allocOk: bool) returns (t: Cosa.ThreadScratch)
    ensures t.matrix == Cosa.NoMatrix
  {
    var gate := new Gate(OtherHash(0), OtherScan(0), {}, ReturnTrue);
    var registered := RegisterCosa(gate);
    t := new Cosa.ThreadScratch();
    var started := StartThread(gate, t, allocOk);
  }

  /**
   * A Cosanta miner thread with the corrected registration: once the
   * allocation succeeds, the scratch meets cosa_hash's requirement.
   */
  method CosaThreadCorrected(allocOk: bool) returns (t: Cosa.ThreadScratch, ok: bool)
    ensures ok == allocOk
    ensures ok ==> t.matrix.Allocated? && 8 * t.matrix.words.Length >= Cosa.LyraMatrixBytes
  {
    var gate := new Gate(OtherHash(0), OtherScan(0), {}, ReturnTrue);
    var registered := RegisterCosaCorrected(gate);
    t := new Cosa.ThreadScratch();
    ok := StartThread(gate, t, allocOk);
  }
}
