/**
 * cosa_hash: the Cosanta proof-of-work hash. Sixteen 512-bit hash stages
 * run one after another over a single buffer, then HAVAL-256, GOST-512 and
 * Lyra2Z finish the digest. The primitives themselves are oracles with
 * their fixed output lengths; what the model pins down is their order and
 * the plumbing of bytes between them: which bytes each stage reads, which
 * bytes are zero padding, and which bytes leave as the result.
 */
module Cosa {
  /** The sixteen 512-bit stages, named for the sph_* primitives that implement them. */
  datatype Stage =
    | Blake512 | Bmw512 | Groestl512 | Skein512 | Jh512 | Keccak512 | Luffa512 | Cubehash512
    | Shavite512 | Simd512 | Echo512 | Hamsi512 | Fugue512 | Shabal512 | Whirlpool | Sha512

  /** The order in which cosa_hash runs the stages. */
  const StageOrder: seq<Stage> :=
    [Blake512, Bmw512, Groestl512, Skein512, Jh512, Keccak512, Luffa512, Cubehash512,
     Shavite512, Simd512, Echo512, Hamsi512, Fugue512, Shabal512, Whirlpool, Sha512]

  type Digest64 = s: seq<bv8> | |s| == 64 witness seq(64, i => 0)
  type Digest32 = s: seq<bv8> | |s| == 32 witness seq(32, i => 0)

  /** Bytes the stages read: 80 of block header for the first, 64 of digest for the rest. */
  const HeaderLen := 80
  const Size := 64
  /** Lyra2Z's parameters as cosa_hash passes them. */
  const LyraOutLen := 32
  const LyraInLen := 80
  const LyraTimeCost := 2
  const LyraRows := 66
  const LyraCols := 66

  /**
   * The primitives: each stage maps its input to a 64-byte digest, HAVAL-256
   * to 32 bytes, GOST-512 to 64 bytes, and Lyra2Z(password, salt, time cost,
   * rows, columns) to the 32 bytes cosa_hash asks for.
   */
  datatype Primitives = Primitives(
    stage: (Stage, seq<bv8>) -> Digest64,
    haval: seq<bv8> -> Digest32,
    gost: seq<bv8> -> Digest64,
    lyra2z: (seq<bv8>, seq<bv8>, nat, nat, nat) -> Digest32)

  function Zeros(n: nat): (z: seq<bv8>)
    ensures |z| == n && forall i :: 0 <= i < n ==> z[i] == 0
  {
    seq(n, i => 0)
  }

  /** Every stage runs exactly once, Blake first and SHA-512 last. */
  lemma StageOrderIsPermutation()
    ensures |StageOrder| == 16 && StageOrder[0] == Blake512 && StageOrder[15] == Sha512
    ensures forall s: Stage :: s in StageOrder
    ensures forall i, j :: 0 <= i < j < |StageOrder| ==> StageOrder[i] != StageOrder[j]
  {
    forall s: Stage
      ensures s in StageOrder
    {
      assert StageOrder[Position(s)] == s;
    }
  }

  /** Where a stage sits in the order. */
  function Position(s: Stage): (i: nat)
    ensures i < |StageOrder| && StageOrder[i] == s
  {
    match s
    case Blake512 => 0
    case Bmw512 => 1
    case Groestl512 => 2
    case Skein512 => 3
    case Jh512 => 4
    case Keccak512 => 5
    case Luffa512 => 6
    case Cubehash512 => 7
    case Shavite512 => 8
    case Simd512 => 9
    case Echo512 => 10
    case Hamsi512 => 11
    case Fugue512 => 12
    case Shabal512 => 13
    case Whirlpool => 14
    case Sha512 => 15
  }

  /**
   * The digest after stages 0..k of the order: the first reads the header,
   * each later one the 64-byte digest of the one before.
   */
  function Chain(p: Primitives, k: nat, header: seq<bv8>): (h: Digest64)
    requires k < 16
  {
    if k == 0 then p.stage(StageOrder[0], header)
    else p.stage(StageOrder[k], Chain(p, k - 1, header))
  }

  /** The final digest of the sixteen stages is SHA-512 of the fifteen before. */
  const LastStage := 15

  /** Only the first stage sees the header: two headers Blake-512 maps alike end alike. */
  lemma {:induction false} ChainThroughFirst(p: Primitives, k: nat, a: seq<bv8>, b: seq<bv8>)
    requires k < 16 && p.stage(Blake512, a) == p.stage(Blake512, b)
    ensures Chain(p, k, a) == Chain(p, k, b)
  {
    if k > 0 {
      ChainThroughFirst(p, k - 1, a, b);
    }
  }

  /** The 64 bytes GOST-512 reads from hashB: the HAVAL digest, then 32 bytes of zeros. */
  function GostInput(p: Primitives, h: Digest64): (g: seq<bv8>)
    ensures |g| == Size && g[..32] == p.haval(h)
    ensures forall i :: 32 <= i < Size ==> g[i] == 0
  {
    p.haval(h) + Zeros(32)
  }

  /** The 80 bytes Lyra2Z reads from hashC, as password and as salt: the GOST digest, then 16 zeros. */
  function LyraInput(p: Primitives, h: Digest64): (l: seq<bv8>)
    ensures |l| == LyraInLen && l[..Size] == p.gost(GostInput(p, h))
    ensures forall i :: Size <= i < LyraInLen ==> l[i] == 0
  {
    p.gost(GostInput(p, h)) + Zeros(16)
  }

  /** The Cosanta digest of an 80-byte header. */
  function CosaDigest(p: Primitives, header: seq<bv8>): (d: Digest32)
    requires |header| >= HeaderLen
  {
    var l := LyraInput(p, Chain(p, LastStage, header[..HeaderLen]));
    p.lyra2z(l, l, LyraTimeCost, LyraRows, LyraCols)
  }

  /** The digest reads the first 80 header bytes and nothing past them. */
  lemma DigestReadsHeaderOnly(p: Primitives, a: seq<bv8>, b: seq<bv8>)
    requires |a| >= HeaderLen && |b| >= HeaderLen && a[..HeaderLen] == b[..HeaderLen]
    ensures CosaDigest(p, a) == CosaDigest(p, b)
  {}

  /** The last stages, one per buffer: HAVAL, GOST and Lyra2Z, on the 16-stage digest. */
  lemma DigestComposition(p: Primitives, header: seq<bv8>)
    requires |header| >= HeaderLen
    ensures var h := Chain(p, LastStage, header[..HeaderLen]);
            var g := p.gost(p.haval(h) + Zeros(32));
            CosaDigest(p, header) == p.lyra2z(g + Zeros(16), g + Zeros(16), 2, 66, 66)
  {}

  /** A hash close: writes the digest `d` at the start of `buf` and leaves the rest. */
  method Close(buf: array<bv8>, d: seq<bv8>)
    requires |d| <= buf.Length
    modifies buf
    ensures buf[..|d|] == d
    ensures forall i :: |d| <= i < buf.Length ==> buf[i] == old(buf[i])
  {
    forall i | 0 <= i < |d| {
      buf[i] := d[i];
    }
  }

  /** memset(buf, 0, n). */
  method ZeroFill(buf: array<bv8>, n: nat)
    requires n <= buf.Length
    modifies buf
    ensures forall i :: 0 <= i < n ==> buf[i] == 0
    ensures forall i :: n <= i < buf.Length ==> buf[i] == old(buf[i])
  {
    forall i | 0 <= i < n {
      buf[i] := 0;
    }
  }

  /** The first eight stages of the chain, Blake-512 to CubeHash-512. */
  lemma ChainFirstEight(p: Primitives, header: seq<bv8>)
    ensures Chain(p, 7, header) ==
      p.stage(Cubehash512, p.stage(Luffa512, p.stage(Keccak512, p.stage(Jh512, p.stage(Skein512, p.stage(Groestl512, p.stage(Bmw512, p.stage(Blake512, header))))))))
  {
    assert Chain(p, 0, header) == p.stage(Blake512, header);
    assert Chain(p, 1, header) == p.stage(Bmw512, Chain(p, 0, header));
    assert Chain(p, 2, header) == p.stage(Groestl512, Chain(p, 1, header));
    assert Chain(p, 3, header) == p.stage(Skein512, Chain(p, 2, header));
    assert Chain(p, 4, header) == p.stage(Jh512, Chain(p, 3, header));
    assert Chain(p, 5, header) == p.stage(Keccak512, Chain(p, 4, header));
    assert Chain(p, 6, header) == p.stage(Luffa512, Chain(p, 5, header));
  }

  /** The chain written out stage by stage, as cosa_hash runs it. */
  lemma ChainUnrolled(p: Primitives, header: seq<bv8>)
    ensures Chain(p, LastStage, header) ==
      p.stage(Sha512, p.stage(Whirlpool, p.stage(Shabal512, p.stage(Fugue512, p.stage(Hamsi512, p.stage(Echo512, p.stage(Simd512, p.stage(Shavite512, p.stage(Cubehash512, p.stage(Luffa512, p.stage(Keccak512, p.stage(Jh512, p.stage(Skein512, p.stage(Groestl512, p.stage(Bmw512, p.stage(Blake512, header))))))))))))))))
  {
    ChainFirstEight(p, header);
    assert Chain(p, 8, header) == p.stage(Shavite512, Chain(p, 7, header));
    assert Chain(p, 9, header) == p.stage(Simd512, Chain(p, 8, header));
    assert Chain(p, 10, header) == p.stage(Echo512, Chain(p, 9, header));
    assert Chain(p, 11, header) == p.stage(Hamsi512, Chain(p, 10, header));
    assert Chain(p, 12, header) == p.stage(Fugue512, Chain(p, 11, header));
    assert Chain(p, 13, header) == p.stage(Shabal512, Chain(p, 12, header));
    assert Chain(p, 14, header) == p.stage(Whirlpool, Chain(p, 13, header));
    assert Chain(p, 15, header) == p.stage(Sha512, Chain(p, 14, header));
  }

  /** One stage after the first: init, absorb the 64-byte digest in `hash`, close into `hash`. */
  method RunStage(hash: array<bv8>, p: Primitives, s: Stage)
    requires hash.Length == 128
    modifies hash
    ensures hash[..Size] == p.stage(s, old(hash[..Size]))
    ensures hash[Size..] == old(hash[Size..])
  {
    Close(hash, p.stage(s, hash[..Size]));
  }

  /** The sixteen stages of cosa_hash, threading the digest through `hash`. */
  method RunStages(hash: array<bv8>, header: seq<bv8>, p: Primitives)
    requires hash.Length == 128
    modifies hash
    ensures hash[..Size] == Chain(p, LastStage, header)
    ensures hash[Size..] == old(hash[Size..])
  {
    Close(hash, p.stage(Blake512, header));
    RunStage(hash, p, Bmw512);
    RunStage(hash, p, Groestl512);
    RunStage(hash, p, Skein512);
    RunStage(hash, p, Jh512);
    RunStage(hash, p, Keccak512);
    RunStage(hash, p, Luffa512);
    RunStage(hash, p, Cubehash512);
    RunStage(hash, p, Shavite512);
    RunStage(hash, p, Simd512);
    RunStage(hash, p, Echo512);
    RunStage(hash, p, Hamsi512);
    RunStage(hash, p, Fugue512);
    RunStage(hash, p, Shabal512);
    RunStage(hash, p, Whirlpool);
    RunStage(hash, p, Sha512);
    ChainUnrolled(p, header);
  }

  /**
   * cosa_hash: hashes the 80 bytes at `input` into the 32 bytes at `output`.
   * The work buffers are the 128-byte locals of the source. Lyra2Z works in
   * the calling thread's scratch matrix `t`, which must hold LyraRows rows
   * of LyraCols blocks; the digest does not depend on what the matrix held.
   */
  method CosaHash(output: array<bv8>, input: array<bv8>, p: Primitives, t: ThreadScratch)
    requires output.Length >= 32 && input.Length >= HeaderLen
    requires t.matrix.Allocated? && 8 * t.matrix.words.Length >= LyraMatrixBytes
    modifies output
    ensures output[..32] == CosaDigest(p, old(input[..]))
    ensures output[32..] == old(output[32..])
  {
    var header := input[..HeaderLen];
    assert header == old(input[..])[..HeaderLen];
    var hash := new bv8[128];
    var hashB := new bv8[128];
    var hashC := new bv8[128];
    var hashD := new bv8[128];
    RunStages(hash, header, p);
    ghost var chain := Chain(p, LastStage, header);

    ZeroFill(hashB, 128);
    ZeroFill(hashC, 128);
    ZeroFill(hashD, 128);

    Close(hashB, p.haval(hash[..Size]));
    assert hashB[..Size] == hashB[..32] + hashB[32..Size];
    assert hashB[32..Size] == Zeros(32);
    assert hashB[..Size] == GostInput(p, chain);
    Close(hashC, p.gost(hashB[..Size]));
    assert hashC[..LyraInLen] == hashC[..Size] + hashC[Size..LyraInLen];
    assert hashC[Size..LyraInLen] == Zeros(16);
    assert hashC[..LyraInLen] == LyraInput(p, chain);
    Close(hashD, p.lyra2z(hashC[..LyraInLen], hashC[..LyraInLen], LyraTimeCost, LyraRows, LyraCols));

    forall i | 0 <= i < 32 {
      output[i] := hashD[i];
    }
  }

  /** BLOCK_LEN_INT64 from lyra2.h: a Lyra2 block is 12 64-bit words. */
  const BlockLenInt64 := 12

  /** The scratch matrix size lyra2z_thread_init asks for, in bytes: 8 rows of 8 blocks. */
  const MatrixBytes := BlockLenInt64 * 8 * 8 * 8

  /**
   * The matrix Lyra2Z works in for the rows and columns cosa_hash passes:
   * LyraRows rows of LyraCols blocks of BLOCK_LEN_INT64 words, in bytes.
   */
  const LyraMatrixBytes := LyraRows * LyraCols * BlockLenInt64 * 8

  /** The thread's Lyra2Z scratch matrix, as 64-bit words; NoMatrix is a null pointer. */
  datatype Matrix = NoMatrix | Allocated(words: array<bv64>)

  /** The thread-local storage behind lyra2z_matrix. */
  class ThreadScratch {
    var matrix: Matrix

    constructor ()
      ensures matrix == NoMatrix
    {
      matrix := NoMatrix;
    }
  }

  /**
   * lyra2z_thread_init: allocate the matrix and report whether that worked.
   * `allocOk` is the allocator's verdict; on failure the pointer is null.
   */
  method Lyra2zThreadInit(t: ThreadScratch, allocOk: bool) returns (ok: bool)
    modifies t
    ensures ok == allocOk
    ensures ok <==> t.matrix.Allocated?
    ensures ok ==> fresh(t.matrix.words) && 8 * t.matrix.words.Length == MatrixBytes
  {
    if allocOk {
      var words := new bv64[MatrixBytes / 8];
      t.matrix := Allocated(words);
    } else {
      t.matrix := NoMatrix;
    }
    ok := t.matrix.Allocated?;
  }

  /**
   * The matrix lyra2z_thread_init allocates is too small for cosa_hash: a
   * matrix of that size never meets the scratch requirement of CosaHash.
   */
  lemma MatrixTooSmall(words: array<bv64>)
    requires 8 * words.Length == MatrixBytes
    ensures 8 * words.Length < LyraMatrixBytes
    ensures MatrixBytes == 6144 && LyraMatrixBytes == 418176
  {}

  /**
   * The thread initialiser cosa_hash needs: the same allocation, sized for
   * the rows and columns cosa_hash passes to Lyra2Z.
   */
  method CosaThreadInit(t: ThreadScratch, allocOk: bool) returns (ok: bool)
    modifies t
    ensures ok == allocOk
    ensures ok <==> t.matrix.Allocated?
    ensures ok ==> fresh(t.matrix.words) && 8 * t.matrix.words.Length == LyraMatrixBytes
  {
    if allocOk {
      var words := new bv64[LyraMatrixBytes / 8];
      t.matrix := Allocated(words);
    } else {
      t.matrix := NoMatrix;
    }
    ok := t.matrix.Allocated?;
  }
}
