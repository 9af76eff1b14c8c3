/**
 * The SSE2 / SSSE3 / SSE4.1 instructions that the 128-bit helpers are
 * built from, as functions on `V128`, following the instruction
 * descriptions of the Intel 64 and IA-32 Architectures Software
 * Developer's Manual.
 *
 * Immediate operands and shift counts are natural numbers; a shift count
 * of at least the element width gives zero, as the instructions do.
 */
module Sse {
  import opened Vec128

  // ---------------------------------------------------------------------
  // Bitwise logic (PAND, PANDN, POR, PXOR)
  // ---------------------------------------------------------------------

  function And(a: V128, b: V128): (r: V128)
    ensures forall k :: 0 <= k < 16 ==> r[k] == a[k] & b[k]
  {
    seq(16, k requires 0 <= k < 16 => a[k] & b[k])
  }

  /** PANDN: the complement of the first operand ANDed with the second. */
  function AndNot(a: V128, b: V128): (r: V128)
    ensures forall k :: 0 <= k < 16 ==> r[k] == !a[k] & b[k]
  {
    seq(16, k requires 0 <= k < 16 => !a[k] & b[k])
  }

  function Or(a: V128, b: V128): (r: V128)
    ensures forall k :: 0 <= k < 16 ==> r[k] == a[k] | b[k]
  {
    seq(16, k requires 0 <= k < 16 => a[k] | b[k])
  }

  function Xor(a: V128, b: V128): (r: V128)
    ensures forall k :: 0 <= k < 16 ==> r[k] == a[k] ^ b[k]
  {
    seq(16, k requires 0 <= k < 16 => a[k] ^ b[k])
  }

  /** Bit p of a POR result is the OR of bit p of the operands. */
  lemma BitsOfOr(a: V128, b: V128, p: nat)
    requires p < 128
    ensures Bits(Or(a, b))[p] == (Bits(a)[p] || Bits(b)[p])
  {
    BitOr(a[p / 8], b[p / 8], p % 8);
  }

  /** The bits of each element of a POR result are the OR of the operands' bits. */
  lemma OrLane(a: V128, b: V128, w: nat, i: nat)
    requires Width(w) && i < ElementCount(w)
    ensures LaneBits(Or(a, b), w, i) == OrBits(LaneBits(a, w, i), LaneBits(b, w, i))
  {
    LaneRange(w, i);
    forall j | 0 <= j < w
      ensures LaneBits(Or(a, b), w, i)[j] == (LaneBits(a, w, i)[j] || LaneBits(b, w, i)[j])
    {
      BitsOfOr(a, b, Base(w, i) + j);
    }
  }

  // ---------------------------------------------------------------------
  // Element-wise wrapping arithmetic (PADDQ/D/W/B, PSUBQ/D/W)
  // ---------------------------------------------------------------------

  function AddEpi64(a: V128, b: V128): (r: V128)
    ensures Lanes64(r) == Zip(Lanes64(a), Lanes64(b), Add64)
  {
    FromLanes64(Zip(Lanes64(a), Lanes64(b), Add64))
  }

  function AddEpi32(a: V128, b: V128): (r: V128)
    ensures Lanes32(r) == Zip(Lanes32(a), Lanes32(b), Add32)
  {
    FromLanes32(Zip(Lanes32(a), Lanes32(b), Add32))
  }

  function AddEpi16(a: V128, b: V128): (r: V128)
    ensures Lanes16(r) == Zip(Lanes16(a), Lanes16(b), Add16)
  {
    FromLanes16(Zip(Lanes16(a), Lanes16(b), Add16))
  }

  function AddEpi8(a: V128, b: V128): (r: V128)
    ensures forall k :: 0 <= k < 16 ==> r[k] == Add8(a[k], b[k])
  {
    seq(16, k requires 0 <= k < 16 => Add8(a[k], b[k]))
  }

  function SubEpi64(a: V128, b: V128): (r: V128)
    ensures Lanes64(r) == Zip(Lanes64(a), Lanes64(b), Sub64)
  {
    FromLanes64(Zip(Lanes64(a), Lanes64(b), Sub64))
  }

  function SubEpi32(a: V128, b: V128): (r: V128)
    ensures Lanes32(r) == Zip(Lanes32(a), Lanes32(b), Sub32)
  {
    FromLanes32(Zip(Lanes32(a), Lanes32(b), Sub32))
  }

  function SubEpi16(a: V128, b: V128): (r: V128)
    ensures Lanes16(r) == Zip(Lanes16(a), Lanes16(b), Sub16)
  {
    FromLanes16(Zip(Lanes16(a), Lanes16(b), Sub16))
  }

  // ---------------------------------------------------------------------
  // Instruction-set extensions
  // ---------------------------------------------------------------------

  /** The extensions a CPU may have, each including the ones before it. */
  datatype Isa = Sse2 | Ssse3 | Sse41

  function Level(x: Isa): nat
  {
    match x
    case Sse2 => 0
    case Ssse3 => 1
    case Sse41 => 2
  }

  /** A CPU with `cpu` executes the instructions of `need`. */
  predicate Has(cpu: Isa, need: Isa)
  {
    Level(need) <= Level(cpu)
  }

  /** An instruction either delivers its value or faults (#UD) on a CPU without its extension. */
  datatype Exec = Fault | Done(value: V128)

  // ---------------------------------------------------------------------
  // Element-wise compare (PCMPEQD, PCMPEQQ)
  // ---------------------------------------------------------------------

  /** PCMPEQD (SSE2): each 32-bit element all ones where the operands are equal, else zero. */
  function CmpEqEpi32(a: V128, b: V128): (r: V128)
    ensures forall i :: 0 <= i < 4 ==>
      Lanes32(r)[i] == if Lanes32(a)[i] == Lanes32(b)[i] then 0xFFFF_FFFF else 0
  {
    var x, y := Lanes32(a), Lanes32(b);
    FromLanes32([if x[0] == y[0] then 0xFFFF_FFFF else 0, if x[1] == y[1] then 0xFFFF_FFFF else 0,
                 if x[2] == y[2] then 0xFFFF_FFFF else 0, if x[3] == y[3] then 0xFFFF_FFFF else 0])
  }

  /** PCMPEQQ (SSE4.1): each 64-bit element all ones where the operands are equal, else zero. */
  function CmpEqEpi64(a: V128, b: V128): (r: V128)
    ensures forall i :: 0 <= i < 2 ==>
      Lanes64(r)[i] == if Lanes64(a)[i] == Lanes64(b)[i] then 0xFFFF_FFFF_FFFF_FFFF else 0
  {
    var x, y := Lanes64(a), Lanes64(b);
    FromLanes64([if x[0] == y[0] then 0xFFFF_FFFF_FFFF_FFFF else 0,
                 if x[1] == y[1] then 0xFFFF_FFFF_FFFF_FFFF else 0])
  }

  // ---------------------------------------------------------------------
  // Element-wise logical shifts (PSRLQ/D/W, PSLLQ/D/W) on w-bit elements
  // ---------------------------------------------------------------------

  /** PSRLQ / PSRLD / PSRLW: each w-bit element shifted right by c, zeros shifted in. */
  function Srli(w: nat, v: V128, c: nat): (r: V128)
    requires Width(w)
    ensures forall p :: 0 <= p < 128 ==>
      Bits(r)[p] == (Offset(w, p) + c < w && p + c < 128 && Bits(v)[p + c])
  {
    FromBits(ElementsShiftedRight(w, Bits(v), c))
  }

  /** The bit string `b` with each w-bit element shifted towards bit 0 by c. */
  function ElementsShiftedRight(w: nat, b: seq<bool>, c: nat): (s: seq<bool>)
    requires Width(w) && |b| == 128
    ensures |s| == 128
    ensures forall p :: 0 <= p < 128 ==> s[p] == (Offset(w, p) + c < w && p + c < 128 && b[p + c])
  {
    seq(128, p requires 0 <= p < 128 => Offset(w, p) + c < w && p + c < 128 && b[p + c])
  }

  /** PSLLQ / PSLLD / PSLLW: each w-bit element shifted left by c, zeros shifted in. */
  function Slli(w: nat, v: V128, c: nat): (r: V128)
    requires Width(w)
    ensures forall p :: 0 <= p < 128 ==>
      Bits(r)[p] == (Offset(w, p) >= c && p >= c && Bits(v)[p - c])
  {
    FromBits(ElementsShiftedLeft(w, Bits(v), c))
  }

  /** The bit string `b` with each w-bit element shifted away from bit 0 by c. */
  function ElementsShiftedLeft(w: nat, b: seq<bool>, c: nat): (s: seq<bool>)
    requires Width(w) && |b| == 128
    ensures |s| == 128
    ensures forall p :: 0 <= p < 128 ==> s[p] == (Offset(w, p) >= c && p >= c && b[p - c])
  {
    seq(128, p requires 0 <= p < 128 => Offset(w, p) >= c && p >= c && b[p - c])
  }

  lemma SrliBit(w: nat, v: V128, c: nat, i: nat, j: nat)
    requires Width(w) && i < ElementCount(w) && j < w
    ensures LaneBits(Srli(w, v, c), w, i)[j] == (j + c < w && LaneBits(v, w, i)[j + c])
  {
    LaneIndex(w, i, j);
    assert LaneBits(Srli(w, v, c), w, i)[j] == Bits(Srli(w, v, c))[Base(w, i) + j];
    if j + c < w {
      assert LaneBits(v, w, i)[j + c] == Bits(v)[Base(w, i) + j + c];
    }
  }

  lemma SlliBit(w: nat, v: V128, c: nat, i: nat, j: nat)
    requires Width(w) && i < ElementCount(w) && j < w
    ensures LaneBits(Slli(w, v, c), w, i)[j] == (j >= c && LaneBits(v, w, i)[j - c])
  {
    LaneIndex(w, i, j);
    assert LaneBits(Slli(w, v, c), w, i)[j] == Bits(Slli(w, v, c))[Base(w, i) + j];
    if j >= c {
      assert LaneBits(v, w, i)[j - c] == Bits(v)[Base(w, i) + j - c];
    }
  }

  /** Each element of a right shift is the element's bits shifted towards bit 0. */
  lemma SrliLane(w: nat, v: V128, c: nat, i: nat)
    requires Width(w) && i < ElementCount(w)
    ensures LaneBits(Srli(w, v, c), w, i) == ShrBits(LaneBits(v, w, i), c)
  {
    forall j | 0 <= j < w
      ensures LaneBits(Srli(w, v, c), w, i)[j] == ShrBits(LaneBits(v, w, i), c)[j]
    {
      SrliBit(w, v, c, i, j);
    }
  }

  /** Each element of a left shift is the element's bits shifted away from bit 0. */
  lemma SlliLane(w: nat, v: V128, c: nat, i: nat)
    requires Width(w) && i < ElementCount(w)
    ensures LaneBits(Slli(w, v, c), w, i) == ShlBits(LaneBits(v, w, i), c)
  {
    var r := LaneBits(Slli(w, v, c), w, i);
    var s := LaneBits(v, w, i);
    forall j | 0 <= j < w
      ensures r[j] == (j >= c && s[j - c])
    {
      SlliBit(w, v, c, i, j);
    }
    ShlBitsPointwise(r, s, c);
  }

  lemma ShlBitsPointwise(r: seq<bool>, s: seq<bool>, c: nat)
    requires |r| == |s|
    requires forall j :: 0 <= j < |s| ==> r[j] == (j >= c && s[j - c])
    ensures r == ShlBits(s, c)
  {}

  // ---------------------------------------------------------------------
  // Whole-register byte shifts (PSRLDQ, PSLLDQ, PALIGNR)
  // ---------------------------------------------------------------------

  /** PSRLDQ: the register shifted right by n bytes, zeros shifted in. */
  function SrliSi128(v: V128, n: nat): (r: V128)
    ensures forall k :: 0 <= k < 16 ==> r[k] == if k + n < 16 then v[k + n] else 0
  {
    seq(16, k requires 0 <= k < 16 => if k + n < 16 then v[k + n] else 0)
  }

  /** PSLLDQ: the register shifted left by n bytes, zeros shifted in. */
  function SlliSi128(v: V128, n: nat): (r: V128)
    ensures forall k :: 0 <= k < 16 ==> r[k] == if k >= n then v[k - n] else 0
  {
    seq(16, k requires 0 <= k < 16 => if k >= n then v[k - n] else 0)
  }

  /**
   * PALIGNR: the 32-byte value with `b` in the low half and `a` in the high
   * half, shifted right by n bytes, low 16 bytes kept.
   */
  function AlignrEpi8(a: V128, b: V128, n: nat): (r: V128)
    ensures forall k :: 0 <= k < 16 ==> r[k] == if k + n < 32 then (b + a)[k + n] else 0
  {
    var w := b + a;
    seq(16, k requires 0 <= k < 16 => if k + n < 32 then w[k + n] else 0)
  }

  // ---------------------------------------------------------------------
  // Shuffles (PSHUFD, PSHUFLW, PSHUFHW, PSHUFB)
  // ---------------------------------------------------------------------

  /** The i-th two-bit field of an immediate shuffle control. */
  function Sel(imm: nat, i: nat): (s: nat)
    requires imm < 256 && i < 4
    ensures s < 4
  {
    if i == 0 then imm % 4
    else if i == 1 then imm / 4 % 4
    else if i == 2 then imm / 16 % 4
    else imm / 64 % 4
  }

  /** PSHUFD: 32-bit element i of the result is element Sel(imm, i) of v. */
  function ShuffleEpi32(v: V128, imm: nat): (r: V128)
    requires imm < 256
    ensures var l := Lanes32(v);
      Lanes32(r) == [l[Sel(imm, 0)], l[Sel(imm, 1)], l[Sel(imm, 2)], l[Sel(imm, 3)]]
  {
    var l := Lanes32(v);
    FromLanes32([l[Sel(imm, 0)], l[Sel(imm, 1)], l[Sel(imm, 2)], l[Sel(imm, 3)]])
  }

  /** PSHUFLW: the low four 16-bit elements shuffled, the high four copied. */
  function ShuffleloEpi16(v: V128, imm: nat): (r: V128)
    requires imm < 256
    ensures var l := Lanes16(v);
      Lanes16(r) == [l[Sel(imm, 0)], l[Sel(imm, 1)], l[Sel(imm, 2)], l[Sel(imm, 3)],
                     l[4], l[5], l[6], l[7]]
  {
    var l := Lanes16(v);
    FromLanes16([l[Sel(imm, 0)], l[Sel(imm, 1)], l[Sel(imm, 2)], l[Sel(imm, 3)],
                 l[4], l[5], l[6], l[7]])
  }

  /** PSHUFHW: the high four 16-bit elements shuffled, the low four copied. */
  function ShufflehiEpi16(v: V128, imm: nat): (r: V128)
    requires imm < 256
    ensures var l := Lanes16(v);
      Lanes16(r) == [l[0], l[1], l[2], l[3],
                     l[4 + Sel(imm, 0)], l[4 + Sel(imm, 1)], l[4 + Sel(imm, 2)], l[4 + Sel(imm, 3)]]
  {
    var l := Lanes16(v);
    FromLanes16([l[0], l[1], l[2], l[3],
                 l[4 + Sel(imm, 0)], l[4 + Sel(imm, 1)], l[4 + Sel(imm, 2)], l[4 + Sel(imm, 3)]])
  }

  /**
   * PSHUFB: byte k of the result is zero when bit 7 of control byte k is
   * set, and otherwise byte (control byte k & 15) of v.
   */
  function ShuffleEpi8(v: V128, ctl: V128): (r: V128)
    ensures forall k :: 0 <= k < 16 ==>
      r[k] == if ctl[k] & 0x80 != 0 then 0 else v[(ctl[k] & 0x0F) as int]
  {
    seq(16, k requires 0 <= k < 16 => if ctl[k] & 0x80 != 0 then 0 else v[(ctl[k] & 0x0F) as int])
  }

  // ---------------------------------------------------------------------
  // Moves between general registers and vector registers
  // (MOVQ, MOVD, PINSRQ, and the compiler's _mm_set_epi64x)
  // ---------------------------------------------------------------------

  /** MOVQ xmm, r64: the value in the low 64 bits, the rest cleared. */
  function MovqToXmm(n: bv64): (r: V128)
    ensures Lanes64(r) == [n, 0]
  {
    FromLanes64([n, 0])
  }

  /** MOVD xmm, r32: the value in the low 32 bits, the rest cleared. */
  function MovdToXmm(n: bv32): (r: V128)
    ensures Lanes32(r) == [n, 0, 0, 0]
  {
    FromLanes32([n, 0, 0, 0])
  }

  /** MOVQ r64, xmm: the low 64 bits. */
  function MovqFromXmm(a: V128): (n: bv64)
    ensures n == Lanes64(a)[0]
  {
    Pack64(a[0], a[1], a[2], a[3], a[4], a[5], a[6], a[7])
  }

  /** MOVD r32, xmm: the low 32 bits. */
  function MovdFromXmm(a: V128): (n: bv32)
    ensures n == Lanes32(a)[0]
  {
    Pack32(a[0], a[1], a[2], a[3])
  }

  /** PINSRQ: 64-bit element idx replaced by x. */
  function InsertEpi64(v: V128, x: bv64, idx: nat): (r: V128)
    requires idx < 2
    ensures Lanes64(r) == Lanes64(v)[idx := x]
  {
    FromLanes64(Lanes64(v)[idx := x])
  }

  /** Bit i (0 to 3) of an INSERTPS zero mask. */
  predicate ZeroBit(imm: nat, i: nat)
    requires i < 4
  {
    (if i == 0 then imm else if i == 1 then imm / 2 else if i == 2 then imm / 4 else imm / 8) % 2 == 1
  }

  /** One 32-bit element of an INSERTPS result: zeroed, the inserted element, or a's own. */
  function InsertPsLane(la: seq<bv32>, x: bv32, imm: nat, i: nat): bv32
    requires |la| == 4 && i < 4
  {
    if ZeroBit(imm, i) then 0 else if i == imm / 16 % 4 then x else la[i]
  }

  /**
   * INSERTPS: element imm[7:6] of b replaces element imm[5:4] of a, then
   * every element whose bit is set in imm[3:0] is zeroed.
   */
  function InsertPs(a: V128, b: V128, imm: nat): (r: V128)
    requires imm < 256
    ensures var la := Lanes32(a); var x := Lanes32(b)[imm / 64];
      Lanes32(r) == [InsertPsLane(la, x, imm, 0), InsertPsLane(la, x, imm, 1),
                     InsertPsLane(la, x, imm, 2), InsertPsLane(la, x, imm, 3)]
  {
    var la := Lanes32(a);
    var x := Lanes32(b)[imm / 64];
    FromLanes32([InsertPsLane(la, x, imm, 0), InsertPsLane(la, x, imm, 1),
                 InsertPsLane(la, x, imm, 2), InsertPsLane(la, x, imm, 3)])
  }

  /** The register {hi, lo}: lo in element 0, hi in element 1. */
  function SetEpi64x(hi: bv64, lo: bv64): (r: V128)
    ensures Lanes64(r) == [lo, hi]
  {
    FromLanes64([lo, hi])
  }

  // ---------------------------------------------------------------------
  // Whole-register tests (PTEST)
  // ---------------------------------------------------------------------

  /** PTEST, ZF: 1 when a AND b is zero. */
  function TestzSi128(a: V128, b: V128): (f: int)
    ensures f == 1 || f == 0
    ensures f == 1 <==> forall k :: 0 <= k < 16 ==> a[k] & b[k] == 0
  {
    if And(a, b) == Zero then 1 else 0
  }

  /** PTEST, CF: 1 when (NOT a) AND b is zero. */
  function TestcSi128(a: V128, b: V128): (f: int)
    ensures f == 1 || f == 0
    ensures f == 1 <==> forall k :: 0 <= k < 16 ==> !a[k] & b[k] == 0
  {
    if AndNot(a, b) == Zero then 1 else 0
  }
}
