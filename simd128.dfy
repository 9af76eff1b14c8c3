/**
 * The 128-bit helper macros of simd-utils/simd-128.h: moves between
 * general and vector registers, pseudo constants, complement, negation,
 * clearing of masked elements,
 * four-operand trees, per-element rotations,
 * lane permutations and byte swaps.
 *
 * Each macro is a function over the instruction functions of `Sse`; where
 * the header has one definition per instruction-set tier (SSE2, SSSE3,
 * SSE4.1) each tier is a function of its own, and the tiers are related
 * by lemmas.
 */
module Simd128 {
  import opened Vec128
  import opened Sse

  // ---------------------------------------------------------------------
  // Moves between general registers and the low element
  // ---------------------------------------------------------------------

  /** mm128_mov64_128: the 64-bit value zero-extended into the register. */
  function Mov64To128(n: bv64): (r: V128)
    ensures Lanes64(r) == [n, 0]
    ensures r[8..] == Zero[8..]
  {
    MovqToXmm(n)
  }

  /** mm128_mov32_128: the 32-bit value zero-extended into the register. */
  function Mov32To128(n: bv32): (r: V128)
    ensures Lanes32(r) == [n, 0, 0, 0]
    ensures r[4..] == Zero[4..]
  {
    MovdToXmm(n)
  }

  /** mm128_mov128_64: the low 64 bits of the register. */
  function Mov128To64(a: V128): (n: bv64)
    ensures n == Lanes64(a)[0]
  {
    MovqFromXmm(a)
  }

  /** mm128_mov128_32: the low 32 bits of the register. */
  function Mov128To32(a: V128): (n: bv32)
    ensures n == Lanes32(a)[0]
  {
    MovdFromXmm(a)
  }

  /** Moving a value into a register and back gives the value. */
  lemma MovRoundTrip64(n: bv64)
    ensures Mov128To64(Mov64To128(n)) == n
  {}

  lemma MovRoundTrip32(n: bv32)
    ensures Mov128To32(Mov32To128(n)) == n
  {}

  // ---------------------------------------------------------------------
  // Pseudo constants
  // ---------------------------------------------------------------------

  /** The four bytes of 32-bit element j. */
  function Word(v: V128, j: nat): (b: seq<bv8>)
    requires j < 4
    ensures |b| == 4
  {
    v[4 * j .. 4 * j + 4]
  }

  /** 32-bit element j is packed from the bytes of Word(v, j). */
  lemma WordLane(v: V128, j: nat)
    requires j < 4
    ensures Lanes32(v)[j] == Pack32(Word(v, j)[0], Word(v, j)[1], Word(v, j)[2], Word(v, j)[3])
  {}

  /**
   * PSHUFD moves whole 32-bit elements: the result is the selected
   * elements' bytes laid side by side.
   */
  lemma ShuffleBytes(v: V128, imm: nat)
    requires imm < 256
    ensures ShuffleEpi32(v, imm)
      == Word(v, Sel(imm, 0)) + Word(v, Sel(imm, 1)) + Word(v, Sel(imm, 2)) + Word(v, Sel(imm, 3))
  {
    var u := Word(v, Sel(imm, 0)) + Word(v, Sel(imm, 1)) + Word(v, Sel(imm, 2)) + Word(v, Sel(imm, 3));
    WordLane(v, Sel(imm, 0)); WordLane(v, Sel(imm, 1));
    WordLane(v, Sel(imm, 2)); WordLane(v, Sel(imm, 3));
    assert Lanes32(u) == Lanes32(ShuffleEpi32(v, imm));
    Lanes32Injective(u, ShuffleEpi32(v, imm));
  }

  /** PSHUFD with control 0x44 copies 64-bit element 0 into both elements. */
  lemma Broadcast64(m: V128)
    ensures Lanes64(ShuffleEpi32(m, 0x44)) == [Lanes64(m)[0], Lanes64(m)[0]]
  {
    assert Sel(0x44, 0) == 0 && Sel(0x44, 1) == 1 && Sel(0x44, 2) == 0 && Sel(0x44, 3) == 1;
    ShuffleBytes(m, 0x44);
    var u := m[0..8] + m[0..8];
    assert ShuffleEpi32(m, 0x44) == u;
  }

  /** m128_const1_64: the 64-bit value in both elements. */
  function Const1_64(i: bv64): (r: V128)
    ensures Lanes64(r) == [i, i]
  {
    Broadcast64(Mov64To128(i));
    ShuffleEpi32(Mov64To128(i), 0x44)
  }

  /** m128_const1_32: the 32-bit value in all four elements. */
  function Const1_32(i: bv32): (r: V128)
    ensures Lanes32(r) == [i, i, i, i]
  {
    ShuffleEpi32(Mov32To128(i), 0x00)
  }

  /** m128_one_128: the 128-bit integer 1. */
  function One128(): (r: V128)
    ensures Lanes64(r) == [1, 0]
    ensures r == [1, 0, 0, 0, 0, 0, 0, 0, 0, 0, 0, 0, 0, 0, 0, 0]
  {
    var r := Mov64To128(1);
    Lanes64Injective(r, [1, 0, 0, 0, 0, 0, 0, 0, 0, 0, 0, 0, 0, 0, 0, 0]);
    r
  }

  /** m128_one_64: 1 in each 64-bit element (the expression of m128_const1_64). */
  function One64(): (r: V128)
    ensures Lanes64(r) == [1, 1]
  {
    Const1_64(1)
  }

  /** m128_one_32: 1 in each 32-bit element (the expression of m128_const1_32). */
  function One32(): (r: V128)
    ensures Lanes32(r) == [1, 1, 1, 1]
  {
    Const1_32(1)
  }

  /** m128_one_16: 0x00010001 broadcast to every 32-bit element, so 1 in each 16-bit element. */
  function One16(): (r: V128)
    ensures Lanes16(r) == [1, 1, 1, 1, 1, 1, 1, 1]
  {
    var r := Const1_32(0x0001_0001);
    Lanes32Injective(r, [1, 0, 1, 0, 1, 0, 1, 0, 1, 0, 1, 0, 1, 0, 1, 0]);
    r
  }

  /** m128_one_8: 0x01010101 broadcast to every 32-bit element, so 1 in each byte. */
  function One8(): (r: V128)
    ensures forall k :: 0 <= k < 16 ==> r[k] == 1
  {
    var r := Const1_32(0x0101_0101);
    Lanes32Injective(r, [1, 1, 1, 1, 1, 1, 1, 1, 1, 1, 1, 1, 1, 1, 1, 1]);
    r
  }

  /**
   * m128_neg1 as the header writes it for a build without AVX: PCMPEQQ of a
   * register with itself. The register is not initialised, so its previous
   * contents are a parameter. PCMPEQQ is an SSE4.1 instruction, so on a CPU
   * without SSE4.1 it faults instead of giving all ones.
   */
  function Neg1AsWritten(cpu: Isa, prior: V128): (r: Exec)
    ensures r.Done? <==> Has(cpu, Sse41)
    ensures r.Done? ==> r.value == AllOnes
  {
    if Has(cpu, Sse41) then
      var r := CmpEqEpi64(prior, prior);
      Lanes64Injective(r, AllOnes);
      Done(r)
    else Fault
  }

  /**
   * m128_neg1 corrected: PCMPEQD, which every SSE2 CPU executes, of a
   * register with itself gives all ones whatever the register held.
   */
  function Neg1(prior: V128): (r: V128)
    ensures r == AllOnes
  {
    var r := CmpEqEpi32(prior, prior);
    Lanes32Injective(r, AllOnes);
    r
  }

  /** The SSE2 and SSSE3 builds fault on m128_neg1 as written; the corrected form gives the same register. */
  lemma Neg1NeedsSse41(prior: V128)
    ensures Neg1AsWritten(Sse2, prior) == Fault && Neg1AsWritten(Ssse3, prior) == Fault
    ensures Neg1AsWritten(Sse41, prior) == Done(Neg1(prior))
  {}

  /** m128_const_64 with SSE4.1: lo moved in, hi inserted into element 1. */
  function Const64Sse41(hi: bv64, lo: bv64): (r: V128)
    ensures Lanes64(r) == [lo, hi]
  {
    InsertEpi64(Mov64To128(lo), hi, 1)
  }

  /** m128_const_64 without SSE4.1: _mm_set_epi64x. */
  function Const64Sse2(hi: bv64, lo: bv64): (r: V128)
    ensures Lanes64(r) == [lo, hi]
  {
    SetEpi64x(hi, lo)
  }

  /** Both definitions of m128_const_64 build the same register. */
  lemma Const64TiersAgree(hi: bv64, lo: bv64)
    ensures Const64Sse41(hi, lo) == Const64Sse2(hi, lo)
  {
    Lanes64Injective(Const64Sse41(hi, lo), Const64Sse2(hi, lo));
  }

  // ---------------------------------------------------------------------
  // Complement, negation, four-operand trees
  // ---------------------------------------------------------------------

  /** mm128_not: XOR with m128_neg1 (whatever register the compiler picks for it), in its corrected form. */
  function Not(v: V128): (r: V128)
    ensures forall k :: 0 <= k < 16 ==> r[k] == !v[k]
  {
    Xor(v, Neg1(v))
  }

  /** The complement is an involution. */
  lemma NotNot(v: V128)
    ensures Not(Not(v)) == v
  {}

  /** mm128_negate_64: each 64-bit element subtracted from zero. */
  function Negate64(v: V128): (r: V128)
    ensures Lanes64(r) == Zip([0, 0], Lanes64(v), Sub64)
  {
    SubEpi64(Zero, v)
  }

  /** mm128_negate_32: each 32-bit element subtracted from zero. */
  function Negate32(v: V128): (r: V128)
    ensures Lanes32(r) == Zip([0, 0, 0, 0], Lanes32(v), Sub32)
  {
    SubEpi32(Zero, v)
  }

  /** mm128_negate_16: each 16-bit element subtracted from zero. */
  function Negate16(v: V128): (r: V128)
    ensures Lanes16(r) == Zip([0, 0, 0, 0, 0, 0, 0, 0], Lanes16(v), Sub16)
  {
    SubEpi16(Zero, v)
  }

  /** Subtracting from zero twice, element by element, gives the elements back. */
  lemma SubFromZeroTwice64(z: seq<bv64>, l: seq<bv64>)
    requires |z| == |l| && forall i :: 0 <= i < |z| ==> z[i] == 0
    ensures Zip(z, Zip(z, l, Sub64), Sub64) == l
  {
    var m := Zip(z, l, Sub64);
    forall i | 0 <= i < |l| ensures Zip(z, m, Sub64)[i] == l[i] {
      assert m[i] == Sub64(0, l[i]);
    }
  }

  /** Negating twice gives the register back (two's complement). */
  lemma Negate64Involution(v: V128)
    ensures Negate64(Negate64(v)) == v
  {
    SubFromZeroTwice64([0, 0], Lanes64(v));
    Lanes64Injective(Negate64(Negate64(v)), v);
  }

  lemma SubFromZeroTwice32(z: seq<bv32>, l: seq<bv32>)
    requires |z| == |l| && forall i :: 0 <= i < |z| ==> z[i] == 0
    ensures Zip(z, Zip(z, l, Sub32), Sub32) == l
  {
    var m := Zip(z, l, Sub32);
    forall i | 0 <= i < |l| ensures Zip(z, m, Sub32)[i] == l[i] {
      assert m[i] == Sub32(0, l[i]);
    }
  }

  lemma Negate32Involution(v: V128)
    ensures Negate32(Negate32(v)) == v
  {
    SubFromZeroTwice32([0, 0, 0, 0], Lanes32(v));
    Lanes32Injective(Negate32(Negate32(v)), v);
  }


  lemma SubFromZeroTwice16(z: seq<bv16>, l: seq<bv16>)
    requires |z| == |l| && forall i :: 0 <= i < |z| ==> z[i] == 0
    ensures Zip(z, Zip(z, l, Sub16), Sub16) == l
  {
    var m := Zip(z, l, Sub16);
    forall i | 0 <= i < |l| ensures Zip(z, m, Sub16)[i] == l[i] {
      assert m[i] == Sub16(0, l[i]);
    }
  }

  lemma Negate16Involution(v: V128)
    ensures Negate16(Negate16(v)) == v
  {
    SubFromZeroTwice16([0, 0, 0, 0, 0, 0, 0, 0], Lanes16(v));
    Lanes16Injective(Negate16(Negate16(v)), v);
  }

  /**
   * mm128_mask_32: INSERTPS of a into itself. With a 4-bit mask, element 0
   * is copied onto itself and each 32-bit element whose mask bit is set is
   * cleared; the others are kept.
   */
  function Mask32(a: V128, mask: nat): (r: V128)
    requires mask < 256
    ensures mask < 16 ==> forall i :: 0 <= i < 4 ==>
      Lanes32(r)[i] == if ZeroBit(mask, i) then 0 else Lanes32(a)[i]
  {
    if mask < 16 then
      MaskLanes(Lanes32(a), mask);
      InsertPs(a, a, mask)
    else
      InsertPs(a, a, mask)
  }

  /** With a 4-bit mask INSERTPS moves element 0 onto itself. */
  lemma MaskLanes(la: seq<bv32>, mask: nat)
    requires |la| == 4 && mask < 16
    ensures forall i :: 0 <= i < 4 ==>
      InsertPsLane(la, la[mask / 64], mask, i) == if ZeroBit(mask, i) then 0 else la[i]
  {
    assert mask / 64 == 0 && mask / 16 % 4 == 0;
  }

  /** Clearing the same elements twice clears nothing more. */
  lemma Mask32Idempotent(a: V128, mask: nat)
    requires mask < 16
    ensures Mask32(Mask32(a, mask), mask) == Mask32(a, mask)
  {
    var m := Mask32(a, mask);
    var l := Lanes32(Mask32(m, mask));
    assert l == [l[0], l[1], l[2], l[3]];
    Lanes32Injective(Mask32(m, mask), m);
  }

  /** The zero mask leaves the register as it was. */
  lemma Mask32None(a: V128)
    ensures Mask32(a, 0) == a
  {
    Lanes32Injective(Mask32(a, 0), a);
  }

  /** mm128_add4_64: (a + b) + (c + d) in each 64-bit element, wrapping. */
  function Add4Epi64(a: V128, b: V128, c: V128, d: V128): (r: V128)
    ensures Lanes64(r) == Zip(Zip(Lanes64(a), Lanes64(b), Add64), Zip(Lanes64(c), Lanes64(d), Add64), Add64)
  {
    AddEpi64(AddEpi64(a, b), AddEpi64(c, d))
  }

  /** mm128_add4_32: (a + b) + (c + d) in each 32-bit element, wrapping. */
  function Add4Epi32(a: V128, b: V128, c: V128, d: V128): (r: V128)
    ensures Lanes32(r) == Zip(Zip(Lanes32(a), Lanes32(b), Add32), Zip(Lanes32(c), Lanes32(d), Add32), Add32)
  {
    AddEpi32(AddEpi32(a, b), AddEpi32(c, d))
  }

  /** mm128_add4_16: (a + b) + (c + d) in each 16-bit element, wrapping. */
  function Add4Epi16(a: V128, b: V128, c: V128, d: V128): (r: V128)
    ensures Lanes16(r) == Zip(Zip(Lanes16(a), Lanes16(b), Add16), Zip(Lanes16(c), Lanes16(d), Add16), Add16)
  {
    AddEpi16(AddEpi16(a, b), AddEpi16(c, d))
  }

  /** mm128_add4_8: (a + b) + (c + d) in each byte, wrapping. */
  function Add4Epi8(a: V128, b: V128, c: V128, d: V128): (r: V128)
    ensures forall k :: 0 <= k < 16 ==> r[k] == Add8(Add8(a[k], b[k]), Add8(c[k], d[k]))
  {
    AddEpi8(AddEpi8(a, b), AddEpi8(c, d))
  }

  /** Adding three zero registers leaves the fourth operand unchanged. */
  lemma Add4Zeros64(a: V128)
    ensures Add4Epi64(a, Zero, Zero, Zero) == a
  {
    var l := Lanes64(a);
    var m := Lanes64(Add4Epi64(a, Zero, Zero, Zero));
    assert m[0] == Add64(Add64(l[0], 0), Add64(0, 0));
    assert m[1] == Add64(Add64(l[1], 0), Add64(0, 0));
    Lanes64Injective(Add4Epi64(a, Zero, Zero, Zero), a);
  }

  /** mm128_xor4: (a ^ b) ^ (c ^ d), which is a ^ b ^ c ^ d in every byte. */
  function Xor4(a: V128, b: V128, c: V128, d: V128): (r: V128)
    ensures forall k :: 0 <= k < 16 ==> r[k] == a[k] ^ b[k] ^ c[k] ^ d[k]
  {
    Xor(Xor(a, b), Xor(c, d))
  }

  /** XORing the same three registers in again recovers the first operand. */
  lemma Xor4Cancel(a: V128, b: V128, c: V128, d: V128)
    ensures Xor4(Xor4(a, b, c, d), b, c, d) == a
  {}

  // ---------------------------------------------------------------------
  // Rotation of every element (shift right, shift left, OR)
  // ---------------------------------------------------------------------

  /** The shift-and-OR right rotation of every w-bit element by c. */
  function Ror(w: nat, v: V128, c: nat): (r: V128)
    requires Width(w) && c <= w
    ensures forall i :: 0 <= i < ElementCount(w) ==> LaneBits(r, w, i) == RotR(LaneBits(v, w, i), c)
  {
    var r := Or(Srli(w, v, c), Slli(w, v, w - c));
    assert forall i :: 0 <= i < ElementCount(w) ==> LaneBits(r, w, i) == RotR(LaneBits(v, w, i), c) by {
      forall i | 0 <= i < ElementCount(w) ensures LaneBits(r, w, i) == RotR(LaneBits(v, w, i), c) {
        SrliLane(w, v, c, i);
        SlliLane(w, v, w - c, i);
        OrLane(Srli(w, v, c), Slli(w, v, w - c), w, i);
        RotRByShifts(LaneBits(v, w, i), c);
      }
    }
    r
  }

  /** The shift-and-OR left rotation of every w-bit element by c. */
  function Rol(w: nat, v: V128, c: nat): (r: V128)
    requires Width(w) && c <= w
    ensures forall i :: 0 <= i < ElementCount(w) ==> LaneBits(r, w, i) == RotL(LaneBits(v, w, i), c)
  {
    var r := Or(Slli(w, v, c), Srli(w, v, w - c));
    assert forall i :: 0 <= i < ElementCount(w) ==> LaneBits(r, w, i) == RotL(LaneBits(v, w, i), c) by {
      forall i | 0 <= i < ElementCount(w) ensures LaneBits(r, w, i) == RotL(LaneBits(v, w, i), c) {
        SlliLane(w, v, c, i);
        SrliLane(w, v, w - c, i);
        OrLane(Slli(w, v, c), Srli(w, v, w - c), w, i);
        RotLByShifts(LaneBits(v, w, i), c);
      }
    }
    r
  }

  /** Rotating every element right and then left by the same count gives the register back. */
  lemma RolRor(w: nat, v: V128, c: nat)
    requires Width(w) && c <= w
    ensures Rol(w, Ror(w, v, c), c) == v
  {
    forall i | 0 <= i < ElementCount(w) ensures LaneBits(Rol(w, Ror(w, v, c), c), w, i) == LaneBits(v, w, i) {
      RotLRotR(LaneBits(v, w, i), c);
    }
    LaneBitsInjective(Rol(w, Ror(w, v, c), c), v, w);
  }

  /** Rotating every element left and then right by the same count gives the register back. */
  lemma RorRol(w: nat, v: V128, c: nat)
    requires Width(w) && c <= w
    ensures Ror(w, Rol(w, v, c), c) == v
  {
    forall i | 0 <= i < ElementCount(w) ensures LaneBits(Ror(w, Rol(w, v, c), c), w, i) == LaneBits(v, w, i) {
      RotRRotL(LaneBits(v, w, i), c);
    }
    LaneBitsInjective(Ror(w, Rol(w, v, c), c), v, w);
  }

  /** mm128_ror_var_64 (and mm128_ror_64 without AVX-512). */
  function RorVar64(v: V128, c: nat): (r: V128)
    requires c <= 64
    ensures forall i :: 0 <= i < 2 ==> LaneBits(r, 64, i) == RotR(LaneBits(v, 64, i), c)
  {
    Ror(64, v, c)
  }

  /** mm128_rol_var_64 (and mm128_rol_64 without AVX-512). */
  function RolVar64(v: V128, c: nat): (r: V128)
    requires c <= 64
    ensures forall i :: 0 <= i < 2 ==> LaneBits(r, 64, i) == RotL(LaneBits(v, 64, i), c)
  {
    Rol(64, v, c)
  }

  /** mm128_ror_var_32 (and mm128_ror_32 without AVX-512). */
  function RorVar32(v: V128, c: nat): (r: V128)
    requires c <= 32
    ensures forall i :: 0 <= i < 4 ==> LaneBits(r, 32, i) == RotR(LaneBits(v, 32, i), c)
  {
    Ror(32, v, c)
  }

  /** mm128_rol_var_32 (and mm128_rol_32 without AVX-512). */
  function RolVar32(v: V128, c: nat): (r: V128)
    requires c <= 32
    ensures forall i :: 0 <= i < 4 ==> LaneBits(r, 32, i) == RotL(LaneBits(v, 32, i), c)
  {
    Rol(32, v, c)
  }

  /** mm128_ror_16. */
  function Ror16(v: V128, c: nat): (r: V128)
    requires c <= 16
    ensures forall i :: 0 <= i < 8 ==> LaneBits(r, 16, i) == RotR(LaneBits(v, 16, i), c)
  {
    Ror(16, v, c)
  }

  /** mm128_rol_16. */
  function Rol16(v: V128, c: nat): (r: V128)
    requires c <= 16
    ensures forall i :: 0 <= i < 8 ==> LaneBits(r, 16, i) == RotL(LaneBits(v, 16, i), c)
  {
    Rol(16, v, c)
  }

  // ---------------------------------------------------------------------
  // Rotations and permutations of whole elements across the register
  // ---------------------------------------------------------------------

  /** mm128_swap_64: PSHUFD 0x4e exchanges the two 64-bit halves. */
  function Swap64(v: V128): (r: V128)
    ensures r == v[8..] + v[..8]
    ensures Lanes64(r) == [Lanes64(v)[1], Lanes64(v)[0]]
  {
    assert Sel(0x4e, 0) == 2 && Sel(0x4e, 1) == 3 && Sel(0x4e, 2) == 0 && Sel(0x4e, 3) == 1;
    ShuffleBytes(v, 0x4e);
    assert ShuffleEpi32(v, 0x4e) == v[8..] + v[..8];
    ShuffleEpi32(v, 0x4e)
  }

  lemma Swap64Involution(v: V128)
    ensures Swap64(Swap64(v)) == v
  {
    assert Swap64(Swap64(v)) == v[..8] + v[8..];
  }

  /** mm128_ror_1x32: PSHUFD 0x39 moves 32-bit element i + 1 to element i, element 0 to element 3. */
  function Ror1x32(v: V128): (r: V128)
    ensures Lanes32(r) == RotR(Lanes32(v), 1)
  {
    assert Sel(0x39, 0) == 1 && Sel(0x39, 1) == 2 && Sel(0x39, 2) == 3 && Sel(0x39, 3) == 0;
    ShuffleEpi32(v, 0x39)
  }

  /** mm128_rol_1x32: PSHUFD 0x93 moves 32-bit element i to element i + 1, element 3 to element 0. */
  function Rol1x32(v: V128): (r: V128)
    ensures Lanes32(r) == RotL(Lanes32(v), 1)
  {
    assert Sel(0x93, 0) == 3 && Sel(0x93, 1) == 0 && Sel(0x93, 2) == 1 && Sel(0x93, 3) == 2;
    ShuffleEpi32(v, 0x93)
  }

  /** mm128_rol_1x32 undoes mm128_ror_1x32, and the other way round. */
  lemma Rol1x32Ror1x32(v: V128)
    ensures Rol1x32(Ror1x32(v)) == v
    ensures Ror1x32(Rol1x32(v)) == v
  {
    RotLRotR(Lanes32(v), 1);
    RotRRotL(Lanes32(v), 1);
    Lanes32Injective(Rol1x32(Ror1x32(v)), v);
    Lanes32Injective(Ror1x32(Rol1x32(v)), v);
  }

  /** mm128_invert_32: PSHUFD 0x1b reverses the order of the 32-bit elements. */
  function Invert32(v: V128): (r: V128)
    ensures Lanes32(r) == Rev(Lanes32(v))
  {
    assert Sel(0x1b, 0) == 3 && Sel(0x1b, 1) == 2 && Sel(0x1b, 2) == 1 && Sel(0x1b, 3) == 0;
    ShuffleEpi32(v, 0x1b)
  }

  lemma Invert32Involution(v: V128)
    ensures Invert32(Invert32(v)) == v
  {
    RevRev(Lanes32(v));
    Lanes32Injective(Invert32(Invert32(v)), v);
  }

  /** mm128_swap64_32: PSHUFD 0xb1 exchanges the two 32-bit halves of each 64-bit element. */
  function Swap64_32(v: V128): (r: V128)
    ensures var l := Lanes32(v); Lanes32(r) == [l[1], l[0], l[3], l[2]]
  {
    assert Sel(0xb1, 0) == 1 && Sel(0xb1, 1) == 0 && Sel(0xb1, 2) == 3 && Sel(0xb1, 3) == 2;
    ShuffleEpi32(v, 0xb1)
  }

  lemma Swap64_32Involution(v: V128)
    ensures Swap64_32(Swap64_32(v)) == v
  {
    Lanes32Injective(Swap64_32(Swap64_32(v)), v);
  }

  /** PALIGNR of a register with itself is a byte rotation of the register. */
  lemma AlignrSelf(v: V128, n: nat)
    requires n <= 16
    ensures AlignrEpi8(v, v, n) == RotR(v, n)
  {}

  /** A right rotation by n is a left rotation by the length less n. */
  lemma RotRIsRotL<T>(s: seq<T>, n: nat)
    requires n <= |s|
    ensures RotR(s, n) == RotL(s, |s| - n)
  {}

  /** mm128_ror_1x8: PALIGNR by 1 rotates the bytes (8-bit elements) down by one. */
  function Ror1x8(v: V128): (r: V128)
    ensures r == RotR(v, 1)
  {
    AlignrSelf(v, 1);
    AlignrEpi8(v, v, 1)
  }

  /** mm128_rol_1x8: PALIGNR by 15 rotates the bytes up by one. */
  function Rol1x8(v: V128): (r: V128)
    ensures r == RotL(v, 1)
  {
    AlignrSelf(v, 15);
    RotRIsRotL(v, 15);
    AlignrEpi8(v, v, 15)
  }

  lemma Rol1x8Ror1x8(v: V128)
    ensures Rol1x8(Ror1x8(v)) == v
    ensures Ror1x8(Rol1x8(v)) == v
  {
    RotLRotR(v, 1);
    RotRRotL(v, 1);
  }

  /** Rotating the bytes by two rotates the 16-bit elements by one. */
  lemma Lanes16RotR(v: V128)
    ensures Lanes16(RotR(v, 2)) == RotR(Lanes16(v), 1)
  {}

  lemma Lanes16RotL(v: V128)
    ensures Lanes16(RotL(v, 2)) == RotL(Lanes16(v), 1)
  {}

  /** mm128_ror_1x16: PALIGNR by 2 moves 16-bit element i + 1 to element i. */
  function Ror1x16(v: V128): (r: V128)
    ensures r == RotR(v, 2)
    ensures Lanes16(r) == RotR(Lanes16(v), 1)
  {
    AlignrSelf(v, 2);
    Lanes16RotR(v);
    AlignrEpi8(v, v, 2)
  }

  /** mm128_rol_1x16: PALIGNR by 14 moves 16-bit element i to element i + 1. */
  function Rol1x16(v: V128): (r: V128)
    ensures r == RotL(v, 2)
    ensures Lanes16(r) == RotL(Lanes16(v), 1)
  {
    AlignrSelf(v, 14);
    RotRIsRotL(v, 14);
    Lanes16RotL(v);
    AlignrEpi8(v, v, 14)
  }

  lemma Rol1x16Ror1x16(v: V128)
    ensures Rol1x16(Ror1x16(v)) == v
    ensures Ror1x16(Rol1x16(v)) == v
  {
    RotLRotR(v, 2);
    RotRRotL(v, 2);
  }

  // ---------------------------------------------------------------------
  // Byte order reversal inside every element
  // ---------------------------------------------------------------------

  /** The PSHUFB control of the SSSE3 mm128_bswap_64, byte by byte. */
  lemma Bswap64Control()
    ensures Const64Sse2(0x0809_0a0b_0c0d_0e0f, 0x0001_0203_0405_0607)
      == [7, 6, 5, 4, 3, 2, 1, 0, 15, 14, 13, 12, 11, 10, 9, 8]
  {
    Lanes64Injective(Const64Sse2(0x0809_0a0b_0c0d_0e0f, 0x0001_0203_0405_0607),
                     [7, 6, 5, 4, 3, 2, 1, 0, 15, 14, 13, 12, 11, 10, 9, 8]);
  }

  /** The PSHUFB control of the SSSE3 mm128_bswap_32, byte by byte. */
  lemma Bswap32Control()
    ensures Const64Sse2(0x0c0d_0e0f_0809_0a0b, 0x0405_0607_0001_0203)
      == [3, 2, 1, 0, 7, 6, 5, 4, 11, 10, 9, 8, 15, 14, 13, 12]
  {
    Lanes64Injective(Const64Sse2(0x0c0d_0e0f_0809_0a0b, 0x0405_0607_0001_0203),
                     [3, 2, 1, 0, 7, 6, 5, 4, 11, 10, 9, 8, 15, 14, 13, 12]);
  }

  /** Control byte k of the SSSE3 byte swaps selects the mirrored byte of k's element. */
  lemma MirrorControl64(k: nat)
    requires k < 16
    ensures var c: V128 := [7, 6, 5, 4, 3, 2, 1, 0, 15, 14, 13, 12, 11, 10, 9, 8];
      c[k] & 0x80 == 0 && (c[k] & 0x0F) as int == k - k % 8 + (7 - k % 8)
  {
    var m := k - k % 8 + (7 - k % 8);
    if k < 8 { assert m == 7 - k; } else { assert m == 23 - k; }
  }

  lemma MirrorControl32(k: nat)
    requires k < 16
    ensures var c: V128 := [3, 2, 1, 0, 7, 6, 5, 4, 11, 10, 9, 8, 15, 14, 13, 12];
      c[k] & 0x80 == 0 && (c[k] & 0x0F) as int == k - k % 4 + (3 - k % 4)
  {
    var m := k - k % 4 + (3 - k % 4);
    if k < 4 { assert m == 3 - k; }
    else if k < 8 { assert m == 11 - k; }
    else if k < 12 { assert m == 19 - k; }
    else { assert m == 27 - k; }
  }

  /** PSHUFB with a control of mirrored in-element indexes reverses each element's bytes. */
  lemma ShuffleMirror64(v: V128)
    ensures ShuffleEpi8(v, [7, 6, 5, 4, 3, 2, 1, 0, 15, 14, 13, 12, 11, 10, 9, 8]) == ReverseEach64(v)
  {
    forall k | 0 <= k < 16
      ensures ShuffleEpi8(v, [7, 6, 5, 4, 3, 2, 1, 0, 15, 14, 13, 12, 11, 10, 9, 8])[k] == ReverseEach64(v)[k]
    {
      MirrorControl64(k);
    }
  }

  lemma ShuffleMirror32(v: V128)
    ensures ShuffleEpi8(v, [3, 2, 1, 0, 7, 6, 5, 4, 11, 10, 9, 8, 15, 14, 13, 12]) == ReverseEach32(v)
  {
    forall k | 0 <= k < 16
      ensures ShuffleEpi8(v, [3, 2, 1, 0, 7, 6, 5, 4, 11, 10, 9, 8, 15, 14, 13, 12])[k] == ReverseEach32(v)[k]
    {
      MirrorControl32(k);
    }
  }

  /**
   * mm128_bswap_64 with SSSE3: one PSHUFB with a constant control.  The
   * control is built with m128_const_64, whose two definitions agree
   * (Const64TiersAgree).
   */
  function Bswap64Ssse3(v: V128): (r: V128)
    ensures r == ReverseEach64(v)
  {
    var ctl := Const64Sse2(0x0809_0a0b_0c0d_0e0f, 0x0001_0203_0405_0607);
    Bswap64Control();
    ShuffleMirror64(v);
    ShuffleEpi8(v, ctl)
  }

  /** mm128_bswap_32 with SSSE3: one PSHUFB with a constant control. */
  function Bswap32Ssse3(v: V128): (r: V128)
    ensures r == ReverseEach32(v)
  {
    var ctl := Const64Sse2(0x0c0d_0e0f_0809_0a0b, 0x0405_0607_0001_0203);
    Bswap32Control();
    ShuffleMirror32(v);
    ShuffleEpi8(v, ctl)
  }

  /** Bit j of byte k of a register is bit 8k + j of its bit view. */
  lemma BitOfByte(v: V128, k: nat, j: nat)
    requires k < 16 && j < 8
    ensures Bits(v)[8 * k + j] == Bit(v[k], j)
  {
    BitIndex(k, j);
  }

  /** Where the bits of the two bytes of 16-bit element e lie inside the element. */
  lemma Offset16(e: nat, j: nat)
    requires e < 8 && j < 8
    ensures Offset(16, 16 * e + j) == j && Offset(16, 16 * e + 8 + j) == 8 + j
  {}

  /** Byte 2e and byte 2e + 1 change places in ReverseEach16. */
  lemma ReverseEach16At(v: V128, e: nat)
    requires e < 8
    ensures ReverseEach16(v)[2 * e] == v[2 * e + 1] && ReverseEach16(v)[2 * e + 1] == v[2 * e]
  {}

  /** Bit j of both bytes of 16-bit element e of a register whose elements are v's shifted left by 8. */
  lemma ShiftedLeft16Bit(v: V128, hi: V128, e: nat, j: nat)
    requires forall p :: 0 <= p < 128 ==> Bits(hi)[p] == (Offset(16, p) >= 8 && p >= 8 && Bits(v)[p - 8])
    requires e < 8 && j < 8
    ensures !Bit(hi[2 * e], j) && Bit(hi[2 * e + 1], j) == Bit(v[2 * e], j)
  {
    Offset16(e, j);
    BitOfByte(hi, 2 * e, j);
    BitOfByte(hi, 2 * e + 1, j);
    BitOfByte(v, 2 * e, j);
  }

  /** Bit j of both bytes of 16-bit element e of a register whose elements are v's shifted right by 8. */
  lemma ShiftedRight16Bit(v: V128, lo: V128, e: nat, j: nat)
    requires forall p :: 0 <= p < 128 ==> Bits(lo)[p] == (Offset(16, p) + 8 < 16 && p + 8 < 128 && Bits(v)[p + 8])
    requires e < 8 && j < 8
    ensures Bit(lo[2 * e], j) == Bit(v[2 * e + 1], j) && !Bit(lo[2 * e + 1], j)
  {
    Offset16(e, j);
    BitOfByte(lo, 2 * e, j);
    BitOfByte(lo, 2 * e + 1, j);
    BitOfByte(v, 2 * e + 1, j);
  }

  /** PSLLW by 8 moves the low byte of each 16-bit element into the high byte. */
  lemma ShiftedLeft16Bytes(v: V128, e: nat)
    requires e < 8
    ensures Slli(16, v, 8)[2 * e] == 0 && Slli(16, v, 8)[2 * e + 1] == v[2 * e]
  {
    var hi := Slli(16, v, 8);
    ShiftedLeft16Bit(v, hi, e, 0); ShiftedLeft16Bit(v, hi, e, 1);
    ShiftedLeft16Bit(v, hi, e, 2); ShiftedLeft16Bit(v, hi, e, 3);
    ShiftedLeft16Bit(v, hi, e, 4); ShiftedLeft16Bit(v, hi, e, 5);
    ShiftedLeft16Bit(v, hi, e, 6); ShiftedLeft16Bit(v, hi, e, 7);
    ByteExt(hi[2 * e], 0);
    ByteExt(hi[2 * e + 1], v[2 * e]);
  }

  /** PSRLW by 8 moves the high byte of each 16-bit element into the low byte. */
  lemma ShiftedRight16Bytes(v: V128, e: nat)
    requires e < 8
    ensures Srli(16, v, 8)[2 * e] == v[2 * e + 1] && Srli(16, v, 8)[2 * e + 1] == 0
  {
    var lo := Srli(16, v, 8);
    ShiftedRight16Bit(v, lo, e, 0); ShiftedRight16Bit(v, lo, e, 1);
    ShiftedRight16Bit(v, lo, e, 2); ShiftedRight16Bit(v, lo, e, 3);
    ShiftedRight16Bit(v, lo, e, 4); ShiftedRight16Bit(v, lo, e, 5);
    ShiftedRight16Bit(v, lo, e, 6); ShiftedRight16Bit(v, lo, e, 7);
    ByteExt(lo[2 * e], v[2 * e + 1]);
    ByteExt(lo[2 * e + 1], 0);
  }

  /**
   * Shifting every 16-bit element left by 8 and right by 8 and ORing the
   * two swaps the two bytes of every 16-bit element.
   */
  lemma SwapBytes16(v: V128)
    ensures Or(Slli(16, v, 8), Srli(16, v, 8)) == ReverseEach16(v)
  {
    var x := Or(Slli(16, v, 8), Srli(16, v, 8));
    forall e | 0 <= e < 8
      ensures x[2 * e] == ReverseEach16(v)[2 * e] && x[2 * e + 1] == ReverseEach16(v)[2 * e + 1]
    {
      ShiftedLeft16Bytes(v, e);
      ShiftedRight16Bytes(v, e);
      ReverseEach16At(v, e);
    }
    forall k | 0 <= k < 16 ensures x[k] == ReverseEach16(v)[k] {
      var e := k / 2;
      assert k == 2 * e || k == 2 * e + 1;
    }
  }

  /** mm128_bswap_16 without SSSE3: the two bytes of every 16-bit element swapped by shifts. */
  function Bswap16Sse2(v: V128): (r: V128)
    ensures r == ReverseEach16(v)
  {
    SwapBytes16(v);
    Or(Slli(16, v, 8), Srli(16, v, 8))
  }

  /**
   * Reversing the bytes of each 64-bit element is swapping the bytes of
   * each 16-bit element and then reversing the four 16-bit elements of
   * each half.
   */
  lemma ReverseEach64By16(v: V128)
    ensures var l := Lanes16(ReverseEach16(v));
      Lanes16(ReverseEach64(v)) == [l[3], l[2], l[1], l[0], l[7], l[6], l[5], l[4]]
  {
    var a, b := ReverseEach16(v), ReverseEach64(v);
    assert a[0] == v[1] && a[1] == v[0] && a[2] == v[3] && a[3] == v[2];
    assert a[4] == v[5] && a[5] == v[4] && a[6] == v[7] && a[7] == v[6];
    assert a[8] == v[9] && a[9] == v[8] && a[10] == v[11] && a[11] == v[10];
    assert a[12] == v[13] && a[13] == v[12] && a[14] == v[15] && a[15] == v[14];
    assert b[0] == v[7] && b[1] == v[6] && b[2] == v[5] && b[3] == v[4];
    assert b[4] == v[3] && b[5] == v[2] && b[6] == v[1] && b[7] == v[0];
    assert b[8] == v[15] && b[9] == v[14] && b[10] == v[13] && b[11] == v[12];
    assert b[12] == v[11] && b[13] == v[10] && b[14] == v[9] && b[15] == v[8];
  }

  /**
   * Reversing the bytes of each 32-bit element is swapping the bytes of
   * each 16-bit element and then exchanging the 16-bit halves of each
   * 32-bit element.
   */
  lemma ReverseEach32By16(v: V128)
    ensures var l := Lanes16(ReverseEach16(v));
      Lanes16(ReverseEach32(v)) == [l[1], l[0], l[3], l[2], l[5], l[4], l[7], l[6]]
  {
    var a, b := ReverseEach16(v), ReverseEach32(v);
    assert a[0] == v[1] && a[1] == v[0] && a[2] == v[3] && a[3] == v[2];
    assert a[4] == v[5] && a[5] == v[4] && a[6] == v[7] && a[7] == v[6];
    assert a[8] == v[9] && a[9] == v[8] && a[10] == v[11] && a[11] == v[10];
    assert a[12] == v[13] && a[13] == v[12] && a[14] == v[15] && a[15] == v[14];
    assert b[0] == v[3] && b[1] == v[2] && b[2] == v[1] && b[3] == v[0];
    assert b[4] == v[7] && b[5] == v[6] && b[6] == v[5] && b[7] == v[4];
    assert b[8] == v[11] && b[9] == v[10] && b[10] == v[9] && b[11] == v[8];
    assert b[12] == v[15] && b[13] == v[14] && b[14] == v[13] && b[15] == v[12];
  }

  /** PSHUFLW then PSHUFHW with 0x1B reverse the four 16-bit elements of each half. */
  lemma ReverseHalves16(s: V128)
    ensures var l := Lanes16(s);
      Lanes16(ShufflehiEpi16(ShuffleloEpi16(s, 0x1B), 0x1B)) == [l[3], l[2], l[1], l[0], l[7], l[6], l[5], l[4]]
  {
    assert Sel(0x1B, 0) == 3 && Sel(0x1B, 1) == 2 && Sel(0x1B, 2) == 1 && Sel(0x1B, 3) == 0;
  }

  /** PSHUFLW then PSHUFHW with 0xB1 exchange neighbouring 16-bit elements. */
  lemma SwapPairs16(s: V128)
    ensures var l := Lanes16(s);
      Lanes16(ShufflehiEpi16(ShuffleloEpi16(s, 0xB1), 0xB1)) == [l[1], l[0], l[3], l[2], l[5], l[4], l[7], l[6]]
  {
    assert Sel(0xB1, 0) == 1 && Sel(0xB1, 1) == 0 && Sel(0xB1, 2) == 3 && Sel(0xB1, 3) == 2;
  }

  /**
   * Reversing the four 16-bit elements of each half of a register whose
   * 16-bit elements are v's byte-swapped reverses each 64-bit element of v.
   */
  lemma Bswap64By16(s: V128, v: V128)
    requires s == ReverseEach16(v)
    ensures ShufflehiEpi16(ShuffleloEpi16(s, 0x1B), 0x1B) == ReverseEach64(v)
  {
    ReverseHalves16(s);
    ReverseEach64By16(v);
    Lanes16Injective(ShufflehiEpi16(ShuffleloEpi16(s, 0x1B), 0x1B), ReverseEach64(v));
  }

  /**
   * Exchanging neighbouring 16-bit elements of a register whose 16-bit
   * elements are v's byte-swapped reverses each 32-bit element of v.
   */
  lemma Bswap32By16(s: V128, v: V128)
    requires s == ReverseEach16(v)
    ensures ShufflehiEpi16(ShuffleloEpi16(s, 0xB1), 0xB1) == ReverseEach32(v)
  {
    SwapPairs16(s);
    ReverseEach32By16(v);
    Lanes16Injective(ShufflehiEpi16(ShuffleloEpi16(s, 0xB1), 0xB1), ReverseEach32(v));
  }

  /**
   * mm128_bswap_64 without SSSE3: swap the bytes of every 16-bit element,
   * then reverse the four 16-bit elements of each half (_MM_SHUFFLE(0, 1, 2, 3)
   * is 0x1B).
   */
  function Bswap64Sse2(v: V128): (r: V128)
    ensures r == ReverseEach64(v)
  {
    var s := Bswap16Sse2(v);
    Bswap64By16(s, v);
    ShufflehiEpi16(ShuffleloEpi16(s, 0x1B), 0x1B)
  }

  /**
   * mm128_bswap_32 without SSSE3: swap the bytes of every 16-bit element,
   * then exchange the 16-bit halves of every 32-bit element
   * (_MM_SHUFFLE(2, 3, 0, 1) is 0xB1).
   */
  function Bswap32Sse2(v: V128): (r: V128)
    ensures r == ReverseEach32(v)
  {
    var s := Bswap16Sse2(v);
    Bswap32By16(s, v);
    ShufflehiEpi16(ShuffleloEpi16(s, 0xB1), 0xB1)
  }

  /** The SSSE3 and SSE2 definitions of mm128_bswap_64 and mm128_bswap_32 agree. */
  lemma BswapTiersAgree(v: V128)
    ensures Bswap64Ssse3(v) == Bswap64Sse2(v)
    ensures Bswap32Ssse3(v) == Bswap32Sse2(v)
  {}

  /** Each byte swap is an involution. */
  lemma Bswap64Involution(v: V128)
    ensures Bswap64Sse2(Bswap64Sse2(v)) == v
  {
    ReverseEach64Involution(v);
  }

  lemma Bswap32Involution(v: V128)
    ensures Bswap32Sse2(Bswap32Sse2(v)) == v
  {
    ReverseEach32Involution(v);
  }

  lemma Bswap16Involution(v: V128)
    ensures Bswap16Sse2(Bswap16Sse2(v)) == v
  {
    ReverseEach16Involution(v);
  }
}
