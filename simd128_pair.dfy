/**
 * The two-register macros of simd-utils/simd-128.h: exchanging two
 * registers with three XORs, and rotating the 256-bit value made of two
 * registers (v1 the low half, v2 the high half) by a whole number of bytes,
 * with PALIGNR (when SSE4.1 is available) or with byte shifts and OR (otherwise).
 *
 * The macros assign their two register arguments; each is modelled as a
 * method taking the old pair and returning the new pair. The header has
 * one macro per element width (64, 32, 16 and 8 bits, that is n = 8, 4, 2
 * and 1 bytes); the methods take n as a parameter.
 */
module Simd128Pair {
  import opened Vec128
  import opened Sse

  /** mm128_swap256_128: the two registers exchanged by three XORs. */
  method Swap256(v1: V128, v2: V128) returns (r1: V128, r2: V128)
    ensures r1 == v2 && r2 == v1
  {
    r1, r2 := v1, v2;
    r1 := Xor(r1, r2);
    r2 := Xor(r1, r2);
    r1 := Xor(r1, r2);
  }

  /** Byte k of the 256-bit value v1:v2 rotated right by n bytes. */
  lemma RotR256At(v1: V128, v2: V128, n: nat, k: nat)
    requires n <= 16 && k < 32
    ensures RotR(v1 + v2, n)[k] == if k + n < 32 then (v1 + v2)[k + n] else (v1 + v2)[k + n - 32]
  {}

  /** Byte k of the 256-bit value v1:v2 rotated left by n bytes. */
  lemma RotL256At(v1: V128, v2: V128, n: nat, k: nat)
    requires n <= 16 && k < 32
    ensures RotL(v1 + v2, n)[k] == if k >= n then (v1 + v2)[k - n] else (v1 + v2)[k - n + 32]
  {}

  /** Two pairs of registers are equal when their concatenations agree byte by byte. */
  lemma PairExt(r1: V128, r2: V128, s: seq<bv8>)
    requires |s| == 32
    requires forall k :: 0 <= k < 16 ==> r1[k] == s[k] && r2[k] == s[k + 16]
    ensures r1 + r2 == s
  {}

  /**
   * mm128_ror256_64/32/16/8 with SSE4.1: PALIGNR of each register onto the
   * other rotates the 256-bit value v1:v2 right by n bytes.
   */
  method Ror256Sse41(v1: V128, v2: V128, n: nat) returns (r1: V128, r2: V128)
    requires n <= 16
    ensures r1 + r2 == RotR(v1 + v2, n)
  {
    var t := AlignrEpi8(v1, v2, n);
    r1 := AlignrEpi8(v2, v1, n);
    r2 := t;
    forall k | 0 <= k < 16 ensures r1[k] == RotR(v1 + v2, n)[k] && r2[k] == RotR(v1 + v2, n)[k + 16] {
      RotR256At(v1, v2, n, k);
      RotR256At(v1, v2, n, k + 16);
    }
    PairExt(r1, r2, RotR(v1 + v2, n));
  }

  /**
   * mm128_rol256_64/32/16/8 with SSE4.1: PALIGNR by 16 - n rotates the
   * 256-bit value v1:v2 left by n bytes.
   */
  method Rol256Sse41(v1: V128, v2: V128, n: nat) returns (r1: V128, r2: V128)
    requires n <= 16
    ensures r1 + r2 == RotL(v1 + v2, n)
  {
    var t := AlignrEpi8(v1, v2, 16 - n);
    r2 := AlignrEpi8(v2, v1, 16 - n);
    r1 := t;
    forall k | 0 <= k < 16 ensures r1[k] == RotL(v1 + v2, n)[k] && r2[k] == RotL(v1 + v2, n)[k + 16] {
      RotL256At(v1, v2, n, k);
      RotL256At(v1, v2, n, k + 16);
    }
    PairExt(r1, r2, RotL(v1 + v2, n));
  }

  /**
   * mm128_ror256_64/32/16/8 without SSE4.1: each new register is the OR of one
   * register shifted down by n bytes and the other shifted up by 16 - n.
   */
  method Ror256Sse2(v1: V128, v2: V128, n: nat) returns (r1: V128, r2: V128)
    requires n <= 16
    ensures r1 + r2 == RotR(v1 + v2, n)
  {
    var t := Or(SrliSi128(v1, n), SlliSi128(v2, 16 - n));
    r2 := Or(SrliSi128(v2, n), SlliSi128(v1, 16 - n));
    r1 := t;
    forall k | 0 <= k < 16 ensures r1[k] == RotR(v1 + v2, n)[k] && r2[k] == RotR(v1 + v2, n)[k + 16] {
      RotR256At(v1, v2, n, k);
      RotR256At(v1, v2, n, k + 16);
    }
    PairExt(r1, r2, RotR(v1 + v2, n));
  }

  /**
   * mm128_rol256_64/32/16/8 without SSE4.1: each new register is the OR of one
   * register shifted up by n bytes and the other shifted down by 16 - n.
   */
  method Rol256Sse2(v1: V128, v2: V128, n: nat) returns (r1: V128, r2: V128)
    requires n <= 16
    ensures r1 + r2 == RotL(v1 + v2, n)
  {
    var t := Or(SlliSi128(v1, n), SrliSi128(v2, 16 - n));
    r2 := Or(SlliSi128(v2, n), SrliSi128(v1, 16 - n));
    r1 := t;
    forall k | 0 <= k < 16 ensures r1[k] == RotL(v1 + v2, n)[k] && r2[k] == RotL(v1 + v2, n)[k + 16] {
      RotL256At(v1, v2, n, k);
      RotL256At(v1, v2, n, k + 16);
    }
    PairExt(r1, r2, RotL(v1 + v2, n));
  }

  /** Rotating the 256-bit value by 16 bytes exchanges the two registers, as mm128_swap256_128 does. */
  lemma RotateByHalf(v1: V128, v2: V128)
    ensures RotR(v1 + v2, 16) == v2 + v1 && RotL(v1 + v2, 16) == v2 + v1
  {
    assert (v1 + v2)[16..] == v2 && (v1 + v2)[..16] == v1;
  }

  /**
   * Rotating by 8 bytes is rotating the four 64-bit elements of v1:v2 by
   * one: the result registers hold elements 1, 2 and 3, 0.
   */
  lemma RotateBy8Lanes64(v1: V128, v2: V128, r1: V128, r2: V128)
    requires r1 + r2 == RotR(v1 + v2, 8)
    ensures Lanes64(r1) + Lanes64(r2) == RotR(Lanes64(v1) + Lanes64(v2), 1)
  {
    assert r1 == (r1 + r2)[..16] && r2 == (r1 + r2)[16..];
    assert r1 == v1[8..] + v2[..8];
    assert r2 == v2[8..] + v1[..8];
  }

  /**
   * Rotating by 4 bytes is rotating the eight 32-bit elements of v1:v2 by
   * one.
   */
  lemma RotateBy4Lanes32(v1: V128, v2: V128, r1: V128, r2: V128)
    requires r1 + r2 == RotR(v1 + v2, 4)
    ensures Lanes32(r1) + Lanes32(r2) == RotR(Lanes32(v1) + Lanes32(v2), 1)
  {
    assert r1 == (r1 + r2)[..16] && r2 == (r1 + r2)[16..];
    assert r1 == v1[4..] + v2[..4];
    assert r2 == v2[4..] + v1[..4];
    var a, b := Lanes32(v1), Lanes32(v2);
    assert Lanes32(r1) == [a[1], a[2], a[3], b[0]];
    assert Lanes32(r2) == [b[1], b[2], b[3], a[0]];
  }

  /** A left rotation of the pair undoes a right rotation by the same count, and back. */
  lemma Rotate256Inverse(v1: V128, v2: V128, n: nat)
    requires n <= 16
    ensures RotL(RotR(v1 + v2, n), n) == v1 + v2
    ensures RotR(RotL(v1 + v2, n), n) == v1 + v2
  {
    RotLRotR(v1 + v2, n);
    RotRRotL(v1 + v2, n);
  }
}
