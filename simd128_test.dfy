/**
 * The whole-register bit tests of simd-utils/simd-128.h: mm128_allbits0,
 * mm128_allbits1, mm128_anybits0 and mm128_anybits1, in the SSE4.1 tier
 * (PTEST) and in the SSE2 tier (the register read as one unsigned 128-bit
 * integer, little endian).
 *
 * Each macro returns an int used as a truth value. The definitions as the
 * header writes them are kept beside corrected ones; the corrected ones say
 * what the names promise and agree across the two tiers.
 */
module Simd128Test {
  import opened Vec128
  import opened Sse
  import opened Simd128

  // ---------------------------------------------------------------------
  // SSE4.1: PTEST
  // ---------------------------------------------------------------------

  /** PTEST of a register with itself sets ZF exactly when the register is zero. */
  lemma TestzSelf(a: V128)
    ensures TestzSi128(a, a) == 1 <==> a == Zero
  {
    if TestzSi128(a, a) == 1 {
      forall k | 0 <= k < 16 ensures a[k] == 0 {
        assert a[k] & a[k] == 0;
      }
    }
  }

  /** PTEST against all ones sets CF exactly when every bit of the register is set. */
  lemma TestcOnes(a: V128)
    ensures TestcSi128(a, AllOnes) == 1 <==> a == AllOnes
  {
    if TestcSi128(a, AllOnes) == 1 {
      forall k | 0 <= k < 16 ensures a[k] == 0xFF {
        assert !a[k] & 0xFF == 0;
      }
    }
  }

  /** mm128_allbits0 with SSE4.1: PTEST ZF of a with itself; nonzero iff a is zero. */
  function AllBits0(a: V128): (f: int)
    ensures f == 0 || f == 1
    ensures f != 0 <==> a == Zero
  {
    TestzSelf(a);
    TestzSi128(a, a)
  }

  /** mm128_allbits1 with SSE4.1: PTEST CF against all ones; nonzero iff every bit of a is set. */
  function AllBits1(a: V128): (f: int)
    ensures f == 0 || f == 1
    ensures f != 0 <==> a == AllOnes
  {
    TestcOnes(a);
    TestcSi128(a, Neg1(a))
  }


  /** Some bit of the register is clear. */
  predicate SomeBitClear(a: V128)
  {
    exists k :: 0 <= k < 16 && a[k] != 0xFF
  }

  /** Some bit of the register is set. */
  predicate SomeBitSet(a: V128)
  {
    exists k :: 0 <= k < 16 && a[k] != 0
  }

  lemma SomeBitClearIff(a: V128)
    ensures SomeBitClear(a) <==> a != AllOnes
  {
    if a != AllOnes {
      var k :| 0 <= k < 16 && a[k] != AllOnes[k];
    }
  }

  lemma SomeBitSetIff(a: V128)
    ensures SomeBitSet(a) <==> a != Zero
  {
    if a != Zero {
      var k :| 0 <= k < 16 && a[k] != Zero[k];
    }
  }

  /**
   * mm128_anybits0 with SSE4.1 as the header writes it: the same test as
   * mm128_allbits1, nonzero only when every bit is set.
   */
  function AnyBits0Sse41AsWritten(a: V128): (f: int)
    ensures f == 0 || f == 1
    ensures f != 0 <==> a == AllOnes
  {
    AllBits1(a)
  }

  /**
   * mm128_anybits1 with SSE4.1 as the header writes it: the same test as
   * mm128_allbits0, nonzero only when every bit is clear.
   */
  function AnyBits1Sse41AsWritten(a: V128): (f: int)
    ensures f == 0 || f == 1
    ensures f != 0 <==> a == Zero
  {
    AllBits0(a)
  }

  /** mm128_anybits0 with SSE4.1, corrected: the negation of mm128_allbits1. */
  function AnyBits0(a: V128): (f: int)
    ensures f == 0 || f == 1
    ensures f != 0 <==> SomeBitClear(a)
  {
    SomeBitClearIff(a);
    if AllBits1(a) == 0 then 1 else 0
  }

  /** mm128_anybits1 with SSE4.1, corrected: the negation of mm128_allbits0. */
  function AnyBits1(a: V128): (f: int)
    ensures f == 0 || f == 1
    ensures f != 0 <==> SomeBitSet(a)
  {
    SomeBitSetIff(a);
    if AllBits0(a) == 0 then 1 else 0
  }

  /**
   * The header's SSE4.1 mm128_anybits0 and mm128_anybits1 both answer the
   * wrong question on the zero register: it has clear bits but anybits0 is
   * 0, and it has no set bit but anybits1 is nonzero.
   */
  lemma AnyBitsSse41Inverted()
    ensures AnyBits0Sse41AsWritten(Zero) == 0 && AnyBits0(Zero) == 1
    ensures AnyBits1Sse41AsWritten(Zero) == 1 && AnyBits1(Zero) == 0
  {
    assert Zero[0] != 0xFF;
  }

  // ---------------------------------------------------------------------
  // SSE2: the register as an unsigned 128-bit integer
  // ---------------------------------------------------------------------

  /** 256 to the power n. */
  function Pow256(n: nat): (p: nat)
    ensures p >= 1
  {
    if n == 0 then 1 else 256 * Pow256(n - 1)
  }

  /** 2^128, the modulus of unsigned 128-bit arithmetic. */
  const Modulus128: nat := 0x1_0000_0000_0000_0000_0000_0000_0000_0000

  lemma Pow256Of16()
    ensures Pow256(16) == Modulus128
  {
    assert Pow256(4) == 0x1_0000_0000;
    assert Pow256(8) == 0x1_0000_0000_0000_0000;
    assert Pow256(12) == 0x1_0000_0000_0000_0000_0000_0000;
  }

  /** Adding one to an unsigned 128-bit value wraps to zero only from the largest value. */
  lemma WrapToZero(x: nat)
    requires x < Modulus128
    ensures (x + 1) % Modulus128 == 0 <==> x == Modulus128 - 1
  {
    if x + 1 < Modulus128 {
      assert (x + 1) % Modulus128 == x + 1;
    }
  }

  lemma ZeroBytes(a: V128)
    ensures a == Zero <==> forall k :: 0 <= k < 16 ==> a[k] == 0
  {
    if forall k :: 0 <= k < 16 ==> a[k] == 0 {
      assert forall k :: 0 <= k < 16 ==> a[k] == Zero[k];
    }
  }

  lemma OnesBytes(a: V128)
    ensures a == AllOnes <==> forall k :: 0 <= k < 16 ==> a[k] == 0xFF
  {
    if forall k :: 0 <= k < 16 ==> a[k] == 0xFF {
      assert forall k :: 0 <= k < 16 ==> a[k] == AllOnes[k];
    }
  }

  /** The unsigned value of a byte string, least significant byte first. */
  function LittleEndian(s: seq<bv8>): nat
  {
    if |s| == 0 then 0 else s[0] as nat + 256 * LittleEndian(s[1..])
  }

  lemma {:induction false} LittleEndianBound(s: seq<bv8>)
    ensures LittleEndian(s) < Pow256(|s|)
  {
    if |s| > 0 {
      LittleEndianBound(s[1..]);
    }
  }

  /** The value is zero exactly when every byte is zero. */
  lemma {:induction false} LittleEndianZero(s: seq<bv8>)
    ensures LittleEndian(s) == 0 <==> forall k :: 0 <= k < |s| ==> s[k] == 0
  {
    if |s| > 0 {
      var t := s[1..];
      LittleEndianZero(t);
      assert forall k :: 1 <= k < |s| ==> s[k] == t[k - 1];
      if LittleEndian(s) == 0 {
        forall k | 0 <= k < |s| ensures s[k] == 0 {
          if k > 0 {
            assert s[k] == t[k - 1];
          }
        }
      }
    }
  }

  /** The value is the largest one of its width exactly when every byte is 0xFF. */
  lemma {:induction false} LittleEndianMax(s: seq<bv8>)
    ensures LittleEndian(s) == Pow256(|s|) - 1 <==> forall k :: 0 <= k < |s| ==> s[k] == 0xFF
  {
    if |s| > 0 {
      var t := s[1..];
      LittleEndianMax(t);
      LittleEndianBound(t);
      assert forall k :: 1 <= k < |s| ==> s[k] == t[k - 1];
      if LittleEndian(s) == Pow256(|s|) - 1 {
        assert s[0] as nat <= 255;
        assert LittleEndian(t) == Pow256(|t|) - 1 && s[0] == 0xFF;
        forall k | 0 <= k < |s| ensures s[k] == 0xFF {
          if k > 0 {
            assert s[k] == t[k - 1];
          }
        }
      }
    }
  }

  /** (uint128_t)(a): the register as an unsigned 128-bit integer. */
  function U128(a: V128): (x: nat)
    ensures x < Modulus128
    ensures x == 0 <==> a == Zero
    ensures x == Modulus128 - 1 <==> a == AllOnes
  {
    LittleEndianBound(a);
    LittleEndianZero(a);
    LittleEndianMax(a);
    Pow256Of16();
    ZeroBytes(a);
    OnesBytes(a);
    LittleEndian(a)
  }

  /** mm128_anybits0 without SSE4.1 as the header writes it: the value itself, nonzero when some bit is set. */
  function AnyBits0Sse2AsWritten(a: V128): (f: nat)
    ensures f != 0 <==> SomeBitSet(a)
  {
    SomeBitSetIff(a);
    U128(a)
  }

  /** mm128_anybits1 without SSE4.1 as the header writes it: the value plus one, nonzero when some bit is clear. */
  function AnyBits1Sse2AsWritten(a: V128): (f: nat)
    ensures f != 0 <==> SomeBitClear(a)
  {
    SomeBitClearIff(a);
    WrapToZero(U128(a));
    (U128(a) + 1) % Modulus128
  }

  /** mm128_allbits0 without SSE4.1 as the header writes it: nonzero only when every bit is set. */
  function AllBits0Sse2AsWritten(a: V128): (f: int)
    ensures f == 0 || f == 1
    ensures f != 0 <==> a == AllOnes
  {
    SomeBitClearIff(a);
    if AnyBits1Sse2AsWritten(a) == 0 then 1 else 0
  }

  /** mm128_allbits1 without SSE4.1 as the header writes it: nonzero only when every bit is clear. */
  function AllBits1Sse2AsWritten(a: V128): (f: int)
    ensures f == 0 || f == 1
    ensures f != 0 <==> a == Zero
  {
    SomeBitSetIff(a);
    if AnyBits0Sse2AsWritten(a) == 0 then 1 else 0
  }

  /**
   * The header's SSE2 tests are each other's names: anybits0 is nonzero on
   * the all-ones register, which has no clear bit, and allbits0 is 0 on the
   * zero register.
   */
  lemma AllBitsSse2Swapped()
    ensures AnyBits0Sse2AsWritten(AllOnes) != 0 && AnyBits1Sse2AsWritten(Zero) != 0
    ensures AllBits0Sse2AsWritten(Zero) == 0 && AllBits0(Zero) == 1
    ensures AllBits1Sse2AsWritten(AllOnes) == 0 && AllBits1(AllOnes) == 1
  {
    assert AllOnes[0] != 0 && Zero[0] != 0xFF;
  }

  /**
   * mm128_anybits0 without SSE4.1, corrected: the header's two definitions
   * with their names exchanged, so anybits0 is the value plus one.
   */
  function AnyBits0Sse2(a: V128): (f: nat)
    ensures f != 0 <==> SomeBitClear(a)
  {
    AnyBits1Sse2AsWritten(a)
  }

  /** mm128_anybits1 without SSE4.1, corrected: the value itself. */
  function AnyBits1Sse2(a: V128): (f: nat)
    ensures f != 0 <==> SomeBitSet(a)
  {
    AnyBits0Sse2AsWritten(a)
  }

  /** mm128_allbits0 without SSE4.1, corrected: the negation of anybits1. */
  function AllBits0Sse2(a: V128): (f: int)
    ensures f == 0 || f == 1
    ensures f != 0 <==> a == Zero
  {
    SomeBitSetIff(a);
    if AnyBits1Sse2(a) == 0 then 1 else 0
  }

  /** mm128_allbits1 without SSE4.1, corrected: the negation of anybits0. */
  function AllBits1Sse2(a: V128): (f: int)
    ensures f == 0 || f == 1
    ensures f != 0 <==> a == AllOnes
  {
    SomeBitClearIff(a);
    if AnyBits0Sse2(a) == 0 then 1 else 0
  }

  /** With the corrections the two tiers give the same truth value for every register. */
  lemma BitTestTiersAgree(a: V128)
    ensures (AllBits0Sse2(a) != 0) == (AllBits0(a) != 0)
    ensures (AllBits1Sse2(a) != 0) == (AllBits1(a) != 0)
    ensures (AnyBits0Sse2(a) != 0) == (AnyBits0(a) != 0)
    ensures (AnyBits1Sse2(a) != 0) == (AnyBits1(a) != 0)
  {
    SomeBitClearIff(a);
    SomeBitSetIff(a);
  }
}
