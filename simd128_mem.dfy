/**
 * The memory helpers of simd-utils/simd-128.h, which work on arrays of
 * 128-bit registers: filling, copying, and the block byte swaps that
 * convert eight registers of 64-bit or 32-bit words between byte orders.
 *
 * The counts are C ints: a count of zero or less leaves the destination
 * alone. The destination and the source of a copy or a block swap are
 * either the same array or two arrays that do not overlap. The block swaps
 * write register i from register i only, so their eight writes are stated
 * as one simultaneous assignment.
 */
module Simd128Mem {
  import opened Vec128
  import opened Sse
  import opened Simd128

  /** memset_zero_128: the first n registers of dst cleared. */
  method MemsetZero(dst: array<V128>, n: int)
    requires n <= dst.Length
    modifies dst
    ensures forall i :: 0 <= i < n ==> dst[i] == Zero
    ensures forall i :: n <= i < dst.Length && 0 <= i ==> dst[i] == old(dst[i])
  {
    var i := 0;
    while i < n
      invariant 0 <= i <= if n < 0 then 0 else n
      invariant forall j :: 0 <= j < i ==> dst[j] == Zero
      invariant forall j :: i <= j < dst.Length ==> dst[j] == old(dst[j])
    {
      dst[i] := Zero;
      i := i + 1;
    }
  }

  /** memset_128: the first n registers of dst set to a. */
  method Memset(dst: array<V128>, a: V128, n: int)
    requires n <= dst.Length
    modifies dst
    ensures forall i :: 0 <= i < n ==> dst[i] == a
    ensures forall i :: n <= i < dst.Length && 0 <= i ==> dst[i] == old(dst[i])
  {
    var i := 0;
    while i < n
      invariant 0 <= i <= if n < 0 then 0 else n
      invariant forall j :: 0 <= j < i ==> dst[j] == a
      invariant forall j :: i <= j < dst.Length ==> dst[j] == old(dst[j])
    {
      dst[i] := a;
      i := i + 1;
    }
  }

  /** memcpy_128: the first n registers of src copied into dst. */
  method Memcpy(dst: array<V128>, src: array<V128>, n: int)
    requires n <= dst.Length && n <= src.Length
    modifies dst
    ensures forall i :: 0 <= i < n ==> dst[i] == old(src[i])
    ensures forall i :: n <= i < dst.Length && 0 <= i ==> dst[i] == old(dst[i])
    ensures dst != src ==> src[..] == old(src[..])
  {
    var i := 0;
    while i < n
      invariant 0 <= i <= if n < 0 then 0 else n
      invariant forall j :: 0 <= j < i ==> dst[j] == old(src[j])
      invariant forall j :: i <= j < dst.Length ==> dst[j] == old(dst[j])
      invariant forall j :: i <= j < src.Length ==> src[j] == old(src[j])
      invariant dst != src ==> src[..] == old(src[..])
    {
      dst[i] := src[i];
      i := i + 1;
    }
  }

  /**
   * mm128_block_bswap_64 with SSSE3: the bytes of every 8-byte word of
   * the eight registers s[0..8] reversed into d[0..8], one PSHUFB per register with a shared control.
   */
  method BlockBswap64Ssse3(d: array<V128>, s: array<V128>)
    requires d.Length >= 8 && s.Length >= 8
    modifies d
    ensures forall i :: 0 <= i < 8 ==> d[i] == ReverseEach64(old(s[i]))
    ensures forall i :: 8 <= i < d.Length ==> d[i] == old(d[i])
    ensures d != s ==> s[..] == old(s[..])
  {
    var ctl := Const64Sse2(0x0809_0a0b_0c0d_0e0f, 0x0001_0203_0405_0607);
    Bswap64Control();
    forall i | 0 <= i < 8 ensures ShuffleEpi8(s[i], ctl) == ReverseEach64(s[i]) {
      ShuffleMirror64(s[i]);
    }
    forall i | 0 <= i < 8 {
      d[i] := ShuffleEpi8(s[i], ctl);
    }
  }

  /**
   * mm128_block_bswap_64 without SSSE3: the bytes of every 8-byte word of
   * the eight registers s[0..8] reversed into d[0..8], mm128_bswap_64 without SSSE3 on each register.
   */
  method BlockBswap64Sse2(d: array<V128>, s: array<V128>)
    requires d.Length >= 8 && s.Length >= 8
    modifies d
    ensures forall i :: 0 <= i < 8 ==> d[i] == ReverseEach64(old(s[i]))
    ensures forall i :: 8 <= i < d.Length ==> d[i] == old(d[i])
    ensures d != s ==> s[..] == old(s[..])
  {
    forall i | 0 <= i < 8 {
      d[i] := Bswap64Sse2(s[i]);
    }
  }

  /**
   * mm128_block_bswap_32 with SSSE3: the bytes of every 4-byte word of
   * the eight registers s[0..8] reversed into d[0..8], one PSHUFB per register with a shared control.
   */
  method BlockBswap32Ssse3(d: array<V128>, s: array<V128>)
    requires d.Length >= 8 && s.Length >= 8
    modifies d
    ensures forall i :: 0 <= i < 8 ==> d[i] == ReverseEach32(old(s[i]))
    ensures forall i :: 8 <= i < d.Length ==> d[i] == old(d[i])
    ensures d != s ==> s[..] == old(s[..])
  {
    var ctl := Const64Sse2(0x0c0d_0e0f_0809_0a0b, 0x0405_0607_0001_0203);
    Bswap32Control();
    forall i | 0 <= i < 8 ensures ShuffleEpi8(s[i], ctl) == ReverseEach32(s[i]) {
      ShuffleMirror32(s[i]);
    }
    forall i | 0 <= i < 8 {
      d[i] := ShuffleEpi8(s[i], ctl);
    }
  }

  /**
   * mm128_block_bswap_32 without SSSE3: the bytes of every 4-byte word of
   * the eight registers s[0..8] reversed into d[0..8], mm128_bswap_32 without SSSE3 on each register.
   */
  method BlockBswap32Sse2(d: array<V128>, s: array<V128>)
    requires d.Length >= 8 && s.Length >= 8
    modifies d
    ensures forall i :: 0 <= i < 8 ==> d[i] == ReverseEach32(old(s[i]))
    ensures forall i :: 8 <= i < d.Length ==> d[i] == old(d[i])
    ensures d != s ==> s[..] == old(s[..])
  {
    forall i | 0 <= i < 8 {
      d[i] := Bswap32Sse2(s[i]);
    }
  }
}
