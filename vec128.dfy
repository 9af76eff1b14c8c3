/**
 * The 128-bit SSE register `__m128i` as a value.
 *
 * A register is 16 bytes; byte 0 is the least significant (x86 is
 * little-endian), so the 64-bit element 0 is bytes 0..7, the 32-bit
 * element 1 is bytes 4..7, and so on.  Three views are used throughout:
 *   - the bytes themselves (8-bit elements);
 *   - packed 16-, 32- and 64-bit elements (`Lanes16/32/64`);
 *   - the 128 bits, bit 8*k+j being bit j of byte k (`Bits`).
 */
module Vec128 {

  type V128 = s: seq<bv8> | |s| == 16 witness [0, 0, 0, 0, 0, 0, 0, 0, 0, 0, 0, 0, 0, 0, 0, 0]

  /** The register with every bit clear. */
  const Zero: V128 := [0, 0, 0, 0, 0, 0, 0, 0, 0, 0, 0, 0, 0, 0, 0, 0]

  /** The register with every bit set. */
  const AllOnes: V128 := [0xFF, 0xFF, 0xFF, 0xFF, 0xFF, 0xFF, 0xFF, 0xFF,
                          0xFF, 0xFF, 0xFF, 0xFF, 0xFF, 0xFF, 0xFF, 0xFF]

  // ---------------------------------------------------------------------
  // Packing bytes into little-endian elements and back
  // ---------------------------------------------------------------------

  function Pack16(b0: bv8, b1: bv8): bv16
  {
    (b0 as bv16) | (b1 as bv16 << 8)
  }

  function Pack32(b0: bv8, b1: bv8, b2: bv8, b3: bv8): bv32
  {
    (b0 as bv32) | (b1 as bv32 << 8) | (b2 as bv32 << 16) | (b3 as bv32 << 24)
  }

  function Pack64(b0: bv8, b1: bv8, b2: bv8, b3: bv8, b4: bv8, b5: bv8, b6: bv8, b7: bv8): bv64
  {
    (b0 as bv64) | (b1 as bv64 << 8) | (b2 as bv64 << 16) | (b3 as bv64 << 24)
    | (b4 as bv64 << 32) | (b5 as bv64 << 40) | (b6 as bv64 << 48) | (b7 as bv64 << 56)
  }

  /** Byte j (0 = least significant) of a 16-bit element. */
  function ByteOf16(x: bv16, j: nat): bv8
    requires j < 2
  {
    if j == 0 then (x & 0xFF) as bv8 else ((x >> 8) & 0xFF) as bv8
  }

  function ByteOf32(x: bv32, j: nat): bv8
    requires j < 4
  {
    if j == 0 then (x & 0xFF) as bv8
    else if j == 1 then ((x >> 8) & 0xFF) as bv8
    else if j == 2 then ((x >> 16) & 0xFF) as bv8
    else ((x >> 24) & 0xFF) as bv8
  }

  function ByteOf64(x: bv64, j: nat): bv8
    requires j < 8
  {
    if j == 0 then (x & 0xFF) as bv8
    else if j == 1 then ((x >> 8) & 0xFF) as bv8
    else if j == 2 then ((x >> 16) & 0xFF) as bv8
    else if j == 3 then ((x >> 24) & 0xFF) as bv8
    else if j == 4 then ((x >> 32) & 0xFF) as bv8
    else if j == 5 then ((x >> 40) & 0xFF) as bv8
    else if j == 6 then ((x >> 48) & 0xFF) as bv8
    else ((x >> 56) & 0xFF) as bv8
  }

  /** The little-endian bytes of an element. */
  function Bytes16(x: bv16): (b: seq<bv8>)
    ensures |b| == 2 && Pack16(b[0], b[1]) == x
  {
    PackOfBytes16(x);
    [ByteOf16(x, 0), ByteOf16(x, 1)]
  }

  function Bytes32(x: bv32): (b: seq<bv8>)
    ensures |b| == 4 && Pack32(b[0], b[1], b[2], b[3]) == x
  {
    PackOfBytes32(x);
    [ByteOf32(x, 0), ByteOf32(x, 1), ByteOf32(x, 2), ByteOf32(x, 3)]
  }

  function Bytes64(x: bv64): (b: seq<bv8>)
    ensures |b| == 8 && Pack64(b[0], b[1], b[2], b[3], b[4], b[5], b[6], b[7]) == x
  {
    PackOfBytes64(x);
    [ByteOf64(x, 0), ByteOf64(x, 1), ByteOf64(x, 2), ByteOf64(x, 3),
     ByteOf64(x, 4), ByteOf64(x, 5), ByteOf64(x, 6), ByteOf64(x, 7)]
  }

  lemma PackOfBytes16(x: bv16)
    ensures Pack16(ByteOf16(x, 0), ByteOf16(x, 1)) == x
  {}

  lemma PackOfBytes32(x: bv32)
    ensures Pack32(ByteOf32(x, 0), ByteOf32(x, 1), ByteOf32(x, 2), ByteOf32(x, 3)) == x
  {}

  lemma PackOfBytes64(x: bv64)
    ensures Pack64(ByteOf64(x, 0), ByteOf64(x, 1), ByteOf64(x, 2), ByteOf64(x, 3),
                   ByteOf64(x, 4), ByteOf64(x, 5), ByteOf64(x, 6), ByteOf64(x, 7)) == x
  {}

  lemma BytesOfPack16(b0: bv8, b1: bv8)
    ensures Bytes16(Pack16(b0, b1)) == [b0, b1]
  {}

  lemma BytesOfPack32(b0: bv8, b1: bv8, b2: bv8, b3: bv8)
    ensures Bytes32(Pack32(b0, b1, b2, b3)) == [b0, b1, b2, b3]
  {}

  lemma BytesOfPack64(b0: bv8, b1: bv8, b2: bv8, b3: bv8, b4: bv8, b5: bv8, b6: bv8, b7: bv8)
    ensures Bytes64(Pack64(b0, b1, b2, b3, b4, b5, b6, b7)) == [b0, b1, b2, b3, b4, b5, b6, b7]
  {}

  /**
   * Wrapping (modular) element arithmetic, named so that it can be passed
   * to `Zip` as the operation applied to each pair of elements.
   */
  function Add64(x: bv64, y: bv64): bv64 { x + y }
  function Add32(x: bv32, y: bv32): bv32 { x + y }
  function Add16(x: bv16, y: bv16): bv16 { x + y }
  function Add8(x: bv8, y: bv8): bv8 { x + y }
  function Sub64(x: bv64, y: bv64): bv64 { x - y }
  function Sub32(x: bv32, y: bv32): bv32 { x - y }
  function Sub16(x: bv16, y: bv16): bv16 { x - y }

  /** The element-wise combination of two sequences of the same length. */
  function Zip<T>(x: seq<T>, y: seq<T>, f: (T, T) -> T): (z: seq<T>)
    requires |x| == |y|
    ensures |z| == |x|
    ensures forall i :: 0 <= i < |x| ==> z[i] == f(x[i], y[i])
  {
    seq(|x|, i requires 0 <= i < |x| => f(x[i], y[i]))
  }

  // ---------------------------------------------------------------------
  // Element views of a register
  // ---------------------------------------------------------------------

  /** The eight 16-bit elements, element 0 first. */
  function Lanes16(v: V128): (l: seq<bv16>)
    ensures |l| == 8
  {
    [Pack16(v[0], v[1]), Pack16(v[2], v[3]), Pack16(v[4], v[5]), Pack16(v[6], v[7]),
     Pack16(v[8], v[9]), Pack16(v[10], v[11]), Pack16(v[12], v[13]), Pack16(v[14], v[15])]
  }

  /** The four 32-bit elements, element 0 first. */
  function Lanes32(v: V128): (l: seq<bv32>)
    ensures |l| == 4
  {
    [Pack32(v[0], v[1], v[2], v[3]), Pack32(v[4], v[5], v[6], v[7]),
     Pack32(v[8], v[9], v[10], v[11]), Pack32(v[12], v[13], v[14], v[15])]
  }

  /** The two 64-bit elements, element 0 first. */
  function Lanes64(v: V128): (l: seq<bv64>)
    ensures |l| == 2
  {
    [Pack64(v[0], v[1], v[2], v[3], v[4], v[5], v[6], v[7]),
     Pack64(v[8], v[9], v[10], v[11], v[12], v[13], v[14], v[15])]
  }

  /** The 16-bit elements of a register assembled from 4-byte groups. */
  lemma LanesOfGroups16(a: seq<bv8>, b: seq<bv8>, c: seq<bv8>, d: seq<bv8>)
    requires |a| == |b| == |c| == |d| == 4
    ensures Lanes16(a + b + c + d) ==
      [Pack16(a[0], a[1]), Pack16(a[2], a[3]), Pack16(b[0], b[1]), Pack16(b[2], b[3]),
       Pack16(c[0], c[1]), Pack16(c[2], c[3]), Pack16(d[0], d[1]), Pack16(d[2], d[3])]
  {
    var v := a + b + c + d;
    assert v[0..4] == a && v[4..8] == b && v[8..12] == c && v[12..16] == d;
  }

  /** The register whose 16-bit elements are `l`. */
  function FromLanes16(l: seq<bv16>): (v: V128)
    requires |l| == 8
    ensures Lanes16(v) == l
  {
    var b0, b1, b2, b3 := Bytes16(l[0]), Bytes16(l[1]), Bytes16(l[2]), Bytes16(l[3]);
    var b4, b5, b6, b7 := Bytes16(l[4]), Bytes16(l[5]), Bytes16(l[6]), Bytes16(l[7]);
    LanesOfGroups16(b0 + b1, b2 + b3, b4 + b5, b6 + b7);
    assert l == [l[0], l[1], l[2], l[3], l[4], l[5], l[6], l[7]];
    (b0 + b1) + (b2 + b3) + (b4 + b5) + (b6 + b7)
  }

  /** The 32-bit elements of a register assembled from 4-byte groups. */
  lemma LanesOfGroups32(a: seq<bv8>, b: seq<bv8>, c: seq<bv8>, d: seq<bv8>)
    requires |a| == |b| == |c| == |d| == 4
    ensures Lanes32(a + b + c + d) ==
      [Pack32(a[0], a[1], a[2], a[3]), Pack32(b[0], b[1], b[2], b[3]),
       Pack32(c[0], c[1], c[2], c[3]), Pack32(d[0], d[1], d[2], d[3])]
  {
    var v := a + b + c + d;
    assert v[0..4] == a && v[4..8] == b && v[8..12] == c && v[12..16] == d;
  }

  /** The register whose 32-bit elements are `l`. */
  function FromLanes32(l: seq<bv32>): (v: V128)
    requires |l| == 4
    ensures Lanes32(v) == l
  {
    var b0, b1, b2, b3 := Bytes32(l[0]), Bytes32(l[1]), Bytes32(l[2]), Bytes32(l[3]);
    LanesOfGroups32(b0, b1, b2, b3);
    assert l == [l[0], l[1], l[2], l[3]];
    b0 + b1 + b2 + b3
  }

  /** The register whose 64-bit elements are `l`. */
  function FromLanes64(l: seq<bv64>): (v: V128)
    requires |l| == 2
    ensures Lanes64(v) == l
  {
    var b0, b1 := Bytes64(l[0]), Bytes64(l[1]);
    [b0[0], b0[1], b0[2], b0[3], b0[4], b0[5], b0[6], b0[7],
     b1[0], b1[1], b1[2], b1[3], b1[4], b1[5], b1[6], b1[7]]
  }

  lemma Pack16Injective(a0: bv8, a1: bv8, b0: bv8, b1: bv8)
    requires Pack16(a0, a1) == Pack16(b0, b1)
    ensures a0 == b0 && a1 == b1
  {
    BytesOfPack16(a0, a1);
    BytesOfPack16(b0, b1);
  }

  /** Registers with the same 16-bit elements agree byte by byte. */
  lemma Lanes16Bytewise(a: V128, b: V128)
    requires Lanes16(a) == Lanes16(b)
    ensures forall k :: 0 <= k < 16 ==> a[k] == b[k]
  {
    var la, lb := Lanes16(a), Lanes16(b);
    assert la[0] == lb[0] && la[1] == lb[1] && la[2] == lb[2] && la[3] == lb[3];
    assert la[4] == lb[4] && la[5] == lb[5] && la[6] == lb[6] && la[7] == lb[7];
    Pack16Injective(a[0], a[1], b[0], b[1]); Pack16Injective(a[2], a[3], b[2], b[3]);
    Pack16Injective(a[4], a[5], b[4], b[5]); Pack16Injective(a[6], a[7], b[6], b[7]);
    Pack16Injective(a[8], a[9], b[8], b[9]); Pack16Injective(a[10], a[11], b[10], b[11]);
    Pack16Injective(a[12], a[13], b[12], b[13]); Pack16Injective(a[14], a[15], b[14], b[15]);
  }

  /** A register is determined by its 16-bit elements. */
  lemma LanesRoundTrip16(v: V128)
    ensures FromLanes16(Lanes16(v)) == v
  {
    var w := FromLanes16(Lanes16(v));
    Lanes16Bytewise(w, v);
  }

  /** A register is determined by its 32-bit elements. */
  lemma LanesRoundTrip32(v: V128)
    ensures FromLanes32(Lanes32(v)) == v
  {
    BytesOfPack32(v[0], v[1], v[2], v[3]); BytesOfPack32(v[4], v[5], v[6], v[7]);
    BytesOfPack32(v[8], v[9], v[10], v[11]); BytesOfPack32(v[12], v[13], v[14], v[15]);
  }

  /** A register is determined by its 64-bit elements. */
  lemma LanesRoundTrip64(v: V128)
    ensures FromLanes64(Lanes64(v)) == v
  {
    BytesOfPack64(v[0], v[1], v[2], v[3], v[4], v[5], v[6], v[7]);
    BytesOfPack64(v[8], v[9], v[10], v[11], v[12], v[13], v[14], v[15]);
  }

  lemma Lanes16Injective(a: V128, b: V128)
    requires Lanes16(a) == Lanes16(b)
    ensures a == b
  {
    LanesRoundTrip16(a); LanesRoundTrip16(b);
  }

  lemma Lanes32Injective(a: V128, b: V128)
    requires Lanes32(a) == Lanes32(b)
    ensures a == b
  {
    LanesRoundTrip32(a); LanesRoundTrip32(b);
  }

  lemma Lanes64Injective(a: V128, b: V128)
    requires Lanes64(a) == Lanes64(b)
    ensures a == b
  {
    LanesRoundTrip64(a); LanesRoundTrip64(b);
  }

  // ---------------------------------------------------------------------
  // The bit view
  // ---------------------------------------------------------------------

  /** The byte with only bit j set. */
  function Mask(j: nat): bv8
    requires j < 8
  {
    if j == 0 then 1 else if j == 1 then 2 else if j == 2 then 4 else if j == 3 then 8
    else if j == 4 then 16 else if j == 5 then 32 else if j == 6 then 64 else 128
  }

  /** Bit j of byte b. */
  predicate Bit(b: bv8, j: nat)
    requires j < 8
  {
    b & Mask(j) != 0
  }

  /** The byte whose bits 0..n-1 are s[o..o+n] and whose other bits are clear. */
  function BitsValue(s: seq<bool>, o: nat, n: nat): bv8
    requires n <= 8 && o + n <= |s|
  {
    if n == 0 then 0 else BitsValue(s, o, n - 1) | (if s[o + n - 1] then Mask(n - 1) else 0)
  }

  /** The byte whose bits 0..7 are s[o..o+8]. */
  function ByteOfBits(s: seq<bool>, o: nat): bv8
    requires o + 8 <= |s|
  {
    BitsValue(s, o, 8)
  }

  lemma MaskBit(m: nat, j: nat)
    requires m < 8 && j < 8
    ensures Bit(Mask(m), j) == (m == j) && !Bit(0, j)
  {}

  lemma {:induction false} BitOfBitsValue(s: seq<bool>, o: nat, n: nat, j: nat)
    requires n <= 8 && o + n <= |s| && j < 8
    ensures Bit(BitsValue(s, o, n), j) == (j < n && s[o + j])
  {
    if n > 0 {
      BitOfBitsValue(s, o, n - 1, j);
      BitOr(BitsValue(s, o, n - 1), if s[o + n - 1] then Mask(n - 1) else 0, j);
      MaskBit(n - 1, j);
    } else {
      MaskBit(0, j);
    }
  }

  lemma BitOfByteOfBits(s: seq<bool>, o: nat, j: nat)
    requires o + 8 <= |s| && j < 8
    ensures Bit(ByteOfBits(s, o), j) == s[o + j]
  {
    BitOfBitsValue(s, o, 8, j);
  }

  /** Two bytes with the same eight bits are equal. */
  lemma ByteExt(x: bv8, y: bv8)
    requires Bit(x, 0) == Bit(y, 0) && Bit(x, 1) == Bit(y, 1)
    requires Bit(x, 2) == Bit(y, 2) && Bit(x, 3) == Bit(y, 3)
    requires Bit(x, 4) == Bit(y, 4) && Bit(x, 5) == Bit(y, 5)
    requires Bit(x, 6) == Bit(y, 6) && Bit(x, 7) == Bit(y, 7)
    ensures x == y
  {}

  lemma BitOr(x: bv8, y: bv8, j: nat)
    requires j < 8
    ensures Bit(x | y, j) == (Bit(x, j) || Bit(y, j))
  {}

  /** The 128 bits of a register, least significant first. */
  function Bits(v: V128): (s: seq<bool>)
    ensures |s| == 128
  {
    seq(128, p requires 0 <= p < 128 => Bit(v[p / 8], p % 8))
  }

  /** The register with the given 128 bits. */
  function FromBits(s: seq<bool>): (v: V128)
    requires |s| == 128
    ensures Bits(v) == s
  {
    var v := seq(16, k requires 0 <= k < 16 => ByteOfBits(s, 8 * k));
    assert forall p | 0 <= p < 128 :: Bits(v)[p] == s[p] by {
      forall p | 0 <= p < 128 ensures Bits(v)[p] == s[p] {
        BitOfByteOfBits(s, 8 * (p / 8), p % 8);
      }
    }
    v
  }

  lemma BitIndex(k: nat, j: nat)
    requires k < 16 && j < 8
    ensures (8 * k + j) / 8 == k && (8 * k + j) % 8 == j
  {}

  /** Bit 8k + j of a register is bit j of its byte k. */
  lemma BitOfRegister(v: V128, k: nat, j: nat)
    requires k < 16 && j < 8
    ensures Bits(v)[8 * k + j] == Bit(v[k], j)
  {
    BitIndex(k, j);
  }

  lemma SameBitsSameByte(a: V128, b: V128, k: nat)
    requires Bits(a) == Bits(b) && k < 16
    ensures a[k] == b[k]
  {
    BitOfRegister(a, k, 0); BitOfRegister(a, k, 1); BitOfRegister(a, k, 2); BitOfRegister(a, k, 3);
    BitOfRegister(a, k, 4); BitOfRegister(a, k, 5); BitOfRegister(a, k, 6); BitOfRegister(a, k, 7);
    BitOfRegister(b, k, 0); BitOfRegister(b, k, 1); BitOfRegister(b, k, 2); BitOfRegister(b, k, 3);
    BitOfRegister(b, k, 4); BitOfRegister(b, k, 5); BitOfRegister(b, k, 6); BitOfRegister(b, k, 7);
    ByteExt(a[k], b[k]);
  }

  /** A register is determined by its bits. */
  lemma BitsInjective(a: V128, b: V128)
    requires Bits(a) == Bits(b)
    ensures a == b
  {
    forall k | 0 <= k < 16 ensures a[k] == b[k] {
      SameBitsSameByte(a, b, k);
    }
  }

  /** The element widths, in bits, that the lane instructions work on. */
  predicate Width(w: nat)
  {
    w == 16 || w == 32 || w == 64
  }

  /** The number of w-bit elements in a register. */
  function ElementCount(w: nat): nat
    requires Width(w)
  {
    if w == 16 then 8 else if w == 32 then 4 else 2
  }

  /** The register bit holding bit 0 of w-bit element i. */
  function Base(w: nat, i: nat): nat
    requires Width(w)
  {
    if w == 16 then 16 * i else if w == 32 then 32 * i else 64 * i
  }

  /** The w-bit element holding register bit p. */
  function Element(w: nat, p: nat): nat
    requires Width(w)
  {
    if w == 16 then p / 16 else if w == 32 then p / 32 else p / 64
  }

  /** The position of register bit p inside its w-bit element. */
  function Offset(w: nat, p: nat): nat
    requires Width(w)
  {
    if w == 16 then p % 16 else if w == 32 then p % 32 else p % 64
  }

  /** The bit positions of element i lie inside the register. */
  lemma LaneRange(w: nat, i: nat)
    requires Width(w) && i < ElementCount(w)
    ensures Base(w, i) + w <= 128
  {}

  /** Bit j of element i is register bit Base(w, i) + j. */
  lemma LaneIndex(w: nat, i: nat, j: nat)
    requires Width(w) && i < ElementCount(w) && j < w
    ensures Base(w, i) + w <= 128
    ensures Offset(w, Base(w, i) + j) == j && Element(w, Base(w, i) + j) == i
  {}

  /** Every register bit is bit Offset(w, p) of element Element(w, p). */
  lemma LaneOf(w: nat, p: nat)
    requires Width(w) && p < 128
    ensures Element(w, p) < ElementCount(w) && Offset(w, p) < w
    ensures Base(w, Element(w, p)) + Offset(w, p) == p
  {}

  /** The bits of the i-th w-bit element, least significant first. */
  function LaneBits(v: V128, w: nat, i: nat): (s: seq<bool>)
    requires Width(w) && i < ElementCount(w)
    ensures |s| == w && Base(w, i) + w <= 128
    ensures forall j :: 0 <= j < w ==> s[j] == Bits(v)[Base(w, i) + j]
  {
    LaneRange(w, i);
    Bits(v)[Base(w, i) .. Base(w, i) + w]
  }

  /** A register is determined by the bits of its w-bit elements. */
  lemma LaneBitsInjective(a: V128, b: V128, w: nat)
    requires Width(w)
    requires forall i :: 0 <= i < ElementCount(w) ==> LaneBits(a, w, i) == LaneBits(b, w, i)
    ensures a == b
  {
    forall p | 0 <= p < 128 ensures Bits(a)[p] == Bits(b)[p] {
      LaneOf(w, p);
      var i := Element(w, p);
      LaneRange(w, i);
      assert LaneBits(a, w, i)[Offset(w, p)] == LaneBits(b, w, i)[Offset(w, p)];
    }
    BitsInjective(a, b);
  }

  // ---------------------------------------------------------------------
  // Reference operations on sequences
  // ---------------------------------------------------------------------

  /**
   * Rotation of a little-endian sequence towards index 0 by c places:
   * rotating the bits of a word right by c, or the bytes of a wide value
   * right by c bytes.
   */
  function RotR<T>(s: seq<T>, c: nat): (r: seq<T>)
    requires c <= |s|
    ensures |r| == |s|
    ensures forall k :: 0 <= k < |s| ==> r[k] == if k + c < |s| then s[k + c] else s[k + c - |s|]
  {
    s[c..] + s[..c]
  }

  /** Rotation away from index 0 by c places (a left rotation of a word). */
  function RotL<T>(s: seq<T>, c: nat): (r: seq<T>)
    requires c <= |s|
    ensures |r| == |s|
    ensures forall k :: 0 <= k < |s| ==> r[k] == if k >= c then s[k - c] else s[k - c + |s|]
  {
    s[|s| - c..] + s[..|s| - c]
  }

  /** Rotating left undoes rotating right by the same count. */
  lemma RotLRotR<T>(s: seq<T>, c: nat)
    requires c <= |s|
    ensures RotL(RotR(s, c), c) == s
  {
    var r := RotL(RotR(s, c), c);
    forall k | 0 <= k < |s| ensures r[k] == s[k] {
      if k >= c {
        assert r[k] == RotR(s, c)[k - c];
      } else {
        assert r[k] == RotR(s, c)[k - c + |s|];
      }
    }
  }

  /** Rotating right undoes rotating left by the same count. */
  lemma RotRRotL<T>(s: seq<T>, c: nat)
    requires c <= |s|
    ensures RotR(RotL(s, c), c) == s
  {
    var r := RotR(RotL(s, c), c);
    forall k | 0 <= k < |s| ensures r[k] == s[k] {
      if k + c < |s| {
        assert r[k] == RotL(s, c)[k + c];
      } else {
        assert r[k] == RotL(s, c)[k + c - |s|];
      }
    }
  }

  /** The bits of a word shifted towards bit 0 by c places, zeros coming in (logical right shift). */
  function ShrBits(s: seq<bool>, c: nat): (r: seq<bool>)
    ensures |r| == |s|
  {
    seq(|s|, j requires 0 <= j < |s| => j + c < |s| && s[j + c])
  }

  /** The bits of a word shifted away from bit 0 by c places, zeros coming in (left shift). */
  function ShlBits(s: seq<bool>, c: nat): (r: seq<bool>)
    ensures |r| == |s|
  {
    seq(|s|, j requires 0 <= j < |s| => j >= c && s[j - c])
  }

  function OrBits(a: seq<bool>, b: seq<bool>): (r: seq<bool>)
    requires |a| == |b|
    ensures |r| == |a|
  {
    seq(|a|, j requires 0 <= j < |a| => a[j] || b[j])
  }

  /** A right rotation is the OR of a right shift by c and a left shift by the word size less c. */
  lemma RotRByShifts(s: seq<bool>, c: nat)
    requires c <= |s|
    ensures OrBits(ShrBits(s, c), ShlBits(s, |s| - c)) == RotR(s, c)
  {
    var r := OrBits(ShrBits(s, c), ShlBits(s, |s| - c));
    forall j | 0 <= j < |s| ensures r[j] == RotR(s, c)[j] {
      if j + c < |s| {
        assert ShrBits(s, c)[j] == s[j + c];
        assert !ShlBits(s, |s| - c)[j];
      } else {
        assert !ShrBits(s, c)[j];
        assert ShlBits(s, |s| - c)[j] == s[j + c - |s|];
      }
    }
  }

  /** A left rotation is the OR of a left shift by c and a right shift by the word size less c. */
  lemma RotLByShifts(s: seq<bool>, c: nat)
    requires c <= |s|
    ensures OrBits(ShlBits(s, c), ShrBits(s, |s| - c)) == RotL(s, c)
  {
    var r := OrBits(ShlBits(s, c), ShrBits(s, |s| - c));
    forall j | 0 <= j < |s| ensures r[j] == RotL(s, c)[j] {
      if j >= c {
        assert ShlBits(s, c)[j] == s[j - c];
        assert !ShrBits(s, |s| - c)[j];
      } else {
        assert !ShlBits(s, c)[j];
        assert ShrBits(s, |s| - c)[j] == s[j - c + |s|];
      }
    }
  }

  /** The elements of s in reverse order. */
  function Rev<T>(s: seq<T>): (r: seq<T>)
    ensures |r| == |s|
    ensures forall k :: 0 <= k < |s| ==> r[k] == s[|s| - 1 - k]
  {
    seq(|s|, k requires 0 <= k < |s| => s[|s| - 1 - k])
  }

  lemma RevRev<T>(s: seq<T>)
    ensures Rev(Rev(s)) == s
  {}

  /**
   * The register with the bytes of each 16-, 32- or 64-bit element
   * reversed (the byte order of every element swapped): byte k of the
   * result is the byte at the mirrored position inside the same element.
   */
  function ReverseEach16(v: V128): (r: V128)
    ensures forall k :: 0 <= k < 16 ==> r[k] == v[k - k % 2 + (1 - k % 2)]
  {
    seq(16, k requires 0 <= k < 16 => v[k - k % 2 + (1 - k % 2)])
  }

  function ReverseEach32(v: V128): (r: V128)
    ensures forall k :: 0 <= k < 16 ==> r[k] == v[k - k % 4 + (3 - k % 4)]
  {
    seq(16, k requires 0 <= k < 16 => v[k - k % 4 + (3 - k % 4)])
  }

  function ReverseEach64(v: V128): (r: V128)
    ensures forall k :: 0 <= k < 16 ==> r[k] == v[k - k % 8 + (7 - k % 8)]
  {
    seq(16, k requires 0 <= k < 16 => v[k - k % 8 + (7 - k % 8)])
  }

  /** Mirroring a byte position inside its element twice gives it back. */
  lemma MirrorTwice(k: nat, n: nat)
    requires k < 16 && (n == 2 || n == 4 || n == 8)
    ensures var m := k - k % n + (n - 1 - k % n); 0 <= m < 16 && m - m % n + (n - 1 - m % n) == k
  {
    var q, r := k / n, k % n;
    assert k == q * n + r && 0 <= r < n;
    var m := q * n + (n - 1 - r);
    assert m / n == q && m % n == n - 1 - r;
  }

  /** Reversing the bytes of every element twice gives the register back. */
  lemma ReverseEach16Involution(v: V128)
    ensures ReverseEach16(ReverseEach16(v)) == v
  {
    forall k | 0 <= k < 16 ensures ReverseEach16(ReverseEach16(v))[k] == v[k] {
      MirrorTwice(k, 2);
    }
  }

  lemma ReverseEach32Involution(v: V128)
    ensures ReverseEach32(ReverseEach32(v)) == v
  {
    forall k | 0 <= k < 16 ensures ReverseEach32(ReverseEach32(v))[k] == v[k] {
      MirrorTwice(k, 4);
    }
  }

  lemma ReverseEach64Involution(v: V128)
    ensures ReverseEach64(ReverseEach64(v)) == v
  {
    forall k | 0 <= k < 16 ensures ReverseEach64(ReverseEach64(v))[k] == v[k] {
      MirrorTwice(k, 8);
    }
  }
}
