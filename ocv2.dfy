/**
 * The ocv2 nonce search (algo/ocv2/ocv2.c): the block header is encoded
 * big endian once, then consecutive nonces are hashed, each digest gets a
 * quick check of its top word against the target and, when that passes, a
 * full 256-bit test; the search stops at the first winning nonce, at the
 * nonce bound, or when the restart flag is seen.
 *
 * The hash (ocv2_init_image followed by ocv2_calculate_hash), fulltest and
 * the restart flag are parameters: the hash is a function of the header the
 * image was initialised from and the header being hashed, and restart(i) is
 * the flag as read at the end of iteration i (counting from 0).
 */
module Ocv2 {
  import opened AlgoGate

  /** An unsigned 32-bit word (uint32_t) and a byte. */
  type u32 = x: int | 0 <= x < 0x1_0000_0000
  type u8 = x: int | 0 <= x < 0x100

  /** A 256-bit digest or target as eight 32-bit words, word 7 most significant. */
  type Words8 = s: seq<u32> | |s| == 8 witness [0, 0, 0, 0, 0, 0, 0, 0]

  // ---------------------------------------------------------------------
  // Byte order
  // ---------------------------------------------------------------------

  /** The word with bytes b0 (least significant) to b3. */
  function Pack(b0: u8, b1: u8, b2: u8, b3: u8): u32
  {
    b0 + 0x100 * (b1 + 0x100 * (b2 + 0x100 * b3))
  }

  /** Byte k of a word, byte 0 least significant. */
  function ByteOf(x: u32, k: nat): u8
    requires k < 4
  {
    if k == 0 then x % 0x100
    else if k == 1 then x / 0x100 % 0x100
    else if k == 2 then x / 0x100 / 0x100 % 0x100
    else x / 0x100 / 0x100 / 0x100
  }

  /** One step of base-256 digits: low digit and the rest. */
  lemma DigitStep(b: int, y: int)
    requires 0 <= b < 0x100 && 0 <= y
    ensures (b + 0x100 * y) / 0x100 == y && (b + 0x100 * y) % 0x100 == b
  {}

  lemma SplitDigit(x: int)
    requires 0 <= x
    ensures x == x % 0x100 + 0x100 * (x / 0x100) && 0 <= x % 0x100 < 0x100
  {}

  lemma PackBytes(x: u32)
    ensures Pack(ByteOf(x, 0), ByteOf(x, 1), ByteOf(x, 2), ByteOf(x, 3)) == x
  {
    var q1 := x / 0x100;
    var q2 := q1 / 0x100;
    SplitDigit(x);
    SplitDigit(q1);
    SplitDigit(q2);
  }

  lemma BytesOfPack(b0: u8, b1: u8, b2: u8, b3: u8)
    ensures var x := Pack(b0, b1, b2, b3);
      ByteOf(x, 0) == b0 && ByteOf(x, 1) == b1 && ByteOf(x, 2) == b2 && ByteOf(x, 3) == b3
  {
    var y2 := b2 + 0x100 * b3;
    var y1 := b1 + 0x100 * y2;
    DigitStep(b0, y1);
    DigitStep(b1, y2);
    DigitStep(b2, b3);
  }

  /** swab32: the four bytes of the word in the opposite order. */
  function Swab32(x: u32): (r: u32)
    ensures ByteOf(r, 0) == ByteOf(x, 3) && ByteOf(r, 1) == ByteOf(x, 2)
    ensures ByteOf(r, 2) == ByteOf(x, 1) && ByteOf(r, 3) == ByteOf(x, 0)
  {
    BytesOfPack(ByteOf(x, 3), ByteOf(x, 2), ByteOf(x, 1), ByteOf(x, 0));
    Pack(ByteOf(x, 3), ByteOf(x, 2), ByteOf(x, 1), ByteOf(x, 0))
  }

  lemma Swab32Involution(x: u32)
    ensures Swab32(Swab32(x)) == x
  {
    PackBytes(x);
  }

  /** be32enc: the word as four bytes, most significant first. */
  function Be32Enc(x: u32): (b: seq<u8>)
    ensures |b| == 4
    ensures b[0] == ByteOf(x, 3) && b[1] == ByteOf(x, 2) && b[2] == ByteOf(x, 1) && b[3] == ByteOf(x, 0)
  {
    [ByteOf(x, 3), ByteOf(x, 2), ByteOf(x, 1), ByteOf(x, 0)]
  }

  /** The word stored big endian in four bytes. */
  function Be32Dec(b: seq<u8>): u32
    requires |b| == 4
  {
    Pack(b[3], b[2], b[1], b[0])
  }

  lemma Be32DecEnc(x: u32)
    ensures Be32Dec(Be32Enc(x)) == x
  {
    PackBytes(x);
  }

  lemma Be32EncDec(b: seq<u8>)
    requires |b| == 4
    ensures Be32Enc(Be32Dec(b)) == b
  {
    BytesOfPack(b[3], b[2], b[1], b[0]);
  }

  // ---------------------------------------------------------------------
  // The header and the digest
  // ---------------------------------------------------------------------

  /** Header words encoded big endian one after the other. */
  function EncodeWords(ws: seq<u32>): (b: seq<u8>)
    ensures |b| == 4 * |ws|
    ensures forall i :: 0 <= i < |ws| ==> b[4 * i .. 4 * i + 4] == Be32Enc(ws[i])
  {
    if |ws| == 0 then []
    else
      var rest := EncodeWords(ws[1..]);
      var b := Be32Enc(ws[0]) + rest;
      assert forall i :: 1 <= i < |ws| ==> b[4 * i .. 4 * i + 4] == rest[4 * (i - 1) .. 4 * (i - 1) + 4];
      b
  }

  /** Big-endian byte string read back as words. */
  function DecodeWords(b: seq<u8>): (ws: seq<u32>)
    requires |b| % 4 == 0
    ensures |ws| == |b| / 4
  {
    if |b| == 0 then [] else [Be32Dec(b[..4])] + DecodeWords(b[4..])
  }

  /** Decoding the encoded header words gives the words back. */
  lemma {:induction false} DecodeEncodeWords(ws: seq<u32>)
    ensures DecodeWords(EncodeWords(ws)) == ws
  {
    if |ws| > 0 {
      var b := EncodeWords(ws);
      assert b[..4] == Be32Enc(ws[0]);
      assert b[4..] == EncodeWords(ws[1..]);
      Be32DecEnc(ws[0]);
      DecodeEncodeWords(ws[1..]);
    }
  }

  /** Encoding the decoded words gives the byte string back. */
  lemma {:induction false} EncodeDecodeWords(b: seq<u8>)
    requires |b| % 4 == 0
    ensures EncodeWords(DecodeWords(b)) == b
  {
    if |b| > 0 {
      Be32EncDec(b[..4]);
      EncodeDecodeWords(b[4..]);
      assert DecodeWords(b)[1..] == DecodeWords(b[4..]);
      assert b == b[..4] + b[4..];
    }
  }

  /**
   * endian_blockheader: header words 0..18 of the work data and the nonce
   * as word 19, each encoded big endian; 80 bytes.
   */
  function EncodeHeader(data: seq<u32>, nonce: u32): (h: seq<u8>)
    requires |data| >= 19
    ensures |h| == 80
    ensures forall i :: 0 <= i < 19 ==> h[4 * i .. 4 * i + 4] == Be32Enc(data[i])
    ensures h[76..] == Be32Enc(nonce)
  {
    var words := EncodeWords(data[..19]);
    PrefixGroups(words, Be32Enc(nonce));
    words + Be32Enc(nonce)
  }

  /** Appending bytes leaves the 4-byte groups of a byte string where they were. */
  lemma PrefixGroups(a: seq<u8>, b: seq<u8>)
    requires |a| % 4 == 0
    ensures forall i :: 0 <= i < |a| / 4 ==> (a + b)[4 * i .. 4 * i + 4] == a[4 * i .. 4 * i + 4]
  {
    forall i | 0 <= i < |a| / 4
      ensures (a + b)[4 * i .. 4 * i + 4] == a[4 * i .. 4 * i + 4]
    {
      assert 4 * i + 4 <= |a|;
    }
  }

  /** Two nonces give headers that differ in the nonce bytes only. */
  lemma HeaderNonceOnly(data: seq<u32>, a: u32, b: u32)
    requires |data| >= 19
    ensures EncodeHeader(data, a)[..76] == EncodeHeader(data, b)[..76]
    ensures EncodeHeader(data, a) == EncodeHeader(data, b) <==> a == b
  {
    if EncodeHeader(data, a) == EncodeHeader(data, b) {
      Be32DecEnc(a);
      Be32DecEnc(b);
    }
  }

  /** Re-encoding word 19 of a header built for one nonce gives the header for another. */
  lemma SetNonce(data: seq<u32>, first: u32, header: seq<u8>, n: u32)
    requires |data| >= 19 && |header| == 80 && header[..76] == EncodeHeader(data, first)[..76]
    ensures header[..76] + Be32Enc(n) == EncodeHeader(data, n)
  {
    var e := EncodeHeader(data, n);
    HeaderNonceOnly(data, first, n);
    assert e == e[..76] + e[76..];
  }

  /** reversed_hash: the digest words in reverse order, each byte swapped. */
  function ReverseDigest(h: Words8): (r: Words8)
    ensures forall i :: 0 <= i < 8 ==> r[i] == Swab32(h[7 - i])
  {
    seq(8, i requires 0 <= i < 8 => Swab32(h[7 - i]))
  }

  lemma ReverseDigestInvolution(h: Words8)
    ensures ReverseDigest(ReverseDigest(h)) == h
  {
    forall i | 0 <= i < 8 ensures ReverseDigest(ReverseDigest(h))[i] == h[i] {
      Swab32Involution(h[i]);
    }
  }

  /** The quick check: the byte-swapped first digest word against target word 7 (unsigned). */
  predicate QuickCheck(h: Words8, target: Words8)
  {
    Swab32(h[0]) <= target[7]
  }

  /** The quick check compares the most significant word of the reversed digest with that of the target. */
  lemma QuickCheckIsTopWord(h: Words8, target: Words8)
    ensures QuickCheck(h, target) <==> ReverseDigest(h)[7] <= target[7]
  {}

  // ---------------------------------------------------------------------
  // The search
  // ---------------------------------------------------------------------

  /** The opaque parts of the search: the hash and the full target test. */
  datatype Oracles = Oracles(hash: (seq<u8>, seq<u8>) -> Words8, fulltest: (Words8, Words8) -> bool)

  /**
   * Nonce wins: its digest passes the quick check and then fulltest on the
   * reversed digest. The image is initialised from the header carrying the
   * first nonce of the search.
   */
  predicate Wins(o: Oracles, data: seq<u32>, target: Words8, first: u32, nonce: u32)
    requires |data| >= 19
  {
    var h := o.hash(EncodeHeader(data, first), EncodeHeader(data, nonce));
    QuickCheck(h, target) && o.fulltest(ReverseDigest(h), target)
  }

  /**
   * The number of nonces from first to last inclusive: the count of hashes
   * done, at least one. unsigned long holds it without loss.
   */
  function HashesDone(first: u32, last: u32): (c: nat)
    requires first <= last
    ensures c >= 1 && first + c - 1 == last
  {
    last - first + 1
  }

  /**
   * The count as the source computes it: in unsigned 32-bit arithmetic,
   * then widened to unsigned long.
   */
  function HashesDoneAsWritten(first: u32, last: u32): (c: u32)
    ensures first <= last ==> c == HashesDone(first, last) % 0x1_0000_0000
  {
    (last - first + 1) % 0x1_0000_0000
  }

  /** A search over every nonce reports zero hashes in the source's arithmetic. */
  lemma HashesDoneFullRange()
    ensures HashesDoneAsWritten(0, 0xFFFF_FFFF) == 0
    ensures HashesDone(0, 0xFFFF_FFFF) == 0x1_0000_0000
  {}

  /**
   * The outcome of a search that started at `first` and last hashed `last`:
   * every nonce before `last` lost and let the loop go on, `last` won
   * exactly when `found`, and a search that did not find stopped at `last`
   * for the bound or the restart flag. restart(i) is the flag as read at
   * the end of iteration i, the one that hashed first + i.
   */
  ghost predicate Continues(o: Oracles, data: seq<u32>, target: Words8, maxNonce: u32,
                            restart: nat -> bool, first: u32, m: u32)
    requires |data| >= 19 && first <= m
  {
    !Wins(o, data, target, first, m) && m < maxNonce && !restart(m - first)
  }

  /** Every nonce from first up to, not including, last lost and let the search go on. */
  ghost predicate ContinuedBelow(o: Oracles, data: seq<u32>, target: Words8, maxNonce: u32,
                                 restart: nat -> bool, first: u32, last: int)
    requires |data| >= 19
  {
    forall m: u32 :: first <= m < last ==> Continues(o, data, target, maxNonce, restart, first, m)
  }

  lemma ContinuedBelowExtend(o: Oracles, data: seq<u32>, target: Words8, maxNonce: u32,
                             restart: nat -> bool, first: u32, last: u32)
    requires |data| >= 19 && first <= last
    requires ContinuedBelow(o, data, target, maxNonce, restart, first, last)
    requires Continues(o, data, target, maxNonce, restart, first, last)
    ensures ContinuedBelow(o, data, target, maxNonce, restart, first, last + 1)
  {}

  ghost predicate ScanOutcome(o: Oracles, data: seq<u32>, target: Words8, maxNonce: u32,
                              restart: nat -> bool, first: u32, last: u32, found: bool)
    requires |data| >= 19
  {
    first <= last &&
    ContinuedBelow(o, data, target, maxNonce, restart, first, last) &&
    (found <==> Wins(o, data, target, first, last)) &&
    (!found ==> last >= maxNonce || restart(last - first))
  }

  /** Every nonce the search went past let it continue. */
  lemma ContinuedBefore(o: Oracles, data: seq<u32>, target: Words8, maxNonce: u32, restart: nat -> bool,
                        first: u32, last: u32, found: bool, m: u32)
    requires |data| >= 19
    requires ScanOutcome(o, data, target, maxNonce, restart, first, last, found)
    requires first <= m < last
    ensures !Wins(o, data, target, first, m) && m < maxNonce && !restart(m - first)
  {
    assert Continues(o, data, target, maxNonce, restart, first, m);
  }

  /** The outcome determines where the search ends: the first nonce that wins or stops the loop. */
  lemma ScanOutcomeUnique(o: Oracles, data: seq<u32>, target: Words8, maxNonce: u32, restart: nat -> bool,
                          first: u32, last1: u32, found1: bool, last2: u32, found2: bool)
    requires |data| >= 19
    requires ScanOutcome(o, data, target, maxNonce, restart, first, last1, found1)
    requires ScanOutcome(o, data, target, maxNonce, restart, first, last2, found2)
    ensures last1 == last2 && found1 == found2
  {
    if last1 < last2 {
      ContinuedBefore(o, data, target, maxNonce, restart, first, last2, found2, last1);
    } else if last2 < last1 {
      ContinuedBefore(o, data, target, maxNonce, restart, first, last1, found1, last2);
    }
  }

  /** A search that went past its first nonce found that nonce below the bound and no restart. */
  lemma FirstNonceContinues(o: Oracles, data: seq<u32>, target: Words8, maxNonce: u32, restart: nat -> bool,
                            first: u32, last: u32, found: bool)
    requires |data| >= 19
    requires ScanOutcome(o, data, target, maxNonce, restart, first, last, found)
    ensures first < last ==> first < maxNonce && !restart(0)
  {
    if first < last {
      assert Continues(o, data, target, maxNonce, restart, first, first);
    }
  }

  /** A flag already set when the search starts still lets exactly one nonce be hashed. */
  lemma RestartBeforeStart(o: Oracles, data: seq<u32>, target: Words8, maxNonce: u32, restart: nat -> bool,
                           first: u32, last: u32, found: bool)
    requires |data| >= 19 && restart(0)
    requires ScanOutcome(o, data, target, maxNonce, restart, first, last, found)
    ensures last == first && HashesDone(first, last) == 1
  {
    FirstNonceContinues(o, data, target, maxNonce, restart, first, last, found);
  }

  /** A bound at or below the first nonce still lets exactly one nonce be hashed. */
  lemma BoundBeforeStart(o: Oracles, data: seq<u32>, target: Words8, maxNonce: u32, restart: nat -> bool,
                         first: u32, last: u32, found: bool)
    requires |data| >= 19 && maxNonce <= first
    requires ScanOutcome(o, data, target, maxNonce, restart, first, last, found)
    ensures last == first && HashesDone(first, last) == 1
  {
    FirstNonceContinues(o, data, target, maxNonce, restart, first, last, found);
  }

  /**
   * One pass of the loop body after the header is set: hash, the quick
   * check (recording the nonce in pdata[19] when it passes) and the full
   * test on the reversed digest.
   */
  method TestNonce(pdata: array<u32>, image: seq<u8>, header: seq<u8>, n: u32, htarg: u32,
                   target: Words8, o: Oracles) returns (win: bool)
    requires pdata.Length >= 20 && htarg == target[7]
    modifies pdata
    ensures var h := o.hash(image, header);
      (win <==> QuickCheck(h, target) && o.fulltest(ReverseDigest(h), target)) &&
      pdata[19] == (if QuickCheck(h, target) then n else old(pdata[19]))
    ensures pdata[..19] == old(pdata[..19]) && pdata[20..] == old(pdata[20..])
  {
    var h := o.hash(image, header);
    win := false;
    if Swab32(h[0]) <= htarg {
      pdata[19] := n;
      var reversed := ReverseDigest(h);
      if o.fulltest(reversed, target) {
        win := true;
      }
    }
  }

  /**
   * scanhash_ocv2: search from the nonce in pdata[19]; on return pdata[19]
   * holds the last nonce hashed (the winner when one is found) and the
   * count of hashes done is returned with the verdict.
   */
  method ScanhashOcv2(pdata: array<u32>, ptarget: array<u32>, maxNonce: u32,
                      o: Oracles, restart: nat -> bool) returns (found: bool, hashesDone: nat)
    requires pdata.Length >= 20 && ptarget.Length >= 8 && pdata != ptarget
    modifies pdata
    ensures old(pdata[19]) <= pdata[19] && hashesDone == HashesDone(old(pdata[19]), pdata[19])
    ensures ScanOutcome(o, old(pdata[..19]), ptarget[..8], maxNonce, restart, old(pdata[19]), pdata[19], found)
    ensures pdata[..19] == old(pdata[..19]) && pdata[20..] == old(pdata[20..])
  {
    ghost var data := pdata[..19];
    var target: Words8 := ptarget[..8];
    var htarg := ptarget[7];
    var first := pdata[19];
    var n: u32 := if first == 0 then 0xFFFF_FFFF else first - 1;  // uint32_t wraps
    var header := EncodeHeader(pdata[..19], first);
    var image := header;
    var started := false;
    while true
      invariant pdata[..19] == data && pdata[20..] == old(pdata[20..])
      invariant target == ptarget[..8] && htarg == target[7] && image == EncodeHeader(data, first)
      invariant !started ==> n == if first == 0 then 0xFFFF_FFFF else first - 1
      invariant started ==> first <= n < maxNonce && !restart(n - first)
      invariant started ==> ContinuedBelow(o, data, target, maxNonce, restart, first, n + 1)
      invariant |header| == 80 && header[..76] == EncodeHeader(data, first)[..76]
      decreases !started, maxNonce - n
    {
      ghost var before := n;
      ghost var wasStarted := started;
      n := if n == 0xFFFF_FFFF then 0 else n + 1;  // uint32_t wraps
      assert first <= n && (wasStarted ==> n == before + 1) && (!wasStarted ==> n == first);
      assert ContinuedBelow(o, data, target, maxNonce, restart, first, n);
      started := true;
      SetNonce(data, first, header, n);
      header := header[..76] + Be32Enc(n);
      var win := TestNonce(pdata, image, header, n, htarg, target, o);
      if win {
        hashesDone := HashesDone(first, n);
        found := true;
        assert ScanOutcome(o, data, target, maxNonce, restart, first, n, true);
        return;
      }
      if !(n < maxNonce && !restart(n - first)) {
        break;
      }
      assert Continues(o, data, target, maxNonce, restart, first, n);
      ContinuedBelowExtend(o, data, target, maxNonce, restart, first, n);
    }
    hashesDone := HashesDone(first, n);
    pdata[19] := n;
    found := false;
    assert pdata[..19] == data;
    assert ScanOutcome(o, data, target, maxNonce, restart, first, n, false);
  }

  /** register_ocv2_algo: binds the search and sets the flags; the hash field is left alone. */
  method RegisterOcv2(gate: Gate) returns (ok: bool)
    modifies gate
    ensures ok
    ensures gate.scanhash == ScanFn.ScanhashOcv2
    ensures gate.optimizations == {Sse2Opt, AesOpt, Avx2Opt, Avx512Opt}
    ensures gate.hash == old(gate.hash)
    ensures gate.threadInit == old(gate.threadInit)
  {
    gate.optimizations := {Sse2Opt, AesOpt, Avx2Opt, Avx512Opt};
    gate.scanhash := ScanFn.ScanhashOcv2;
    return true;
  }
}
