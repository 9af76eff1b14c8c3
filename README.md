# cpuminer-opt-kudaraidee core, modelled in Dafny

The model covers four parts of the miner.

- **The 128-bit SIMD helper layer** (`simd-utils/simd-128.h`). This covers:
  - moves between general registers and XMM registers;
  - the pseudo constants;
  - bitwise complement and element negation;
  - clearing of masked 32-bit elements;
  - four-operand add and XOR trees;
  - per-element and whole-register rotations;
  - the byte swaps, each in its SSSE3 and SSE2 forms;
  - the whole-register bit tests;
  - the array helpers `memset_zero_128`, `memset_128`, `memcpy_128` and the block byte swaps;
  - the 256-bit register-pair swap and rotations.
- **The ocv2 nonce search** (`algo/ocv2/ocv2.c`). The header is encoded big endian, then consecutive nonces are hashed. The search stops at the first nonce that passes both the quick top-word check and the full target test, at the nonce bound, or when the restart flag is seen. The model also covers the hash count and the algorithm registration.
- **The Cosanta hash** (`algo/cosanta/cosa.c`). Sixteen 512-bit stages run in a fixed order over one buffer, then HAVAL-256, GOST-512 and Lyra2Z finish the digest. The model also covers the per-thread Lyra2Z matrix allocation, the registration in `algo/cosanta/cosa-gate.c`, and a thread's start-up through the gate's thread hook.
- **The hash0x10 gate** (`algo/x11/hash0x10-gate.h`, `.c`). It chooses the 8-way, 4-way or scalar tier at compile time from the CPU features. Registration initialises the chosen tier's context and binds its hash and nonce search.

## Project layout

- `vec128.dfy` (module `Vec128`): a 128-bit register (`V128`) as 16 bytes, byte 0 least significant. It has three views of the register:
  - the packed 16-, 32- and 64-bit elements (`Lanes16`, `Lanes32`, `Lanes64`);
  - the bytes themselves;
  - a 128-entry bit view (`Bits`).

  Round-trip and injectivity lemmas connect the views. Sequence rotations `RotR` and `RotL` are defined here.
- `sse.dfy` (module `Sse`): the SSE2, SSSE3 and SSE4.1 instructions the macros are built from, as functions on `V128`. They follow Intel's definitions of PAND, POR, PXOR, PADD*, PSUB*, PCMPEQD, PCMPEQQ, PSRL*, PSLL*, PALIGNR, PSHUFD, PSHUFLW, PSHUFHW, PSHUFB, MOVQ, MOVD, PINSRQ, INSERTPS and PTEST.
- `simd128.dfy`, `simd128_test.dfy`, `simd128_mem.dfy`, `simd128_pair.dfy`: the macros of `simd-128.h`. Where the header gives one definition per instruction-set tier, each tier is its own member. A lemma states that the tiers agree, or a finding shows where they do not.
- `gate.dfy` (module `AlgoGate`): the fields of `algo_gate_t` that the registrations write. Function pointers are names.
- `ocv2.dfy`, `cosa.dfy`, `cosa_gate.dfy`, `hash0x10_gate.dfy`: the algorithms and their registrations.

Some things the model cannot see are parameters:
- hash primitives (Blake-512 … SHA-512, HAVAL, GOST, Lyra2Z, the ocv2 image hash);
- `fulltest`;
- the restart flag;
- the allocator's verdict;
- the uninitialised register behind `m128_neg1`.

Wrapping arithmetic is written out per element width. Integer widths are subset types or bit-vectors.

Two behaviours of the code the model keeps:
- the ocv2 search hashes at least one nonce even when the first nonce is already at the bound, because the loop is a `do … while`;
- the quick check accepts a top word equal to the target's (`<=`).

`ScanhashOcv2` also requires that the header and the target are different arrays, as they are in `struct work`.

## Model

| member | source | states |
|---|---|---|
| Simd128.Mov64To128 | simd-utils/simd-128.h:40-49 | the 64-bit value lands in element 0 and the upper 64 bits are zero |
| Simd128.Mov32To128 | simd-utils/simd-128.h:51-60 | the 32-bit value lands in element 0 and the upper 96 bits are zero |
| Simd128.Mov128To64 | simd-utils/simd-128.h:62-71 | the result is 64-bit element 0 of the register |
| Simd128.Mov128To32 | simd-utils/simd-128.h:73-82 | the result is 32-bit element 0 of the register |
| Simd128.MovRoundTrip64 | simd-utils/simd-128.h:40-71 | moving a 64-bit value into a register and back returns it |
| Simd128.MovRoundTrip32 | simd-utils/simd-128.h:51-82 | moving a 32-bit value into a register and back returns it |
| Simd128.Broadcast64 | simd-utils/simd-128.h:116 | PSHUFD with control 0x44 copies 64-bit element 0 into both elements |
| Simd128.ShuffleBytes | simd-utils/simd-128.h:88-93 | PSHUFD moves whole 4-byte groups: the result is the selected groups side by side |
| Simd128.Const1_64 | simd-utils/simd-128.h:116 | both 64-bit elements hold the argument |
| Simd128.Const1_32 | simd-utils/simd-128.h:117 | all four 32-bit elements hold the argument |
| Simd128.One128 | simd-utils/simd-128.h:87 | the register is the 128-bit integer 1: byte 0 is 1, all other bytes 0 |
| Simd128.One64 | simd-utils/simd-128.h:88 | each 64-bit element is 1 |
| Simd128.One32 | simd-utils/simd-128.h:89 | each 32-bit element is 1 |
| Simd128.One16 | simd-utils/simd-128.h:90-91 | broadcasting 0x00010001 puts 1 in each of the eight 16-bit elements |
| Simd128.One8 | simd-utils/simd-128.h:92-93 | broadcasting 0x01010101 puts 1 in each of the sixteen bytes |
| Simd128.Neg1AsWritten | simd-utils/simd-128.h:98-108 | the non-AVX PCMPEQQ form gives all ones exactly on a CPU with SSE4.1 and faults on any other |
| Simd128.Neg1 | simd-utils/simd-128.h:98-108 | the PCMPEQD form gives all ones on every SSE2 CPU, whatever the register held |
| Simd128.Neg1NeedsSse41 | simd-utils/simd-128.h:98-108 | the SSE2 and SSSE3 tiers fault on the form as written; with SSE4.1 it gives the same register as the corrected form |
| Simd128.Const64Sse41 | simd-utils/simd-128.h:122-123 | lo is in element 0 and hi in element 1 |
| Simd128.Const64Sse2 | simd-utils/simd-128.h:127 | lo is in element 0 and hi in element 1 |
| Simd128.Const64TiersAgree | simd-utils/simd-128.h:119-129 | the SSE4.1 and SSE2 definitions of m128_const_64 build the same register |
| Simd128.Not | simd-utils/simd-128.h:136 | every byte is the complement of the input byte (with the corrected m128_neg1) |
| Simd128.NotNot | simd-utils/simd-128.h:136 | complementing twice gives the register back |
| Simd128.Negate64 | simd-utils/simd-128.h:139 | each 64-bit element is 0 minus the input element, modulo 2^64 |
| Simd128.Negate32 | simd-utils/simd-128.h:140 | each 32-bit element is 0 minus the input element, modulo 2^32 |
| Simd128.Negate16 | simd-utils/simd-128.h:141 | each 16-bit element is 0 minus the input element, modulo 2^16 |
| Simd128.SubFromZeroTwice64 | simd-utils/simd-128.h:139 | subtracting from zero twice, element by element, returns the elements |
| Simd128.SubFromZeroTwice32 | simd-utils/simd-128.h:140 | the same, for 32-bit elements |
| Simd128.SubFromZeroTwice16 | simd-utils/simd-128.h:141 | the same, for 16-bit elements |
| Simd128.Negate64Involution | simd-utils/simd-128.h:139 | negating twice gives the register back |
| Simd128.Negate32Involution | simd-utils/simd-128.h:140 | negating twice gives the register back |
| Simd128.Negate16Involution | simd-utils/simd-128.h:141 | negating twice gives the register back |
| Simd128.Mask32 | simd-utils/simd-128.h:145-147 | with a 4-bit mask, each 32-bit element whose mask bit is set becomes 0 and the others are kept |
| Simd128.Mask32Idempotent | simd-utils/simd-128.h:145-147 | masking twice with the same mask equals masking once |
| Simd128.Mask32None | simd-utils/simd-128.h:145-147 | the zero mask leaves the register unchanged |
| Simd128.Add4Epi64 | simd-utils/simd-128.h:150-151 | each 64-bit element is (a + b) + (c + d), wrapping |
| Simd128.Add4Epi32 | simd-utils/simd-128.h:153-154 | each 32-bit element is (a + b) + (c + d), wrapping |
| Simd128.Add4Epi16 | simd-utils/simd-128.h:156-157 | each 16-bit element is (a + b) + (c + d), wrapping |
| Simd128.Add4Epi8 | simd-utils/simd-128.h:159-160 | each byte is (a + b) + (c + d), wrapping |
| Simd128.Add4Zeros64 | simd-utils/simd-128.h:150-151 | adding three zero registers leaves the first operand unchanged |
| Simd128.Xor4 | simd-utils/simd-128.h:162-163 | each byte is the XOR of the four operands' bytes |
| Simd128.Xor4Cancel | simd-utils/simd-128.h:162-163 | XOR-ing the same three operands in again recovers the first |
| Simd128.Ror | simd-utils/simd-128.h:239-264 | each w-bit element is rotated right by c bits (shift right OR shift left by w - c) |
| Simd128.Rol | simd-utils/simd-128.h:239-264 | each w-bit element is rotated left by c bits |
| Simd128.RolRor | simd-utils/simd-128.h:239-249 | rotating left undoes rotating right by the same count |
| Simd128.RorRol | simd-utils/simd-128.h:239-249 | rotating right undoes rotating left by the same count |
| Simd128.RorVar64 | simd-utils/simd-128.h:239-240 | each 64-bit element is rotated right by c bits |
| Simd128.RolVar64 | simd-utils/simd-128.h:242-243 | each 64-bit element is rotated left by c bits |
| Simd128.RorVar32 | simd-utils/simd-128.h:245-246 | each 32-bit element is rotated right by c bits |
| Simd128.RolVar32 | simd-utils/simd-128.h:248-249 | each 32-bit element is rotated left by c bits |
| Simd128.Ror16 | simd-utils/simd-128.h:268-269 | each 16-bit element is rotated right by c bits |
| Simd128.Rol16 | simd-utils/simd-128.h:271-272 | each 16-bit element is rotated left by c bits |
| Simd128.Swap64 | simd-utils/simd-128.h:277 | the two 64-bit halves are exchanged |
| Simd128.Swap64Involution | simd-utils/simd-128.h:277 | swapping twice gives the register back |
| Simd128.Ror1x32 | simd-utils/simd-128.h:278 | the four 32-bit elements are rotated down by one element |
| Simd128.Rol1x32 | simd-utils/simd-128.h:279 | the four 32-bit elements are rotated up by one element |
| Simd128.Rol1x32Ror1x32 | simd-utils/simd-128.h:278-279 | the two element rotations undo each other |
| Simd128.AlignrSelf | simd-utils/simd-128.h:283-286 | PALIGNR of a register with itself by n bytes is a rotation by n bytes |
| Simd128.RotRIsRotL | simd-utils/simd-128.h:283-286 | rotating right by n is rotating left by the length minus n |
| Simd128.Ror1x8 | simd-utils/simd-128.h:285 | the bytes are rotated down by one byte |
| Simd128.Rol1x8 | simd-utils/simd-128.h:286 | the bytes are rotated up by one byte |
| Simd128.Rol1x8Ror1x8 | simd-utils/simd-128.h:285-286 | the two byte rotations undo each other |
| Simd128.Lanes16RotR | simd-utils/simd-128.h:283 | rotating the bytes down by two rotates the 16-bit elements down by one |
| Simd128.Lanes16RotL | simd-utils/simd-128.h:284 | rotating the bytes up by two rotates the 16-bit elements up by one |
| Simd128.Ror1x16 | simd-utils/simd-128.h:283 | the eight 16-bit elements are rotated down by one element |
| Simd128.Rol1x16 | simd-utils/simd-128.h:284 | the eight 16-bit elements are rotated up by one element |
| Simd128.Rol1x16Ror1x16 | simd-utils/simd-128.h:283-284 | the two element rotations undo each other |
| Simd128.Invert32 | simd-utils/simd-128.h:294 | the four 32-bit elements are in reverse order |
| Simd128.Invert32Involution | simd-utils/simd-128.h:294 | reversing twice gives the register back |
| Simd128.Swap64_32 | simd-utils/simd-128.h:311 | the two 32-bit halves of each 64-bit element are exchanged |
| Simd128.Swap64_32Involution | simd-utils/simd-128.h:311 | swapping twice gives the register back |
| Simd128.Bswap64Control | simd-utils/simd-128.h:335-337 | the control constant's bytes are 7..0, 15..8 |
| Simd128.Bswap32Control | simd-utils/simd-128.h:339-341 | the control constant's bytes are 3..0, 7..4, 11..8, 15..12 |
| Simd128.MirrorControl64 | simd-utils/simd-128.h:335-337 | each control byte has bit 7 clear and selects the mirror byte within its 8-byte group |
| Simd128.MirrorControl32 | simd-utils/simd-128.h:339-341 | each control byte has bit 7 clear and selects the mirror byte within its 4-byte group |
| Simd128.ShuffleMirror64 | simd-utils/simd-128.h:335-337 | PSHUFB with that control reverses the bytes of each 64-bit element |
| Simd128.ShuffleMirror32 | simd-utils/simd-128.h:339-341 | PSHUFB with that control reverses the bytes of each 32-bit element |
| Simd128.Bswap64Ssse3 | simd-utils/simd-128.h:335-337 | the bytes of each 64-bit element are reversed |
| Simd128.Bswap32Ssse3 | simd-utils/simd-128.h:339-341 | the bytes of each 32-bit element are reversed |
| Simd128.SwapBytes16 | simd-utils/simd-128.h:392-395 | shifting each 16-bit element left 8 and right 8 and OR-ing swaps its two bytes |
| Simd128.ShiftedLeft16Bytes | simd-utils/simd-128.h:392-395 | after a shift left by 8, each 16-bit element's high byte is its old low byte and its low byte is zero |
| Simd128.ShiftedRight16Bytes | simd-utils/simd-128.h:392-395 | after a shift right by 8, each 16-bit element's low byte is its old high byte and its high byte is zero |
| Simd128.Bswap16Sse2 | simd-utils/simd-128.h:392-395 | the bytes of each 16-bit element are swapped |
| Simd128.ReverseEach64By16 | simd-utils/simd-128.h:378-383 | a 64-bit byte reversal is a 16-bit byte swap followed by reversing the four 16-bit elements of each half |
| Simd128.ReverseEach32By16 | simd-utils/simd-128.h:385-390 | a 32-bit byte reversal is a 16-bit byte swap followed by exchanging neighbouring 16-bit elements |
| Simd128.ReverseHalves16 | simd-utils/simd-128.h:378-383 | PSHUFLW then PSHUFHW with 0x1B reverse the four 16-bit elements of each half |
| Simd128.SwapPairs16 | simd-utils/simd-128.h:385-390 | PSHUFLW then PSHUFHW with 0xB1 exchange neighbouring 16-bit elements |
| Simd128.Bswap64By16 | simd-utils/simd-128.h:378-383 | the two shuffles applied to the 16-bit swap of v give v with each 64-bit element byte reversed |
| Simd128.Bswap32By16 | simd-utils/simd-128.h:385-390 | the two shuffles applied to the 16-bit swap of v give v with each 32-bit element byte reversed |
| Simd128.Bswap64Sse2 | simd-utils/simd-128.h:378-383 | the bytes of each 64-bit element are reversed |
| Simd128.Bswap32Sse2 | simd-utils/simd-128.h:385-390 | the bytes of each 32-bit element are reversed |
| Simd128.BswapTiersAgree | simd-utils/simd-128.h:333-395 | the SSSE3 and SSE2 byte swaps compute the same register |
| Simd128.Bswap64Involution | simd-utils/simd-128.h:378-383 | swapping bytes twice gives the register back |
| Simd128.Bswap32Involution | simd-utils/simd-128.h:385-390 | swapping bytes twice gives the register back |
| Simd128.Bswap16Involution | simd-utils/simd-128.h:392-395 | swapping bytes twice gives the register back |
| Simd128Test.TestzSelf | simd-utils/simd-128.h:169 | PTEST's ZF of a register with itself is 1 exactly when the register is zero |
| Simd128Test.TestcOnes | simd-utils/simd-128.h:170 | PTEST's CF against all ones is 1 exactly when the register is all ones |
| Simd128Test.AllBits0 | simd-utils/simd-128.h:169 | the flag is 0 or 1, and it is 1 exactly when every bit is 0 |
| Simd128Test.AllBits1 | simd-utils/simd-128.h:170 | the flag is 0 or 1, and it is 1 exactly when every bit is 1 |
| Simd128Test.SomeBitClearIff | simd-utils/simd-128.h:173 | some bit is 0 exactly when the register is not all ones |
| Simd128Test.SomeBitSetIff | simd-utils/simd-128.h:174 | some bit is 1 exactly when the register is not zero |
| Simd128Test.AnyBits0Sse41AsWritten | simd-utils/simd-128.h:173 | as written, the flag is 1 exactly when every bit is 1 |
| Simd128Test.AnyBits1Sse41AsWritten | simd-utils/simd-128.h:174 | as written, the flag is 1 exactly when every bit is 0 |
| Simd128Test.AnyBits0 | simd-utils/simd-128.h:173 | the flag is 1 exactly when some bit is 0 |
| Simd128Test.AnyBits1 | simd-utils/simd-128.h:174 | the flag is 1 exactly when some bit is 1 |
| Simd128Test.AnyBitsSse41Inverted | simd-utils/simd-128.h:173-174 | on the zero register, the as-written any-bit flags are the opposite of the corrected ones |
| Simd128Test.Pow256Of16 | simd-utils/simd-128.h:179-180 | 256^16 is the modulus of the 128-bit integer cast |
| Simd128Test.WrapToZero | simd-utils/simd-128.h:180 | adding 1 to a 128-bit integer wraps to 0 exactly at the all-ones value |
| Simd128Test.ZeroBytes | simd-utils/simd-128.h:179 | the register is zero exactly when every byte is 0 |
| Simd128Test.OnesBytes | simd-utils/simd-128.h:180 | the register is all ones exactly when every byte is 0xFF |
| Simd128Test.LittleEndian | simd-utils/simd-128.h:179 | the unsigned value of bytes read least significant first, as the `uint128_t` cast reads a register |
| Simd128Test.LittleEndianBound | simd-utils/simd-128.h:179 | n bytes read little endian are below 256^n |
| Simd128Test.LittleEndianZero | simd-utils/simd-128.h:179 | the value read is 0 exactly when every byte is 0 |
| Simd128Test.LittleEndianMax | simd-utils/simd-128.h:180 | the value read is 256^n - 1 exactly when every byte is 0xFF |
| Simd128Test.U128 | simd-utils/simd-128.h:179-180 | the (uint128_t) cast is below 2^128, is 0 exactly for zero and is 2^128 - 1 exactly for all ones |
| Simd128Test.AnyBits0Sse2AsWritten | simd-utils/simd-128.h:179 | as written, the value is nonzero exactly when some bit is 1 |
| Simd128Test.AnyBits1Sse2AsWritten | simd-utils/simd-128.h:180 | as written, the value is nonzero exactly when some bit is 0 |
| Simd128Test.AllBits0Sse2AsWritten | simd-utils/simd-128.h:182 | as written, the flag is 1 exactly when every bit is 1 |
| Simd128Test.AllBits1Sse2AsWritten | simd-utils/simd-128.h:183 | as written, the flag is 1 exactly when every bit is 0 |
| Simd128Test.AllBitsSse2Swapped | simd-utils/simd-128.h:179-183 | the as-written SSE2 tests give the opposite answers on the all-ones and zero registers |
| Simd128Test.AnyBits0Sse2 | simd-utils/simd-128.h:179 | the value is nonzero exactly when some bit is 0 |
| Simd128Test.AnyBits1Sse2 | simd-utils/simd-128.h:180 | the value is nonzero exactly when some bit is 1 |
| Simd128Test.AllBits0Sse2 | simd-utils/simd-128.h:182 | the flag is 1 exactly when every bit is 0 |
| Simd128Test.AllBits1Sse2 | simd-utils/simd-128.h:183 | the flag is 1 exactly when every bit is 1 |
| Simd128Test.BitTestTiersAgree | simd-utils/simd-128.h:167-185 | the corrected SSE2 and SSE4.1 tests agree on every register |
| Simd128Mem.MemsetZero | simd-utils/simd-128.h:217-218 | the first n registers are zero and the rest are unchanged |
| Simd128Mem.Memset | simd-utils/simd-128.h:220-221 | the first n registers equal a and the rest are unchanged |
| Simd128Mem.Memcpy | simd-utils/simd-128.h:223-224 | the first n registers of dst are those of src, the rest of dst is unchanged, and a distinct src is not written |
| Simd128Mem.BlockBswap64Ssse3 | simd-utils/simd-128.h:348-359 | registers 0 to 7 of d are those of s with each 64-bit element byte reversed; nothing else changes |
| Simd128Mem.BlockBswap32Ssse3 | simd-utils/simd-128.h:362-373 | registers 0 to 7 of d are those of s with each 32-bit element byte reversed; nothing else changes |
| Simd128Mem.BlockBswap64Sse2 | simd-utils/simd-128.h:397-407 | registers 0 to 7 of d are those of s with each 64-bit element byte reversed; nothing else changes |
| Simd128Mem.BlockBswap32Sse2 | simd-utils/simd-128.h:409-419 | registers 0 to 7 of d are those of s with each 32-bit element byte reversed; nothing else changes |
| Simd128Pair.Swap256 | simd-utils/simd-128.h:428-431 | the three XORs exchange the two registers |
| Simd128Pair.RotR256At | simd-utils/simd-128.h:437-442 | byte k of the 32-byte pair rotated right by n is byte k + n, wrapping around |
| Simd128Pair.RotL256At | simd-utils/simd-128.h:444-449 | byte k of the 32-byte pair rotated left by n is byte k - n, wrapping around |
| Simd128Pair.PairExt | simd-utils/simd-128.h:437-565 | two registers whose bytes match the two halves of a 32-byte value concatenate to it |
| Simd128Pair.Ror256Sse41 | simd-utils/simd-128.h:437-484 | with PALIGNR, the pair v1:v2 becomes the 256-bit value rotated right by n bytes (8, 4, 2, 1 for _64, _32, _16, _8) |
| Simd128Pair.Rol256Sse41 | simd-utils/simd-128.h:444-491 | with PALIGNR, the pair becomes the 256-bit value rotated left by n bytes |
| Simd128Pair.Ror256Sse2 | simd-utils/simd-128.h:495-556 | with byte shifts and OR, the pair becomes the 256-bit value rotated right by n bytes |
| Simd128Pair.Rol256Sse2 | simd-utils/simd-128.h:504-565 | with byte shifts and OR, the pair becomes the 256-bit value rotated left by n bytes |
| Simd128Pair.RotateByHalf | simd-utils/simd-128.h:428-431 | rotating the pair by 16 bytes either way is the swap |
| Simd128Pair.RotateBy8Lanes64 | simd-utils/simd-128.h:437-442 | a byte rotation by 8 rotates the four 64-bit elements of the pair by one |
| Simd128Pair.RotateBy4Lanes32 | simd-utils/simd-128.h:451-456 | a byte rotation by 4 rotates the eight 32-bit elements of the pair by one |
| Simd128Pair.Rotate256Inverse | simd-utils/simd-128.h:437-449 | the left and right pair rotations by the same count undo each other |
| Ocv2.PackBytes | algo/ocv2/ocv2.c:33 | a word is rebuilt from its four bytes |
| Ocv2.BytesOfPack | algo/ocv2/ocv2.c:33 | the bytes of a word built from four bytes are those bytes |
| Ocv2.Swab32 | algo/ocv2/ocv2.c:49 | the result's bytes are the argument's bytes in the opposite order |
| Ocv2.Swab32Involution | algo/ocv2/ocv2.c:49 | swapping twice gives the word back |
| Ocv2.Be32Enc | algo/ocv2/ocv2.c:33 | the four bytes are the word's bytes, most significant first |
| Ocv2.Be32DecEnc | algo/ocv2/ocv2.c:33 | decoding an encoded word gives the word |
| Ocv2.Be32EncDec | algo/ocv2/ocv2.c:33 | encoding a decoded four-byte group gives the group |
| Ocv2.EncodeWords | algo/ocv2/ocv2.c:32-34 | bytes 4i to 4i + 3 are word i encoded big endian |
| Ocv2.DecodeEncodeWords | algo/ocv2/ocv2.c:32-34 | decoding the encoded header words gives the words |
| Ocv2.EncodeDecodeWords | algo/ocv2/ocv2.c:32-34 | encoding decoded words gives the bytes |
| Ocv2.EncodeHeader | algo/ocv2/ocv2.c:32-36 | the 80-byte header holds words 0 to 18 big endian, then the nonce big endian |
| Ocv2.HeaderNonceOnly | algo/ocv2/ocv2.c:45-46 | two encoded headers share their first 76 bytes, and are equal exactly when their nonces are |
| Ocv2.SetNonce | algo/ocv2/ocv2.c:46 | rewriting the last four bytes with nonce n gives the header encoded with n |
| Ocv2.ReverseDigest | algo/ocv2/ocv2.c:52-53 | word i of the result is word 7 - i of the digest, byte swapped |
| Ocv2.ReverseDigestInvolution | algo/ocv2/ocv2.c:52-53 | reversing twice gives the digest back |
| Ocv2.QuickCheck | algo/ocv2/ocv2.c:49 | the byte-swapped first digest word is at most target word 7, unsigned |
| Ocv2.QuickCheckIsTopWord | algo/ocv2/ocv2.c:49 | the quick check passes exactly when the reversed digest's top word is at most the target's top word |
| Ocv2.HashesDone | algo/ocv2/ocv2.c:57 | the count is at least 1 and counts every nonce from the first to the last |
| Ocv2.HashesDoneAsWritten | algo/ocv2/ocv2.c:63 | the 32-bit difference plus one is the true count modulo 2^32 |
| Ocv2.HashesDoneFullRange | algo/ocv2/ocv2.c:57-63 | over the full nonce range the 32-bit count is 0, while the true count is 2^32 |
| Ocv2.Wins | algo/ocv2/ocv2.c:45-55 | a nonce wins when its hash, with the image made from the first nonce's header, passes the quick check and then `fulltest` on the reversed digest |
| Ocv2.ScanOutcome | algo/ocv2/ocv2.c:44-65 | every nonce before the last hashed lost and let the loop continue; the last won exactly when found; a search that did not find stopped at the bound or on the restart flag |
| Ocv2.ContinuedBelowExtend | algo/ocv2/ocv2.c:44-61 | a nonce that neither wins, reaches the bound nor sees a restart extends the run of continuing nonces by one |
| Ocv2.ContinuedBefore | algo/ocv2/ocv2.c:44-61 | every nonce before the last one hashed did not win, was below the bound and saw no restart |
| Ocv2.ScanOutcomeUnique | algo/ocv2/ocv2.c:44-65 | the last nonce and the found flag are determined by the inputs |
| Ocv2.FirstNonceContinues | algo/ocv2/ocv2.c:61 | the search goes past the first nonce only when that nonce is below the bound and no restart was seen |
| Ocv2.RestartBeforeStart | algo/ocv2/ocv2.c:61 | a restart flag set before the search hashes exactly one nonce |
| Ocv2.BoundBeforeStart | algo/ocv2/ocv2.c:61 | a first nonce already at the bound hashes exactly one nonce |
| Ocv2.TestNonce | algo/ocv2/ocv2.c:45-59 | a win is the quick check and the full test together; the nonce is stored when the quick check passes |
| Ocv2.ScanhashOcv2 | algo/ocv2/ocv2.c:7-66 | the result is the unique scan outcome; the stored nonce and the hash count match it; header words 0 to 18 are unchanged |
| Ocv2.RegisterOcv2 | algo/ocv2/ocv2.c:68-73 | the nonce search is bound, the four flags are set, and the hash field is left alone |
| Cosa.Zeros | algo/cosanta/cosa.c:156-158 | n zero bytes |
| Cosa.StageOrderIsPermutation | algo/cosanta/cosa.c:82-154 | the sixteen stages run Blake-512 first and SHA-512 last, each stage exactly once |
| Cosa.Chain | algo/cosanta/cosa.c:82-154 | the digest after stages 0 to k of the order: the first stage reads the header, each later one the 64-byte digest before it |
| Cosa.ChainThroughFirst | algo/cosanta/cosa.c:82-154 | only Blake-512 reads the header: headers it maps alike give the same chain |
| Cosa.ChainFirstEight | algo/cosanta/cosa.c:82-117 | the chain after eight stages is Blake-512 through CubeHash-512 composed in source order |
| Cosa.ChainUnrolled | algo/cosanta/cosa.c:82-154 | the chain is the sixteen stages composed in source order |
| Cosa.GostInput | algo/cosanta/cosa.c:156-166 | GOST reads 64 bytes: HAVAL's 32 bytes, then 32 zero bytes |
| Cosa.LyraInput | algo/cosanta/cosa.c:156-168 | Lyra2Z reads 80 bytes: GOST's 64 bytes, then 16 zero bytes |
| Cosa.CosaDigest | algo/cosanta/cosa.c:82-170 | Lyra2Z(2, 66, 66) over the padded GOST digest, as password and salt, of the chain over the first 80 header bytes |
| Cosa.DigestReadsHeaderOnly | algo/cosanta/cosa.c:83 | the digest depends only on the first 80 input bytes |
| Cosa.DigestComposition | algo/cosanta/cosa.c:75-173 | the digest is Lyra2Z(2, 66, 66) over GOST of HAVAL of the chain, with the zero padding |
| Cosa.Close | algo/cosanta/cosa.c:84-154 | a stage's close writes its digest at the front of the buffer and leaves the rest |
| Cosa.ZeroFill | algo/cosanta/cosa.c:156-158 | the first n bytes are zero and the rest are unchanged |
| Cosa.RunStage | algo/cosanta/cosa.c:86-154 | the first 64 bytes become the stage's hash of the old first 64 bytes, and the bytes after them are unchanged |
| Cosa.RunStages | algo/cosanta/cosa.c:82-154 | the first 64 bytes end as the chain of the sixteen stages over the header, and the bytes after them are unchanged |
| Cosa.CosaHash | algo/cosanta/cosa.c:75-173 | given a thread whose Lyra2Z matrix is allocated and large enough for 66 x 66 blocks, the first 32 output bytes are the Cosanta digest of the input, and the rest of the output is unchanged |
| Cosa.Lyra2zThreadInit | algo/cosanta/cosa.c:37-45 | success is reported exactly when the allocation worked, and a new matrix of BLOCK_LEN_INT64 * 8 * 8 * 8 bytes is then held |
| Cosa.MatrixTooSmall | algo/cosanta/cosa.c:42 | that matrix is 6144 bytes, smaller than the 418176 bytes of 66 x 66 Lyra2 blocks that cosa_hash asks Lyra2Z to fill |
| Cosa.CosaThreadInit | algo/cosanta/cosa.c:37-45 | corrected: success exactly when the allocation worked, and a new matrix of 66 x 66 blocks is then held |
| CosaGate.RegisterCosa | algo/cosanta/cosa-gate.c:3-8 | cosa_hash is bound, the six flags are set, and the nonce search and the thread hook are left alone |
| CosaGate.RegisterCosaCorrected | algo/cosanta/cosa-gate.c:3-8 | as RegisterCosa, and the thread hook is the corrected matrix allocation |
| CosaGate.StartThread | algo/cosanta/cosa-gate.c:3-8 | a thread runs the hook the gate holds: the default hook leaves the matrix alone, the others allocate it |
| CosaGate.CosaThreadAsWritten | algo/cosanta/cosa-gate.c:3-8 | after the registration as written and a thread start, the thread holds no matrix, whether or not memory was available |
| CosaGate.CosaThreadCorrected | algo/cosanta/cosa-gate.c:3-8 | after the corrected registration, a thread start succeeds exactly when memory was available and then holds a matrix large enough for cosa_hash |
| AlgoGate.LaneWidth | algo/x11/hash0x10-gate.h:7-11 | the tiers hash 1, 4 or 8 lanes, and only the scalar tier hashes one |
| Hash0x10Gate.SelectTier | algo/x11/hash0x10-gate.h:7-11 | 8-way exactly when all four AVX-512 features are present, 4-way exactly when they are not but AVX2 and AES are, scalar otherwise |
| Hash0x10Gate.TierMonotone | algo/x11/hash0x10-gate.h:7-11 | more CPU features never select a narrower tier |
| Hash0x10Gate.Declared | algo/x11/hash0x10-gate.h:14-35 | each tier declares its own hash, nonce search and context initialiser |
| Hash0x10Gate.DeclaredInjective | algo/x11/hash0x10-gate.h:14-35 | no two tiers share a declared function |
| Hash0x10Gate.Hash0x10Context.Init | algo/x11/hash0x10-gate.c:5-16 | the context is initialised for the given tier |
| Hash0x10Gate.RegisterHash0x10 | algo/x11/hash0x10-gate.c:3-20 | the context, hash and nonce search all belong to the selected tier, and the five flags are set |

## Left out

- Simd128.Add4Epi64, Simd128.Add4Epi32, Simd128.Add4Epi16, Simd128.Add4Epi8: these are specified in the order the macro adds, (a + b) + (c + d). That this equals ((a + b) + c) + d is not proved, because the wrapping reassociation is beyond the solver's budget at these widths.
- Simd128.Ror, Simd128.Rol and the rotate macros built on them: the count is limited to 0..w, where the shift form is a rotation. Larger counts are not modelled.
- The `asm` bodies of the move and all-ones helpers are modelled by the instruction each one issues, as values. The register `m128_neg1` reuses without initialising it is a parameter. The AVX form of `m128_neg1` (VPCMPEQQ) is not modelled separately: every AVX CPU has SSE4.1, where `Neg1AsWritten` gives all ones.
- The AVX-512 aliases of mm128_ror_64/32 and mm128_rol_64/32 (simd-128.h:252-257) are left out. They are the AVX-512 rotate instructions, whose result per element matches `Ror` and `Rol`.
- Some macros are not valid as written: `mm128_ror_x8` and `mm128_rol_x8` pass two arguments to a three-operand intrinsic. The same goes for the SSSE3 `mm128_invert_16`, `mm128_invert_8` and `mm128_bswap_16`, and for `mm128_rol64_8`, `mm128_ror64_8`, `mm128_rol32_8` and `mm128_ror32_8`. They are not modelled.
- The pointer casts `castp_m128i`, `cast_m128i`, `casti_m128i` and `casto_m128i` are left out. They are memory reinterpretation, and the array members take their place.
- Simd128Mem.Memcpy and the block byte swaps: arrays that overlap only partially cannot occur in the model. The two arrays are either the same or disjoint. Only whole-array aliasing is covered.
- Alignment requirements (`_ALIGN`, the 64-byte aligned `_mm_malloc`) are not modelled.
- The hash primitives are parameters with their fixed output lengths. This covers the sixteen stages, HAVAL-256, GOST-512, Lyra2Z, ocv2_init_image with ocv2_calculate_hash, and `fulltest`. Their internals and the AES or non-AES choice for Groestl and Echo are not modelled.
- Cosa.Lyra2zThreadInit: what Lyra2Z writes into the matrix is not modelled; the digest is a parameter function of its inputs. lyra2.h and lyra2.c are not part of this model: BLOCK_LEN_INT64 is taken as 12, and the matrix Lyra2Z needs is taken as rows x columns x BLOCK_LEN_INT64 words (`LyraMatrixBytes`).
- CosaGate.StartThread: the miner's per-thread call of `algo_gate.miner_thread_init` is not part of this model; StartThread stands for it. The other algorithms' thread hooks are not modelled.
- Simd128Pair.Swap256: the macro is three statements with no `do { } while (0)` around them, so under an unbraced `if` only the first XOR is conditional; and given the same register twice, the XOR swap zeroes it. The model is a value function of two distinct registers and captures neither.
- The matrix is thread-local storage; the model gives each thread a `ThreadScratch` object.
- Cosa.CosaHash: the constant `return 1` and the `thr_id` parameter are left out, because they carry no information.
- Ocv2.ScanhashOcv2: it reports the true number of nonces hashed (`HashesDone`). The 32-bit expression of the source, which differs over the full nonce range, is `HashesDoneAsWritten` (see Findings). `work_restart[thr_id]` is read through the `restart` parameter.
- Simd128.Mask32: the contract speaks only of masks below 16, the 4-bit masks the macro is meant for. A larger immediate also moves an element; `Sse.InsertPs` states that case.
- The 4-way and 8-way hash0x10 hash and nonce search bodies are not part of this model. Only their declarations and their binding are.
- Hash0x10Gate.RegisterHash0x10: the context is initialised before the pointers are bound, but that order is not observable in the model.
- algo/x11/0x10-gate.h and algo/cosanta/cosa-gate.h only declare functions that are modelled here.

## Findings

| source | as written | input that shows it | evidently intended | confidence | as-written member | corrected member |
|---|---|---|---|---|---|---|
| simd-utils/simd-128.h:173-174 | with SSE4.1, `mm128_anybits0(a)` is `mm128_allbits1(a)` and `mm128_anybits1(a)` is `mm128_allbits0(a)` | a = 0: anybits0 gives 0 though every bit is 0; anybits1 gives 1 though no bit is 1 | anybits0 is "some bit is 0" = !allbits1, anybits1 is "some bit is 1" = !allbits0 | not executed | Simd128Test.AnyBits0Sse41AsWritten, Simd128Test.AnyBits1Sse41AsWritten, Simd128Test.AnyBitsSse41Inverted | Simd128Test.AnyBits0, Simd128Test.AnyBits1 |
| simd-utils/simd-128.h:179-183 | with SSE2, `mm128_anybits0(a)` is `(uint128_t)a` (nonzero when some bit is 1) and `mm128_anybits1(a)` is `a + 1` (nonzero when some bit is 0), so the two are swapped, and so are the allbits tests built on them | a = all ones: anybits0 is nonzero; a = 0: allbits0 gives 0; a = all ones: allbits1 gives 0 | the SSE4.1 meaning: anybits0 nonzero when some bit is 0, allbits0 when every bit is 0 | not executed | Simd128Test.AnyBits0Sse2AsWritten, Simd128Test.AnyBits1Sse2AsWritten, Simd128Test.AllBits0Sse2AsWritten, Simd128Test.AllBits1Sse2AsWritten, Simd128Test.AllBitsSse2Swapped | Simd128Test.AnyBits0Sse2, Simd128Test.AnyBits1Sse2, Simd128Test.AllBits0Sse2, Simd128Test.AllBits1Sse2, Simd128Test.BitTestTiersAgree |
| simd-utils/simd-128.h:98-108 | without AVX, `m128_neg1` issues `pcmpeqq`, an SSE4.1 instruction, in a header whose other tiers serve SSE2 and SSSE3 CPUs; `mm128_not` (line 136) uses it | an SSE2-only or SSSE3 CPU: the instruction faults instead of giving all ones | an SSE2 compare of the register with itself, such as `pcmpeqd` | not executed | Simd128.Neg1AsWritten, Simd128.Neg1NeedsSse41 | Simd128.Neg1, Simd128.Not |
| algo/cosanta/cosa-gate.c:3-8 | `register_cosa_algo` never installs `lyra2z_thread_init` as `miner_thread_init`, so no thread allocates the Lyra2Z matrix that `cosa_hash` uses | any thread of the cosa algorithm: its matrix stays unallocated | the registration also sets `miner_thread_init` to the matrix allocation | not executed; plausible, lyra2.c is not part of this model | CosaGate.RegisterCosa, CosaGate.CosaThreadAsWritten | CosaGate.RegisterCosaCorrected, CosaGate.CosaThreadCorrected |
| algo/cosanta/cosa.c:42 | `lyra2z_thread_init` allocates BLOCK_LEN_INT64 * 8 * 8 * 8 bytes | `LYRA2Z(..., 2, 66, 66)`: 6144 bytes against the 418176 bytes of 66 x 66 blocks of 12 words | a matrix of rows x columns x BLOCK_LEN_INT64 words | not executed; plausible, lyra2.c is not part of this model | Cosa.Lyra2zThreadInit, Cosa.MatrixTooSmall | Cosa.CosaThreadInit |
| algo/ocv2/ocv2.c:63 | `*hashes_done = n - first_nonce + 1` is computed in 32 bits | first nonce 0, max_nonce 0xFFFFFFFF, no winner, no restart: 2^32 nonces are hashed and 0 is reported | the count of nonces hashed, 2^32 | not executed | Ocv2.HashesDoneAsWritten, Ocv2.HashesDoneFullRange | Ocv2.HashesDone |
