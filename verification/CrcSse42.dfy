/** The form on the processor's CRC32 instruction: three blocks at a time (crc32c/crc32c_sse42.cc), and the
    choice between the two forms (crc32c/crc32c.cc).

    The upper half of the 64-bit register is always zero; the model keeps the lower half. */
module CrcSse42 {
  import opened Crc
  import opened CrcPortable

  const GROUPS := 3
  const BLOCK0_SIZE := 16 * 1024 / GROUPS / 64 * 64
  const BLOCK1_SIZE := 4 * 1024 / GROUPS / 8 * 8
  const BLOCK2_SIZE := 1024 / GROUPS / 8 * 8

  // ------------------------------------------------------------------ the instruction

  function Word64(b0: bv8, b1: bv8, b2: bv8, b3: bv8, b4: bv8, b5: bv8, b6: bv8, b7: bv8): bv64 {
    (b0 as bv64) | ((b1 as bv64) << 8) | ((b2 as bv64) << 16) | ((b3 as bv64) << 24) |
    ((b4 as bv64) << 32) | ((b5 as bv64) << 40) | ((b6 as bv64) << 48) | ((b7 as bv64) << 56)
  }

  function ReadUint64LE(data: seq<bv8>, p: nat): bv64
    requires p + 8 <= |data|
  {
    Word64(data[p], data[p + 1], data[p + 2], data[p + 3], data[p + 4], data[p + 5], data[p + 6], data[p + 7])
  }

  /** The bytes of the word, lowest first. */
  function Bytes64(w: bv64): seq<bv8> {
    [(w & 0xff) as bv8, ((w >> 8) & 0xff) as bv8, ((w >> 16) & 0xff) as bv8, ((w >> 24) & 0xff) as bv8,
     ((w >> 32) & 0xff) as bv8, ((w >> 40) & 0xff) as bv8, ((w >> 48) & 0xff) as bv8, ((w >> 56) & 0xff) as bv8]
  }

  /** The instruction on eight bytes. */
  function Crc32U64(c: bv32, w: bv64): bv32 {
    Feed(c, Bytes64(w))
  }

  lemma BytesOfWord(b0: bv8, b1: bv8, b2: bv8, b3: bv8, b4: bv8, b5: bv8, b6: bv8, b7: bv8)
    ensures Bytes64(Word64(b0, b1, b2, b3, b4, b5, b6, b7)) == [b0, b1, b2, b3, b4, b5, b6, b7]
  {
  }

  lemma FeedRead64(c: bv32, data: seq<bv8>, start: nat, p: nat)
    requires start <= p && p + 8 <= |data|
    ensures Crc32U64(Feed(c, data[start..p]), ReadUint64LE(data, p)) == Feed(c, data[start..p + 8])
  {
    hide Feed, Word64, Bytes64;
    var bytes := [data[p], data[p + 1], data[p + 2], data[p + 3], data[p + 4], data[p + 5], data[p + 6], data[p + 7]];
    BytesOfWord(data[p], data[p + 1], data[p + 2], data[p + 3], data[p + 4], data[p + 5], data[p + 6], data[p + 7]);
    assert data[start..p + 8] == data[start..p] + bytes;
    FeedSplits(c, data[start..p], bytes);
  }

  // ------------------------------------------------------------------ the skip tables

  function Nibble(c: bv32, k: nat): bv32
    requires k < 8
  {
    match k
    case 0 => c & 0xf
    case 1 => (c >> 4) & 0xf
    case 2 => (c >> 8) & 0xf
    case 3 => (c >> 12) & 0xf
    case 4 => (c >> 16) & 0xf
    case 5 => (c >> 20) & 0xf
    case 6 => (c >> 24) & 0xf
    case _ => (c >> 28) & 0xf
  }

  function Placed(v: bv32, k: nat): bv32
    requires k < 8
  {
    match k
    case 0 => v
    case 1 => v << 4
    case 2 => v << 8
    case 3 => v << 12
    case 4 => v << 16
    case 5 => v << 20
    case 6 => v << 24
    case _ => v << 28
  }

  /** Entry `v` of row `k` of the skip table for blocks of `size` bytes. */
  function SkipEntry(size: nat, k: nat, v: bv32): bv32
    requires k < 8
  {
    Zeros(Placed(v, k), size)
  }

  function SkipBlock(c: bv32, size: nat): bv32 {
    Xor(Xor(Xor(Xor(Xor(Xor(Xor(SkipEntry(size, 0, Nibble(c, 0)), SkipEntry(size, 1, Nibble(c, 1))),
                            SkipEntry(size, 2, Nibble(c, 2))), SkipEntry(size, 3, Nibble(c, 3))),
                    SkipEntry(size, 4, Nibble(c, 4))), SkipEntry(size, 5, Nibble(c, 5))),
            SkipEntry(size, 6, Nibble(c, 6))), SkipEntry(size, 7, Nibble(c, 7)))
  }

  function Part(c: bv32, k: nat): bv32
    requires k < 8
  {
    Placed(Nibble(c, k), k)
  }

  lemma EightNibbles(c: bv32)
    ensures c ==
              Xor(Xor(Xor(Xor(Xor(Xor(Xor(Part(c, 0), Part(c, 1)), Part(c, 2)), Part(c, 3)), Part(c, 4)), Part(c, 5)),
                      Part(c, 6)), Part(c, 7))
  {
  }

  /** Eight lookups feed a whole block of zeros. */
  lemma SkipBlockIsZeros(c: bv32, size: nat)
    ensures SkipBlock(c, size) == Zeros(c, size)
  {
    hide Xor, Nibble, Placed, Zeros;
    EightNibbles(c);
    var x1 := Xor(Part(c, 0), Part(c, 1));
    var x2 := Xor(x1, Part(c, 2));
    var x3 := Xor(x2, Part(c, 3));
    var x4 := Xor(x3, Part(c, 4));
    var x5 := Xor(x4, Part(c, 5));
    var x6 := Xor(x5, Part(c, 6));
    ZerosLinear(Part(c, 0), Part(c, 1), size);
    ZerosLinear(x1, Part(c, 2), size);
    ZerosLinear(x2, Part(c, 3), size);
    ZerosLinear(x3, Part(c, 4), size);
    ZerosLinear(x4, Part(c, 5), size);
    ZerosLinear(x5, Part(c, 6), size);
    ZerosLinear(x6, Part(c, 7), size);
  }

  // ------------------------------------------------------------------ three blocks at a time

  /** The sums of three blocks put together. */
  lemma JoinBlocks(c: bv32, a: seq<bv8>, b: seq<bv8>)
    ensures Feed(c, a + b) == Xor(Zeros(Feed(c, a), |b|), Feed(0, b))
  {
    hide Xor, Feed, Zeros;
    FeedSplits(c, a, b);
    XorZero(Feed(c, a));
    FeedLinear(Feed(c, a), 0, b);
  }

  /** STEP8X3 `unroll` times per round, over three adjacent blocks of `size` bytes, then the two skips. */
  method ThreeBlocks(l0: bv32, data: seq<bv8>, start: nat, size: nat, unroll: nat, l: bv32) returns (r: bv32)
    requires start + 3 * size <= |data|
    requires unroll > 0 && exists rounds: nat :: size == rounds * (8 * unroll)
    requires l == Feed(l0, data[..start])
    ensures r == Feed(l0, data[..start + 3 * size])
  {
    hide Xor, Feed, Zeros, Crc32U64, ReadUint64LE, SkipBlock;
    var r0, r1, r2 := l, 0, 0;
    var p, i := start, 0;
    assert data[start..start] == [];
    assert data[start + size..start + size] == [];
    assert data[start + 2 * size..start + 2 * size] == [];
    FeedEmpty(l);
    FeedEmpty(0);
    ghost var rounds: nat :| size == rounds * (8 * unroll);
    ghost var n := 0;
    while i < size
      invariant n <= rounds && i == n * (8 * unroll) && p == start + i && i <= size
      invariant r0 == Feed(l, data[start..p])
      invariant r1 == Feed(0, data[start + size..p + size])
      invariant r2 == Feed(0, data[start + 2 * size..p + 2 * size])
    {
      RoomForRound(n, rounds, 8 * unroll);
      var j := 0;
      while j < unroll
        invariant 0 <= j <= unroll && p == start + i + 8 * j
        invariant i + 8 * unroll <= size
        invariant r0 == Feed(l, data[start..p])
        invariant r1 == Feed(0, data[start + size..p + size])
        invariant r2 == Feed(0, data[start + 2 * size..p + 2 * size])
      {
        FeedRead64(l, data, start, p);
        FeedRead64(0, data, start + size, p + size);
        FeedRead64(0, data, start + 2 * size, p + 2 * size);
        r0 := Crc32U64(r0, ReadUint64LE(data, p));
        r1 := Crc32U64(r1, ReadUint64LE(data, p + size));
        r2 := Crc32U64(r2, ReadUint64LE(data, p + 2 * size));
        p := p + 8;
        j := j + 1;
      }
      i := i + 8 * unroll;
      n := n + 1;
    }
    JoinThree(l0, data, start, size);
    SkipBlockIsZeros(r0, size);
    r := Xor(SkipBlock(r0, size), r1);
    SkipBlockIsZeros(r, size);
    r := Xor(SkipBlock(r, size), r2);
  }

  lemma RoomForRound(n: nat, rounds: nat, step: nat)
    requires n * step < rounds * step
    ensures n < rounds && (n + 1) * step <= rounds * step
  {
    assert n >= rounds ==> n * step >= rounds * step;
  }

  lemma FeedEmpty(c: bv32)
    ensures Feed(c, []) == c
  {
  }

  lemma JoinThree(l0: bv32, data: seq<bv8>, start: nat, size: nat)
    requires start + 3 * size <= |data|
    ensures var l := Feed(l0, data[..start]);
            var r0 := Feed(l, data[start..start + size]);
            var r1 := Feed(0, data[start + size..start + 2 * size]);
            var r2 := Feed(0, data[start + 2 * size..start + 3 * size]);
            Feed(l0, data[..start + 3 * size]) == Xor(Zeros(Xor(Zeros(r0, size), r1), size), r2)
  {
    hide Xor, Feed, Zeros;
    var a, b := data[start..start + size], data[start + size..start + 2 * size];
    var c := data[start + 2 * size..start + 3 * size];
    var l := Feed(l0, data[..start]);
    assert data[..start + 3 * size] == data[..start] + (a + b + c);
    FeedSplits(l0, data[..start], a + b + c);
    JoinBlocks(l, a + b, c);
    JoinBlocks(l, a, b);
  }

  /** All groups of three blocks of one size. */
  method BlockLoop(l0: bv32, data: seq<bv8>, start: nat, size: nat, unroll: nat, l: bv32) returns (r: bv32, p: nat)
    requires start <= |data| && size > 0
    requires unroll > 0 && exists rounds: nat :: size == rounds * (8 * unroll)
    requires l == Feed(l0, data[..start])
    ensures start <= p <= |data| < p + GROUPS * size
    ensures r == Feed(l0, data[..p])
  {
    hide Feed;
    r, p := l, start;
    while |data| - p >= GROUPS * size
      invariant start <= p <= |data|
      invariant r == Feed(l0, data[..p])
    {
      r := ThreeBlocks(l0, data, p, size, unroll, r);
      p := p + 3 * size;
    }
  }

  lemma BlockSizes()
    ensures BLOCK0_SIZE == 85 * (8 * 8) && BLOCK1_SIZE == 170 * (8 * 1) && BLOCK2_SIZE == 42 * (8 * 1)
  {
  }

  /** STEP1, with the instruction on one byte. */
  method InstructionStep1(l0: bv32, data: seq<bv8>, start: nat, end: nat, l: bv32) returns (r: bv32)
    requires start <= end <= |data|
    requires l == Feed(l0, data[..start])
    ensures r == Feed(l0, data[..end])
  {
    hide Xor, Byte;
    r := l;
    var p := start;
    while p != end
      invariant start <= p <= end
      invariant r == Feed(l0, data[..p])
    {
      assert data[..p + 1][..p] == data[..p];
      r := Byte(Xor(r, data[p] as bv32));
      p := p + 1;
    }
  }

  /** The accelerated form equals the same byte-at-a-time sum. */
  method ExtendSse42(crc: bv32, data: seq<bv8>, address: nat) returns (r: bv32)
    ensures r == Extended(crc, data)
  {
    hide Feed, Xor, ToAligned, Crc32U64, ReadUint64LE;
    var l0 := Xor(crc, XOR);
    var l := l0;
    var p := 0;
    assert l == Feed(l0, data[..0]) by { FeedNothing(l0, data); }
    var x := ToAligned(address, 8);
    if x <= |data| {
      l := InstructionStep1(l0, data, p, x, l);
      p := x;
    }
    BlockSizes();
    l, p := BlockLoop(l0, data, p, BLOCK0_SIZE, 8, l);
    l, p := BlockLoop(l0, data, p, BLOCK1_SIZE, 1, l);
    l, p := BlockLoop(l0, data, p, BLOCK2_SIZE, 1, l);
    while |data| - p >= 16
      invariant p <= |data|
      invariant l == Feed(l0, data[..p])
    {
      FeedRead64(l0, data, 0, p);
      FeedRead64(l0, data, 0, p + 8);
      assert data[0..p] == data[..p] && data[0..p + 8] == data[..p + 8] && data[0..p + 16] == data[..p + 16];
      l := Crc32U64(l, ReadUint64LE(data, p));
      l := Crc32U64(l, ReadUint64LE(data, p + 8));
      p := p + 16;
    }
    l := InstructionStep1(l0, data, p, |data|, l);
    assert data[..|data|] == data;
    r := Xor(l, XOR);
  }

  /** The choice of the form does not show. */
  method Extend(crc: bv32, data: seq<bv8>, address: nat, canUseSse42: bool) returns (r: bv32)
    ensures r == Extended(crc, data)
  {
    if canUseSse42 {
      r := ExtendSse42(crc, data, address);
    } else {
      r := ExtendPortable(crc, data, address);
    }
  }
}
