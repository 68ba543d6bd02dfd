/** The portable form: four interleaved strides (crc32c/crc32c_portable.cc). */
module CrcPortable {
  import opened Crc

  const PREFETCH_HORIZON := 256

  /** The entries of the byte table that the others are sums of. */
  lemma ByteTableBasis()
    ensures ByteEntry(0x01) == 0xf26b8303 && ByteEntry(0x02) == 0xe13b70f7 && ByteEntry(0x04) == 0xc79a971f
    ensures ByteEntry(0x08) == 0x8ad958cf
    ensures ByteEntry(0x10) == 0x105ec76f && ByteEntry(0x20) == 0x20bd8ede && ByteEntry(0x40) == 0x417b1dbc
    ensures ByteEntry(0x80) == 0x82f63b78
  {
  }

  // ------------------------------------------------------------------ the stride tables

  function Part1(c: bv32): bv32 {
    (c >> 8) & 0xff
  }

  function Part2(c: bv32): bv32 {
    (c >> 16) & 0xff
  }

  function Part3(c: bv32): bv32 {
    c >> 24
  }

  function Up8(c: bv32): bv32 {
    c << 8
  }

  function Up16(c: bv32): bv32 {
    c << 16
  }

  function Up24(c: bv32): bv32 {
    c << 24
  }

  function StrideEntry0(i: bv32): bv32 {
    Zeros(Up24(i), 16)
  }

  function StrideEntry1(i: bv32): bv32 {
    Zeros(Up16(i), 16)
  }

  function StrideEntry2(i: bv32): bv32 {
    Zeros(Up8(i), 16)
  }

  function StrideEntry3(i: bv32): bv32 {
    Zeros(i, 16)
  }

  /** One stride advanced over 16 bytes, the next word of it added. */
  function Step4(crc: bv32, word: bv32): bv32 {
    Xor(Xor(Xor(Xor(word, StrideEntry3(LowByte(crc))), StrideEntry2(Part1(crc))), StrideEntry1(Part2(crc))),
        StrideEntry0(Part3(crc)))
  }

  lemma FourParts(c: bv32)
    ensures c == Xor(Xor(Xor(LowByte(c), Up8(Part1(c))), Up16(Part2(c))), Up24(Part3(c)))
  {
  }

  lemma Step4Advances(crc: bv32, word: bv32)
    ensures Step4(crc, word) == Xor(word, Zeros(crc, 16))
  {
    hide Xor, Zeros, LowByte, Part1, Part2, Part3, Up8, Up16, Up24;
    var a, b, c, d := LowByte(crc), Up8(Part1(crc)), Up16(Part2(crc)), Up24(Part3(crc));
    FourParts(crc);
    ZerosLinear(Xor(Xor(a, b), c), d, 16);
    ZerosLinear(Xor(a, b), c, 16);
    ZerosLinear(a, b, 16);
    var A, B, C, D := Zeros(a, 16), Zeros(b, 16), Zeros(c, 16), Zeros(d, 16);
    XorAssoc(word, A, B);
    XorAssoc(word, Xor(A, B), C);
    XorAssoc(word, Xor(Xor(A, B), C), D);
  }

  // ------------------------------------------------------------------ four partial results

  /** The register that four partial results stand for. */
  function Combined(c0: bv32, c1: bv32, c2: bv32, c3: bv32): bv32 {
    Xor(Xor(Xor(Zeros(c0, 16), Zeros(c1, 12)), Zeros(c2, 8)), Zeros(c3, 4))
  }

  lemma ZerosOfThree(a: bv32, b: bv32, c: bv32, n: nat)
    ensures Zeros(Xor(Xor(a, b), c), n) == Xor(Xor(Zeros(a, n), Zeros(b, n)), Zeros(c, n))
  {
    hide Xor, Zeros;
    ZerosLinear(Xor(a, b), c, n);
    ZerosLinear(a, b, n);
  }

  /** Folding in the partial results one after the other gives their combination. */
  lemma CombineInTurn(c0: bv32, c1: bv32, c2: bv32, c3: bv32)
    ensures Combined(c0, c1, c2, c3) == Zeros(Xor(Zeros(Xor(Zeros(Xor(Zeros(c0, 4), c1), 4), c2), 4), c3), 4)
  {
    hide Xor, Zeros;
    ZerosLinear(Zeros(c0, 4), c1, 4);
    ZerosCompose(c0, 4, 4);
    ZerosOfThree(Zeros(c0, 8), Zeros(c1, 4), c2, 4);
    ZerosCompose(c0, 8, 4);
    ZerosCompose(c1, 4, 4);
    ZerosLinear(Xor(Xor(Zeros(c0, 12), Zeros(c1, 8)), Zeros(c2, 4)), c3, 4);
    ZerosOfThree(Zeros(c0, 12), Zeros(c1, 8), Zeros(c2, 4), 4);
    ZerosCompose(c0, 12, 4);
    ZerosCompose(c1, 8, 4);
    ZerosCompose(c2, 4, 4);
  }

  /** The next word goes to the oldest stride, which becomes the newest. */
  lemma Rotate(c0: bv32, c1: bv32, c2: bv32, c3: bv32, word: bv32)
    ensures Zeros(Xor(Combined(c0, c1, c2, c3), word), 4) == Combined(c1, c2, c3, Step4(c0, word))
  {
    hide Xor, Zeros, Step4;
    var z0, z1, z2, z3 := Zeros(c0, 16), Zeros(c1, 12), Zeros(c2, 8), Zeros(c3, 4);
    XorComm(z0, z1);
    XorAssoc(z1, z0, z2);
    XorComm(z0, z2);
    XorAssoc(z1, z2, z0);
    XorAssoc(Xor(z1, z2), z0, z3);
    XorComm(z0, z3);
    XorAssoc(Xor(z1, z2), z3, z0);
    XorAssoc(Xor(Xor(z1, z2), z3), z0, word);
    XorComm(z0, word);
    Step4Advances(c0, word);
    ZerosLinear(Xor(Xor(z1, z2), z3), Step4(c0, word), 4);
    ZerosOfThree(z1, z2, z3, 4);
    ZerosCompose(c1, 12, 4);
    ZerosCompose(c2, 8, 4);
    ZerosCompose(c3, 4, 4);
  }

  /** The four partial results stand for what was fed so far. */
  ghost predicate Holds(l: bv32, data: seq<bv8>, p: nat, c0: bv32, c1: bv32, c2: bv32, c3: bv32) {
    p <= |data| && Combined(c0, c1, c2, c3) == Feed(l, data[..p])
  }

  lemma LoadHolds(l: bv32, data: seq<bv8>, p: nat)
    requires p + 16 <= |data|
    ensures Holds(l, data, p + 16, Xor(ReadUint32LE(data, p), Feed(l, data[..p])), ReadUint32LE(data, p + 4),
                  ReadUint32LE(data, p + 8), ReadUint32LE(data, p + 12))
  {
    hide Xor, Zeros, Feed, ReadUint32LE;
    var w0, w1 := ReadUint32LE(data, p), ReadUint32LE(data, p + 4);
    var w2, w3 := ReadUint32LE(data, p + 8), ReadUint32LE(data, p + 12);
    FeedRead(l, data, p);
    FeedRead(l, data, p + 4);
    FeedRead(l, data, p + 8);
    FeedRead(l, data, p + 12);
    XorComm(w0, Feed(l, data[..p]));
    CombineInTurn(Xor(w0, Feed(l, data[..p])), w1, w2, w3);
  }

  lemma RotateHolds(l: bv32, data: seq<bv8>, p: nat, c0: bv32, c1: bv32, c2: bv32, c3: bv32)
    requires Holds(l, data, p, c0, c1, c2, c3) && p + 4 <= |data|
    ensures Holds(l, data, p + 4, c1, c2, c3, Step4(c0, ReadUint32LE(data, p)))
  {
    hide Xor, Zeros, Feed, ReadUint32LE, Combined, Step4;
    FeedRead(l, data, p);
    Rotate(c0, c1, c2, c3, ReadUint32LE(data, p));
  }

  // ------------------------------------------------------------------ the code

  /** STEP1 until `end`. */
  method Step1(l0: bv32, data: seq<bv8>, start: nat, end: nat, l: bv32) returns (r: bv32)
    requires start <= end <= |data|
    requires l == Feed(l0, data[..start])
    ensures r == Feed(l0, data[..end])
  {
    hide Xor, Byte, LowByte, ShiftByte, ByteEntry;
    r := l;
    var p := start;
    while p != end
      invariant start <= p <= end
      invariant r == Feed(l0, data[..p])
    {
      assert data[..p + 1][..p] == data[..p];
      ByteStep(r, data[p]);
      var c := Xor(LowByte(r), data[p] as bv32);
      r := Xor(ByteEntry(c), ShiftByte(r));
      p := p + 1;
    }
  }

  /** STEP16: the four strides, each advanced over its word. */
  method Step16(ghost l: bv32, data: seq<bv8>, p: nat, c0: bv32, c1: bv32, c2: bv32, c3: bv32)
    returns (d0: bv32, d1: bv32, d2: bv32, d3: bv32)
    requires Holds(l, data, p, c0, c1, c2, c3) && p + 16 <= |data|
    ensures Holds(l, data, p + 16, d0, d1, d2, d3)
    ensures Combined(d0, d1, d2, d3) == Feed(l, data[..p + 16])
  {
    hide Step4, ReadUint32LE, Combined, Feed;
    d0 := Step4(c0, ReadUint32LE(data, p));
    d1 := Step4(c1, ReadUint32LE(data, p + 4));
    d2 := Step4(c2, ReadUint32LE(data, p + 8));
    d3 := Step4(c3, ReadUint32LE(data, p + 12));
    RotateHolds(l, data, p, c0, c1, c2, c3);
    RotateHolds(l, data, p + 4, c1, c2, c3, d0);
    RotateHolds(l, data, p + 8, c2, c3, d0, d1);
    RotateHolds(l, data, p + 12, c3, d0, d1, d2);
  }

  /** STEP4W: the word folded into the register, by four lookups. */
  method Step4W(word: bv32, l: bv32) returns (r: bv32)
    ensures r == Zeros(Xor(word, l), 4)
  {
    hide Xor, Byte, LowByte, ShiftByte, ByteEntry;
    r := Xor(word, l);
    var i := 0;
    while i < 4
      invariant 0 <= i <= 4
      invariant r == Zeros(Xor(word, l), i)
    {
      ByteByTable(r);
      XorComm(ShiftByte(r), ByteEntry(LowByte(r)));
      r := Xor(ShiftByte(r), ByteEntry(LowByte(r)));
      i := i + 1;
    }
  }

  method Combine(c0: bv32, c1: bv32, c2: bv32, c3: bv32) returns (l: bv32)
    ensures l == Combined(c0, c1, c2, c3)
  {
    hide Xor, Zeros, Combined;
    l := Step4W(c0, 0);
    XorZero(c0);
    XorComm(c1, l);
    l := Step4W(c1, l);
    XorComm(c2, l);
    l := Step4W(c2, l);
    XorComm(c3, l);
    l := Step4W(c3, l);
    CombineInTurn(c0, c1, c2, c3);
  }

  /** The strides over all words from `start` on. */
  method Strides(l0: bv32, data: seq<bv8>, start: nat, l: bv32) returns (r: bv32, p: nat)
    requires start + 16 <= |data|
    requires l == Feed(l0, data[..start])
    ensures p <= |data| < p + 4
    ensures r == Feed(l0, data[..p])
  {
    hide Step4, ReadUint32LE, Combined, Feed, Holds, Xor;
    p := start;
    var c0 := Xor(ReadUint32LE(data, p), l);
    var c1 := ReadUint32LE(data, p + 4);
    var c2 := ReadUint32LE(data, p + 8);
    var c3 := ReadUint32LE(data, p + 12);
    LoadHolds(l0, data, p);
    p := p + 16;
    while |data| - p > PREFETCH_HORIZON
      invariant p <= |data|
      invariant Holds(l0, data, p, c0, c1, c2, c3)
    {
      c0, c1, c2, c3 := Step16(l0, data, p, c0, c1, c2, c3);
      c0, c1, c2, c3 := Step16(l0, data, p + 16, c0, c1, c2, c3);
      c0, c1, c2, c3 := Step16(l0, data, p + 32, c0, c1, c2, c3);
      c0, c1, c2, c3 := Step16(l0, data, p + 48, c0, c1, c2, c3);
      p := p + 64;
    }
    while |data| - p >= 16
      invariant p <= |data|
      invariant Holds(l0, data, p, c0, c1, c2, c3)
    {
      c0, c1, c2, c3 := Step16(l0, data, p, c0, c1, c2, c3);
      p := p + 16;
    }
    while |data| - p >= 4
      invariant p <= |data|
      invariant Holds(l0, data, p, c0, c1, c2, c3)
    {
      RotateHolds(l0, data, p, c0, c1, c2, c3);
      c0, c1, c2, c3 := c1, c2, c3, Step4(c0, ReadUint32LE(data, p));
      p := p + 4;
    }
    r := Combine(c0, c1, c2, c3);
    HoldsMeans(l0, data, p, c0, c1, c2, c3);
  }

  lemma HoldsMeans(l: bv32, data: seq<bv8>, p: nat, c0: bv32, c1: bv32, c2: bv32, c3: bv32)
    requires Holds(l, data, p, c0, c1, c2, c3)
    ensures p <= |data| && Combined(c0, c1, c2, c3) == Feed(l, data[..p])
  {
  }

  /** How far the next multiple of `n` is from `address`. */
  function ToAligned(address: nat, n: nat): (r: nat)
    requires n > 0
    ensures r < n && exists k: nat :: address + r == k * n
  {
    var k := address / n;
    assert address == k * n + address % n;
    if address % n == 0 then
      0
    else
      assert address + (n - address % n) == (k + 1) * n;
      n - address % n
  }

  /** The portable form equals the byte-at-a-time sum, for every buffer, length and alignment. */
  method ExtendPortable(crc: bv32, data: seq<bv8>, address: nat) returns (r: bv32)
    ensures r == Extended(crc, data)
  {
    hide Feed, Xor, ToAligned;
    var l0 := Xor(crc, XOR);
    var l := l0;
    var p := 0;
    assert l == Feed(l0, data[..0]) by { FeedNothing(l0, data); }
    var x := ToAligned(address, 4);
    if x <= |data| {
      l := Step1(l0, data, p, x, l);
      p := x;
    }
    if |data| - p >= 16 {
      l, p := Strides(l0, data, p, l);
    }
    l := Step1(l0, data, p, |data|, l);
    assert data[..|data|] == data;
    r := Xor(l, XOR);
  }

  lemma FeedNothing(l: bv32, data: seq<bv8>)
    ensures Feed(l, data[..0]) == l
  {
  }
}
