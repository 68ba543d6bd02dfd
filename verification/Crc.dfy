/** CRC32C (section 12.1 of RFC 3720): what the register does with zeros and with data
    (crc32c/crc32c_portable.cc, crc32c/crc32c_sse42.cc).

    A table entry is written as the operator it stands for: so many zero bytes fed to a register that
    holds the index, shifted to its place. */
module Crc {
  const POLYNOMIAL: bv32 := 0x82f63b78
  const XOR: bv32 := 0xffffffff

  // ------------------------------------------------------------------ the reference

  function Xor(a: bv32, b: bv32): bv32 {
    a ^ b
  }

  predicate LowBit(c: bv32) {
    c & 1 == 1
  }

  function Half(c: bv32): bv32 {
    c >> 1
  }

  /** One zero bit fed to the register, low bit first. */
  function Bit(c: bv32): bv32 {
    if LowBit(c) then Xor(Half(c), POLYNOMIAL) else Half(c)
  }

  /** One zero byte. */
  function Byte(c: bv32): bv32 {
    Bit(Bit(Bit(Bit(Bit(Bit(Bit(Bit(c))))))))
  }

  /** `n` zero bytes. */
  function Zeros(c: bv32, n: nat): bv32 {
    if n == 0 then c else Byte(Zeros(c, n - 1))
  }

  /** The register after the bytes of `data`. */
  function Feed(c: bv32, data: seq<bv8>): bv32 {
    if data == [] then c else Byte(Xor(Feed(c, data[..|data| - 1]), data[|data| - 1] as bv32))
  }

  function Extended(crc: bv32, data: seq<bv8>): bv32 {
    Xor(Feed(Xor(crc, XOR), data), XOR)
  }

  // ------------------------------------------------------------------ exclusive or

  lemma XorAssoc(a: bv32, b: bv32, c: bv32)
    ensures Xor(Xor(a, b), c) == Xor(a, Xor(b, c))
  {
  }

  lemma XorComm(a: bv32, b: bv32)
    ensures Xor(a, b) == Xor(b, a)
  {
  }

  lemma XorZero(a: bv32)
    ensures Xor(a, 0) == a && Xor(0, a) == a
  {
  }

  lemma XorTwice(a: bv32, b: bv32)
    ensures Xor(Xor(a, b), b) == a
  {
  }

  // ------------------------------------------------------------------ linearity

  lemma LowBitXor(a: bv32, b: bv32)
    ensures LowBit(Xor(a, b)) == (LowBit(a) != LowBit(b))
  {
  }

  lemma HalfXor(a: bv32, b: bv32)
    ensures Half(Xor(a, b)) == Xor(Half(a), Half(b))
  {
  }

  lemma BitLinear(a: bv32, b: bv32)
    ensures Bit(Xor(a, b)) == Xor(Bit(a), Bit(b))
  {
    hide Xor, Half, LowBit;
    LowBitXor(a, b);
    HalfXor(a, b);
    XorAssoc(Half(a), Half(b), POLYNOMIAL);
    XorComm(Half(b), POLYNOMIAL);
    XorAssoc(Half(a), POLYNOMIAL, Half(b));
    XorTwice(Xor(Half(a), Half(b)), POLYNOMIAL);
    XorAssoc(Xor(Half(a), POLYNOMIAL), Half(b), POLYNOMIAL);
  }

  lemma ByteLinear(a: bv32, b: bv32)
    ensures Byte(Xor(a, b)) == Xor(Byte(a), Byte(b))
  {
    hide Bit, Xor;
    BitLinear(a, b);
    BitLinear(Bit(a), Bit(b));
    BitLinear(Bit(Bit(a)), Bit(Bit(b)));
    BitLinear(Bit(Bit(Bit(a))), Bit(Bit(Bit(b))));
    BitLinear(Bit(Bit(Bit(Bit(a)))), Bit(Bit(Bit(Bit(b)))));
    BitLinear(Bit(Bit(Bit(Bit(Bit(a))))), Bit(Bit(Bit(Bit(Bit(b))))));
    BitLinear(Bit(Bit(Bit(Bit(Bit(Bit(a)))))), Bit(Bit(Bit(Bit(Bit(Bit(b)))))));
    BitLinear(Bit(Bit(Bit(Bit(Bit(Bit(Bit(a))))))), Bit(Bit(Bit(Bit(Bit(Bit(Bit(b))))))));
  }

  lemma {:induction false} ZerosLinear(a: bv32, b: bv32, n: nat)
    ensures Zeros(Xor(a, b), n) == Xor(Zeros(a, n), Zeros(b, n))
  {
    hide Byte, Xor;
    if n > 0 {
      ZerosLinear(a, b, n - 1);
      ByteLinear(Zeros(a, n - 1), Zeros(b, n - 1));
    }
  }

  lemma {:induction false} ZerosCompose(c: bv32, n: nat, m: nat)
    ensures Zeros(Zeros(c, n), m) == Zeros(c, n + m)
  {
    hide Byte;
    if m > 0 {
      ZerosCompose(c, n, m - 1);
    }
  }

  /** What the register held before contributes by itself. */
  lemma {:induction false} FeedLinear(a: bv32, b: bv32, data: seq<bv8>)
    ensures Feed(Xor(a, b), data) == Xor(Zeros(a, |data|), Feed(b, data))
  {
    hide Byte, Xor;
    if data != [] {
      var rest, last := data[..|data| - 1], data[|data| - 1] as bv32;
      FeedLinear(a, b, rest);
      XorAssoc(Zeros(a, |rest|), Feed(b, rest), last);
      ByteLinear(Zeros(a, |rest|), Xor(Feed(b, rest), last));
    }
  }

  lemma {:induction false} FeedSplits(c: bv32, a: seq<bv8>, b: seq<bv8>)
    ensures Feed(c, a + b) == Feed(Feed(c, a), b)
  {
    hide Byte, Xor;
    if b == [] {
      assert a + b == a;
    } else {
      assert (a + b)[..|a + b| - 1] == a + b[..|b| - 1];
      FeedSplits(c, a, b[..|b| - 1]);
    }
  }

  // ------------------------------------------------------------------ the byte table

  /** An entry of the byte table. */
  function ByteEntry(i: bv32): bv32 {
    Byte(i)
  }

  function LowByte(c: bv32): bv32 {
    c & 0xff
  }

  function HighBytes(c: bv32): bv32 {
    c & 0xffffff00
  }

  function ShiftByte(c: bv32): bv32 {
    c >> 8
  }

  /** Eight bits that are all zero just go. */
  lemma ByteShifts(c: bv32)
    requires LowByte(c) == 0
    ensures Byte(c) == ShiftByte(c)
  {
    assert Bit(c) == c >> 1;
    assert Bit(c >> 1) == c >> 2;
    assert Bit(c >> 2) == c >> 3;
    assert Bit(c >> 3) == c >> 4;
    assert Bit(c >> 4) == c >> 5;
    assert Bit(c >> 5) == c >> 6;
    assert Bit(c >> 6) == c >> 7;
    assert Bit(c >> 7) == c >> 8;
  }

  lemma LowAndHigh(c: bv32)
    ensures c == Xor(LowByte(c), HighBytes(c)) && LowByte(HighBytes(c)) == 0 && ShiftByte(HighBytes(c)) == ShiftByte(c)
  {
  }

  /** One lookup does eight bits. */
  lemma ByteByTable(c: bv32)
    ensures Byte(c) == Xor(ByteEntry(LowByte(c)), ShiftByte(c))
  {
    hide Byte, Xor, LowByte, HighBytes, ShiftByte;
    LowAndHigh(c);
    ByteLinear(LowByte(c), HighBytes(c));
    ByteShifts(HighBytes(c));
  }

  lemma ByteIsLow(l: bv32, b: bv8)
    ensures LowByte(Xor(l, b as bv32)) == Xor(LowByte(l), b as bv32) && ShiftByte(Xor(l, b as bv32)) == ShiftByte(l)
  {
  }

  /** The lookup of one byte of data, as the code writes it. */
  lemma ByteStep(l: bv32, b: bv8)
    ensures Xor(ByteEntry(Xor(LowByte(l), b as bv32)), ShiftByte(l)) == Byte(Xor(l, b as bv32))
  {
    hide Byte, Xor, LowByte, ShiftByte;
    ByteIsLow(l, b);
    ByteByTable(Xor(l, b as bv32));
  }

  // ------------------------------------------------------------------ words

  function Word(b0: bv8, b1: bv8, b2: bv8, b3: bv8): bv32 {
    (b0 as bv32) | ((b1 as bv32) << 8) | ((b2 as bv32) << 16) | ((b3 as bv32) << 24)
  }

  function ReadUint32LE(data: seq<bv8>, p: nat): bv32
    requires p + 4 <= |data|
  {
    Word(data[p], data[p + 1], data[p + 2], data[p + 3])
  }

  lemma WordParts(b0: bv8, b1: bv8, b2: bv8, b3: bv8)
    ensures var w := Word(b0, b1, b2, b3);
            w == Xor(b0 as bv32, HighBytes(w)) && LowByte(HighBytes(w)) == 0
            && ShiftByte(HighBytes(w)) == Word(b1, b2, b3, 0)
  {
  }

  lemma WordShift(b0: bv8, b1: bv8, b2: bv8, b3: bv8, l: bv32)
    ensures Byte(Xor(l, Word(b0, b1, b2, b3))) == Xor(Byte(Xor(l, b0 as bv32)), Word(b1, b2, b3, 0))
  {
    hide Byte, Word, Xor, HighBytes, LowByte, ShiftByte;
    var high := HighBytes(Word(b0, b1, b2, b3));
    WordParts(b0, b1, b2, b3);
    XorAssoc(l, b0 as bv32, high);
    ByteLinear(Xor(l, b0 as bv32), high);
    ByteShifts(high);
  }

  lemma FeedOne(c: bv32, b: bv8)
    ensures Feed(c, [b]) == Byte(Xor(c, b as bv32))
  {
    hide Byte, Xor;
    assert [b][..0] == [];
    assert Feed(c, [b][..0]) == c;
  }

  lemma FeedNext(c: bv32, b: bv8, rest: seq<bv8>)
    ensures Feed(c, [b] + rest) == Feed(Byte(Xor(c, b as bv32)), rest)
  {
    hide Byte, Feed, Xor;
    FeedSplits(c, [b], rest);
    FeedOne(c, b);
  }

  lemma NoWord()
    ensures Word(0, 0, 0, 0) == 0
  {
  }

  lemma FourZeros(c: bv32)
    ensures Zeros(c, 4) == Byte(Byte(Byte(Byte(c))))
  {
    hide Byte;
    assert Zeros(c, 1) == Byte(c);
    assert Zeros(c, 2) == Byte(Zeros(c, 1));
    assert Zeros(c, 3) == Byte(Zeros(c, 2));
  }

  /** Four bytes, read as a little-endian word, are fed in one go. */
  lemma FeedWord(c: bv32, b0: bv8, b1: bv8, b2: bv8, b3: bv8)
    ensures Feed(c, [b0, b1, b2, b3]) == Zeros(Xor(c, Word(b0, b1, b2, b3)), 4)
  {
    hide Byte, Feed, Word, Xor;
    var c1 := Byte(Xor(c, b0 as bv32));
    var c2 := Byte(Xor(c1, b1 as bv32));
    var c3 := Byte(Xor(c2, b2 as bv32));
    assert [b0, b1, b2, b3] == [b0] + [b1, b2, b3];
    assert [b1, b2, b3] == [b1] + [b2, b3];
    assert [b2, b3] == [b2] + [b3];
    FeedNext(c, b0, [b1, b2, b3]);
    FeedNext(c1, b1, [b2, b3]);
    FeedNext(c2, b2, [b3]);
    FeedOne(c3, b3);
    WordShift(b0, b1, b2, b3, c);
    WordShift(b1, b2, b3, 0, c1);
    WordShift(b2, b3, 0, 0, c2);
    WordShift(b3, 0, 0, 0, c3);
    NoWord();
    XorZero(Byte(Xor(c3, b3 as bv32)));
    FourZeros(Xor(c, Word(b0, b1, b2, b3)));
  }

  lemma FeedRead(c: bv32, data: seq<bv8>, p: nat)
    requires p + 4 <= |data|
    ensures Feed(c, data[..p + 4]) == Zeros(Xor(Feed(c, data[..p]), ReadUint32LE(data, p)), 4)
  {
    hide Feed, Word, Xor;
    assert data[..p + 4] == data[..p] + [data[p], data[p + 1], data[p + 2], data[p + 3]];
    FeedSplits(c, data[..p], [data[p], data[p + 1], data[p + 2], data[p + 3]]);
    FeedWord(Feed(c, data[..p]), data[p], data[p + 1], data[p + 2], data[p + 3]);
  }

  // ------------------------------------------------------------------ what the sum is

  /** A sum taken on over its own four bytes, low byte first, is the same for all data. */
  lemma Residue(crc: bv32, data: seq<bv8>, b0: bv8, b1: bv8, b2: bv8, b3: bv8)
    requires Word(b0, b1, b2, b3) == Extended(crc, data)
    ensures Extended(crc, data + [b0, b1, b2, b3]) == 0x48674bc7
  {
    hide Feed, Word, Xor, Zeros;
    var c := Feed(Xor(crc, XOR), data);
    FeedSplits(Xor(crc, XOR), data, [b0, b1, b2, b3]);
    FeedWord(c, b0, b1, b2, b3);
    assert Xor(c, Xor(c, XOR)) == XOR by { XorBack(c, XOR); }
    ResidueOfOnes();
  }

  lemma XorBack(a: bv32, b: bv32)
    ensures Xor(a, Xor(a, b)) == b
  {
  }

  lemma ResidueOfOnes()
    ensures Xor(Zeros(0xffffffff, 4), 0xffffffff) == 0x48674bc7
  {
    FourZeros(0xffffffff);
    assert Byte(0xffffffff) == 0xad82acae;
    assert Byte(0xad82acae) == 0x0e9e882d;
    assert Byte(0x0e9e882d) == 0x9f9b5c85;
    assert Byte(0x9f9b5c85) == 0xb798b438;
  }

  lemma {:induction false} FeedZeros(c: bv32, n: nat)
    ensures Feed(c, seq(n, _ => 0)) == Zeros(c, n)
  {
    hide Byte;
    if n > 0 {
      FeedZeros(c, n - 1);
      assert seq(n, _ => 0 as bv8)[..n - 1] == seq(n - 1, _ => 0 as bv8);
      XorZero(Zeros(c, n - 1));
    }
  }

  lemma Step4(c: bv32, c1: bv32, c2: bv32, c3: bv32, c4: bv32, n: nat)
    requires Byte(c) == c1 && Byte(c1) == c2 && Byte(c2) == c3 && Byte(c3) == c4
    ensures Zeros(c, n + 4) == Zeros(c4, n)
  {
    hide Byte;
    FourZeros(c);
    ZerosCompose(c, 4, n);
  }

  /** The first standard result of appendix B.4 of RFC 3720: thirty-two bytes of zeros. */
  lemma SumOfZeros()
    ensures Extended(0, seq(32, _ => 0)) == 0x8a9136aa
  {
    FeedZeros(0xffffffff, 32);
    ManyZeros();
    assert Xor(0, XOR) == 0xffffffff && Xor(0x756ec955, XOR) == 0x8a9136aa;
  }

  lemma ManyZeros()
    ensures Zeros(0xffffffff, 32) == 0x756ec955
  {
    hide Zeros, Byte;
    FirstZeros();
    OtherZeros();
    ZerosCompose(0xffffffff, 16, 16);
  }

  lemma FirstZeros()
    ensures Zeros(0xffffffff, 16) == 0xbd8f6515
  {
    hide Zeros;
    Step4(0xffffffff, 0xad82acae, 0x0e9e882d, 0x9f9b5c85, 0xb798b438, 12);
    Step4(0xb798b438, 0xba8d89ca, 0xa8d58375, 0x44c19592, 0x73d74d75, 8);
    Step4(0x73d74d75, 0x441a975c, 0x1c220f94, 0x552e4907, 0xd49f4aa2, 4);
    Step4(0xd49f4aa2, 0x43a45a1b, 0x8994c80e, 0xacf12bef, 0xbd8f6515, 0);
    NoZeros(0xbd8f6515);
  }

  lemma OtherZeros()
    ensures Zeros(0xbd8f6515, 16) == 0x756ec955
  {
    hide Zeros;
    Step4(0xbd8f6515, 0x25125c16, 0x36da32db, 0x4a6c90a2, 0x433aa9c1, 12);
    Step4(0x433aa9c1, 0x31a59f6e, 0xcd8f89da, 0xb8fc461a, 0x7b041311, 8);
    Step4(0x7b041311, 0xe24e407f, 0x2f692669, 0x195b2188, 0x08363896, 4);
    Step4(0x08363896, 0xb4012dc7, 0x17f34302, 0xe12c83b4, 0x756ec955, 0);
    NoZeros(0x756ec955);
  }

  lemma NoZeros(c: bv32)
    ensures Zeros(c, 0) == c
  {
  }
}
