/** What is on disk, byte by byte: the formats as the documents give them, apart from the code that writes and reads
    them (doc/log_format.md, util/coding.h, db/write_batch.cc, db/version_edit.cc). */
module Formats {
  import opened Keys
  import opened Octets
  import opened Crc
  import opened Coding
  import LogFormat
  import WriteBatches
  import VersionEdits

  // ------------------------------------------------------------------ numbers

  /** The value of digits to the base 128, lowest first, in the low seven bits of the bytes. */
  function Base128(bytes: seq<bv8>): nat {
    if bytes == [] then 0 else NumberOf(bytes[0]) % 128 + 128 * Base128(bytes[1..])
  }

  /** A varint is the digits of the number to the base 128, lowest first and without a leading zero; all bytes but the
      last have the top bit set. */
  lemma {:induction false} VarintDigits(n: nat)
    ensures Varint(n) != [] && Base128(Varint(n)) == n && Marked(Varint(n))
    ensures |Varint(n)| > 1 ==> NumberOf(Varint(n)[|Varint(n)| - 1]) != 0
    decreases n
  {
    hide Octet, NumberOf, Marked;
    if n < 128 {
      OctetRoundTrip(n);
      assert [Octet(n)][1..] == [];
      MarkedLast(Octet(n));
    } else {
      OctetRoundTrip(128 + n % 128);
      VarintDigits(n / 128);
      assert Varint(n)[1..] == Varint(n / 128);
      MarkedMore(Octet(128 + n % 128), Varint(n / 128));
      if |Varint(n / 128)| == 1 {
        OneDigit(Varint(n / 128));
      }
    }
  }

  /** All bytes but the last have the top bit set. */
  ghost predicate Marked(bytes: seq<bv8>) {
    forall i :: 0 <= i < |bytes| ==> (NumberOf(bytes[i]) >= 128 <==> i < |bytes| - 1)
  }

  lemma MarkedLast(b: bv8)
    requires NumberOf(b) < 128
    ensures Marked([b])
  {
    hide NumberOf;
  }

  lemma MarkedMore(b: bv8, bytes: seq<bv8>)
    requires NumberOf(b) >= 128 && bytes != [] && Marked(bytes)
    ensures Marked([b] + bytes)
  {
    hide NumberOf;
    var all := [b] + bytes;
    forall i | 0 <= i < |all| ensures NumberOf(all[i]) >= 128 <==> i < |all| - 1 {
      assert i > 0 ==> all[i] == bytes[i - 1];
    }
  }

  lemma OneDigit(bytes: seq<bv8>)
    requires |bytes| == 1
    ensures Base128(bytes) == NumberOf(bytes[0]) % 128
  {
    assert bytes[1..] == [];
  }

  // ------------------------------------------------------------------ log files

  /** The stored form of a checksum: rotated right by 15 bits, and a constant added. */
  lemma MaskRotates(crc: bv32)
    ensures LogFormat.Mask(crc) == crc.RotateRight(15) + 0xa282ead8
  {
  }

  /** The number at the end of an internal key fits into its eight bytes for all sequence numbers up to the largest, and
      for no other. */
  lemma TagsFit(k: InternalKey)
    ensures Tag(k) < TWO_64 <==> k.sequence <= MAX_SEQUENCE
  {
  }

  /** A fragment: four bytes for the checksum of all from the type on, two for the length of the payload, one for the
      type, and the payload. */
  lemma FragmentBytes(kind: bv8, payload: seq<bv8>)
    requires |payload| < 65536
    ensures var p := LogFormat.Physical(kind, payload);
            && |p| == 7 + |payload| && p[6] == kind && p[7..] == payload
            && NumberOf(p[4]) + 256 * NumberOf(p[5]) == |payload|
            && Word(p[0], p[1], p[2], p[3]) == Extended(0, p[6..]).RotateRight(15) + 0xa282ead8
  {
    hide Octet, NumberOf, Word, LogFormat.Mask, Extended;
    var p := LogFormat.Physical(kind, payload);
    assert p[6..] == [kind] + payload;
    MaskRotates(Extended(0, [kind] + payload));
    LogFormat.Fixed32RoundTrip(LogFormat.Mask(LogFormat.Checksum(kind, payload)));
    LogFormat.LengthRoundTrip(|payload|);
  }

  /** The types of fragments: 1 for a whole record, 2 for the first part of one, 3 for a middle part, 4 for the last. */
  lemma FragmentTypes()
    ensures LogFormat.KindOf(true, true) == 1 && LogFormat.KindOf(true, false) == 2
    ensures LogFormat.KindOf(false, false) == 3 && LogFormat.KindOf(false, true) == 4
  {
  }

  /** The example of the format's description: of records of 1000, 97270 and 8000 bytes the first is whole in the first
      block, the second takes the rest of that, all of the second block and the third but for six bytes, which are
      zero, and the last is whole in the fourth block. */
  lemma ThreeRecords(a: seq<bv8>, b: seq<bv8>, c: seq<bv8>)
    requires |a| == 1000 && |b| == 97270 && |c| == 8000
    ensures LogFormat.LogOf([a, b, c]) ==
            LogFormat.Physical(1, a)
            + (LogFormat.Physical(2, b[..31754]) + (LogFormat.Physical(3, b[31754..64515])
               + LogFormat.Physical(4, b[64515..])))
            + ([0, 0, 0, 0, 0, 0] + LogFormat.Physical(1, c))
    ensures 7 + 1000 + 7 + 31754 == 32768 && 7 + 32761 == 32768 && 7 + |b[64515..]| + 6 == 32768
  {
    hide LogFormat.Physical, LogFormat.Fragments;
    var fa, fb, fc := LogFormat.Physical(1, a), ThreeParts(b), [0, 0, 0, 0, 0, 0] + LogFormat.Physical(1, c);
    FirstRecord(a);
    SecondRecord(b);
    ThirdRecord(c);
    PartLengths(a, b);
    assert [a, b, c][..2] == [a, b] && [a, b][..1] == [a] && [a][..0] == [];
    assert LogFormat.LogOf([a]) == fa;
    assert LogFormat.LogOf([a, b]) == fa + fb;
  }

  ghost function ThreeParts(b: seq<bv8>): seq<bv8>
    requires |b| == 97270
  {
    LogFormat.Physical(2, b[..31754]) + (LogFormat.Physical(3, b[31754..64515]) + LogFormat.Physical(4, b[64515..]))
  }

  lemma PartLengths(a: seq<bv8>, b: seq<bv8>)
    requires |a| == 1000 && |b| == 97270
    ensures |LogFormat.Physical(1, a)| == 1007 && |ThreeParts(b)| == 97291
  {
  }

  lemma FirstRecord(a: seq<bv8>)
    requires |a| == 1000
    ensures LogFormat.Fragments(true, 0, a) == LogFormat.Physical(1, a)
  {
    hide LogFormat.Physical;
    assert LogFormat.Taken(0, a) == 1000 && a[..1000] == a;
    assert LogFormat.Zeroes(LogFormat.Padding(0)) == [];
  }

  lemma SecondRecord(b: seq<bv8>)
    requires |b| == 97270
    ensures LogFormat.Fragments(true, 1007, b) == ThreeParts(b)
  {
    hide LogFormat.Physical;
    Part(true, 1007, b, 31754);
    var rest := b[31754..];
    Part(false, 32768, rest, 32761);
    assert rest[..32761] == b[31754..64515] && rest[32761..] == b[64515..];
    Part(false, 65536, b[64515..], 32755);
    assert b[64515..][..32755] == b[64515..];
  }

  lemma Part(begin: bool, o: nat, data: seq<bv8>, n: nat)
    requires LogFormat.Padding(o) == 0 && n == LogFormat.Taken(o, data)
    ensures LogFormat.Fragments(begin, o, data) ==
            LogFormat.Physical(LogFormat.KindOf(begin, n == |data|), data[..n])
            + if n == |data| then [] else LogFormat.Fragments(false, o + 7 + n, data[n..])
  {
    hide LogFormat.Physical, LogFormat.KindOf;
    assert LogFormat.Zeroes(0) == [];
  }

  lemma ThirdRecord(c: seq<bv8>)
    requires |c| == 8000
    ensures LogFormat.Fragments(true, 98298, c) == [0, 0, 0, 0, 0, 0] + LogFormat.Physical(1, c)
  {
    hide LogFormat.Physical;
    assert LogFormat.Padding(98298) == 6 && LogFormat.Taken(98298, c) == 8000 && c[..8000] == c;
    assert LogFormat.Zeroes(6) == [0, 0, 0, 0, 0, 0];
  }

  // ------------------------------------------------------------------ batches and edits

  /** A batch: eight bytes for the sequence number and four for the count, lowest first, and the operations: 1, the key
      and the value for a put, 0 and the key for a deletion. */
  lemma BatchBytes()
    ensures WriteBatches.Encoded(0x1234, [WriteBatches.Put([7], [8, 9]), WriteBatches.Delete([5])]) ==
            [0x34, 0x12, 0, 0, 0, 0, 0, 0] + [2, 0, 0, 0] + ([1, 1, 7, 2, 8, 9] + [0, 1, 5])
  {
    var put, delete := WriteBatches.Put([7], [8, 9]), WriteBatches.Delete([5]);
    SmallOctets();
    assert WriteBatches.EncodeOp(put) == [1, 1, 7, 2, 8, 9];
    assert WriteBatches.EncodeOp(delete) == [0, 1, 5];
    assert WriteBatches.EncodeOps([put, delete]) == [1, 1, 7, 2, 8, 9] + [0, 1, 5] by {
      assert [put, delete][..1] == [put] && [put][..0] == [];
      assert WriteBatches.EncodeOps([put]) == [1, 1, 7, 2, 8, 9];
    }
    FixedSequence();
    FixedCount();
  }

  lemma SmallOctets()
    ensures Octet(0) == 0 && Octet(1) == 1 && Octet(2) == 2 && Octet(3) == 3 && Octet(0x12) == 0x12
    ensures Octet(0x34) == 0x34
  {
  }

  lemma FixedSequence()
    ensures Fixed(0x1234, 8) == [0x34, 0x12, 0, 0, 0, 0, 0, 0]
  {
    SmallOctets();
    hide Octet;
    FixedZero(6);
    assert Fixed(0x12, 7) == [0x12] + Fixed(0, 6);
    assert Fixed(0x1234, 8) == [0x34] + Fixed(0x12, 7);
    assert seq<bv8>(6, _ => 0) == [0, 0, 0, 0, 0, 0];
  }

  lemma FixedCount()
    ensures Fixed(2, 4) == [2, 0, 0, 0]
  {
    SmallOctets();
    hide Octet;
    FixedZero(3);
    assert Fixed(2, 4) == [2] + Fixed(0, 3);
    assert seq<bv8>(3, _ => 0) == [0, 0, 0];
  }

  lemma {:induction false} FixedZero(k: nat)
    ensures Fixed(0, k) == seq<bv8>(k, _ => 0)
  {
    SmallOctets();
    hide Octet;
    if k > 0 {
      FixedZero(k - 1);
      assert Fixed(0, k) == [0] + Fixed(0, k - 1);
    }
  }

  /** Each kind of field has its tag. */
  lemma FieldTags(f: VersionEdits.Field)
    ensures VersionEdits.EncodeField(f) != []
    ensures VersionEdits.EncodeField(f)[0] ==
            match f
            case Comparator(_) => 1
            case LogNumber(_) => 2
            case NextFile(_) => 3
            case LastSequence(_) => 4
            case CompactPointer(_, _) => 5
            case DeletedFile(_, _) => 6
            case NewFile(_, _) => 7
            case PrevLogNumber(_) => 9
  {
    TagOctets();
  }

  lemma TagOctets()
    ensures Octet(1) == 1 && Octet(2) == 2 && Octet(3) == 3 && Octet(4) == 4 && Octet(5) == 5 && Octet(6) == 6
    ensures Octet(7) == 7 && Octet(9) == 9
  {
  }

  /** A level is read if and only if it is one of the seven. */
  lemma SevenLevels(n: nat, rest: seq<bv8>)
    requires n < TWO_32
    ensures VersionEdits.GetLevel(Varint(n) + rest) == if n < 7 then Some((n, rest)) else None
  {
    hide Varint, GetVarint32;
    Varint32RoundTrip(n, rest);
  }

  /** The parts of a field in their order: of a new file its level, number, size, first and last key. */
  lemma FieldBytes()
    ensures VersionEdits.EncodeField(VersionEdits.NewFile(3, VersionEdits.FileMeta(300, 4, [10], [20, 21]))) ==
            [7, 3, 0xac, 2, 4, 1, 10, 2, 20, 21]
    ensures VersionEdits.EncodeField(VersionEdits.DeletedFile(3, 300)) == [6, 3, 0xac, 2]
    ensures VersionEdits.EncodeField(VersionEdits.CompactPointer(3, [10])) == [5, 3, 1, 10]
  {
    TagOctets();
    TwoBytes();
    hide Octet;
  }

  lemma TwoBytes()
    ensures Varint(300) == [0xac, 2]
  {
    TagOctets();
    HighOctet();
    hide Octet;
    assert Varint(2) == [2];
  }

  lemma HighOctet()
    ensures Octet(0xac) == 0xac
  {
  }
}
