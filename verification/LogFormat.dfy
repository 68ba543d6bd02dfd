/** The format of a log file (db/log_format.h): what the writer lays out, and what a reader makes of it. */
module LogFormat {
  import opened Crc
  import opened Octets

  const BLOCK := 32768
  const HEADER := 7
  const MASK_DELTA: bv32 := 0xa282ead8

  const ZERO_TYPE: bv8 := 0
  const FULL_TYPE: bv8 := 1
  const FIRST_TYPE: bv8 := 2
  const MIDDLE_TYPE: bv8 := 3
  const LAST_TYPE: bv8 := 4

  // ------------------------------------------------------------------ numbers as bytes

  function Fixed32(c: bv32): seq<bv8> {
    [(c & 0xff) as bv8, ((c >> 8) & 0xff) as bv8, ((c >> 16) & 0xff) as bv8, ((c >> 24) & 0xff) as bv8]
  }

  function DecodeFixed32(b0: bv8, b1: bv8, b2: bv8, b3: bv8): bv32 {
    Word(b0, b1, b2, b3)
  }

  lemma Fixed32RoundTrip(c: bv32)
    ensures DecodeFixed32(Fixed32(c)[0], Fixed32(c)[1], Fixed32(c)[2], Fixed32(c)[3]) == c
  {
  }

  /** A checksum as it is stored. */
  function Mask(crc: bv32): bv32 {
    ((crc >> 15) | (crc << 17)) + MASK_DELTA
  }

  function Unmask(masked: bv32): bv32 {
    var r := masked - MASK_DELTA;
    (r >> 17) | (r << 15)
  }

  lemma MaskRoundTrip(crc: bv32)
    ensures Unmask(Mask(crc)) == crc
  {
  }

  function LowLength(n: nat): bv8 {
    Octet(n % 256)
  }

  function HighLength(n: nat): bv8 {
    Octet(n / 256 % 256)
  }

  function Length(a: bv8, b: bv8): nat {
    NumberOf(a) + 256 * NumberOf(b)
  }

  lemma LengthRoundTrip(n: nat)
    requires n < 65536
    ensures Length(LowLength(n), HighLength(n)) == n
  {
    hide Octet, NumberOf;
    OctetRoundTrip(n % 256);
    OctetRoundTrip(n / 256 % 256);
    Digits(n);
  }

  lemma Digits(n: nat)
    requires n < 65536
    ensures n == n % 256 + 256 * (n / 256 % 256)
  {
  }

  // ------------------------------------------------------------------ fragments

  /** The checksum of a fragment covers its type and its payload. */
  function Checksum(kind: bv8, payload: seq<bv8>): bv32 {
    Extended(0, [kind] + payload)
  }

  /** The writer starts from the checksum of the type alone. */
  lemma ChecksumExtends(kind: bv8, payload: seq<bv8>)
    ensures Extended(Extended(0, [kind]), payload) == Checksum(kind, payload)
  {
    hide Xor, Feed;
    var c := Feed(Xor(0, Crc.XOR), [kind]);
    XorTwice(c, Crc.XOR);
    FeedSplits(Xor(0, Crc.XOR), [kind], payload);
  }

  function Header(kind: bv8, payload: seq<bv8>): (h: seq<bv8>)
    ensures |h| == HEADER
  {
    Fixed32(Mask(Checksum(kind, payload))) + [LowLength(|payload|), HighLength(|payload|), kind]
  }

  function Physical(kind: bv8, payload: seq<bv8>): seq<bv8> {
    Header(kind, payload) + payload
  }

  function Zeroes(n: nat): seq<bv8> {
    seq(n, _ => 0)
  }

  function KindOf(begin: bool, end: bool): bv8 {
    if begin && end then FULL_TYPE else if begin then FIRST_TYPE else if end then LAST_TYPE else MIDDLE_TYPE
  }

  /** How many bytes are filled up before the next fragment. */
  function Padding(o: nat): nat {
    if BLOCK - o % BLOCK < HEADER then BLOCK - o % BLOCK else 0
  }

  /** The room for a payload in the fragment after offset `o`. */
  function Room(o: nat): (r: nat)
    ensures r <= BLOCK - HEADER
  {
    if BLOCK - o % BLOCK < HEADER then BLOCK - HEADER else BLOCK - o % BLOCK - HEADER
  }

  /** After a fragment without room there is a new block. */
  lemma RoomNext(o: nat)
    ensures Room(o) == 0 ==> Padding(o) == 0 && Room(o + HEADER) == BLOCK - HEADER
  {
  }

  function Taken(o: nat, data: seq<bv8>): (n: nat)
    ensures n <= |data| && n <= Room(o)
  {
    if |data| < Room(o) then |data| else Room(o)
  }

  function FirstFragment(begin: bool, o: nat, data: seq<bv8>): seq<bv8> {
    var n := Taken(o, data);
    Zeroes(Padding(o)) + Physical(KindOf(begin, n == |data|), data[..n])
  }

  function FragmentEnd(o: nat, data: seq<bv8>): nat {
    o + Padding(o) + HEADER + Taken(o, data)
  }

  lemma FragmentStays(o: nat, data: seq<bv8>)
    ensures var start := o + Padding(o);
            && start % BLOCK + HEADER + Taken(o, data) <= BLOCK
            && start / BLOCK * BLOCK + BLOCK >= FragmentEnd(o, data)
            && (Padding(o) > 0 ==> start % BLOCK == 0 && start == o / BLOCK * BLOCK + BLOCK)
            && (Taken(o, data) < |data| ==> FragmentEnd(o, data) % BLOCK == 0)
  {
  }

  /** What the writer appends at offset `o` for the rest of a record. */
  function Fragments(begin: bool, o: nat, data: seq<bv8>): seq<bv8>
    decreases |data|, if Room(o) == 0 then 1 else 0
  {
    var n := Taken(o, data);
    if n == |data| then FirstFragment(begin, o, data)
    else
      RoomNext(o);
      FirstFragment(begin, o, data) + Fragments(false, FragmentEnd(o, data), data[n..])
  }

  lemma FragmentLength(begin: bool, o: nat, data: seq<bv8>)
    ensures o + |FirstFragment(begin, o, data)| == FragmentEnd(o, data)
    ensures |FirstFragment(begin, o, data)| >= HEADER
  {
  }

  /** A log file that holds the records. */
  function LogOf(records: seq<seq<bv8>>): seq<bv8> {
    if records == [] then []
    else
      var before := LogOf(records[..|records| - 1]);
      before + Fragments(true, |before|, records[|records| - 1])
  }
}
