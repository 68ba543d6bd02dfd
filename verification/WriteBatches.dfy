/** Write batches (db/write_batch.cc, db/write_batch_internal.h): a growing buffer that holds a sequence
    number, a count and the operations. */
module WriteBatches {
  import opened Keys
  import opened Coding
  import opened Octets

  const HEADER := 12
  const MAX_LENGTH: nat := 0xFFFF_FFFF
  const MAX_COUNT: nat := 0x7FFF_FFFF

  datatype BatchOp = Put(key: Bytes, value: Bytes) | Delete(key: Bytes)

  // ------------------------------------------------------------------ the encoding

  function EncodeOp(op: BatchOp): seq<bv8> {
    match op
    case Put(k, v) => [1] + LengthPrefixed(k) + LengthPrefixed(v)
    case Delete(k) => [0] + LengthPrefixed(k)
  }

  function EncodeOps(ops: seq<BatchOp>): seq<bv8> {
    if ops == [] then [] else EncodeOps(ops[..|ops| - 1]) + EncodeOp(ops[|ops| - 1])
  }

  function Encoded(sequence: nat, ops: seq<BatchOp>): seq<bv8> {
    Fixed(sequence, 8) + Fixed(|ops|, 4) + EncodeOps(ops)
  }

  /** Lengths that fit the encoding. */
  predicate Fits(op: BatchOp) {
    |op.key| <= MAX_LENGTH && (op.Put? ==> |op.value| <= MAX_LENGTH)
  }

  /** What becomes of a longer key or value. */
  function Cut(s: Bytes): Bytes {
    if |s| <= MAX_LENGTH then s else s[..MAX_LENGTH]
  }

  /** It is kept whole exactly when its length fits into 32 bits. */
  lemma CutKeepsWhole(s: Bytes)
    ensures Cut(s) == s <==> |s| <= MAX_LENGTH
  {
    assert |s| > MAX_LENGTH ==> |Cut(s)| == MAX_LENGTH;
  }

  lemma {:induction false} EncodeOpsConcat(a: seq<BatchOp>, b: seq<BatchOp>)
    ensures EncodeOps(a + b) == EncodeOps(a) + EncodeOps(b)
  {
    hide EncodeOp;
    if b == [] {
      assert a + b == a;
    } else {
      assert (a + b)[..|a + b| - 1] == a + b[..|b| - 1];
      EncodeOpsConcat(a, b[..|b| - 1]);
    }
  }

  // ------------------------------------------------------------------ decoding

  /** One round of the loop in Iterate: the first operation and what follows it. */
  function DecodeOp(input: seq<bv8>): Option<(BatchOp, seq<bv8>)>
    requires input != []
  {
    if input[0] == 1 then
      match GetLengthPrefixed(input[1..])
      case None => None
      case Some(k) =>
        (match GetLengthPrefixed(k.1)
         case None => None
         case Some(v) => Some((Put(k.0, v.0), v.1)))
    else if input[0] == 0 then
      match GetLengthPrefixed(input[1..])
      case None => None
      case Some(k) => Some((Delete(k.0), k.1))
    else None
  }

  lemma OpRoundTrip(op: BatchOp, rest: seq<bv8>)
    requires Fits(op)
    ensures EncodeOp(op) != [] && DecodeOp(EncodeOp(op) + rest) == Some((op, rest))
  {
    hide LengthPrefixed, GetLengthPrefixed;
    match op
    case Put(k, v) =>
      var input := EncodeOp(op) + rest;
      assert input[1..] == LengthPrefixed(k) + (LengthPrefixed(v) + rest);
      LengthPrefixedRoundTrip(k, LengthPrefixed(v) + rest);
      LengthPrefixedRoundTrip(v, rest);
    case Delete(k) =>
      var input := EncodeOp(op) + rest;
      assert input[1..] == LengthPrefixed(k) + rest;
      LengthPrefixedRoundTrip(k, rest);
  }

  lemma DecodeOpShrinks(input: seq<bv8>)
    requires input != []
    ensures var r := DecodeOp(input); r.Some? ==> |r.value.1| < |input|
  {
    hide GetLengthPrefixed;
    GetLengthPrefixedShrinks(input[1..]);
    var k := GetLengthPrefixed(input[1..]);
    if k.Some? {
      GetLengthPrefixedShrinks(k.value.1);
    }
  }

  lemma EncodeOpsNext(ops: seq<BatchOp>)
    requires ops != []
    ensures EncodeOps(ops) == EncodeOp(ops[0]) + EncodeOps(ops[1..])
  {
    hide EncodeOp;
    assert ops == [ops[0]] + ops[1..];
    EncodeOpsConcat([ops[0]], ops[1..]);
    assert [ops[0]][..0] == [];
    assert EncodeOps([ops[0]]) == EncodeOps([]) + EncodeOp(ops[0]);
  }

  /** Iterate: the operations in order, or an error. */
  method Iterate(contents: seq<bv8>) returns (status: Status, ops: seq<BatchOp>)
    ensures forall sequence: nat, given :: Loaded(contents, sequence, given) ==> status == Ok && ops == given
    ensures status == Ok ==> |contents| >= HEADER && |ops| == Unfixed(contents[8..12])
  {
    hide EncodeOp, DecodeOp, EncodeOps, Fixed, Unfixed;
    ops := [];
    if |contents| < HEADER {
      return Corruption, ops;
    }
    var input := contents[HEADER..];
    while input != []
      invariant forall sequence: nat, given :: Loaded(contents, sequence, given) ==>
                  |ops| <= |given| && ops == given[..|ops|] && input == EncodeOps(given[|ops|..])
      decreases |input|
    {
      DecodeOpShrinks(input);
      forall sequence: nat, given | Loaded(contents, sequence, given)
        ensures |ops| < |given| && DecodeOp(input) == Some((given[|ops|], EncodeOps(given[|ops| + 1..])))
      {
        NextLoaded(given, |ops|);
      }
      var r := DecodeOp(input);
      if r.None? {
        return Corruption, ops;
      }
      ops := ops + [r.value.0];
      input := r.value.1;
    }
    forall sequence: nat, given | Loaded(contents, sequence, given)
      ensures ops == given && |given| == Unfixed(contents[8..12])
    {
      AllLoaded(given, |ops|);
      CountAt(sequence, given);
    }
    if |ops| != Unfixed(contents[8..12]) {
      return Corruption, ops;
    }
    return Ok, ops;
  }

  ghost predicate Loaded(contents: seq<bv8>, sequence: nat, given: seq<BatchOp>) {
    contents == Encoded(sequence, given) && |given| <= MAX_COUNT && (forall op :: op in given ==> Fits(op))
  }

  lemma NextLoaded(given: seq<BatchOp>, n: nat)
    requires n <= |given| && EncodeOps(given[n..]) != [] && (forall op :: op in given ==> Fits(op))
    ensures n < |given| && DecodeOp(EncodeOps(given[n..])) == Some((given[n], EncodeOps(given[n + 1..])))
  {
    hide EncodeOp, DecodeOp;
    assert n < |given| by { NoOps(given, n); }
    EncodeOpsNext(given[n..]);
    assert given[n..][1..] == given[n + 1..];
    OpRoundTrip(given[n], EncodeOps(given[n + 1..]));
  }

  lemma NoOps(given: seq<BatchOp>, n: nat)
    requires n <= |given| && EncodeOps(given[n..]) != []
    ensures n < |given|
  {
  }

  lemma AllLoaded(given: seq<BatchOp>, n: nat)
    requires n <= |given| && EncodeOps(given[n..]) == []
    ensures given[..n] == given
  {
    hide EncodeOp;
    if n < |given| {
      EncodeOpsNext(given[n..]);
      EncodeOpSome(given[n]);
    }
  }

  lemma EncodeOpSome(op: BatchOp)
    ensures EncodeOp(op) != []
  {
  }

  lemma CountAt(sequence: nat, given: seq<BatchOp>)
    requires |given| <= MAX_COUNT
    ensures |Encoded(sequence, given)| >= HEADER
    ensures Unfixed(Encoded(sequence, given)[8..12]) == |given|
    ensures Encoded(sequence, given)[HEADER..] == EncodeOps(given)
  {
    hide EncodeOps, Unfixed;
    Widths();
    FixedRoundTrip(|given|, 4);
    assert Encoded(sequence, given)[8..12] == Fixed(|given|, 4);
  }

  /** InsertInto: operation `i` goes to the memtable with the batch's sequence number plus `i`. */
  method InsertInto(contents: seq<bv8>) returns (status: Status, added: seq<(nat, BatchOp)>)
    ensures forall sequence: nat, given :: Loaded(contents, sequence, given) && sequence < TWO_64 ==>
              status == Ok && |added| == |given|
              && forall i :: 0 <= i < |given| ==> added[i] == (sequence + i, given[i])
  {
    hide Encoded, Unfixed;
    var ops;
    status, ops := Iterate(contents);
    added := [];
    forall sequence: nat, given ensures Loaded(contents, sequence, given) ==> |contents| >= HEADER {
      LoadedLength(contents, sequence, given);
    }
    if |contents| < HEADER {
      return;
    }
    var next := Unfixed(contents[..8]);
    forall sequence: nat, given | Loaded(contents, sequence, given) && sequence < TWO_64 ensures next == sequence {
      SequenceAt(sequence, given);
    }
    for i := 0 to |ops|
      invariant |added| == i && next == Unfixed(contents[..8]) + i
      invariant forall j :: 0 <= j < i ==> added[j] == (Unfixed(contents[..8]) + j, ops[j])
    {
      added := added + [(next, ops[i])];
      next := next + 1;
    }
  }

  lemma LoadedLength(contents: seq<bv8>, sequence: nat, given: seq<BatchOp>)
    ensures Loaded(contents, sequence, given) ==> |contents| >= HEADER
  {
  }

  lemma SequenceAt(sequence: nat, given: seq<BatchOp>)
    requires sequence < TWO_64
    ensures |Encoded(sequence, given)| >= 8 && Unfixed(Encoded(sequence, given)[..8]) == sequence
  {
    hide EncodeOps, Unfixed;
    Widths();
    FixedRoundTrip(sequence, 8);
    assert Encoded(sequence, given)[..8] == Fixed(sequence, 8);
  }

  // ------------------------------------------------------------------ the buffer

  class WriteBatch {
    var buf: array<bv8>
    var len: nat

    ghost predicate Valid()
      reads this
    {
      HEADER <= len <= buf.Length
    }

    function Contents(): seq<bv8>
      reads this, buf
      requires Valid()
    {
      buf[..len]
    }

    /** The batch holds the operations. */
    ghost predicate Holds(sequence: nat, ops: seq<BatchOp>)
      reads this, buf
    {
      Valid() && Contents() == Encoded(sequence, ops)
    }

    constructor ()
      ensures Holds(0, []) && fresh(buf)
    {
      buf := new bv8[HEADER + 124](_ => 0);
      len := HEADER;
      new;
      EmptyEncoded();
      assert buf[..len] == seq(HEADER, _ => 0);
    }

    /** The capacity is doubled until it is enough; the contents stay. */
    method EnsureCapacity(cap: nat)
      requires Valid()
      modifies this`buf
      ensures Valid() && buf.Length >= cap && Contents() == old(Contents())
      ensures buf == old(buf) || fresh(buf)
      ensures old(buf.Length) >= cap ==> buf == old(buf)
      ensures old(buf.Length) < cap ==> buf.Length < 2 * cap
    {
      if buf.Length < cap {
        var n := 2 * buf.Length;
        while n < cap
          invariant 2 * buf.Length <= n < 2 * cap
          decreases cap - n
        {
          n := 2 * n;
        }
        var bigger := new bv8[n](i requires 0 <= i reads this, buf => if i < buf.Length then buf[i] else 0);
        assert bigger[..len] == buf[..len];
        buf := bigger;
      }
    }

    /** The bytes go to the end. */
    method AppendBytes(bytes: seq<bv8>)
      requires Valid()
      modifies this, buf
      ensures Valid() && Contents() == old(Contents()) + bytes
      ensures buf == old(buf) || fresh(buf)
    {
      EnsureCapacity(len + |bytes|);
      var dst, end := buf, len;
      ghost var before := dst[..end];
      var i := 0;
      while i < |bytes|
        invariant 0 <= i <= |bytes| && buf == dst && len == end && end + |bytes| <= dst.Length
        invariant dst[..end + i] == before + bytes[..i]
      {
        dst[end + i] := bytes[i];
        assert dst[..end + i + 1] == dst[..end + i] + [bytes[i]];
        assert bytes[..i + 1] == bytes[..i] + [bytes[i]];
        i := i + 1;
      }
      assert bytes[..|bytes|] == bytes;
      len := len + |bytes|;
    }

    method SetCount(n: nat)
      requires Valid()
      modifies buf
      ensures Contents() == old(Contents())[..8] + Fixed(n, 4) + old(Contents())[HEADER..]
    {
      var bytes := Fixed(n, 4);
      ghost var before := Contents();
      forall i | 8 <= i < HEADER {
        buf[i] := bytes[i - 8];
      }
      assert buf[..len] == before[..8] + bytes + before[HEADER..];
    }

    function Count(): nat
      reads this, buf
      requires Valid()
    {
      Unfixed(Contents()[8..HEADER])
    }

    method SetSequence(n: nat, ghost sequence: nat, ghost ops: seq<BatchOp>)
      requires Holds(sequence, ops)
      modifies buf
      ensures Holds(n, ops)
    {
      hide Encoded, Fixed;
      var bytes := Fixed(n, 8);
      ghost var before := Contents();
      forall i | 0 <= i < 8 {
        buf[i] := bytes[i];
      }
      assert buf[..len] == bytes + before[8..];
      EncodedRest(sequence, n, ops);
    }

    /** One operation more. */
    method AddOp(op: BatchOp, ghost sequence: nat, ghost ops: seq<BatchOp>)
      requires Holds(sequence, ops) && |ops| < MAX_COUNT
      modifies this, buf
      ensures Holds(sequence, ops + [op])
      ensures buf == old(buf) || fresh(buf)
    {
      hide EncodeOps, EncodeOp, Unfixed;
      CountAt(sequence, ops);
      SetCount(Count() + 1);
      AppendBytes(EncodeOp(op));
      EncodedSnoc(sequence, ops, op);
    }

    method Put(key: Bytes, value: Bytes, ghost sequence: nat, ghost ops: seq<BatchOp>)
      requires Holds(sequence, ops) && |ops| < MAX_COUNT
      modifies this, buf
      ensures Holds(sequence, ops + [BatchOp.Put(Cut(key), Cut(value))])
      ensures buf == old(buf) || fresh(buf)
    {
      AddOp(BatchOp.Put(Cut(key), Cut(value)), sequence, ops);
    }

    method Delete(key: Bytes, ghost sequence: nat, ghost ops: seq<BatchOp>)
      requires Holds(sequence, ops) && |ops| < MAX_COUNT
      modifies this, buf
      ensures Holds(sequence, ops + [BatchOp.Delete(Cut(key))])
      ensures buf == old(buf) || fresh(buf)
    {
      AddOp(BatchOp.Delete(Cut(key)), sequence, ops);
    }

    /** The operations of another batch follow; or its own again, if the buffer has room for them, since the code
        copies from a buffer that it may have given back otherwise. */
    method Append(source: WriteBatch, ghost sequence: nat, ghost ops: seq<BatchOp>, ghost from: nat,
                  ghost more: seq<BatchOp>)
      requires Holds(sequence, ops) && source.Holds(from, more) && |ops| + |more| <= MAX_COUNT
      requires if source == this then len + (len - HEADER) <= buf.Length else source.buf != buf
      modifies this, buf
      ensures Holds(sequence, ops + more) && (source != this ==> source.Holds(from, more))
      ensures buf == old(buf) || fresh(buf)
    {
      hide EncodeOps, Unfixed, Encoded, Fixed;
      CountAt(sequence, ops);
      CountAt(from, more);
      var n := Count() + source.Count();
      ghost var tail := source.Contents()[HEADER..];
      SetCount(n);
      assert source.Contents()[HEADER..] == tail;
      AppendBytes(source.Contents()[HEADER..]);
      EncodedAppend(sequence, ops, more);
    }
  }

  lemma EmptyEncoded()
    ensures Encoded(0, []) == seq(HEADER, _ => 0)
  {
    NoFixed(8);
    NoFixed(4);
  }

  lemma {:induction false} NoFixed(k: nat)
    ensures Fixed(0, k) == seq(k, _ => 0)
  {
    if k > 0 {
      NoFixed(k - 1);
      assert Octet(0) == 0;
    }
  }

  lemma EncodedRest(sequence: nat, n: nat, ops: seq<BatchOp>)
    ensures |Encoded(sequence, ops)| >= 8 && Encoded(n, ops) == Fixed(n, 8) + Encoded(sequence, ops)[8..]
  {
    hide EncodeOps;
    assert Encoded(sequence, ops)[8..] == Fixed(|ops|, 4) + EncodeOps(ops);
  }

  lemma EncodedSnoc(sequence: nat, ops: seq<BatchOp>, op: BatchOp)
    ensures var e := Encoded(sequence, ops);
            Encoded(sequence, ops + [op]) == e[..8] + Fixed(|ops| + 1, 4) + e[HEADER..] + EncodeOp(op)
  {
    hide EncodeOp, Fixed, EncodeOps, Encoded;
    EncodedAppend(sequence, ops, [op]);
    assert EncodeOps([op]) == EncodeOp(op) by { OneOp(op); }
  }

  lemma OneOp(op: BatchOp)
    ensures EncodeOps([op]) == EncodeOp(op)
  {
    hide EncodeOp;
    assert [op][..0] == [];
    assert EncodeOps([op]) == EncodeOps([]) + EncodeOp(op);
  }

  lemma EncodedAppend(sequence: nat, ops: seq<BatchOp>, more: seq<BatchOp>)
    ensures var e := Encoded(sequence, ops);
            Encoded(sequence, ops + more) == e[..8] + Fixed(|ops| + |more|, 4) + e[HEADER..] + EncodeOps(more)
  {
    hide EncodeOp, Fixed;
    var e := Encoded(sequence, ops);
    EncodeOpsConcat(ops, more);
    assert e[..8] == Fixed(sequence, 8) && e[HEADER..] == EncodeOps(ops);
  }
}
