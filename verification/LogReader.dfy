/** The log reader (db/log_reader.cc), from offset 0 and with checksums on. */
module LogReader {
  import opened Keys
  import opened Slices
  import opened LogFormat
  import opened LogWriter

  datatype Found = Eof | Bad | Fragment(kind: bv8, payload: seq<bv8>)

  datatype Reason = BadRecordLength | ChecksumMismatch | PartialRecord | MissingStart | ErrorInMiddle | UnknownType

  /** What is found at an offset, the offset after it, and what is reported. */
  datatype Outcome = Outcome(found: Found, next: nat, reports: seq<Reason>)

  // ------------------------------------------------------------------ the next fragment, without a buffer

  function BlockEnd(o: nat): nat {
    o / BLOCK * BLOCK + BLOCK
  }

  /** The end of the part of `o`'s block that is in the file. */
  function ChunkEnd(file: seq<bv8>, o: nat): nat {
    if BlockEnd(o) <= |file| then BlockEnd(o) else |file|
  }

  function StoredChecksum(file: seq<bv8>, o: nat): bv32
    requires o + HEADER <= |file|
  {
    Unmask(DecodeFixed32(file[o], file[o + 1], file[o + 2], file[o + 3]))
  }

  function PhysicalAt(file: seq<bv8>, o: nat): Outcome
    requires o <= |file|
    decreases |file| - o
  {
    var end := ChunkEnd(file, o);
    if end - o < HEADER then
      if BlockEnd(o) <= |file| then PhysicalAt(file, BlockEnd(o)) else Outcome(Eof, |file|, [])
    else
      var length := Length(file[o + 4], file[o + 5]);
      if HEADER + length > end - o then
        if BlockEnd(o) <= |file| then Outcome(Bad, end, [BadRecordLength]) else Outcome(Eof, |file|, [])
      else if file[o + 6] == ZERO_TYPE && length == 0 then Outcome(Bad, end, [])
      else if StoredChecksum(file, o) != Checksum(file[o + 6], file[o + HEADER..o + HEADER + length]) then
        Outcome(Bad, end, [ChecksumMismatch])
      else
        Outcome(Fragment(file[o + 6], file[o + HEADER..o + HEADER + length]), o + HEADER + length, [])
  }

  lemma {:induction false} Progress(file: seq<bv8>, o: nat)
    requires o <= |file|
    ensures var x := PhysicalAt(file, o);
            o <= x.next <= |file| && (x.found.Eof? || o < x.next)
    decreases |file| - o
  {
    hide Checksum, StoredChecksum, Length;
    if ChunkEnd(file, o) - o < HEADER && BlockEnd(o) <= |file| {
      Progress(file, BlockEnd(o));
    }
  }

  // ------------------------------------------------------------------ the next record

  /** What a reader makes of a file from an offset on: a record or none, the offset after it, and what is reported. */
  datatype Reading = Reading(record: Option<seq<bv8>>, next: nat, reports: seq<Reason>)

  /** Reported before what comes next. */
  function After(reports: seq<Reason>, r: Reading): Reading {
    r.(reports := reports + r.reports)
  }

  /** A record that has begun is given up, which is reported unless nothing of it was read. */
  function GivenUp(inFragment: bool, scratch: seq<bv8>): seq<Reason> {
    if inFragment && scratch != [] then [PartialRecord] else []
  }

  /** The next record from offset `o` on, with `scratch` read of one that has begun if `inFragment`. */
  function RecordAt(file: seq<bv8>, o: nat, inFragment: bool, scratch: seq<bv8>): (r: Reading)
    requires o <= |file|
    ensures o <= r.next <= |file| && (r.record.Some? ==> o < r.next)
    decreases |file| - o
  {
    Progress(file, o);
    var x := PhysicalAt(file, o);
    match x.found
    case Eof => Reading(None, x.next, x.reports)
    case Bad => After(x.reports + if inFragment then [ErrorInMiddle] else [], RecordAt(file, x.next, false, []))
    case Fragment(kind, payload) =>
      if kind == FULL_TYPE then Reading(Some(payload), x.next, x.reports + GivenUp(inFragment, scratch))
      else if kind == FIRST_TYPE then
        After(x.reports + GivenUp(inFragment, scratch), RecordAt(file, x.next, true, payload))
      else if kind == MIDDLE_TYPE then
        if inFragment then After(x.reports, RecordAt(file, x.next, true, scratch + payload))
        else After(x.reports + [MissingStart], RecordAt(file, x.next, false, scratch))
      else if kind == LAST_TYPE then
        if inFragment then Reading(Some(scratch + payload), x.next, x.reports)
        else After(x.reports + [MissingStart], RecordAt(file, x.next, false, scratch))
      else After(x.reports + [UnknownType], RecordAt(file, x.next, false, []))
  }

  /** All records from an offset on, and all reports. */
  function AllAt(file: seq<bv8>, o: nat): (seq<seq<bv8>>, seq<Reason>)
    requires o <= |file|
    decreases |file| - o
  {
    var x := RecordAt(file, o, false, []);
    if x.record.None? then ([], x.reports)
    else var rest := AllAt(file, x.next); ([x.record.value] + rest.0, x.reports + rest.1)
  }

  // ------------------------------------------------------------------ files cut short

  /** The file holds `bytes` at `o`, or as many of them as it is long. */
  ghost predicate LaidOut(file: seq<bv8>, o: nat, bytes: seq<bv8>) {
    o <= |file| && (bytes <= file[o..] || file[o..] <= bytes)
  }

  lemma LaidOutAt(file: seq<bv8>, o: nat, bytes: seq<bv8>, i: nat)
    requires LaidOut(file, o, bytes) && i < |bytes| && o + i < |file|
    ensures file[o + i] == bytes[i]
  {
    assert file[o..][i] == file[o + i];
  }

  lemma LaidOutParts(file: seq<bv8>, o: nat, a: seq<bv8>, b: seq<bv8>)
    requires LaidOut(file, o, a + b)
    ensures LaidOut(file, o, a)
    ensures o + |a| <= |file| ==> LaidOut(file, o + |a|, b)
  {
    var rest := file[o..];
    assert (a + b)[..|a|] == a;
    if |a| <= |rest| {
      assert rest[..|a|] == a;
      assert rest[|a|..] == file[o + |a|..];
      assert (a + b)[|a|..] == b;
    } else {
      assert a[..|rest|] == (a + b)[..|rest|];
    }
  }

  // ------------------------------------------------------------------ what a reader finds of a fragment

  lemma HeaderAt(file: seq<bv8>, o: nat, kind: bv8, payload: seq<bv8>)
    requires LaidOut(file, o, Physical(kind, payload)) && o + HEADER <= |file| && |payload| < 65536
    ensures Length(file[o + 4], file[o + 5]) == |payload| && file[o + 6] == kind
    ensures StoredChecksum(file, o) == Checksum(kind, payload)
  {
    hide Mask, Unmask, Checksum, LaidOut, DecodeFixed32, LowLength, HighLength, Length, Fixed32;
    var bytes := Physical(kind, payload);
    var masked := Mask(Checksum(kind, payload));
    assert |Fixed32(masked)| == 4 by { Fixed32Length(masked); }
    LaidOutAt(file, o, bytes, 0);
    LaidOutAt(file, o, bytes, 1);
    LaidOutAt(file, o, bytes, 2);
    LaidOutAt(file, o, bytes, 3);
    LaidOutAt(file, o, bytes, 4);
    LaidOutAt(file, o, bytes, 5);
    LaidOutAt(file, o, bytes, 6);
    LengthRoundTrip(|payload|);
    Fixed32RoundTrip(masked);
    MaskRoundTrip(Checksum(kind, payload));
  }

  lemma Fixed32Length(c: bv32)
    ensures |Fixed32(c)| == 4
  {
  }

  /** A fragment that lies in one block is found if all of it is there, and otherwise nothing is. */
  lemma FindsPhysical(file: seq<bv8>, o: nat, kind: bv8, payload: seq<bv8>)
    requires LaidOut(file, o, Physical(kind, payload))
    requires o + HEADER + |payload| <= BlockEnd(o) && kind != ZERO_TYPE
    ensures PhysicalAt(file, o) ==
            if o + HEADER + |payload| <= |file| then Outcome(Fragment(kind, payload), o + HEADER + |payload|, [])
            else Outcome(Eof, |file|, [])
  {
    hide Physical, Checksum, StoredChecksum, LaidOut, Length;
    assert |Physical(kind, payload)| == HEADER + |payload| by { PhysicalLength(kind, payload); }
    if o + HEADER <= |file| {
      HeaderAt(file, o, kind, payload);
      if o + HEADER + |payload| <= |file| {
        PayloadAt(file, o, kind, payload);
      }
    } else {
      assert o <= |file| by { LaidOutBound(file, o, Physical(kind, payload)); }
    }
  }

  lemma LaidOutBound(file: seq<bv8>, o: nat, bytes: seq<bv8>)
    requires LaidOut(file, o, bytes)
    ensures o <= |file|
  {
  }

  lemma PhysicalLength(kind: bv8, payload: seq<bv8>)
    ensures |Physical(kind, payload)| == HEADER + |payload|
  {
  }

  lemma PayloadAt(file: seq<bv8>, o: nat, kind: bv8, payload: seq<bv8>)
    requires LaidOut(file, o, Physical(kind, payload)) && o + HEADER + |payload| <= |file|
    ensures file[o + HEADER..o + HEADER + |payload|] == payload
  {
    hide Header;
    var bytes := Physical(kind, payload);
    assert file[o..o + |bytes|] == bytes;
    assert file[o + HEADER..o + |bytes|] == file[o..o + |bytes|][HEADER..];
  }

  /** The same with the filling before it. */
  lemma FindsFragment(file: seq<bv8>, o: nat, begin: bool, data: seq<bv8>)
    requires LaidOut(file, o, FirstFragment(begin, o, data))
    ensures var n := Taken(o, data);
            PhysicalAt(file, o) ==
            if FragmentEnd(o, data) <= |file| then
              Outcome(Fragment(KindOf(begin, n == |data|), data[..n]), FragmentEnd(o, data), [])
            else Outcome(Eof, |file|, [])
  {
    hide Physical, LaidOut, Checksum, StoredChecksum, Length;
    var n := Taken(o, data);
    var kind := KindOf(begin, n == |data|);
    var pad := Padding(o);
    FragmentStays(o, data);
    LaidOutParts(file, o, Zeroes(pad), Physical(kind, data[..n]));
    LaidOutBound(file, o, FirstFragment(begin, o, data));
    if pad == 0 {
      assert Zeroes(0) + Physical(kind, data[..n]) == Physical(kind, data[..n]);
      FindsPhysical(file, o, kind, data[..n]);
    } else if o + pad <= |file| {
      FindsPhysical(file, o + pad, kind, data[..n]);
    }
  }

  // ------------------------------------------------------------------ the reader

  /** The buffer is the unread rest of the block that was read last; at the end of the file that block was short. */
  ghost predicate BufferOk(file: seq<bv8>, position: nat, buffer: seq<bv8>, eof: bool) {
    && |buffer| <= position <= |file|
    && buffer == file[position - |buffer|..position]
    && (if eof then position == |file| && position - |buffer| >= |file| / BLOCK * BLOCK
        else position % BLOCK == 0 && (buffer != [] ==> BlockEnd(position - |buffer|) == position))
  }

  lemma Dropped(file: seq<bv8>, position: nat, buffer: seq<bv8>, eof: bool)
    requires BufferOk(file, position, buffer, eof)
    ensures BufferOk(file, position, [], eof) && |buffer| <= position <= |file|
  {
  }

  lemma Consumed(file: seq<bv8>, position: nat, buffer: seq<bv8>, eof: bool, k: nat)
    requires BufferOk(file, position, buffer, eof) && k <= |buffer|
    ensures BufferOk(file, position, buffer[k..], eof) && |buffer| <= position
  {
    var o := position - |buffer|;
    SliceTail(file, o, position, k);
    SameBlock(o, o + k, position);
  }

  class Reader {
    const file: seq<bv8>
    var position: nat
    var buffer: seq<bv8>
    var eof: bool
    var reports: seq<Reason>

    ghost predicate Valid()
      reads this
    {
      |buffer| <= position && BufferOk(file, position, buffer, eof)
    }

    /** Where the next fragment is looked for. */
    ghost function Offset(): nat
      reads this
      requires |buffer| <= position
    {
      position - |buffer|
    }

    constructor (file: seq<bv8>)
      ensures Valid() && this.file == file && Offset() == 0 && reports == []
    {
      this.file := file;
      position, buffer, eof, reports := 0, [], false, [];
    }

    /** The file's Read: up to a block. */
    method ReadBlock()
      requires Valid() && !eof && |buffer| < HEADER
      modifies this
      ensures Valid() && reports == old(reports)
      ensures Offset() == old(position)
      ensures eof || |buffer| == BLOCK
    {
      var n := if |file| - position < BLOCK then |file| - position else BLOCK;
      BlockRead(file, position, n);
      buffer := file[position..position + n];
      position := position + n;
      if n < BLOCK {
        eof := true;
      }
    }

    /** Reads blocks until a header is in the buffer, or the end of the file is reached. */
    method FillBuffer() returns (more: bool)
      requires Valid()
      modifies this
      ensures Valid() && reports == old(reports)
      ensures more ==> |buffer| >= HEADER && PhysicalAt(file, Offset()) == PhysicalAt(file, old(Offset()))
      ensures !more ==> Offset() == |file| && PhysicalAt(file, old(Offset())) == Outcome(Eof, |file|, [])
    {
      hide PhysicalAt;
      more := true;
      while |buffer| < HEADER
        invariant Valid() && reports == old(reports)
        invariant PhysicalAt(file, Offset()) == PhysicalAt(file, old(Offset()))
        decreases !eof, |file| - position
      {
        if eof {
          AtEnd(file, Offset());
          buffer := [];
          return false;
        }
        Skips(file, Offset(), position);
        ReadBlock();
      }
    }

    /** Takes the fragment, or drops the rest of the buffer. */
    method Parse() returns (r: Found)
      requires Valid() && |buffer| >= HEADER
      modifies this
      ensures Valid()
      ensures var x := PhysicalAt(file, old(Offset()));
              r == x.found && Offset() == x.next && reports == old(reports) + x.reports
    {
      hide PhysicalAt, Checksum, Unmask, DecodeFixed32, Length, BufferOk;
      Dropped(file, position, buffer, eof);
      InBuffer(file, buffer, position, eof);
      var length := Length(buffer[4], buffer[5]);
      var kind := buffer[6];
      if HEADER + length > |buffer| {
        buffer := [];
        if !eof {
          reports := reports + [BadRecordLength];
          return Bad;
        }
        return Eof;
      }
      if kind == ZERO_TYPE && length == 0 {
        buffer := [];
        return Bad;
      }
      var expected := Unmask(DecodeFixed32(buffer[0], buffer[1], buffer[2], buffer[3]));
      var actual := Checksum(kind, buffer[HEADER..HEADER + length]);
      if actual != expected {
        buffer := [];
        reports := reports + [ChecksumMismatch];
        return Bad;
      }
      r := Fragment(kind, buffer[HEADER..HEADER + length]);
      Consumed(file, position, buffer, eof, HEADER + length);
      buffer := buffer[HEADER + length..];
    }

    /** The buffered reader finds what there is to find at its offset. */
    method ReadPhysicalRecord() returns (r: Found)
      requires Valid()
      modifies this
      ensures Valid()
      ensures var x := PhysicalAt(file, old(Offset()));
              r == x.found && Offset() == x.next && reports == old(reports) + x.reports
    {
      hide PhysicalAt;
      var more := FillBuffer();
      if more {
        r := Parse();
      } else {
        r := Eof;
      }
    }

    /** The next record is what there is to be read at the offset. */
    method ReadRecord() returns (r: Option<seq<bv8>>)
      requires Valid()
      modifies this
      ensures Valid()
      ensures var x := RecordAt(file, old(Offset()), false, []);
              r == x.record && Offset() == x.next && reports == old(reports) + x.reports
    {
      hide PhysicalAt, BlockEnd, RecordAt, BufferOk;
      var scratch := [];
      var inFragment := false;
      InFile(file, position, buffer, eof);
      ghost var all := RecordAt(file, Offset(), false, []);
      ghost var said: seq<Reason> := [];
      AfterNothing(all);
      while true
        invariant Valid() && Offset() <= |file| && reports == old(reports) + said
        invariant !inFragment ==> scratch == []
        invariant all == After(said, RecordAt(file, Offset(), inFragment, scratch))
        decreases |file| - Offset()
      {
        ghost var o, was, begun, before := Offset(), scratch, inFragment, reports;
        Progress(file, o);
        RecordStep(file, o, inFragment, scratch);
        var found := ReadPhysicalRecord();
        ghost var x := PhysicalAt(file, o);
        InFile(file, position, buffer, eof);
        match found {
          case Eof =>
            Reported(old(reports), said, x.reports);
            return None;
          case Bad =>
            if inFragment {
              reports := reports + [ErrorInMiddle];
              inFragment := false;
              scratch := [];
            }
          case Fragment(kind, payload) =>
            if kind == FULL_TYPE {
              if inFragment && scratch != [] {
                reports := reports + [PartialRecord];
              }
              assert reports == before + (x.reports + GivenUp(begun, was));
              Reported(old(reports), said, x.reports + GivenUp(begun, was));
              return Some(payload);
            } else if kind == FIRST_TYPE {
              if inFragment && scratch != [] {
                reports := reports + [PartialRecord];
              }
              scratch := payload;
              inFragment := true;
            } else if kind == MIDDLE_TYPE {
              if !inFragment {
                reports := reports + [MissingStart];
              } else {
                scratch := scratch + payload;
              }
            } else if kind == LAST_TYPE {
              if !inFragment {
                reports := reports + [MissingStart];
              } else {
                Reported(old(reports), said, x.reports);
                return Some(scratch + payload);
              }
            } else {
              reports := reports + [UnknownType];
              inFragment := false;
              scratch := [];
            }
        }
        ghost var more := Added(x, begun, was);
        assert reports == before + more;
        Reported(old(reports), said, more);
        AfterBoth(said, more, RecordAt(file, x.next, inFragment, scratch));
        said := said + more;
      }
    }
  }

  /** What one fragment that does not end the search adds to the reports. */
  ghost function Added(x: Outcome, inFragment: bool, scratch: seq<bv8>): seq<Reason> {
    match x.found
    case Eof => x.reports
    case Bad => x.reports + if inFragment then [ErrorInMiddle] else []
    case Fragment(kind, _) =>
      if kind == FIRST_TYPE then x.reports + GivenUp(inFragment, scratch)
      else if kind == MIDDLE_TYPE then if inFragment then x.reports else x.reports + [MissingStart]
      else if kind == LAST_TYPE then x.reports + [MissingStart]
      else x.reports + [UnknownType]
  }

  lemma RecordStep(file: seq<bv8>, o: nat, inFragment: bool, scratch: seq<bv8>)
    requires o <= |file|
    ensures var x := PhysicalAt(file, o);
            && x.next <= |file|
            && RecordAt(file, o, inFragment, scratch) ==
               match x.found
               case Eof => Reading(None, x.next, x.reports)
               case Bad => After(Added(x, inFragment, scratch), RecordAt(file, x.next, false, []))
               case Fragment(kind, payload) =>
                 if kind == FULL_TYPE then Reading(Some(payload), x.next, x.reports + GivenUp(inFragment, scratch))
                 else if kind == FIRST_TYPE then
                   After(Added(x, inFragment, scratch), RecordAt(file, x.next, true, payload))
                 else if kind == MIDDLE_TYPE then
                   After(Added(x, inFragment, scratch),
                         RecordAt(file, x.next, inFragment, if inFragment then scratch + payload else scratch))
                 else if kind == LAST_TYPE then
                   if inFragment then Reading(Some(scratch + payload), x.next, x.reports)
                   else After(Added(x, inFragment, scratch), RecordAt(file, x.next, false, scratch))
                 else After(Added(x, inFragment, scratch), RecordAt(file, x.next, false, []))
  {
    hide PhysicalAt;
    Progress(file, o);
  }

  lemma InFile(file: seq<bv8>, position: nat, buffer: seq<bv8>, eof: bool)
    requires |buffer| <= position && BufferOk(file, position, buffer, eof)
    ensures position <= |file|
  {
  }

  lemma Reported(before: seq<Reason>, said: seq<Reason>, more: seq<Reason>)
    ensures (before + said) + more == before + (said + more)
  {
  }

  lemma AfterNothing(r: Reading)
    ensures After([], r) == r
  {
    assert [] + r.reports == r.reports;
  }

  lemma AfterBoth(a: seq<Reason>, b: seq<Reason>, r: Reading)
    ensures After(a, After(b, r)) == After(a + b, r)
  {
    assert a + (b + r.reports) == (a + b) + r.reports;
  }

  lemma FindsNext(file: seq<bv8>, o: nat, begin: bool, left: seq<bv8>)
    requires LaidOut(file, o, Fragments(begin, o, left))
    ensures var n := Taken(o, left);
            && PhysicalAt(file, o) ==
               (if FragmentEnd(o, left) <= |file| then
                  Outcome(Fragment(KindOf(begin, n == |left|), left[..n]), FragmentEnd(o, left), [])
                else Outcome(Eof, |file|, []))
            && (FragmentEnd(o, left) <= |file| && n < |left| ==>
                  LaidOut(file, FragmentEnd(o, left), Fragments(false, FragmentEnd(o, left), left[n..])))
  {
    hide Fragments, FirstFragment, Taken, FragmentEnd, LaidOut, PhysicalAt;
    var n := Taken(o, left);
    assert n <= |left|;
    FragmentsStep(begin, o, left);
    FragmentLength(begin, o, left);
    if n == |left| {
      FindsFragment(file, o, begin, left);
    } else {
      LaidOutParts(file, o, FirstFragment(begin, o, left), Fragments(false, FragmentEnd(o, left), left[n..]));
      FindsFragment(file, o, begin, left);
    }
  }

  lemma SameBlock(o: nat, later: nat, position: nat)
    ensures o <= later < position && BlockEnd(o) == position ==> BlockEnd(later) == position
  {
  }

  lemma BlockRead(file: seq<bv8>, position: nat, n: nat)
    requires position <= |file| && position % BLOCK == 0
    requires n == if |file| - position < BLOCK then |file| - position else BLOCK
    ensures n == BLOCK ==> (position + n) % BLOCK == 0 && BlockEnd(position) == position + n
    ensures n < BLOCK ==> position >= |file| / BLOCK * BLOCK
  {
  }

  lemma AtEnd(file: seq<bv8>, o: nat)
    requires |file| / BLOCK * BLOCK <= o <= |file| < o + HEADER
    ensures PhysicalAt(file, o) == Outcome(Eof, |file|, [])
  {
    assert BlockEnd(o) > |file|;
  }

  lemma Skips(file: seq<bv8>, o: nat, position: nat)
    requires o <= position <= |file| && position < o + HEADER && position % BLOCK == 0
    requires o < position ==> BlockEnd(o) == position
    ensures PhysicalAt(file, o) == PhysicalAt(file, position)
  {
  }

  /** What the code reads from its buffer is what the file holds at the offset. */
  lemma InBuffer(file: seq<bv8>, buffer: seq<bv8>, position: nat, eof: bool)
    requires BufferOk(file, position, buffer, eof) && HEADER <= |buffer| <= position <= |file|
    ensures var o := position - |buffer|;
            var length := Length(buffer[4], buffer[5]);
            PhysicalAt(file, o) ==
            if HEADER + length > |buffer| then
              if !eof then Outcome(Bad, position, [BadRecordLength]) else Outcome(Eof, position, [])
            else if buffer[6] == ZERO_TYPE && length == 0 then Outcome(Bad, position, [])
            else if Unmask(DecodeFixed32(buffer[0], buffer[1], buffer[2], buffer[3])) !=
                    Checksum(buffer[6], buffer[HEADER..HEADER + length]) then
              Outcome(Bad, position, [ChecksumMismatch])
            else Outcome(Fragment(buffer[6], buffer[HEADER..HEADER + length]), o + HEADER + length, [])
  {
    hide Checksum, Unmask, DecodeFixed32, Length, PhysicalAt, ChunkEnd;
    var o := position - |buffer|;
    assert ChunkEnd(file, o) == position && (eof <==> BlockEnd(o) > |file|) by { BufferEnds(file, o, position, eof); }
    FoundHere(file, o);
    var length := Length(buffer[4], buffer[5]);
    assert buffer[4] == file[o + 4] && buffer[5] == file[o + 5] && buffer[6] == file[o + 6];
    assert buffer[0] == file[o] && buffer[1] == file[o + 1] && buffer[2] == file[o + 2] && buffer[3] == file[o + 3];
    if HEADER + length <= |buffer| {
      SliceOfSlice(file, o, position, HEADER, HEADER + length);
    }
  }

  lemma BufferEnds(file: seq<bv8>, o: nat, position: nat, eof: bool)
    requires o <= position <= |file|
    requires if eof then position == |file| && o >= |file| / BLOCK * BLOCK
             else position % BLOCK == 0 && BlockEnd(o) == position
    ensures ChunkEnd(file, o) == position && (eof <==> BlockEnd(o) > |file|)
  {
  }

  /** With a header in the chunk, what is found there. */
  lemma FoundHere(file: seq<bv8>, o: nat)
    requires o + HEADER <= ChunkEnd(file, o) <= |file|
    ensures var end := ChunkEnd(file, o);
            var length := Length(file[o + 4], file[o + 5]);
            PhysicalAt(file, o) ==
            if HEADER + length > end - o then
              if BlockEnd(o) <= |file| then Outcome(Bad, end, [BadRecordLength]) else Outcome(Eof, |file|, [])
            else if file[o + 6] == ZERO_TYPE && length == 0 then Outcome(Bad, end, [])
            else if Unmask(DecodeFixed32(file[o], file[o + 1], file[o + 2], file[o + 3]))
                    != Checksum(file[o + 6], file[o + HEADER..o + HEADER + length]) then
              Outcome(Bad, end, [ChecksumMismatch])
            else Outcome(Fragment(file[o + 6], file[o + HEADER..o + HEADER + length]), o + HEADER + length, [])
  {
    hide Checksum, Unmask, DecodeFixed32, Length, ChunkEnd;
  }

  // ------------------------------------------------------------------ whole files

  lemma LogOfPrefix(records: seq<seq<bv8>>, n: nat)
    requires n < |records|
    ensures LogOf(records[..n + 1]) == LogOf(records[..n]) + Fragments(true, |LogOf(records[..n])|, records[n])
  {
    hide Fragments;
    assert records[..n + 1][..n] == records[..n];
  }

  lemma {:induction false} LogOfGrows(records: seq<seq<bv8>>, n: nat)
    requires n <= |records|
    ensures LogOf(records[..n]) <= LogOf(records)
    decreases |records| - n
  {
    hide Fragments;
    if n < |records| {
      LogOfGrows(records, n + 1);
      LogOfPrefix(records, n);
    } else {
      assert records[..n] == records;
    }
  }

  /** In a file cut short the next record is laid out where the last one ends. */
  lemma NextLaidOut(records: seq<seq<bv8>>, n: nat, cut: nat)
    requires n < |records| && |LogOf(records[..n])| <= cut <= |LogOf(records)|
    ensures LaidOut(LogOf(records)[..cut], |LogOf(records[..n])|, Fragments(true, |LogOf(records[..n])|, records[n]))
  {
    hide Fragments;
    var all, before := LogOf(records), LogOf(records[..n]);
    var next := Fragments(true, |before|, records[n]);
    LogOfPrefix(records, n);
    LogOfGrows(records, n + 1);
    assert all[..|before| + |next|] == before + next;
    assert all[|before|..|before| + |next|] == next;
    if |before| + |next| <= cut {
      assert all[..cut][|before|..][..|next|] == next;
    } else {
      assert all[..cut][|before|..] == next[..cut - |before|];
    }
  }

  /** A record that is laid out at an offset is read there if all of it is in the file, and otherwise nothing is. */
  lemma {:induction false} ReadsRest(file: seq<bv8>, o: nat, scratch: seq<bv8>, left: seq<bv8>)
    requires LaidOut(file, o, Fragments(false, o, left))
    ensures o <= |file|
    ensures var end := o + |Fragments(false, o, left)|;
            RecordAt(file, o, true, scratch) ==
              if end <= |file| then Reading(Some(scratch + left), end, []) else Reading(None, |file|, [])
    decreases |left|, if Room(o) == 0 then 1 else 0
  {
    hide PhysicalAt, Fragments, FirstFragment, LaidOut, BlockEnd, FragmentEnd, Taken, RecordAt;
    LaidOutBound(file, o, Fragments(false, o, left));
    RecordStep(file, o, true, scratch);
    FindsNext(file, o, false, left);
    FragmentsStep(false, o, left);
    FragmentLength(false, o, left);
    var n := Taken(o, left);
    if n == |left| {
      assert left[..n] == left;
    } else {
      RoomNext(o);
      assert scratch + left == (scratch + left[..n]) + left[n..];
      if FragmentEnd(o, left) <= |file| {
        TakenSome(o, left);
        ReadsRest(file, FragmentEnd(o, left), scratch + left[..n], left[n..]);
        AfterNothing(RecordAt(file, FragmentEnd(o, left), true, scratch + left[..n]));
      }
    }
  }

  lemma TakenSome(o: nat, left: seq<bv8>)
    ensures Taken(o, left) == 0 && Taken(o, left) < |left| ==>
              Room(o) == 0 && FragmentEnd(o, left) == o + Padding(o) + HEADER
    ensures Room(o) == 0 ==> FragmentEnd(o, left) == o + HEADER
  {
  }

  /** The same from the beginning of a record; one that had begun before is given up. */
  lemma ReadsRecord(file: seq<bv8>, o: nat, inFragment: bool, scratch: seq<bv8>, record: seq<bv8>)
    requires LaidOut(file, o, Fragments(true, o, record))
    ensures o <= |file|
    ensures var end := o + |Fragments(true, o, record)|;
            RecordAt(file, o, inFragment, scratch) ==
            if end <= |file| then Reading(Some(record), end, GivenUp(inFragment, scratch))
            else Reading(None, |file|, if FragmentEnd(o, record) <= |file| then GivenUp(inFragment, scratch) else [])
  {
    hide PhysicalAt, Fragments, FirstFragment, LaidOut, BlockEnd, FragmentEnd, Taken, RecordAt, GivenUp;
    LaidOutBound(file, o, Fragments(true, o, record));
    RecordStep(file, o, inFragment, scratch);
    FindsNext(file, o, true, record);
    FragmentsStep(true, o, record);
    FragmentLength(true, o, record);
    var n := Taken(o, record);
    var dropped := GivenUp(inFragment, scratch);
    assert [] + dropped == dropped && dropped + [] == dropped;
    if n == |record| {
      assert record[..n] == record;
    } else if FragmentEnd(o, record) <= |file| {
      ReadsRest(file, FragmentEnd(o, record), record[..n], record[n..]);
      assert record[..n] + record[n..] == record;
    }
  }

  // ------------------------------------------------------------------ all records of a log cut short

  /** At the end of the file there is nothing to find. */
  lemma NothingLeft(file: seq<bv8>)
    ensures AllAt(file, |file|) == ([], [])
  {
    hide RecordAt, Fragments;
    assert LaidOut(file, |file|, Fragments(true, |file|, []));
    FragmentsNonEmpty(true, |file|, []);
    FragmentLength(true, |file|, []);
    ReadsRecord(file, |file|, false, [], []);
  }

  /** Where a record is laid out, reading all records is reading it and then the others. */
  lemma ReadsOn(file: seq<bv8>, o: nat, record: seq<bv8>)
    requires LaidOut(file, o, Fragments(true, o, record))
    ensures o <= |file|
    ensures var end := o + |Fragments(true, o, record)|;
            AllAt(file, o) == if end <= |file| then ([record] + AllAt(file, end).0, AllAt(file, end).1) else ([], [])
  {
    hide RecordAt, Fragments, LaidOut;
    ReadsRecord(file, o, false, [], record);
    var end := o + |Fragments(true, o, record)|;
    if end <= |file| {
      assert [] + AllAt(file, end).1 == AllAt(file, end).1;
    }
  }

  /** `n` records are there in full. */
  ghost predicate WholeRecords(records: seq<seq<bv8>>, cut: nat, n: nat) {
    && n <= |records| && |LogOf(records[..n])| <= cut
    && (n < |records| ==> cut < |LogOf(records[..n + 1])|)
  }

  /** Reading a log that was cut anywhere gives the records that are there in full, and reports nothing. */
  lemma {:induction false} CutLogRead(records: seq<seq<bv8>>, cut: nat, n: nat, k: nat)
    requires cut <= |LogOf(records)| && WholeRecords(records, cut, n) && k <= n
    ensures |LogOf(records[..k])| <= cut
    ensures AllAt(LogOf(records)[..cut], |LogOf(records[..k])|) == (records[k..n], [])
    decreases n - k
  {
    hide AllAt, Fragments, LogOf;
    var file := LogOf(records)[..cut];
    LogOfOrder(records, k, n);
    var o := |LogOf(records[..k])|;
    if k < n {
      NextLaidOut(records, k, cut);
      LogOfPrefix(records, k);
      CutLogRead(records, cut, n, k + 1);
      ReadsOn(file, o, records[k]);
      assert records[k..n] == [records[k]] + records[k + 1..n];
    } else if n < |records| {
      NextLaidOut(records, n, cut);
      LogOfPrefix(records, n);
      ReadsOn(file, o, records[n]);
      assert records[n..n] == [];
    } else {
      assert records[..n] == records && records[n..n] == [];
      NothingLeft(file);
    }
  }

  lemma {:induction false} LogOfOrder(records: seq<seq<bv8>>, k: nat, n: nat)
    requires k <= n <= |records|
    ensures |LogOf(records[..k])| <= |LogOf(records[..n])|
    decreases n - k
  {
    hide Fragments, LogOf;
    if k < n {
      LogOfOrder(records, k + 1, n);
      LogOfPrefix(records, k);
    }
  }

  lemma FragmentsNonEmpty(begin: bool, o: nat, data: seq<bv8>)
    ensures |Fragments(begin, o, data)| >= HEADER
  {
    FragmentLength(begin, o, data);
  }

  /** The records of a file, one ReadRecord after the other. */
  method ReadFile(file: seq<bv8>) returns (read: seq<seq<bv8>>, reports: seq<Reason>)
    ensures (read, reports) == AllAt(file, 0)
  {
    hide RecordAt, BufferOk;
    var reader := new Reader(file);
    read := [];
    ghost var all := AllAt(file, 0);
    assert [] + all.0 == all.0 && [] + all.1 == all.1;
    var more := true;
    while more
      invariant reader.Valid() && reader.file == file && fresh(reader) && reader.Offset() <= |file|
      invariant more ==> all == (read + AllAt(file, reader.Offset()).0, reader.reports + AllAt(file, reader.Offset()).1)
      invariant !more ==> all == (read, reader.reports)
      decreases more, |file| - reader.Offset()
    {
      ghost var o, said := reader.Offset(), reader.reports;
      ghost var x := RecordAt(file, o, false, []);
      var r := reader.ReadRecord();
      if r.None? {
        more := false;
        assert read + [] == read;
      } else {
        assert read + ([r.value] + AllAt(file, x.next).0) == (read + [r.value]) + AllAt(file, x.next).0;
        assert said + (x.reports + AllAt(file, x.next).1) == (said + x.reports) + AllAt(file, x.next).1;
        read := read + [r.value];
      }
    }
    reports := reader.reports;
  }

  /** Reading a log of `records` that was cut anywhere returns exactly the records that are there in full,
      and reports nothing. */
  method ReadAll(records: seq<seq<bv8>>, cut: nat) returns (read: seq<seq<bv8>>, reports: seq<Reason>)
    requires cut <= |LogOf(records)|
    ensures |read| <= |records| && read == records[..|read|]
    ensures WholeRecords(records, cut, |read|)
    ensures cut == |LogOf(records)| ==> read == records
    ensures reports == []
  {
    hide AllAt, LogOf;
    read, reports := ReadFile(LogOf(records)[..cut]);
    ghost var n := CountWhole(records, cut);
    assert LogOf(records[..0]) == [] by { LogOfNothing(records); }
    CutLogRead(records, cut, n, 0);
    if n < |records| {
      LogOfGrows(records, n + 1);
    }
  }

  lemma {:induction false} CountWhole(records: seq<seq<bv8>>, cut: nat) returns (n: nat)
    ensures WholeRecords(records, cut, n)
  {
    hide LogOf;
    n := 0;
    LogOfNothing(records);
    while n < |records| && |LogOf(records[..n + 1])| <= cut
      invariant n <= |records| && |LogOf(records[..n])| <= cut
    {
      n := n + 1;
    }
  }

  lemma LogOfNothing(records: seq<seq<bv8>>)
    ensures LogOf(records[..0]) == []
  {
  }
}
