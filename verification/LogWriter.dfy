/** The log writer (db/log_writer.cc). */
module LogWriter {
  import opened Crc
  import opened LogFormat

  class Writer {
    var dest: seq<bv8>
    var blockOffset: nat

    ghost predicate Valid()
      reads this
    {
      blockOffset <= BLOCK && blockOffset % BLOCK == |dest| % BLOCK
    }

    /** A writer on a file that already has contents. */
    constructor (contents: seq<bv8>)
      ensures Valid() && dest == contents
    {
      dest := contents;
      blockOffset := |contents| % BLOCK;
    }

    method EmitPhysicalRecord(kind: bv8, payload: seq<bv8>)
      requires Valid()
      requires blockOffset + HEADER + |payload| <= BLOCK
      modifies this
      ensures Valid()
      ensures dest == old(dest) + Physical(kind, payload)
      ensures blockOffset == old(blockOffset) + HEADER + |payload|
    {
      hide Fixed32, Mask, Extended;
      var crc := Extended(Extended(0, [kind]), payload);
      ChecksumExtends(kind, payload);
      var header := Fixed32(Mask(crc)) + [LowLength(|payload|), HighLength(|payload|), kind];
      assert header == Header(kind, payload);
      dest := dest + header;
      dest := dest + payload;
      SameOffset(blockOffset, |old(dest)|, HEADER + |payload|);
      blockOffset := blockOffset + HEADER + |payload|;
      assert dest == old(dest) + (header + payload);
    }

    /** One round of the loop: fill the block if no header fits, then emit what fits. */
    method EmitFragment(begin: bool, left: seq<bv8>) returns (n: nat)
      requires Valid()
      modifies this
      ensures Valid()
      ensures n == Taken(|old(dest)|, left)
      ensures dest == old(dest) + FirstFragment(begin, |old(dest)|, left)
    {
      hide Physical;
      Offsets(blockOffset, |dest|);
      if BLOCK - blockOffset < HEADER {
        if BLOCK - blockOffset > 0 {
          dest := dest + Zeroes(BLOCK - blockOffset);
        }
        blockOffset := 0;
      }
      assert dest == old(dest) + Zeroes(Padding(|old(dest)|));
      var avail := BLOCK - blockOffset - HEADER;
      n := if |left| < avail then |left| else avail;
      var end := |left| == n;
      EmitPhysicalRecord(KindOf(begin, end), left[..n]);
      assert dest == old(dest) + (Zeroes(Padding(|old(dest)|)) + Physical(KindOf(begin, end), left[..n]));
    }

    /** The record goes to the end of the file, in as many fragments as it takes. */
    method AddRecord(record: seq<bv8>)
      requires Valid()
      modifies this
      ensures Valid()
      ensures dest == old(dest) + Fragments(true, |old(dest)|, record)
    {
      hide FirstFragment, Fragments, Room;
      var begin, end := true, false;
      var left := record;
      while !end
        invariant Valid()
        invariant !end ==> dest + Fragments(begin, |dest|, left) == old(dest) + Fragments(true, |old(dest)|, record)
        invariant end ==> dest == old(dest) + Fragments(true, |old(dest)|, record)
        decreases !end, |left|, if Room(|dest|) == 0 then 1 else 0
      {
        ghost var was := dest;
        FragmentLength(begin, |was|, left);
        FragmentsStep(begin, |was|, left);
        RoomNext(|was|);
        var n := EmitFragment(begin, left);
        end := |left| == n;
        if !end {
          assert dest + Fragments(false, |dest|, left[n..]) == was
                 + (FirstFragment(begin, |was|, left) + Fragments(false, |dest|, left[n..]));
        }
        left := left[n..];
        begin := false;
      }
    }
  }

  lemma SameOffset(a: nat, b: nat, n: nat)
    requires a % BLOCK == b % BLOCK
    ensures (a + n) % BLOCK == (b + n) % BLOCK
  {
  }

  /** What the code computes from the block offset is what the format says of the file's length. */
  lemma Offsets(offset: nat, length: nat)
    requires offset <= BLOCK && offset % BLOCK == length % BLOCK
    ensures BLOCK - offset < HEADER ==> Room(length) == BLOCK - HEADER
    ensures BLOCK - offset >= HEADER ==> Padding(length) == 0 && Room(length) == BLOCK - offset - HEADER
    ensures 0 < BLOCK - offset < HEADER ==> Padding(length) == BLOCK - offset
    ensures offset == BLOCK ==> Padding(length) == 0
    ensures BLOCK - offset < HEADER ==> (length + Padding(length)) % BLOCK == 0
  {
  }

  lemma FragmentsStep(begin: bool, o: nat, data: seq<bv8>)
    ensures Fragments(begin, o, data) ==
            if Taken(o, data) == |data| then FirstFragment(begin, o, data)
            else FirstFragment(begin, o, data) + Fragments(false, FragmentEnd(o, data), data[Taken(o, data)..])
  {
  }

  /** Records added one after the other give the log of them all; the writer may be reopened between any two. */
  method WriteAll(records: seq<seq<bv8>>, reopen: set<nat>) returns (file: seq<bv8>)
    ensures file == LogOf(records)
  {
    hide Fragments;
    var w := new Writer([]);
    for i := 0 to |records|
      invariant w.Valid() && fresh(w)
      invariant w.dest == LogOf(records[..i])
    {
      if i in reopen {
        w := new Writer(w.dest);
      }
      assert records[..i + 1][..i] == records[..i];
      w.AddRecord(records[i]);
    }
    assert records[..|records|] == records;
    file := w.dest;
  }
}
