/** A log writer reopened on a file that a crash cut short (db/log_writer.cc, db/log_reader.cc). */
module LogTears {
  import opened Keys
  import opened LogFormat
  import opened LogWriter
  import opened LogReader

  /** The file with records added by a writer that was opened on it. */
  function Grown(base: seq<bv8>, records: seq<seq<bv8>>): seq<bv8> {
    if records == [] then base
    else
      var before := Grown(base, records[..|records| - 1]);
      before + Fragments(true, |before|, records[|records| - 1])
  }

  lemma GrownNext(base: seq<bv8>, records: seq<seq<bv8>>, n: nat)
    requires n < |records|
    ensures Grown(base, records[..n + 1]) == Grown(base, records[..n])
            + Fragments(true, |Grown(base, records[..n])|, records[n])
  {
    hide Fragments;
    assert records[..n + 1][..n] == records[..n];
  }

  lemma {:induction false} GrownGrows(base: seq<bv8>, records: seq<seq<bv8>>, n: nat)
    requires n <= |records|
    ensures Grown(base, records[..n]) <= Grown(base, records)
    decreases |records| - n
  {
    hide Fragments;
    if n < |records| {
      GrownGrows(base, records, n + 1);
      GrownNext(base, records, n);
    } else {
      assert records[..n] == records;
    }
  }

  lemma GrownStarts(base: seq<bv8>, records: seq<seq<bv8>>)
    ensures base <= Grown(base, records) && Grown(base, records[..0]) == base
  {
    hide Fragments;
    assert records[..0] == [];
    GrownGrows(base, records, 0);
  }

  lemma GrownLaidOut(base: seq<bv8>, records: seq<seq<bv8>>, n: nat)
    requires n < |records|
    ensures var file, o := Grown(base, records), |Grown(base, records[..n])|;
            && LaidOut(file, o, Fragments(true, o, records[n]))
            && o + |Fragments(true, o, records[n])| == |Grown(base, records[..n + 1])| <= |file|
  {
    hide Fragments, Grown;
    GrownNext(base, records, n);
    GrownGrows(base, records, n + 1);
    var file, before := Grown(base, records), Grown(base, records[..n]);
    var next := Fragments(true, |before|, records[n]);
    assert file[..|before| + |next|] == before + next;
    assert file[|before|..][..|next|] == next;
  }

  /** From the place where added records begin, exactly they are read. */
  lemma {:induction false} ReadsAdded(base: seq<bv8>, records: seq<seq<bv8>>, n: nat)
    requires n <= |records|
    ensures |Grown(base, records[..n])| <= |Grown(base, records)|
    ensures AllAt(Grown(base, records), |Grown(base, records[..n])|) == (records[n..], [])
    decreases |records| - n
  {
    hide Fragments, Grown, AllAt, LaidOut;
    GrownGrows(base, records, n);
    var file := Grown(base, records);
    if n < |records| {
      GrownLaidOut(base, records, n);
      ReadsOn(file, |Grown(base, records[..n])|, records[n]);
      ReadsAdded(base, records, n + 1);
      assert records[n..] == [records[n]] + records[n + 1..];
    } else {
      assert records[..n] == records && records[n..] == [];
      NothingLeft(file);
    }
  }

  /** Records at the start of a file are read first, whatever follows. */
  lemma {:induction false} ReadsStart(file: seq<bv8>, records: seq<seq<bv8>>, k: nat)
    requires LogOf(records) <= file && k <= |records|
    ensures |LogOf(records[..k])| <= |LogOf(records)| <= |file|
    ensures var rest := AllAt(file, |LogOf(records)|);
            AllAt(file, |LogOf(records[..k])|) == (records[k..] + rest.0, rest.1)
    decreases |records| - k
  {
    hide Fragments, LogOf, AllAt, LaidOut;
    LogOfGrows(records, k);
    var rest := AllAt(file, |LogOf(records)|);
    if k < |records| {
      var o := |LogOf(records[..k])|;
      LogOfPrefix(records, k);
      LogOfGrows(records, k + 1);
      assert LaidOut(file, o, Fragments(true, o, records[k])) by {
        PrefixLaidOut(file, LogOf(records[..k]), Fragments(true, o, records[k]));
      }
      ReadsOn(file, o, records[k]);
      ReadsStart(file, records, k + 1);
      assert records[k..] + rest.0 == [records[k]] + (records[k + 1..] + rest.0);
    } else {
      assert records[..k] == records && records[k..] == [];
      assert [] + rest.0 == rest.0;
    }
  }

  lemma PrefixLaidOut(file: seq<bv8>, before: seq<bv8>, bytes: seq<bv8>)
    requires before + bytes <= file
    ensures LaidOut(file, |before|, bytes)
  {
    assert file[|before|..][..|bytes|] == bytes;
  }

  // ------------------------------------------------------------------ cuts between two fragments

  /** The file ends at `cut`, between two fragments of what was to be written at `o`, or in the filling before one. */
  ghost predicate CutBetween(o: nat, left: seq<bv8>, cut: nat)
    decreases |left|, if Room(o) == 0 then 1 else 0
  {
    || o <= cut <= o + Padding(o)
    || (Taken(o, left) < |left| && (RoomNext(o); CutBetween(FragmentEnd(o, left), left[Taken(o, left)..], cut)))
  }

  lemma {:induction false} CutBehind(o: nat, left: seq<bv8>, cut: nat)
    requires CutBetween(o, left, cut)
    ensures o <= cut
    decreases |left|, if Room(o) == 0 then 1 else 0
  {
    if !(o <= cut <= o + Padding(o)) {
      RoomNext(o);
      CutBehind(FragmentEnd(o, left), left[Taken(o, left)..], cut);
    }
  }

  /** A writer that starts inside the filling fills the rest. */
  lemma FillingSplits(begin: bool, o: nat, cut: nat, data: seq<bv8>)
    requires o <= cut <= o + Padding(o)
    ensures Fragments(begin, o, data) == Zeroes(cut - o) + Fragments(begin, cut, data)
  {
    hide FirstFragment, Fragments, Padding, Taken, FragmentEnd, Zeroes;
    FillingPlace(o, cut, data);
    FragmentsStep(begin, o, data);
    FragmentsStep(begin, cut, data);
    FirstSplits(begin, o, cut, data);
    var n := Taken(o, data);
    if n < |data| {
      Regroup(Zeroes(cut - o), FirstFragment(begin, cut, data), Fragments(false, FragmentEnd(o, data), data[n..]));
    }
  }

  lemma Regroup(a: seq<bv8>, b: seq<bv8>, c: seq<bv8>)
    ensures (a + b) + c == a + (b + c)
  {
  }

  lemma FirstSplits(begin: bool, o: nat, cut: nat, data: seq<bv8>)
    requires o <= cut && Padding(o) == cut - o + Padding(cut) && Taken(o, data) == Taken(cut, data)
    ensures FirstFragment(begin, o, data) == Zeroes(cut - o) + FirstFragment(begin, cut, data)
  {
    hide Physical, Padding, Taken, KindOf;
    assert Zeroes(Padding(o)) == Zeroes(cut - o) + Zeroes(Padding(cut));
  }

  lemma FillingPlace(o: nat, cut: nat, data: seq<bv8>)
    requires o <= cut <= o + Padding(o)
    ensures Padding(o) == cut - o + Padding(cut) && Taken(o, data) == Taken(cut, data)
    ensures FragmentEnd(o, data) == FragmentEnd(cut, data)
  {
  }

  lemma FillingIsZero(begin: bool, o: nat, data: seq<bv8>, n: nat)
    requires n <= Padding(o)
    ensures n <= |Fragments(begin, o, data)| && Fragments(begin, o, data)[..n] == Zeroes(n)
  {
    hide Physical, Fragments;
    FragmentsStep(begin, o, data);
    assert FirstFragment(begin, o, data)[..n] == Zeroes(n);
  }

  /** A reader passes a fragment that is whole and not the last of its record. */
  lemma PassesFragment(file: seq<bv8>, o: nat, inFragment: bool, scratch: seq<bv8>, left: seq<bv8>, cut: nat)
    requires o <= FragmentEnd(o, left) <= cut <= |file| && file[o..cut] <= Fragments(!inFragment, o, left)
    requires Taken(o, left) < |left| && (!inFragment ==> scratch == [])
    ensures var n, end := Taken(o, left), FragmentEnd(o, left);
            && file[end..cut] <= Fragments(false, end, left[n..])
            && RecordAt(file, o, inFragment, scratch) == RecordAt(file, end, true, scratch + left[..n])
  {
    hide Fragments, LaidOut, RecordAt, FirstFragment, Padding, Taken, FragmentEnd;
    var n, end := Taken(o, left), FragmentEnd(o, left);
    FragmentsStep(!inFragment, o, left);
    FragmentLength(!inFragment, o, left);
    FirstIsThere(file, o, cut, FirstFragment(!inFragment, o, left), Fragments(false, end, left[n..]));
    ReadsOver(file, o, inFragment, scratch, left);
  }

  lemma ReadsOver(file: seq<bv8>, o: nat, inFragment: bool, scratch: seq<bv8>, left: seq<bv8>)
    requires LaidOut(file, o, FirstFragment(!inFragment, o, left)) && o <= FragmentEnd(o, left) <= |file|
    requires Taken(o, left) < |left| && (!inFragment ==> scratch == [])
    ensures RecordAt(file, o, inFragment, scratch) ==
              RecordAt(file, FragmentEnd(o, left), true, scratch + left[..Taken(o, left)])
  {
    hide PhysicalAt, LaidOut, RecordAt, FirstFragment, Padding, Taken, FragmentEnd;
    var n := Taken(o, left);
    FindsFragment(file, o, !inFragment, left);
    RecordStep(file, o, inFragment, scratch);
    AfterNothing(RecordAt(file, FragmentEnd(o, left), true, scratch + left[..n]));
    assert !inFragment ==> scratch + left[..n] == left[..n];
  }

  /** A record written behind such a cut is found; what was there of the other is given up. */
  lemma {:induction false} ReadsPast(file: seq<bv8>, o: nat, inFragment: bool, scratch: seq<bv8>, left: seq<bv8>,
                                     cut: nat, r: seq<bv8>)
    requires CutBetween(o, left, cut) && o <= cut <= |file| && file[o..cut] <= Fragments(!inFragment, o, left)
    requires LaidOut(file, cut, Fragments(true, cut, r)) && cut + |Fragments(true, cut, r)| <= |file|
    requires !inFragment ==> scratch == []
    ensures var x := RecordAt(file, o, inFragment, scratch);
            x.record == Some(r) && x.next == cut + |Fragments(true, cut, r)|
            && (x.reports == [] || x.reports == [PartialRecord])
    decreases |left|, if Room(o) == 0 then 1 else 0
  {
    hide PhysicalAt, Fragments, LaidOut, RecordAt;
    if o <= cut <= o + Padding(o) {
      FillingIsZero(!inFragment, o, left, cut - o);
      FillingSplits(true, o, cut, r);
      assert file[o..cut] == Zeroes(cut - o);
      assert LaidOut(file, o, Fragments(true, o, r)) by {
        LaidOutBehind(file, o, cut, Zeroes(cut - o), Fragments(true, cut, r));
      }
      ReadsRecord(file, o, inFragment, scratch, r);
    } else {
      RoomNext(o);
      var n := Taken(o, left);
      var end := FragmentEnd(o, left);
      CutBehind(end, left[n..], cut);
      PassesFragment(file, o, inFragment, scratch, left, cut);
      ReadsPast(file, end, true, scratch + left[..n], left[n..], cut, r);
    }
  }

  lemma LaidOutBehind(file: seq<bv8>, o: nat, cut: nat, a: seq<bv8>, b: seq<bv8>)
    requires o <= cut <= |file| && file[o..cut] == a && LaidOut(file, cut, b) && cut + |b| <= |file|
    ensures LaidOut(file, o, a + b)
  {
    assert file[cut..][..|b|] == b;
    assert file[o..][..|a| + |b|] == a + b;
  }

  lemma FirstIsThere(file: seq<bv8>, o: nat, cut: nat, first: seq<bv8>, others: seq<bv8>)
    requires o + |first| <= cut <= |file| && file[o..cut] <= first + others
    ensures LaidOut(file, o, first) && file[o + |first|..cut] <= others
  {
    var have := file[o..cut];
    assert have[..|first|] == (first + others)[..|first|] == first;
    assert file[o..][..|first|] == have[..|first|];
    assert file[o + |first|..cut] == have[|first|..];
    assert (first + others)[|first|..] == others;
  }

  // ------------------------------------------------------------------ reopened on a boundary

  /** The file ends where a fragment ends, or in the filling behind one. */
  ghost predicate OnBoundary(records: seq<seq<bv8>>, cut: nat) {
    exists n :: BoundaryAfter(records, cut, n)
  }

  ghost predicate BoundaryAfter(records: seq<seq<bv8>>, cut: nat, n: nat) {
    WholeRecords(records, cut, n) && (n < |records| ==> CutBetween(|LogOf(records[..n])|, records[n], cut))
  }

  lemma CutLogParts(records: seq<seq<bv8>>, cut: nat, n: nat)
    requires cut <= |LogOf(records)| && WholeRecords(records, cut, n)
    ensures var base, o := LogOf(records)[..cut], |LogOf(records[..n])|;
            && LogOf(records[..n]) <= base
            && (n < |records| ==> base[o..cut] <= Fragments(true, o, records[n]))
            && (n == |records| ==> o == cut)
  {
    hide LogOf, Fragments, LaidOut;
    LogOfGrows(records, n);
    if n < |records| {
      LogOfPrefix(records, n);
      LogOfGrows(records, n + 1);
      var all, before := LogOf(records), LogOf(records[..n]);
      var next := Fragments(true, |before|, records[n]);
      assert all[..|before| + |next|] == before + next;
      assert all[..cut][|before|..cut] == next[..cut - |before|];
    } else {
      assert records[..n] == records;
    }
  }

  /** Reopened on a boundary, a writer adds records that are all found, behind those that were whole. */
  lemma ReopenedRead(records: seq<seq<bv8>>, cut: nat, n: nat, more: seq<seq<bv8>>)
    requires cut <= |LogOf(records)| && BoundaryAfter(records, cut, n)
    ensures n <= |records|
    ensures var all := AllAt(Grown(LogOf(records)[..cut], more), 0);
            all.0 == records[..n] + more && (all.1 == [] || all.1 == [PartialRecord])
  {
    BoundaryWhole(records, cut, n);
    hide LogOf, Fragments, LaidOut, AllAt, Grown, CutBetween, WholeRecords;
    var base := LogOf(records)[..cut];
    var file := Grown(base, more);
    WholeBound(records, cut, n);
    var o := |LogOf(records[..n])|;
    CutLogParts(records, cut, n);
    GrownStarts(base, more);
    LogOfNothing(records[..n]);
    ReadsStart(file, records[..n], 0);
    if more == [] {
      assert file == base by { GrownNothing(base); }
      CutLogRead(records, cut, n, n);
      assert records[n..n] == [];
    } else {
      BehindCut(records, cut, n, more);
    }
    assert records[..n][0..] == records[..n];
  }

  lemma GrownNothing(base: seq<bv8>)
    ensures Grown(base, []) == base
  {
  }

  lemma WholeBound(records: seq<seq<bv8>>, cut: nat, n: nat)
    requires WholeRecords(records, cut, n)
    ensures n <= |records| && |LogOf(records[..n])| <= cut
  {
  }

  lemma BehindCut(records: seq<seq<bv8>>, cut: nat, n: nat, more: seq<seq<bv8>>)
    requires cut <= |LogOf(records)| && BoundaryAfter(records, cut, n) && more != []
    ensures |LogOf(records[..n])| <= |Grown(LogOf(records)[..cut], more)|
    ensures var all := AllAt(Grown(LogOf(records)[..cut], more), |LogOf(records[..n])|);
            all.0 == more && (all.1 == [] || all.1 == [PartialRecord])
  {
    hide LogOf, Fragments, LaidOut, Grown, RecordAt;
    var base := LogOf(records)[..cut];
    var file := Grown(base, more);
    var o := |LogOf(records[..n])|;
    CutLogParts(records, cut, n);
    GrownStarts(base, more);
    GrownLaidOut(base, more, 0);
    var left := if n < |records| then records[n] else [];
    assert file[o..cut] == base[o..cut];
    ReadsPast(file, o, false, [], left, cut, more[0]);
    ReadsAdded(base, more, 1);
    var x := RecordAt(file, o, false, []);
    assert x.reports + [] == x.reports;
    assert [more[0]] + more[1..] == more;
  }

  /** A writer opened on a file that already has contents. */
  method WriteMore(base: seq<bv8>, more: seq<seq<bv8>>) returns (file: seq<bv8>)
    ensures file == Grown(base, more)
  {
    hide Fragments, Grown;
    var w := new Writer(base);
    GrownStarts(base, more);
    for i := 0 to |more|
      invariant w.Valid() && fresh(w) && w.dest == Grown(base, more[..i])
    {
      w.AddRecord(more[i]);
      GrownNext(base, more, i);
    }
    assert more[..|more|] == more;
    file := w.dest;
  }

  /** A log cut on a boundary, a writer reopened on it, and all of the file read. */
  method ReadReopened(records: seq<seq<bv8>>, cut: nat, more: seq<seq<bv8>>)
    returns (read: seq<seq<bv8>>, reports: seq<Reason>, ghost n: nat)
    requires cut <= |LogOf(records)| && OnBoundary(records, cut)
    ensures WholeRecords(records, cut, n) && n <= |records| && read == records[..n] + more
    ensures reports == [] || reports == [PartialRecord]
  {
    hide LogOf, AllAt, Grown, BoundaryAfter, WholeRecords;
    n :| BoundaryAfter(records, cut, n);
    BoundaryWhole(records, cut, n);
    var file := WriteMore(LogOf(records)[..cut], more);
    read, reports := ReadFile(file);
    ReopenedRead(records, cut, n, more);
  }

  lemma BoundaryWhole(records: seq<seq<bv8>>, cut: nat, n: nat)
    requires BoundaryAfter(records, cut, n)
    ensures n <= |records| && WholeRecords(records, cut, n)
  {
  }

  // ------------------------------------------------------------------ reopened inside a payload

  /** What is found behind a header that says `n` bytes of payload with checksum `sum`: the end of the file, or a
      payload, or the rest of the block is dropped. */
  function Behind(file: seq<bv8>, start: nat, n: nat, kind: bv8, sum: bv32): Outcome
    requires start + HEADER <= |file|
  {
    if |file| < start + HEADER + n then Outcome(Eof, |file|, [])
    else if Checksum(kind, file[start + HEADER..start + HEADER + n]) != sum then
      Outcome(Bad, ChunkEnd(file, start), [ChecksumMismatch])
    else Outcome(Fragment(kind, file[start + HEADER..start + HEADER + n]), start + HEADER + n, [])
  }

  /** The header of a fragment is there but not all of its payload, and other bytes follow: the reader takes those for
      the payload. */
  lemma TornFragment(file: seq<bv8>, o: nat, begin: bool, data: seq<bv8>, cut: nat)
    requires o + Padding(o) + HEADER <= cut <= |file| && cut <= FragmentEnd(o, data)
    requires file[o..cut] <= FirstFragment(begin, o, data)
    ensures var n := Taken(o, data);
            var kind := KindOf(begin, n == |data|);
            PhysicalAt(file, o) == Behind(file, o + Padding(o), n, kind, Checksum(kind, data[..n]))
  {
    hide Physical, Checksum, StoredChecksum, Length, PhysicalAt, BlockEnd, FirstFragment, Padding, Taken, FragmentEnd,
         KindOf, Behind;
    TornHeader(file, o, begin, data, cut);
    PhysicalPast(file, o);
    EndOf(o, data);
    var n := Taken(o, data);
    var kind := KindOf(begin, n == |data|);
    TornOutcome(file, o + Padding(o), n, kind, Checksum(kind, data[..n]));
  }

  lemma TornOutcome(file: seq<bv8>, start: nat, n: nat, kind: bv8, sum: bv32)
    requires start + HEADER <= |file| && start + HEADER + n <= BlockEnd(start) && kind != ZERO_TYPE
    requires Length(file[start + 4], file[start + 5]) == n && file[start + 6] == kind
    requires StoredChecksum(file, start) == sum
    ensures PhysicalAt(file, start) == Behind(file, start, n, kind, sum)
  {
    hide Checksum, Unmask, DecodeFixed32, Length, PhysicalAt, ChunkEnd, BlockEnd;
    TornBlock(file, start, start + HEADER + n);
    FoundHere(file, start);
  }

  lemma EndOf(o: nat, data: seq<bv8>)
    ensures FragmentEnd(o, data) == o + Padding(o) + HEADER + Taken(o, data) <= BlockEnd(o + Padding(o))
  {
    FragmentStays(o, data);
  }

  lemma TornBlock(file: seq<bv8>, start: nat, end: nat)
    requires start + HEADER <= end <= BlockEnd(start) && start + HEADER <= |file|
    ensures start + HEADER <= ChunkEnd(file, start) <= |file|
    ensures |file| < end ==> BlockEnd(start) > |file| && ChunkEnd(file, start) == |file|
    ensures end <= |file| ==> end <= ChunkEnd(file, start)
  {
  }

  lemma PhysicalPast(file: seq<bv8>, o: nat)
    requires o + Padding(o) <= |file|
    ensures PhysicalAt(file, o) == PhysicalAt(file, o + Padding(o))
  {
    hide Checksum, StoredChecksum, Length;
    FragmentStays(o, []);
  }

  /** What the header of a torn fragment says. */
  lemma TornHeader(file: seq<bv8>, o: nat, begin: bool, data: seq<bv8>, cut: nat)
    requires o + Padding(o) + HEADER <= cut <= |file| && cut <= FragmentEnd(o, data)
    requires file[o..cut] <= FirstFragment(begin, o, data)
    ensures var n, start := Taken(o, data), o + Padding(o);
            var kind := KindOf(begin, n == |data|);
            && Length(file[start + 4], file[start + 5]) == n && file[start + 6] == kind != ZERO_TYPE
            && StoredChecksum(file, start) == Checksum(kind, data[..n])
  {
    hide Physical, Checksum, StoredChecksum, Length;
    var n, pad := Taken(o, data), Padding(o);
    var start := o + pad;
    var kind := KindOf(begin, n == |data|);
    assert file[o..cut][..pad] == file[o..start] && Zeroes(pad) == FirstFragment(begin, o, data)[..pad];
    assert file[start..cut] <= Physical(kind, data[..n]) by {
      assert file[start..cut] == file[o..cut][pad..];
      assert FirstFragment(begin, o, data)[pad..] == Physical(kind, data[..n]);
    }
    var short := file[..cut];
    assert short[start..] == file[start..cut];
    HeaderAt(short, start, kind, data[..n]);
    SameHeader(file, short, start);
  }

  lemma SameHeader(file: seq<bv8>, short: seq<bv8>, o: nat)
    requires short <= file && o + HEADER <= |short|
    ensures StoredChecksum(file, o) == StoredChecksum(short, o)
    ensures file[o + 4] == short[o + 4] && file[o + 5] == short[o + 5] && file[o + 6] == short[o + 6]
  {
  }

  // ------------------------------------------------------------------ every cut inside a fragment

  /** A fragment of what was to be written at `o` that a cut goes through: where its header begins, and where it
      ends. */
  function Torn(o: nat, left: seq<bv8>, cut: nat): Option<(nat, nat)>
    decreases |left|, if Room(o) == 0 then 1 else 0
  {
    if cut <= o + Padding(o) then None
    else if cut < FragmentEnd(o, left) then Some((o + Padding(o), FragmentEnd(o, left)))
    else if Taken(o, left) == |left| then None
    else
      RoomNext(o);
      Torn(FragmentEnd(o, left), left[Taken(o, left)..], cut)
  }

  /** A cut inside a record goes through a fragment exactly when it is not between two. */
  lemma {:induction false} TornOrBetween(begin: bool, o: nat, left: seq<bv8>, cut: nat)
    requires o <= cut < o + |Fragments(begin, o, left)|
    ensures Torn(o, left, cut).None? <==> CutBetween(o, left, cut)
    decreases |left|, if Room(o) == 0 then 1 else 0
  {
    hide Fragments, FirstFragment;
    FragmentsStep(begin, o, left);
    FragmentLength(begin, o, left);
    EndOf(o, left);
    hide Padding, Taken, FragmentEnd;
    var n := Taken(o, left);
    if cut > o + Padding(o) && n < |left| {
      RoomNext(o);
      TakenSome(o, left);
      if cut >= FragmentEnd(o, left) {
        TornOrBetween(false, FragmentEnd(o, left), left[n..], cut);
      } else {
        NotBetween(FragmentEnd(o, left), left[n..], cut);
      }
    }
  }

  lemma NotBetween(o: nat, left: seq<bv8>, cut: nat)
    requires cut < o
    ensures !CutBetween(o, left, cut)
  {
    hide CutBetween;
    if CutBetween(o, left, cut) {
      CutBehind(o, left, cut);
    }
  }

  /** So every cut of a log is one or the other. */
  lemma TornOrBoundary(records: seq<seq<bv8>>, cut: nat, n: nat)
    requires WholeRecords(records, cut, n)
    ensures BoundaryAfter(records, cut, n) <==> n == |records| || Torn(|LogOf(records[..n])|, records[n], cut).None?
  {
    hide LogOf, Fragments, CutBetween, Torn;
    if n < |records| {
      LogOfPrefix(records, n);
      TornOrBetween(true, |LogOf(records[..n])|, records[n], cut);
    }
  }

  /** The bytes at `start`, taken for a header, describe a fragment that the file is too short for. */
  ghost predicate TooShort(file: seq<bv8>, start: nat) {
    && |file| < BlockEnd(start)
    && (|file| < start + HEADER || |file| < start + HEADER + Length(file[start + 4], file[start + 5]))
  }

  lemma TooShortIsEnd(file: seq<bv8>, start: nat)
    requires start <= |file| && TooShort(file, start)
    ensures PhysicalAt(file, start) == Outcome(Eof, |file|, [])
  {
    hide Checksum, StoredChecksum, Length;
  }

  /** A reader that comes to such a place finds no record from there on, whatever it has read of one, and reports
      nothing. */
  lemma {:induction false} ReadsTorn(file: seq<bv8>, o: nat, inFragment: bool, scratch: seq<bv8>, left: seq<bv8>,
                                     cut: nat)
    requires o <= cut <= |file| && file[o..cut] <= Fragments(!inFragment, o, left)
    requires Torn(o, left, cut).Some? && TooShort(file, Torn(o, left, cut).value.0)
    requires !inFragment ==> scratch == []
    ensures RecordAt(file, o, inFragment, scratch) == Reading(None, |file|, [])
    decreases |left|, if Room(o) == 0 then 1 else 0
  {
    hide PhysicalAt, Fragments, LaidOut, RecordAt, TooShort, Padding, Taken, FragmentEnd;
    EndOf(o, left);
    if cut < FragmentEnd(o, left) {
      RecordStep(file, o, inFragment, scratch);
      PhysicalPast(file, o);
      TooShortIsEnd(file, o + Padding(o));
    } else {
      RoomNext(o);
      TakenSome(o, left);
      var n := Taken(o, left);
      PassesFragment(file, o, inFragment, scratch, left, cut);
      ReadsTorn(file, FragmentEnd(o, left), true, scratch + left[..n], left[n..], cut);
    }
  }

  /** A log cut through any fragment, in its header or in its payload, with any bytes appended that leave it too
      short for what the bytes at the tear describe: only the records before it are read, without any report. */
  lemma TornTailHidesNext(records: seq<seq<bv8>>, torn: seq<bv8>, cut: nat, tail: seq<bv8>)
    requires |LogOf(records)| <= cut <= |LogOf(records + [torn])| && Torn(|LogOf(records)|, torn, cut).Some?
    requires TooShort(LogOf(records + [torn])[..cut] + tail, Torn(|LogOf(records)|, torn, cut).value.0)
    ensures AllAt(LogOf(records + [torn])[..cut] + tail, 0) == (records, [])
  {
    hide Fragments, LogOf, RecordAt, Torn, TooShort;
    var o := |LogOf(records)|;
    LogOfSnoc(records, torn);
    var all := LogOf(records + [torn]);
    var file := all[..cut] + tail;
    assert file[o..cut] == Fragments(true, o, torn)[..cut - o];
    ReadsTorn(file, o, false, [], torn, cut);
    assert AllAt(file, o) == ([], []);
    assert LogOf(records) <= file;
    LogOfNothing(records);
    ReadsStart(file, records, 0);
    assert records[0..] + [] == records;
  }

  lemma LogOfSnoc(records: seq<seq<bv8>>, r: seq<bv8>)
    ensures LogOf(records + [r]) == LogOf(records) + Fragments(true, |LogOf(records)|, r)
  {
    hide Fragments;
    assert (records + [r])[..|records|] == records;
  }

  /** If the header is whole, the file is too short exactly until it makes up for the payload that is missing. */
  lemma {:induction false} TooShortForPayload(file: seq<bv8>, o: nat, begin: bool, left: seq<bv8>, cut: nat)
    requires o <= cut <= |file| && file[o..cut] <= Fragments(begin, o, left)
    requires Torn(o, left, cut).Some? && Torn(o, left, cut).value.0 + HEADER <= cut
    ensures TooShort(file, Torn(o, left, cut).value.0) <==> |file| < Torn(o, left, cut).value.1
    decreases |left|, if Room(o) == 0 then 1 else 0
  {
    hide Fragments, FirstFragment, Length, BlockEnd;
    var n := Taken(o, left);
    FragmentsStep(begin, o, left);
    FragmentLength(begin, o, left);
    EndOf(o, left);
    if cut < FragmentEnd(o, left) {
      var first := FirstFragment(begin, o, left);
      assert Fragments(begin, o, left)[..|first|] == first;
      assert file[o..cut] <= first;
      TornHeader(file, o, begin, left, cut);
    } else {
      RoomNext(o);
      FirstIsThere(file, o, cut, FirstFragment(begin, o, left), Fragments(false, FragmentEnd(o, left), left[n..]));
      TooShortForPayload(file, FragmentEnd(o, left), false, left[n..], cut);
    }
  }

  /** So a batch that a reopened writer logs and syncs behind any tear is gone at the next opening: behind a torn
      payload if it is shorter than what is missing there, behind a torn header if what then stands there describes
      more than there is. */
  lemma SyncedBatchHidden(records: seq<seq<bv8>>, torn: seq<bv8>, cut: nat, batch: seq<bv8>)
    requires |LogOf(records)| <= cut <= |LogOf(records + [torn])| && Torn(|LogOf(records)|, torn, cut).Some?
    requires var place := Torn(|LogOf(records)|, torn, cut).value;
             if place.0 + HEADER <= cut then cut + |Fragments(true, cut, batch)| < place.1
             else TooShort(LogOf(records + [torn])[..cut] + Fragments(true, cut, batch), place.0)
    ensures AllAt(Grown(LogOf(records + [torn])[..cut], [batch]), 0) == (records, [])
  {
    hide Fragments, LogOf, AllAt, Torn, TooShort;
    var o := |LogOf(records)|;
    var base, tail := LogOf(records + [torn])[..cut], Fragments(true, cut, batch);
    LogOfSnoc(records, torn);
    assert (base + tail)[o..cut] == Fragments(true, o, torn)[..cut - o];
    if Torn(o, torn, cut).value.0 + HEADER <= cut {
      TooShortForPayload(base + tail, o, true, torn, cut);
    }
    TornTailHidesNext(records, torn, cut, tail);
    assert [batch][..0] == [];
    assert Grown(base, [batch]) == base + tail;
  }
}
