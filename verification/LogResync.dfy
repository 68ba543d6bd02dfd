/** What is found behind a tear: a reader drops the rest of the block that a crash tore, and finds from the next block
    on all records that begin there (db/log_reader.cc). */
module LogResync {
  import opened LogFormat
  import opened LogWriter
  import opened LogReader
  import opened LogTears

  // ------------------------------------------------------------------ the same record, whatever is reported

  ghost predicate SameFind(a: Reading, b: Reading) {
    a.record == b.record && a.next == b.next
  }

  lemma AllSame(file: seq<bv8>, a: nat, b: nat)
    requires a <= |file| && b <= |file| && SameFind(RecordAt(file, a, false, []), RecordAt(file, b, false, []))
    ensures AllAt(file, a).0 == AllAt(file, b).0
  {
    hide RecordAt;
  }

  lemma AllNone(file: seq<bv8>, o: nat)
    requires o <= |file| && RecordAt(file, o, false, []).record.None?
    ensures AllAt(file, o).0 == []
  {
    hide RecordAt;
  }

  lemma PastFilling(file: seq<bv8>, o: nat)
    requires o + Padding(o) <= |file|
    ensures AllAt(file, o).0 == AllAt(file, o + Padding(o)).0
  {
    hide PhysicalAt, RecordAt, AllAt;
    PhysicalPast(file, o);
    RecordStep(file, o, false, []);
    RecordStep(file, o + Padding(o), false, []);
    AllSame(file, o, o + Padding(o));
  }

  // ------------------------------------------------------------------ fragments without a beginning

  /** A reader that comes upon the rest of a record it did not see the beginning of passes over it. */
  lemma {:induction false} ReadsOrphans(file: seq<bv8>, o: nat, left: seq<bv8>)
    requires LaidOut(file, o, Fragments(false, o, left))
    ensures o <= |file|
    ensures var end := o + |Fragments(false, o, left)|;
            if end <= |file| then SameFind(RecordAt(file, o, false, []), RecordAt(file, end, false, []))
            else RecordAt(file, o, false, []).record.None?
    decreases |left|, if Room(o) == 0 then 1 else 0
  {
    hide PhysicalAt, Fragments, FirstFragment, LaidOut, BlockEnd, FragmentEnd, Taken, RecordAt;
    LaidOutBound(file, o, Fragments(false, o, left));
    RecordStep(file, o, false, []);
    FindsNext(file, o, false, left);
    FragmentsStep(false, o, left);
    FragmentLength(false, o, left);
    var n := Taken(o, left);
    if n < |left| && FragmentEnd(o, left) <= |file| {
      RoomNext(o);
      TakenSome(o, left);
      ReadsOrphans(file, FragmentEnd(o, left), left[n..]);
    }
  }

  // ------------------------------------------------------------------ up to the tear

  /** The reader comes to the torn fragment; unless the checksum there is right by chance, it ends there or drops the
      rest of the block. */
  lemma {:induction false} ReadsToTear(file: seq<bv8>, o: nat, inFragment: bool, scratch: seq<bv8>, left: seq<bv8>,
                                       cut: nat)
    requires o <= cut <= |file| && file[o..cut] <= Fragments(!inFragment, o, left)
    requires Torn(o, left, cut).Some? && Torn(o, left, cut).value.0 <= |file|
    requires !PhysicalAt(file, Torn(o, left, cut).value.0).found.Fragment?
    requires !inFragment ==> scratch == []
    ensures var start := Torn(o, left, cut).value.0;
            if PhysicalAt(file, start).found.Eof? then RecordAt(file, o, inFragment, scratch).record.None?
            else SameFind(RecordAt(file, o, inFragment, scratch), RecordAt(file, ChunkEnd(file, start), false, []))
    decreases |left|, if Room(o) == 0 then 1 else 0
  {
    hide PhysicalAt, Fragments, LaidOut, RecordAt, Padding, Taken, FragmentEnd, ChunkEnd;
    EndOf(o, left);
    if cut < FragmentEnd(o, left) {
      RecordStep(file, o, inFragment, scratch);
      PhysicalPast(file, o);
      BadEnds(file, o + Padding(o));
    } else {
      RoomNext(o);
      TakenSome(o, left);
      var n := Taken(o, left);
      PassesFragment(file, o, inFragment, scratch, left, cut);
      ReadsToTear(file, FragmentEnd(o, left), true, scratch + left[..n], left[n..], cut);
    }
  }

  lemma BadEnds(file: seq<bv8>, o: nat)
    requires o <= |file| && o % BLOCK + HEADER <= BLOCK
    ensures PhysicalAt(file, o).found.Bad? ==> PhysicalAt(file, o).next == ChunkEnd(file, o)
    ensures PhysicalAt(file, o).found.Eof? ==> |file| < BlockEnd(o)
  {
    hide Checksum, StoredChecksum, Length;
  }

  // ------------------------------------------------------------------ records added behind it

  /** Where record `j` of those added begins. */
  function StartOf(base: seq<bv8>, more: seq<seq<bv8>>, j: nat): nat
    requires j <= |more|
  {
    var o := |Grown(base, more[..j])|;
    o + Padding(o)
  }

  lemma PartLaidOut(base: seq<bv8>, more: seq<seq<bv8>>, file: seq<bv8>, n: nat)
    requires n < |more| && file <= Grown(base, more) && |Grown(base, more[..n])| <= |file|
    ensures var o := |Grown(base, more[..n])|;
            && LaidOut(file, o, Fragments(true, o, more[n]))
            && o + |Fragments(true, o, more[n])| == |Grown(base, more[..n + 1])|
  {
    hide Fragments, Grown, LaidOut;
    GrownLaidOut(base, more, n);
    var o := |Grown(base, more[..n])|;
    LaidOutShorter(Grown(base, more), file, o, Fragments(true, o, more[n]));
  }

  lemma LaidOutShorter(all: seq<bv8>, file: seq<bv8>, o: nat, bytes: seq<bv8>)
    requires LaidOut(all, o, bytes) && file <= all && o <= |file|
    ensures LaidOut(file, o, bytes)
  {
    var n := |file| - o;
    assert file[o..] == all[o..][..n];
    if |bytes| <= n {
      assert bytes <= all[o..] ==> bytes <= file[o..];
    } else {
      assert bytes <= all[o..] ==> file[o..] <= bytes;
    }
  }

  /** From where record `k` begins, the records that are whole are read. */
  lemma {:induction false} ReadsPart(base: seq<bv8>, more: seq<seq<bv8>>, file: seq<bv8>, k: nat) returns (m: nat)
    requires k <= |more| && file <= Grown(base, more) && |Grown(base, more[..k])| <= |file|
    ensures k <= m <= |more| && AllAt(file, |Grown(base, more[..k])|).0 == more[k..m]
    ensures |Grown(base, more[..m])| <= |file| && (m < |more| ==> |file| < |Grown(base, more[..m + 1])|)
    decreases |more| - k
  {
    hide Fragments, Grown, AllAt, LaidOut;
    var o := |Grown(base, more[..k])|;
    if k == |more| {
      assert more[..k] == more && more[k..k] == [];
      NothingLeft(file);
      m := k;
    } else {
      PartLaidOut(base, more, file, k);
      ReadsOn(file, o, more[k]);
      if |Grown(base, more[..k + 1])| <= |file| {
        m := ReadsPart(base, more, file, k + 1);
        assert more[k..m] == [more[k]] + more[k + 1..m];
      } else {
        m := k;
        assert more[k..m] == [];
      }
    }
  }

  // ------------------------------------------------------------------ the next block

  lemma InBlock(o: nat, data: seq<bv8>, end: nat)
    requires end % BLOCK == 0 && BlockEnd(o + Padding(o)) == end
    ensures FragmentEnd(o, data) <= end && (Taken(o, data) < |data| ==> FragmentEnd(o, data) == end)
  {
    FragmentStays(o, data);
  }

  /** Of a record that begins before the end of a block, what stands behind that end is passed over. */
  lemma SkipsRest(base: seq<bv8>, more: seq<seq<bv8>>, file: seq<bv8>, j: nat, end: nat)
    requires j < |more| && file <= Grown(base, more) && |Grown(base, more[..j])| <= |file| && end <= |file|
    requires end % BLOCK == 0 && BlockEnd(StartOf(base, more, j)) == end
    ensures var next := |Grown(base, more[..j + 1])|;
            next <= end
            || (if next <= |file| then AllAt(file, end).0 == AllAt(file, next).0 else AllAt(file, end).0 == [])
  {
    hide Fragments, Grown, AllAt, LaidOut, RecordAt, FragmentEnd, Taken, Padding, FirstFragment, BlockEnd;
    var o := |Grown(base, more[..j])|;
    PartLaidOut(base, more, file, j);
    InBlock(o, more[j], end);
    FindsNext(file, o, true, more[j]);
    FragmentsStep(true, o, more[j]);
    FragmentLength(true, o, more[j]);
    var n := Taken(o, more[j]);
    if n < |more[j]| {
      ReadsOrphans(file, end, more[j][n..]);
      var next := |Grown(base, more[..j + 1])|;
      if next <= |file| {
        AllSame(file, end, next);
      } else {
        AllNone(file, end);
      }
    }
  }

  /** The first record that begins at `end` or later. */
  lemma FirstFrom(base: seq<bv8>, more: seq<seq<bv8>>, end: nat) returns (k: nat)
    ensures k <= |more| && (forall j :: 0 <= j < k ==> StartOf(base, more, j) < end)
    ensures k < |more| ==> StartOf(base, more, k) >= end
  {
    hide StartOf;
    k := 0;
    while k < |more| && StartOf(base, more, k) < end
      invariant k <= |more| && forall j :: 0 <= j < k ==> StartOf(base, more, j) < end
    {
      k := k + 1;
    }
  }

  lemma {:induction false} GrownLonger(base: seq<bv8>, more: seq<seq<bv8>>, i: nat, j: nat)
    requires i <= j <= |more|
    ensures |Grown(base, more[..i])| <= |Grown(base, more[..j])| <= |Grown(base, more)|
    ensures i < j ==> StartOf(base, more, i) <= |Grown(base, more[..j])|
    decreases j - i
  {
    hide Fragments, Grown, Padding;
    GrownGrows(base, more, j);
    if i < j {
      GrownLonger(base, more, i + 1, j);
      GrownNext(base, more, i);
      var o := |Grown(base, more[..i])|;
      FragmentsStep(true, o, more[i]);
      FragmentLength(true, o, more[i]);
    }
  }

  lemma BlockPlace(cut: nat, o: nat, end: nat)
    requires cut <= o && BlockEnd(cut) == end
    ensures cut < end && (o + Padding(o) < end ==> BlockEnd(o + Padding(o)) == end)
    ensures o < end <= o + Padding(o) ==> o + Padding(o) == end
  {
  }

  /** Where the reading goes on at the end of a block, the records that begin there are found. */
  lemma ReadsFromBlock(base: seq<bv8>, more: seq<seq<bv8>>, file: seq<bv8>, end: nat, k: nat) returns (m: nat)
    requires base <= file <= Grown(base, more) && BlockEnd(|base|) == end <= |file| && end % BLOCK == 0
    requires k <= |more| && (forall j :: 0 <= j < k ==> StartOf(base, more, j) < end)
    requires k < |more| ==> StartOf(base, more, k) >= end
    ensures k <= m <= |more| && AllAt(file, end).0 == more[k..m]
    ensures m == k || |Grown(base, more[..m])| <= |file|
    ensures m < |more| ==> |file| < |Grown(base, more[..m + 1])|
  {
    hide Fragments, Grown, AllAt, LaidOut, RecordAt, Padding, BlockEnd;
    GrownStarts(base, more);
    GrownLonger(base, more, 0, k);
    var o := |Grown(base, more[..k])|;
    BlockPlace(|base|, o, end);
    if k > 0 {
      GrownLonger(base, more, 0, k - 1);
      BlockPlace(|base|, |Grown(base, more[..k - 1])|, end);
      SkipsRest(base, more, file, k - 1, end);
    }
    if o > |file| {
      m := k;
      assert more[k..m] == [];
      if k < |more| {
        GrownLonger(base, more, k, k + 1);
      }
    } else {
      if o < end {
        BeforeEnd(base, more, file, end, k);
        PastFilling(file, o);
      }
      m := ReadsPart(base, more, file, k);
    }
  }

  lemma BeforeEnd(base: seq<bv8>, more: seq<seq<bv8>>, file: seq<bv8>, end: nat, k: nat)
    requires k <= |more| && file <= Grown(base, more) && end <= |file|
    requires |base| <= |Grown(base, more[..k])| < end == BlockEnd(|base|)
    requires k < |more| ==> StartOf(base, more, k) >= end
    ensures k < |more| && |Grown(base, more[..k])| + Padding(|Grown(base, more[..k])|) == end
  {
    hide Grown, Padding, BlockEnd;
    assert more[..|more|] == more;
    BlockPlace(|base|, |Grown(base, more[..k])|, end);
  }

  /** The log as a crash tore it, with whatever a reopened writer added and a later crash left of that.  Unless the
      bytes at the tear have the right checksum by chance, what is read is what was whole, and of the records added
      those that are whole and begin in a later block than the tear: which are hidden is known when they are written,
      and they stay hidden. */
  lemma FoundBehindTear(records: seq<seq<bv8>>, torn: seq<bv8>, cut: nat, more: seq<seq<bv8>>, file: seq<bv8>)
    returns (k: nat, m: nat)
    requires |LogOf(records)| <= cut <= |LogOf(records + [torn])| && Torn(|LogOf(records)|, torn, cut).Some?
    requires var base := LogOf(records + [torn])[..cut]; base <= file <= Grown(base, more)
    requires var start := Torn(|LogOf(records)|, torn, cut).value.0;
             start <= |file| ==> !PhysicalAt(file, start).found.Fragment?
    ensures k <= m <= |more| && AllAt(file, 0).0 == records + more[k..m]
    ensures var base, end := LogOf(records + [torn])[..cut], BlockEnd(Torn(|LogOf(records)|, torn, cut).value.0);
            && (forall j :: 0 <= j < k ==> StartOf(base, more, j) < end)
            && (k < |more| ==> StartOf(base, more, k) >= end)
            && (m == k || |Grown(base, more[..m])| <= |file|)
            && (m < |more| && end <= |file| ==> |file| < |Grown(base, more[..m + 1])|)
  {
    hide Fragments, Grown, AllAt, LogOf, RecordAt, Torn, PhysicalAt, BlockEnd, StartOf;
    var o := |LogOf(records)|;
    var base, start := LogOf(records + [torn])[..cut], Torn(o, torn, cut).value.0;
    var end := BlockEnd(start);
    LogOfSnoc(records, torn);
    assert file[o..cut] == Fragments(true, o, torn)[..cut - o];
    TornInBlock(o, torn, cut);
    k := FirstFrom(base, more, end);
    ReadsToTear(file, o, false, [], torn, cut);
    assert LogOf(records) <= file;
    LogOfNothing(records);
    ReadsStart(file, records, 0);
    assert records[0..] == records;
    m := k;
    assert more[k..k] == [];
    BadEnds(file, start);
    if PhysicalAt(file, start).found.Eof? {
      AllNone(file, o);
    } else {
      AllSame(file, o, ChunkEnd(file, start));
      if end <= |file| {
        m := ReadsFromBlock(base, more, file, end, k);
      } else {
        assert AllAt(file, |file|).0 == [] by { NothingLeft(file); }
      }
    }
  }

  lemma OneBlock(start: nat, cut: nat, end: nat)
    requires start < cut < end && start + HEADER <= end <= BlockEnd(start)
    ensures start % BLOCK + HEADER <= BLOCK && BlockEnd(cut) == BlockEnd(start) && BlockEnd(start) % BLOCK == 0
  {
  }

  lemma {:induction false} TornInBlock(o: nat, left: seq<bv8>, cut: nat)
    requires Torn(o, left, cut).Some?
    ensures var start := Torn(o, left, cut).value.0;
            && start < cut && start % BLOCK + HEADER <= BLOCK
            && BlockEnd(cut) == BlockEnd(start) && BlockEnd(start) % BLOCK == 0
    decreases |left|, if Room(o) == 0 then 1 else 0
  {
    hide Padding, Taken, FragmentEnd, BlockEnd;
    EndOf(o, left);
    if cut < FragmentEnd(o, left) {
      OneBlock(o + Padding(o), cut, FragmentEnd(o, left));
    } else {
      RoomNext(o);
      TakenSome(o, left);
      TornInBlock(FragmentEnd(o, left), left[Taken(o, left)..], cut);
    }
  }
}
