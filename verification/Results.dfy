/** From the merge loop to the files that are installed (db/db_impl.cc, OpenCompactionOutputFile,
    FinishCompactionOutputFile and InstallCompactionResults). */
module Results {
  import opened Keys
  import opened Files
  import opened Plans
  import opened Compactions
  import opened Merging
  import opened Layers
  import opened Invisibility

  /** The outputs as files: the range of each is that of its first and last entry. */
  ghost predicate FilesOf(outputs: seq<seq<Entry>>, files: seq<File>) {
    |files| == |outputs| && forall i :: 0 <= i < |files| ==> FileOf(outputs[i], files[i])
  }

  ghost predicate FileOf(output: seq<Entry>, f: File) {
    output != [] && f.entries == output && f.smallest == output[0].key && f.largest == output[|output| - 1].key
  }

  /** The entries of each file. */
  ghost function Contents(files: seq<File>): seq<seq<Entry>> {
    seq(|files|, i requires 0 <= i < |files| => files[i].entries)
  }

  lemma ContentsAreOutputs(outputs: seq<seq<Entry>>, files: seq<File>)
    requires FilesOf(outputs, files)
    ensures Contents(files) == outputs
  {
    forall i | 0 <= i < |files| ensures Contents(files)[i] == outputs[i] {
      assert FileOf(outputs[i], files[i]);
    }
  }

  lemma {:induction false} ConcatHas(outputs: seq<seq<Entry>>, e: Entry)
    ensures e in Concat(outputs) <==> exists i :: 0 <= i < |outputs| && e in outputs[i]
  {
    if outputs != [] {
      var n := |outputs| - 1;
      ConcatHas(outputs[..n], e);
      if i :| 0 <= i < |outputs| && e in outputs[i] {
        assert i < n ==> outputs[..n][i] == outputs[i];
      }
      if e in Concat(outputs) && e !in outputs[n] {
        var i :| 0 <= i < |outputs[..n]| && e in outputs[..n][i];
        assert e in outputs[i];
      }
    }
  }

  lemma SortedPart(a: seq<Entry>, b: seq<Entry>)
    requires Sorted(a + b)
    ensures Sorted(a) && Sorted(b)
    ensures forall x, y :: x in a && y in b ==> Less(x.key, y.key)
  {
    var s := a + b;
    forall i, j | 0 <= i < j < |a| ensures Less(a[i].key, a[j].key) {
      assert Less(s[i].key, s[j].key);
    }
    forall i, j | 0 <= i < j < |b| ensures Less(b[i].key, b[j].key) {
      assert Less(s[|a| + i].key, s[|a| + j].key);
    }
    forall x, y | x in a && y in b ensures Less(x.key, y.key) {
      var i :| 0 <= i < |a| && a[i] == x;
      var j :| 0 <= j < |b| && b[j] == y;
      assert s[i] == x && s[|a| + j] == y;
      assert Less(s[i].key, s[|a| + j].key);
    }
  }

  /** Outputs cut from a sorted sequence are sorted, and each is before the next. */
  lemma {:induction false} OutputsSorted(outputs: seq<seq<Entry>>, i: nat)
    requires Sorted(Concat(outputs)) && i < |outputs|
    ensures Sorted(outputs[i])
    ensures forall j, x, y :: i < j < |outputs| && x in outputs[i] && y in outputs[j] ==> Less(x.key, y.key)
  {
    hide Sorted;
    var n := |outputs| - 1;
    SortedPart(Concat(outputs[..n]), outputs[n]);
    if i < n {
      OutputsSorted(outputs[..n], i);
      forall j, x, y | i < j < |outputs| && x in outputs[i] && y in outputs[j] ensures Less(x.key, y.key) {
        if j == n {
          ConcatHas(outputs[..n], x);
          assert x in outputs[..n][i];
        } else {
          assert outputs[..n][j] == outputs[j] && outputs[..n][i] == outputs[i];
        }
      }
    }
  }

  lemma FileEnds(outputs: seq<seq<Entry>>, files: seq<File>, i: nat)
    requires FilesOf(outputs, files) && i < |files|
    ensures outputs[i] != [] && outputs[i][0].key == files[i].smallest
    ensures outputs[i][|outputs[i]| - 1].key == files[i].largest
    ensures outputs[i][0] in outputs[i] && outputs[i][|outputs[i]| - 1] in outputs[i]
  {
    assert FileOf(outputs[i], files[i]);
  }

  lemma EarlierBefore(outputs: seq<seq<Entry>>, files: seq<File>, i: nat, j: nat)
    requires Sorted(Concat(outputs)) && FilesOf(outputs, files) && i < j < |files|
    ensures Less(files[i].largest, files[j].smallest)
  {
    hide Sorted, Concat, Less, FilesOf;
    FilesLength(outputs, files);
    FileEnds(outputs, files, i);
    FileEnds(outputs, files, j);
    OutputsSorted(outputs, i);
  }

  lemma FilesLength(outputs: seq<seq<Entry>>, files: seq<File>)
    requires FilesOf(outputs, files)
    ensures |files| == |outputs|
  {
  }

  lemma FilesApart(outputs: seq<seq<Entry>>, files: seq<File>)
    requires Sorted(Concat(outputs)) && FilesOf(outputs, files)
    ensures OutputsOrdered(files)
  {
    hide Sorted, Concat, FilesOf;
    forall f, g | f in files && g in files && f != g ensures KeysApart(f, g) {
      var i :| 0 <= i < |files| && files[i] == f;
      var j :| 0 <= j < |files| && files[j] == g;
      if i < j {
        EarlierBefore(outputs, files, i, j);
      } else {
        EarlierBefore(outputs, files, j, i);
      }
    }
  }

  lemma FilesHold(outputs: seq<seq<Entry>>, files: seq<File>, e: Entry)
    requires FilesOf(outputs, files)
    ensures InSome(files, e) <==> e in Concat(outputs)
  {
    ConcatHas(outputs, e);
    if InSome(files, e) {
      var f :| f in files && e in f.entries;
      var i :| 0 <= i < |files| && files[i] == f;
      assert FileOf(outputs[i], files[i]);
      assert e in outputs[i];
    }
    if i :| 0 <= i < |outputs| && e in outputs[i] {
      assert FileOf(outputs[i], files[i]);
      assert files[i] in files;
    }
  }

  lemma FilesValid(outputs: seq<seq<Entry>>, files: seq<File>)
    requires Sorted(Concat(outputs)) && FilesOf(outputs, files)
    requires forall e :: e in Concat(outputs) ==> e.key.sequence <= MAX_SEQUENCE
    ensures AllValid(files)
  {
    hide Concat;
    forall f | f in files ensures ValidFile(f) && f.largest.sequence <= MAX_SEQUENCE {
      var i :| 0 <= i < |files| && files[i] == f;
      OutputsSorted(outputs, i);
      FileEnds(outputs, files, i);
      assert FileOf(outputs[i], files[i]);
      ConcatHas(outputs, outputs[i][|outputs[i]| - 1]);
    }
  }

  /** What the merge loop leaves, written to files, is a result that may be installed. */
  lemma FilesAreResult(base: Version, p: Plan, snapshot: nat, input: seq<Entry>, outputs: seq<seq<Entry>>,
                       files: seq<File>)
    requires MergedFrom(input, p.in0 + p.in1) && FilesOf(outputs, files)
    requires Concat(outputs) == Survivors(base, p.level + 2, snapshot, input, |input|)
    requires forall e :: e in input ==> e.key.sequence <= MAX_SEQUENCE
    ensures MergeResult(base, p, snapshot, input, files)
  {
    hide Concat, Survivors, FilesOf, AllValid, OutputsOrdered, InSome;
    SurvivorsSorted(base, p.level + 2, snapshot, input, |input|);
    forall e | e in Concat(outputs) ensures e.key.sequence <= MAX_SEQUENCE {
      SurvivorIndex(base, p.level + 2, snapshot, input, |input|, e);
    }
    FilesValid(outputs, files);
    FilesApart(outputs, files);
    forall e ensures InSome(files, e) <==> e in Survivors(base, p.level + 2, snapshot, input, |input|) {
      FilesHold(outputs, files, e);
    }
  }

  /** The whole merge: entries in, files out, ready to be installed. */
  method Compact(c: Compaction, ghost p: Plan, input: seq<Entry>, snapshot: nat, numbers: nat -> nat,
                 fileSize: seq<Entry> -> nat, maxSize: nat, maxGrandparentOverlap: nat)
    returns (files: seq<File>)
    requires MergedFrom(input, p.in0 + p.in1) && c.level == p.level
    requires forall e :: e in input ==> e.key.sequence <= MAX_SEQUENCE
    requires Shaped(c.inputVersion) && snapshot < MAX_SEQUENCE && Disjoint(c.grandparents)
    requires c.grandparentIndex == 0 && !c.seenKey && c.overlappedBytes == 0 && c.levelPtrs == seq(NUM_LEVELS, _ => 0)
    modifies c
    ensures MergeResult(c.inputVersion, p, snapshot, input, files)
    ensures forall i :: 0 <= i < |files| ==>
              files[i].number == numbers(i) && files[i].size == fileSize(files[i].entries)
    ensures forall f :: f in files ==>
              GoodOutput(old(c.grandparents), fileSize, f.entries, maxGrandparentOverlap, maxSize)
    ensures Lean(c.inputVersion, p.level + 2, snapshot, Concat(Contents(files)))
    ensures CutsForced(old(c.grandparents), fileSize, maxGrandparentOverlap, maxSize, Contents(files))
  {
    hide MergeResult, Shaped, Disjoint, Concat, Survivors, OverlapBounded, SizeBounded, Sorted, InSome, Lean,
         CutsForced, Contents;
    var outputs := DoCompactionWork(c, input, snapshot, fileSize, maxSize, maxGrandparentOverlap);
    files := [];
    for i := 0 to |outputs|
      invariant FilesOf(outputs[..i], files)
      invariant forall j :: 0 <= j < i ==> files[j].number == numbers(j) && files[j].size == fileSize(files[j].entries)
      invariant forall f :: f in files ==>
                  GoodOutput(old(c.grandparents), fileSize, f.entries, maxGrandparentOverlap, maxSize)
    {
      var o := outputs[i];
      assert o in outputs;
      files := files + [File(numbers(i), fileSize(o), o[0].key, o[|o| - 1].key, o)];
    }
    assert outputs[..|outputs|] == outputs;
    FilesAreResult(c.inputVersion, p, snapshot, input, outputs, files);
    ContentsAreOutputs(outputs, files);
  }
}
