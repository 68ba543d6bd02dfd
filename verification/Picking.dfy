/** Picking a compaction, and picking the level for a flushed memtable (db/version_set.cc). */
module Picking {
  import opened Keys
  import opened Files
  import opened Inputs
  import opened Plans
  import opened Compactions

  // ------------------------------------------------------------------ PickLevelForMemTableOutput

  /** Some file of the level meets the user-key range. */
  ghost predicate OverlapInLevel(files: seq<File>, lo: UserKey, hi: UserKey) {
    exists f :: f in files && Overlaps(f, Some(lo), Some(hi))
  }

  /** No file of the levels up to `level` meets the user-key range. */
  ghost predicate ClearTo(v: Version, level: nat, lo: UserKey, hi: UserKey)
    requires level < |v|
  {
    forall l :: 0 <= l <= level ==> !OverlapInLevel(v[l], lo, hi)
  }

  ghost predicate TooManyGrandparents(v: Version, level: nat, lo: UserKey, hi: UserKey, limit: nat) {
    level + 2 < |v| && TotalFileSize(Selected(v[level + 2], Some(lo), Some(hi))) > limit
  }

  /** Where a flushed memtable goes: as deep as level 2, but never past a level it overlaps. */
  method PickLevelForMemTableOutput(v: Version, lo: UserKey, hi: UserKey, limit: nat) returns (level: nat)
    requires Shaped(v)
    ensures level <= MAX_MEM_COMPACT_LEVEL && level <= 2
    ensures level > 0 ==> ClearTo(v, level, lo, hi)
    ensures forall l :: 0 <= l < level ==> !TooManyGrandparents(v, l, lo, hi, limit)
    ensures level < MAX_MEM_COMPACT_LEVEL ==>
              || OverlapInLevel(v[0], lo, hi)
              || OverlapInLevel(v[level + 1], lo, hi)
              || TooManyGrandparents(v, level, lo, hi, limit)
  {
    hide Disjoint, Overlaps, Selected, KeepsCover, LeastClosed;
    level := 0;
    var overlap := SomeFileOverlapsRange(false, v[0], Some(lo), Some(hi));
    if !overlap {
      assert ClearTo(v, 0, lo, hi);
      while level < MAX_MEM_COMPACT_LEVEL
        invariant level <= MAX_MEM_COMPACT_LEVEL
        invariant ClearTo(v, level, lo, hi)
        invariant forall l :: 0 <= l < level ==> !TooManyGrandparents(v, l, lo, hi, limit)
      {
        ShapedLevel(v, level + 1);
        overlap := SomeFileOverlapsRange(true, v[level + 1], Some(lo), Some(hi));
        if overlap {
          break;
        }
        if level + 2 < NUM_LEVELS {
          ShapedLevel(v, level + 2);
          var overlaps, _, _ := GetOverlappingInputs(false, v[level + 2], Some(lo), Some(hi), []);
          if TotalFileSize(overlaps) > limit {
            break;
          }
        }
        level := level + 1;
      }
    }
  }

  // ------------------------------------------------------------------ PickCompaction and CompactRange

  lemma SingleConnected(f: File)
    requires AtMost(f.smallest, f.largest)
    ensures Connected([f])
  {
    forall a, b, u | a in [f] && b in [f] && a.smallest.user <= u <= b.largest.user
      ensures CoversKey([f], u)
    {
      assert f in [f] && Within(f, u);
    }
  }

  lemma SingleSeed(level: nat, files: seq<File>, i: nat)
    requires level > 0 && i < |files|
    ensures Seed(level, files, [files[i]])
  {
    assert IsRun(files, i, i + 1, [files[i]]);
  }

  /** What a picked file starts out with: itself alone above level 0, all that it touches on level 0. */
  ghost predicate PickedSeed(level: nat, files: seq<File>, f: File, seed: seq<File>) {
    if level == 0 then Taken(0, files, f.smallest, f.largest, seed) else seed == [f]
  }

  /** A picked file as a seed. */
  method SeedFrom(level: nat, files: seq<File>, f: File) returns (seed: seq<File>)
    requires ProperLevel(level, files)
    requires f in files
    ensures f in seed && PickedSeed(level, files, f, seed)
    ensures Seed(level, files, seed)
    ensures Connected(seed)
  {
    if level == 0 {
      var smallest, largest := GetRange([f]);
      assert f in [f];
      ghost var lo, hi;
      seed, lo, hi := GetOverlappingInputs(true, files, Some(smallest.user), Some(largest.user), []);
      SelectedMembers(files, lo, hi);
      assert Overlaps(f, lo, hi);
      SelectedIsSeed(0, files, lo, hi);
      assert files + [] == files && seed + [] == seed;
      assert Covers(files, smallest.user, largest.user) by {
        forall u | smallest.user <= u <= largest.user
          ensures CoversKey(files, u)
        {
          assert f in files && Within(f, u);
        }
      }
      ExpandedConnectedZero(files, [], lo.value, hi.value);
    } else {
      seed := [f];
      var i :| 0 <= i < |files| && files[i] == f;
      SingleSeed(level, files, i);
      SingleConnected(f);
    }
  }

  predicate EndsAfter(pointer: Option<InternalKey>, f: File) {
    pointer.None? || Less(pointer.value, f.largest)
  }

  /** The first file that ends after the compaction pointer; the first file of the level if there is none. */
  ghost predicate IsNextFile(files: seq<File>, pointer: Option<InternalKey>, f: File) {
    exists i :: 0 <= i < |files| && files[i] == f
                && if EndsAfter(pointer, f) then forall j :: 0 <= j < i ==> !EndsAfter(pointer, files[j])
                   else i == 0 && forall j :: 0 <= j < |files| ==> !EndsAfter(pointer, files[j])
  }

  method FileAfterPointer(files: seq<File>, pointer: Option<InternalKey>) returns (f: File)
    requires files != []
    ensures f in files && IsNextFile(files, pointer, f)
  {
    for i := 0 to |files|
      invariant forall j :: 0 <= j < i ==> !EndsAfter(pointer, files[j])
    {
      if pointer.None? || Compare(files[i].largest, pointer.value) > 0 {
        return files[i];
      }
    }
    return files[0];
  }

  /** The file to start from: the next one of a level that is too big, else one that was sought in too often. */
  ghost predicate PickedFile(current: Version, sizeLevel: Option<nat>, seekFile: Option<(nat, File)>,
                             pointers: seq<Option<InternalKey>>, level: nat, f: File) {
    if sizeLevel.Some? then
      level == sizeLevel.value && level < |current| && level < |pointers|
      && IsNextFile(current[level], pointers[level], f)
    else seekFile == Some((level, f))
  }

  /** The plan is the one that follows from the file to start from. */
  ghost predicate PickedPlan(current: Version, sizeLevel: Option<nat>, seekFile: Option<(nat, File)>,
                             pointers: seq<Option<InternalKey>>, expandLimit: nat, plan: Plan) {
    && plan.level + 1 < |current|
    && exists f: File, seed: seq<File> ::
         && PickedFile(current, sizeLevel, seekFile, pointers, plan.level, f)
         && PickedSeed(plan.level, current[plan.level], f, seed)
         && ChosenInputs(plan.level, current[plan.level], current[plan.level + 1], seed, expandLimit, plan.in0,
                         plan.in1)
  }

  /** Choose a compaction: by size first, else by seeks.  Its inputs are closed and leave no gap. */
  method PickCompaction(current: Version, sizeLevel: Option<nat>, seekFile: Option<(nat, File)>,
                        pointers: seq<Option<InternalKey>>, expandLimit: nat)
    returns (c: Compaction?, ghost plan: Plan)
    requires Shaped(current) && |pointers| == NUM_LEVELS
    requires sizeLevel.Some? ==> sizeLevel.value + 1 < NUM_LEVELS && current[sizeLevel.value] != []
    requires seekFile.Some? ==> seekFile.value.0 + 1 < NUM_LEVELS && seekFile.value.1 in current[seekFile.value.0]
    ensures c == null <==> sizeLevel.None? && seekFile.None?
    ensures c != null ==>
              && fresh(c) && c.inputVersion == current
              && c.level == (if sizeLevel.Some? then sizeLevel.value else seekFile.value.0)
              && plan.level == c.level && plan.in0 == c.inputs0 && plan.in1 == c.inputs1
              && PlanClosed(current, plan) && c.Ready()
              && PickedPlan(current, sizeLevel, seekFile, pointers, expandLimit, plan)
              && Connected(c.inputs0 + c.inputs1)
              && (if sizeLevel.Some? then
                    exists f :: f in c.inputs0 && IsNextFile(current[c.level], pointers[c.level], f)
                  else seekFile.value.1 in c.inputs0)
              && (c.level + 2 < NUM_LEVELS ==> AllMeeting(current[c.level + 2], c.inputs0 + c.inputs1, c.grandparents))
              && (c.level + 2 == NUM_LEVELS ==> c.grandparents == [])
  {
    hide PlanClosed, Connected, Seed, AllMeeting, Shaped, Disjoint, IsSlice, IsNextFile, PickedSeed, ChosenInputs;
    plan := Plan(0, [], [], SeekKey(0.0, 0), SeekKey(0.0, 0));
    var level: nat, f: File;
    if sizeLevel.Some? {
      level := sizeLevel.value;
      assert |current| == NUM_LEVELS by { ShapedLength(current); }
      f := FileAfterPointer(current[level], pointers[level]);
    } else if seekFile.Some? {
      level, f := seekFile.value.0, seekFile.value.1;
    } else {
      return null, plan;
    }
    ShapedLength(current);
    ShapedLevel(current, level);
    var seed := SeedFrom(level, current[level], f);
    c := new Compaction(level, current, seed);
    plan := c.SetupOtherInputs(expandLimit);
    assert PickedFile(current, sizeLevel, seekFile, pointers, level, f);
  }

  lemma ShapedLength(v: Version)
    requires Shaped(v)
    ensures |v| == NUM_LEVELS
  {
  }

  /** `cut` is the first files of `all` up to and with the one that brings the size to the limit. */
  ghost predicate IsSizeCut(all: seq<File>, limit: nat, cut: seq<File>) {
    && cut <= all
    && (forall n :: 0 < n < |cut| ==> TotalFileSize(all[..n]) < limit)
    && (|cut| < |all| ==> cut != [] && TotalFileSize(cut) >= limit)
  }

  /** What a manual compaction starts from: all files of the least closed range on level 0, elsewhere those that
      meet the range up to a size limit. */
  ghost predicate ManualSeed(level: nat, files: seq<File>, begin: Option<UserKey>, end: Option<UserKey>, sizeLimit: nat,
                             seed: seq<File>) {
    if level == 0 then exists lo, hi :: LeastClosed(files, begin, end, lo, hi) && seed == Selected(files, lo, hi)
    else IsSizeCut(Selected(files, begin, end), sizeLimit, seed)
  }

  /** The files of a manual compaction. */
  method CompactRange(current: Version, level: nat, begin: Option<UserKey>, end: Option<UserKey>, sizeLimit: nat,
                      expandLimit: nat)
    returns (c: Compaction?, ghost plan: Plan, ghost seed: seq<File>)
    requires Shaped(current) && level + 1 < NUM_LEVELS
    ensures c == null <==> forall f :: f in current[level] ==> !Overlaps(f, begin, end)
    ensures c != null ==>
              && fresh(c) && c.inputVersion == current && c.level == level
              && plan.level == c.level && plan.in0 == c.inputs0 && plan.in1 == c.inputs1
              && PlanClosed(current, plan) && c.Ready()
              && ManualSeed(level, current[level], begin, end, sizeLimit, seed) && Subset(seed, c.inputs0)
              && ChosenInputs(level, current[level], current[level + 1], seed, expandLimit, c.inputs0, c.inputs1)
              && (Connected(seed) ==> Connected(c.inputs0 + c.inputs1))
              && (level + 2 < NUM_LEVELS ==> AllMeeting(current[level + 2], c.inputs0 + c.inputs1, c.grandparents))
              && (level + 2 == NUM_LEVELS ==> c.grandparents == [])
  {
    hide PlanClosed, Connected, Seed, AllMeeting, Disjoint, KeepsCover, IsSlice, LeastClosed, Selected, ChosenInputs;
    plan, seed := Plan(0, [], [], SeekKey(0.0, 0), SeekKey(0.0, 0)), [];
    var files := current[level];
    ShapedLevel(current, level);
    var inputs, lo, hi := GetOverlappingInputs(level == 0, files, begin, end, []);
    LeastReaches(files, begin, end, lo, hi);
    SelectedNone(files, begin, end, lo, hi);
    if inputs == [] {
      return null, plan, seed;
    }
    SelectedIsSeed(level, files, lo, hi);
    if level > 0 {
      var n := CutBySize(inputs, sizeLimit);
      PrefixIsSeed(level, files, inputs, n);
      inputs := inputs[..n];
    }
    seed := inputs;
    c := new Compaction(level, current, inputs);
    plan := c.SetupOtherInputs(expandLimit);
  }

  lemma LeastReaches(files: seq<File>, begin: Option<UserKey>, end: Option<UserKey>, lo: Option<UserKey>,
                     hi: Option<UserKey>)
    ensures LeastClosed(files, begin, end, lo, hi) ==> Reaches(lo, hi, begin, end) && RangeClosed(files, lo, hi)
    ensures Reaches(begin, end, begin, end)
  {
  }

  /** How many files a manual compaction takes at once. */
  method CutBySize(inputs: seq<File>, sizeLimit: nat) returns (n: nat)
    requires inputs != []
    ensures 0 < n <= |inputs| && IsSizeCut(inputs, sizeLimit, inputs[..n])
  {
    var total := 0;
    assert inputs[..0] == [];
    for i := 0 to |inputs|
      invariant total == TotalFileSize(inputs[..i])
      invariant forall k :: 0 < k <= i ==> TotalFileSize(inputs[..k]) < sizeLimit
    {
      TotalFileSizeNext(inputs, 0, i);
      total := total + inputs[i].size;
      if total >= sizeLimit {
        return i + 1;
      }
    }
    assert inputs[..|inputs|] == inputs;
    return |inputs|;
  }

  lemma SelectedNone(files: seq<File>, begin: Option<UserKey>, end: Option<UserKey>, lo: Option<UserKey>,
                     hi: Option<UserKey>)
    requires Reaches(lo, hi, begin, end)
    requires (lo == begin && hi == end) || LeastClosed(files, begin, end, lo, hi)
    ensures Selected(files, lo, hi) == [] <==> forall f :: f in files ==> !Overlaps(f, begin, end)
  {
    SelectedMembers(files, lo, hi);
    if Selected(files, lo, hi) == [] {
      forall f | f in files
        ensures !Overlaps(f, begin, end)
      {
        assert f !in Selected(files, lo, hi);
      }
    } else if forall f :: f in files ==> !Overlaps(f, begin, end) {
      assert RangeClosed(files, begin, end);
      assert Reaches(begin, end, lo, hi);
      assert Selected(files, lo, hi)[0] in Selected(files, lo, hi);
    }
  }

  lemma PrefixIsSeed(level: nat, files: seq<File>, inputs: seq<File>, n: nat)
    requires level > 0 && 0 < n <= |inputs|
    requires Seed(level, files, inputs)
    ensures Seed(level, files, inputs[..n])
  {
    var a: nat, b: nat :| IsRun(files, a, b, inputs);
    assert IsRun(files, a, a + n, inputs[..n]);
  }
}
