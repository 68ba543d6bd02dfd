/** The code of the background thread takes the steps of the machine: what a step takes as given is what the code
    found. */
module EngineWork {
  import opened Keys
  import opened Files
  import opened Inputs
  import opened Plans
  import opened Compactions
  import opened Picking
  import opened Layers
  import opened Invisibility
  import opened Builders
  import opened Mergers
  import opened Results
  import Cut = Merging
  import opened Engine
  import opened EngineEdits
  import opened EngineInvariant
  import opened EngineFlush
  import opened EngineRuns

  // ------------------------------------------------------------------ the inputs of a plan share no key

  ghost predicate Unrepeated(files: seq<File>) {
    forall i, j :: 0 <= i < j < |files| ==> files[i] != files[j]
  }

  lemma {:induction false} SelectedUnrepeated(files: seq<File>, lo: Option<UserKey>, hi: Option<UserKey>)
    requires Unrepeated(files)
    ensures Unrepeated(Selected(files, lo, hi))
  {
    if files != [] {
      var n := |files| - 1;
      SelectedUnrepeated(files[..n], lo, hi);
      SelectedMembers(files[..n], lo, hi);
      assert files[n] !in files[..n];
    }
  }

  lemma OrderedUnrepeated(files: seq<File>)
    requires Ordered(files)
    ensures Unrepeated(files)
  {
    forall i, j | 0 <= i < j < |files| ensures files[i] != files[j] {
      assert BySmallest(files[i], files[j]);
    }
  }

  /** No entry of one file has the key of an entry of the other. */
  ghost predicate NoCommonKey(f: File, g: File) {
    forall x, y :: x in f.entries && y in g.entries ==> x.key != y.key
  }

  lemma NewerNoCommonKey(f: File, g: File)
    requires FileNewer(f, g)
    ensures NoCommonKey(f, g) && NoCommonKey(g, f)
  {
  }

  lemma ApartNoCommonKey(f: File, g: File)
    requires ValidFile(f) && ValidFile(g) && Less(f.largest, g.smallest)
    ensures NoCommonKey(f, g)
  {
    EntriesInRange(f);
    EntriesInRange(g);
  }

  lemma SliceNoCommonKey(files: seq<File>, some: seq<File>, i: nat, j: nat)
    requires Disjoint(files) && AllValid(files) && IsSlice(files, some) && i < j < |some|
    ensures NoCommonKey(some[i], some[j])
  {
    hide ValidFile, NoCommonKey, Less;
    var a: nat, b: nat :| Compactions.IsRun(files, a, b, some);
    assert some[i] == files[a + i] && some[j] == files[a + j];
    ApartNoCommonKey(files[a + i], files[a + j]);
  }

  lemma ZeroNoCommonKey(v: Version, some: seq<File>, i: nat, j: nat)
    requires Layered(v) && Ordered(v[0]) && Seed(0, v[0], some) && i < j < |some|
    ensures NoCommonKey(some[i], some[j])
  {
    hide FileNewer, NoCommonKey, Ordered;
    var lo, hi :| ClosedSelection(v[0], lo, hi, some);
    OrderedUnrepeated(v[0]);
    SelectedUnrepeated(v[0], lo, hi);
    SelectedMembers(v[0], lo, hi);
    var f, g := some[i], some[j];
    assert f in some && g in some && f != g;
    if f.number > g.number {
      NewerNoCommonKey(f, g);
    } else {
      NewerNoCommonKey(g, f);
    }
  }

  /** The inputs of a compaction, as the code picks them on a version in order, share no key. */
  lemma InputsShareNoKey(v: Version, level: nat, in0: seq<File>, in1: seq<File>)
    requires Layered(v) && AllOrdered(v) && level + 1 < NUM_LEVELS
    requires Seed(level, v[level], in0) && IsSlice(v[level + 1], in1) && Subset(in0, v[level])
    requires Subset(in1, v[level + 1])
    ensures KeysDistinct(in0 + in1) && AllSorted(in0 + in1)
  {
    hide FileNewer, Ordered, ValidFile, Disjoint, IsSlice, Layered;
    LayeredLevel(v, level);
    LayeredLevel(v, level + 1);
    LayeredPair(v, level, level + 1);
    var files := in0 + in1;
    forall i, j | 0 <= i < j < |files| ensures NoCommonKey(files[i], files[j]) {
      if j < |in0| {
        assert files[i] == in0[i] && files[j] == in0[j];
        if level == 0 {
          ZeroNoCommonKey(v, in0, i, j);
        } else {
          assert IsSlice(v[level], in0) by { SeedIsSlice(level, v[level], in0); }
          SliceNoCommonKey(v[level], in0, i, j);
        }
      } else if |in0| <= i {
        assert files[i] == in1[i - |in0|] && files[j] == in1[j - |in0|];
        SliceNoCommonKey(v[level + 1], in1, i - |in0|, j - |in0|);
      } else {
        assert files[i] == in0[i] && files[j] == in1[j - |in0|];
        assert in0[i] in in0 && in1[j - |in0|] in in1;
        NewerNoCommonKey(files[i], files[j]);
      }
    }
    assert forall f :: f in files ==> f in v[level] || f in v[level + 1];
    forall i | 0 <= i < |files| ensures Sorted(files[i].entries) {
      assert files[i] in files;
      assert ValidFile(files[i]);
      ValidSorted(files[i]);
    }
  }

  lemma SeedIsSlice(level: nat, files: seq<File>, some: seq<File>)
    requires level > 0 && Seed(level, files, some)
    ensures IsSlice(files, some)
  {
  }

  lemma ValidSorted(f: File)
    requires ValidFile(f)
    ensures Sorted(f.entries)
  {
  }

  // ------------------------------------------------------------------ sequences of steps

  /** The steps, taken one after the other, lead from one state to the other. */
  ghost predicate Leads(s: State, steps: seq<Step>, s': State)
    decreases |steps|
  {
    if steps == [] then s' == s
    else Enabled(s, steps[0]) && Leads(Perform(s, steps[0]), steps[1..], s')
  }

  lemma {:induction false} LeadsOn(s: State, steps: seq<Step>, s': State, step: Step)
    requires Leads(s, steps, s') && Enabled(s', step)
    ensures Leads(s, steps + [step], Perform(s', step))
    decreases |steps|
  {
    hide Enabled, Perform;
    if steps == [] {
      assert (steps + [step])[0] == step && (steps + [step])[1..] == [];
    } else {
      assert (steps + [step])[0] == steps[0] && (steps + [step])[1..] == steps[1..] + [step];
      LeadsOn(Perform(s, steps[0]), steps[1..], s', step);
    }
  }

  // ------------------------------------------------------------------ a merge

  /** A merge is under way, and `outs` are the outputs written so far. */
  ghost predicate Merging(s: State, db: Db, plan: Plan, outs: seq<File>) {
    && Inv(s) && s.Up? && BackgroundFree(s.db)
    && s.db.store == db.store && s.db.nextFile == db.nextFile + |outs|
    && s.db.run.Some? && s.db.run.value.plan == plan && s.db.run.value.base == db.store.version
       && s.db.run.value.snapshot == SmallestSnapshot(db)
    && (forall i :: 0 <= i < |outs| ==> outs[i].number == db.nextFile + i)
    && OutputsStored(s.disk.tables, s.db.run.value.numbers, outs)
  }

  /** OpenCompactionOutputFile, then the table is written. */
  lemma OutputWritten(s: State, db: Db, plan: Plan, outs: seq<File>, f: File) returns (s1: State, s2: State)
    requires Merging(s, db, plan, outs) && f.number == db.nextFile + |outs|
    ensures Enabled(s, OpenOutput) && s1 == Perform(s, OpenOutput)
    ensures Enabled(s1, WriteOutput(f.number, f.entries)) && s2 == Perform(s1, WriteOutput(f.number, f.entries))
    ensures Merging(s2, db, plan, outs + [f])
  {
    hide Inv;
    s1 := Perform(s, OpenOutput);
    s2 := Perform(s1, WriteOutput(f.number, f.entries));
    StepKeepsInv(s, OpenOutput);
    StepKeepsInv(s1, WriteOutput(f.number, f.entries));
    assert forall o :: o in outs + [f] ==> o in outs || o == f;
  }

  /** What a reachable state gives the code that picks and merges. */
  lemma ReadyToMerge(s: State)
    requires Inv(s) && s.Up?
    ensures Layered(s.db.store.version) && AllOrdered(s.db.store.version) && Shaped(s.db.store.version)
    ensures |s.db.store.version| == NUM_LEVELS && SmallestSnapshot(s.db) < MAX_SEQUENCE
    ensures forall l, f, e :: 0 <= l < |s.db.store.version| && f in s.db.store.version[l] && e in f.entries ==>
              e.key.sequence <= MAX_SEQUENCE
  {
    hide AllOrdered, Unambiguous, Faithful, OnDisk, LogsOk, RunOk, JobOk, GarbageOk, LogsMatch, Readable,
         PinnedReadable, ManifestMatches, NumbersIdentify;
    var v := s.db.store.version;
    forall l: nat, f: File, e: Entry | l < |v| && f in v[l] && e in f.entries ensures e.key.sequence <= MAX_SEQUENCE {
      assert e in VersionEntries(v);
      assert e in s.history;
    }
  }

  lemma MergedBounded(v: Version, p: Plan, input: seq<Entry>)
    requires |v| == NUM_LEVELS && p.level + 1 < NUM_LEVELS && Subset(p.in0, v[p.level]) && Subset(p.in1, v[p.level + 1])
    requires MergedFrom(input, p.in0 + p.in1)
    requires forall l, f, e :: 0 <= l < |v| && f in v[l] && e in f.entries ==> e.key.sequence <= MAX_SEQUENCE
    ensures forall e :: e in input ==> e.key.sequence <= MAX_SEQUENCE
  {
    forall e | e in input ensures e.key.sequence <= MAX_SEQUENCE {
      assert InSome(p.in0 + p.in1, e);
      var f :| f in p.in0 + p.in1 && e in f.entries;
      assert f in v[p.level] || f in v[p.level + 1];
    }
  }

  lemma PlanParts(v: Version, p: Plan)
    requires PlanClosed(v, p)
    ensures |v| == NUM_LEVELS && p.level + 1 < NUM_LEVELS && Subset(p.in0, v[p.level]) && Subset(p.in1, v[p.level + 1])
  {
  }

  /** The files two levels down that meet the inputs of a plan. */
  ghost predicate IsGrandparents(v: Version, p: Plan, grandparents: seq<File>) {
    if p.level + 2 < |v| then AllMeeting(v[p.level + 2], p.in0 + p.in1, grandparents) else grandparents == []
  }

  /** Outputs as small as they can be: no entry in them could have been dropped, none of them overlaps too many
      grandparent bytes or outgrows the size, and none ends without need. */
  ghost predicate Frugal(v: Version, p: Plan, snapshot: nat, grandparents: seq<File>, fileSize: seq<Entry> -> nat,
                         limit: nat, maxSize: nat, outs: seq<File>) {
    && Cut.Lean(v, p.level + 2, snapshot, Cut.Concat(Contents(outs)))
    && (forall f :: f in outs ==> Cut.GoodOutput(grandparents, fileSize, f.entries, limit, maxSize))
    && Cut.CutsForced(grandparents, fileSize, limit, maxSize, Contents(outs))
  }

  /** A plan that can be carried out without a merge: one file, nothing to merge it with, and what it meets two levels
      down is within the limit. */
  ghost predicate TrivialMove(v: Version, p: Plan, limit: nat) {
    && |p.in0| == 1 && p.in1 == []
    && (p.level + 2 < |v| ==>
          TotalFileSize(Selected(v[p.level + 2], Some(p.smallest.user), Some(p.largest.user))) <= limit)
  }

  lemma TrivialGrandparents(v: Version, p: Plan, grandparents: seq<File>, limit: nat)
    requires PlanClosed(v, p) && IsGrandparents(v, p, grandparents) && p.in1 == []
    ensures |p.in0| == 1 && TotalFileSize(grandparents) <= limit <==> TrivialMove(v, p, limit)
  {
    hide Hull, Selected, LevelClosed, RangeTaken, OthersAside;
    if p.level + 2 < |v| {
      assert p.in0 + p.in1 == p.in0;
      var s: InternalKey, l: InternalKey :| Hull(p.in0 + p.in1, s, l)
        && grandparents == Selected(v[p.level + 2], Some(s.user), Some(l.user));
      HullUnique(p.in0, s, l, p.smallest, p.largest);
    }
  }

  /** A file that is moved overlaps no more grandparent bytes than one that is written. */
  lemma MoveBounded(grandparents: seq<File>, output: seq<Entry>, limit: nat)
    requires TotalFileSize(grandparents) <= limit
    ensures Cut.OverlapBounded(grandparents, output, limit)
  {
    forall m: nat, n: nat | m <= n <= |grandparents| ensures TotalFileSize(grandparents[m..n]) <= limit {
      TotalFileSizeSplits(grandparents, 0, m, n);
      TotalFileSizeSplits(grandparents, 0, n, |grandparents|);
      assert grandparents[0..|grandparents|] == grandparents;
    }
  }

  /** The merging iterator and DoCompactionWork on inputs that were picked on a version in order. */
  method MergePicked(c: Compaction, ghost plan: Plan, smallestSnapshot: nat, nextFile: nat,
                     fileSize: seq<Entry> -> nat, maxSize: nat, maxGrandparentOverlap: nat)
    returns (input: seq<Entry>, outs: seq<File>)
    requires c.Ready() && plan.level == c.level && plan.in0 == c.inputs0 && plan.in1 == c.inputs1
    requires PlanClosed(c.inputVersion, plan)
    requires Layered(c.inputVersion) && AllOrdered(c.inputVersion) && smallestSnapshot < MAX_SEQUENCE
    requires forall l, f, e :: 0 <= l < |c.inputVersion| && f in c.inputVersion[l] && e in f.entries ==>
               e.key.sequence <= MAX_SEQUENCE
    modifies c
    ensures MergeResult(c.inputVersion, plan, smallestSnapshot, input, outs)
    ensures forall i :: 0 <= i < |outs| ==>
              outs[i].number == nextFile + i && outs[i].size == fileSize(outs[i].entries)
    ensures Frugal(c.inputVersion, plan, smallestSnapshot, old(c.grandparents), fileSize, maxGrandparentOverlap,
                   maxSize, outs)
  {
    hide PlanClosed, Seed, IsSlice, Disjoint, Layered, AllOrdered, Shaped, MergeResult, KeysDistinct, AllSorted,
         MergedFrom, Cut.Lean, Cut.Concat, Contents, Cut.GoodOutput, Cut.CutsForced;
    PlanParts(c.inputVersion, plan);
    InputsShareNoKey(c.inputVersion, plan.level, plan.in0, plan.in1);
    input := Merge(c.inputs0 + c.inputs1);
    MergedBounded(c.inputVersion, plan, input);
    outs := Compact(c, plan, input, smallestSnapshot, i => nextFile + i, fileSize, maxSize, maxGrandparentOverlap);
  }

  lemma NeedsNoNext(v: Version, p: Plan, limit: nat)
    ensures TrivialMove(v, p, limit) ==> p.in1 == [] && |p.in0| == 1
  {
  }

  /** PickCompaction, the merging iterator and DoCompactionWork, one after the other, on any version in order. */
  method PickAndMerge(current: Version, smallestSnapshot: nat, nextFile: nat,
                      sizeLevel: Option<nat>, seekFile: Option<(nat, File)>, pointers: seq<Option<InternalKey>>,
                      expandLimit: nat, fileSize: seq<Entry> -> nat, maxSize: nat, maxGrandparentOverlap: nat)
    returns (moved: bool, input: seq<Entry>, outs: seq<File>, ghost plan: Plan, ghost grandparents: seq<File>)
    requires Layered(current) && AllOrdered(current) && Shaped(current) && smallestSnapshot < MAX_SEQUENCE
    requires forall l, f, e :: 0 <= l < |current| && f in current[l] && e in f.entries ==>
               e.key.sequence <= MAX_SEQUENCE
    requires |pointers| == NUM_LEVELS && (sizeLevel.Some? || seekFile.Some?)
    requires sizeLevel.Some? ==> sizeLevel.value + 1 < NUM_LEVELS && current[sizeLevel.value] != []
    requires seekFile.Some? ==> seekFile.value.0 + 1 < NUM_LEVELS && seekFile.value.1 in current[seekFile.value.0]
    ensures PlanClosed(current, plan) && Connected(plan.in0 + plan.in1)
    ensures PickedPlan(current, sizeLevel, seekFile, pointers, expandLimit, plan)
    ensures moved <==> TrivialMove(current, plan, maxGrandparentOverlap)
    ensures if moved then |plan.in0| == 1 && plan.in1 == [] && outs == plan.in0
            else MergeResult(current, plan, smallestSnapshot, input, outs)
                 && forall i :: 0 <= i < |outs| ==>
                      outs[i].number == nextFile + i && outs[i].size == fileSize(outs[i].entries)
    ensures IsGrandparents(current, plan, grandparents)
    ensures !moved ==>
              Frugal(current, plan, smallestSnapshot, grandparents, fileSize, maxGrandparentOverlap, maxSize, outs)
    ensures forall f :: f in outs ==> Cut.OverlapBounded(grandparents, f.entries, maxGrandparentOverlap)
  {
    hide PlanClosed, Connected, Layered, AllOrdered, Shaped, MergeResult, AllMeeting, IsNextFile, PickedPlan,
         TotalFileSize, TrivialMove, Cut.Lean, Cut.Concat, Contents, Cut.CutsForced, Cut.OverlapBounded,
         Cut.SizeBounded;
    var c;
    c, plan := PickCompaction(current, sizeLevel, seekFile, pointers, expandLimit);
    grandparents := c.grandparents;
    ShapedLength(current);
    assert IsGrandparents(current, plan, grandparents);
    hide IsGrandparents, Compaction.Ready;
    input, outs := [], [];
    moved := c.IsTrivialMove(maxGrandparentOverlap);
    if plan.in1 == [] {
      TrivialGrandparents(current, plan, grandparents, maxGrandparentOverlap);
    }
    NeedsNoNext(current, plan, maxGrandparentOverlap);
    if moved {
      outs := c.inputs0;
      MoveBounded(grandparents, outs[0].entries, maxGrandparentOverlap);
      return;
    }
    input, outs := MergePicked(c, plan, smallestSnapshot, nextFile, fileSize, maxSize, maxGrandparentOverlap);
  }

  /** BackgroundCompaction: pick, and either move one file down or merge and write the outputs.  From any state the
      invariant allows, each step of it is one the machine may take, up to the installation of the result. */
  method BackgroundCompaction(ghost s: State, current: Version, smallestSnapshot: nat, nextFile: nat,
                              sizeLevel: Option<nat>, seekFile: Option<(nat, File)>, pointers: seq<Option<InternalKey>>,
                              expandLimit: nat, fileSize: seq<Entry> -> nat, maxSize: nat,
                              maxGrandparentOverlap: nat)
    returns (moved: bool, input: seq<Entry>, outs: seq<File>, ghost plan: Plan, ghost grandparents: seq<File>,
             ghost steps: seq<Step>, ghost s': State)
    requires Inv(s) && s.Up? && BackgroundFree(s.db) && s.db.run.None? && s.db.imm.None?
    requires current == s.db.store.version && smallestSnapshot == SmallestSnapshot(s.db) && nextFile == s.db.nextFile
    requires |pointers| == NUM_LEVELS && (sizeLevel.Some? || seekFile.Some?)
    requires sizeLevel.Some? ==>
               sizeLevel.value + 1 < NUM_LEVELS && sizeLevel.value < |current| && current[sizeLevel.value] != []
    requires seekFile.Some? ==>
               seekFile.value.0 + 1 < NUM_LEVELS && seekFile.value.0 < |current|
               && seekFile.value.1 in current[seekFile.value.0]
    ensures Leads(s, steps, s') && Inv(s') && s'.Up? && Connected(plan.in0 + plan.in1)
    ensures PickedPlan(current, sizeLevel, seekFile, pointers, expandLimit, plan)
    ensures moved <==> TrivialMove(current, plan, maxGrandparentOverlap)
    ensures IsGrandparents(current, plan, grandparents)
    ensures !moved ==>
              Frugal(current, plan, smallestSnapshot, grandparents, fileSize, maxGrandparentOverlap, maxSize, outs)
    ensures forall f :: f in outs ==> Cut.OverlapBounded(grandparents, f.entries, maxGrandparentOverlap)
    ensures moved ==> s' == s && Enabled(s', ApplyMove(plan)) && outs == plan.in0
    ensures !moved ==> s'.db.run.Some? && s'.db.run.value.plan == plan && Enabled(s', ApplyMerge(input, outs))
  {
    ReadyToMerge(s);
    assert |current| == NUM_LEVELS;
    hide Inv, PlanClosed, Connected, Layered, AllOrdered, Shaped, MergeResult, Leads, Perform, Enabled,
         SmallestSnapshot, BackgroundFree, PickedPlan, TrivialMove, IsGrandparents, Frugal, Cut.OverlapBounded;
    moved, input, outs, plan, grandparents :=
      PickAndMerge(current, smallestSnapshot, nextFile, sizeLevel, seekFile, pointers, expandLimit, fileSize, maxSize,
                   maxGrandparentOverlap);
    steps, s' := CompactionSteps(s, moved, plan, input, outs);
  }

  /** The same for a manual compaction: CompactRange picks, and its files are always merged. */
  method ManualCompaction(ghost s: State, current: Version, smallestSnapshot: nat, nextFile: nat,
                          level: nat, begin: Option<UserKey>, end: Option<UserKey>, sizeLimit: nat, expandLimit: nat,
                          fileSize: seq<Entry> -> nat, maxSize: nat, maxGrandparentOverlap: nat)
    returns (done: bool, input: seq<Entry>, outs: seq<File>, ghost plan: Plan, ghost seed: seq<File>,
             ghost grandparents: seq<File>, ghost steps: seq<Step>, ghost s': State)
    requires Inv(s) && s.Up? && BackgroundFree(s.db) && s.db.run.None? && s.db.imm.None?
    requires current == s.db.store.version && smallestSnapshot == SmallestSnapshot(s.db) && nextFile == s.db.nextFile
    requires level + 1 < NUM_LEVELS
    ensures level < |current| && (done <==> forall f :: f in current[level] ==> !Overlaps(f, begin, end))
    ensures Leads(s, steps, s') && Inv(s') && s'.Up?
    ensures !done ==>
              s'.db.run.Some? && s'.db.run.value.plan == plan && plan.level == level
              && Enabled(s', ApplyMerge(input, outs))
    ensures !done ==> ManualSeed(level, current[level], begin, end, sizeLimit, seed)
    ensures !done ==>
              level + 1 < |current|
              && ChosenInputs(level, current[level], current[level + 1], seed, expandLimit, plan.in0, plan.in1)
    ensures !done ==>
              IsGrandparents(current, plan, grandparents)
              && Frugal(current, plan, smallestSnapshot, grandparents, fileSize, maxGrandparentOverlap, maxSize, outs)
  {
    hide Inv, PlanClosed, Connected, Layered, AllOrdered, Shaped, MergeResult, Leads, Perform, Enabled,
         SmallestSnapshot, BackgroundFree, AllMeeting, ManualSeed, Compaction.Ready, Overlaps, ChosenInputs, Frugal;
    ReadyToMerge(s);
    var c;
    grandparents := [];
    c, plan, seed := CompactRange(current, level, begin, end, sizeLimit, expandLimit);
    done, input, outs := c == null, [], [];
    steps, s' := [], s;
    assert Leads(s, [], s) by { LeadsNowhere(s); }
    if c != null {
      grandparents := c.grandparents;
      assert IsGrandparents(current, plan, grandparents);
      hide IsGrandparents;
      input, outs := MergePicked(c, plan, smallestSnapshot, nextFile, fileSize, maxSize, maxGrandparentOverlap);
      steps, s' := CompactionSteps(s, false, plan, input, outs);
    }
  }

  lemma CompactionSteps(s: State, moved: bool, plan: Plan, input: seq<Entry>, outs: seq<File>)
    returns (steps: seq<Step>, s': State)
    requires Inv(s) && s.Up? && BackgroundFree(s.db) && s.db.run.None? && s.db.imm.None?
    requires PlanClosed(s.db.store.version, plan)
    requires if moved then |plan.in0| == 1 && plan.in1 == [] && outs == plan.in0
             else MergeResult(s.db.store.version, plan, SmallestSnapshot(s.db), input, outs)
                  && forall i :: 0 <= i < |outs| ==> outs[i].number == s.db.nextFile + i
    ensures Leads(s, steps, s') && Inv(s') && s'.Up?
    ensures moved ==> s' == s && Enabled(s', ApplyMove(plan))
    ensures !moved ==> s'.db.run.Some? && s'.db.run.value.plan == plan && Enabled(s', ApplyMerge(input, outs))
  {
    hide Inv, PlanClosed, MergeResult, Leads, Perform, Enabled, SmallestSnapshot, BackgroundFree;
    PlanParts(s.db.store.version, plan);
    if moved {
      steps, s' := [], s;
      MoveEnabled(s, plan);
    } else {
      steps, s' := MergeSteps(s, plan, input, outs);
    }
  }

  lemma MoveEnabled(s: State, plan: Plan)
    requires s.Up? && CanPick(s.db, plan) && |plan.in0| == 1 && plan.in1 == []
    ensures Enabled(s, ApplyMove(plan)) && Leads(s, [], s)
  {
  }

  /** The steps of a merge whose outputs are `outs`. */
  lemma MergeSteps(s: State, plan: Plan, input: seq<Entry>, outs: seq<File>) returns (steps: seq<Step>, s': State)
    requires Inv(s) && s.Up? && CanPick(s.db, plan) && |s.db.store.version| == NUM_LEVELS
    requires MergeResult(s.db.store.version, plan, SmallestSnapshot(s.db), input, outs)
    requires forall i :: 0 <= i < |outs| ==> outs[i].number == s.db.nextFile + i
    ensures Leads(s, steps, s') && Inv(s') && s'.Up? && s'.db.run.Some? && s'.db.run.value.plan == plan
    ensures Enabled(s', ApplyMerge(input, outs))
  {
    hide Inv, MergeResult, Merging, Leads, Perform, CanPick, SmallestSnapshot;
    assert Enabled(s, PickMerge(plan));
    hide Enabled;
    s', steps := Perform(s, PickMerge(plan)), [PickMerge(plan)];
    MergeStarts(s, plan);
    assert outs[..0] == [];
    for i := 0 to |outs|
      invariant Leads(s, steps, s') && Merging(s', s.db, plan, outs[..i])
    {
      var s1, s2 := OutputWritten(s', s.db, plan, outs[..i], outs[i]);
      LeadsOn(s, steps, s', OpenOutput);
      LeadsOn(s, steps + [OpenOutput], s1, WriteOutput(outs[i].number, outs[i].entries));
      steps, s' := steps + [OpenOutput] + [WriteOutput(outs[i].number, outs[i].entries)], s2;
      assert outs[..i + 1] == outs[..i] + [outs[i]];
    }
    assert outs[..|outs|] == outs;
    MergeEnds(s', s.db, plan, input, outs);
  }

  lemma MergeStarts(s: State, plan: Plan)
    requires Inv(s) && Enabled(s, PickMerge(plan))
    ensures Leads(s, [PickMerge(plan)], Perform(s, PickMerge(plan)))
    ensures Merging(Perform(s, PickMerge(plan)), s.db, plan, [])
  {
    hide Inv, PlanClosed, FlushedStore, FlushedEdit, Extended, MergedStore, MovedStore, MergeEdit, LiveNumbers,
         CanRecover, Reopened, Appended, BatchEntries, SmallestSnapshot;
    StepKeepsInv(s, PickMerge(plan));
    assert [PickMerge(plan)][1..] == [];
  }

  lemma MergeEnds(s: State, db: Db, plan: Plan, input: seq<Entry>, outs: seq<File>)
    requires Merging(s, db, plan, outs) && MergeResult(db.store.version, plan, SmallestSnapshot(db), input, outs)
    requires |db.store.version| == NUM_LEVELS
    ensures Inv(s) && s.Up? && s.db.run.Some? && s.db.run.value.plan == plan && Enabled(s, ApplyMerge(input, outs))
  {
    hide Inv, MergeResult;
  }

  // ------------------------------------------------------------------ a flush

  /** The file, if it goes to the level of the results of a merge under way, is on one side of all its inputs. */
  ghost predicate BesideMerge(run: Option<Run>, file: Option<File>, level: nat) {
    run.Some? && file.Some? && level == run.value.plan.level + 1 ==>
      Aside(file.value, run.value.plan.in0 + run.value.plan.in1)
  }

  /** A merge is under way, and its inputs leave no gap. */
  ghost predicate NoGap(run: Option<Run>) {
    run.Some? && Connected(run.value.plan.in0 + run.value.plan.in1)
  }

  /** WriteLevel0Table: the old memtable becomes a table on the level that PickLevelForMemTableOutput gives. The
      machine may then apply the flush exactly when the table is beside a merge under way; always, if the inputs of
      that leave no gap. */
  method CompactMemTable(ghost s: State, current: Version, number: nat, es: seq<Entry>, size: nat, overlapLimit: nat)
    returns (level: nat, ghost s': State)
    requires Inv(s) && s.Up? && BackgroundFree(s.db) && s.db.imm.Some? && current == s.db.store.version
    requires number == s.db.nextFile
    requires Sorted(es) && ToSet(es) == s.db.imm.value
    ensures Leads(s, [BeginFlush, WriteFlush(es, size)], s') && Inv(s') && s'.Up?
    ensures s'.db.job == Built(number, TableOf(number, size, es))
    ensures Enabled(s', ApplyFlush(level)) <==> BesideMerge(s.db.run, TableOf(number, size, es), level)
    ensures s.db.run.None? || NoGap(s.db.run) ==> Enabled(s', ApplyFlush(level))
  {
    ReadyToMerge(s);
    hide Inv, Layered, AllOrdered, Shaped, ClearTo, Connected, TooManyGrandparents, OverlapInLevel, Enabled, Perform,
         CanApplyFlush, TableOf, Sorted, BesideMerge, NoGap, Leads, BackgroundFree;
    s' := FlushWritten(s, es, size);
    level := 0;
    if es != [] {
      level := PickLevelForMemTableOutput(current, es[0].key.user, es[|es| - 1].key.user, overlapLimit);
      TableRange(number, size, es);
    } else {
      NoTable(number, size);
    }
    FlushBeside(s', level);
  }

  lemma TableRange(number: nat, size: nat, es: seq<Entry>)
    requires es != []
    ensures var f := TableOf(number, size, es);
            f.Some? && f.value.smallest.user == es[0].key.user && f.value.largest.user == es[|es| - 1].key.user
  {
  }

  lemma NoTable(number: nat, size: nat)
    ensures TableOf(number, size, []).None?
  {
  }

  lemma FlushWritten(s: State, es: seq<Entry>, size: nat) returns (s': State)
    requires Inv(s) && s.Up? && BackgroundFree(s.db) && s.db.imm.Some? && Sorted(es) && ToSet(es) == s.db.imm.value
    ensures Leads(s, [BeginFlush, WriteFlush(es, size)], s')
    ensures Inv(s') && s'.Up? && s'.db.job == Built(s.db.nextFile, TableOf(s.db.nextFile, size, es))
    ensures s'.db.store == s.db.store && s'.db.run == s.db.run && s'.db.imm == s.db.imm
  {
    hide Inv, Sorted, TableOf, Leads;
    var s1 := Perform(s, BeginFlush);
    StepKeepsInv(s, BeginFlush);
    s' := Perform(s1, WriteFlush(es, size));
    StepKeepsInv(s1, WriteFlush(es, size));
    assert Leads(s, [], s) by { LeadsNowhere(s); }
    LeadsOn(s, [], s, BeginFlush);
    LeadsOn(s, [] + [BeginFlush], s1, WriteFlush(es, size));
    assert ([] + [BeginFlush]) + [WriteFlush(es, size)] == [BeginFlush, WriteFlush(es, size)];
  }

  lemma LeadsNowhere(s: State)
    ensures Leads(s, [], s)
  {
  }

  lemma FlushBeside(s: State, level: nat)
    requires Inv(s) && s.Up? && s.db.job.Built? && s.db.imm.Some? && level <= MAX_MEM_COMPACT_LEVEL
    requires |s.db.store.version| == NUM_LEVELS
    requires level > 0 && s.db.job.file.Some? ==>
               ClearTo(s.db.store.version, level, s.db.job.file.value.smallest.user, s.db.job.file.value.largest.user)
    ensures Enabled(s, ApplyFlush(level)) <==> BesideMerge(s.db.run, s.db.job.file, level)
    ensures s.db.run.None? || NoGap(s.db.run) ==> BesideMerge(s.db.run, s.db.job.file, level)
  {
    hide AllOrdered, Unambiguous, Faithful, OnDisk, LogsOk, GarbageOk, LogsMatch, Readable, PinnedReadable,
         ManifestMatches, NumbersIdentify, ClearTo, Connected, Layered, ValidFile, Aside, DiskOk, ContentOk,
         SnapshotsOk;
    if s.db.run.Some? && s.db.job.file.Some? && level == s.db.run.value.plan.level + 1 && NoGap(s.db.run) {
      var f, p := s.db.job.file.value, s.db.run.value.plan;
      ClearLands(s.db.store.version, level, f);
      ConnectedFlushAside(s.db.store.version, p, level, f);
    }
  }
}
