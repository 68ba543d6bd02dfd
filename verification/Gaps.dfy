/** What a merge of inputs with a gap between them meets: a flush into the gap (db/version_set.cc, CompactRange). */
module Gaps {
  import opened Keys
  import opened Files
  import opened Inputs
  import opened Plans
  import opened Compactions
  import opened Picking
  import opened Merging
  import opened Layers
  import opened Invisibility
  import opened Lookup

  /** Every file that is apart from each of the inputs is on one side of them all. */
  ghost predicate NoRoomBetween(inputs: seq<File>) {
    forall g: File :: AtMost(g.smallest, g.largest) && (forall f :: f in inputs ==> UserApart(f, g)) ==>
      Aside(g, inputs)
  }

  function PointFile(number: nat, e: Entry): File {
    File(number, 1, e.key, e.key, [e])
  }

  lemma PointBetween(inputs: seq<File>, a: File, b: File, u: UserKey)
    requires ProperRanges(inputs) && a in inputs && b in inputs && a.smallest.user <= u <= b.largest.user
    requires NoRoomBetween(inputs)
    ensures CoversKey(inputs, u)
  {
    var g := PointFile(0, Entry(InternalKey(u, 0, Value), []));
    var apart := forall f :: f in inputs ==> UserApart(f, g);
    assert apart ==> Aside(g, inputs);
    assert apart ==> UserApart(a, g) && UserApart(b, g);
    var f :| f in inputs && !UserApart(f, g);
  }

  /** Flushes that land beside the inputs are beside them all exactly when the inputs leave no gap. */
  lemma ConnectedIffNoRoom(inputs: seq<File>)
    requires ProperRanges(inputs)
    ensures Connected(inputs) <==> NoRoomBetween(inputs)
  {
    if Connected(inputs) {
      forall g: File | AtMost(g.smallest, g.largest) && (forall f :: f in inputs ==> UserApart(f, g))
        ensures Aside(g, inputs)
      {
        ConnectedAside(inputs, g);
      }
    }
    if NoRoomBetween(inputs) {
      forall a, b, u | a in inputs && b in inputs && a.smallest.user <= u <= b.largest.user
        ensures CoversKey(inputs, u)
      {
        PointBetween(inputs, a, b, u);
      }
    }
  }

  // ------------------------------------------------------------------ a flush between the inputs of any merge

  /** With no snapshot to serve, and sequence numbers from 1 on, a merge drops nothing. */
  lemma {:induction false} NothingDropped(v: Version, from: nat, input: seq<Entry>, n: nat)
    requires n <= |input| && forall e :: e in input ==> e.key.sequence > 0
    ensures Survivors(v, from, 0, input, n) == input[..n]
  {
    if n > 0 {
      NothingDropped(v, from, input, n - 1);
      assert !Dropped(v, from, 0, input, n - 1);
      assert input[..n] == input[..n - 1] + [input[n - 1]];
    }
  }

  /** A file apart from each input but not aside of them all has an input before it and one after it. */
  lemma BetweenInputs(inputs: seq<File>, nf: File) returns (f: File, g: File)
    requires !Aside(nf, inputs) && (forall h :: h in inputs ==> UserApart(h, nf)) && AtMost(nf.smallest, nf.largest)
    ensures f in inputs && f.largest.user < nf.smallest.user
    ensures g in inputs && nf.largest.user < g.smallest.user
  {
    f :| f in inputs && !Less(nf.largest, f.smallest);
    g :| g in inputs && !(g.largest.user < nf.smallest.user);
  }

  function OneOutput(number: nat, input: seq<Entry>): File
    requires input != []
  {
    File(number, 1, input[0].key, input[|input| - 1].key, input)
  }

  lemma OneOutputIsResult(base: Version, p: Plan, input: seq<Entry>, number: nat)
    requires MergedFrom(input, p.in0 + p.in1) && input != []
    requires forall e :: e in input ==> 0 < e.key.sequence <= MAX_SEQUENCE
    ensures MergeResult(base, p, 0, input, [OneOutput(number, input)])
  {
    hide Survivors;
    NothingDropped(base, p.level + 2, input, |input|);
    assert input[..|input|] == input;
    var o := OneOutput(number, input);
    assert o in [o];
  }

  lemma SpansInputs(input: seq<Entry>, inputs: seq<File>, f: File)
    requires MergedFrom(input, inputs) && f in inputs && ValidFile(f)
    ensures input != [] && input[0].key.user <= f.smallest.user && f.largest.user <= input[|input| - 1].key.user
  {
    assert InSome(inputs, f.entries[0]) && InSome(inputs, f.entries[|f.entries| - 1]);
    var i :| 0 <= i < |input| && input[i] == f.entries[0];
    var j :| 0 <= j < |input| && input[j] == f.entries[|f.entries| - 1];
    assert i > 0 ==> Less(input[0].key, input[i].key);
    assert j < |input| - 1 ==> Less(input[j].key, input[|input| - 1].key);
  }

  /** A flush to the level of the results that is not aside of all the inputs: the merge has a right result, in one
      file, with which the level does not stay disjoint. */
  lemma NotAsideBreaksLevel(cur: Version, base: Version, p: Plan, nf: File, cur': Version, input: seq<Entry>,
                            number: nat)
    returns (o: File)
    requires Layered(cur) && Installable(cur, base, p) && ValidFile(nf) && NewestFile(cur, nf)
    requires FileAdded(cur, p.level + 1, nf, cur') && LandsClear(cur, p.level + 1, nf) && !Aside(nf, p.in0 + p.in1)
    requires MergedFrom(input, p.in0 + p.in1) && forall e :: e in input ==> 0 < e.key.sequence <= MAX_SEQUENCE
    ensures MergeResult(base, p, 0, input, [o]) && o.number == number
    ensures forall cur'' :: Installed(cur', p, [o], cur'') ==> !Disjoint(cur''[p.level + 1])
  {
    hide Layered, MergeResult, MergedFrom, Aside, NothingNewBelow, OthersAside, RestNewer, Ordered, NewestFile,
         LandsClear;
    var inputs := p.in0 + p.in1;
    InputsProper(cur, p);
    InputsApart(cur, p, p.level + 1, nf);
    EntriesInRange(nf);
    var f, g := BetweenInputs(inputs, nf);
    SpansInputs(input, inputs, f);
    SpansInputs(input, inputs, g);
    OneOutputIsResult(base, p, input, number);
    o := OneOutput(number, input);
    NewestIsNew(cur, p, nf);
    forall cur'' | Installed(cur', p, [o], cur'') ensures !Disjoint(cur''[p.level + 1]) {
      assert nf in cur''[p.level + 1] && o in [o] && o in cur''[p.level + 1];
      NestedNotDisjoint(cur''[p.level + 1], nf, o);
    }
  }

  lemma NestedNotDisjoint(files: seq<File>, f: File, g: File)
    requires f in files && g in files && AtMost(f.smallest, f.largest)
    requires g.smallest.user < f.smallest.user && f.largest.user < g.largest.user
    ensures !Disjoint(files)
  {
    var i :| 0 <= i < |files| && files[i] == f;
    var j :| 0 <= j < |files| && files[j] == g;
    assert !Less(files[i].largest, files[j].smallest) && !Less(files[j].largest, files[i].smallest);
  }

  // ------------------------------------------------------------------ a flush into a gap

  function Key(u: UserKey, n: nat): InternalKey {
    InternalKey(u, n, Value)
  }

  function At(u: UserKey, n: nat): Entry {
    Entry(Key(u, n), [])
  }

  function Low(): File {
    PointFile(10, At(1.0, 1))
  }

  function High(): File {
    PointFile(11, At(3.0, 2))
  }

  function Flushed(): File {
    PointFile(12, At(2.0, 3))
  }

  function Merged(): File {
    File(13, 2, Key(1.0, 1), Key(3.0, 2), [At(1.0, 1), At(3.0, 2)])
  }

  function Before(): Version {
    [[], [Low(), High()], [], [], [], [], []]
  }

  function Between(): Version {
    [[], [Low(), High()], [Flushed()], [], [], [], []]
  }

  function Afterwards(): Version {
    [[], [], [Merged(), Flushed()], [], [], [], []]
  }

  function GapPlan(): Plan {
    Plan(1, [Low(), High()], [], Key(1.0, 1), Key(3.0, 2))
  }

  lemma PointValid(number: nat, u: UserKey, n: nat)
    requires n <= MAX_SEQUENCE
    ensures ValidFile(PointFile(number, At(u, n))) && AllValid([PointFile(number, At(u, n))])
  {
  }

  lemma BeforeLayered()
    ensures Layered(Before())
  {
    hide FileNewer, ValidFile;
    var v := Before();
    PointValid(10, 1.0, 1);
    PointValid(11, 3.0, 2);
    assert forall l :: 0 <= l < NUM_LEVELS && l != 1 ==> v[l] == [];
    assert Disjoint(v[1]);
  }

  lemma GapChosen()
    ensures PlanClosed(Before(), GapPlan()) && !Connected(GapPlan().in0 + GapPlan().in1)
  {
    var p := GapPlan();
    var inputs := p.in0 + p.in1;
    assert Low() in p.in0 && High() in p.in0;
    assert Low() in inputs && High() in inputs;
    assert !CoversKey(inputs, 2.0);
  }

  lemma GapFlush()
    ensures FileAdded(Before(), 2, Flushed(), Between()) && NewestFile(Before(), Flushed())
    ensures LandsClear(Before(), 2, Flushed())
  {
    var v, w := Before(), Between();
    assert forall l :: 0 <= l < NUM_LEVELS && l != 2 ==> w[l] == v[l];
    forall l, f | 0 <= l < |v| && f in v[l] ensures l == 1 && (f == Low() || f == High()) {
    }
  }

  lemma GapMerge()
    ensures MergeResult(Before(), GapPlan(), 0, [At(1.0, 1), At(3.0, 2)], [Merged()])
    ensures Installed(Between(), GapPlan(), [Merged()], Afterwards())
  {
    var input := [At(1.0, 1), At(3.0, 2)];
    var inputs := GapPlan().in0 + GapPlan().in1;
    assert Low() in inputs && High() in inputs;
    assert forall f :: f in inputs ==> f == Low() || f == High();
    assert MergedFrom(input, inputs) by {
      assert At(1.0, 1) in Low().entries && At(3.0, 2) in High().entries;
    }
    KeepsBoth();
    assert Merged().entries == input;
    assert Merged() in [Merged()];
    GapInstalled();
  }

  lemma KeepsBoth()
    ensures Survivors(Before(), 3, 0, [At(1.0, 1), At(3.0, 2)], 2) == [At(1.0, 1), At(3.0, 2)]
  {
    var input := [At(1.0, 1), At(3.0, 2)];
    assert !Dropped(Before(), 3, 0, input, 0) && !Dropped(Before(), 3, 0, input, 1);
    assert Survivors(Before(), 3, 0, input, 1) == [At(1.0, 1)];
  }

  lemma GapInstalled()
    ensures Installed(Between(), GapPlan(), [Merged()], Afterwards())
  {
    var v, w := Between(), Afterwards();
    assert forall l :: 0 <= l < NUM_LEVELS && l != 1 && l != 2 ==> w[l] == v[l];
    assert BySmallest(Merged(), Flushed());
  }

  /** A manual compaction whose inputs leave a gap, and a flush into the gap while it runs: the plan is closed, the
      flush lands clear of every file, the merge is right, and the next level is no longer disjoint. */
  lemma FlushIntoGapBreaksLevel()
    ensures Layered(Before()) && PlanClosed(Before(), GapPlan())
    ensures FileAdded(Before(), 2, Flushed(), Between()) && LandsClear(Before(), 2, Flushed())
    ensures MergeResult(Before(), GapPlan(), 0, [At(1.0, 1), At(3.0, 2)], [Merged()])
    ensures Installed(Between(), GapPlan(), [Merged()], Afterwards())
    ensures !Layered(Afterwards())
  {
    hide MergeResult, Installed, PlanClosed, FileAdded, LandsClear;
    BeforeLayered();
    GapChosen();
    GapFlush();
    GapMerge();
    assert !Disjoint(Afterwards()[2]) by {
      assert !Less(Afterwards()[2][0].largest, Afterwards()[2][1].smallest);
    }
  }

  // ------------------------------------------------------------------ what a reader sees

  lemma AfterwardsSearchable()
    ensures Searchable(Afterwards())
  {
    PointValid(12, 2.0, 3);
    assert ValidFile(Merged());
    var v := Afterwards();
    forall l, f | 0 <= l < NUM_LEVELS && f in v[l] ensures f == Merged() || f == Flushed() {
    }
  }

  /** The binary search of the level comes to the result of the merge, in which the key is not. */
  lemma NotFoundAfterwards(at: nat, e: Entry, l: nat)
    requires 3 <= at <= MAX_SEQUENCE
    ensures !FoundAt(Afterwards(), 2.0, at, e, l)
  {
    var files := Afterwards()[2];
    assert forall i: nat :: i < |files| && Turns(files, SeekKey(2.0, at), i) ==> i == 0;
    assert forall e :: e in Merged().entries ==> e.key.user != 2.0;
  }

  /** So a lookup does not find what was flushed into the gap, though it is in the version and nothing hides it. */
  method FlushedIsNotFound(at: nat) returns (r: Option<Entry>)
    requires 3 <= at <= MAX_SEQUENCE
    ensures r == None && IsNewest(VersionEntries(Afterwards()), 2.0, at, At(2.0, 3))
  {
    AfterwardsSearchable();
    NewestAfterwards(at);
    hide Searchable, Afterwards, FoundAt, IsNewest, VersionEntries, Layered;
    r := SearchVersion(Afterwards(), 2.0, at);
    if r.Some? {
      ghost var l: nat :| FoundAt(Afterwards(), 2.0, at, r.value, l);
      NotFoundAfterwards(at, r.value, l);
    }
  }

  lemma NewestAfterwards(at: nat)
    requires 3 <= at
    ensures IsNewest(VersionEntries(Afterwards()), 2.0, at, At(2.0, 3))
  {
    var v := Afterwards();
    assert Flushed() in v[2] && At(2.0, 3) in Flushed().entries;
    forall l, f | 0 <= l < |v| && f in v[l] ensures f == Merged() || f == Flushed() {
    }
  }

  // ------------------------------------------------------------------ the code chooses these inputs and this level

  lemma BothSelected()
    ensures Selected(Before()[1], None, None) == [Low(), High()]
  {
    var files := Before()[1];
    assert files[..2] == files && files[..1] == [Low()] && files[..0] == [];
    assert Selected([Low()], None, None) == [] + [Low()] by {
      assert [Low()][..0] == [];
    }
  }

  lemma BothTaken(seed: seq<File>)
    requires IsSizeCut([Low(), High()], 0x200000, seed)
    ensures seed == [Low(), High()]
  {
    var all := [Low(), High()];
    assert TotalFileSize(all[..1]) == 1 by {
      assert all[..1] == [Low()] && [Low()][..0] == [];
    }
    assert TotalFileSize(all[..0]) == 0;
    assert seed == all[..|seed|];
  }

  lemma PlanHull(p: Plan)
    requires PlanClosed(Before(), p)
    ensures Hull(p.in0, p.smallest, p.largest)
  {
    hide Before;
  }

  lemma RunOfBoth(p: Plan, a: nat, b: nat, c: nat, d: nat)
    requires Hull(p.in0, p.smallest, p.largest) && p.level == 1 && Low() in p.in0 && High() in p.in0
    requires IsRun(Before()[1], a, b, p.in0) && IsRun(Before()[2], c, d, p.in1)
    ensures p == GapPlan()
  {
    var files := Before()[1];
    var i :| 0 <= i < |p.in0| && p.in0[i] == Low();
    var j :| 0 <= j < |p.in0| && p.in0[j] == High();
    assert p.in0[i] == files[a + i] && p.in0[j] == files[a + j];
    assert p.in0 == files;
    assert p.in1 == [];
    assert p.smallest == Low().smallest && p.largest == High().largest by {
      assert forall f :: f in p.in0 ==> f == Low() || f == High();
    }
  }

  lemma BeforeFacts()
    ensures Shaped(Before()) && |Before()| == NUM_LEVELS && Low() in Before()[1] && Overlaps(Low(), None, None)
  {
    BeforeLayered();
  }

  /** On the version of the example CompactRange over everything picks the plan with the gap, whatever the limit for
      expansion. */
  method ManualCompactionLeavesGap(expandLimit: nat) returns (inputs0: seq<File>, inputs1: seq<File>, ghost plan: Plan)
    ensures plan == GapPlan() && inputs0 == plan.in0 && inputs1 == plan.in1
  {
    BeforeFacts();
    BothSelected();
    hide Before, Shaped, PlanClosed, Low, High, GapPlan, Overlaps, Selected, AllMeeting, Connected, Disjoint, IsSizeCut;
    var c, p, seed := CompactRange(Before(), 1, None, None, 0x200000, expandLimit);
    BothTaken(seed);
    assert Low() in seed && High() in seed;
    plan := p;
    ghost var a: nat, b: nat :| IsRun(Before()[1], a, b, plan.in0);
    ghost var x: nat, y: nat :| IsRun(Before()[2], x, y, plan.in1);
    PlanHull(plan);
    RunOfBoth(plan, a, b, x, y);
    inputs0, inputs1 := c.inputs0, c.inputs1;
  }

  /** And PickLevelForMemTableOutput sends a flush into the gap to the level below. */
  method FlushGoesIntoGap(overlapLimit: nat) returns (level: nat)
    ensures level == 2
  {
    BeforeFacts();
    NothingInTheWay(overlapLimit);
    hide Before, Shaped, ClearTo, TooManyGrandparents, OverlapInLevel;
    level := PickLevelForMemTableOutput(Before(), Flushed().smallest.user, Flushed().largest.user, overlapLimit);
  }

  lemma NothingInTheWay(overlapLimit: nat)
    ensures !OverlapInLevel(Before()[0], 2.0, 2.0) && !OverlapInLevel(Before()[1], 2.0, 2.0)
    ensures !OverlapInLevel(Before()[2], 2.0, 2.0)
    ensures !TooManyGrandparents(Before(), 0, 2.0, 2.0, overlapLimit)
    ensures !TooManyGrandparents(Before(), 1, 2.0, 2.0, overlapLimit)
  {
  }
}
