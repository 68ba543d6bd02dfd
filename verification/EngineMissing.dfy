/** A torn manifest that is used again can leave a database that does not open: a crash brings it back as it was, and
    tables that it lists have been removed since. */
module EngineMissing {
  import opened Keys
  import opened Files
  import opened Plans
  import opened Merging
  import opened Invisibility
  import opened Builders
  import opened Engine
  import opened EngineEdits
  import opened EngineRecords
  import opened EngineInvariant
  import opened EngineRuns
  import opened EngineDurability
  import opened EngineLosses

  // ------------------------------------------------------------------ a table is missing

  /** A table that the manifest lists is not there. */
  predicate Missing(s: State, n: nat) {
    s.Down? && n in Numbers(s.disk.manifest.store.version) && n !in s.disk.tables
  }

  /** Then the database does not open, and no crash changes that. */
  lemma MissingStays(s: State, step: Step, n: nat)
    requires Inv(s) && Missing(s, n) && Enabled(s, step)
    ensures !step.Recover? && Missing(Perform(s, step), n)
  {
    hide StoreOk, Intact, LogsOk, LogsSized, Durable, Unambiguous, Counted, Recorded, MayCutAll, Held, CutLogs,
         CanRecover, Numbers;
  }

  /** From a state in which a table is missing the database is never opened again. */
  lemma {:induction false} RunStaysDown(states: seq<State>, steps: seq<Step>, i: nat, j: nat, n: nat)
    requires IsRun(states, steps) && i <= j < |states| && Missing(states[i], n)
    ensures Missing(states[j], n)
  {
    hide Inv, Enabled, Perform, Missing;
    if i < j {
      RunStaysDown(states, steps, i, j - 1, n);
      RunInv(states, steps, j - 1);
      assert Follows(states, steps, j - 1);
      MissingStays(states[j - 1], steps[j - 1], n);
    }
  }

  /** Whenever a table is removed that the manifest listed when it was found torn, a crash can leave a database that
      does not open. */
  lemma RemovedIsMissing(s: State, n: nat) returns (s1: State, s2: State)
    requires Inv(s) && s.disk.tear.Some? && Enabled(s, DeleteTable(n)) && n in Numbers(s.disk.tear.value.store.version)
    ensures s1 == Perform(s, DeleteTable(n))
    ensures exists cuts :: Enabled(s1, Crash(cuts, true, true)) && s2 == Perform(s1, Crash(cuts, true, true))
    ensures Missing(s2, n)
  {
    hide Inv, Enabled, Perform, LogsSized, Numbers;
    s1 := Perform(s, DeleteTable(n));
    TableGone(s, n);
    InvSized(s);
    FirmCrashes(s1);
    var cuts := FirmCuts(s1.disk.logs);
    s2 := Perform(s1, Crash(cuts, true, true));
    CrashTables(s1, cuts, true, true);
    CrashedIsDown(s1, cuts);
  }

  lemma GarbageFound(s: State)
    requires Enabled(s, FindGarbage)
    ensures s.Up? && Perform(s, FindGarbage) ==
                     s.(db := s.db.(deadTables := s.disk.tables.Keys - LiveNumbers(s.db),
                                    deadLogs := set n | n in s.disk.logs && n < s.db.logNumber))
  {
    hide LiveNumbers;
  }

  lemma TableGone(s: State, n: nat)
    requires Enabled(s, DeleteTable(n))
    ensures var s' := Perform(s, DeleteTable(n));
            && s'.disk == s.disk.(tables := s.disk.tables - {n}) && s.Up?
            && s' == s.(disk := s'.disk, db := s.db.(deadTables := s.db.deadTables - {n}))
  {
  }

  lemma LogGone(s: State, n: nat)
    requires Enabled(s, DeleteLog(n))
    ensures var s' := Perform(s, DeleteLog(n));
            && s'.disk == s.disk.(logs := s.disk.logs - {n}) && s.Up?
            && s' == s.(disk := s'.disk, db := s.db.(deadLogs := s.db.deadLogs - {n}))
  {
  }

  lemma CrashedIsDown(s: State, cuts: map<nat, Cut>)
    requires Enabled(s, Crash(cuts, true, true))
    ensures Perform(s, Crash(cuts, true, true)).Down?
  {
    hide MayCutAll, Held, CutLogs;
  }

  // ------------------------------------------------------------------ the version with one table

  /** One file, on level 0. */
  function OneFile(f: File): (v: Version)
    ensures |v| == NUM_LEVELS
  {
    seq(NUM_LEVELS, l requires 0 <= l < NUM_LEVELS => if l == 0 then [f] else [])
  }

  lemma OneFileNumbers(f: File)
    ensures Numbers(OneFile(f)) == {f.number}
  {
    assert f in OneFile(f)[0];
  }

  lemma FlushedVersion(f: File)
    ensures ApplyEdit(Manifests.EmptyVersion(), FlushEdit(0, f)) == OneFile(f)
  {
    hide ApplyEdit;
    var e := FlushEdit(0, f);
    var v := ApplyEdit(Manifests.EmptyVersion(), e);
    NoFilesOk(Manifests.EmptyVersion());
    OneFileOrdered(f);
    assert e.added[0] == (0, f);
    forall l | 0 <= l < NUM_LEVELS ensures v[l] == OneFile(f)[l] {
      EditMembers(Manifests.EmptyVersion(), e, l);
      OrderedUnique(v[l], OneFile(f)[l]);
    }
  }

  lemma OneFileOrdered(f: File)
    ensures AllOrdered(OneFile(f)) && NumbersIdentify(OneFile(f))
  {
  }

  lemma NothingMore(f: File)
    ensures ApplyEdit(OneFile(f), RecoverEdit([])) == OneFile(f)
  {
    hide ApplyEdit;
    assert RecoverEdit([]) == Edit({}, []);
    OneFileOrdered(f);
    EmptyEdit(OneFile(f));
  }

  // ------------------------------------------------------------------ a run that ends so

  /** The table is compacted by itself. */
  function FirstPlan(): Plan {
    Plan(0, [FirstTable()], [], FirstEntry().key, FirstEntry().key)
  }

  function SecondTable(): File {
    File(7, 1, FirstEntry().key, FirstEntry().key, [FirstEntry()])
  }

  /** The machine stops, the last log being empty, while an edit is being appended to the manifest. */
  function TearingStop(): Step {
    Crash(map[4 := Cut(0, 0, false)], false, true)
  }

  /** Nothing to replay: the last log and the manifest are used again. */
  function QuietOpening(): Step {
    Recover(Opening([], Some(4), true, false, 7, 1))
  }

  function FlushAndMove(): seq<Step> {
    [FirstOpening(), Append([Put(0.0, [])], true), Insert, Switch,
     BeginFlush, WriteFlush([FirstEntry()], 1), ApplyFlush(0), WriteManifest, Install, FindGarbage, DeleteLog(3),
     ApplyMove(FirstPlan()), TearingStop()]
  }

  function MergeAndRemove(): seq<Step> {
    [QuietOpening(), PickMerge(FirstPlan()), OpenOutput, WriteOutput(7, [FirstEntry()]),
     ApplyMerge([FirstEntry()], [SecondTable()]), WriteManifest, Install, FindGarbage, DeleteTable(5),
     RevertingCrash()]
  }

  /** The manifest that lists the table. */
  function OneTable(edits: seq<Edit>): Manifest {
    Manifest(Store(OneFile(FirstTable()), {FirstEntry()}, 0), edits, 4, 6, 1)
  }

  /** Everything is flushed, and no one is at work. */
  function Idle(d: Disk, store: Store, next: nat): State {
    Up(d, {FirstEntry()}, Db({}, None, store, multiset{}, 1, next, 4, 4, [], {}, None, None, NoJob, {}, {}))
  }

  /** The disk after the flush. */
  function Flushed(logs: map<nat, LogFile>, m: Manifest, tear: Option<Manifest>): Disk {
    Disk(map[5 := [FirstEntry()]], logs, m, tear)
  }

  lemma FlushSteps(s: State, logs: map<nat, LogFile>) returns (s1: State, s2: State, s3: State)
    requires s.Up? && s.disk == Disk(map[], logs, s.disk.manifest, None) && s.history == {FirstEntry()}
    requires FirstManifest(s.disk.manifest)
    requires s.db == Db({}, Some({FirstEntry()}), s.disk.manifest.store, multiset{}, 1, 5, 3, 4, [], {}, None, None,
                        NoJob, {}, {})
    ensures Enabled(s, BeginFlush) && s1 == Perform(s, BeginFlush)
    ensures Enabled(s1, WriteFlush([FirstEntry()], 1)) && s2 == Perform(s1, WriteFlush([FirstEntry()], 1))
    ensures Enabled(s2, ApplyFlush(0)) && s3 == Perform(s2, ApplyFlush(0))
    ensures s3.Up? && s3.disk == Flushed(logs, s.disk.manifest, None) && s3.history == s.history
    ensures var next := OneTable(s.disk.manifest.edits + [FlushEdit(0, FirstTable())]);
            s3.db == s.db.(nextFile := 6, job := Applying(next, ByFlush))
  {
    hide ApplyEdit, FirstEntry, OneFile;
    s1 := Perform(s, BeginFlush);
    assert ToSet([FirstEntry()]) == {FirstEntry()};
    s2 := Perform(s1, WriteFlush([FirstEntry()], 1));
    s3 := Perform(s2, ApplyFlush(0));
    FlushedVersion(FirstTable());
    assert s2.db.job.file == Some(FirstTable());
    assert s3.db.job.next.store == Store(OneFile(FirstTable()), {FirstEntry()}, 0);
    assert s3.db.pendingOutputs == {};
  }

  lemma InstallSteps(s: State, logs: map<nat, LogFile>, m: Manifest) returns (s1: State, s2: State)
    requires s.Up? && s.disk == Flushed(logs, s.disk.manifest, None) && s.history == {FirstEntry()}
    requires s.db == Db({}, Some({FirstEntry()}), s.db.store, multiset{}, 1, 6, 3, 4, [], {}, None, None,
                        Applying(m, ByFlush), {}, {})
    requires m.logNumber == 4
    ensures Enabled(s, WriteManifest) && s1 == Perform(s, WriteManifest)
    ensures Enabled(s1, Install) && s2 == Perform(s1, Install) && s2 == Idle(Flushed(logs, m, None), m.store, 6)
  {
    s1 := Perform(s, WriteManifest);
    s2 := Perform(s1, Install);
  }

  lemma RemoveLogSteps(s: State, m: Manifest, b: Batch) returns (s1: State, s2: State)
    requires m == OneTable(m.edits)
    requires s == Idle(Flushed(map[3 := LogFile([b], 1, None), 4 := NewLog()], m, None), m.store, 6)
    ensures Enabled(s, FindGarbage) && s1 == Perform(s, FindGarbage)
    ensures Enabled(s1, DeleteLog(3)) && s2 == Perform(s1, DeleteLog(3))
    ensures s2 == Idle(Flushed(map[4 := NewLog()], m, None), m.store, 6)
  {
    hide FirstEntry, OneFile;
    OneFileNumbers(FirstTable());
    hide Perform;
    s1 := Perform(s, FindGarbage);
    GarbageFound(s);
    assert s1.db == s.db.(deadTables := {}, deadLogs := {3});
    s2 := Perform(s1, DeleteLog(3));
    LogGone(s1, 3);
    assert s2.db.deadLogs == {} && s2.disk.logs == map[4 := NewLog()];
  }

  lemma FirstPlanClosed()
    ensures PlanClosed(OneFile(FirstTable()), FirstPlan())
  {
    var f := FirstTable();
    assert FirstPlan().in0[0] == f;
  }

  lemma MoveTorn(s: State, m: Manifest) returns (s1: State, s2: State)
    requires m == OneTable(m.edits) && s == Idle(Flushed(map[4 := NewLog()], m, None), m.store, 6)
    ensures Enabled(s, ApplyMove(FirstPlan())) && s1 == Perform(s, ApplyMove(FirstPlan()))
    ensures s1.Up? && s1.db.job.Applying?
    ensures Enabled(s1, TearingStop()) && s2 == Perform(s1, TearingStop())
    ensures s2 == Down(Flushed(map[4 := NewLog()], m, Some(m)), {FirstEntry()})
  {
    hide ApplyEdit, MergeEdit, OneFile, FirstEntry, PlanClosed;
    FirstPlanClosed();
    s1 := Perform(s, ApplyMove(FirstPlan()));
    s2 := Perform(s1, TearingStop());
    assert s2.disk.logs == map[4 := NewLog()];
  }

  lemma OpenedAgain(s: State, m: Manifest) returns (s': State)
    requires m == OneTable(m.edits) && s == Down(Flushed(map[4 := NewLog()], m, Some(m)), {FirstEntry()})
    ensures Enabled(s, QuietOpening()) && s' == Perform(s, QuietOpening())
    ensures s' == Idle(Flushed(map[4 := NewLog()], m, Some(m)), m.store, 7)
  {
    hide ApplyEdit, OneFile, FirstEntry;
    OneFileNumbers(FirstTable());
    NothingMore(FirstTable());
    NothingLogged(s.disk.logs, 4);
    assert Replay(s.disk.logs, 4, 4) == {} && FileEntries([]) == {} && RecordEntries([]) == {};
    s' := Perform(s, QuietOpening());
    assert s'.db.deadTables == {} && s'.db.deadLogs == {};
  }

  lemma MergeRight()
    ensures MergeResult(OneFile(FirstTable()), FirstPlan(), 1, [FirstEntry()], [SecondTable()])
  {
    hide OneFile, Survivors, Dropped;
    var e, f, o := FirstEntry(), FirstTable(), SecondTable();
    assert FirstPlan().in0 + FirstPlan().in1 == [f];
    assert f in [f] && e in f.entries && o in [o] && e in o.entries;
    NotDropped();
    forall x ensures x in Survivors(OneFile(f), 2, 1, [e], 1) <==> x == e {
      SurvivorIndex(OneFile(f), 2, 1, [e], 1, x);
      assert [e][0] == e;
    }
  }

  lemma NotDropped()
    ensures !Dropped(OneFile(FirstTable()), 2, 1, [FirstEntry()], 0)
  {
  }

  function MergedVersion(): (v: Version)
    ensures |v| == NUM_LEVELS
  {
    ApplyEdit(OneFile(FirstTable()), MergeEdit(FirstPlan(), [SecondTable()]))
  }

  lemma MergedNumbers()
    ensures Numbers(MergedVersion()) == {7}
  {
    hide ApplyEdit, MergeEdit;
    var v, p, o := OneFile(FirstTable()), FirstPlan(), SecondTable();
    OneFileOrdered(FirstTable());
    MergeEditInstalls(v, p, [o]);
    var v' := MergedVersion();
    assert o in v'[1];
    forall l: nat, f: File | l < |v'| && f in v'[l] ensures f.number == 7 {
    }
  }

  /** The merge is under way. */
  function AtWork(d: Disk, store: Store, next: nat, numbers: set<nat>, job: Job): State {
    Up(d, {FirstEntry()},
       Db({}, None, store, multiset{}, 1, next, 4, 4, [], numbers, None,
          Some(Run(FirstPlan(), OneFile(FirstTable()), 1, numbers)), job, {}, {}))
  }

  function BothTables(m: Manifest, tear: Manifest): Disk {
    Disk(map[5 := [FirstEntry()], 7 := [FirstEntry()]], map[4 := NewLog()], m, Some(tear))
  }

  lemma OutputSteps(s: State, m: Manifest) returns (s1: State, s2: State, s3: State)
    requires m == OneTable(m.edits) && s == Idle(Flushed(map[4 := NewLog()], m, Some(m)), m.store, 7)
    ensures Enabled(s, PickMerge(FirstPlan())) && s1 == Perform(s, PickMerge(FirstPlan()))
    ensures Enabled(s1, OpenOutput) && s2 == Perform(s1, OpenOutput)
    ensures Enabled(s2, WriteOutput(7, [FirstEntry()])) && s3 == Perform(s2, WriteOutput(7, [FirstEntry()]))
    ensures s3 == AtWork(BothTables(m, m), m.store, 8, {7}, NoJob)
  {
    hide OneFile, FirstEntry, PlanClosed;
    FirstPlanClosed();
    s1 := Perform(s, PickMerge(FirstPlan()));
    s2 := Perform(s1, OpenOutput);
    assert s2.db.pendingOutputs == {7} && s2.db.run.value.numbers == {7};
    s3 := Perform(s2, WriteOutput(7, [FirstEntry()]));
    assert s3.disk.tables == map[5 := [FirstEntry()], 7 := [FirstEntry()]];
  }

  /** What the merge hands to LogAndApply. */
  function Merged(m: Manifest): Manifest {
    Manifest(Store(MergedVersion(), {FirstEntry()}, 1), m.edits + [MergeEdit(FirstPlan(), [SecondTable()])], 4, 8, 1)
  }

  lemma ResultSteps(s: State, m: Manifest) returns (s1: State, s2: State, s3: State)
    requires m == OneTable(m.edits) && s == AtWork(BothTables(m, m), m.store, 8, {7}, NoJob)
    ensures var step := ApplyMerge([FirstEntry()], [SecondTable()]); Enabled(s, step) && s1 == Perform(s, step)
    ensures Enabled(s1, WriteManifest) && s2 == Perform(s1, WriteManifest)
    ensures Enabled(s2, Install) && s3 == Perform(s2, Install)
    ensures s3 == Idle(BothTables(Merged(m), m), Merged(m).store, 8)
  {
    hide OneFile, FirstEntry, MergeResult, ApplyEdit, MergeEdit;
    MergeRight();
    s1 := Perform(s, ApplyMerge([FirstEntry()], [SecondTable()]));
    assert s1 == s.(db := s.db.(job := Applying(Merged(m), ByMerge)));
    s2 := Perform(s1, WriteManifest);
    s3 := Perform(s2, Install);
    assert {7} - {7} == {};
  }

  lemma RemoveSteps(s: State, m: Manifest) returns (s1: State, s2: State)
    requires m == OneTable(m.edits) && s == Idle(BothTables(Merged(m), m), Merged(m).store, 8)
    ensures Enabled(s, FindGarbage) && s1 == Perform(s, FindGarbage)
    ensures Enabled(s1, DeleteTable(5)) && s2 == Perform(s1, DeleteTable(5)) && s2.Up?
    ensures s2.disk == Disk(map[7 := [FirstEntry()]], map[4 := NewLog()], Merged(m), Some(m))
    ensures s2.history == {FirstEntry()}
  {
    hide OneFile, FirstEntry, MergedVersion, MergeEdit;
    MergedNumbers();
    hide Perform;
    s1 := Perform(s, FindGarbage);
    GarbageFound(s);
    assert s1.db.deadTables == {5};
    s2 := Perform(s1, DeleteTable(5));
    TableGone(s1, 5);
    assert s2.disk.tables == map[7 := [FirstEntry()]];
  }

  lemma RevertStep(s: State, m: Manifest) returns (s': State)
    requires m == OneTable(m.edits) && s.Up? && s.history == {FirstEntry()}
    requires s.disk == Disk(map[7 := [FirstEntry()]], map[4 := NewLog()], Merged(m), Some(m))
    ensures Enabled(s, RevertingCrash()) && s' == Perform(s, RevertingCrash())
    ensures s' == Down(Disk(map[7 := [FirstEntry()]], map[4 := NewLog()], m, Some(m)), {FirstEntry()})
  {
    hide OneFile, FirstEntry, MergedVersion, MergeEdit;
    s' := Perform(s, RevertingCrash());
    assert s'.disk.logs == map[4 := NewLog()];
  }

  // ------------------------------------------------------------------ the whole run

  lemma FlushedAndTorn() returns (states: seq<State>, m: Manifest)
    ensures |states| == 14 && states[0] == NewDb()
    ensures forall i :: 0 <= i < 13 ==> Follows(states, FlushAndMove(), i)
    ensures states[2].history == {FirstEntry()} && states[12].Up? && states[12].db.job.Applying?
    ensures m == OneTable(m.edits)
    ensures states[13] == Down(Flushed(map[4 := NewLog()], m, Some(m)), {FirstEntry()})
  {
    hide Enabled, Perform, FirstManifest, BackgroundFree, BatchEntries, FirstEntry, OneFile, OneTable;
    var b := Batch(1, [Put(0.0, [])]);
    var s1, s2, s3, s4 := LoggedAndSwitched(b);
    var logs := map[3 := LogFile([b], 1, None), 4 := NewLog()];
    var s5, s6, s7 := FlushSteps(s4, logs);
    m := OneTable(s4.disk.manifest.edits + [FlushEdit(0, FirstTable())]);
    OneTableParts(s4.disk.manifest.edits + [FlushEdit(0, FirstTable())]);
    var s8, s9 := InstallSteps(s7, logs, m);
    var s10, s11 := RemoveLogSteps(s9, m, b);
    var s12, s13 := MoveTorn(s11, m);
    states := [NewDb(), s1, s2, s3, s4, s5, s6, s7, s8, s9, s10, s11, s12, s13];
  }

  lemma OneTableParts(edits: seq<Edit>)
    ensures OneTable(edits).edits == edits && OneTable(edits).logNumber == 4
  {
  }

  lemma MergedAndReverted(s: State, m: Manifest) returns (states: seq<State>)
    requires m == OneTable(m.edits) && s == Down(Flushed(map[4 := NewLog()], m, Some(m)), {FirstEntry()})
    ensures |states| == 11 && states[0] == s
    ensures forall i :: 0 <= i < 10 ==> Follows(states, MergeAndRemove(), i)
    ensures states[9].Up? && states[9].disk.tear == Some(m) && states[9].disk.manifest == Merged(m)
    ensures states[10] == Down(Disk(map[7 := [FirstEntry()]], map[4 := NewLog()], m, Some(m)), {FirstEntry()})
  {
    hide Enabled, Perform, FirstEntry, OneFile, OneTable, MergedVersion;
    var s1 := OpenedAgain(s, m);
    var s2, s3, s4 := OutputSteps(s1, m);
    var s5, s6, s7 := ResultSteps(s4, m);
    var s8, s9 := RemoveSteps(s7, m);
    var s10 := RevertStep(s9, m);
    states := [s, s1, s2, s3, s4, s5, s6, s7, s8, s9, s10];
  }

  /** With reuse_logs: a manifest torn while a move was recorded is used again, the table that it lists is merged into
      another and removed, and the next crash brings the old manifest back.  The synced write is safe by either
      manifest, and the database does not open. */
  lemma TornManifestLosesTable() returns (states: seq<State>)
    ensures IsRun(states, FlushAndMove() + MergeAndRemove()) && |states| == 24 && FlushAndMove()[1].sync
    ensures states[2].history == {FirstEntry()} && states[12].Up? && states[12].db.job.Applying?
    ensures states[22].disk.tear.Some? && SafeUnder(states[22].disk, states[22].disk.manifest, FirstEntry())
    ensures SafeUnder(states[22].disk, states[22].disk.tear.value, FirstEntry())
    ensures FirstEntry() in states[23].history && Missing(states[23], 5)
  {
    hide Enabled, Perform, FirstEntry, OneFile, MergedVersion;
    var before, m := FlushedAndTorn();
    var after := MergedAndReverted(before[13], m);
    states := before + after[1..];
    var steps := FlushAndMove() + MergeAndRemove();
    forall i | 0 <= i < 23 ensures Follows(states, steps, i) {
      if i < 13 {
        assert Follows(before, FlushAndMove(), i);
      } else {
        assert Follows(after, MergeAndRemove(), i - 13);
      }
    }
    OneFileNumbers(FirstTable());
  }
}
