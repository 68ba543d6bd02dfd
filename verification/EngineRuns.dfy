/** What holds over all runs of the engine. */
module EngineRuns {
  import opened Keys
  import opened Plans
  import opened Layers
  import opened Builders
  import opened Invisibility
  import opened Engine
  import opened EngineEdits
  import opened EngineRecords
  import opened EngineInvariant
  import opened EngineWrites
  import opened EngineFlush
  import opened EngineMerge
  import opened EngineDisk
  import opened EngineRecovery
  import opened EngineTears

  // ------------------------------------------------------------------ one step

  /** What the invariant says of a database that is open, but for the tear of its manifest. */
  ghost predicate UpOk(s: State) {
    s.Up? && DiskOk(s.disk, s.history) && DbOk(s.disk, s.history, s.db)
  }

  lemma CrashKeeps(s: State, cuts: map<nat, Cut>, revert: bool, tear: bool)
    requires Inv(s) && Enabled(s, Crash(cuts, revert, tear))
    ensures Inv(Perform(s, Crash(cuts, revert, tear)))
  {
    hide DbOk, DiskOk, DiskSane, MayCutAll, Held, Fallback, CutLogs;
    if s.Up? {
      DiskOkIff(s.disk, s.history);
    }
    if s.Up? && revert {
      KeepRevert(s.disk, s.history, s.db, cuts);
    } else {
      KeepCrash(s.disk, s.history, cuts, revert, tear);
    }
  }

  lemma StepDown(s: State, step: Step)
    requires Inv(s) && Enabled(s, step)
    requires step.DieRecovering? || step.DieWithLog? || step.Recover?
    ensures Inv(Perform(s, step))
  {
    hide DbOk, DiskOk, DiskSane, Reopened, CanRecover, Fallback, Present;
    match step
    case DieRecovering(n, es) => KeepDieRecovering(s.disk, s.history, n, es);
    case DieWithLog(n) => KeepDieWithLog(s.disk, s.history, n);
    case Recover(o) =>
      CanReuse(s.disk, o);
      ReopenedUp(s.disk, s.history, o);
      DiskOkIff(s.disk, s.history);
      KeepRecover(s.disk, s.history, o);
      if o.append && s.disk.tear.Some? {
        RecoverFallback(s.disk, s.history, o);
      }
  }

  lemma CanReuse(d: Disk, o: Opening)
    requires CanRecover(d, o)
    ensures o.reuse.Some? ==> o.reuse.value in d.logs
  {
  }

  lemma ReopenedUp(d: Disk, history: set<Entry>, o: Opening)
    requires |d.manifest.store.version| == NUM_LEVELS
    requires o.reuse.Some? ==> o.reuse.value in d.logs
    ensures var s := Reopened(d, history, o);
            s.Up? && s.history == history && s.disk.tear == (if o.append then d.tear else None)
  {
  }

  lemma StepWriter(s: State, step: Step)
    requires UpOk(s) && Enabled(s, step)
    requires step.Append? || step.Insert? || step.Switch? || step.TakeSnapshot? || step.ReleaseSnapshot? || step.Pin?
             || step.Unpin?
    ensures UpOk(Perform(s, step))
  {
    hide DbOk, DiskOk, Appended, CanWrite;
    match step
    case Append(ops, sync) => KeepAppend(s.disk, s.history, s.db, ops, sync);
    case Insert => KeepInsert(s.disk, s.history, s.db);
    case Switch => KeepSwitch(s.disk, s.history, s.db);
    case TakeSnapshot => KeepTakeSnapshot(s.disk, s.history, s.db);
    case ReleaseSnapshot(i) => KeepReleaseSnapshot(s.disk, s.history, s.db, i);
    case Pin => KeepPin(s.disk, s.history, s.db);
    case Unpin(v) => KeepUnpin(s.disk, s.history, s.db, v);
  }

  lemma StepFlush(s: State, step: Step)
    requires UpOk(s) && Enabled(s, step)
    requires step.BeginFlush? || step.WriteFlush? || step.ApplyFlush? || step.WriteManifest? || step.Install?
    ensures UpOk(Perform(s, step))
  {
    hide DbOk, DiskOk, FlushedStore, FlushedEdit, Extended, Installed', CanApplyFlush, BackgroundFree;
    match step
    case BeginFlush => KeepBeginFlush(s.disk, s.history, s.db);
    case WriteFlush(es, size) => KeepWriteFlush(s.disk, s.history, s.db, es, size);
    case ApplyFlush(level) =>
      FlushReady(s.db, level);
      KeepApplyFlush(s.disk, s.history, s.db, level);
    case WriteManifest => KeepWriteManifest(s.disk, s.history, s.db);
    case Install => KeepInstall(s.disk, s.history, s.db);
  }

  lemma StepMerge(s: State, step: Step)
    requires UpOk(s) && Enabled(s, step)
    requires step.PickMerge? || step.OpenOutput? || step.WriteOutput? || step.ApplyMerge? || step.ApplyMove?
    ensures UpOk(Perform(s, step))
  {
    hide DbOk, DiskOk, ApplyEdit, MergeEdit, MergedStore, MovedStore, Extended, MergeResult, PlanClosed,
         SmallestSnapshot;
    match step
    case PickMerge(p) => KeepPickMerge(s.disk, s.history, s.db, p);
    case OpenOutput => KeepOpenOutput(s.disk, s.history, s.db);
    case WriteOutput(n, es) => KeepWriteOutput(s.disk, s.history, s.db, n, es);
    case ApplyMerge(input, outs) => KeepApplyMerge(s.disk, s.history, s.db, input, outs);
    case ApplyMove(p) =>
      DbShape(s.disk, s.history, s.db);
      KeepApplyMove(s.disk, s.history, s.db, p);
  }

  lemma DbShape(d: Disk, history: set<Entry>, db: Db)
    requires DbOk(d, history, db)
    ensures |db.store.version| == NUM_LEVELS
  {
  }

  lemma StepGarbage(s: State, step: Step)
    requires UpOk(s) && Enabled(s, step)
    requires step.FindGarbage? || step.DeleteTable? || step.DeleteLog?
    ensures UpOk(Perform(s, step))
  {
    hide DbOk, DiskOk, LiveNumbers;
    match step
    case FindGarbage => KeepFindGarbage(s.disk, s.history, s.db);
    case DeleteTable(n) => KeepDeleteTable(s.disk, s.history, s.db, n);
    case DeleteLog(n) => KeepDeleteLog(s.disk, s.history, s.db, n);
  }

  lemma StepUp(s: State, step: Step)
    requires UpOk(s) && Enabled(s, step)
    requires !step.Crash? && !step.DieRecovering? && !step.DieWithLog? && !step.Recover?
    ensures UpOk(Perform(s, step))
  {
    hide UpOk, Enabled, Perform;
    match step
    case Append(_, _) => StepWriter(s, step);
    case Insert => StepWriter(s, step);
    case Switch => StepWriter(s, step);
    case TakeSnapshot => StepWriter(s, step);
    case ReleaseSnapshot(_) => StepWriter(s, step);
    case Pin => StepWriter(s, step);
    case Unpin(_) => StepWriter(s, step);
    case BeginFlush => StepFlush(s, step);
    case WriteFlush(_, _) => StepFlush(s, step);
    case ApplyFlush(_) => StepFlush(s, step);
    case WriteManifest => StepFlush(s, step);
    case Install => StepFlush(s, step);
    case PickMerge(_) => StepMerge(s, step);
    case OpenOutput => StepMerge(s, step);
    case WriteOutput(_, _) => StepMerge(s, step);
    case ApplyMerge(_, _) => StepMerge(s, step);
    case ApplyMove(_) => StepMerge(s, step);
    case FindGarbage => StepGarbage(s, step);
    case DeleteTable(_) => StepGarbage(s, step);
    case DeleteLog(_) => StepGarbage(s, step);
  }

  /** What a torn manifest may fall back to stays well-formed while the database is open. */
  lemma StepTear(s: State, step: Step)
    requires UpOk(s) && TearOk(s) && Enabled(s, step)
    requires !step.Crash? && !step.DieRecovering? && !step.DieWithLog? && !step.Recover?
    ensures TearOk(Perform(s, step))
  {
    hide DbOk, DiskOk, Fallback, Enabled, Perform;
    TearKept(s, step);
    if s.disk.tear.Some? {
      if Quiet(step) {
        QuietStep(s, step);
        var s' := Perform(s, step);
        QuietFallback(s.disk, s.disk.tear.value, s.history, s.db, s'.disk, s'.db);
      } else {
        StepKeepsFallback(s, step);
      }
    }
  }

  lemma StepKeepsFallback(s: State, step: Step)
    requires UpOk(s) && s.disk.tear.Some? && Fallback(s.disk, s.disk.tear.value, s.history, s.db)
    requires Enabled(s, step) && !Quiet(step)
    requires !step.Crash? && !step.DieRecovering? && !step.DieWithLog? && !step.Recover?
    ensures TearOk(Perform(s, step))
  {
    hide DbOk, DiskOk, Fallback, BackgroundFree;
    var d, m, h, db := s.disk, s.disk.tear.value, s.history, s.db;
    match step {
      case Append(ops, sync) =>
        var b := Batch(db.lastSequence + 1, ops);
        HistoryBelow(d, h, db, b);
        ManifestLogBound(d, h, db);
        AppendFallback(d, m, h, db, b, sync);
      case Switch =>
        LogUnused(d, h, db);
        SwitchFallback(d, m, h, db, Perform(s, step).db);
      case WriteFlush(es, _) =>
        FlushPending(d, h, db);
        WriteFallback(d, m, h, db, db.job.number, es);
        var d' := Perform(s, step).disk;
        QuietFallback(if es == [] then d else d', m, h, db, d', Perform(s, step).db);
      case WriteOutput(n, es) =>
        OutputPending(d, h, db, n);
        WriteFallback(d, m, h, db, n, es);
      case DeleteTable(n) =>
        DeleteTableFallback(d, m, h, db, n);
        QuietFallback(d.(tables := d.tables - {n}), m, h, db, Perform(s, step).disk, Perform(s, step).db);
      case DeleteLog(n) =>
        DeleteLogFallback(d, m, h, db, n);
        QuietFallback(d.(logs := d.logs - {n}), m, h, db, Perform(s, step).disk, Perform(s, step).db);
    }
  }

  lemma LogUnused(d: Disk, history: set<Entry>, db: Db)
    requires DbOk(d, history, db)
    ensures db.nextFile !in d.logs && db.logFile <= db.nextFile
  {
    ManifestLogBound(d, history, db);
  }

  lemma FlushPending(d: Disk, history: set<Entry>, db: Db)
    requires DbOk(d, history, db) && db.job.Building?
    ensures db.job.number in db.pendingOutputs
  {
  }

  lemma OutputPending(d: Disk, history: set<Entry>, db: Db, n: nat)
    requires DbOk(d, history, db) && db.run.Some? && n in db.run.value.numbers
    ensures n in db.pendingOutputs
  {
  }

  /** Every step keeps the invariant. */
  lemma StepKeepsInv(s: State, step: Step)
    requires Inv(s) && Enabled(s, step)
    ensures Inv(Perform(s, step))
  {
    hide DbOk, DiskOk, DiskSane, TearOk;
    if step.Crash? {
      hide Inv, Enabled, Perform;
      CrashKeeps(s, step.cuts, step.revert, step.tear);
    } else if step.DieRecovering? || step.DieWithLog? || step.Recover? {
      hide Inv, Enabled, Perform;
      StepDown(s, step);
    } else {
      StepIsUp(s, step);
      hide Enabled, Perform;
      StepUp(s, step);
      StepTear(s, step);
    }
  }

  lemma StepIsUp(s: State, step: Step)
    requires Enabled(s, step)
    requires !step.Crash? && !step.DieRecovering? && !step.DieWithLog? && !step.Recover?
    ensures s.Up?
  {
  }

  // ------------------------------------------------------------------ runs

  /** A new database: a manifest of one record without files, log number 0, next file 2. */
  function NewDb(): State {
    Down(Disk(map[], map[], Manifest(Store(Manifests.EmptyVersion(), {}, 0), [Edit({}, [])], 0, 2, 0), None), {})
  }

  lemma NoFilesOk(v: Version)
    requires |v| == NUM_LEVELS && forall l :: 0 <= l < |v| ==> v[l] == []
    ensures VersionEntries(v) == {} && Numbers(v) == {}
    ensures Layered(v) && AllOrdered(v) && NumbersIdentify(v)
  {
  }

  lemma NewDbOk()
    ensures Inv(NewDb())
  {
    hide VersionEntries, Numbers, Layered, AllOrdered, NumbersIdentify, View, NeverReenters, ApplyEach, SeenNumbers,
         OnlySinks;
    var st := NewDb().disk.manifest.store;
    NoFilesOk(st.version);
    assert Faithful(st);
    assert ReplayFrom(map[], 0) == {};
    RecordStart();
    assert Recorded([Edit({}, [])], st.version, 2);
  }

  /** `states` is a run: each state follows from the one before by an enabled step. */
  ghost predicate IsRun(states: seq<State>, steps: seq<Step>) {
    && |states| == |steps| + 1
    && states[0] == NewDb()
    && forall i :: 0 <= i < |steps| ==> Follows(states, steps, i)
  }

  ghost predicate Follows(states: seq<State>, steps: seq<Step>, i: nat)
    requires i < |steps| && |states| == |steps| + 1
  {
    Enabled(states[i], steps[i]) && states[i + 1] == Perform(states[i], steps[i])
  }

  lemma {:induction false} RunInv(states: seq<State>, steps: seq<Step>, i: nat)
    requires IsRun(states, steps) && i < |states|
    ensures Inv(states[i])
  {
    hide Inv, Enabled, Perform;
    if i == 0 {
      NewDbOk();
    } else {
      RunInv(states, steps, i - 1);
      assert Follows(states, steps, i - 1);
      StepKeepsInv(states[i - 1], steps[i - 1]);
    }
  }

  // ------------------------------------------------------------------ runs that spare torn manifests

  /** Recovery does not append to a manifest that ends in the middle of a record.  It can tell by the length of the
      file, which then differs from where the last whole record ends. */
  predicate SparesTornManifest(s: State, step: Step) {
    step.Recover? && step.opening.append ==> s.disk.tear.None?
  }

  /** A run in which recovery never appends to a torn manifest. */
  ghost predicate IsSoundRun(states: seq<State>, steps: seq<Step>) {
    IsRun(states, steps) && forall i :: 0 <= i < |steps| ==> SparesTornManifest(states[i], steps[i])
  }

  /** No crash can bring an older manifest back, and all tables it lists are there. */
  ghost predicate TablesKept(s: State) {
    Present(s.disk.tables, s.disk.manifest.store.version) && (s.Up? ==> s.disk.tear.None?)
  }

  lemma StepKeepsTables(s: State, step: Step)
    requires Inv(s) && TablesKept(s) && Enabled(s, step) && SparesTornManifest(s, step)
    ensures TablesKept(Perform(s, step))
  {
    hide DbOk, DiskOk, DiskSane, Fallback, CanRecover, Reopened, Present, MayCutAll, Held, CutLogs;
    if step.Crash? || step.DieWithLog? {
    } else if step.DieRecovering? {
      PresentGrows(s.disk.tables, step.number, step.entries, s.disk.manifest.store.version);
    } else {
      UpKeepsTables(s, step);
    }
  }

  lemma UpKeepsTables(s: State, step: Step)
    requires Inv(s) && TablesKept(s) && Enabled(s, step) && SparesTornManifest(s, step)
    requires !step.Crash? && !step.DieRecovering? && !step.DieWithLog?
    ensures TablesKept(Perform(s, step))
  {
    hide Inv, Enabled, Perform, Present;
    StepKeepsInv(s, step);
    if step.Recover? {
      RecoverTear(s, step.opening);
    } else {
      StepIsUp(s, step);
      TearKept(s, step);
    }
    UpHasTables(Perform(s, step));
  }

  lemma RecoverTear(s: State, o: Opening)
    requires Enabled(s, Recover(o))
    ensures var s' := Perform(s, Recover(o)); s'.Up? && s'.disk.tear == (if o.append then s.disk.tear else None)
  {
    hide CanRecover, Reopened, Present;
    CanReuse(s.disk, o);
    ReopenedUp(s.disk, s.history, o);
  }

  lemma UpHasTables(s: State)
    requires Inv(s) && s.Up?
    ensures Present(s.disk.tables, s.disk.manifest.store.version)
  {
    hide DbOk, DiskOk, DiskSane, Fallback, Present;
    DiskOkIff(s.disk, s.history);
  }

  lemma PresentGrows(tables: map<nat, seq<Entry>>, n: nat, es: seq<Entry>, v: Version)
    requires Present(tables, v)
    ensures Present(tables[n := es], v)
  {
  }

  lemma TearKept(s: State, step: Step)
    requires Enabled(s, step)
    requires !step.Crash? && !step.DieRecovering? && !step.DieWithLog? && !step.Recover?
    ensures Perform(s, step).Up? && Perform(s, step).disk.tear == s.disk.tear
  {
    hide FlushedStore, FlushedEdit, Extended, MergedStore, MovedStore, MergeEdit, LiveNumbers, Max, BackgroundFree,
         CanApplyFlush, CanPick, CanApplyMerge, SmallestSnapshot, Appended, TableOf, Installed';
  }

  lemma {:induction false} RunKeepsTables(states: seq<State>, steps: seq<Step>, i: nat)
    requires IsSoundRun(states, steps) && i < |states|
    ensures TablesKept(states[i])
  {
    hide Inv, Enabled, Perform, TablesKept;
    if i == 0 {
      NewDbKept();
    } else {
      RunKeepsTables(states, steps, i - 1);
      RunInv(states, steps, i - 1);
      assert Follows(states, steps, i - 1);
      StepKeepsTables(states[i - 1], steps[i - 1]);
    }
  }

  lemma NewDbKept()
    ensures TablesKept(NewDb())
  {
    NoFilesOk(NewDb().disk.manifest.store.version);
  }
}
