/** What a crash may take, and what it may not. */
module EngineDurability {
  import opened Keys
  import opened Layers
  import opened Lookup
  import opened Builders
  import opened Engine
  import opened EngineRecords
  import opened EngineInvariant
  import opened EngineWrites
  import opened EngineRecovery
  import opened EngineRuns

  // ------------------------------------------------------------------ synced records

  /** How many records no crash can take: those that were synced, but not from a tear on. */
  function Firm(log: LogFile): nat {
    if log.torn.Some? && log.torn.value < log.synced then log.torn.value else log.synced
  }

  /** The entry is in a record that no crash can take. */
  ghost predicate InSynced(log: LogFile, e: Entry) {
    Firm(log) <= |log.records| && e in RecordEntries(log.records[..Firm(log)])
  }

  /** With `m` as the manifest no crash can take the entry: it was flushed, or is in a synced record of a log that
      recovery reads. */
  ghost predicate SafeUnder(d: Disk, m: Manifest, e: Entry) {
    e in m.store.base || exists n :: n in d.logs && m.logNumber <= n && InSynced(d.logs[n], e)
  }

  ghost predicate Safe(d: Disk, e: Entry) {
    SafeUnder(d, d.manifest, e)
  }

  /** The entry is in the history, and the tables that the manifest lists are all there, so that the database opens. */
  ghost predicate Left(s: State, e: Entry) {
    e in s.history && OnDisk(s.disk.tables, s.disk.manifest.store.version)
  }

  lemma SyncedInRecords(log: LogFile, e: Entry)
    requires InSynced(log, e)
    ensures e in RecordEntries(log.records)
  {
    PrefixEntries(log.records, Firm(log));
  }

  lemma NotSynced(log: LogFile, e: Entry)
    requires e !in RecordEntries(log.records)
    ensures !InSynced(log, e)
  {
    if Firm(log) <= |log.records| {
      PrefixEntries(log.records, Firm(log));
    }
  }

  lemma SafeInHistory(d: Disk, history: set<Entry>, e: Entry)
    requires DiskSane(d, history) && Safe(d, e)
    ensures e in history
  {
    hide StoreOk, Intact, LogsOk, Unambiguous, InSynced, Recorded;
    if e !in d.manifest.store.base {
      var n :| n in d.logs && d.manifest.logNumber <= n && InSynced(d.logs[n], e);
      SyncedInRecords(d.logs[n], e);
      InReplayFrom(d.logs, d.manifest.logNumber, n);
    }
  }

  /** The log may grow; what no crash can take stays. */
  ghost predicate KeepsFirm(log: LogFile, log': LogFile) {
    Firm(log) <= |log.records| ==> Firm(log) <= Firm(log') <= |log'.records| && log.records[..Firm(log)] <= log'.records
  }

  ghost predicate KeepsRecords(logs: map<nat, LogFile>, logs': map<nat, LogFile>, from: nat) {
    forall n :: n in logs && from <= n ==> n in logs' && KeepsFirm(logs[n], logs'[n])
  }

  lemma KeepsSafe(d: Disk, d': Disk, e: Entry)
    requires Safe(d, e) && d'.manifest == d.manifest && KeepsRecords(d.logs, d'.logs, d.manifest.logNumber)
    ensures Safe(d', e)
  {
    hide RecordEntries;
    if e !in d.manifest.store.base {
      var n :| n in d.logs && d.manifest.logNumber <= n && InSynced(d.logs[n], e);
      var a, b := d.logs[n], d'.logs[n];
      assert b.records[..Firm(b)][..Firm(a)] == a.records[..Firm(a)];
      PrefixEntries(b.records[..Firm(b)], Firm(a));
      assert InSynced(d'.logs[n], e);
    }
  }

  lemma ManifestKeepsSafe(d: Disk, history: set<Entry>, db: Db, e: Entry)
    requires DbOk(d, history, db) && db.job.Applying? && Safe(d, e)
    ensures Safe(d.(manifest := db.job.next), e)
  {
    hide StoreOk, OnDisk, Unambiguous, Readable, PinnedReadable, Counted, Installable, SnapshotsOk, RunOk, GarbageOk,
         NumbersOk, RecordEntries, ManifestOk, ContentOk, InSynced, SeenNumbers;
    var next := db.job.next;
    if e !in d.manifest.store.base {
      var n :| n in d.logs && d.manifest.logNumber <= n && InSynced(d.logs[n], e);
      if n < next.logNumber {
        SyncedInRecords(d.logs[n], e);
        assert e in Replay(d.logs, db.logNumber, db.logFile);
      }
    }
  }

  lemma RecoverKeepsSafe(d: Disk, history: set<Entry>, o: Opening, e: Entry)
    requires DiskOk(d, history) && CanRecover(d, o) && |d.manifest.store.version| == NUM_LEVELS
    requires Safe(d, e)
    ensures Safe(Reopened(d, history, o).disk, e)
  {
    hide StoreOk, OnDisk, LogsOk, Unambiguous, RecordEntries, InSynced, ApplyEdit, RecoverEdit, WithTables,
         FileEntries, Successive, AllValid, Durable, IsRecoveredSequence, Numbers, RecoveredEdits, Recorded;
    var s := Reopened(d, history, o);
    if e !in d.manifest.store.base {
      var n :| n in d.logs && d.manifest.logNumber <= n && InSynced(d.logs[n], e);
      assert n in s.disk.logs && s.disk.logs[n] == d.logs[n];
      if n < s.disk.manifest.logNumber {
        SyncedInRecords(d.logs[n], e);
        InReplayFrom(d.logs, d.manifest.logNumber, n);
        assert o.reuse.Some? ==> e in Replay(d.logs, d.manifest.logNumber, o.reuse.value);
        assert e in Reflushed(d, o.reuse);
      }
    }
  }

  lemma CutKeepsFirm(log: LogFile, c: Cut)
    requires MayCut(log, c)
    ensures KeepsFirm(log, CutLog(log, c))
  {
    var left := CutLog(log, c).records;
    assert Firm(log) <= |log.records| ==> log.records[..Firm(log)] == left[..Firm(log)];
  }

  lemma CrashKeepsRecords(logs: map<nat, LogFile>, cuts: map<nat, Cut>, from: nat)
    requires MayCutAll(logs, cuts)
    ensures KeepsRecords(logs, CutLogs(logs, cuts), from)
  {
    hide KeepsFirm, MayCut, CutLog;
    forall n | n in logs ensures n in CutLogs(logs, cuts) && KeepsFirm(logs[n], CutLogs(logs, cuts)[n]) {
      CutKeepsFirm(logs[n], cuts[n]);
    }
  }

  lemma AppendKeepsRecords(logs: map<nat, LogFile>, n: nat, b: Batch, sync: bool, from: nat)
    requires n in logs && LogsSized(logs)
    ensures KeepsRecords(logs, Appended(logs, n, b, sync), from)
  {
  }

  /** The steps that change the logs. */
  predicate TouchesLogs(step: Step) {
    step.Crash? || step.Append? || step.DeleteLog? || step.Switch? || step.DieWithLog?
  }

  lemma LogsUntouched(s: State, step: Step)
    requires Enabled(s, step) && !step.WriteManifest? && !step.Recover? && !TouchesLogs(step)
    ensures Perform(s, step).disk.manifest == s.disk.manifest && Perform(s, step).disk.logs == s.disk.logs
  {
    hide FlushedStore, FlushedEdit, Extended, MergedStore, MovedStore, MergeEdit, LiveNumbers, Max, BackgroundFree,
         CanApplyFlush, CanPick, CanApplyMerge, Installed', TableOf, SmallestSnapshot;
  }

  lemma StepKeepsRecords(s: State, step: Step)
    requires Inv(s) && TablesKept(s) && Enabled(s, step) && !step.WriteManifest? && !step.Recover?
    ensures Perform(s, step).disk.manifest == s.disk.manifest
    ensures KeepsRecords(s.disk.logs, Perform(s, step).disk.logs, s.disk.manifest.logNumber)
  {
    hide DbOk, DiskOk, DiskSane, Fallback, MayCutAll, CutLogs, Appended, KeepsRecords, CanWrite, Held, Present;
    var from := s.disk.manifest.logNumber;
    if !TouchesLogs(step) {
      hide Enabled, Perform;
      LogsUntouched(s, step);
      SameLogsKept(s.disk.logs, from);
    } else {
      match step {
        case Crash(cuts, _, _) => CrashKeepsRecords(s.disk.logs, cuts, from);
        case Append(ops, sync) =>
          InvSized(s);
          AppendKeepsRecords(s.disk.logs, s.db.logFile, Batch(s.db.lastSequence + 1, ops), sync, from);
        case DeleteLog(n) =>
          DeadLogOld(s.disk, s.history, s.db, n);
          OldLogGone(s.disk.logs, n, from);
        case Switch =>
          LogUnused(s.disk, s.history, s.db);
          NewLogKept(s.disk.logs, s.db.nextFile, from);
        case DieWithLog(n) => NewLogKept(s.disk.logs, n, from);
      }
    }
  }

  lemma InvSized(s: State)
    requires Inv(s)
    ensures LogsSized(s.disk.logs)
  {
  }

  lemma SameLogsKept(logs: map<nat, LogFile>, from: nat)
    ensures KeepsRecords(logs, logs, from)
  {
  }

  lemma NewLogKept(logs: map<nat, LogFile>, n: nat, from: nat)
    requires n !in logs
    ensures KeepsRecords(logs, logs[n := NewLog()], from)
  {
  }

  lemma OldLogGone(logs: map<nat, LogFile>, n: nat, from: nat)
    requires n < from
    ensures KeepsRecords(logs, logs - {n}, from)
  {
  }

  lemma DeadLogOld(d: Disk, history: set<Entry>, db: Db, n: nat)
    requires DbOk(d, history, db) && n in db.deadLogs
    ensures n < d.manifest.logNumber
  {
  }


  lemma StepKeepsSafe(s: State, step: Step, e: Entry)
    requires Inv(s) && TablesKept(s) && Enabled(s, step) && Safe(s.disk, e)
    ensures Safe(Perform(s, step).disk, e)
  {
    hide DbOk, DiskOk, DiskSane, Fallback, Safe, KeepsRecords, Present;
    if step.WriteManifest? {
      ManifestKeepsSafe(s.disk, s.history, s.db, e);
    } else if step.Recover? {
      hide Reopened, CanRecover;
      CanReuse(s.disk, step.opening);
      DiskOkIff(s.disk, s.history);
      RecoverKeepsSafe(s.disk, s.history, step.opening, e);
    } else {
      hide Perform;
      StepKeepsRecords(s, step);
      KeepsSafe(s.disk, Perform(s, step).disk, e);
    }
  }

  lemma {:induction false} RunKeepsSafe(states: seq<State>, steps: seq<Step>, i: nat, j: nat, e: Entry)
    requires IsSoundRun(states, steps) && i <= j < |states| && Safe(states[i].disk, e)
    ensures Safe(states[j].disk, e)
  {
    hide Inv, Enabled, Perform, Safe, TablesKept;
    if i < j {
      RunKeepsSafe(states, steps, i, j - 1, e);
      RunInv(states, steps, j - 1);
      RunKeepsTables(states, steps, j - 1);
      assert Follows(states, steps, j - 1);
      StepKeepsSafe(states[j - 1], steps[j - 1], e);
    }
  }

  /** Recovery does not go on using a log that ends in the middle of a record. */
  predicate SparesTornLog(s: State, step: Step) {
    step.Recover? && step.opening.reuse.Some? && step.opening.reuse.value in s.disk.logs ==>
      s.disk.logs[step.opening.reuse.value].torn.None?
  }

  /** The log in use has no tear. */
  ghost predicate CurrentLogWhole(s: State) {
    s.Up? ==> s.db.logFile in s.disk.logs && s.disk.logs[s.db.logFile].torn.None?
  }

  lemma StepKeepsLogWhole(s: State, step: Step)
    requires Inv(s) && Enabled(s, step) && SparesTornLog(s, step) && CurrentLogWhole(s)
    ensures CurrentLogWhole(Perform(s, step))
  {
    hide DbOk, DiskOk, DiskSane, Fallback, FlushedStore, FlushedEdit, Extended, MergedStore, MovedStore, MergeEdit,
         LiveNumbers, Max, CanApplyFlush, CanPick, CanApplyMerge, TableOf, SmallestSnapshot, MayCutAll, Crashed,
         WithTables, RecoveredEdits, ApplyEdit;
    if step.DeleteLog? {
      DeadLogOld(s.disk, s.history, s.db, step.number);
      ManifestLogBound(s.disk, s.history, s.db);
    }
  }

  lemma {:induction false} RunKeepsLogWhole(states: seq<State>, steps: seq<Step>, i: nat)
    requires IsSoundRun(states, steps) && i < |states|
    requires forall n :: 0 <= n < |steps| ==> SparesTornLog(states[n], steps[n])
    ensures CurrentLogWhole(states[i])
  {
    hide Inv, Enabled, Perform, SparesTornLog, CurrentLogWhole;
    if i == 0 {
      assert CurrentLogWhole(NewDb()) by { DownIsWhole(NewDb()); }
    } else {
      RunKeepsLogWhole(states, steps, i - 1);
      RunInv(states, steps, i - 1);
      assert Follows(states, steps, i - 1);
      StepKeepsLogWhole(states[i - 1], steps[i - 1]);
    }
  }

  lemma DownIsWhole(s: State)
    requires s.Down?
    ensures CurrentLogWhole(s)
  {
  }

  /** A synced write is never lost, across any number of crashes and recoveries, in a run in which recovery appends
      neither to a torn manifest nor to a torn log; and in no state of it is a table missing. */
  lemma SyncedWritesSurvive(states: seq<State>, steps: seq<Step>, i: nat, j: nat, e: Entry)
    requires IsSoundRun(states, steps) && i < |steps| && i < j < |states|
    requires forall n :: 0 <= n < |steps| ==> SparesTornLog(states[n], steps[n])
    requires steps[i].Append? && steps[i].sync
    requires states[i].Up? && e in BatchEntries(Batch(states[i].db.lastSequence + 1, steps[i].ops))
    ensures Left(states[j], e)
  {
    hide DbOk, DiskOk, DiskSane, Fallback, BatchEntries, Safe, SparesTornLog, OnDisk, Present;
    RunInv(states, steps, i);
    RunKeepsLogWhole(states, steps, i);
    assert Follows(states, steps, i);
    SyncedIsSafe(states[i], steps[i], e);
    RunKeepsSafe(states, steps, i + 1, j, e);
    RunInv(states, steps, j);
    RunKeepsTables(states, steps, j);
    DiskOkIff(states[j].disk, states[j].history);
    SafeInHistory(states[j].disk, states[j].history, e);
    TablesThere(states[j].disk, states[j].history);
  }

  lemma TablesThere(d: Disk, history: set<Entry>)
    requires DiskOk(d, history)
    ensures OnDisk(d.tables, d.manifest.store.version)
  {
  }

  lemma SyncedIsSafe(s: State, step: Step, e: Entry)
    requires Inv(s) && Enabled(s, step) && step.Append? && step.sync && s.disk.logs[s.db.logFile].torn.None?
    requires e in BatchEntries(Batch(s.db.lastSequence + 1, step.ops))
    ensures Safe(Perform(s, step).disk, e)
  {
    hide DbOk, DiskOk, BatchEntries;
    var b := Batch(s.db.lastSequence + 1, step.ops);
    var d' := Perform(s, step).disk;
    var log := d'.logs[s.db.logFile];
    assert s.disk.manifest.logNumber <= s.db.logFile by { ManifestLogBound(s.disk, s.history, s.db); }
    RecordEntriesSnoc(s.disk.logs[s.db.logFile].records, b);
    assert log.records[..Firm(log)] == log.records;
    assert InSynced(d'.logs[s.db.logFile], e);
  }

  // ------------------------------------------------------------------ exactly what every crash leaves

  /** The crash that leaves nothing but what no crash can take. */
  function FirmCut(log: LogFile): Cut {
    Cut(log.synced, log.synced, true)
  }

  lemma FirmCutLeaves(log: LogFile)
    requires log.synced <= |log.records| && (log.torn.Some? ==> log.torn.value <= |log.records|)
    ensures MayCut(log, FirmCut(log)) && CutLog(log, FirmCut(log)).records == log.records[..Firm(log)]
    ensures Firm(log) <= |log.records|
  {
  }

  function FirmCuts(logs: map<nat, LogFile>): map<nat, Cut> {
    map n | n in logs :: FirmCut(logs[n])
  }

  lemma FirmCutsAllowed(logs: map<nat, LogFile>)
    requires LogsSized(logs)
    ensures MayCutAll(logs, FirmCuts(logs))
    ensures forall n :: n in logs ==>
              Firm(logs[n]) <= |logs[n].records|
              && CutLogs(logs, FirmCuts(logs))[n].records == logs[n].records[..Firm(logs[n])]
  {
    hide MayCut, CutLog, FirmCut, Firm;
    forall n | n in logs
      ensures MayCut(logs[n], FirmCut(logs[n])) && Firm(logs[n]) <= |logs[n].records|
              && CutLog(logs[n], FirmCut(logs[n])).records == logs[n].records[..Firm(logs[n])]
    {
      FirmCutLeaves(logs[n]);
    }
  }

  lemma FirmIsLeft(log: LogFile, c: Cut)
    requires MayCut(log, c) && Firm(log) <= |log.records|
    ensures RecordEntries(log.records[..Firm(log)]) <= RecordEntries(CutLog(log, c).records)
  {
    hide RecordEntries;
    CutKeepsFirm(log, c);
    var left := CutLog(log, c).records;
    assert left[..Firm(log)] == log.records[..Firm(log)];
    PrefixEntries(left, Firm(log));
  }

  /** What is safe under the manifest that a crash leaves is held by the disk that it leaves. */
  lemma SafeIsHeld(d: Disk, cuts: map<nat, Cut>, revert: bool, tear: bool, e: Entry)
    requires MayCutAll(d.logs, cuts) && MayRevert(d, revert, tear)
    requires SafeUnder(d, if revert then d.tear.value else d.manifest, e)
    ensures e in Held(Crashed(d, cuts, revert, tear))
  {
    hide RecordEntries, ReplayFrom, MayCut, CutLog, Firm;
    var m := if revert then d.tear.value else d.manifest;
    var logs := CutLogs(d.logs, cuts);
    if e !in m.store.base {
      var n :| n in d.logs && m.logNumber <= n && InSynced(d.logs[n], e);
      FirmIsLeft(d.logs[n], cuts[n]);
      InReplayFrom(logs, m.logNumber, n);
    }
  }

  /** After the crash that leaves the least, what the disk still holds is safe. */
  lemma HeldIsSafe(d: Disk, revert: bool, tear: bool, e: Entry)
    requires LogsSized(d.logs) && MayCutAll(d.logs, FirmCuts(d.logs)) && MayRevert(d, revert, tear)
    requires e in Held(Crashed(d, FirmCuts(d.logs), revert, tear))
    ensures SafeUnder(d, if revert then d.tear.value else d.manifest, e)
  {
    hide RecordEntries, MayCutAll, Firm, FirmCuts;
    var m := if revert then d.tear.value else d.manifest;
    FirmCutsAllowed(d.logs);
    var logs := CutLogs(d.logs, FirmCuts(d.logs));
    if e !in m.store.base {
      var n :| n in logs && m.logNumber <= n && e in RecordEntries(logs[n].records);
      assert InSynced(d.logs[n], e);
    }
  }

  /** Every crash leaves an entry in the history exactly when it is safe under the manifest, and, if that was found
      torn, also under what it said then. */
  lemma InHistoryIffSafe(s: State, e: Entry)
    requires LogsSized(s.disk.logs) && e in s.history
    ensures (forall cuts, revert, tear :: Enabled(s, Crash(cuts, revert, tear)) ==>
               e in Perform(s, Crash(cuts, revert, tear)).history)
            <==> SafeUnder(s.disk, s.disk.manifest, e)
                 && (s.disk.tear.Some? ==> SafeUnder(s.disk, s.disk.tear.value, e))
  {
    hide SafeUnder, LogsSized, Held, Crashed, MayCutAll;
    var d := s.disk;
    if SafeUnder(d, d.manifest, e) && (d.tear.Some? ==> SafeUnder(d, d.tear.value, e)) {
      forall cuts, revert, tear | Enabled(s, Crash(cuts, revert, tear))
        ensures e in Perform(s, Crash(cuts, revert, tear)).history
      {
        SafeIsHeld(d, cuts, revert, tear, e);
      }
    }
    if forall cuts, revert, tear :: Enabled(s, Crash(cuts, revert, tear)) ==>
         e in Perform(s, Crash(cuts, revert, tear)).history
    {
      FirmCrashes(s);
      var still := d.tear == Some(d.manifest);
      HeldIsSafe(d, false, still, e);
      if d.tear.Some? {
        HeldIsSafe(d, true, true, e);
      }
    }
  }

  lemma CrashTables(s: State, cuts: map<nat, Cut>, revert: bool, tear: bool)
    requires Enabled(s, Crash(cuts, revert, tear))
    ensures var d := Perform(s, Crash(cuts, revert, tear)).disk;
            d.tables == s.disk.tables && d.manifest == (if revert then s.disk.tear.value else s.disk.manifest)
    ensures revert ==> s.disk.tear.Some?
  {
    hide MayCutAll, Held, CutLogs;
  }

  /** No crash can take the entry while `m` is the manifest, and the tables it lists are there. */
  ghost predicate SecureUnder(d: Disk, m: Manifest, e: Entry) {
    SafeUnder(d, m, e) && OnDisk(d.tables, m.store.version)
  }

  /** Whatever the state: every crash leaves an entry of the history in a database that opens, exactly when it is safe
      and its tables are there under the manifest, and, if that was found torn, also under what it said then. */
  lemma SurvivesIffSafe(s: State, e: Entry)
    requires LogsSized(s.disk.logs) && e in s.history
    ensures (forall cuts, revert, tear :: Enabled(s, Crash(cuts, revert, tear)) ==>
               Left(Perform(s, Crash(cuts, revert, tear)), e))
            <==> SecureUnder(s.disk, s.disk.manifest, e)
                 && (s.disk.tear.Some? ==> SecureUnder(s.disk, s.disk.tear.value, e))
  {
    hide SafeUnder, LogsSized, OnDisk, Enabled, Perform;
    InHistoryIffSafe(s, e);
    FirmCrashes(s);
    forall cuts, revert, tear | Enabled(s, Crash(cuts, revert, tear))
      ensures var d := Perform(s, Crash(cuts, revert, tear)).disk;
              && d.tables == s.disk.tables && (revert ==> s.disk.tear.Some?)
              && d.manifest == (if revert then s.disk.tear.value else s.disk.manifest)
    {
      CrashTables(s, cuts, revert, tear);
    }
    if forall cuts, revert, tear :: Enabled(s, Crash(cuts, revert, tear)) ==>
         Left(Perform(s, Crash(cuts, revert, tear)), e)
    {
      var logs := FirmCuts(s.disk.logs);
      assert Left(Perform(s, Crash(logs, false, s.disk.tear == Some(s.disk.manifest))), e);
      if s.disk.tear.Some? {
        assert Left(Perform(s, Crash(logs, true, true)), e);
      }
    }
  }

  /** A crash may leave of each log no more than is firm, and the manifest as it is or as it was when torn. */
  lemma FirmCrashes(s: State)
    requires LogsSized(s.disk.logs)
    ensures Enabled(s, Crash(FirmCuts(s.disk.logs), false, s.disk.tear == Some(s.disk.manifest)))
    ensures s.disk.tear.Some? ==> Enabled(s, Crash(FirmCuts(s.disk.logs), true, true))
  {
    hide LogsSized, MayCutAll;
    FirmCutsAllowed(s.disk.logs);
  }

  /** In every run, whatever recovery appends to, it is known of each state which logged writes every crash leaves.
      Of the tables it is enough that they are there: none is ever overwritten. */
  lemma RunSurvivesIffSafe(states: seq<State>, steps: seq<Step>, i: nat, e: Entry)
    requires IsRun(states, steps) && i < |states| && e in states[i].history
    ensures var s := states[i];
            (forall cuts, revert, tear :: Enabled(s, Crash(cuts, revert, tear)) ==>
               Left(Perform(s, Crash(cuts, revert, tear)), e))
            <==> SafeUnder(s.disk, s.disk.manifest, e) && Present(s.disk.tables, s.disk.manifest.store.version)
                 && (s.disk.tear.Some? ==> SafeUnder(s.disk, s.disk.tear.value, e)
                                           && Present(s.disk.tables, s.disk.tear.value.store.version))
  {
    hide IsRun, SafeUnder, LogsSized, Enabled, Perform, Inv, OnDisk, Present, Left;
    RunInv(states, steps, i);
    InvSized(states[i]);
    SurvivesIffSafe(states[i], e);
    TablesIntact(states[i]);
  }

  /** Of the tables that the manifest lists, and of those it listed when it was found torn, those that are there have
      their contents. */
  lemma TablesIntact(s: State)
    requires Inv(s)
    ensures var v := s.disk.manifest.store.version; OnDisk(s.disk.tables, v) <==> Present(s.disk.tables, v)
    ensures s.disk.tear.Some? ==>
              var v := s.disk.tear.value.store.version; OnDisk(s.disk.tables, v) <==> Present(s.disk.tables, v)
  {
    hide DbOk, ManifestOk, LogsOk, LogsSized, Durable, Unambiguous, Counted, OnDisk, Intact, Present, ReplayFrom,
         SetNewer, Numbers;
    OnDiskIff(s.disk.tables, s.disk.manifest.store.version);
    if s.disk.tear.Some? {
      OnDiskIff(s.disk.tables, s.disk.tear.value.store.version);
    }
  }

  // ------------------------------------------------------------------ a synced write

  lemma BehindIsNewer(records: seq<Batch>, before: seq<Batch>, b: Batch, t: nat, e: Entry)
    requires RecordsOk(records) && records == before + [b] && t <= |before| && e in BatchEntries(b)
    ensures e !in RecordEntries(records[..t])
  {
    hide BatchEntries;
    forall i | 0 <= i < t ensures e !in BatchEntries(records[..t][i]) {
      assert records[..t][i] == records[i] && records[|before|] == b;
      assert SetNewer(BatchEntries(records[|before|]), BatchEntries(records[i]));
      assert e in BatchEntries(records[i]) ==> e.key.sequence > e.key.sequence;
    }
  }

  /** An entry is in one log only. */
  lemma NotInOtherLog(logs: map<nat, LogFile>, from: nat, n: nat, m: nat, e: Entry)
    requires LogsOk(logs, from) && n in logs && m in logs && from <= n && from <= m && n != m
    requires e in RecordEntries(logs[n].records)
    ensures e !in RecordEntries(logs[m].records)
  {
    hide RecordEntries, RecordsOk;
    var low, high := if n < m then n else m, if n < m then m else n;
    assert SetNewer(RecordEntries(logs[high].records), RecordEntries(logs[low].records));
    assert e in RecordEntries(logs[m].records) ==> e.key.sequence > e.key.sequence;
  }

  /** An entry of the last record of a log is safe only if it is not behind a tear. */
  lemma BehindTearIsUnsafe(d: Disk, history: set<Entry>, n: nat, before: seq<Batch>, b: Batch, e: Entry)
    requires DiskOk(d, history) && n in d.logs && d.manifest.logNumber <= n && d.logs[n].records == before + [b]
    requires d.logs[n].torn.Some? && d.logs[n].torn.value <= |before| && d.logs[n].synced == |before| + 1
    requires e in BatchEntries(b)
    ensures !Safe(d, e)
  {
    hide StoreOk, OnDisk, Unambiguous, BatchEntries, Recorded, RecordsOk, Counted, RecordEntries, ReplayFrom;
    var from := d.manifest.logNumber;
    RecordEntriesSnoc(before, b);
    InReplayFrom(d.logs, from, n);
    assert e !in d.manifest.store.base by {
      assert forall y :: y in d.manifest.store.base ==> y.key.sequence < e.key.sequence;
    }
    forall m | m in d.logs && from <= m ensures !InSynced(d.logs[m], e) {
      if m == n {
        BehindIsNewer(d.logs[n].records, before, b, d.logs[n].torn.value, e);
      } else {
        NotInOtherLog(d.logs, from, n, m, e);
        NotSynced(d.logs[m], e);
      }
    }
  }

  lemma SafeIffLogWhole(s: State, step: Step, e: Entry)
    requires Inv(s) && Enabled(s, step) && step.Append? && step.sync && Inv(Perform(s, step))
    requires e in BatchEntries(Batch(s.db.lastSequence + 1, step.ops))
    ensures Safe(Perform(s, step).disk, e) <==> s.disk.logs[s.db.logFile].torn.None?
  {
    hide DbOk, DiskOk, BatchEntries, Safe;
    if s.disk.logs[s.db.logFile].torn.None? {
      SyncedIsSafe(s, step, e);
    } else {
      InvSized(s);
      ManifestLogBound(s.disk, s.history, s.db);
      var n := s.db.logFile;
      var s' := Perform(s, step);
      BehindTearIsUnsafe(s'.disk, s'.history, n, s.disk.logs[n].records, Batch(s.db.lastSequence + 1, step.ops), e);
    }
  }

  /** Whether a synced write can be lost is known when it is written: every crash leaves it exactly when the log it
      goes to has no tear and, if the manifest was found torn, the tables that it listed then are still there. */
  lemma SyncedSurvivesIffLogWhole(s: State, step: Step, e: Entry)
    requires Inv(s) && Enabled(s, step) && step.Append? && step.sync
    requires e in BatchEntries(Batch(s.db.lastSequence + 1, step.ops))
    ensures var s' := Perform(s, step);
            (forall cuts, revert, tear :: Enabled(s', Crash(cuts, revert, tear)) ==>
               Left(Perform(s', Crash(cuts, revert, tear)), e))
            <==> s.disk.logs[s.db.logFile].torn.None?
                 && (s.disk.tear.Some? ==> Present(s.disk.tables, s.disk.tear.value.store.version))
  {
    hide DbOk, DiskOk, DiskSane, Fallback, BatchEntries, MayCutAll, MayRevert, MayTear, Crashed, Held, Appended,
         CanWrite, OnDisk, Present, SafeUnder, Left;
    var s' := Perform(s, step);
    StepKeepsInv(s, step);
    InvSized(s');
    TablesIntact(s');
    TablesThere(s'.disk, s'.history);
    SafeIffLogWhole(s, step, e);
    if s.disk.logs[s.db.logFile].torn.None? && s.disk.tear.Some? {
      SyncedUnderTear(s, step, e);
    }
    SurvivesIffSafe(s', e);
  }

  lemma SyncedUnderTear(s: State, step: Step, e: Entry)
    requires Inv(s) && Enabled(s, step) && step.Append? && step.sync && s.disk.logs[s.db.logFile].torn.None?
    requires e in BatchEntries(Batch(s.db.lastSequence + 1, step.ops)) && s.disk.tear.Some?
    ensures SafeUnder(Perform(s, step).disk, s.disk.tear.value, e)
  {
    hide DbOk, DiskOk, BatchEntries, ManifestOk, Intact, ReplayFrom, LogsOk, Numbers, SetNewer;
    var d' := Perform(s, step).disk;
    var log := d'.logs[s.db.logFile];
    RecordEntriesSnoc(s.disk.logs[s.db.logFile].records, Batch(s.db.lastSequence + 1, step.ops));
    assert log.records[..Firm(log)] == log.records;
    assert InSynced(d'.logs[s.db.logFile], e);
  }
}
