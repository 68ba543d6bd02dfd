/** What a torn manifest may fall back to stays well-formed, so that a crash that brings it back leaves a disk that
    stands for what is left of the history, but for tables that may be missing. */
module EngineTears {
  import opened Keys
  import opened Files
  import opened Plans
  import opened Builders
  import opened Lookup
  import opened Layers
  import opened Engine
  import opened EngineRecords
  import opened EngineInvariant
  import opened EngineWrites
  import opened EngineRecovery

  // ------------------------------------------------------------------ steps that keep the disk

  /** The steps that change neither tables nor logs nor the history. */
  predicate Quiet(step: Step) {
    !(step.Append? || step.Switch? || step.WriteFlush? || step.WriteOutput? || step.DeleteTable? || step.DeleteLog?
      || step.Crash? || step.DieRecovering? || step.DieWithLog? || step.Recover?)
  }

  lemma QuietStep(s: State, step: Step)
    requires Enabled(s, step) && Quiet(step)
    ensures var s' := Perform(s, step);
            && s.Up? && s'.Up? && s'.history == s.history && s'.disk.tear == s.disk.tear
            && s'.disk.tables == s.disk.tables && s'.disk.logs == s.disk.logs
            && s'.db.logFile == s.db.logFile && s.db.nextFile <= s'.db.nextFile
            && s'.db.pendingOutputs <= s.db.pendingOutputs + {s.db.nextFile}
  {
    hide FlushedStore, FlushedEdit, Extended, MergedStore, MovedStore, MergeEdit, LiveNumbers, Max, BackgroundFree,
         CanApplyFlush, CanPick, CanApplyMerge, SmallestSnapshot;
  }

  lemma QuietFallback(d: Disk, m: Manifest, history: set<Entry>, db: Db, d': Disk, db': Db)
    requires Fallback(d, m, history, db) && d'.tables == d.tables && d'.logs == d.logs
    requires db'.logFile == db.logFile && db.nextFile <= db'.nextFile
    requires db'.pendingOutputs <= db.pendingOutputs + {db.nextFile}
    ensures Fallback(d', m, history, db')
  {
    hide StoreOk, Counted, Recorded, Intact, LogsOk, ReplayFrom, SetNewer, Numbers;
    assert db.nextFile !in Numbers(m.store.version);
  }

  // ------------------------------------------------------------------ tables

  lemma WriteFallback(d: Disk, m: Manifest, history: set<Entry>, db: Db, n: nat, es: seq<Entry>)
    requires Fallback(d, m, history, db) && n in db.pendingOutputs
    ensures Fallback(d.(tables := d.tables[n := es]), m, history, db)
  {
    hide ManifestOk, Intact, LogsOk, ReplayFrom, SetNewer, Numbers;
    WrittenIntact(d.tables, n, es, m.store.version);
  }

  lemma DeleteTableFallback(d: Disk, m: Manifest, history: set<Entry>, db: Db, n: nat)
    requires Fallback(d, m, history, db)
    ensures Fallback(d.(tables := d.tables - {n}), m, history, db)
  {
    hide ManifestOk, LogsOk, ReplayFrom, SetNewer, Numbers;
  }

  // ------------------------------------------------------------------ logs

  lemma LogGone(logs: map<nat, LogFile>, from: nat, n: nat)
    requires LogsOk(logs, from)
    ensures LogsOk(logs - {n}, from) && ReplayFrom(logs - {n}, from) <= ReplayFrom(logs, from)
  {
    hide RecordEntries, RecordsOk;
  }

  lemma DeleteLogFallback(d: Disk, m: Manifest, history: set<Entry>, db: Db, n: nat)
    requires Fallback(d, m, history, db)
    ensures Fallback(d.(logs := d.logs - {n}), m, history, db)
  {
    hide ManifestOk, LogsOk, ReplayFrom, Intact, Numbers;
    LogGone(d.logs, m.logNumber, n);
  }

  lemma SwitchFallback(d: Disk, m: Manifest, history: set<Entry>, db: Db, db': Db)
    requires Fallback(d, m, history, db) && db.nextFile !in d.logs && db.logFile <= db'.logFile
    requires db'.nextFile == db.nextFile + 1 && db'.pendingOutputs == db.pendingOutputs
    ensures Fallback(d.(logs := d.logs[db.nextFile := NewLog()]), m, history, db')
  {
    hide ManifestOk, LogsOk, ReplayFrom, Intact, Numbers, SetNewer;
    SwitchLogs(d.logs, m.logNumber, db.nextFile);
    EmptyLogReplay(d.logs, m.logNumber, db.nextFile);
  }

  lemma AppendFallback(d: Disk, m: Manifest, history: set<Entry>, db: Db, b: Batch, sync: bool)
    requires Fallback(d, m, history, db) && SetNewer(BatchEntries(b), history)
    requires db.logFile in d.logs && forall k :: k in d.logs ==> k <= db.logFile
    ensures Fallback(d.(logs := Appended(d.logs, db.logFile, b, sync)), m, history + BatchEntries(b),
                     db.(writer := Some(b)))
  {
    hide ManifestOk, LogsOk, Intact, Numbers, BatchEntries, RecordEntries, Appended, ReplayFrom;
    var from := m.logNumber;
    forall n | n in d.logs && from <= n ensures SetNewer(BatchEntries(b), RecordEntries(d.logs[n].records)) {
      InReplayFrom(d.logs, from, n);
    }
    AppendLogsOk(d.logs, from, db.logFile, b, sync);
    AppendReplay(d.logs, db.logFile, b, sync, from);
  }

  // ------------------------------------------------------------------ opening and crashing

  lemma {:induction false} RecoverIntact(tables: map<nat, seq<Entry>>, files: seq<File>, v: Version, bound: nat)
    requires Intact(tables, v) && AllBelow(Numbers(v), bound) && forall f :: f in files ==> bound < f.number
    ensures Intact(WithTables(tables, files), v)
    decreases |files|
  {
    hide Intact, Numbers;
    if files != [] {
      var n := |files| - 1;
      RecoverIntact(tables, files[..n], v, bound);
      WrittenIntact(WithTables(tables, files[..n]), files[n].number, files[n].entries, v);
    }
  }

  /** Recovery appends to a torn manifest: what it found there is what a crash may bring back. */
  lemma RecoverFallback(d: Disk, history: set<Entry>, o: Opening)
    requires DiskOk(d, history) && CanRecover(d, o) && |d.manifest.store.version| == NUM_LEVELS
    requires o.append && d.tear == Some(d.manifest)
    ensures var s := Reopened(d, history, o); Fallback(s.disk, d.manifest, history, s.db)
  {
    hide StoreOk, OnDisk, LogsOk, Unambiguous, ReplayFrom, Replay, Counted, AllValid, Successive, FileEntries,
         IsRecoveredSequence, ApplyEdit, RecoverEdit, SetNewer, Numbers, Reflushed, RecordEntries, WithTables,
         Recorded, RecoveredEdits, LogsSized, Intact;
    LogsAfterRecovery(d, history, o);
    OnDiskIff(d.tables, d.manifest.store.version);
    RecoverIntact(d.tables, o.files, d.manifest.store.version, d.manifest.nextFile);
  }

  /** The manifest comes back as it was when found torn: nothing but tables can be missing. */
  lemma KeepRevert(d: Disk, history: set<Entry>, db: Db, cuts: map<nat, Cut>)
    requires DiskOk(d, history) && d.tear.Some? && Fallback(d, d.tear.value, history, db)
    requires MayCutAll(d.logs, cuts) && MayRevert(d, true, true)
    ensures var d' := Crashed(d, cuts, true, true);
            DiskSane(d', history * Held(d')) && d'.tear == Some(d'.manifest)
  {
    hide ManifestOk, OnDisk, LogsOk, ReplayFrom, MayCutAll, CutLogs, LogsSized, Intact, Numbers;
    var m := d.tear.value;
    var d' := Crashed(d, cuts, true, true);
    CutReplay(d.logs, cuts, m.logNumber);
    assert history * Held(d') == Held(d');
    SubUnambiguous(Held(d'), history);
  }

  lemma SubUnambiguous(a: set<Entry>, b: set<Entry>)
    requires a <= b && Unambiguous(b)
    ensures Unambiguous(a)
  {
  }
}
