/** Writing the manifest, installing a version and removing files keep the invariant. */
module EngineDisk {
  import opened Keys
  import opened Plans
  import opened Layers
  import opened Lookup
  import opened Engine
  import opened EngineInvariant
  import opened EngineWrites

  // ------------------------------------------------------------------ WriteManifest

  lemma LaterLogsOk(logs: map<nat, LogFile>, from: nat, later: nat)
    requires LogsOk(logs, from) && from <= later
    ensures LogsOk(logs, later)
  {
    hide RecordsOk, SetNewer;
  }

  /** The record to be written and the logs it points to hold the history. */
  lemma NextDurable(d: Disk, history: set<Entry>, db: Db, next: Manifest, cause: Cause)
    requires DbOk(d, history, db) && NextOk(d.tables, db, next, cause)
    ensures Durable(next, d.logs, history) && db.logNumber <= next.logNumber
  {
    hide StoreOk, OnDisk, Unambiguous, Readable, PinnedReadable, Counted, Installable, SnapshotsOk, RunOk, GarbageOk,
         NumbersOk, ManifestMatches, RecordEntries, ManifestOk;
    ReplayIsMemory(d, history, db);
    if cause.ByFlush? {
      assert history == (db.store.base + db.imm.value) + (db.mem + WriterEntries(db));
    } else {
      assert history == db.store.base + (ImmEntries(db) + db.mem + WriterEntries(db));
    }
  }

  lemma KeepWriteManifest(d: Disk, history: set<Entry>, db: Db)
    requires DiskOk(d, history) && DbOk(d, history, db) && db.job.Applying?
    ensures DiskOk(d.(manifest := db.job.next), history)
    ensures DbOk(d.(manifest := db.job.next), history, db.(job := Written(db.job.next, db.job.cause)))
  {
    hide StoreOk, OnDisk, Unambiguous, Readable, PinnedReadable, Counted, LogsMatch, ContentOk, Installable,
         SnapshotsOk, LogsOk, Durable, ManifestOk;
    var next := db.job.next;
    NextDurable(d, history, db, next, db.job.cause);
    LaterLogsOk(d.logs, db.logNumber, next.logNumber);
    var db' := db.(job := Written(next, db.job.cause));
    assert forall m :: Unlisted(db, m) ==> Unlisted(db', m);
  }

  // ------------------------------------------------------------------ Install

  lemma NextReadable(tables: map<nat, seq<Entry>>, db: Db, next: Manifest, cause: Cause)
    requires NextOk(tables, db, next, cause)
    ensures StoreOk(next.store) && Readable(tables, next.store.version, db.nextFile)
  {
    hide StoreOk, OnDisk, Counted, Installable;
  }

  lemma FlushedContent(history: set<Entry>, base: set<Entry>, imm: set<Entry>, mem: set<Entry>, writing: set<Entry>)
    requires ContentOk(history, base, imm, mem, writing)
    ensures ContentOk(history, base + imm, {}, mem, writing)
  {
    assert (base + imm) + {} == base + imm;
  }

  lemma FlushedLogs(logs: map<nat, LogFile>, logNumber: nat, logFile: nat, imm: set<Entry>, current: set<Entry>)
    requires LogsMatch(logs, logNumber, logFile, imm, current)
    ensures LogsMatch(logs, logFile, logFile, {}, current)
  {
    assert Replay(logs, logFile, logFile) == {};
  }

  lemma KeepInstallFlush(d: Disk, history: set<Entry>, db: Db)
    requires DbOk(d, history, db) && db.job.Written? && db.job.cause.ByFlush?
    ensures DbOk(d, history,
                 db.(store := db.job.next.store, logNumber := db.job.next.logNumber, job := NoJob, imm := None))
  {
    hide StoreOk, OnDisk, Unambiguous, Readable, PinnedReadable, Counted, LogsMatch, ContentOk, Installable,
         SnapshotsOk, ManifestOk;
    var next := db.job.next;
    var db' := db.(store := next.store, logNumber := next.logNumber, job := NoJob, imm := None);
    NextReadable(d.tables, db, next, ByFlush);
    FlushedContent(history, db.store.base, db.imm.value, db.mem, WriterEntries(db));
    FlushedLogs(d.logs, db.logNumber, db.logFile, db.imm.value, db.mem + WriterEntries(db));
    assert next.store.base + {} + db.mem == db.store.base + db.imm.value + db.mem;
    if db.run.Some? {
      forall n | n in db.run.value.numbers ensures Unlisted(db', n) {
        assert Unlisted(db, n);
      }
    }
  }

  lemma KeepInstallMove(d: Disk, history: set<Entry>, db: Db)
    requires DbOk(d, history, db) && db.job.Written? && db.job.cause.ByMove?
    ensures DbOk(d, history, db.(store := db.job.next.store, logNumber := db.job.next.logNumber, job := NoJob))
  {
    hide StoreOk, OnDisk, Unambiguous, Readable, PinnedReadable, Counted, LogsMatch, ContentOk, Installable,
         SnapshotsOk, ManifestOk;
    NextReadable(d.tables, db, db.job.next, ByMove);
  }

  lemma KeepInstallMerge(d: Disk, history: set<Entry>, db: Db)
    requires DbOk(d, history, db) && db.job.Written? && db.job.cause.ByMerge? && db.run.Some?
    ensures DbOk(d, history,
                 db.(store := db.job.next.store, logNumber := db.job.next.logNumber, job := NoJob, run := None,
                                 pendingOutputs := db.pendingOutputs - db.run.value.numbers))
  {
    hide StoreOk, OnDisk, Unambiguous, Readable, PinnedReadable, Counted, LogsMatch, ContentOk, Installable,
         SnapshotsOk, ManifestOk;
    NextReadable(d.tables, db, db.job.next, ByMerge);
  }

  lemma KeepInstall(d: Disk, history: set<Entry>, db: Db)
    requires DbOk(d, history, db) && db.job.Written? && (db.job.cause.ByMerge? ==> db.run.Some?)
    ensures DbOk(d, history, Installed'(db))
  {
    hide DbOk;
    match db.job.cause
    case ByFlush => KeepInstallFlush(d, history, db);
    case ByMove => KeepInstallMove(d, history, db);
    case ByMerge => KeepInstallMerge(d, history, db);
  }

  // ------------------------------------------------------------------ removing files

  lemma DeadUnlisted(d: Disk, db: Db, n: nat)
    requires n !in LiveNumbers(db)
    ensures Unlisted(db, n) && n !in db.pendingOutputs
  {
    hide Numbers;
  }

  lemma KeepFindGarbage(d: Disk, history: set<Entry>, db: Db)
    requires DbOk(d, history, db) && BackgroundFree(db)
    ensures DbOk(d, history, db.(deadTables := d.tables.Keys - LiveNumbers(db),
                                 deadLogs := set n | n in d.logs && n < db.logNumber))
  {
    hide StoreOk, OnDisk, Unambiguous, Readable, PinnedReadable, Counted, LogsMatch, ContentOk, Installable,
         SnapshotsOk, LiveNumbers;
    var db' := db.(deadTables := d.tables.Keys - LiveNumbers(db), deadLogs := set n | n in d.logs && n < db.logNumber);
    assert forall m :: Unlisted(db, m) ==> Unlisted(db', m);
    forall n | n in db'.deadTables ensures Unlisted(db', n) && n !in db'.pendingOutputs {
      DeadUnlisted(d, db, n);
    }
  }

  lemma TableDeleted(tables: map<nat, seq<Entry>>, n: nat, v: Version)
    requires OnDisk(tables, v) && n !in Numbers(v)
    ensures OnDisk(tables - {n}, v)
  {
    forall l, f | 0 <= l < |v| && f in v[l] ensures f.number != n {
      assert f.number in Numbers(v);
    }
  }

  lemma TableDeletedPinned(tables: map<nat, seq<Entry>>, n: nat, db: Db)
    requires Unlisted(db, n)
    requires Readable(tables, db.store.version, db.nextFile)
    requires PinnedReadable(tables, db.pinned, db.nextFile)
    requires db.run.Some? ==> Readable(tables, db.run.value.base, db.nextFile)
    ensures Readable(tables - {n}, db.store.version, db.nextFile)
    ensures PinnedReadable(tables - {n}, db.pinned, db.nextFile)
    ensures db.run.Some? ==> Readable(tables - {n}, db.run.value.base, db.nextFile)
  {
    hide OnDisk;
    TableDeleted(tables, n, db.store.version);
    forall v | v in db.pinned ensures Readable(tables - {n}, v, db.nextFile) {
      TableDeleted(tables, n, v);
    }
    if db.run.Some? {
      TableDeleted(tables, n, db.run.value.base);
    }
  }

  lemma KeepDeleteTable(d: Disk, history: set<Entry>, db: Db, n: nat)
    requires DiskOk(d, history) && DbOk(d, history, db) && n in db.deadTables
    ensures DiskOk(d.(tables := d.tables - {n}), history)
    ensures DbOk(d.(tables := d.tables - {n}), history, db.(deadTables := db.deadTables - {n}))
  {
    hide StoreOk, OnDisk, Unambiguous, Readable, PinnedReadable, Counted, LogsMatch, ContentOk, Installable,
         SnapshotsOk, LogsOk, Durable, ManifestOk;
    var db' := db.(deadTables := db.deadTables - {n});
    assert forall m :: Unlisted(db, m) ==> Unlisted(db', m);
    TableDeletedPinned(d.tables, n, db);
    TableDeleted(d.tables, n, d.manifest.store.version);
  }

  lemma ReplayFromSame(logs: map<nat, LogFile>, logs': map<nat, LogFile>, from: nat)
    requires forall n :: from <= n ==> (n in logs <==> n in logs')
    requires forall n :: n in logs && n in logs' && from <= n ==> logs[n].records == logs'[n].records
    ensures ReplayFrom(logs, from) == ReplayFrom(logs', from)
  {
    forall e ensures e in ReplayFrom(logs, from) <==> e in ReplayFrom(logs', from) {
      if e in ReplayFrom(logs, from) {
        var n :| n in logs && from <= n && e in RecordEntries(logs[n].records);
        assert n in logs' && e in RecordEntries(logs'[n].records);
      }
      if e in ReplayFrom(logs', from) {
        var n :| n in logs' && from <= n && e in RecordEntries(logs'[n].records);
        assert n in logs && e in RecordEntries(logs[n].records);
      }
    }
  }

  lemma LogDeleted(logs: map<nat, LogFile>, n: nat, m: Manifest, history: set<Entry>)
    requires LogsOk(logs, m.logNumber) && Durable(m, logs, history) && n < m.logNumber
    ensures LogsOk(logs - {n}, m.logNumber) && Durable(m, logs - {n}, history)
  {
    hide RecordsOk, RecordEntries;
    ReplayFromSame(logs, logs - {n}, m.logNumber);
  }

  lemma LogDeletedMatch(logs: map<nat, LogFile>, n: nat, logNumber: nat, logFile: nat, imm: set<Entry>,
                        current: set<Entry>)
    requires LogsMatch(logs, logNumber, logFile, imm, current) && n < logNumber
    ensures LogsMatch(logs - {n}, logNumber, logFile, imm, current)
  {
    ReplaySame(logs, logs - {n}, logNumber, logFile);
  }

  lemma KeepDeleteLog(d: Disk, history: set<Entry>, db: Db, n: nat)
    requires DiskOk(d, history) && DbOk(d, history, db) && n in db.deadLogs
    ensures DiskOk(d.(logs := d.logs - {n}), history)
    ensures DbOk(d.(logs := d.logs - {n}), history, db.(deadLogs := db.deadLogs - {n}))
  {
    hide StoreOk, OnDisk, Unambiguous, Readable, PinnedReadable, Counted, LogsMatch, ContentOk, Installable,
         SnapshotsOk, LogsOk, Durable, ManifestOk;
    var db' := db.(deadLogs := db.deadLogs - {n});
    assert forall m :: Unlisted(db, m) ==> Unlisted(db', m);
    LogDeleted(d.logs, n, d.manifest, history);
    LogDeletedMatch(d.logs, n, db.logNumber, db.logFile, ImmEntries(db), db.mem + WriterEntries(db));
  }
}
