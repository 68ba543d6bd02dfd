/** Writers, readers and snapshots keep the invariant. */
module EngineWrites {
  import opened Keys
  import opened Plans
  import opened Layers
  import opened Lookup
  import opened Engine
  import opened EngineInvariant

  // ------------------------------------------------------------------ batches

  lemma BatchRange(b: Batch, e: Entry)
    requires e in BatchEntries(b)
    ensures b.start <= e.key.sequence < b.start + |b.ops|
  {
  }

  lemma BatchUnambiguous(b: Batch)
    ensures Unambiguous(BatchEntries(b))
  {
    forall x, y | x in BatchEntries(b) && y in BatchEntries(b) && x.key.sequence == y.key.sequence
      ensures x == y
    {
      var i :| 0 <= i < |b.ops| && x == OpEntry(b.ops[i], b.start + i);
      var j :| 0 <= j < |b.ops| && y == OpEntry(b.ops[j], b.start + j);
    }
  }

  lemma UnambiguousUnion(a: set<Entry>, b: set<Entry>)
    requires Unambiguous(a) && Unambiguous(b) && SetNewer(b, a)
    ensures Unambiguous(a + b)
  {
  }

  lemma RecordEntriesSnoc(records: seq<Batch>, b: Batch)
    ensures RecordEntries(records + [b]) == RecordEntries(records) + BatchEntries(b)
  {
    var all := records + [b];
    forall e | e in RecordEntries(all) ensures e in RecordEntries(records) + BatchEntries(b) {
      var i :| 0 <= i < |all| && e in BatchEntries(all[i]);
      if i < |records| {
        assert e in BatchEntries(records[i]);
      }
    }
    forall e | e in RecordEntries(records) ensures e in RecordEntries(all) {
      var i :| 0 <= i < |records| && e in BatchEntries(records[i]);
      assert e in BatchEntries(all[i]);
    }
    assert all[|records|] == b;
  }

  // ------------------------------------------------------------------ replay

  lemma InReplayFrom(logs: map<nat, LogFile>, from: nat, n: nat)
    requires n in logs && from <= n
    ensures RecordEntries(logs[n].records) <= ReplayFrom(logs, from)
  {
  }

  /** With `logFile` the last log, replay is what comes before it and what it holds. */
  lemma ReplaySplits(logs: map<nat, LogFile>, from: nat, last: nat)
    requires last in logs && from <= last && forall n :: n in logs ==> n <= last
    ensures ReplayFrom(logs, from) == Replay(logs, from, last) + RecordEntries(logs[last].records)
  {
    forall e | e in ReplayFrom(logs, from) ensures e in Replay(logs, from, last) + RecordEntries(logs[last].records) {
      var n :| n in logs && from <= n && e in RecordEntries(logs[n].records);
      if n != last {
        assert n in logs && from <= n < last && e in RecordEntries(logs[n].records);
      }
    }
    forall e | e in Replay(logs, from, last) ensures e in ReplayFrom(logs, from) {
      var n :| n in logs && from <= n < last && e in RecordEntries(logs[n].records);
      InReplayFrom(logs, from, n);
    }
    InReplayFrom(logs, from, last);
  }

  lemma ReplaySame(logs: map<nat, LogFile>, logs': map<nat, LogFile>, from: nat, to: nat)
    requires forall n :: from <= n < to ==> (n in logs <==> n in logs')
    requires forall n :: n in logs && n in logs' && from <= n < to ==> logs[n].records == logs'[n].records
    ensures Replay(logs, from, to) == Replay(logs', from, to)
  {
    forall e ensures e in Replay(logs, from, to) <==> e in Replay(logs', from, to) {
      if e in Replay(logs, from, to) {
        var n :| n in logs && from <= n < to && e in RecordEntries(logs[n].records);
        assert n in logs' && e in RecordEntries(logs'[n].records);
      }
      if e in Replay(logs', from, to) {
        var n :| n in logs' && from <= n < to && e in RecordEntries(logs'[n].records);
        assert n in logs && e in RecordEntries(logs[n].records);
      }
    }
  }

  /** In memory and in the logs: the same entries. */
  lemma ReplayIsMemory(d: Disk, history: set<Entry>, db: Db)
    requires DbOk(d, history, db)
    ensures ReplayFrom(d.logs, db.logNumber) == ImmEntries(db) + db.mem + WriterEntries(db)
    ensures ReplayFrom(d.logs, db.logFile) == db.mem + WriterEntries(db)
  {
    ReplaySplits(d.logs, db.logNumber, db.logFile);
    ReplaySplits(d.logs, db.logFile, db.logFile);
    assert Replay(d.logs, db.logFile, db.logFile) == {};
  }

  // ------------------------------------------------------------------ Append

  lemma AppendLogsOk(logs: map<nat, LogFile>, from: nat, n: nat, b: Batch, sync: bool)
    requires LogsOk(logs, from) && n in logs && from <= n && forall m :: m in logs ==> m <= n
    requires forall m :: m in logs && from <= m ==> SetNewer(BatchEntries(b), RecordEntries(logs[m].records))
    ensures LogsOk(Appended(logs, n, b, sync), from)
  {
    hide SetNewer, RecordEntries, BatchEntries;
    var logs' := Appended(logs, n, b, sync);
    RecordEntriesSnoc(logs[n].records, b);
    forall m | m in logs && from <= m < n
      ensures SetNewer(RecordEntries(logs[n].records) + BatchEntries(b), RecordEntries(logs[m].records))
    {
      SetNewerUnion(RecordEntries(logs[n].records), BatchEntries(b), RecordEntries(logs[m].records));
    }
    AppendRecordsOk(logs[n].records, b);
  }

  lemma SetNewerUnion(a: set<Entry>, b: set<Entry>, c: set<Entry>)
    requires SetNewer(a, c) && SetNewer(b, c)
    ensures SetNewer(a + b, c)
  {
  }

  lemma AppendRecordsOk(records: seq<Batch>, b: Batch)
    requires RecordsOk(records)
    requires SetNewer(BatchEntries(b), RecordEntries(records))
    ensures RecordsOk(records + [b])
  {
    hide BatchEntries;
    forall i, j | 0 <= i < j < |records + [b]|
      ensures SetNewer(BatchEntries((records + [b])[j]), BatchEntries((records + [b])[i]))
    {
      if j == |records| {
        forall y | y in BatchEntries(records[i]) ensures y in RecordEntries(records) {
        }
      }
    }
  }

  lemma AppendReplay(logs: map<nat, LogFile>, n: nat, b: Batch, sync: bool, from: nat)
    requires n in logs && from <= n && forall m :: m in logs ==> m <= n
    ensures ReplayFrom(Appended(logs, n, b, sync), from) == ReplayFrom(logs, from) + BatchEntries(b)
    ensures Replay(Appended(logs, n, b, sync), from, n) == Replay(logs, from, n)
  {
    var logs' := Appended(logs, n, b, sync);
    ReplaySame(logs, logs', from, n);
    ReplaySplits(logs, from, n);
    ReplaySplits(logs', from, n);
    RecordEntriesSnoc(logs[n].records, b);
  }

  /** The manifest points at or before the current log. */
  lemma ManifestLogBound(d: Disk, history: set<Entry>, db: Db)
    requires DbOk(d, history, db)
    ensures d.manifest.logNumber <= db.logFile
    ensures d.manifest.logNumber >= db.logNumber
    ensures db.logFile in d.logs && forall k :: k in d.logs ==> k <= db.logFile
  {
  }

  lemma HistoryBelow(d: Disk, history: set<Entry>, db: Db, b: Batch)
    requires DbOk(d, history, db) && DiskOk(d, history) && db.writer.None?
    requires b.start == db.lastSequence + 1
    ensures SetNewer(BatchEntries(b), history)
    ensures forall m :: m in d.logs && db.logNumber <= m ==> SetNewer(BatchEntries(b), RecordEntries(d.logs[m].records))
  {
    forall x, y | x in BatchEntries(b) && y in history ensures x.key.sequence > y.key.sequence {
      BatchRange(b, x);
      assert y in db.store.base + ImmEntries(db) + db.mem;
    }
    ReplayIsMemory(d, history, db);
    forall m | m in d.logs && db.logNumber <= m ensures SetNewer(BatchEntries(b), RecordEntries(d.logs[m].records)) {
      InReplayFrom(d.logs, db.logNumber, m);
    }
  }

  lemma AppendDurable(m: Manifest, logs: map<nat, LogFile>, history: set<Entry>, n: nat, b: Batch, sync: bool)
    requires Durable(m, logs, history)
    requires n in logs && m.logNumber <= n && forall k :: k in logs ==> k <= n
    requires SetNewer(BatchEntries(b), history)
    ensures Durable(m, Appended(logs, n, b, sync), history + BatchEntries(b))
  {
    AppendReplay(logs, n, b, sync, m.logNumber);
  }

  lemma AppendSized(logs: map<nat, LogFile>, n: nat, b: Batch, sync: bool)
    requires LogsSized(logs) && n in logs
    ensures LogsSized(Appended(logs, n, b, sync))
  {
  }

  lemma AppendHistory(history: set<Entry>, b: Batch)
    requires Unambiguous(history) && Counted(history, MAX_SEQUENCE - 1)
    requires SetNewer(BatchEntries(b), history) && b.start + |b.ops| <= MAX_SEQUENCE
    ensures Unambiguous(history + BatchEntries(b)) && Counted(history + BatchEntries(b), MAX_SEQUENCE - 1)
  {
    BatchUnambiguous(b);
    UnambiguousUnion(history, BatchEntries(b));
    forall e | e in BatchEntries(b) ensures e.key.sequence <= MAX_SEQUENCE - 1 {
      BatchRange(b, e);
    }
  }

  lemma AppendMatches(logs: map<nat, LogFile>, logNumber: nat, logFile: nat, imm: set<Entry>, current: set<Entry>,
                      b: Batch, sync: bool)
    requires LogsMatch(logs, logNumber, logFile, imm, current)
    ensures LogsMatch(Appended(logs, logFile, b, sync), logNumber, logFile, imm, current + BatchEntries(b))
  {
    AppendReplay(logs, logFile, b, sync, logNumber);
    RecordEntriesSnoc(logs[logFile].records, b);
  }

  lemma KeepAppend(d: Disk, history: set<Entry>, db: Db, ops: seq<Op>, sync: bool)
    requires DiskOk(d, history) && DbOk(d, history, db)
    requires CanWrite(db, ops) && db.logFile in d.logs
    ensures var b := Batch(db.lastSequence + 1, ops);
            var d' := d.(logs := Appended(d.logs, db.logFile, b, sync));
            DiskOk(d', history + BatchEntries(b)) && DbOk(d', history + BatchEntries(b), db.(writer := Some(b)))
  {
    hide StoreOk, ManifestOk, OnDisk, LogsOk, Durable, Unambiguous, Counted, SetNewer, LogsMatch, SnapshotsOk, Readable,
         PinnedReadable, NumbersOk, RunOk, JobOk, GarbageOk, BatchEntries, Appended;
    var b := Batch(db.lastSequence + 1, ops);
    var d', db' := d.(logs := Appended(d.logs, db.logFile, b, sync)), db.(writer := Some(b));
    HistoryBelow(d, history, db, b);
    ManifestLogBound(d, history, db);
    AppendDurable(d.manifest, d.logs, history, db.logFile, b, sync);
    AppendLogsOk(d.logs, d.manifest.logNumber, db.logFile, b, sync);
    AppendSized(d.logs, db.logFile, b, sync);
    AppendHistory(history, b);
    AppendMatches(d.logs, db.logNumber, db.logFile, ImmEntries(db), db.mem + WriterEntries(db), b, sync);
    AppendRest(d, d', db, db');
    assert db.mem + WriterEntries(db) + BatchEntries(b) == db'.mem + WriterEntries(db');
    assert history == db'.store.base + ImmEntries(db') + db'.mem;
  }

  /** The parts of the invariant that do not look at the writer, the logs or the memtable. */
  lemma AppendRest(d: Disk, d': Disk, db: Db, db': Db)
    requires db' == db.(writer := db'.writer) && d' == d.(logs := d'.logs)
    ensures RunOk(db) ==> RunOk(db')
    ensures JobOk(d.tables, db) ==> JobOk(d.tables, db')
    ensures GarbageOk(db) ==> GarbageOk(db')
    ensures NumbersOk(db) ==> NumbersOk(db')
  {
    assert forall n :: Unlisted(db, n) ==> Unlisted(db', n);
  }

  // ------------------------------------------------------------------ Insert

  lemma KeepInsert(d: Disk, history: set<Entry>, db: Db)
    requires DiskOk(d, history) && DbOk(d, history, db)
    requires db.writer.Some?
    ensures var b := db.writer.value;
            DbOk(d, history, db.(mem := db.mem + BatchEntries(b), lastSequence := db.lastSequence + |b.ops|,
                                 writer := None))
  {
    hide StoreOk, ManifestOk, OnDisk, LogsOk, Durable, Unambiguous, LogsMatch, Readable, PinnedReadable, GarbageOk,
         BatchEntries, RunOk, JobOk, SnapshotsOk, Counted;
    var b := db.writer.value;
    var db' := db.(mem := db.mem + BatchEntries(b), lastSequence := db.lastSequence + |b.ops|, writer := None);
    assert db.mem + WriterEntries(db) == db'.mem + WriterEntries(db');
    assert history == db'.store.base + ImmEntries(db') + db'.mem + WriterEntries(db');
    InsertCounted(db.store.base + ImmEntries(db) + db.mem, b, db.lastSequence);
    assert db.store.base + ImmEntries(db) + db.mem + BatchEntries(b) == db'.store.base + ImmEntries(db') + db'.mem;
    LaterSequence(d.tables, db, db');
    SnapshotsLater(db.snapshots, db.store.horizon, db.lastSequence, db'.lastSequence);
  }

  lemma InsertCounted(s: set<Entry>, b: Batch, last: nat)
    requires Counted(s, last) && b.start == last + 1
    ensures Counted(s + BatchEntries(b), last + |b.ops|)
  {
    forall e | e in BatchEntries(b) ensures e.key.sequence <= last + |b.ops| {
      BatchRange(b, e);
    }
  }

  lemma SnapshotsLater(snapshots: seq<nat>, horizon: nat, last: nat, last': nat)
    requires SnapshotsOk(snapshots, horizon, last) && last <= last'
    ensures SnapshotsOk(snapshots, horizon, last')
  {
  }

  /** Background work does not mind a larger last sequence number. */
  lemma LaterSequence(tables: map<nat, seq<Entry>>, db: Db, db': Db)
    requires db' == db.(mem := db'.mem, lastSequence := db'.lastSequence, writer := db'.writer)
    requires db.lastSequence <= db'.lastSequence
    ensures RunOk(db) ==> RunOk(db')
    ensures JobOk(tables, db) ==> JobOk(tables, db')
    ensures GarbageOk(db) ==> GarbageOk(db')
  {
    hide Installable, ManifestOk, OnDisk, BuiltOk, SnapshotsOk;
    assert forall n :: Unlisted(db, n) ==> Unlisted(db', n);
    if (db.job.Applying? || db.job.Written?) && JobOk(tables, db) {
      SnapshotsLater(db.snapshots, db.job.next.store.horizon, db.lastSequence, db'.lastSequence);
    }
  }

  // ------------------------------------------------------------------ Switch

  lemma KeepSwitch(d: Disk, history: set<Entry>, db: Db)
    requires DiskOk(d, history) && DbOk(d, history, db)
    requires db.writer.None? && db.imm.None?
    ensures var n := db.nextFile;
            var d' := d.(logs := d.logs[n := NewLog()]);
            DiskOk(d', history)
            && DbOk(d', history, db.(nextFile := n + 1, logFile := n, imm := Some(db.mem), mem := {}))
  {
    hide StoreOk, ManifestOk, OnDisk, Unambiguous, Readable, PinnedReadable, GarbageOk, RunOk, JobOk, SnapshotsOk,
         Counted, LogsOk, Durable, LogsMatch, NumbersOk;
    var n := db.nextFile;
    var d' := d.(logs := d.logs[n := NewLog()]);
    var db' := db.(nextFile := n + 1, logFile := n, imm := Some(db.mem), mem := {});
    ManifestLogBound(d, history, db);
    assert db.logFile < n by { LogFileBelow(db); }
    SwitchLogs(d.logs, d.manifest.logNumber, n);
    SwitchDurable(d.manifest, d.logs, history, n);
    assert db.mem + WriterEntries(db) == db.mem;
    SwitchMatches(d.logs, db.logNumber, db.logFile, n, db.mem);
    assert {} + WriterEntries(db') == {};
    assert db'.store.base + ImmEntries(db') + db'.mem == db.store.base + ImmEntries(db) + db.mem;
    SwitchRest(d.tables, db, db');
    MoreNumbers(d.tables, db, n + 1);
    assert NumbersOk(db') by { SwitchNumbers(db, db'); }
  }

  lemma LogFileBelow(db: Db)
    requires NumbersOk(db)
    ensures db.logFile < db.nextFile
  {
  }

  lemma SwitchNumbers(db: Db, db': Db)
    requires NumbersOk(db)
    requires db'.nextFile == db.nextFile + 1 && db'.pendingOutputs == db.pendingOutputs && db'.logFile == db.nextFile
    ensures NumbersOk(db')
  {
  }

  lemma SwitchLogs(logs: map<nat, LogFile>, from: nat, n: nat)
    requires LogsOk(logs, from)
    ensures LogsOk(logs[n := NewLog()], from)
  {
    assert RecordEntries([]) == {};
  }

  lemma EmptyLogReplay(logs: map<nat, LogFile>, from: nat, n: nat)
    requires n !in logs
    ensures ReplayFrom(logs[n := NewLog()], from) == ReplayFrom(logs, from)
  {
    var logs' := logs[n := NewLog()];
    assert RecordEntries([]) == {};
    forall e ensures e in ReplayFrom(logs', from) <==> e in ReplayFrom(logs, from) {
      if e in ReplayFrom(logs', from) {
        var m :| m in logs' && from <= m && e in RecordEntries(logs'[m].records);
        assert m in logs && e in RecordEntries(logs[m].records);
      }
      if e in ReplayFrom(logs, from) {
        var m :| m in logs && from <= m && e in RecordEntries(logs[m].records);
        assert m in logs' && e in RecordEntries(logs'[m].records);
      }
    }
  }

  lemma SwitchDurable(m: Manifest, logs: map<nat, LogFile>, history: set<Entry>, n: nat)
    requires Durable(m, logs, history) && n !in logs
    ensures Durable(m, logs[n := NewLog()], history)
  {
    EmptyLogReplay(logs, m.logNumber, n);
  }

  lemma SwitchMatches(logs: map<nat, LogFile>, logNumber: nat, logFile: nat, n: nat, mem: set<Entry>)
    requires LogsMatch(logs, logNumber, logFile, {}, mem) && logFile < n
    ensures LogsMatch(logs[n := NewLog()], logNumber, n, mem, {})
  {
    var logs' := logs[n := NewLog()];
    ReplaySplits(logs, logNumber, logFile);
    EmptyLogReplay(logs, logNumber, n);
    ReplaySplits(logs', logNumber, n);
    assert RecordEntries([]) == {};
  }

  lemma SwitchRest(tables: map<nat, seq<Entry>>, db: Db, db': Db)
    requires db.imm.None?
    requires db' == db.(nextFile := db.nextFile + 1, logFile := db'.logFile, imm := db'.imm, mem := db'.mem)
    ensures RunOk(db) ==> RunOk(db')
    ensures JobOk(tables, db) ==> JobOk(tables, db')
    ensures GarbageOk(db) ==> GarbageOk(db')
  {
    hide Installable, ManifestOk, OnDisk, BuiltOk, SnapshotsOk;
    assert forall n :: Unlisted(db, n) ==> Unlisted(db', n);
  }

  lemma MoreNumbers(tables: map<nat, seq<Entry>>, db: Db, n: nat)
    requires db.nextFile <= n
    ensures Readable(tables, db.store.version, db.nextFile) ==> Readable(tables, db.store.version, n)
    ensures PinnedReadable(tables, db.pinned, db.nextFile) ==> PinnedReadable(tables, db.pinned, n)
    ensures db.run.Some? && Readable(tables, db.run.value.base, db.nextFile) ==> Readable(tables, db.run.value.base, n)
  {
    hide OnDisk;
  }

  // ------------------------------------------------------------------ snapshots

  lemma KeepTakeSnapshot(d: Disk, history: set<Entry>, db: Db)
    requires DbOk(d, history, db)
    ensures DbOk(d, history, db.(snapshots := db.snapshots + [db.lastSequence]))
  {
    hide StoreOk, ManifestOk, OnDisk, Unambiguous, Readable, PinnedReadable, Counted, LogsMatch, ContentOk,
         Installable, BuiltOk;
    var db' := db.(snapshots := db.snapshots + [db.lastSequence]);
    assert forall n :: Unlisted(db, n) ==> Unlisted(db', n);
  }

  lemma KeepReleaseSnapshot(d: Disk, history: set<Entry>, db: Db, i: nat)
    requires DbOk(d, history, db) && i < |db.snapshots|
    ensures DbOk(d, history, db.(snapshots := db.snapshots[..i] + db.snapshots[i + 1..]))
  {
    hide StoreOk, ManifestOk, OnDisk, Unambiguous, Readable, PinnedReadable, Counted, LogsMatch, ContentOk,
         Installable, BuiltOk;
    var db' := db.(snapshots := db.snapshots[..i] + db.snapshots[i + 1..]);
    assert forall j :: 0 <= j < |db'.snapshots| ==> db'.snapshots[j] == db.snapshots[if j < i then j else j + 1];
    assert forall n :: Unlisted(db, n) ==> Unlisted(db', n);
  }

  // ------------------------------------------------------------------ readers

  lemma KeepPin(d: Disk, history: set<Entry>, db: Db)
    requires DbOk(d, history, db)
    ensures DbOk(d, history, db.(pinned := db.pinned + multiset{db.store.version}))
  {
    hide StoreOk, ManifestOk, OnDisk, Unambiguous, Readable, Counted, LogsMatch, ContentOk, Installable, BuiltOk,
         SnapshotsOk;
    var db' := db.(pinned := db.pinned + multiset{db.store.version});
    assert forall v :: v in db'.pinned <==> v in db.pinned || v == db.store.version;
    assert forall n :: Unlisted(db, n) ==> Unlisted(db', n);
  }

  lemma KeepUnpin(d: Disk, history: set<Entry>, db: Db, v: Version)
    requires DbOk(d, history, db) && v in db.pinned
    ensures DbOk(d, history, db.(pinned := db.pinned - multiset{v}))
  {
    hide StoreOk, ManifestOk, OnDisk, Unambiguous, Readable, Counted, LogsMatch, ContentOk, Installable, BuiltOk,
         SnapshotsOk;
    var db' := db.(pinned := db.pinned - multiset{v});
    assert forall u :: u in db'.pinned ==> u in db.pinned;
    assert forall n :: Unlisted(db, n) ==> Unlisted(db', n);
  }
}
