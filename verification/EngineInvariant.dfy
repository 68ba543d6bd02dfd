/** The invariant of the engine. */
module EngineInvariant {
  import opened Keys
  import opened Files
  import opened Plans
  import opened Layers
  import opened Lookup
  import opened Builders
  import opened Engine
  import opened EngineEdits
  import opened EngineRecords

  // ------------------------------------------------------------------ a version and what it stands for

  /** From its horizon on, the version answers for everything flushed into it. */
  ghost predicate Faithful(st: Store) {
    forall k, at :: st.horizon <= at ==> View(st.base, k, at) == View(VersionEntries(st.version), k, at)
  }

  ghost predicate StoreOk(st: Store) {
    && Layered(st.version) && AllOrdered(st.version) && NumbersIdentify(st.version)
    && Unambiguous(st.base) && VersionEntries(st.version) <= st.base
    && Faithful(st)
  }

  ghost predicate OnDisk(tables: map<nat, seq<Entry>>, v: Version) {
    forall l, f :: 0 <= l < |v| && f in v[l] ==> f.number in tables && tables[f.number] == f.entries
  }

  /** Of the tables of the version, those that are there have their contents. */
  ghost predicate Intact(tables: map<nat, seq<Entry>>, v: Version) {
    forall l, f :: 0 <= l < |v| && f in v[l] && f.number in tables ==> tables[f.number] == f.entries
  }

  lemma OnDiskIff(tables: map<nat, seq<Entry>>, v: Version)
    ensures OnDisk(tables, v) <==> Intact(tables, v) && Present(tables, v)
  {
    forall l, f | Present(tables, v) && 0 <= l < |v| && f in v[l] ensures f.number in tables {
      assert f.number in Numbers(v);
    }
  }

  ghost predicate AllBelow(numbers: set<nat>, bound: nat) {
    forall n :: n in numbers ==> n < bound
  }

  ghost predicate Counted(s: set<Entry>, last: nat) {
    forall e :: e in s ==> e.key.sequence <= last
  }

  // ------------------------------------------------------------------ on disk

  /** Logs from `from` on, and their records, are in order of their sequence numbers. */
  ghost predicate LogsOk(logs: map<nat, LogFile>, from: nat) {
    && (forall n, m :: n in logs && m in logs && from <= n < m ==>
          SetNewer(RecordEntries(logs[m].records), RecordEntries(logs[n].records)))
    && (forall n :: n in logs && from <= n ==> RecordsOk(logs[n].records))
  }

  ghost predicate RecordsOk(records: seq<Batch>) {
    forall i, j :: 0 <= i < j < |records| ==> SetNewer(BatchEntries(records[j]), BatchEntries(records[i]))
  }

  /** Synced records, and those before a tear, are among the records. */
  ghost predicate LogsSized(logs: map<nat, LogFile>) {
    forall n :: n in logs ==>
      logs[n].synced <= |logs[n].records| && (logs[n].torn.Some? ==> logs[n].torn.value <= |logs[n].records|)
  }

  /** The manifest and the logs it points to hold exactly the history. */
  ghost predicate Durable(m: Manifest, logs: map<nat, LogFile>, history: set<Entry>) {
    && history == m.store.base + ReplayFrom(logs, m.logNumber)
    && SetNewer(ReplayFrom(logs, m.logNumber), m.store.base)
  }

  ghost predicate ManifestOk(m: Manifest) {
    && StoreOk(m.store)
    && Counted(m.store.base, m.lastSequence) && m.store.horizon <= m.lastSequence < MAX_SEQUENCE
    && AllBelow(Numbers(m.store.version), m.nextFile) && m.logNumber < m.nextFile
    && Recorded(m.edits, m.store.version, m.nextFile)
  }

  ghost predicate DiskOk(d: Disk, history: set<Entry>) {
    && ManifestOk(d.manifest)
    && OnDisk(d.tables, d.manifest.store.version)
    && LogsOk(d.logs, d.manifest.logNumber) && LogsSized(d.logs)
    && Durable(d.manifest, d.logs, history)
    && Unambiguous(history) && Counted(history, MAX_SEQUENCE - 1)
  }

  /** The same of a disk on which tables may be missing. */
  ghost predicate DiskSane(d: Disk, history: set<Entry>) {
    && ManifestOk(d.manifest)
    && Intact(d.tables, d.manifest.store.version)
    && LogsOk(d.logs, d.manifest.logNumber) && LogsSized(d.logs)
    && Durable(d.manifest, d.logs, history)
    && Unambiguous(history) && Counted(history, MAX_SEQUENCE - 1)
  }

  lemma DiskOkIff(d: Disk, history: set<Entry>)
    ensures DiskOk(d, history) <==> DiskSane(d, history) && Present(d.tables, d.manifest.store.version)
  {
    hide ManifestOk, LogsOk, LogsSized, Durable, Unambiguous, Counted, OnDisk, Intact, Present;
    OnDiskIff(d.tables, d.manifest.store.version);
  }

  // ------------------------------------------------------------------ in memory

  /** History is what was flushed, what waits to be flushed, the memtable, and the record being written. */
  ghost predicate ContentOk(history: set<Entry>, base: set<Entry>, imm: set<Entry>, mem: set<Entry>,
                            writing: set<Entry>) {
    && history == base + imm + mem + writing
    && SetNewer(imm, base) && SetNewer(mem, base + imm) && SetNewer(writing, base + imm + mem)
  }

  ghost predicate WriterOk(writer: Option<Batch>, last: nat) {
    last < MAX_SEQUENCE && (writer.Some? ==> writer.value.start == last + 1 && last + |writer.value.ops| < MAX_SEQUENCE)
  }

  /** The logs from `logNumber` on hold what is only in memory. */
  ghost predicate LogsMatch(logs: map<nat, LogFile>, logNumber: nat, logFile: nat, imm: set<Entry>,
                            current: set<Entry>) {
    && logFile in logs && logNumber <= logFile
    && (forall n :: n in logs ==> n <= logFile)
    && Replay(logs, logNumber, logFile) == imm
    && RecordEntries(logs[logFile].records) == current
  }

  ghost predicate SnapshotsOk(snapshots: seq<nat>, horizon: nat, last: nat) {
    && horizon <= last
    && (forall i :: 0 <= i < |snapshots| ==> horizon <= snapshots[i] <= last)
    && (forall i, j :: 0 <= i < j < |snapshots| ==> snapshots[i] <= snapshots[j])
  }

  ghost predicate Readable(tables: map<nat, seq<Entry>>, v: Version, nextFile: nat) {
    OnDisk(tables, v) && AllBelow(Numbers(v), nextFile)
  }

  ghost predicate PinnedReadable(tables: map<nat, seq<Entry>>, pinned: multiset<Version>, nextFile: nat) {
    forall v :: v in pinned ==> Readable(tables, v, nextFile)
  }

  ghost predicate NumbersOk(db: Db) {
    AllBelow(db.pendingOutputs, db.nextFile) && db.logFile < db.nextFile
  }

  /** Number `n` names no file of a version in use. */
  ghost predicate Unlisted(db: Db, n: nat) {
    && n !in Numbers(db.store.version)
    && (forall v :: v in db.pinned ==> n !in Numbers(v))
    && (db.run.Some? ==> n !in Numbers(db.run.value.base))
  }

  ghost predicate ManifestMatches(m: Manifest, db: Db) {
    if db.job.Written? then m == db.job.next
    else
      && m.store == db.store && m.logNumber == db.logNumber && m.lastSequence <= db.lastSequence
         && m.nextFile <= db.nextFile
      && (db.job.Applying? || db.pendingOutputs !! SeenNumbers(m.edits))
  }

  // ------------------------------------------------------------------ background work

  ghost predicate RunOk(db: Db) {
    db.run.Some? ==>
      var r := db.run.value;
      && Installable(db.store.version, r.base, r.plan)
      && |r.base| == NUM_LEVELS
      && r.numbers <= db.pendingOutputs
      && (forall n :: n in r.numbers ==> Unlisted(db, n))
      && r.snapshot <= db.lastSequence
      && (forall i :: 0 <= i < |db.snapshots| ==> r.snapshot <= db.snapshots[i])
  }

  ghost predicate BuiltOk(tables: map<nat, seq<Entry>>, imm: set<Entry>, n: nat, file: Option<File>) {
    if file.None? then imm == {}
    else
      && ValidFile(file.value) && file.value.number == n && ToSet(file.value.entries) == imm
      && n in tables && tables[n] == file.value.entries
  }

  /** The numbers still taken once the edit is recorded and installed. */
  ghost function StillPending(db: Db, cause: Cause): set<nat> {
    if cause.ByMerge? && db.run.Some? then db.pendingOutputs - db.run.value.numbers else db.pendingOutputs
  }

  /** The manifest record about to be written, or written but not yet installed in memory. */
  ghost predicate NextOk(tables: map<nat, seq<Entry>>, db: Db, next: Manifest, cause: Cause) {
    && ManifestOk(next) && OnDisk(tables, next.store.version)
    && next.nextFile <= db.nextFile && next.lastSequence <= db.lastSequence
    && SnapshotsOk(db.snapshots, next.store.horizon, db.lastSequence)
    && StillPending(db, cause) !! SeenNumbers(next.edits)
    && match cause
       case ByFlush =>
         && db.imm.Some? && next.store.base == db.store.base + db.imm.value && next.logNumber == db.logFile
         && (db.run.Some? ==> Installable(next.store.version, db.run.value.base, db.run.value.plan)
                              && db.run.value.numbers !! Numbers(next.store.version))
       case ByMove => next.store.base == db.store.base && next.logNumber == db.logNumber && db.run.None?
       case ByMerge => next.store.base == db.store.base && next.logNumber == db.logNumber && db.run.Some?
  }

  /** The number taken for a flush is pending, newer than all files of the version, and names none in use. */
  ghost predicate FlushNumberOk(db: Db, n: nat) {
    && db.imm.Some? && n in db.pendingOutputs && Unlisted(db, n)
    && AllBelow(Numbers(db.store.version), n)
    && (db.run.Some? ==> n !in db.run.value.numbers)
  }

  ghost predicate JobOk(tables: map<nat, seq<Entry>>, db: Db) {
    match db.job
    case NoJob => true
    case Building(n) => FlushNumberOk(db, n)
    case Built(n, file) => FlushNumberOk(db, n) && BuiltOk(tables, db.imm.value, n, file)
    case Applying(next, cause) => NextOk(tables, db, next, cause)
    case Written(next, cause) => NextOk(tables, db, next, cause)
  }

  /** Files marked for deletion are no longer needed. */
  ghost predicate GarbageOk(db: Db) {
    && (db.deadTables != {} || db.deadLogs != {} ==> db.job.NoJob?)
    && (forall n :: n in db.deadTables ==> Unlisted(db, n) && n !in db.pendingOutputs)
    && (forall n :: n in db.deadLogs ==> n < db.logNumber)
  }

  ghost predicate DbOk(d: Disk, history: set<Entry>, db: Db) {
    && StoreOk(db.store)
    && ContentOk(history, db.store.base, ImmEntries(db), db.mem, WriterEntries(db))
    && Counted(db.store.base + ImmEntries(db) + db.mem, db.lastSequence)
    && WriterOk(db.writer, db.lastSequence)
    && LogsMatch(d.logs, db.logNumber, db.logFile, ImmEntries(db), db.mem + WriterEntries(db))
    && SnapshotsOk(db.snapshots, db.store.horizon, db.lastSequence)
    && Readable(d.tables, db.store.version, db.nextFile)
    && PinnedReadable(d.tables, db.pinned, db.nextFile)
    && (db.run.Some? ==> Readable(d.tables, db.run.value.base, db.nextFile))
    && NumbersOk(db)
    && ManifestMatches(d.manifest, db)
    && RunOk(db)
    && JobOk(d.tables, db)
    && GarbageOk(db)
  }

  // ------------------------------------------------------------------ a torn manifest

  /** What the manifest said when it was found torn: a crash can bring that back, with whatever tables and logs are
      still there then. */
  ghost predicate Fallback(d: Disk, m: Manifest, history: set<Entry>, db: Db) {
    && ManifestOk(m) && Intact(d.tables, m.store.version)
    && m.store.base <= history && ReplayFrom(d.logs, m.logNumber) <= history
    && SetNewer(ReplayFrom(d.logs, m.logNumber), m.store.base)
    && LogsOk(d.logs, m.logNumber) && m.logNumber <= db.logFile
    && m.nextFile <= db.nextFile && db.pendingOutputs !! Numbers(m.store.version)
  }

  ghost predicate TearOk(s: State) {
    s.disk.tear.Some? ==>
      if s.Up? then Fallback(s.disk, s.disk.tear.value, s.history, s.db) else s.disk.tear.value == s.disk.manifest
  }

  ghost predicate Inv(s: State) {
    && (if s.Up? then DiskOk(s.disk, s.history) && DbOk(s.disk, s.history, s.db) else DiskSane(s.disk, s.history))
    && TearOk(s)
  }
}
