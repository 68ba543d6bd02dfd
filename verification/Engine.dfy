/** The storage engine as a state machine: what is in memory, what is on disk, and every step that
    changes either (db/db_impl.cc).

    A step is a section of code run under the mutex, or one file operation done outside it.  One
    background thread flushes, compacts and removes files; writers, readers and snapshots
    interleave with it; a crash may come between any two steps. */
module Engine {
  import opened Keys
  import opened Files
  import opened Plans
  import opened Picking
  import opened Layers
  import opened Invisibility
  import opened Builders
  import opened Lookup
  import Manifests

  // ------------------------------------------------------------------ logs

  datatype Op = Put(key: UserKey, value: Bytes) | Remove(key: UserKey)

  /** A log record: operation `i` has sequence number `start + i`. */
  datatype Batch = Batch(start: nat, ops: seq<Op>)

  function OpEntry(op: Op, n: nat): Entry {
    match op
    case Put(k, v) => Entry(InternalKey(k, n, Value), v)
    case Remove(k) => Entry(InternalKey(k, n, Deletion), [])
  }

  function BatchEntries(b: Batch): set<Entry> {
    set i | 0 <= i < |b.ops| :: OpEntry(b.ops[i], b.start + i)
  }

  function RecordEntries(records: seq<Batch>): set<Entry> {
    set i, e | 0 <= i < |records| && e in BatchEntries(records[i]) :: e
  }

  /** A log file.  The bytes of the first `synced` records survive every crash.  If `torn` is `Some(t)`, bytes that
      are no whole record follow the first `t` records; what is appended behind them may not be found by a reader. */
  datatype LogFile = LogFile(records: seq<Batch>, synced: nat, torn: Option<nat>)

  function NewLog(): LogFile {
    LogFile([], 0, None)
  }

  /** What a replay of the logs numbered `from` up to but not including `to` yields. */
  function Replay(logs: map<nat, LogFile>, from: nat, to: nat): set<Entry> {
    set n, e | n in logs && from <= n < to && e in RecordEntries(logs[n].records) :: e
  }

  function ReplayFrom(logs: map<nat, LogFile>, from: nat): set<Entry> {
    set n, e | n in logs && from <= n && e in RecordEntries(logs[n].records) :: e
  }

  // ------------------------------------------------------------------ state

  /** A version with what it stands for: the entries flushed into it, and the oldest sequence number
      at which it still answers for all of them. */
  datatype Store = Store(version: Version, base: set<Entry>, horizon: nat)

  /** What a reader of the manifest finds: the edits recorded in it, what they amount to, and the numbers. */
  datatype Manifest = Manifest(store: Store, edits: seq<Edit>, logNumber: nat, nextFile: nat, lastSequence: nat)

  /** If `tear` is `Some(m)`, the manifest was found torn when it said `m`: what is appended since may not be read. */
  datatype Disk = Disk(tables: map<nat, seq<Entry>>, logs: map<nat, LogFile>, manifest: Manifest,
                       tear: Option<Manifest>)

  /** What is on disk: what was flushed, and what the logs the manifest points to hold. */
  function Held(d: Disk): set<Entry> {
    d.manifest.store.base + ReplayFrom(d.logs, d.manifest.logNumber)
  }

  /** A merge under way: its inputs, the version they were chosen on, the oldest snapshot at its
      start, and the file numbers it has taken for its outputs. */
  datatype Run = Run(plan: Plan, base: Version, snapshot: nat, numbers: set<nat>)

  /** What the background thread has in hand besides a merge.  Building: a table of the old memtable
      is being written.  Built: it is on disk (no file if the memtable was empty).  Applying and
      Written: LogAndApply before and after the manifest record, with the mutex released. */
  datatype Job = NoJob | Building(number: nat) | Built(number: nat, file: Option<File>)
               | Applying(next: Manifest, cause: Cause) | Written(next: Manifest, cause: Cause)

  datatype Cause = ByFlush | ByMove | ByMerge

  datatype Db = Db(
    mem: set<Entry>, imm: Option<set<Entry>>, store: Store, pinned: multiset<Version>,
    lastSequence: nat, nextFile: nat, logNumber: nat, logFile: nat,
    snapshots: seq<nat>, pendingOutputs: set<nat>, writer: Option<Batch>,
    run: Option<Run>, job: Job, deadTables: set<nat>, deadLogs: set<nat>)

  datatype State = Down(disk: Disk, history: set<Entry>) | Up(disk: Disk, history: set<Entry>, db: Db)

  function ImmEntries(db: Db): set<Entry> {
    if db.imm.Some? then db.imm.value else {}
  }

  function WriterEntries(db: Db): set<Entry> {
    if db.writer.Some? then BatchEntries(db.writer.value) else {}
  }

  function Numbers(v: Version): set<nat> {
    set l, f | 0 <= l < |v| && f in v[l] :: f.number
  }

  /** Versions that must stay readable: the current one, those pinned by readers, and that of a merge. */
  predicate InUse(db: Db, v: Version) {
    v == db.store.version || v in db.pinned || (db.run.Some? && v == db.run.value.base)
  }

  function LiveNumbers(db: Db): set<nat> {
    Numbers(db.store.version) + (set v, n | v in db.pinned && n in Numbers(v) :: n)
    + (if db.run.Some? then Numbers(db.run.value.base) else {}) + db.pendingOutputs
  }

  predicate BackgroundFree(db: Db) {
    db.job.NoJob? && db.deadTables == {} && db.deadLogs == {}
  }

  // ------------------------------------------------------------------ edits

  function FlushEdit(level: nat, f: File): Edit {
    Edit({}, [(level, f)])
  }

  function MergeEdit(p: Plan, outs: seq<File>): Edit {
    Edit((set f | f in p.in0 :: (p.level, f.number)) + (set f | f in p.in1 :: (p.level + 1, f.number)),
         seq(|outs|, i requires 0 <= i < |outs| => (p.level + 1, outs[i])))
  }

  function Max(a: nat, b: nat): nat {
    if a < b then b else a
  }

  // ------------------------------------------------------------------ steps

  datatype Step =
    | Append(ops: seq<Op>, sync: bool)
    | Insert
    | Switch
    | TakeSnapshot
    | ReleaseSnapshot(index: nat)
    | Pin
    | Unpin(version: Version)
    | BeginFlush
    | WriteFlush(entries: seq<Entry>, size: nat)
    | ApplyFlush(level: nat)
    | PickMerge(plan: Plan)
    | OpenOutput
    | WriteOutput(number: nat, entries: seq<Entry>)
    | ApplyMerge(input: seq<Entry>, outs: seq<File>)
    | ApplyMove(plan: Plan)
    | WriteManifest
    | Install
    | FindGarbage
    | DeleteTable(number: nat)
    | DeleteLog(number: nat)
    | Crash(cuts: map<nat, Cut>, revert: bool, tear: bool)
    | DieRecovering(number: nat, entries: seq<Entry>)
    | DieWithLog(number: nat)
    | Recover(opening: Opening)

  /** What a crash does to a log: the first `keep` records are on disk; of those behind an older tear the ones
      before `skip` are not found; and the file may end in the middle of a record. */
  datatype Cut = Cut(keep: nat, skip: nat, torn: bool)

  /** What recovery decides: the tables it writes, the log it goes on using, whether it appends to the manifest it
      found, whether it records an edit at all, and the numbers it starts with. */
  datatype Opening = Opening(files: seq<File>, reuse: Option<nat>, append: bool, save: bool, next: nat, last: nat)

  function TableOf(number: nat, size: nat, entries: seq<Entry>): Option<File> {
    if entries == [] then None
    else Some(File(number, size, entries[0].key, entries[|entries| - 1].key, entries))
  }

  /** The oldest live snapshot, or the last sequence number if there is none. */
  function SmallestSnapshot(db: Db): nat {
    if db.snapshots == [] then db.lastSequence else db.snapshots[0]
  }

  /** Some of what was appended behind a tear is among the records on disk. */
  predicate PassesTear(log: LogFile, c: Cut) {
    log.torn.Some? && log.torn.value < c.keep
  }

  /** Synced records stay on disk.  Nothing is hidden but behind a tear, and a tear nothing was appended to stays. */
  predicate MayCut(log: LogFile, c: Cut) {
    && log.synced <= c.keep <= |log.records|
    && (PassesTear(log, c) ==> log.torn.value <= c.skip <= c.keep)
    && (log.torn == Some(c.keep) ==> c.torn)
  }

  function CutLog(log: LogFile, c: Cut): LogFile
    requires MayCut(log, c)
  {
    var left :=
      if PassesTear(log, c) then log.records[..log.torn.value] + log.records[c.skip..c.keep]
      else log.records[..c.keep];
    LogFile(left, if PassesTear(log, c) && log.torn.value < log.synced then log.torn.value else log.synced,
            if c.torn then Some(|left|) else None)
  }

  ghost predicate MayCutAll(logs: map<nat, LogFile>, cuts: map<nat, Cut>) {
    forall n :: n in logs ==> n in cuts && MayCut(logs[n], cuts[n])
  }

  function CutLogs(logs: map<nat, LogFile>, cuts: map<nat, Cut>): map<nat, LogFile>
    requires MayCutAll(logs, cuts)
  {
    map n | n in logs :: CutLog(logs[n], cuts[n])
  }

  /** What is appended to a torn manifest may be lost, and a tear nothing was appended to stays. */
  predicate MayRevert(d: Disk, revert: bool, tear: bool) {
    && (revert ==> d.tear.Some? && tear)
    && (d.tear == Some(d.manifest) ==> tear)
  }

  /** A crash tears the manifest only while a record is being appended to it: by LogAndApply, or during recovery. */
  predicate MayTear(s: State, tear: bool) {
    tear ==> s.disk.tear.Some? || s.Down? || s.db.job.Applying?
  }

  function Crashed(d: Disk, cuts: map<nat, Cut>, revert: bool, tear: bool): Disk
    requires MayCutAll(d.logs, cuts) && MayRevert(d, revert, tear)
  {
    var m := if revert then d.tear.value else d.manifest;
    Disk(d.tables, CutLogs(d.logs, cuts), m, if tear then Some(m) else None)
  }

  /** The entries that recovery writes to new level-0 tables: all logs, but not the one it keeps using. */
  function Reflushed(d: Disk, reuse: Option<nat>): set<Entry> {
    if reuse.Some? then Replay(d.logs, d.manifest.logNumber, reuse.value) else ReplayFrom(d.logs, d.manifest.logNumber)
  }

  function FileEntries(files: seq<File>): set<Entry> {
    set i, e | 0 <= i < |files| && e in files[i].entries :: e
  }

  /** The files hold consecutive runs of sequence numbers, and their numbers increase. */
  ghost predicate Successive(files: seq<File>) {
    forall i, j :: 0 <= i < j < |files| ==>
      files[i].number < files[j].number && SetNewer(ToSet(files[j].entries), ToSet(files[i].entries))
  }

  function WithTables(tables: map<nat, seq<Entry>>, files: seq<File>): map<nat, seq<Entry>> {
    if files == [] then tables
    else var f := files[|files| - 1]; WithTables(tables, files[..|files| - 1])[f.number := f.entries]
  }

  function RecoverEdit(files: seq<File>): Edit {
    Edit({}, seq(|files|, i requires 0 <= i < |files| => (0, files[i])))
  }

  /** `last` is not below the recorded sequence number nor any replayed one. */
  ghost predicate IsRecoveredSequence(d: Disk, last: nat) {
    && d.manifest.lastSequence <= last < MAX_SEQUENCE
    && forall e :: e in ReplayFrom(d.logs, d.manifest.logNumber) ==> e.key.sequence <= last
  }

  ghost predicate CanRecover(d: Disk, o: Opening) {
    && (o.reuse.Some? ==>
          && o.reuse.value in d.logs && d.manifest.logNumber <= o.reuse.value
          && forall n :: n in d.logs ==> n <= o.reuse.value)
    && (o.save || (o.append && o.files == []))
    && AllValid(o.files) && Successive(o.files) && FileEntries(o.files) == Reflushed(d, o.reuse)
    && d.manifest.nextFile < o.next
    && (forall n :: n in d.logs ==> n < o.next)
    && (forall f :: f in o.files ==> d.manifest.nextFile < f.number < o.next)
    && IsRecoveredSequence(d, o.last)
  }

  /** Every table that the version lists is there.  Opening a database looks no further. */
  predicate Present(tables: map<nat, seq<Entry>>, v: Version) {
    Numbers(v) <= tables.Keys
  }

  ghost predicate CanWrite(db: Db, ops: seq<Op>) {
    db.writer.None? && db.lastSequence + |ops| < MAX_SEQUENCE
  }

  ghost predicate CanApplyFlush(db: Db, level: nat) {
    && db.job.Built? && db.imm.Some? && level <= MAX_MEM_COMPACT_LEVEL
    && |db.store.version| == NUM_LEVELS
    && (level > 0 && db.job.file.Some? ==>
          ClearTo(db.store.version, level, db.job.file.value.smallest.user, db.job.file.value.largest.user))
    && (db.run.Some? && db.job.file.Some? && level == db.run.value.plan.level + 1 ==>
          Aside(db.job.file.value, db.run.value.plan.in0 + db.run.value.plan.in1))
  }

  ghost predicate CanPick(db: Db, p: Plan) {
    BackgroundFree(db) && db.run.None? && db.imm.None? && PlanClosed(db.store.version, p)
  }

  ghost predicate OutputsStored(tables: map<nat, seq<Entry>>, numbers: set<nat>, outs: seq<File>) {
    && (forall o :: o in outs ==> o.number in numbers && o.number in tables && tables[o.number] == o.entries)
    && (forall i, j :: 0 <= i < j < |outs| ==> outs[i].number != outs[j].number)
  }

  ghost predicate CanApplyMerge(d: Disk, db: Db, input: seq<Entry>, outs: seq<File>) {
    && BackgroundFree(db) && db.run.Some? && |db.store.version| == NUM_LEVELS
    && MergeResult(db.run.value.base, db.run.value.plan, db.run.value.snapshot, input, outs)
    && OutputsStored(d.tables, db.run.value.numbers, outs)
  }

  ghost predicate Enabled(s: State, step: Step) {
    match step
    case Crash(cuts, revert, tear) =>
      MayCutAll(s.disk.logs, cuts) && MayRevert(s.disk, revert, tear) && MayTear(s, tear)
    case DieRecovering(n, _) => s.Down? && s.disk.manifest.nextFile < n
    case DieWithLog(n) => s.Down? && forall k :: k in s.disk.logs ==> k < n
    case Recover(o) =>
      && s.Down? && |s.disk.manifest.store.version| == NUM_LEVELS
      && Present(s.disk.tables, s.disk.manifest.store.version) && CanRecover(s.disk, o)
    case Append(ops, _) => s.Up? && CanWrite(s.db, ops) && s.db.logFile in s.disk.logs
    case Insert => s.Up? && s.db.writer.Some?
    case Switch => s.Up? && s.db.writer.None? && s.db.imm.None?
    case TakeSnapshot => s.Up?
    case ReleaseSnapshot(i) => s.Up? && i < |s.db.snapshots|
    case Pin => s.Up?
    case Unpin(v) => s.Up? && v in s.db.pinned
    case BeginFlush => s.Up? && BackgroundFree(s.db) && s.db.imm.Some?
    case WriteFlush(es, _) => s.Up? && s.db.job.Building? && s.db.imm.Some? && Sorted(es) && ToSet(es) == s.db.imm.value
    case ApplyFlush(level) => s.Up? && CanApplyFlush(s.db, level)
    case PickMerge(p) => s.Up? && CanPick(s.db, p)
    case OpenOutput => s.Up? && BackgroundFree(s.db) && s.db.run.Some?
    case WriteOutput(n, _) => s.Up? && BackgroundFree(s.db) && s.db.run.Some? && n in s.db.run.value.numbers
    case ApplyMerge(input, outs) => s.Up? && CanApplyMerge(s.disk, s.db, input, outs)
    case ApplyMove(p) => s.Up? && CanPick(s.db, p) && |p.in0| == 1 && p.in1 == []
    case WriteManifest => s.Up? && s.db.job.Applying?
    case Install => s.Up? && s.db.job.Written? && (s.db.job.cause.ByMerge? ==> s.db.run.Some?)
    case FindGarbage => s.Up? && BackgroundFree(s.db)
    case DeleteTable(n) => s.Up? && n in s.db.deadTables
    case DeleteLog(n) => s.Up? && n in s.db.deadLogs
  }

  function Appended(logs: map<nat, LogFile>, n: nat, b: Batch, sync: bool): map<nat, LogFile>
    requires n in logs
  {
    var records := logs[n].records + [b];
    logs[n := LogFile(records, if sync then |records| else logs[n].synced, logs[n].torn)]
  }

  function FlushedEdit(db: Db, level: nat): Edit
    requires db.job.Built?
  {
    if db.job.file.Some? then FlushEdit(level, db.job.file.value) else Edit({}, [])
  }

  function FlushedStore(db: Db, level: nat): Store
    requires db.job.Built? && db.imm.Some? && |db.store.version| == NUM_LEVELS
  {
    Store(ApplyEdit(db.store.version, FlushedEdit(db, level)), db.store.base + db.imm.value, db.store.horizon)
  }

  function MergedStore(db: Db, outs: seq<File>): Store
    requires db.run.Some? && |db.store.version| == NUM_LEVELS
  {
    var r := db.run.value;
    Store(ApplyEdit(db.store.version, MergeEdit(r.plan, outs)), db.store.base, Max(db.store.horizon, r.snapshot))
  }

  function MovedStore(db: Db, p: Plan): Store
    requires |db.store.version| == NUM_LEVELS
  {
    db.store.(version := ApplyEdit(db.store.version, MergeEdit(p, p.in0)))
  }

  /** The manifest with one more edit. */
  function Extended(d: Disk, e: Edit, store: Store, logNumber: nat, db: Db): Manifest {
    Manifest(store, d.manifest.edits + [e], logNumber, db.nextFile, db.lastSequence)
  }

  function Installed'(db: Db): Db
    requires db.job.Written? && (db.job.cause.ByMerge? ==> db.run.Some?)
  {
    var done := db.(store := db.job.next.store, logNumber := db.job.next.logNumber, job := NoJob);
    match db.job.cause
    case ByFlush => done.(imm := None)
    case ByMove => done
    case ByMerge => done.(run := None, pendingOutputs := db.pendingOutputs - db.run.value.numbers)
  }

  /** The edits in the manifest after recovery: one more, or a new file that starts with a snapshot. */
  function RecoveredEdits(m: Manifest, o: Opening): seq<Edit> {
    (if o.append then m.edits else [Manifests.SnapshotEdit(m.store.version)]) + [RecoverEdit(o.files)]
  }

  /** The state that recovery reaches, with the files that it goes on to remove. */
  function Reopened(d: Disk, history: set<Entry>, o: Opening): State
    requires |d.manifest.store.version| == NUM_LEVELS
    requires o.reuse.Some? ==> o.reuse.value in d.logs
  {
    var m := d.manifest;
    var store := Store(ApplyEdit(m.store.version, RecoverEdit(o.files)), m.store.base + Reflushed(d, o.reuse),
                       m.store.horizon);
    var logFile := if o.reuse.Some? then o.reuse.value else o.next;
    var nextFile := if o.reuse.Some? then o.next else o.next + 1;
    var logNumber := if o.save then logFile else m.logNumber;
    var logs := if o.reuse.Some? then d.logs else d.logs[o.next := NewLog()];
    var tables := WithTables(d.tables, o.files);
    Up(Disk(tables, logs, if o.save then Manifest(store, RecoveredEdits(m, o), logNumber, nextFile, o.last) else m,
            if o.append then d.tear else None),
       history,
       Db(if o.reuse.Some? then RecordEntries(d.logs[o.reuse.value].records) else {}, None, store, multiset{},
          o.last, nextFile, logNumber, logFile, [], {}, None, None, NoJob,
          tables.Keys - Numbers(store.version), set n | n in logs && n < logNumber))
  }

  function Perform(s: State, step: Step): State
    requires Enabled(s, step)
  {
    match step
    case Crash(cuts, revert, tear) =>
      var d := Crashed(s.disk, cuts, revert, tear);
      Down(d, s.history * Held(d))
    case DieRecovering(n, es) => s.(disk := s.disk.(tables := s.disk.tables[n := es]))
    case DieWithLog(n) => s.(disk := s.disk.(logs := s.disk.logs[n := NewLog()]))
    case Recover(o) => Reopened(s.disk, s.history, o)
    case Append(ops, sync) =>
      var b := Batch(s.db.lastSequence + 1, ops);
      Up(s.disk.(logs := Appended(s.disk.logs, s.db.logFile, b, sync)), s.history + BatchEntries(b),
         s.db.(writer := Some(b)))
    case Insert =>
      var b := s.db.writer.value;
      s.(db := s.db.(mem := s.db.mem + BatchEntries(b), lastSequence := s.db.lastSequence + |b.ops|, writer := None))
    case Switch =>
      var n := s.db.nextFile;
      s.(disk := s.disk.(logs := s.disk.logs[n := NewLog()]),
         db := s.db.(nextFile := n + 1, logFile := n, imm := Some(s.db.mem), mem := {}))
    case TakeSnapshot => s.(db := s.db.(snapshots := s.db.snapshots + [s.db.lastSequence]))
    case ReleaseSnapshot(i) => s.(db := s.db.(snapshots := s.db.snapshots[..i] + s.db.snapshots[i + 1..]))
    case Pin => s.(db := s.db.(pinned := s.db.pinned + multiset{s.db.store.version}))
    case Unpin(v) => s.(db := s.db.(pinned := s.db.pinned - multiset{v}))
    case BeginFlush =>
      var n := s.db.nextFile;
      s.(db := s.db.(nextFile := n + 1, pendingOutputs := s.db.pendingOutputs + {n}, job := Building(n)))
    case WriteFlush(es, size) =>
      var n := s.db.job.number;
      s.(disk := if es == [] then s.disk else s.disk.(tables := s.disk.tables[n := es]),
         db := s.db.(job := Built(n, TableOf(n, size, es))))
    case ApplyFlush(level) =>
      var next := Extended(s.disk, FlushedEdit(s.db, level), FlushedStore(s.db, level), s.db.logFile, s.db);
      s.(db := s.db.(pendingOutputs := s.db.pendingOutputs - {s.db.job.number}, job := Applying(next, ByFlush)))
    case PickMerge(p) => s.(db := s.db.(run := Some(Run(p, s.db.store.version, SmallestSnapshot(s.db), {}))))
    case OpenOutput =>
      var n := s.db.nextFile;
      s.(db := s.db.(nextFile := n + 1, pendingOutputs := s.db.pendingOutputs + {n},
                     run := Some(s.db.run.value.(numbers := s.db.run.value.numbers + {n}))))
    case WriteOutput(n, es) => s.(disk := s.disk.(tables := s.disk.tables[n := es]))
    case ApplyMerge(_, outs) =>
      var e := MergeEdit(s.db.run.value.plan, outs);
      s.(db := s.db.(job := Applying(Extended(s.disk, e, MergedStore(s.db, outs), s.db.logNumber, s.db), ByMerge)))
    case ApplyMove(p) =>
      var e := MergeEdit(p, p.in0);
      s.(db := s.db.(job := Applying(Extended(s.disk, e, MovedStore(s.db, p), s.db.logNumber, s.db), ByMove)))
    case WriteManifest =>
      s.(disk := s.disk.(manifest := s.db.job.next), db := s.db.(job := Written(s.db.job.next, s.db.job.cause)))
    case Install => s.(db := Installed'(s.db))
    case FindGarbage =>
      s.(db := s.db.(deadTables := s.disk.tables.Keys - LiveNumbers(s.db),
                     deadLogs := set n | n in s.disk.logs && n < s.db.logNumber))
    case DeleteTable(n) =>
      s.(disk := s.disk.(tables := s.disk.tables - {n}), db := s.db.(deadTables := s.db.deadTables - {n}))
    case DeleteLog(n) => s.(disk := s.disk.(logs := s.disk.logs - {n}), db := s.db.(deadLogs := s.db.deadLogs - {n}))
  }
}
