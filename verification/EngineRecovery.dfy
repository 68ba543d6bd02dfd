/** A crash, and recovery from it, keep the invariant. */
module EngineRecovery {
  import opened Keys
  import opened Files
  import opened Plans
  import opened Layers
  import opened Lookup
  import opened Builders
  import opened Engine
  import opened EngineEdits
  import opened EngineRecords
  import opened EngineInvariant
  import opened EngineWrites
  import opened EngineFlush
  import opened EngineDisk

  // ------------------------------------------------------------------ Crash

  lemma PrefixEntries(records: seq<Batch>, n: nat)
    requires n <= |records|
    ensures RecordEntries(records[..n]) <= RecordEntries(records)
    ensures RecordsOk(records) ==> RecordsOk(records[..n])
  {
    hide BatchEntries, SetNewer;
    forall e | e in RecordEntries(records[..n]) ensures e in RecordEntries(records) {
      var i :| 0 <= i < |records[..n]| && e in BatchEntries(records[..n][i]);
      assert e in BatchEntries(records[i]);
    }
  }

  /** Of the records behind a tear some are missing; the others keep their order. */
  lemma GapEntries(records: seq<Batch>, t: nat, skip: nat, keep: nat)
    requires t <= skip <= keep <= |records|
    ensures RecordEntries(records[..t] + records[skip..keep]) <= RecordEntries(records)
    ensures RecordsOk(records) ==> RecordsOk(records[..t] + records[skip..keep])
  {
    hide BatchEntries, SetNewer;
    var left := records[..t] + records[skip..keep];
    assert forall i :: 0 <= i < |left| ==> left[i] == records[if i < t then i else i - t + skip];
    forall e | e in RecordEntries(left) ensures e in RecordEntries(records) {
      var i :| 0 <= i < |left| && e in BatchEntries(left[i]);
      assert e in BatchEntries(records[if i < t then i else i - t + skip]);
    }
  }

  lemma CutEntries(log: LogFile, c: Cut)
    requires MayCut(log, c)
    ensures RecordEntries(CutLog(log, c).records) <= RecordEntries(log.records)
    ensures RecordsOk(log.records) ==> RecordsOk(CutLog(log, c).records)
    ensures CutLog(log, c).synced <= |CutLog(log, c).records|
  {
    hide RecordEntries, RecordsOk;
    if PassesTear(log, c) {
      GapEntries(log.records, log.torn.value, c.skip, c.keep);
    } else {
      PrefixEntries(log.records, c.keep);
    }
  }

  lemma CutReplay(logs: map<nat, LogFile>, cuts: map<nat, Cut>, from: nat)
    requires MayCutAll(logs, cuts)
    ensures ReplayFrom(CutLogs(logs, cuts), from) <= ReplayFrom(logs, from)
    ensures LogsOk(logs, from) ==> LogsOk(CutLogs(logs, cuts), from)
    ensures LogsSized(CutLogs(logs, cuts))
  {
    hide RecordEntries, RecordsOk, MayCut;
    var cut := CutLogs(logs, cuts);
    forall n | n in logs
      ensures RecordEntries(cut[n].records) <= RecordEntries(logs[n].records)
      ensures RecordsOk(logs[n].records) ==> RecordsOk(cut[n].records)
      ensures cut[n].synced <= |cut[n].records|
    {
      CutEntries(logs[n], cuts[n]);
    }
    forall e | e in ReplayFrom(cut, from) ensures e in ReplayFrom(logs, from) {
      var n :| n in cut && from <= n && e in RecordEntries(cut[n].records);
      assert e in RecordEntries(logs[n].records);
    }
  }

  lemma CrashDurable(m: Manifest, logs: map<nat, LogFile>, history: set<Entry>, logs': map<nat, LogFile>)
    requires Durable(m, logs, history)
    requires ReplayFrom(logs', m.logNumber) <= ReplayFrom(logs, m.logNumber)
    ensures var left := m.store.base + ReplayFrom(logs', m.logNumber);
            history * left == left && left <= history && Durable(m, logs', left)
  {
    hide ReplayFrom;
  }

  lemma KeepCrash(d: Disk, history: set<Entry>, cuts: map<nat, Cut>, revert: bool, tear: bool)
    requires DiskSane(d, history) && MayCutAll(d.logs, cuts) && MayRevert(d, revert, tear)
    requires revert ==> d.tear.value == d.manifest
    ensures var d' := Crashed(d, cuts, revert, tear);
            DiskSane(d', history * Held(d')) && (d'.tear.Some? ==> d'.tear.value == d'.manifest)
  {
    hide ManifestOk, Intact, LogsOk, Durable, ReplayFrom, MayCutAll, CutLogs, LogsSized;
    CutReplay(d.logs, cuts, d.manifest.logNumber);
    CrashDurable(d.manifest, d.logs, history, CutLogs(d.logs, cuts));
  }

  // ------------------------------------------------------------------ dying while recovering

  lemma WrittenIntact(tables: map<nat, seq<Entry>>, n: nat, es: seq<Entry>, v: Version)
    requires Intact(tables, v) && n !in Numbers(v)
    ensures Intact(tables[n := es], v)
  {
    forall l, f | 0 <= l < |v| && f in v[l] ensures f.number != n {
      assert f.number in Numbers(v);
    }
  }

  lemma KeepDieRecovering(d: Disk, history: set<Entry>, n: nat, es: seq<Entry>)
    requires DiskSane(d, history) && d.manifest.nextFile < n
    ensures DiskSane(d.(tables := d.tables[n := es]), history)
  {
    hide StoreOk, Intact, LogsOk, Durable, Unambiguous, Numbers;
    WrittenIntact(d.tables, n, es, d.manifest.store.version);
  }

  lemma KeepDieWithLog(d: Disk, history: set<Entry>, n: nat)
    requires DiskSane(d, history) && forall k :: k in d.logs ==> k < n
    ensures DiskSane(d.(logs := d.logs[n := NewLog()]), history)
  {
    hide ManifestOk, Intact, LogsOk, Durable, Unambiguous, Counted;
    EmptyLogOk(d.logs, d.manifest.logNumber, n);
    SwitchDurable(d.manifest, d.logs, history, n);
  }

  lemma EmptyLogOk(logs: map<nat, LogFile>, from: nat, n: nat)
    requires LogsOk(logs, from) && forall k :: k in logs ==> k < n
    ensures LogsOk(logs[n := NewLog()], from)
  {
    assert RecordEntries([]) == {};
  }

  // ------------------------------------------------------------------ the tables of recovery

  ghost predicate DistinctNumbers(files: seq<File>) {
    forall i, j :: 0 <= i < j < |files| ==> files[i].number != files[j].number
  }

  lemma {:induction false} WithTablesHas(tables: map<nat, seq<Entry>>, files: seq<File>, f: File)
    requires DistinctNumbers(files) && f in files
    ensures f.number in WithTables(tables, files) && WithTables(tables, files)[f.number] == f.entries
  {
    var n := |files| - 1;
    if f != files[n] {
      assert f in files[..n];
      WithTablesHas(tables, files[..n], f);
    }
  }

  lemma {:induction false} WithTablesKeeps(tables: map<nat, seq<Entry>>, files: seq<File>, n: nat)
    requires forall f :: f in files ==> f.number != n
    requires n in tables
    ensures n in WithTables(tables, files) && WithTables(tables, files)[n] == tables[n]
  {
    if files != [] {
      WithTablesKeeps(tables, files[..|files| - 1], n);
    }
  }

  lemma RecoveredOnDisk(tables: map<nat, seq<Entry>>, v: Version, files: seq<File>, v': Version, bound: nat)
    requires OnDisk(tables, v) && FilesAdded(v, files, v') && DistinctNumbers(files)
    requires AllBelow(Numbers(v), bound) && forall f :: f in files ==> bound <= f.number
    ensures OnDisk(WithTables(tables, files), v')
  {
    hide WithTables, DistinctNumbers;
    var all := WithTables(tables, files);
    forall l, g | 0 <= l < |v'| && g in v'[l] ensures g.number in all && all[g.number] == g.entries {
      if g in files {
        WithTablesHas(tables, files, g);
      } else {
        assert g in v[l];
        assert g.number in Numbers(v);
        WithTablesKeeps(tables, files, g.number);
      }
    }
  }

  // ------------------------------------------------------------------ the version of recovery

  lemma RecoveredFrom(v: Version, files: seq<File>, v': Version, l: nat, g: File)
    requires FilesAdded(v, files, v') && l < |v'| && g in v'[l]
    ensures (g in v[l] && g.number in Numbers(v)) || (g in files && l == 0)
  {
  }

  lemma RecoveredIdentify(v: Version, files: seq<File>, v': Version, bound: nat)
    requires NumbersIdentify(v) && FilesAdded(v, files, v') && DistinctNumbers(files)
    requires AllBelow(Numbers(v), bound) && forall f :: f in files ==> bound <= f.number
    ensures NumbersIdentify(v')
  {
    hide FilesAdded, Numbers;
    RecoveredLength(v, files, v');
    forall l, m, g, h | 0 <= l < |v'| && 0 <= m < |v'| && g in v'[l] && h in v'[m] && g.number == h.number
      ensures g == h && l == m
    {
      RecoveredFrom(v, files, v', l, g);
      RecoveredFrom(v, files, v', m, h);
    }
  }

  lemma RecoveredLength(v: Version, files: seq<File>, v': Version)
    requires FilesAdded(v, files, v')
    ensures |v| == |v'| == NUM_LEVELS
  {
  }

  lemma RecoveredEntries(v: Version, files: seq<File>, v': Version)
    requires FilesAdded(v, files, v')
    ensures VersionEntries(v') == VersionEntries(v) + FileEntries(files)
  {
    forall e | e in VersionEntries(v') ensures e in VersionEntries(v) + FileEntries(files) {
      var l, g :| 0 <= l < |v'| && g in v'[l] && e in g.entries;
      if g in files {
        InFileEntries(files, g);
      } else {
        assert g in v[l];
      }
    }
    forall e | e in VersionEntries(v) ensures e in VersionEntries(v') {
      var l, g :| 0 <= l < |v| && g in v[l] && e in g.entries;
      assert g in v'[l];
    }
    forall e | e in FileEntries(files) ensures e in VersionEntries(v') {
      var i :| 0 <= i < |files| && e in files[i].entries;
      assert files[i] in v'[0];
    }
  }

  lemma InFileEntries(files: seq<File>, g: File)
    requires g in files
    ensures ToSet(g.entries) <= FileEntries(files)
    ensures forall e :: e in g.entries ==> e in FileEntries(files)
  {
    var i :| 0 <= i < |files| && files[i] == g;
    forall e | e in g.entries ensures e in FileEntries(files) {
      assert e in files[i].entries;
    }
  }

  /** New files are newer than the whole version. */
  lemma RecoveredNewer(v: Version, base: set<Entry>, files: seq<File>, f: File, l: nat, g: File)
    requires VersionEntries(v) <= base && SetNewer(FileEntries(files), base)
    requires f in files && l < |v| && g in v[l]
    ensures FileNewer(f, g)
  {
    InFileEntries(files, f);
    FileInVersion(v, l, g);
    forall x, y | x in f.entries && y in g.entries ensures x.key.sequence > y.key.sequence {
      assert x in ToSet(f.entries) && y in ToSet(g.entries);
    }
  }

  lemma SuccessiveNewer(files: seq<File>, f: File, g: File)
    requires Successive(files) && f in files && g in files
    ensures f.number > g.number ==> FileNewer(f, g)
    ensures f.number == g.number ==> f == g
  {
    var i :| 0 <= i < |files| && files[i] == f;
    var j :| 0 <= j < |files| && files[j] == g;
    assert i < j ==> files[i].number < files[j].number;
    if f.number > g.number {
      assert SetNewer(ToSet(f.entries), ToSet(g.entries));
      forall x, y | x in f.entries && y in g.entries ensures x.key.sequence > y.key.sequence {
        assert x in ToSet(f.entries) && y in ToSet(g.entries);
      }
    }
  }

  lemma RecoveredByAge(v: Version, base: set<Entry>, files: seq<File>, v': Version, bound: nat)
    requires Layered(v) && FilesAdded(v, files, v') && Successive(files)
    requires AllBelow(Numbers(v), bound) && forall f :: f in files ==> bound <= f.number
    requires VersionEntries(v) <= base && SetNewer(FileEntries(files), base)
    ensures NumberedByAge(v'[0])
  {
    hide Layered, FileNewer, Successive, VersionEntries, FileEntries, SetNewer, Ordered;
    LayeredLevel(v, 0);
    forall f, g | f in v'[0] && g in v'[0]
      ensures f.number > g.number ==> FileNewer(f, g)
      ensures f.number == g.number ==> f == g
    {
      assert f in v[0] ==> f.number in Numbers(v);
      assert g in v[0] ==> g.number in Numbers(v);
      if f in files && g in files {
        SuccessiveNewer(files, f, g);
      } else if f in files && g in v[0] {
        RecoveredNewer(v, base, files, f, 0, g);
      }
    }
  }

  lemma RecoveredLayered(v: Version, base: set<Entry>, files: seq<File>, v': Version, bound: nat)
    requires Layered(v) && FilesAdded(v, files, v') && Successive(files) && AllValid(files)
    requires AllBelow(Numbers(v), bound) && forall f :: f in files ==> bound <= f.number
    requires VersionEntries(v) <= base && SetNewer(FileEntries(files), base)
    ensures Layered(v')
  {
    hide Layered, FileNewer, Successive, VersionEntries, FileEntries, SetNewer, Ordered, ValidFile, Numbers,
         NumberedByAge;
    RecoveredByAge(v, base, files, v', bound);
    forall l | 0 <= l < NUM_LEVELS ensures AllValid(v'[l]) {
      LayeredLevel(v, l);
    }
    forall i, j | 0 <= i < j < NUM_LEVELS ensures AllNewer(v'[i], v'[j]) {
      LayeredPair(v, i, j);
      forall f, g | f in v'[i] && g in v'[j] ensures FileNewer(f, g) {
        if f !in v[i] {
          RecoveredNewer(v, base, files, f, j, g);
        }
      }
    }
    assert Shaped(v') by { RecoveredShaped(v, files, v'); }
    LayeredFrom(v');
  }

  lemma RecoveredShaped(v: Version, files: seq<File>, v': Version)
    requires Layered(v) && FilesAdded(v, files, v') && AllValid(files)
    ensures Shaped(v')
  {
    forall f | f in files ensures ProperRanges([f]) {
      EntriesInRange(f);
    }
    LayeredLevel(v, 0);
    hide Layered, ValidFile;
    forall f | f in v'[0] ensures ProperRanges([f]) {
    }
    forall f | f in v'[0] ensures AtMost(f.smallest, f.largest) && f.largest.sequence <= MAX_SEQUENCE {
      assert f in [f];
    }
    forall l | 1 <= l < NUM_LEVELS ensures Disjoint(v'[l]) {
      LayeredLevel(v, l);
    }
  }

  lemma RecoveredStoreOk(st: Store, files: seq<File>, bound: nat)
    requires StoreOk(st) && |st.version| == NUM_LEVELS && Successive(files) && AllValid(files)
    requires AllBelow(Numbers(st.version), bound) && forall f :: f in files ==> bound <= f.number
    requires SetNewer(FileEntries(files), st.base) && Unambiguous(st.base + FileEntries(files))
    ensures var v' := ApplyEdit(st.version, RecoverEdit(files));
            StoreOk(Store(v', st.base + FileEntries(files), st.horizon)) && FilesAdded(st.version, files, v')
  {
    hide VersionEntries, View, Layered, AllOrdered, NumbersIdentify, Unambiguous, RecoverEdit, ApplyEdit, FilesAdded,
         Faithful, SetNewer, FileEntries, Successive, AllValid, Numbers;
    var v' := ApplyEdit(st.version, RecoverEdit(files));
    assert DistinctNumbers(files) by { SuccessiveDistinct(files); }
    RecoverEditAdds(st.version, files);
    RecoveredLayered(st.version, st.base, files, v', bound);
    RecoveredIdentify(st.version, files, v', bound);
    RecoveredEntries(st.version, files, v');
    FlushFaithful(st, FileEntries(files), v');
  }

  lemma SuccessiveDistinct(files: seq<File>)
    requires Successive(files)
    ensures DistinctNumbers(files)
  {
  }

  lemma RecoveredBelow(v: Version, files: seq<File>, v': Version, bound: nat)
    requires FilesAdded(v, files, v') && AllBelow(Numbers(v), bound) && forall f :: f in files ==> f.number < bound
    ensures AllBelow(Numbers(v'), bound)
  {
    hide FilesAdded;
    forall n | n in Numbers(v') ensures n < bound {
      var l, g :| 0 <= l < |v'| && g in v'[l] && g.number == n;
      RecoveredFrom(v, files, v', l, g);
    }
  }

  // ------------------------------------------------------------------ the logs of recovery

  ghost predicate LastLog(logs: map<nat, LogFile>, n: nat) {
    n in logs && forall k :: k in logs ==> k <= n
  }

  /** The logs after recovery, `last` the one in use. */
  lemma RecoveredLogs(logs: map<nat, LogFile>, from: nat, last: nat, flushed: set<Entry>, mem: set<Entry>)
    requires LogsOk(logs, from) && LastLog(logs, last) && from <= last
    requires Replay(logs, from, last) == flushed && RecordEntries(logs[last].records) == mem
    ensures LogsOk(logs, last) && LogsMatch(logs, last, last, {}, mem) && ReplayFrom(logs, last) == mem
    ensures flushed == {} ==> LogsMatch(logs, from, last, {}, mem)
    ensures ReplayFrom(logs, from) == flushed + mem
  {
    hide RecordEntries, RecordsOk, SetNewer;
    LaterLogsOk(logs, from, last);
    ReplaySplits(logs, from, last);
    ReplaySplits(logs, last, last);
    assert Replay(logs, last, last) == {};
  }

  lemma RecoveredContent(base: set<Entry>, replayed: set<Entry>, flushed: set<Entry>, mem: set<Entry>,
                         history: set<Entry>)
    requires history == base + replayed && SetNewer(replayed, base)
    requires replayed == flushed + mem && SetNewer(mem, flushed)
    ensures ContentOk(history, base + flushed, {}, mem, {})
    ensures history == (base + flushed) + mem && SetNewer(mem, base + flushed)
  {
    assert (base + flushed) + {} == base + flushed;
  }

  /** The log that stays in use is newer than the others. */
  lemma LastNewer(logs: map<nat, LogFile>, from: nat, last: nat)
    requires LogsOk(logs, from) && LastLog(logs, last) && from <= last
    ensures SetNewer(RecordEntries(logs[last].records), Replay(logs, from, last))
  {
    forall x, y | x in RecordEntries(logs[last].records) && y in Replay(logs, from, last)
      ensures x.key.sequence > y.key.sequence
    {
      var n :| n in logs && from <= n < last && y in RecordEntries(logs[n].records);
      assert SetNewer(RecordEntries(logs[last].records), RecordEntries(logs[n].records));
    }
  }

  /** The log in use after recovery: the reused one, or a new one. */
  function LogsThen(d: Disk, reuse: Option<nat>, next: nat): map<nat, LogFile> {
    if reuse.Some? then d.logs else d.logs[next := NewLog()]
  }

  function LastThen(reuse: Option<nat>, next: nat): nat {
    if reuse.Some? then reuse.value else next
  }

  lemma LogsAfterRecovery(d: Disk, history: set<Entry>, o: Opening)
    requires DiskOk(d, history) && CanRecover(d, o)
    ensures var logs := LogsThen(d, o.reuse, o.next);
            var logFile := LastThen(o.reuse, o.next);
            var from := d.manifest.logNumber;
            && LastLog(logs, logFile) && from <= logFile && LogsOk(logs, from) && LogsSized(logs)
            && Replay(logs, from, logFile) == Reflushed(d, o.reuse)
            && ReplayFrom(logs, from) == ReplayFrom(d.logs, from)
            && (o.reuse.None? ==> RecordEntries(logs[logFile].records) == {})
  {
    hide StoreOk, OnDisk, LogsOk, Durable, Unambiguous, Counted, AllValid, Successive, FileEntries,
         IsRecoveredSequence, Recorded;
    var from := d.manifest.logNumber;
    var logs := LogsThen(d, o.reuse, o.next);
    if o.reuse.None? {
      EmptyLogReplay(d.logs, from, o.next);
      EmptyLogOk(d.logs, from, o.next);
      ReplaySplits(logs, from, o.next);
      assert RecordEntries([]) == {};
    }
  }

  // ------------------------------------------------------------------ Recover

  lemma ReflushedPart(d: Disk, reuse: Option<nat>)
    ensures Reflushed(d, reuse) <= ReplayFrom(d.logs, d.manifest.logNumber)
  {
    if reuse.Some? {
      forall e | e in Reflushed(d, reuse) ensures e in ReplayFrom(d.logs, d.manifest.logNumber) {
        var n :| n in d.logs && d.manifest.logNumber <= n < reuse.value && e in RecordEntries(d.logs[n].records);
        InReplayFrom(d.logs, d.manifest.logNumber, n);
      }
    }
  }

  lemma RecoveredCounted(d: Disk, history: set<Entry>, last: nat)
    requires DiskOk(d, history) && IsRecoveredSequence(d, last)
    ensures Counted(history, last) && last < MAX_SEQUENCE
    ensures d.manifest.store.horizon <= d.manifest.lastSequence <= last
  {
    hide StoreOk, OnDisk, LogsOk, Unambiguous, ReplayFrom;
  }

  /** The store that recovery builds. */
  lemma RecoverStore(d: Disk, history: set<Entry>, o: Opening)
    requires DiskOk(d, history) && CanRecover(d, o) && |d.manifest.store.version| == NUM_LEVELS
    ensures var st := d.manifest.store;
            var store := Store(ApplyEdit(st.version, RecoverEdit(o.files)), st.base + Reflushed(d, o.reuse),
                               st.horizon);
            && StoreOk(store) && FilesAdded(st.version, o.files, store.version)
            && AllBelow(Numbers(store.version), o.next)
            && (!o.save ==> store == st && Reflushed(d, o.reuse) == {})
            && store.base <= history
  {
    hide StoreOk, OnDisk, LogsOk, Unambiguous, ReplayFrom, Replay, Counted, AllValid, Successive, FileEntries,
         IsRecoveredSequence, ApplyEdit, RecoverEdit, FilesAdded, SetNewer, Numbers, Reflushed, Recorded, LogsSized;
    var m := d.manifest;
    ReflushedPart(d, o.reuse);
    UnambiguousSub(m.store.base + Reflushed(d, o.reuse), history);
    NewerSub(Reflushed(d, o.reuse), ReplayFrom(d.logs, m.logNumber), m.store.base);
    RecoveredStoreOk(m.store, o.files, m.nextFile);
    RecoveredBelow(m.store.version, o.files, ApplyEdit(m.store.version, RecoverEdit(o.files)), o.next);
    if !o.save {
      RecoverNothing(m.store);
      assert FileEntries([]) == {} by { NoFileEntries(); }
      assert m.store.base + {} == m.store.base;
    }
  }

  /** With nothing to flush the version stays as it is. */
  lemma RecoverNothing(st: Store)
    requires StoreOk(st) && |st.version| == NUM_LEVELS
    ensures ApplyEdit(st.version, RecoverEdit([])) == st.version
  {
    hide ApplyEdit;
    assert RecoverEdit([]) == Edit({}, []);
    EmptyEdit(st.version);
  }

  /** The tables of recovery carry numbers that have not been on any level. */
  lemma RecoverRecorded(m: Manifest, o: Opening, next: nat)
    requires ManifestOk(m) && |m.store.version| == NUM_LEVELS && Successive(o.files) && m.nextFile < o.next <= next
    requires forall f :: f in o.files ==> m.nextFile < f.number < o.next
    ensures Recorded(RecoveredEdits(m, o), ApplyEdit(m.store.version, RecoverEdit(o.files)), next)
  {
    hide ApplyEdit, Layered, Unambiguous, Faithful, VersionEntries, AllOrdered, NumbersIdentify, Counted, Successive,
         Manifests.SnapshotEdit, NeverReenters, ApplyEach, OnlySinks, SeenNumbers;
    var v := m.store.version;
    var edits := if o.append then m.edits else [Manifests.SnapshotEdit(v)];
    if !o.append {
      RecordSnapshot(v, m.nextFile);
    }
    assert forall n :: n in SeenNumbers(edits) ==> n < m.nextFile;
    SuccessiveDistinct(o.files);
    assert AddsAt(RecoverEdit(o.files), 0, o.files) by { RecoverEditAddsAt(o.files); }
    RecordNew(edits, v, m.nextFile, RecoverEdit(o.files), 0, o.files, next);
  }

  lemma RecoverEditAddsAt(files: seq<File>)
    ensures AddsAt(RecoverEdit(files), 0, files)
  {
  }

  lemma NoFileEntries()
    ensures FileEntries([]) == {}
  {
  }

  lemma NewerSub(a: set<Entry>, b: set<Entry>, c: set<Entry>)
    requires a <= b && SetNewer(b, c)
    ensures SetNewer(a, c)
  {
  }

  lemma KeepRecover(d: Disk, history: set<Entry>, o: Opening)
    requires DiskOk(d, history) && CanRecover(d, o) && |d.manifest.store.version| == NUM_LEVELS
    ensures var s := Reopened(d, history, o);
            DiskOk(s.disk, history) && DbOk(s.disk, history, s.db)
  {
    hide StoreOk, OnDisk, LogsOk, Unambiguous, ReplayFrom, Replay, Counted, AllValid, Successive, FileEntries,
         IsRecoveredSequence, ApplyEdit, RecoverEdit, FilesAdded, SetNewer, Numbers, Reflushed, RecordEntries,
         ContentOk, WithTables, LogsMatch, Recorded, RecoveredEdits, LogsSized;
    var m := d.manifest;
    var s := Reopened(d, history, o);
    var logs := LogsThen(d, o.reuse, o.next);
    var logFile := LastThen(o.reuse, o.next);
    RecoverStore(d, history, o);
    RecoverRecorded(m, o, s.db.nextFile);
    LogsAfterRecovery(d, history, o);
    RecoveredCounted(d, history, o.last);
    var flushed := Reflushed(d, o.reuse);
    var mem := RecordEntries(logs[logFile].records);
    assert s.db.mem == mem;
    RecoveredLogs(logs, m.logNumber, logFile, flushed, mem);
    ReplaySplits(logs, m.logNumber, logFile);
    LastNewer(logs, m.logNumber, logFile);
    RecoveredContent(m.store.base, ReplayFrom(d.logs, m.logNumber), flushed, mem, history);
    assert DistinctNumbers(o.files) by { SuccessiveDistinct(o.files); }
    RecoveredOnDisk(d.tables, m.store.version, o.files, s.db.store.version, m.nextFile);
    assert s.db.store.base + {} + mem == history;
    assert mem + {} == mem;
    CountedSub(s.db.store.base, history, o.last);
  }

  lemma CountedSub(a: set<Entry>, b: set<Entry>, last: nat)
    requires a <= b && Counted(b, last)
    ensures Counted(a, last)
  {
  }
}
