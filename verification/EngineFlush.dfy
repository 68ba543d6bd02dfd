/** Flushing a memtable keeps the invariant. */
module EngineFlush {
  import opened Keys
  import opened Files
  import opened Plans
  import opened Picking
  import opened Layers
  import opened Lookup
  import opened Builders
  import opened Engine
  import opened EngineEdits
  import opened EngineRecords
  import opened EngineInvariant
  import opened EngineWrites

  // ------------------------------------------------------------------ views of layered sets

  /** Newer entries on top do not tell two stores apart that answered alike. */
  lemma ViewUnion(a: set<Entry>, b: set<Entry>, top: set<Entry>, k: UserKey, at: nat)
    requires SetNewer(top, a) && SetNewer(top, b)
    requires Unambiguous(a + top) && Unambiguous(b + top)
    requires View(a, k, at) == View(b, k, at)
    ensures View(a + top, k, at) == View(b + top, k, at)
  {
    if AnyVisible(top, k, at) {
      var e := Newest(top, k, at);
      assert IsNewest(a + top, k, at, e) && IsNewest(b + top, k, at, e);
      ViewOf(a + top, k, at, e);
      ViewOf(b + top, k, at, e);
    } else {
      ViewBelow(a, top, k, at);
      ViewBelow(b, top, k, at);
    }
  }

  lemma ViewBelow(a: set<Entry>, top: set<Entry>, k: UserKey, at: nat)
    requires !AnyVisible(top, k, at) && Unambiguous(a + top)
    ensures View(a + top, k, at) == View(a, k, at)
  {
    if AnyVisible(a, k, at) {
      var e := Newest(a, k, at);
      assert IsNewest(a + top, k, at, e);
      ViewOf(a + top, k, at, e);
      assert Unambiguous(a) by { UnambiguousSub(a, a + top); }
      ViewOf(a, k, at, e);
    } else {
      assert !AnyVisible(a + top, k, at);
    }
  }

  lemma UnambiguousSub(a: set<Entry>, b: set<Entry>)
    requires a <= b && Unambiguous(b)
    ensures Unambiguous(a)
  {
  }

  // ------------------------------------------------------------------ tables

  lemma TableWritten(tables: map<nat, seq<Entry>>, n: nat, es: seq<Entry>, v: Version)
    requires OnDisk(tables, v) && n !in Numbers(v)
    ensures OnDisk(tables[n := es], v)
  {
    forall l, f | 0 <= l < |v| && f in v[l] ensures f.number != n {
      assert f.number in Numbers(v);
    }
  }

  lemma TableWrittenPinned(tables: map<nat, seq<Entry>>, n: nat, es: seq<Entry>, db: Db)
    requires Unlisted(db, n)
    requires Readable(tables, db.store.version, db.nextFile)
    requires PinnedReadable(tables, db.pinned, db.nextFile)
    requires db.run.Some? ==> Readable(tables, db.run.value.base, db.nextFile)
    ensures Readable(tables[n := es], db.store.version, db.nextFile)
    ensures PinnedReadable(tables[n := es], db.pinned, db.nextFile)
    ensures db.run.Some? ==> Readable(tables[n := es], db.run.value.base, db.nextFile)
  {
    hide OnDisk;
    TableWritten(tables, n, es, db.store.version);
    forall v | v in db.pinned ensures Readable(tables[n := es], v, db.nextFile) {
      TableWritten(tables, n, es, v);
    }
    if db.run.Some? {
      TableWritten(tables, n, es, db.run.value.base);
    }
  }

  // ------------------------------------------------------------------ BeginFlush

  lemma FreshUnlisted(d: Disk, db: Db, n: nat)
    requires Readable(d.tables, db.store.version, db.nextFile)
    requires PinnedReadable(d.tables, db.pinned, db.nextFile)
    requires db.run.Some? ==> Readable(d.tables, db.run.value.base, db.nextFile)
    requires db.nextFile <= n
    ensures Unlisted(db, n)
  {
    hide OnDisk;
  }

  lemma NextUnseen(d: Disk, history: set<Entry>, db: Db)
    requires DiskOk(d, history) && DbOk(d, history, db) && BackgroundFree(db)
    ensures db.nextFile !in SeenNumbers(d.manifest.edits)
  {
    hide StoreOk, OnDisk, LogsOk, Durable, NeverReenters, OnlySinks, SeenNumbers, ApplyEach, Readable, RunOk;
    assert d.manifest.nextFile <= db.nextFile;
  }

  lemma KeepBeginFlush(d: Disk, history: set<Entry>, db: Db)
    requires DiskOk(d, history) && DbOk(d, history, db)
    requires BackgroundFree(db) && db.imm.Some?
    ensures var n := db.nextFile;
            DbOk(d, history, db.(nextFile := n + 1, pendingOutputs := db.pendingOutputs + {n}, job := Building(n)))
  {
    hide StoreOk, OnDisk, Unambiguous, Readable, PinnedReadable, Counted, LogsMatch, ContentOk, Installable,
         SnapshotsOk, DiskOk, SeenNumbers;
    var n := db.nextFile;
    var db' := db.(nextFile := n + 1, pendingOutputs := db.pendingOutputs + {n}, job := Building(n));
    NextUnseen(d, history, db);
    FreshUnlisted(d, db, n);
    MoreNumbers(d.tables, db, n + 1);
    ReadableBelow(d.tables, db.store.version, n);
    assert forall m :: Unlisted(db, m) ==> Unlisted(db', m);
  }

  lemma ReadableBelow(tables: map<nat, seq<Entry>>, v: Version, n: nat)
    requires Readable(tables, v, n)
    ensures AllBelow(Numbers(v), n) && OnDisk(tables, v)
  {
  }

  // ------------------------------------------------------------------ WriteFlush

  lemma KeepWriteFlush(d: Disk, history: set<Entry>, db: Db, es: seq<Entry>, size: nat)
    requires DiskOk(d, history) && DbOk(d, history, db)
    requires db.job.Building? && db.imm.Some? && Sorted(es) && ToSet(es) == db.imm.value
    ensures var n := db.job.number;
            var d' := if es == [] then d else d.(tables := d.tables[n := es]);
            DiskOk(d', history) && DbOk(d', history, db.(job := Built(n, TableOf(n, size, es))))
  {
    hide StoreOk, OnDisk, Unambiguous, Readable, PinnedReadable, Counted, LogsMatch, ContentOk, Installable,
         SnapshotsOk, LogsOk, Durable, ManifestOk, Sorted;
    var n := db.job.number;
    var d' := if es == [] then d else d.(tables := d.tables[n := es]);
    var db' := db.(job := Built(n, TableOf(n, size, es)));
    assert forall m :: Unlisted(db, m) ==> Unlisted(db', m);
    if es != [] {
      TableWrittenPinned(d.tables, n, es, db);
      TableWritten(d.tables, n, es, d.manifest.store.version);
      TableIsValid(n, size, es);
    } else {
      assert ToSet(es) == {};
    }
  }

  lemma TableIsValid(n: nat, size: nat, es: seq<Entry>)
    requires Sorted(es) && es != []
    ensures ValidFile(TableOf(n, size, es).value)
  {
  }

  // ------------------------------------------------------------------ ApplyFlush

  lemma NewestFromBase(v: Version, base: set<Entry>, imm: set<Entry>, f: File)
    requires VersionEntries(v) <= base && SetNewer(imm, base)
    requires ToSet(f.entries) == imm && AllBelow(Numbers(v), f.number)
    ensures NewestFile(v, f)
  {
    forall l, g | 0 <= l < |v| && g in v[l] ensures g.number < f.number && FileNewer(f, g) {
      assert g.number in Numbers(v);
      FileInVersion(v, l, g);
      forall x, y | x in f.entries && y in g.entries ensures x.key.sequence > y.key.sequence {
        assert x in ToSet(f.entries) && y in ToSet(g.entries);
      }
    }
  }

  lemma ClearLands(v: Version, level: nat, f: File)
    requires Layered(v) && level < NUM_LEVELS && ValidFile(f)
    requires ClearTo(v, level, f.smallest.user, f.largest.user)
    ensures LandsClear(v, level, f)
  {
    EntriesInRange(f);
    forall l, g | 0 <= l <= level && g in v[l] ensures UserApart(g, f) {
      LayeredLevel(v, l);
      assert !OverlapInLevel(v[l], f.smallest.user, f.largest.user);
    }
  }

  lemma AddedNumbers(v: Version, level: nat, f: File, v': Version)
    requires FileAdded(v, level, f, v')
    ensures Numbers(v') == Numbers(v) + {f.number}
  {
    forall n | n in Numbers(v') ensures n in Numbers(v) + {f.number} {
      var l, g :| 0 <= l < |v'| && g in v'[l] && g.number == n;
      assert g in v[l] || g == f;
    }
    forall n | n in Numbers(v) ensures n in Numbers(v') {
      var l, g :| 0 <= l < |v| && g in v[l] && g.number == n;
      assert g in v'[l];
    }
    assert f in v'[level];
  }

  lemma AddedNumbersIdentify(v: Version, level: nat, f: File, v': Version)
    requires NumbersIdentify(v) && FileAdded(v, level, f, v') && f.number !in Numbers(v)
    ensures NumbersIdentify(v')
  {
    forall l, m, g, h | 0 <= l < |v'| && 0 <= m < |v'| && g in v'[l] && h in v'[m] && g.number == h.number
      ensures g == h && l == m
    {
      AddedFrom(v, level, f, v', l, g);
      AddedFrom(v, level, f, v', m, h);
    }
  }

  lemma AddedFrom(v: Version, level: nat, f: File, v': Version, l: nat, g: File)
    requires FileAdded(v, level, f, v') && l < |v'| && g in v'[l]
    ensures (g in v[l] && g.number in Numbers(v)) || (g == f && l == level)
  {
  }

  lemma AddedEntries(v: Version, level: nat, f: File, v': Version)
    requires FileAdded(v, level, f, v')
    ensures VersionEntries(v') == VersionEntries(v) + ToSet(f.entries)
  {
    forall e | e in VersionEntries(v') ensures e in VersionEntries(v) + ToSet(f.entries) {
      var l, g :| 0 <= l < |v'| && g in v'[l] && e in g.entries;
      if l == level && g == f {
        assert e in ToSet(f.entries);
      } else {
        assert g in v[l];
      }
    }
    forall e | e in VersionEntries(v) ensures e in VersionEntries(v') {
      var l, g :| 0 <= l < |v| && g in v[l] && e in g.entries;
      assert g in v'[l];
    }
    assert f in v'[level];
    FileInVersion(v', level, f);
  }

  /** What was flushed so far and the memtable, over the version with the new file. */
  lemma FlushFaithful(st: Store, imm: set<Entry>, v': Version)
    requires StoreOk(st) && SetNewer(imm, st.base) && Unambiguous(st.base + imm)
    requires VersionEntries(v') == VersionEntries(st.version) + imm
    ensures Faithful(Store(v', st.base + imm, st.horizon))
  {
    hide VersionEntries, View, Layered, AllOrdered, NumbersIdentify, Unambiguous;
    forall k, at | st.horizon <= at
      ensures View(st.base + imm, k, at) == View(VersionEntries(v'), k, at)
    {
      UnambiguousSub(VersionEntries(st.version) + imm, st.base + imm);
      ViewUnion(st.base, VersionEntries(st.version), imm, k, at);
    }
  }

  lemma FlushStoreOk(st: Store, imm: set<Entry>, level: nat, f: File)
    requires StoreOk(st) && SetNewer(imm, st.base) && Unambiguous(st.base + imm) && Counted(imm, MAX_SEQUENCE - 1)
    requires ValidFile(f) && ToSet(f.entries) == imm && AllBelow(Numbers(st.version), f.number)
    requires level < NUM_LEVELS && (level > 0 ==> ClearTo(st.version, level, f.smallest.user, f.largest.user))
    ensures var v' := ApplyEdit(st.version, FlushEdit(level, f));
            StoreOk(Store(v', st.base + imm, st.horizon)) && FileAdded(st.version, level, f, v')
            && Numbers(v') == Numbers(st.version) + {f.number}
            && NewestFile(st.version, f) && (level > 0 ==> LandsClear(st.version, level, f))
  {
    hide VersionEntries, View, Layered, AllOrdered, NumbersIdentify, Unambiguous, FlushEdit, ApplyEdit, FileAdded,
         Faithful, ClearTo, SetNewer, NewestFile, LandsClear;
    assert |st.version| == NUM_LEVELS by { StoreShape(st); }
    var v' := ApplyEdit(st.version, FlushEdit(level, f));
    FlushEditAdds(st.version, level, f);
    NewestFromBase(st.version, st.base, imm, f);
    if level > 0 {
      ClearLands(st.version, level, f);
    }
    LargestCounted(f);
    FlushKeepsLayers(st.version, level, f, v');
    AddedNumbers(st.version, level, f, v');
    AddedNumbersIdentify(st.version, level, f, v');
    AddedEntries(st.version, level, f, v');
    FlushFaithful(st, imm, v');
  }

  lemma LargestCounted(f: File)
    requires ValidFile(f) && Counted(ToSet(f.entries), MAX_SEQUENCE - 1)
    ensures f.largest.sequence <= MAX_SEQUENCE
  {
    assert f.entries[|f.entries| - 1] in ToSet(f.entries);
  }

  lemma OnDiskAdded(tables: map<nat, seq<Entry>>, v: Version, level: nat, f: File, v': Version)
    requires OnDisk(tables, v) && FileAdded(v, level, f, v')
    requires f.number in tables && tables[f.number] == f.entries
    ensures OnDisk(tables, v')
  {
    forall l, g | 0 <= l < |v'| && g in v'[l] ensures g.number in tables && tables[g.number] == g.entries {
      if !(l == level && g == f) {
        assert g in v[l];
      }
    }
  }

  lemma BaseUnambiguous(history: set<Entry>, base: set<Entry>, imm: set<Entry>, mem: set<Entry>, writing: set<Entry>)
    requires ContentOk(history, base, imm, mem, writing) && Unambiguous(history) && Counted(history, MAX_SEQUENCE - 1)
    ensures Unambiguous(base + imm) && SetNewer(imm, base) && Counted(imm, MAX_SEQUENCE - 1)
  {
    hide Unambiguous;
    UnambiguousSub(base + imm, history);
  }

  /** The number of the flushed table has not been on any level. */
  lemma FlushRecorded(d: Disk, history: set<Entry>, db: Db, level: nat)
    requires DiskOk(d, history) && DbOk(d, history, db) && CanApplyFlush(db, level)
    ensures var next := Extended(d, FlushedEdit(db, level), FlushedStore(db, level), db.logFile, db);
            && Recorded(next.edits, next.store.version, next.nextFile)
            && db.pendingOutputs - {db.job.number} !! SeenNumbers(next.edits)
            && (db.job.file.None? ==> next.store.version == db.store.version)
  {
    hide OnDisk, Unambiguous, PinnedReadable, Counted, LogsMatch, ContentOk, Installable, SnapshotsOk, LogsOk,
         Durable, Readable, RunOk, ValidFile, ApplyEdit, ClearTo, Aside, Recorded, SeenNumbers, Layered,
         NumbersIdentify, Faithful, AllOrdered, Unlisted;
    var m := d.manifest;
    assert AllOrdered(db.store.version) && |db.store.version| == NUM_LEVELS;
    if db.job.file.Some? {
      var f := db.job.file.value;
      assert f.number == db.job.number;
      NewFlushEdit(level, f);
      RecordNew(m.edits, m.store.version, m.nextFile, FlushEdit(level, f), level, [f], db.nextFile);
    } else {
      RecordNothing(m.edits, m.store.version, m.nextFile, db.nextFile);
    }
  }

  lemma NewFlushEdit(level: nat, f: File)
    requires level < NUM_LEVELS
    ensures AddsAt(FlushEdit(level, f), level, [f])
    ensures (set g | g in [f] :: g.number) == {f.number}
  {
    assert f in [f];
  }

  /** The manifest record of a flush is fit to be written. */
  lemma FlushNext(d: Disk, history: set<Entry>, db: Db, level: nat)
    requires DiskOk(d, history) && DbOk(d, history, db) && CanApplyFlush(db, level)
    ensures var next := Extended(d, FlushedEdit(db, level), FlushedStore(db, level), db.logFile, db);
            NextOk(d.tables, db.(pendingOutputs := db.pendingOutputs - {db.job.number}), next, ByFlush)
  {
    hide StoreOk, OnDisk, Unambiguous, PinnedReadable, Counted, LogsMatch, ContentOk, Installable, SnapshotsOk,
         LogsOk, Durable, ManifestMatches, ValidFile, ApplyEdit, FlushEdit, FileAdded, NewestFile, LandsClear, Aside,
         ClearTo, SetNewer, Recorded, SeenNumbers;
    var st := db.store;
    var imm := db.imm.value;
    var st' := FlushedStore(db, level);
    BaseUnambiguous(history, st.base, imm, db.mem, WriterEntries(db));
    FlushCounted(st.base, imm, db.mem, db.lastSequence);
    SnapshotsHorizon(db.snapshots, st.horizon, db.lastSequence);
    FlushRecorded(d, history, db, level);
    if db.job.file.Some? {
      var f := db.job.file.value;
      FlushStoreOk(st, imm, level, f);
      OnDiskAdded(d.tables, st.version, level, f, st'.version);
      if db.run.Some? {
        StoreLayered(st);
        FlushKeepsInstallable(st.version, db.run.value.base, db.run.value.plan, level, f, st'.version);
        FlushApartNumbers(db, f.number);
      }
    } else {
      assert st.base + imm == st.base;
      if db.run.Some? {
        RunApart(db);
      }
    }
  }

  lemma StoreShape(st: Store)
    requires StoreOk(st)
    ensures |st.version| == NUM_LEVELS
  {
  }

  lemma StoreLayered(st: Store)
    requires StoreOk(st)
    ensures Layered(st.version)
  {
  }

  lemma RunApart(db: Db)
    requires RunOk(db) && db.run.Some?
    ensures db.run.value.numbers !! Numbers(db.store.version)
  {
    hide Installable;
    assert forall n :: n in db.run.value.numbers ==> Unlisted(db, n);
  }

  lemma FlushApartNumbers(db: Db, n: nat)
    requires RunOk(db) && db.run.Some? && n !in db.run.value.numbers
    ensures db.run.value.numbers !! Numbers(db.store.version) + {n}
  {
    hide Installable;
    RunApart(db);
  }

  lemma FlushCounted(base: set<Entry>, imm: set<Entry>, mem: set<Entry>, last: nat)
    requires Counted(base + imm + mem, last)
    ensures Counted(base + imm, last)
  {
  }

  lemma SnapshotsHorizon(snapshots: seq<nat>, horizon: nat, last: nat)
    requires SnapshotsOk(snapshots, horizon, last)
    ensures horizon <= last
  {
  }

  lemma KeepApplyFlush(d: Disk, history: set<Entry>, db: Db, level: nat)
    requires DiskOk(d, history) && DbOk(d, history, db) && CanApplyFlush(db, level)
    ensures var next := Extended(d, FlushedEdit(db, level), FlushedStore(db, level), db.logFile, db);
            DbOk(d, history, db.(pendingOutputs := db.pendingOutputs - {db.job.number}, job := Applying(next, ByFlush)))
  {
    hide StoreOk, OnDisk, Unambiguous, Readable, PinnedReadable, Counted, LogsMatch, ContentOk, Installable,
         SnapshotsOk, LogsOk, Durable, ManifestOk, FlushedStore, CanApplyFlush;
    assert db.job.Built? && db.imm.Some? && |db.store.version| == NUM_LEVELS by { FlushReady(db, level); }
    var next := Extended(d, FlushedEdit(db, level), FlushedStore(db, level), db.logFile, db);
    var db' := db.(pendingOutputs := db.pendingOutputs - {db.job.number}, job := Applying(next, ByFlush));
    FlushNext(d, history, db, level);
    assert forall m :: Unlisted(db, m) ==> Unlisted(db', m);
  }

  lemma FlushReady(db: Db, level: nat)
    requires CanApplyFlush(db, level)
    ensures db.job.Built? && db.imm.Some? && |db.store.version| == NUM_LEVELS
  {
  }
}
