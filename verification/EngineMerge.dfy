/** Merges and trivial moves keep the invariant. */
module EngineMerge {
  import opened Keys
  import opened Files
  import opened Plans
  import opened Layers
  import opened Invisibility
  import opened Builders
  import opened Engine
  import opened EngineEdits
  import opened EngineRecords
  import opened EngineInvariant
  import opened EngineWrites
  import opened EngineFlush

  // ------------------------------------------------------------------ PickMerge

  lemma StoreInstallable(st: Store, p: Plan)
    requires StoreOk(st) && PlanClosed(st.version, p)
    ensures Installable(st.version, st.version, p) && |st.version| == NUM_LEVELS
  {
    hide Layered, Unambiguous, VersionEntries, PlanClosed, Faithful, AllOrdered, NumbersIdentify;
    UnambiguousSub(VersionEntries(st.version), st.base);
    PickInstallable(st.version, p);
  }

  lemma SmallestIsSmallest(db: Db)
    requires SnapshotsOk(db.snapshots, db.store.horizon, db.lastSequence)
    ensures db.store.horizon <= SmallestSnapshot(db) <= db.lastSequence
    ensures forall i :: 0 <= i < |db.snapshots| ==> SmallestSnapshot(db) <= db.snapshots[i]
  {
  }

  lemma KeepPickMerge(d: Disk, history: set<Entry>, db: Db, p: Plan)
    requires DbOk(d, history, db) && CanPick(db, p)
    ensures DbOk(d, history, db.(run := Some(Run(p, db.store.version, SmallestSnapshot(db), {}))))
  {
    hide StoreOk, OnDisk, Unambiguous, Readable, PinnedReadable, Counted, LogsMatch, ContentOk, Installable,
         SnapshotsOk, PlanClosed;
    var db' := db.(run := Some(Run(p, db.store.version, SmallestSnapshot(db), {})));
    StoreInstallable(db.store, p);
    SmallestIsSmallest(db);
    assert forall m :: Unlisted(db, m) ==> Unlisted(db', m);
  }

  // ------------------------------------------------------------------ OpenOutput, WriteOutput

  lemma KeepOpenOutput(d: Disk, history: set<Entry>, db: Db)
    requires DiskOk(d, history) && DbOk(d, history, db) && BackgroundFree(db) && db.run.Some?
    ensures var n := db.nextFile;
            DbOk(d, history, db.(nextFile := n + 1, pendingOutputs := db.pendingOutputs + {n},
                                 run := Some(db.run.value.(numbers := db.run.value.numbers + {n}))))
  {
    hide StoreOk, OnDisk, Unambiguous, Readable, PinnedReadable, Counted, LogsMatch, ContentOk, Installable,
         SnapshotsOk, DiskOk, SeenNumbers;
    var n := db.nextFile;
    var db' := db.(nextFile := n + 1, pendingOutputs := db.pendingOutputs + {n},
                   run := Some(db.run.value.(numbers := db.run.value.numbers + {n})));
    NextUnseen(d, history, db);
    FreshUnlisted(d, db, n);
    MoreNumbers(d.tables, db, n + 1);
    assert forall m :: Unlisted(db, m) ==> Unlisted(db', m);
  }

  lemma KeepWriteOutput(d: Disk, history: set<Entry>, db: Db, n: nat, es: seq<Entry>)
    requires DiskOk(d, history) && DbOk(d, history, db)
    requires BackgroundFree(db) && db.run.Some? && n in db.run.value.numbers
    ensures var d' := d.(tables := d.tables[n := es]);
            DiskOk(d', history) && DbOk(d', history, db)
  {
    hide StoreOk, OnDisk, Unambiguous, Readable, PinnedReadable, Counted, LogsMatch, ContentOk, Installable,
         SnapshotsOk, LogsOk, Durable, ManifestOk;
    TableWrittenPinned(d.tables, n, es, db);
    TableWritten(d.tables, n, es, d.manifest.store.version);
  }

  // ------------------------------------------------------------------ ApplyMerge

  lemma InstalledNumbers(v: Version, p: Plan, outs: seq<File>, v': Version, l: nat, g: File)
    requires Installed(v, p, outs, v') && l < |v'| && g in v'[l]
    ensures (g in v[l] && g.number in Numbers(v)) || (g in outs && l == p.level + 1)
  {
  }

  /** The outputs carry numbers of their own. */
  ghost predicate OwnNumbers(v: Version, outs: seq<File>) {
    && (forall o :: o in outs ==> o.number !in Numbers(v))
    && (forall i, j :: 0 <= i < j < |outs| ==> outs[i].number != outs[j].number)
  }

  lemma OwnNumbersIdentify(v: Version, outs: seq<File>, f: File, g: File)
    requires OwnNumbers(v, outs) && f in outs && g in outs && f.number == g.number
    ensures f == g
  {
  }

  lemma InstalledIdentify(v: Version, p: Plan, outs: seq<File>, v': Version)
    requires NumbersIdentify(v) && Installed(v, p, outs, v') && OwnNumbers(v, outs)
    ensures NumbersIdentify(v')
  {
    hide OwnNumbers, Installed, Numbers;
    forall l, m, g, h | 0 <= l < |v'| && 0 <= m < |v'| && g in v'[l] && h in v'[m] && g.number == h.number
      ensures g == h && l == m
    {
      InstalledNumbers(v, p, outs, v', l, g);
      InstalledNumbers(v, p, outs, v', m, h);
      InstalledLength(v, p, outs, v');
      if g in outs && l == p.level + 1 {
        OwnNumber(v, outs, g);
        OwnNumbersIdentify(v, outs, g, h);
      } else if h in outs && m == p.level + 1 {
        OwnNumber(v, outs, h);
      }
    }
  }

  lemma InstalledLength(v: Version, p: Plan, outs: seq<File>, v': Version)
    requires Installed(v, p, outs, v')
    ensures |v| == |v'|
  {
  }

  lemma OwnNumber(v: Version, outs: seq<File>, o: File)
    requires OwnNumbers(v, outs) && o in outs
    ensures o.number !in Numbers(v)
  {
  }

  lemma InstalledOnDisk(tables: map<nat, seq<Entry>>, v: Version, p: Plan, outs: seq<File>, v': Version)
    requires OnDisk(tables, v) && Installed(v, p, outs, v')
    requires forall o :: o in outs ==> o.number in tables && tables[o.number] == o.entries
    ensures OnDisk(tables, v')
  {
    hide Installed;
    InstalledLength(v, p, outs, v');
    forall l, g | 0 <= l < |v'| && g in v'[l] ensures g.number in tables && tables[g.number] == g.entries {
      InstalledNumbers(v, p, outs, v', l, g);
    }
  }

  lemma InstalledBelow(v: Version, p: Plan, outs: seq<File>, v': Version, bound: nat)
    requires AllBelow(Numbers(v), bound) && Installed(v, p, outs, v')
    requires forall o :: o in outs ==> o.number < bound
    ensures AllBelow(Numbers(v'), bound)
  {
    hide Installed;
    forall n | n in Numbers(v') ensures n < bound {
      var l, g :| 0 <= l < |v'| && g in v'[l] && g.number == n;
      InstalledNumbers(v, p, outs, v', l, g);
    }
  }

  lemma OwnUnnumbered(v: Version, outs: seq<File>, l: nat)
    requires OwnNumbers(v, outs) && l < |v|
    ensures forall o :: o in outs ==> Unnumbered(v[l], o.number)
  {
    forall o, g | o in outs && g in v[l] ensures g.number != o.number {
      assert g.number in Numbers(v);
    }
  }

  lemma MergeFaithful(st: Store, base: Version, p: Plan, snapshot: nat, input: seq<Entry>, outs: seq<File>, v': Version)
    requires StoreOk(st) && Installable(st.version, base, p) && Installed(st.version, p, outs, v')
    requires MergeResult(base, p, snapshot, input, outs)
    ensures Faithful(Store(v', st.base, Max(st.horizon, snapshot)))
  {
    hide Layered, Unambiguous, VersionEntries, View, AllOrdered, NumbersIdentify, MergeResult, Installed, Installable;
    UnambiguousSub(VersionEntries(st.version), st.base);
    forall k, at | Max(st.horizon, snapshot) <= at ensures View(st.base, k, at) == View(VersionEntries(v'), k, at) {
      CompactionInvisible(st.version, base, p, snapshot, input, outs, v', k, at);
    }
  }

  lemma ResultFiles(base: Version, p: Plan, snapshot: nat, input: seq<Entry>, outs: seq<File>)
    requires MergeResult(base, p, snapshot, input, outs)
    ensures AllValid(outs) && OutputsOrdered(outs)
  {
  }

  lemma MergeStoreOk(st: Store, base: Version, p: Plan, snapshot: nat, input: seq<Entry>, outs: seq<File>)
    requires StoreOk(st) && |st.version| == NUM_LEVELS && Installable(st.version, base, p)
    requires MergeResult(base, p, snapshot, input, outs) && OwnNumbers(st.version, outs)
    ensures var v' := ApplyEdit(st.version, MergeEdit(p, outs));
            StoreOk(Store(v', st.base, Max(st.horizon, snapshot))) && Installed(st.version, p, outs, v')
  {
    hide Layered, Unambiguous, VersionEntries, View, AllOrdered, NumbersIdentify, MergeResult, Installed, Faithful,
         ApplyEdit, MergeEdit, Max, OthersAside, RestNewer, NothingNewBelow, ComesFrom, AllValid, OutputsOrdered,
         Unnumbered;
    var v' := ApplyEdit(st.version, MergeEdit(p, outs));
    OwnUnnumbered(st.version, outs, p.level + 1);
    MergeEditInstalls(st.version, p, outs);
    ResultComesFrom(base, p, snapshot, input, outs);
    ResultFiles(base, p, snapshot, input, outs);
    InstallKeepsLayers(st.version, base, p, outs, v');
    InstalledIdentify(st.version, p, outs, v');
    InstalledShrinks(st.version, base, p, outs, v');
    MergeFaithful(st, base, p, snapshot, input, outs, v');
  }

  lemma OutputsOwn(d: Disk, db: Db, outs: seq<File>)
    requires RunOk(db) && db.run.Some? && OutputsStored(d.tables, db.run.value.numbers, outs)
    ensures OwnNumbers(db.store.version, outs)
  {
    hide Installable;
  }

  lemma OutputsBelow(d: Disk, db: Db, outs: seq<File>)
    requires RunOk(db) && NumbersOk(db) && db.run.Some? && OutputsStored(d.tables, db.run.value.numbers, outs)
    ensures forall o :: o in outs ==> o.number < db.nextFile
    ensures forall o :: o in outs ==> o.number in d.tables && d.tables[o.number] == o.entries
  {
    hide Installable;
  }

  lemma HorizonRaised(snapshots: seq<nat>, horizon: nat, last: nat, snapshot: nat)
    requires SnapshotsOk(snapshots, horizon, last) && snapshot <= last
    requires forall i :: 0 <= i < |snapshots| ==> snapshot <= snapshots[i]
    ensures SnapshotsOk(snapshots, Max(horizon, snapshot), last)
  {
  }

  lemma FlushedCounted(db: Db)
    requires Counted(db.store.base + ImmEntries(db) + db.mem, db.lastSequence)
    ensures Counted(db.store.base, db.lastSequence)
  {
  }

  lemma LogNumberBelow(d: Disk, history: set<Entry>, db: Db)
    requires DbOk(d, history, db)
    ensures db.logNumber < db.nextFile
  {
  }

  /** The numbers of the results have not been on any level. */
  lemma MergeRecorded(d: Disk, history: set<Entry>, db: Db, outs: seq<File>)
    requires DiskOk(d, history) && DbOk(d, history, db) && BackgroundFree(db) && db.run.Some?
    requires |db.store.version| == NUM_LEVELS
    requires OutputsStored(d.tables, db.run.value.numbers, outs) && db.run.value.plan.level + 1 < NUM_LEVELS
    ensures var next := Extended(d, MergeEdit(db.run.value.plan, outs), MergedStore(db, outs), db.logNumber, db);
            && Recorded(next.edits, next.store.version, next.nextFile)
            && db.pendingOutputs - db.run.value.numbers !! SeenNumbers(next.edits)
  {
    hide OnDisk, Unambiguous, PinnedReadable, Counted, LogsMatch, ContentOk, Installable, SnapshotsOk, LogsOk, Durable,
         Readable, ApplyEdit, Recorded, SeenNumbers, Layered, NumbersIdentify, Faithful, AllOrdered, Unlisted;
    var m, p := d.manifest, db.run.value.plan;
    assert AllOrdered(db.store.version);
    OutputsBelow(d, db, outs);
    MergeEditAddsAt(p, outs);
    RecordNew(m.edits, m.store.version, m.nextFile, MergeEdit(p, outs), p.level + 1, outs, db.nextFile);
  }

  lemma MergeEditAddsAt(p: Plan, outs: seq<File>)
    requires p.level + 1 < NUM_LEVELS
    ensures AddsAt(MergeEdit(p, outs), p.level + 1, outs)
  {
    var e := MergeEdit(p, outs);
    forall a | a in e.added ensures a.0 < NUM_LEVELS {
    }
  }

  lemma KeepApplyMerge(d: Disk, history: set<Entry>, db: Db, input: seq<Entry>, outs: seq<File>)
    requires DiskOk(d, history) && DbOk(d, history, db) && CanApplyMerge(d, db, input, outs)
    ensures var next := Extended(d, MergeEdit(db.run.value.plan, outs), MergedStore(db, outs), db.logNumber, db);
            DbOk(d, history, db.(job := Applying(next, ByMerge)))
  {
    hide StoreOk, OnDisk, Unambiguous, PinnedReadable, Counted, LogsMatch, ContentOk, Installable, SnapshotsOk,
         ApplyEdit, MergeEdit, MergeResult, OutputsStored, OwnNumbers, Max, Installed, DiskOk, Recorded, SeenNumbers;
    var r := db.run.value;
    var store := MergedStore(db, outs);
    var next := Extended(d, MergeEdit(r.plan, outs), store, db.logNumber, db);
    var db' := db.(job := Applying(next, ByMerge));
    PlanLevels(db.store.version, r.base, r.plan);
    MergeRecorded(d, history, db, outs);
    OutputsOwn(d, db, outs);
    MergeStoreOk(db.store, r.base, r.plan, r.snapshot, input, outs);
    OutputsBelow(d, db, outs);
    InstalledOnDisk(d.tables, db.store.version, r.plan, outs, store.version);
    InstalledBelow(db.store.version, r.plan, outs, store.version, db.nextFile);
    HorizonRaised(db.snapshots, db.store.horizon, db.lastSequence, r.snapshot);
    SnapshotsHorizon(db.snapshots, store.horizon, db.lastSequence);
    FlushedCounted(db);
    LogNumberBelow(d, history, db);
    assert forall m :: Unlisted(db, m) ==> Unlisted(db', m);
  }

  lemma PlanLevels(cur: Version, base: Version, p: Plan)
    requires Installable(cur, base, p)
    ensures p.level + 1 < NUM_LEVELS
  {
  }

  // ------------------------------------------------------------------ ApplyMove

  lemma MovedFrom(v: Version, p: Plan, v': Version, f: File, l: nat, g: File)
    requires Installed(v, p, [f], v') && p.in0 == [f] && p.in1 == [] && l < |v'|
    requires f in v[p.level]
    ensures g in v'[l] <==> (g in v[l] && !(l == p.level && g == f)) || (l == p.level + 1 && g == f)
  {
    assert f in p.in0 && (g in p.in0 <==> g == f) && (g in [f] <==> g == f);
  }

  lemma MovedIdentify(v: Version, p: Plan, v': Version, f: File)
    requires NumbersIdentify(v) && Installed(v, p, [f], v') && p.in0 == [f] && p.in1 == [] && f in v[p.level]
    ensures NumbersIdentify(v')
  {
    hide Installed;
    InstalledLength(v, p, [f], v');
    InstalledLevels(v, p, [f], v');
    forall l, m, g, h | 0 <= l < |v'| && 0 <= m < |v'| && g in v'[l] && h in v'[m] && g.number == h.number
      ensures g == h && l == m
    {
      MovedFrom(v, p, v', f, l, g);
      MovedFrom(v, p, v', f, m, h);
    }
  }

  lemma InstalledLevels(v: Version, p: Plan, outs: seq<File>, v': Version)
    requires Installed(v, p, outs, v')
    ensures p.level + 1 < |v|
  {
  }

  lemma MovedEntries(v: Version, p: Plan, v': Version, f: File)
    requires Installed(v, p, [f], v') && p.in0 == [f] && p.in1 == [] && f in v[p.level]
    ensures VersionEntries(v') == VersionEntries(v)
  {
    hide Installed;
    InstalledLength(v, p, [f], v');
    InstalledLevels(v, p, [f], v');
    forall e | e in VersionEntries(v') ensures e in VersionEntries(v) {
      var l, g :| 0 <= l < |v'| && g in v'[l] && e in g.entries;
      MovedFrom(v, p, v', f, l, g);
    }
    forall e | e in VersionEntries(v) ensures e in VersionEntries(v') {
      var l, g :| 0 <= l < |v| && g in v[l] && e in g.entries;
      MovedFrom(v, p, v', f, l, g);
      MovedFrom(v, p, v', f, p.level + 1, f);
    }
  }

  lemma MoveStoreOk(st: Store, p: Plan, f: File)
    requires StoreOk(st) && |st.version| == NUM_LEVELS && Installable(st.version, st.version, p)
    requires p.in0 == [f] && p.in1 == []
    ensures var v' := ApplyEdit(st.version, MergeEdit(p, [f]));
            StoreOk(st.(version := v')) && Installed(st.version, p, [f], v')
  {
    hide Layered, Unambiguous, VersionEntries, View, AllOrdered, Installed, ApplyEdit, MergeEdit,
         OthersAside, RestNewer, NothingNewBelow, ComesFrom, AllValid, ValidFile;
    var v := st.version;
    var v' := ApplyEdit(v, MergeEdit(p, [f]));
    assert f in p.in0;
    assert f in v[p.level];
    assert Unnumbered(v[p.level + 1], f.number);
    MergeEditInstalls(v, p, [f]);
    assert ComesFrom([f], p.in0 + p.in1) by { MovedComesFrom(p, f); }
    assert AllValid([f]) by { FileValid(v, p.level, f); }
    InstallKeepsLayers(v, v, p, [f], v');
    MovedIdentify(v, p, v', f);
    MovedEntries(v, p, v', f);
  }

  lemma MovedComesFrom(p: Plan, f: File)
    requires p.in0 == [f]
    ensures ComesFrom([f], p.in0 + p.in1)
  {
    assert f in p.in0 + p.in1;
    forall e | e in f.entries ensures InSome(p.in0 + p.in1, e) {
    }
  }

  lemma FileValid(v: Version, l: nat, f: File)
    requires Layered(v) && l < NUM_LEVELS && f in v[l]
    ensures AllValid([f])
  {
    LayeredLevel(v, l);
  }

  /** The number of the file has not been on the level it moves to. */
  lemma MoveRecorded(d: Disk, history: set<Entry>, db: Db, p: Plan, f: File)
    requires DiskOk(d, history) && DbOk(d, history, db) && BackgroundFree(db) && |db.store.version| == NUM_LEVELS
    requires p.level + 1 < NUM_LEVELS && p.in0 == [f] && p.in1 == [] && f in db.store.version[p.level]
    ensures var next := Extended(d, MergeEdit(p, [f]), MovedStore(db, p), db.logNumber, db);
            Recorded(next.edits, next.store.version, next.nextFile) && db.pendingOutputs !! SeenNumbers(next.edits)
  {
    hide OnDisk, Unambiguous, PinnedReadable, Counted, LogsMatch, ContentOk, Installable, SnapshotsOk, LogsOk,
         Durable, Readable, ApplyEdit, Recorded, SeenNumbers, Layered, NumbersIdentify, Faithful, AllOrdered,
         Unlisted, MergeEdit;
    var m := d.manifest;
    assert AllOrdered(db.store.version) && NumbersIdentify(db.store.version);
    RecordMove(m.edits, m.store.version, m.nextFile, p, f, db.nextFile);
  }

  lemma KeepApplyMove(d: Disk, history: set<Entry>, db: Db, p: Plan)
    requires DiskOk(d, history) && DbOk(d, history, db) && CanPick(db, p) && |p.in0| == 1 && p.in1 == []
    requires |db.store.version| == NUM_LEVELS
    ensures var next := Extended(d, MergeEdit(p, p.in0), MovedStore(db, p), db.logNumber, db);
            DbOk(d, history, db.(job := Applying(next, ByMove)))
  {
    hide StoreOk, OnDisk, Unambiguous, PinnedReadable, Counted, LogsMatch, ContentOk, SnapshotsOk, ApplyEdit, MergeEdit,
         Installed, PlanClosed, OthersAside, RestNewer, NothingNewBelow, DiskOk, Recorded, SeenNumbers;
    var f := p.in0[0];
    assert p.in0 == [f] && f in p.in0;
    var v := db.store.version;
    var store := MovedStore(db, p);
    StoreInstallable(db.store, p);
    MoveRecorded(d, history, db, p, f);
    MoveStoreOk(db.store, p, f);
    MovedOnDisk(d.tables, v, p, f, store.version, db.nextFile);
    SnapshotsHorizon(db.snapshots, store.horizon, db.lastSequence);
    FlushedCounted(db);
    LogNumberBelow(d, history, db);
    var db' := db.(job := Applying(Extended(d, MergeEdit(p, p.in0), store, db.logNumber, db), ByMove));
    assert forall m :: Unlisted(db, m) ==> Unlisted(db', m);
  }

  lemma MovedOnDisk(tables: map<nat, seq<Entry>>, v: Version, p: Plan, f: File, v': Version, bound: nat)
    requires OnDisk(tables, v) && AllBelow(Numbers(v), bound) && Installed(v, p, [f], v') && f in v[p.level]
    ensures OnDisk(tables, v') && AllBelow(Numbers(v'), bound)
  {
    hide Installed;
    InstalledLevels(v, p, [f], v');
    assert f.number in Numbers(v);
    InstalledOnDisk(tables, v, p, [f], v');
    InstalledBelow(v, p, [f], v', bound);
  }
}
