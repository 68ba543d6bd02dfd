/** What users of the engine may rely on, for every run. */
module EngineTheorems {
  import opened Keys
  import opened Files
  import opened Plans
  import opened Layers
  import opened Invisibility
  import opened Picking
  import opened Lookup
  import opened Builders
  import opened Engine
  import opened EngineRecords
  import opened EngineInvariant
  import opened EngineWrites
  import opened EngineFlush
  import opened EngineRuns
  import opened Maps
  import opened EngineMaps
  import DbIters

  // ------------------------------------------------------------------ reads

  /** What a lookup over all layers finds. */
  ghost function Read(db: Db, k: UserKey, at: nat): Option<Bytes> {
    View(db.mem + ImmEntries(db) + VersionEntries(db.store.version), k, at)
  }

  /** The sequence numbers at which reads happen: live snapshots, and the last one. */
  predicate ReadPoint(db: Db, at: nat) {
    at == db.lastSequence || at in db.snapshots
  }

  lemma InvisibleTop(a: set<Entry>, top: set<Entry>, k: UserKey, at: nat)
    requires Unambiguous(a + top)
    requires forall e :: e in top ==> e.key.sequence > at
    ensures View(a + top, k, at) == View(a, k, at)
  {
    ViewBelow(a, top, k, at);
  }

  lemma WriterInvisible(d: Disk, history: set<Entry>, db: Db, at: nat)
    requires DbOk(d, history, db) && at <= db.lastSequence
    ensures forall e :: e in WriterEntries(db) ==> e.key.sequence > at
  {
    if db.writer.Some? {
      forall e | e in WriterEntries(db) ensures e.key.sequence > at {
        BatchRange(db.writer.value, e);
      }
    }
  }

  lemma ReadIsHistory(d: Disk, history: set<Entry>, db: Db, k: UserKey, at: nat)
    requires DiskOk(d, history) && DbOk(d, history, db)
    requires db.store.horizon <= at <= db.lastSequence
    ensures Read(db, k, at) == View(history, k, at)
  {
    hide VersionEntries, View, Layered, Unambiguous, OnDisk, LogsOk, LogsMatch, Durable, Readable, PinnedReadable,
         RunOk, JobOk, GarbageOk, NumbersOk, ManifestMatches, SnapshotsOk, Counted;
    var base := db.store.base;
    var files := VersionEntries(db.store.version);
    var top := ImmEntries(db) + db.mem;
    assert View(base, k, at) == View(files, k, at);
    UnambiguousSub(base + top, history);
    UnambiguousSub(files + top, history);
    ViewUnion(base, files, top, k, at);
    WriterInvisible(d, history, db, at);
    assert history == (base + top) + WriterEntries(db);
    InvisibleTop(base + top, WriterEntries(db), k, at);
    assert files + top == db.mem + ImmEntries(db) + files;
  }

  /** Over every run, a read at a live snapshot or at the last sequence number finds the newest entry
      for the key among all logged writes, whatever was flushed, merged or dropped. */
  lemma ReadsSeeHistory(states: seq<State>, steps: seq<Step>, i: nat, k: UserKey, at: nat)
    requires IsRun(states, steps) && i < |states| && states[i].Up? && ReadPoint(states[i].db, at)
    ensures Read(states[i].db, k, at) == View(states[i].history, k, at)
  {
    hide Read, View, DbOk, DiskOk;
    RunInv(states, steps, i);
    HorizonBelow(states[i].disk, states[i].history, states[i].db, at);
    ReadIsHistory(states[i].disk, states[i].history, states[i].db, k, at);
  }

  /** Over every run, crashes included, the answers to all reads are the map that the logged writes make, in the order
      of their sequence numbers and up to that of the reader: a put sets its key, a deletion removes it. */
  lemma ReadsAreMap(states: seq<State>, steps: seq<Step>, i: nat) returns (ws: seq<Write>)
    requires IsRun(states, steps) && i < |states| && states[i].Up?
    ensures IsAccount(states, steps, i, ws)
    ensures forall k, at :: ReadPoint(states[i].db, at) ==> Read(states[i].db, k, at) == Find(FoldTo(ws, at), k)
  {
    hide Read, View, IsRun, IsAccount, FoldTo, Find;
    assert |states| == |steps| + 1 by { RunLength(states, steps); }
    ws := HistoryIsWrites(states, steps, i);
    forall k, at | ReadPoint(states[i].db, at) ensures Read(states[i].db, k, at) == Find(FoldTo(ws, at), k) {
      ReadsSeeHistory(states, steps, i, k, at);
      assert Shows(states[i].history, FoldTo(ws, at), at);
    }
  }

  lemma RunLength(states: seq<State>, steps: seq<Step>)
    requires IsRun(states, steps)
    ensures |states| == |steps| + 1
  {
  }

  lemma HorizonBelow(d: Disk, history: set<Entry>, db: Db, at: nat)
    requires DbOk(d, history, db) && ReadPoint(db, at)
    ensures db.store.horizon <= at <= db.lastSequence
  {
  }

  lemma LayersInOrder(d: Disk, history: set<Entry>, db: Db)
    requires DiskOk(d, history) && DbOk(d, history, db)
    ensures var files := VersionEntries(db.store.version);
            && Layered(db.store.version)
            && SetNewer(db.mem, ImmEntries(db)) && SetNewer(db.mem, files) && SetNewer(ImmEntries(db), files)
            && Unambiguous(db.mem + ImmEntries(db) + files)
  {
    hide VersionEntries, Layered, Unambiguous, OnDisk, LogsOk, LogsMatch, Durable, Readable, PinnedReadable, RunOk,
         JobOk, GarbageOk, NumbersOk, ManifestMatches, SnapshotsOk, Counted, Faithful, AllOrdered;
    UnambiguousSub(db.mem + ImmEntries(db) + VersionEntries(db.store.version), history);
  }

  // ------------------------------------------------------------------ snapshot isolation

  /** Nothing changes at or below sequence number `at`. */
  ghost predicate SameUpTo(a: set<Entry>, b: set<Entry>, at: nat) {
    forall e: Entry :: e.key.sequence <= at ==> (e in a <==> e in b)
  }

  lemma SameView(a: set<Entry>, b: set<Entry>, k: UserKey, at: nat)
    requires Unambiguous(a) && Unambiguous(b) && SameUpTo(a, b, at)
    ensures View(a, k, at) == View(b, k, at)
  {
    if AnyVisible(a, k, at) {
      var e := Newest(a, k, at);
      assert IsNewest(b, k, at, e);
      ViewOf(a, k, at, e);
      ViewOf(b, k, at, e);
    } else {
      assert !AnyVisible(b, k, at);
    }
  }

  lemma StepGrows(s: State, step: Step)
    requires Inv(s) && Enabled(s, step) && s.Up? && !step.Crash?
    ensures var s' := Perform(s, step);
            && s'.Up? && s.db.lastSequence <= s'.db.lastSequence
            && s.history <= s'.history && SameUpTo(s.history, s'.history, s.db.lastSequence)
  {
    hide DbOk, DiskOk, Reopened, FlushedStore, FlushedEdit, Extended, MergedStore, MovedStore, MergeEdit, LiveNumbers,
         Max, CutLogs, Appended, BackgroundFree;
    if step.Append? {
      var b := Batch(s.db.lastSequence + 1, step.ops);
      forall e | e in BatchEntries(b) ensures e.key.sequence > s.db.lastSequence {
        BatchRange(b, e);
      }
    }
  }

  /** Reads at a snapshot do not change while the database stays up. */
  lemma SnapshotIsolation(states: seq<State>, steps: seq<Step>, i: nat, j: nat, k: UserKey, at: nat)
    requires IsRun(states, steps) && i <= j < |states|
    requires forall n :: i <= n < j ==> !steps[n].Crash?
    requires states[i].Up? && ReadPoint(states[i].db, at)
    ensures states[j].Up?
    ensures ReadPoint(states[j].db, at) ==> Read(states[j].db, k, at) == Read(states[i].db, k, at)
  {
    hide Read, View, DbOk, DiskOk, Unambiguous, SameUpTo;
    RunInv(states, steps, i);
    HorizonBelow(states[i].disk, states[i].history, states[i].db, at);
    RunGrows(states, steps, i, j, at);
    if ReadPoint(states[j].db, at) {
      RunInv(states, steps, j);
      ReadsSeeHistory(states, steps, i, k, at);
      ReadsSeeHistory(states, steps, j, k, at);
      HistoryUnambiguous(states[i]);
      HistoryUnambiguous(states[j]);
      SameView(states[i].history, states[j].history, k, at);
    }
  }

  /** What a merge may drop, it drops for the oldest reader: its snapshot is the least sequence number at which reads
      happen. */
  lemma MergesForOldestReader(states: seq<State>, steps: seq<Step>, i: nat, at: nat)
    requires IsRun(states, steps) && i < |states| && states[i].Up?
    ensures ReadPoint(states[i].db, SmallestSnapshot(states[i].db))
    ensures ReadPoint(states[i].db, at) ==> SmallestSnapshot(states[i].db) <= at
  {
    hide IsRun;
    RunInv(states, steps, i);
    SnapshotsInOrder(states[i]);
  }

  lemma SnapshotsInOrder(s: State)
    requires Inv(s) && s.Up?
    ensures forall n, m :: 0 <= n <= m < |s.db.snapshots| ==> s.db.snapshots[n] <= s.db.snapshots[m]
    ensures forall n :: 0 <= n < |s.db.snapshots| ==> s.db.snapshots[n] <= s.db.lastSequence
  {
    hide DiskOk, StoreOk, ContentOk, LogsMatch, Readable, PinnedReadable, NumbersOk, ManifestMatches, RunOk, JobOk,
         GarbageOk;
  }

  /** The step does not release a snapshot at this sequence number. */
  ghost predicate Spares(s: State, step: Step, at: nat) {
    step.ReleaseSnapshot? && s.Up? && step.index < |s.db.snapshots| ==> s.db.snapshots[step.index] != at
  }

  lemma SnapshotKept(s: State, step: Step, at: nat)
    requires Enabled(s, step) && s.Up? && !step.Crash? && Spares(s, step, at) && at in s.db.snapshots
    ensures Perform(s, step).Up? && at in Perform(s, step).db.snapshots
  {
    hide FlushedStore, FlushedEdit, Extended, MergedStore, MovedStore, MergeEdit, LiveNumbers, Max, Appended,
         BackgroundFree, CanRecover, Reopened;
    if step.ReleaseSnapshot? {
      var n :| 0 <= n < |s.db.snapshots| && s.db.snapshots[n] == at;
      var left := s.db.snapshots[..step.index] + s.db.snapshots[step.index + 1..];
      assert at == if n < step.index then left[n] else left[n - 1];
    }
  }

  /** A snapshot lives until it is released. */
  lemma {:induction false} SnapshotLives(states: seq<State>, steps: seq<Step>, i: nat, j: nat, at: nat)
    requires IsRun(states, steps) && i <= j < |states| && states[i].Up? && at in states[i].db.snapshots
    requires forall n :: i <= n < j ==> !steps[n].Crash? && Spares(states[n], steps[n], at)
    ensures states[j].Up? && at in states[j].db.snapshots
  {
    hide Enabled, Perform;
    if i < j {
      SnapshotLives(states, steps, i, j - 1, at);
      assert Follows(states, steps, j - 1);
      SnapshotKept(states[j - 1], steps[j - 1], at);
    }
  }

  /** A snapshot is of the moment it was taken: until it is released, reads at it find what reads without a snapshot
      found then. */
  lemma SnapshotIsOfNow(states: seq<State>, steps: seq<Step>, i: nat, j: nat, k: UserKey)
    requires IsRun(states, steps) && i < j < |states| && steps[i].TakeSnapshot? && states[i].Up?
    requires forall n :: i <= n < j ==> !steps[n].Crash? && Spares(states[n], steps[n], states[i].db.lastSequence)
    ensures states[i + 1].Up? && states[i + 1].db.snapshots != [] && states[j].Up?
    ensures var at := states[i + 1].db.snapshots[|states[i + 1].db.snapshots| - 1];
            at in states[j].db.snapshots
            && Read(states[j].db, k, at) == Read(states[i].db, k, states[i].db.lastSequence)
  {
    hide Read, Inv;
    assert Follows(states, steps, i);
    var at := states[i].db.lastSequence;
    assert states[i + 1].db.snapshots == states[i].db.snapshots + [at];
    hide IsRun;
    SnapshotLives(states, steps, i + 1, j, at);
    SnapshotIsolation(states, steps, i, j, k, at);
  }

  /** How often the version is unpinned by the steps from `i` up to `j`. */
  ghost function Unpins(steps: seq<Step>, i: nat, j: nat, v: Version): nat
    requires i <= j <= |steps|
  {
    if i == j then 0 else Unpins(steps, i, j - 1, v) + (if steps[j - 1] == Unpin(v) then 1 else 0)
  }

  lemma PinKept(s: State, step: Step, v: Version)
    requires Enabled(s, step) && s.Up? && !step.Crash?
    ensures Perform(s, step).Up?
    ensures Perform(s, step).db.pinned[v] + (if step == Unpin(v) then 1 else 0) >= s.db.pinned[v]
    ensures step.Pin? && v == s.db.store.version ==> Perform(s, step).db.pinned[v] == s.db.pinned[v] + 1
  {
    hide FlushedStore, FlushedEdit, Extended, MergedStore, MovedStore, MergeEdit, LiveNumbers, Max, Appended,
         BackgroundFree, CanRecover, Reopened;
  }

  /** A pinned version stays in use until it is unpinned as often as it was pinned. */
  lemma {:induction false} PinLives(states: seq<State>, steps: seq<Step>, i: nat, j: nat, v: Version)
    requires IsRun(states, steps) && i <= j < |states| && states[i].Up?
    requires forall n :: i <= n < j ==> !steps[n].Crash?
    ensures states[j].Up? && states[j].db.pinned[v] + Unpins(steps, i, j, v) >= states[i].db.pinned[v]
    ensures Unpins(steps, i, j, v) < states[i].db.pinned[v] ==> InUse(states[j].db, v)
  {
    hide Enabled, Perform;
    if i < j {
      PinLives(states, steps, i, j - 1, v);
      assert Follows(states, steps, j - 1);
      PinKept(states[j - 1], steps[j - 1], v);
    }
  }

  lemma HistoryUnambiguous(s: State)
    requires Inv(s)
    ensures Unambiguous(s.history)
  {
  }

  lemma {:induction false} RunGrows(states: seq<State>, steps: seq<Step>, i: nat, j: nat, at: nat)
    requires IsRun(states, steps) && i <= j < |states|
    requires forall n :: i <= n < j ==> !steps[n].Crash?
    requires states[i].Up? && at <= states[i].db.lastSequence
    ensures states[j].Up? && at <= states[j].db.lastSequence
    ensures states[i].history <= states[j].history && SameUpTo(states[i].history, states[j].history, at)
  {
    hide Inv, Enabled, Perform;
    if i < j {
      RunGrows(states, steps, i, j - 1, at);
      RunInv(states, steps, j - 1);
      assert Follows(states, steps, j - 1);
      StepGrows(states[j - 1], steps[j - 1]);
    }
  }

  // ------------------------------------------------------------------ layers read while the run goes on

  /** The memtable at state `h`, if it is still the one a reader took at state `i`, is what it was and entries newer
      than any the reader may see. */
  lemma {:induction false} MemtableGrows(states: seq<State>, steps: seq<Step>, i: nat, h: nat)
    requires IsRun(states, steps) && i <= h < |states| && states[i].Up?
    requires forall n :: i <= n < h ==> !steps[n].Crash? && !steps[n].Switch?
    ensures states[h].Up? && states[i].db.mem <= states[h].db.mem
    ensures states[i].db.lastSequence <= states[h].db.lastSequence
    ensures forall e :: e in states[h].db.mem && e !in states[i].db.mem ==> e.key.sequence > states[i].db.lastSequence
  {
    hide Inv, Enabled, Perform;
    if i < h {
      MemtableGrows(states, steps, i, h - 1);
      RunInv(states, steps, h - 1);
      assert Follows(states, steps, h - 1);
      StepGrows(states[h - 1], steps[h - 1]);
      MemtableStep(states[h - 1], steps[h - 1]);
    }
  }

  lemma MemtableStep(s: State, step: Step)
    requires Inv(s) && Enabled(s, step) && s.Up? && !step.Crash? && !step.Switch?
    ensures var s' := Perform(s, step);
            && s'.Up? && s.db.mem <= s'.db.mem
            && forall e :: e in s'.db.mem && e !in s.db.mem ==> e.key.sequence > s.db.lastSequence
  {
    if step.Insert? {
      hide DiskOk;
      WriterInvisible(s.disk, s.history, s.db, s.db.lastSequence);
    } else {
      MemtableKept(s, step);
    }
  }

  lemma MemtableKept(s: State, step: Step)
    requires Enabled(s, step) && s.Up? && !step.Crash? && !step.Switch? && !step.Insert?
    ensures Perform(s, step).Up? && Perform(s, step).db.mem == s.db.mem
  {
    hide FlushedStore, FlushedEdit, Extended, MergedStore, MovedStore, MergeEdit, LiveNumbers, Max, Appended,
         BackgroundFree, CanRecover, Reopened;
  }

  /** What a reader took under the mutex at state `i`, as it is later: the memtable as of state `h`, before any
      switch, and the files as of state `j`, while the version is in use. */
  ghost predicate Captured(states: seq<State>, steps: seq<Step>, i: nat, h: nat, j: nat) {
    && IsRun(states, steps) && i <= h < |states| && i <= j < |states| && states[i].Up? && states[j].Up?
    && (forall n :: i <= n < h ==> !steps[n].Crash? && !steps[n].Switch?)
    && InUse(states[j].db, states[i].db.store.version)
  }

  /** A reader that pins the version at step `i` reads it, as it was then, until it unpins it. */
  lemma PinCaptures(states: seq<State>, steps: seq<Step>, i: nat, j: nat)
    requires IsRun(states, steps) && i < j < |states| && states[i].Up? && steps[i].Pin?
    requires forall n :: i <= n < j ==> !steps[n].Crash?
    requires Unpins(steps, i + 1, j, states[i].db.store.version) <= states[i].db.pinned[states[i].db.store.version]
    ensures Captured(states, steps, i, i, j)
  {
    hide Enabled, Perform;
    assert Follows(states, steps, i);
    PinKept(states[i], steps[i], states[i].db.store.version);
    PinLives(states, steps, i + 1, j, states[i].db.store.version);
  }

  lemma CapturedLayers(states: seq<State>, steps: seq<Step>, i: nat, h: nat, j: nat)
    requires Captured(states, steps, i, h, j)
    ensures states[h].Up?
    ensures var mem, imm := states[h].db.mem, ImmEntries(states[i].db);
            var files := VersionEntries(states[i].db.store.version);
            && Layered(states[i].db.store.version) && OnDisk(states[j].disk.tables, states[i].db.store.version)
            && SetNewer(mem, imm) && SetNewer(mem, files) && SetNewer(imm, files)
            && Unambiguous(mem + imm + files)
  {
    hide VersionEntries, Layered, Unambiguous, DbOk, DiskOk, SetNewer, IsRun, OnDisk;
    RunInv(states, steps, i);
    RunInv(states, steps, h);
    RunInv(states, steps, j);
    MemtableGrows(states, steps, i, h);
    RunGrows(states, steps, i, h, states[i].db.lastSequence);
    var db := states[i].db;
    LayersInOrder(states[i].disk, states[i].history, db);
    LayersInHistory(states[i].disk, states[i].history, db);
    LayersInHistory(states[h].disk, states[h].history, states[h].db);
    GrownNewer(db.mem, states[h].db.mem, ImmEntries(db), db.lastSequence);
    GrownNewer(db.mem, states[h].db.mem, VersionEntries(db.store.version), db.lastSequence);
    HistoryUnambiguous(states[h]);
    UnambiguousSub(states[h].db.mem + ImmEntries(db) + VersionEntries(db.store.version), states[h].history);
    InUseOnDisk(states[j], db.store.version);
  }

  lemma LayersInHistory(d: Disk, history: set<Entry>, db: Db)
    requires DbOk(d, history, db)
    ensures db.mem <= history && ImmEntries(db) <= history && VersionEntries(db.store.version) <= history
    ensures Counted(db.mem, db.lastSequence) && Counted(ImmEntries(db), db.lastSequence)
    ensures Counted(VersionEntries(db.store.version), db.lastSequence)
  {
    hide VersionEntries, Layered, Unambiguous, OnDisk, LogsMatch, Readable, PinnedReadable, RunOk, JobOk, GarbageOk,
         NumbersOk, ManifestMatches, SnapshotsOk, Faithful, AllOrdered;
  }

  lemma GrownNewer(was: set<Entry>, now: set<Entry>, below: set<Entry>, last: nat)
    requires SetNewer(was, below) && Counted(below, last)
    requires forall e :: e in now && e !in was ==> e.key.sequence > last
    ensures SetNewer(now, below)
  {
  }

  lemma InUseOnDisk(s: State, v: Version)
    requires Inv(s) && s.Up? && InUse(s.db, v)
    ensures OnDisk(s.disk.tables, v)
  {
    hide DiskOk, StoreOk, OnDisk, RunOk, JobOk, GarbageOk, LogsMatch;
  }

  /** Layers taken at state `i` and read while the run goes on show the history as of state `i`. */
  lemma CapturedSeesHistory(states: seq<State>, steps: seq<Step>, i: nat, h: nat, j: nat, k: UserKey, at: nat)
    requires Captured(states, steps, i, h, j) && ReadPoint(states[i].db, at)
    ensures states[h].Up?
    ensures View(states[h].db.mem + ImmEntries(states[i].db) + VersionEntries(states[i].db.store.version), k, at) ==
              View(states[i].history, k, at)
  {
    hide VersionEntries, View, Layered, Unambiguous, DbOk, DiskOk, SetNewer, IsRun, OnDisk;
    CapturedLayers(states, steps, i, h, j);
    MemtableGrows(states, steps, i, h);
    ReadsSeeHistory(states, steps, i, k, at);
    assert at <= states[i].db.lastSequence by {
      RunInv(states, steps, i);
      HorizonBelow(states[i].disk, states[i].history, states[i].db, at);
    }
    var db, now := states[i].db, states[h].db.mem;
    assert (db.mem + ImmEntries(db) + VersionEntries(db.store.version)) + (now - db.mem) ==
           now + ImmEntries(db) + VersionEntries(db.store.version);
    InvisibleTop(db.mem + ImmEntries(db) + VersionEntries(db.store.version), now - db.mem, k, at);
  }

  /** Get: layers taken at state `i`, the lookup done without the mutex while the run goes on. */
  method GetSeesHistory(ghost states: seq<State>, ghost steps: seq<Step>, ghost i: nat, ghost h: nat, ghost j: nat,
                        mem: seq<Entry>, imm: seq<Entry>, version: Version, k: UserKey, at: nat)
    returns (r: Option<Bytes>, ghost ws: seq<Write>)
    requires Captured(states, steps, i, h, j) && states[h].Up? && ReadPoint(states[i].db, at)
    requires Sorted(mem) && ToSet(mem) == states[h].db.mem && Sorted(imm) && ToSet(imm) == ImmEntries(states[i].db)
    requires version == states[i].db.store.version
    ensures r == View(states[i].history, k, at)
    ensures |states| == |steps| + 1 && IsAccount(states, steps, i, ws) && r == Find(FoldTo(ws, at), k)
    ensures OnDisk(states[j].disk.tables, version)
  {
    hide View, Sorted, Layered, Unambiguous, VersionEntries, SetNewer, OnDisk, Find, FoldTo, IsAccount;
    ws := HistoryIsWrites(states, steps, i);
    hide Captured;
    assert Shows(states[i].history, FoldTo(ws, at), at);
    CapturedLayers(states, steps, i, h, j);
    r := Get(mem, imm, version, k, at);
    CapturedSeesHistory(states, steps, i, h, j, k, at);
  }

  /** The list a database iterator walks, over layers taken at state `i`, is the map that the history of state `i`
      shows. */
  lemma IteratorSeesHistory(states: seq<State>, steps: seq<Step>, i: nat, h: nat, j: nat, es: seq<Entry>, at: nat,
                            k: UserKey, v: Bytes)
    returns (ws: seq<Write>)
    requires Captured(states, steps, i, h, j) && states[h].Up? && ReadPoint(states[i].db, at)
    requires Sorted(es)
    requires ToSet(es) == states[h].db.mem + ImmEntries(states[i].db) + VersionEntries(states[i].db.store.version)
    ensures (k, v) in DbIters.VisibleMap(es, at) <==> View(states[i].history, k, at) == Some(v)
    ensures |states| == |steps| + 1 && IsAccount(states, steps, i, ws)
    ensures (k, v) in DbIters.VisibleMap(es, at) <==> k in FoldTo(ws, at) && FoldTo(ws, at)[k] == v
  {
    hide View, Sorted, Layered, Unambiguous, VersionEntries, DbIters.VisibleMap, SetNewer, OnDisk, FoldTo, IsAccount;
    ws := HistoryIsWrites(states, steps, i);
    hide Captured;
    assert Shows(states[i].history, FoldTo(ws, at), at);
    CapturedLayers(states, steps, i, h, j);
    DbIters.VisibleMapIsView(es, at, k, v);
    CapturedSeesHistory(states, steps, i, h, j, k, at);
  }

  // ------------------------------------------------------------------ crash consistency

  /** What the files of the manifest and the records of the logs it points to show. */
  ghost function DiskView(d: Disk, k: UserKey, at: nat): Option<Bytes> {
    View(VersionEntries(d.manifest.store.version) + ReplayFrom(d.logs, d.manifest.logNumber), k, at)
  }

  ghost predicate ShowsHistory(s: State, k: UserKey, at: nat) {
    && (s.disk.manifest.lastSequence <= at ==> DiskView(s.disk, k, at) == View(s.history, k, at))
    && (s.Up? ==> Present(s.disk.tables, s.disk.manifest.store.version))
    && (Present(s.disk.tables, s.disk.manifest.store.version) ==>
          OnDisk(s.disk.tables, s.disk.manifest.store.version))
  }

  lemma DiskShowsHistory(s: State, k: UserKey, at: nat)
    requires Inv(s)
    ensures ShowsHistory(s, k, at)
  {
    hide DiskOk, DbOk, DiskSane, View, OnDisk, Present, TearOk;
    DiskOkIff(s.disk, s.history);
    if s.disk.manifest.lastSequence <= at {
      SaneDiskShows(s.disk, s.history, k, at);
    }
    if Present(s.disk.tables, s.disk.manifest.store.version) {
      PresentIsOnDisk(s.disk, s.history);
    }
  }

  lemma PresentIsOnDisk(d: Disk, history: set<Entry>)
    requires DiskSane(d, history) && Present(d.tables, d.manifest.store.version)
    ensures OnDisk(d.tables, d.manifest.store.version)
  {
    hide ManifestOk, LogsOk, LogsSized, Durable, Unambiguous, Counted, OnDisk, Intact, Present;
    OnDiskIff(d.tables, d.manifest.store.version);
  }

  lemma SaneDiskShows(d: Disk, history: set<Entry>, k: UserKey, at: nat)
    requires DiskSane(d, history) && d.manifest.lastSequence <= at
    ensures DiskView(d, k, at) == View(history, k, at)
  {
    hide VersionEntries, View, Layered, Unambiguous, Intact, LogsOk, ReplayFrom;
    var m := d.manifest;
    var top := ReplayFrom(d.logs, m.logNumber);
    assert history == m.store.base + top;
    UnambiguousSub(VersionEntries(m.store.version) + top, history);
    ViewUnion(m.store.base, VersionEntries(m.store.version), top, k, at);
  }

  /** In every reachable state, up or down, disk shows exactly what the logged writes show; and whatever a crash
      does to the logs and to a torn manifest, what the next opening finds is exactly what is left of them.  The
      tables that this speaks of have their contents if they are there, which is what opening looks at. */
  lemma DiskHoldsHistory(states: seq<State>, steps: seq<Step>, i: nat, k: UserKey, at: nat)
    requires IsRun(states, steps) && i < |states|
    ensures ShowsHistory(states[i], k, at)
    ensures forall cuts, revert, tear :: Enabled(states[i], Crash(cuts, revert, tear)) ==>
              ShowsHistory(Perform(states[i], Crash(cuts, revert, tear)), k, at)
  {
    hide Inv, Enabled, Perform, ShowsHistory, IsRun;
    RunInv(states, steps, i);
    DiskShowsHistory(states[i], k, at);
    forall cuts, revert, tear | Enabled(states[i], Crash(cuts, revert, tear))
      ensures ShowsHistory(Perform(states[i], Crash(cuts, revert, tear)), k, at)
    {
      StepKeepsInv(states[i], Crash(cuts, revert, tear));
      DiskShowsHistory(Perform(states[i], Crash(cuts, revert, tear)), k, at);
    }
  }

  /** Right after recovery nothing is newer than the last sequence number, and every key reads as in the
      history that survived. */
  lemma RecoveryShowsHistory(states: seq<State>, steps: seq<Step>, i: nat, k: UserKey)
    requires IsRun(states, steps) && i < |steps| && steps[i].Recover?
    ensures var s := states[i + 1];
            && s.Up? && s.history == states[i].history
            && Counted(s.history, s.db.lastSequence)
            && forall at :: s.db.lastSequence <= at ==> Read(s.db, k, s.db.lastSequence) == View(s.history, k, at)
  {
    hide Read, View, DbOk, DiskOk, Unambiguous, SameUpTo, CanRecover, Enabled;
    RunInv(states, steps, i + 1);
    assert Follows(states, steps, i);
    var s := states[i + 1];
    var r := steps[i];
    RecoverStarts(states[i], r);
    CanReuse(states[i].disk, r.opening);
    ReopenedUp(states[i].disk, states[i].history, r.opening);
    assert s.db.writer.None?;
    AllCounted(s.disk, s.history, s.db);
    ReadsSeeHistory(states, steps, i + 1, k, s.db.lastSequence);
    HistoryUnambiguous(s);
    forall at | s.db.lastSequence <= at ensures View(s.history, k, s.db.lastSequence) == View(s.history, k, at) {
      LaterView(s.history, k, s.db.lastSequence, at);
    }
  }

  lemma RecoverStarts(s: State, step: Step)
    requires Enabled(s, step) && step.Recover?
    ensures s.Down? && |s.disk.manifest.store.version| == NUM_LEVELS
    ensures CanRecover(s.disk, step.opening)
  {
  }

  lemma AllCounted(d: Disk, history: set<Entry>, db: Db)
    requires DbOk(d, history, db) && db.writer.None?
    ensures Counted(history, db.lastSequence)
  {
    assert history == db.store.base + ImmEntries(db) + db.mem;
  }

  lemma LaterView(s: set<Entry>, k: UserKey, last: nat, at: nat)
    requires Counted(s, last) && last <= at && Unambiguous(s)
    ensures View(s, k, last) == View(s, k, at)
  {
    if AnyVisible(s, k, last) {
      var e := Newest(s, k, last);
      assert IsNewest(s, k, at, e);
      ViewOf(s, k, last, e);
      ViewOf(s, k, at, e);
    } else {
      assert !AnyVisible(s, k, at);
    }
  }

  /** In every reachable state no number has entered a level twice by the edits of the manifest, the version is what
      they amount to one by one, and recovery finds it by feeding them all to one builder. */
  lemma ManifestRebuildsVersion(states: seq<State>, steps: seq<Step>, i: nat)
    requires IsRun(states, steps) && i < |states|
    ensures var m := states[i].disk.manifest;
            && NeverReenters({}, m.edits) && ApplyEach(Manifests.EmptyVersion(), m.edits) == m.store.version
            && SaveTo(Manifests.EmptyVersion(), ApplyAll(Fresh(), m.edits)) == m.store.version
  {
    hide Layered, AllOrdered, Unambiguous, Faithful, VersionEntries, IsRun, OnDisk, LogsOk, Durable,
         NeverReenters, ApplyEach, ApplyAll;
    RunInv(states, steps, i);
    var m := states[i].disk.manifest;
    RecordedReplays(m.edits, m.store.version, m.nextFile);
  }

  /** The edit that a flush, a merge or a move hands to LogAndApply adds no number to a level it has been on. */
  lemma EditsAddUnseen(states: seq<State>, steps: seq<Step>, i: nat)
    requires IsRun(states, steps) && i < |steps|
             && (steps[i].ApplyFlush? || steps[i].ApplyMerge? || steps[i].ApplyMove?)
    ensures states[i + 1].Up? && states[i + 1].db.job.Applying?
    ensures var edits, edits' := states[i].disk.manifest.edits, states[i + 1].db.job.next.edits;
            |edits'| == |edits| + 1 && edits' == edits + [edits'[|edits|]] && AddsUnseen(Seen(edits), edits'[|edits|])
  {
    hide DiskOk, IsRun, Enabled, Inv, Perform, AddsUnseen, Seen, NeverReenters;
    RunFollows(states, steps, i);
    RunInv(states, steps, i + 1);
    var e := HandedOver(states[i], steps[i]);
    var edits := states[i].disk.manifest.edits;
    ApplyingRecorded(states[i + 1]);
    NeverReentersLast({}, edits, e);
    assert {} + Seen(edits) == Seen(edits);
  }

  lemma RunFollows(states: seq<State>, steps: seq<Step>, i: nat)
    requires IsRun(states, steps) && i < |steps|
    ensures |states| == |steps| + 1 && Follows(states, steps, i)
  {
    hide Enabled, Perform;
  }

  lemma HandedOver(s: State, step: Step) returns (e: Edit)
    requires Enabled(s, step) && (step.ApplyFlush? || step.ApplyMerge? || step.ApplyMove?)
    ensures Perform(s, step).Up? && Perform(s, step).db.job.Applying?
    ensures Perform(s, step).db.job.next.edits == s.disk.manifest.edits + [e]
  {
    hide FlushedStore, FlushedEdit, MergedStore, MovedStore, MergeEdit, MergeResult, PlanClosed, OutputsStored,
         ClearTo, Aside;
    match step
    case ApplyFlush(level) => e := FlushedEdit(s.db, level);
    case ApplyMerge(_, outs) => e := MergeEdit(s.db.run.value.plan, outs);
    case ApplyMove(p) => e := MergeEdit(p, p.in0);
  }

  lemma ApplyingRecorded(s: State)
    requires Inv(s) && s.Up? && s.db.job.Applying?
    ensures NeverReenters({}, s.db.job.next.edits)
  {
    hide StoreOk, OnDisk, RunOk, GarbageOk, LogsMatch, Readable, PinnedReadable, NeverReenters, DiskOk, ContentOk,
         SnapshotsOk;
  }

  // ------------------------------------------------------------------ layers, snapshots of merges

  /** Shallower is newer, and levels above 0 are sorted and disjoint, in every reachable state. */
  lemma AlwaysLayered(states: seq<State>, steps: seq<Step>, i: nat)
    requires IsRun(states, steps) && i < |states|
    ensures Layered(states[i].disk.manifest.store.version)
    ensures states[i].Up? ==> Layered(states[i].db.store.version)
  {
    hide Layered, AllOrdered, Unambiguous, Faithful, VersionEntries, IsRun, OnDisk, LogsOk, Durable;
    RunInv(states, steps, i);
  }

  /** The snapshot a merge works with is a lower bound for every snapshot that is live or taken later. */
  lemma MergeSnapshotIsLowerBound(states: seq<State>, steps: seq<Step>, i: nat, at: nat)
    requires IsRun(states, steps) && i < |states| && states[i].Up? && states[i].db.run.Some?
    requires ReadPoint(states[i].db, at)
    ensures states[i].db.run.value.snapshot <= at
  {
    hide Layered, StoreOk, Unambiguous, IsRun, OnDisk, LogsOk, Durable;
    RunInv(states, steps, i);
  }

  // ------------------------------------------------------------------ removing files

  /** Every file of the current version, of a version that a reader holds, of the version a merge works on, and of
      the version in the manifest is on disk with its contents in every reachable state in which the database is open,
      and, if recovery never appends to a torn manifest, in all others.  No file of these is ever overwritten. */
  lemma FilesInUseExist(states: seq<State>, steps: seq<Step>, i: nat, v: Version, l: nat, f: File)
    requires IsRun(states, steps) && i < |states|
    requires v == states[i].disk.manifest.store.version || (states[i].Up? && InUse(states[i].db, v))
    requires l < |v| && f in v[l]
    ensures states[i].Up? || IsSoundRun(states, steps) ==> f.number in states[i].disk.tables
    ensures f.number in states[i].disk.tables ==> states[i].disk.tables[f.number] == f.entries
  {
    hide Layered, StoreOk, Unambiguous, IsRun, LogsOk, Durable, LogsMatch;
    RunInv(states, steps, i);
    if states[i].Up? {
      assert OnDisk(states[i].disk.tables, v);
    } else if IsSoundRun(states, steps) {
      RunKeepsTables(states, steps, i);
      assert f.number in Numbers(v);
    }
  }

  /** No table in use, and no output of a running merge or flush, is ever deleted. */
  lemma DeletedIsUnused(states: seq<State>, steps: seq<Step>, i: nat, v: Version)
    requires IsRun(states, steps) && i < |steps| && steps[i].DeleteTable?
    ensures states[i].Up?
    ensures steps[i].number !in states[i].db.pendingOutputs
    ensures states[i].db.run.Some? ==> steps[i].number !in states[i].db.run.value.numbers
    ensures InUse(states[i].db, v) || v == states[i].disk.manifest.store.version ==> steps[i].number !in Numbers(v)
  {
    hide Layered, StoreOk, Unambiguous, LogsOk, Durable, LogsMatch, OnDisk, Perform, Numbers;
    RunInv(states, steps, i);
    assert Follows(states, steps, i);
    var db := states[i].db;
    assert Unlisted(db, steps[i].number);
  }
}
