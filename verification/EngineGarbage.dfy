/** Removing files that nobody needs (db/db_impl.cc, RemoveObsoleteFiles): all of them go, and no other. */
module EngineGarbage {
  import opened Keys
  import opened Plans
  import opened Engine
  import opened EngineInvariant
  import opened EngineRuns

  // ------------------------------------------------------------------ tables that are being written

  /** The table that a flush has in hand, until it hands it over. */
  function FlushNumber(job: Job): set<nat> {
    match job
    case Building(n) => {n}
    case Built(n, _) => {n}
    case _ => {}
  }

  function MergeNumbers(run: Option<Run>): set<nat> {
    if run.Some? then run.value.numbers else {}
  }

  ghost predicate PendingOk(s: State) {
    s.Up? ==>
      && s.db.pendingOutputs == FlushNumber(s.db.job) + MergeNumbers(s.db.run)
      && FlushNumber(s.db.job) !! MergeNumbers(s.db.run)
  }

  lemma PendingBelow(s: State)
    requires Inv(s) && s.Up?
    ensures s.db.nextFile !in s.db.pendingOutputs
  {
    hide DiskOk, StoreOk, ContentOk, LogsMatch, SnapshotsOk, Readable, PinnedReadable, ManifestMatches, RunOk, JobOk,
         GarbageOk;
  }

  lemma PendingStep(s: State, step: Step)
    requires Inv(s) && Enabled(s, step) && PendingOk(s)
    ensures PendingOk(Perform(s, step))
  {
    hide Inv, FlushedStore, FlushedEdit, Extended, MergedStore, MovedStore, MergeEdit, LiveNumbers, Max, CanRecover,
         BatchEntries, Appended, Present, MayCutAll;
    if s.Up? {
      PendingBelow(s);
    }
  }

  /** In every reachable state the tables kept from removal although no version lists them are those of the flush and
      the merge under way. */
  lemma {:induction false} PendingIsUnderWay(states: seq<State>, steps: seq<Step>, i: nat)
    requires IsRun(states, steps) && i < |states|
    ensures PendingOk(states[i])
  {
    hide Inv, Enabled, Perform;
    if i > 0 {
      PendingIsUnderWay(states, steps, i - 1);
      RunInv(states, steps, i - 1);
      assert Follows(states, steps, i - 1);
      PendingStep(states[i - 1], steps[i - 1]);
    }
  }

  // ------------------------------------------------------------------ removal

  /** A version in use lists the table, or a merge under way writes it. */
  ghost predicate Needed(db: Db, n: nat) {
    n in MergeNumbers(db.run) || exists v: Version :: InUse(db, v) && n in Numbers(v)
  }

  /** Garbage has been found and not all of it is removed yet. */
  ghost predicate Removing(s: State) {
    s.Up? && s.db.job.NoJob? && !BackgroundFree(s.db)
  }

  /** What is left when the removal is done: the tables, and the logs but for new ones. */
  ghost predicate Leaves(s: State, tables: set<nat>, logs: set<nat>, next: nat) {
    && s.Up? && s.db.job.NoJob? && next <= s.db.nextFile
    && s.disk.tables.Keys - s.db.deadTables == tables
    && (forall n :: n in logs ==> n in s.disk.logs && n !in s.db.deadLogs)
    && (forall n :: n in s.disk.logs && n !in s.db.deadLogs && n < next ==> n in logs)
  }

  lemma RemovingStep(s: State, step: Step, tables: set<nat>, logs: set<nat>, next: nat)
    requires Removing(s) && Enabled(s, step) && !step.Crash? && Leaves(s, tables, logs, next)
    ensures Leaves(Perform(s, step), tables, logs, next)
  {
    hide FlushedStore, FlushedEdit, Extended, MergedStore, MovedStore, MergeEdit, LiveNumbers, Max, CanRecover,
         Reopened, TableOf, BatchEntries;
  }

  lemma {:induction false} RemovalLeaves(states: seq<State>, steps: seq<Step>, i: nat, j: nat, tables: set<nat>,
                                         logs: set<nat>, next: nat)
    requires IsRun(states, steps) && i <= j < |states| && Leaves(states[i], tables, logs, next)
    requires forall n :: i <= n < j ==> !steps[n].Crash? && Removing(states[n])
    ensures Leaves(states[j], tables, logs, next)
  {
    hide Enabled, Perform, Leaves, Removing;
    if i < j {
      RemovalLeaves(states, steps, i, j - 1, tables, logs, next);
      assert Follows(states, steps, j - 1);
      RemovingStep(states[j - 1], steps[j - 1], tables, logs, next);
    }
  }

  lemma LiveIsNeeded(db: Db, n: nat)
    requires db.pendingOutputs == MergeNumbers(db.run)
    ensures n in LiveNumbers(db) <==> Needed(db, n)
  {
    if n in LiveNumbers(db) && n !in db.pendingOutputs {
      if n in Numbers(db.store.version) {
        assert InUse(db, db.store.version);
      } else if db.run.Some? && n in Numbers(db.run.value.base) {
        assert InUse(db, db.run.value.base);
      } else {
        var v :| v in db.pinned && n in Numbers(v);
        assert InUse(db, v);
      }
    }
  }

  /** When all that was found is removed, exactly the tables are left that were needed when it was looked for, and of
      the logs there were those from the log number on. */
  lemma GarbageGoes(states: seq<State>, steps: seq<Step>, i: nat, j: nat)
    requires IsRun(states, steps) && i < j < |states| && steps[i].FindGarbage? && states[i].Up?
    requires forall n :: i < n < j ==> !steps[n].Crash? && Removing(states[n])
    requires states[j].Up? && states[j].db.deadTables == {} && states[j].db.deadLogs == {}
    ensures forall n :: n in states[j].disk.tables <==> n in states[i].disk.tables && Needed(states[i].db, n)
    ensures forall n :: n in states[j].disk.logs && n < states[i].db.nextFile ==>
              n in states[i].disk.logs && n >= states[i].db.logNumber
    ensures forall n :: n in states[i].disk.logs && n >= states[i].db.logNumber ==> n in states[j].disk.logs
  {
    hide LiveNumbers, Needed;
    PendingIsUnderWay(states, steps, i);
    assert Follows(states, steps, i);
    var s := states[i];
    assert s.db.pendingOutputs == MergeNumbers(s.db.run);
    var tables := set n | n in s.disk.tables && n in LiveNumbers(s.db);
    var logs := set n | n in s.disk.logs && n >= s.db.logNumber;
    assert Leaves(states[i + 1], tables, logs, s.db.nextFile);
    hide IsRun, Leaves;
    RemovalLeaves(states, steps, i + 1, j, tables, logs, s.db.nextFile);
    LeavesDone(states[j], tables, logs, s.db.nextFile);
    forall n ensures n in LiveNumbers(s.db) <==> Needed(s.db, n) {
      LiveIsNeeded(s.db, n);
    }
    assert forall n :: n in states[j].disk.logs && n < s.db.nextFile ==> n in logs;
  }

  lemma LeavesDone(s: State, tables: set<nat>, logs: set<nat>, next: nat)
    requires Leaves(s, tables, logs, next) && s.Up? && s.db.deadTables == {} && s.db.deadLogs == {}
    ensures s.disk.tables.Keys == tables
    ensures forall n :: n in logs ==> n in s.disk.logs
    ensures forall n :: n in s.disk.logs && n < next ==> n in logs
  {
  }

  /** After an opening, when its garbage is removed, exactly the tables of the version are left. */
  lemma OpeningRemovesGarbage(states: seq<State>, steps: seq<Step>, i: nat, j: nat)
    requires IsRun(states, steps) && i < j < |states| && steps[i].Recover?
    requires forall n :: i < n < j ==> !steps[n].Crash? && Removing(states[n])
    requires states[j].Up? && states[j].db.deadTables == {} && states[j].db.deadLogs == {}
    ensures states[i + 1].Up?
    ensures forall n :: n in states[j].disk.tables <==>
              n in states[i + 1].disk.tables && n in Numbers(states[i + 1].db.store.version)
    ensures forall n :: n in states[j].disk.logs && n < states[i + 1].db.nextFile ==>
              n in states[i + 1].disk.logs && n >= states[i + 1].db.logNumber
  {
    hide CanRecover, RecoveredEdits, WithTables, Reflushed, Numbers;
    assert Follows(states, steps, i);
    var s := states[i + 1];
    var tables := set n | n in s.disk.tables && n in Numbers(s.db.store.version);
    var logs := set n | n in s.disk.logs && n >= s.db.logNumber;
    assert Leaves(s, tables, logs, s.db.nextFile) by { OpeningLeaves(states[i], steps[i], s); }
    hide IsRun, Leaves;
    RemovalLeaves(states, steps, i + 1, j, tables, logs, s.db.nextFile);
    LeavesDone(states[j], tables, logs, s.db.nextFile);
  }

  lemma OpeningLeaves(s: State, step: Step, s': State)
    requires Enabled(s, step) && step.Recover? && s' == Perform(s, step)
    ensures s'.Up?
    ensures Leaves(s', (set n | n in s'.disk.tables && n in Numbers(s'.db.store.version)),
                   (set n | n in s'.disk.logs && n >= s'.db.logNumber), s'.db.nextFile)
  {
    hide RecoveredEdits, WithTables, Reflushed, Numbers;
  }
}
