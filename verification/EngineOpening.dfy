/** Opening works: in every reachable state in which the database is down, the replay of the logs gives recovery what it
    needs, unless a table is missing. */
module EngineOpening {
  import opened Keys
  import opened Layers
  import opened Builders
  import opened Engine
  import opened EngineEdits
  import opened EngineRecords
  import opened EngineInvariant
  import opened EngineRuns
  import opened EngineDurability
  import opened Replays

  // ------------------------------------------------------------------ sequence numbers in the logs

  /** The sequence numbers of all records fit into 56 bits, also of those without operations. */
  ghost predicate LogsBounded(logs: map<nat, LogFile>) {
    forall n :: n in logs ==> Bounded(logs[n].records)
  }

  lemma CutBounded(log: LogFile, c: Cut)
    requires MayCut(log, c) && Bounded(log.records)
    ensures Bounded(CutLog(log, c).records)
  {
  }

  lemma CrashBounded(logs: map<nat, LogFile>, cuts: map<nat, Cut>)
    requires MayCutAll(logs, cuts) && LogsBounded(logs)
    ensures LogsBounded(CutLogs(logs, cuts))
  {
    hide MayCut, CutLog, Bounded;
    forall n | n in logs ensures Bounded(CutLogs(logs, cuts)[n].records) {
      CutBounded(logs[n], cuts[n]);
    }
  }

  lemma StepKeepsBounded(s: State, step: Step)
    requires LogsBounded(s.disk.logs) && Enabled(s, step)
    ensures LogsBounded(Perform(s, step).disk.logs)
  {
    if step.Crash? {
      hide MayRevert, MayTear, Held, MayCutAll, CutLogs, Bounded;
      CrashBounded(s.disk.logs, step.cuts);
    } else if step.Recover? {
      hide ApplyEdit, WithTables, RecoveredEdits, IsRecoveredSequence, Successive, AllValid, FileEntries, Reflushed,
           Present;
    } else if !TouchesLogs(step) && !step.WriteManifest? {
      LogsUntouched(s, step);
    }
  }

  lemma {:induction false} RunBounded(states: seq<State>, steps: seq<Step>, i: nat)
    requires IsRun(states, steps) && i < |states|
    ensures LogsBounded(states[i].disk.logs)
  {
    hide Enabled, Perform, LogsBounded;
    if i == 0 {
      assert LogsBounded(NewDb().disk.logs) by { NoLogsBounded(); }
    } else {
      RunBounded(states, steps, i - 1);
      assert Follows(states, steps, i - 1);
      StepKeepsBounded(states[i - 1], steps[i - 1]);
    }
  }

  lemma NoLogsBounded()
    ensures LogsBounded(NewDb().disk.logs)
  {
  }

  // ------------------------------------------------------------------ opening

  lemma ReadyToReplay(s: State)
    requires Inv(s) && s.Down?
    ensures var m := s.disk.manifest;
            && LogsOk(s.disk.logs, m.logNumber) && m.logNumber <= m.nextFile && m.lastSequence < MAX_SEQUENCE
            && Counted(ReplayFrom(s.disk.logs, m.logNumber), MAX_SEQUENCE) && |m.store.version| == NUM_LEVELS
  {
    hide Unambiguous, Faithful, VersionEntries, AllOrdered, NumbersIdentify, Intact, LogsOk, LogsSized, ReplayFrom,
         Recorded, Numbers;
  }

  /** DBImpl::Recover, on what is on disk in any state of any run: if no table is missing, the machine may take the step
      with what the replay loop has found. */
  method OpenDatabase(ghost states: seq<State>, ghost steps: seq<Step>, ghost i: nat, d: Disk, numbers: seq<nat>,
                      reuseLogs: bool, append: bool, big: seq<Entry> -> bool, size: seq<Entry> -> nat)
    returns (o: Opening)
    requires IsRun(states, steps) && i < |states| && states[i].Down? && d == states[i].disk
    requires Enumerates(d, numbers)
    ensures Enabled(states[i], Recover(o)) <==> Present(d.tables, d.manifest.store.version)
    ensures o.append == append && o.reuse == Reusable(d, numbers, reuseLogs, big)
    ensures o.last == d.manifest.lastSequence || EndsAt(d, numbers, o.last)
  {
    hide Inv, IsRun, LogsOk, Counted, ReplayFrom, CanRecover, Present, Bounded, EndsAt, Outgrows;
    RunInv(states, steps, i);
    RunBounded(states, steps, i);
    ReadyToReplay(states[i]);
    o := RecoverLogs(d, numbers, reuseLogs, append, big, size);
  }
}
