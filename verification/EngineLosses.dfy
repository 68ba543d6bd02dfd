/** Runs in which a crash takes more than the last writes. */
module EngineLosses {
  import opened Keys
  import opened Files
  import opened Layers
  import opened Builders
  import opened Engine
  import opened EngineRecords
  import opened EngineInvariant
  import opened EngineWrites
  import opened EngineRecovery
  import opened EngineRuns
  import opened EngineDurability
  import opened EngineCrashes

  // ------------------------------------------------------------------ the first steps of a new database

  /** The manifest after the first opening: no files, log number 3. */
  ghost predicate FirstManifest(m: Manifest) {
    m.store == Store(Manifests.EmptyVersion(), {}, 0) && m.logNumber == 3 && m.nextFile == 4 && m.lastSequence == 0
  }

  ghost predicate At(s: State, logs: map<nat, LogFile>, tear: Option<Manifest>, last: nat, writer: Option<Batch>) {
    && s.Up? && s.disk.logs == logs && s.disk.tear == tear
    && s.db.logFile in logs && s.db.nextFile > s.db.logFile && s.db.lastSequence == last && s.db.writer == writer
       && s.db.imm.None?
  }

  function FirstOpening(): Step {
    Recover(Opening([], None, false, true, 3, 0))
  }

  lemma Opened() returns (s: State)
    ensures Enabled(NewDb(), FirstOpening()) && s == Perform(NewDb(), FirstOpening())
    ensures At(s, map[3 := NewLog()], None, 0, None) && s.db.logFile == 3 && s.db.nextFile == 4
    ensures FirstManifest(s.disk.manifest) && s.history == {}
    ensures s.db == Db({}, None, s.disk.manifest.store, multiset{}, 0, 4, 3, 3, [], {}, None, None, NoJob, {}, {})
    ensures s.disk.tables == map[]
  {
    hide ApplyEdit;
    FirstOpen(NewDb());
    NothingRecovered();
    s := Perform(NewDb(), FirstOpening());
    assert s.disk.logs == map[3 := NewLog()];
    assert Reflushed(NewDb().disk, None) == {};
  }

  lemma NothingRecovered()
    ensures ApplyEdit(Manifests.EmptyVersion(), RecoverEdit([])) == Manifests.EmptyVersion()
  {
    hide ApplyEdit;
    assert RecoverEdit([]) == Edit({}, []);
    NoFilesOk(Manifests.EmptyVersion());
    EmptyEdit(Manifests.EmptyVersion());
  }

  lemma NoneMissing(tables: map<nat, seq<Entry>>)
    ensures Present(tables, Manifests.EmptyVersion())
  {
    NoFilesOk(Manifests.EmptyVersion());
  }

  lemma FirstOpen(s: State)
    requires s == NewDb()
    ensures Enabled(s, FirstOpening())
  {
    NoneMissing(s.disk.tables);
    assert ReplayFrom(s.disk.logs, 0) == {};
    assert FileEntries([]) == {};
  }

  lemma Logged(s: State, b: Batch, sync: bool) returns (s': State)
    requires 0 < b.start
    requires At(s, s.disk.logs, s.disk.tear, b.start - 1, None) && s.disk.logs[s.db.logFile].records == []
    requires |b.ops| == 1 && b.start < MAX_SEQUENCE
    ensures Enabled(s, Append(b.ops, sync)) && s' == Perform(s, Append(b.ops, sync))
    ensures var n := s.db.logFile;
            At(s', s.disk.logs[n := LogFile([b], if sync then 1 else s.disk.logs[n].synced, s.disk.logs[n].torn)],
               s.disk.tear, b.start - 1, Some(b))
    ensures s'.db == s.db.(writer := Some(b)) && s'.disk.manifest == s.disk.manifest && s'.disk.tables == s.disk.tables
    ensures s'.history == s.history + BatchEntries(b)
  {
    s' := Perform(s, Append(b.ops, sync));
    assert [] + [b] == [b];
  }

  lemma OnlyOp(b: Batch)
    requires |b.ops| == 1
    ensures BatchEntries(b) == {OpEntry(b.ops[0], b.start)} && RecordEntries([b]) == BatchEntries(b)
  {
    assert [b][0] == b;
  }

  lemma NothingLogged(logs: map<nat, LogFile>, from: nat)
    requires forall n :: n in logs && from <= n ==> logs[n].records == []
    ensures ReplayFrom(logs, from) == {}
  {
    assert RecordEntries([]) == {};
  }

  // ------------------------------------------------------------------ a write from the middle

  function LosingCrash(): Step {
    Crash(map[3 := Cut(0, 0, false), 4 := Cut(1, 0, false)], false, false)
  }

  function TwoLogs(): seq<Step> {
    [FirstOpening(), Append([Put(0.0, [])], false), Insert, Switch, Append([Put(1.0, [])], false), LosingCrash()]
  }

  /** The first of two unsynced writes, in the log before a memtable switch, is lost; the second stays. */
  lemma CrashMayLoseTheMiddle() returns (states: seq<State>)
    ensures IsSoundRun(states, TwoLogs()) && !IsPrefix(states[6].history, states[5].history)
  {
    hide IsPrefix, Enabled, Perform;
    var b1, b2 := Batch(1, [Put(0.0, [])]), Batch(2, [Put(1.0, [])]);
    var s1 := Opened();
    var s2 := Logged(s1, b1, false);
    var s3, s4 := Switched(s2, b1);
    var s5 := LoggedBehind(s4, b1, b2);
    assert Enabled(s5, LosingCrash()) by { MayLose(s5, b1, b2); }
    var s6 := Perform(s5, LosingCrash());
    states := [NewDb(), s1, s2, s3, s4, s5, s6];
    assert forall i :: 0 <= i < 6 ==> Follows(states, TwoLogs(), i);
    LostInTheMiddle(s5, b1, b2);
  }

  lemma Switched(s: State, b: Batch) returns (s': State, s'': State)
    requires At(s, map[3 := LogFile([b], 0, None)], None, 0, Some(b)) && s.db.logFile == 3 && s.db.nextFile == 4
    requires |b.ops| == 1
    ensures Enabled(s, Insert) && s' == Perform(s, Insert)
    ensures Enabled(s', Switch) && s'' == Perform(s', Switch)
    ensures s''.Up? && s''.disk.logs == map[3 := LogFile([b], 0, None), 4 := NewLog()] && s''.disk.tear == None
    ensures s''.db.logFile == 4 && s''.db.lastSequence == 1 && s''.db.writer.None?
    ensures s''.history == s.history && s''.disk.manifest == s.disk.manifest
  {
    s' := Perform(s, Insert);
    s'' := Perform(s', Switch);
  }

  lemma LoggedBehind(s: State, b1: Batch, b2: Batch) returns (s': State)
    requires s.Up? && s.disk.logs == map[3 := LogFile([b1], 0, None), 4 := NewLog()] && s.disk.tear == None
    requires s.db.logFile == 4 && s.db.lastSequence == 1 && s.db.writer.None? && b2.start == 2 && |b2.ops| == 1
    ensures Enabled(s, Append(b2.ops, false)) && s' == Perform(s, Append(b2.ops, false))
    ensures s'.disk.logs == map[3 := LogFile([b1], 0, None), 4 := LogFile([b2], 0, None)] && s'.disk.tear == None
    ensures s'.disk.manifest == s.disk.manifest && s'.history == s.history + BatchEntries(b2)
  {
    s' := Perform(s, Append(b2.ops, false));
    assert [] + [b2] == [b2];
  }

  lemma MayLose(s: State, b1: Batch, b2: Batch)
    requires s.disk.logs == map[3 := LogFile([b1], 0, None), 4 := LogFile([b2], 0, None)] && s.disk.tear == None
    ensures Enabled(s, LosingCrash())
  {
  }

  lemma LostInTheMiddle(s: State, b1: Batch, b2: Batch)
    requires b1 == Batch(1, [Put(0.0, [])]) && b2 == Batch(2, [Put(1.0, [])])
    requires s.disk.logs == map[3 := LogFile([b1], 0, None), 4 := LogFile([b2], 0, None)]
    requires FirstManifest(s.disk.manifest)
    requires BatchEntries(b1) + BatchEntries(b2) <= s.history
    requires Enabled(s, LosingCrash())
    ensures !IsPrefix(Perform(s, LosingCrash()).history, s.history)
  {
    hide ReplayFrom, RecordEntries, BatchEntries;
    var cut := Perform(s, LosingCrash()).disk.logs;
    var x, y := OpEntry(b2.ops[0], 2), OpEntry(b1.ops[0], 1);
    assert cut.Keys == {3, 4} && cut[3].records == [] && cut[4].records == [b2] by {
      assert [b2][..1] == [b2] && [b1][..0] == [];
    }
    OnlyOp(b1);
    OnlyOp(b2);
    InReplayFrom(cut, 3, 4);
    assert y !in ReplayFrom(cut, 3) by { SecondOnly(cut, b2, y); }
  }

  lemma SecondOnly(cut: map<nat, LogFile>, b: Batch, y: Entry)
    requires cut.Keys == {3, 4} && cut[3].records == [] && cut[4].records == [b] && y.key.sequence < b.start
    ensures y !in ReplayFrom(cut, 3)
  {
    assert RecordEntries([]) == {};
    forall n | n in cut && 3 <= n ensures y !in RecordEntries(cut[n].records) {
      forall i | 0 <= i < |cut[n].records| ensures y !in BatchEntries(cut[n].records[i]) {
        assert cut[n].records[i] == b;
        forall j | 0 <= j < |b.ops| ensures OpEntry(b.ops[j], b.start + j) != y {
        }
      }
    }
  }

  // ------------------------------------------------------------------ a synced write behind a torn log

  /** The write is in the middle of the file when the machine stops: no record is left, but part of one. */
  function TearingCrash(): Step {
    Crash(map[3 := Cut(0, 0, true)], false, false)
  }

  function ReuseOpening(): Step {
    Recover(Opening([], Some(3), true, false, 5, 0))
  }

  function HidingCrash(): Step {
    Crash(map[3 := Cut(1, 1, true)], false, false)
  }

  function TornLog(): seq<Step> {
    [FirstOpening(), Append([Put(0.0, [])], false), TearingCrash(), ReuseOpening(), Append([Put(1.0, [])], true),
     HidingCrash()]
  }

  /** With reuse_logs: a log torn by a crash is used again, and a synced write to it is gone after the next crash. */
  lemma TornLogLosesSyncedWrite() returns (states: seq<State>)
    ensures IsSoundRun(states, TornLog()) && TornLog()[4].sync && states[4].Up?
    ensures states[5].history == BatchEntries(Batch(states[4].db.lastSequence + 1, TornLog()[4].ops)) != {}
    ensures states[6].history == {}
  {
    hide Enabled, Perform;
    var b1, b2 := Batch(1, [Put(0.0, [])]), Batch(1, [Put(1.0, [])]);
    var s1 := Opened();
    var s2 := Logged(s1, b1, false);
    var s3, s4 := Reused(s2, b1);
    var s5 := Logged(s4, b2, true);
    var s6 := Hidden(s5, b2);
    states := [NewDb(), s1, s2, s3, s4, s5, s6];
    assert forall i :: 0 <= i < 6 ==> Follows(states, TornLog(), i);
    OnlyOp(b2);
  }

  lemma Reused(s: State, b: Batch) returns (s': State, s'': State)
    requires At(s, map[3 := LogFile([b], 0, None)], None, 0, Some(b)) && FirstManifest(s.disk.manifest)
    ensures Enabled(s, TearingCrash()) && s' == Perform(s, TearingCrash()) && s'.disk.tear == None
    ensures Enabled(s', ReuseOpening()) && s'' == Perform(s', ReuseOpening())
    ensures At(s'', map[3 := LogFile([], 0, Some(0))], None, 0, None) && s''.db.logFile == 3
    ensures FirstManifest(s''.disk.manifest) && s''.history == {}
  {
    hide ApplyEdit;
    s' := Perform(s, TearingCrash());
    assert s'.disk.logs == map[3 := LogFile([], 0, Some(0))] by {
      assert [b][..0] == [];
    }
    NothingLogged(s'.disk.logs, 3);
    assert Replay(s'.disk.logs, 3, 3) == {} && FileEntries([]) == {};
    NoneMissing(s'.disk.tables);
    s'' := Perform(s', ReuseOpening());
  }

  lemma Hidden(s: State, b: Batch) returns (s': State)
    requires s.Up? && s.disk.logs == map[3 := LogFile([b], 1, Some(0))] && s.disk.tear == None
    requires FirstManifest(s.disk.manifest)
    ensures Enabled(s, HidingCrash()) && s' == Perform(s, HidingCrash()) && s'.history == {}
  {
    s' := Perform(s, HidingCrash());
    assert s'.disk.logs[3].records == [];
    NothingLogged(s'.disk.logs, 3);
  }

  // ------------------------------------------------------------------ a synced write behind a torn manifest

  function FirstEntry(): Entry {
    OpEntry(Put(0.0, []), 1)
  }

  function FirstTable(): File {
    File(5, 1, FirstEntry().key, FirstEntry().key, [FirstEntry()])
  }

  /** The machine stops while the record of a flush is being appended to the manifest. */
  function ManifestTearingCrash(): Step {
    Crash(map[3 := Cut(1, 0, false), 4 := Cut(0, 0, false)], false, true)
  }

  /** The older log is flushed, the last one is used again, and so is the manifest. */
  function AppendingOpening(): Step {
    Recover(Opening([FirstTable()], Some(4), true, true, 6, 1))
  }

  function RevertingCrash(): Step {
    Crash(map[4 := Cut(0, 0, false)], true, true)
  }

  function TornManifest(): seq<Step> {
    [FirstOpening(), Append([Put(0.0, [])], true), Insert, Switch,
     BeginFlush, WriteFlush([FirstEntry()], 1), ApplyFlush(0),
     ManifestTearingCrash(), AppendingOpening(), DeleteLog(3), RevertingCrash()]
  }

  /** With reuse_logs: a manifest torn by a crash is used again; the record that points to the flushed write is not
      found after the next crash, and the log that held the write has been removed.  A reader finds neither record, and
      reports nothing, if the file is too short for what then stands at the tear (LogTears.TornTailHidesNext).  Here
      both records have one length, so that is a tear in the header: with one byte of it left, the length that the
      reader takes from the appended header has that record's own length for its high byte. */
  lemma TornManifestLosesSyncedWrite() returns (states: seq<State>)
    ensures IsRun(states, TornManifest()) && TornManifest()[1].sync
    ensures forall i :: 0 <= i < 11 ==> SparesTornLog(states[i], TornManifest()[i])
    ensures states[2].history == {FirstEntry()} && states[7].Up? && states[7].db.job.Applying?
    ensures states[11].history == {}
  {
    hide Enabled, Perform, SparesTornLog, FirstManifest, BackgroundFree, BatchEntries, FirstEntry;
    var b := Batch(1, [Put(0.0, [])]);
    var s1, s2, s3, s4 := LoggedAndSwitched(b);
    var s5, s6, s7 := Flushing(s4, b);
    var s8 := ManifestTorn(s7, b);
    var s9 := Appending(s8, b);
    var s10, s11 := Reverted(s9, s8.disk.manifest);
    states := [NewDb(), s1, s2, s3, s4, s5, s6, s7, s8, s9, s10, s11];
    assert forall i :: 0 <= i < 11 ==> Follows(states, TornManifest(), i);
    NoTornLogReused(states);
  }

  lemma NoTornLogReused(states: seq<State>)
    requires |states| == 12 && 4 in states[8].disk.logs && states[8].disk.logs[4] == NewLog()
    ensures forall i :: 0 <= i < 11 ==> SparesTornLog(states[i], TornManifest()[i])
  {
    hide SparesTornLog;
    forall i | 0 <= i < 11 ensures SparesTornLog(states[i], TornManifest()[i]) {
      WholeLogSpared(states[i], TornManifest()[i]);
    }
  }

  lemma LoggedAndSwitched(b: Batch) returns (s1: State, s2: State, s3: State, s4: State)
    requires b == Batch(1, [Put(0.0, [])])
    ensures Enabled(NewDb(), FirstOpening()) && s1 == Perform(NewDb(), FirstOpening())
    ensures Enabled(s1, Append([Put(0.0, [])], true)) && s2 == Perform(s1, Append([Put(0.0, [])], true))
    ensures Enabled(s2, Insert) && s3 == Perform(s2, Insert) && Enabled(s3, Switch) && s4 == Perform(s3, Switch)
    ensures BatchEntries(b) == {FirstEntry()} && s2.history == {FirstEntry()}
    ensures s4.Up? && s4.disk.logs == map[3 := LogFile([b], 1, None), 4 := NewLog()] && s4.disk.tear == None
    ensures s4.db == Db({}, Some({FirstEntry()}), s4.disk.manifest.store, multiset{}, 1, 5, 3, 4, [], {}, None, None,
                        NoJob, {}, {})
    ensures FirstManifest(s4.disk.manifest) && s4.disk.tables == map[] && s4.history == {FirstEntry()}
    ensures BackgroundFree(s4.db) && |s4.db.store.version| == NUM_LEVELS
  {
    hide Enabled, Perform, BatchEntries;
    s1 := Opened();
    s2 := Logged(s1, b, true);
    OnlyOp(b);
    s3, s4 := SwitchedSynced(s2, b);
  }

  lemma WholeLogSpared(s: State, step: Step)
    requires step == AppendingOpening() ==> 4 in s.disk.logs && s.disk.logs[4] == NewLog()
    requires step.Recover? ==> step == AppendingOpening() || step == FirstOpening()
    ensures SparesTornLog(s, step)
  {
  }

  lemma SwitchedSynced(s: State, b: Batch) returns (s': State, s'': State)
    requires At(s, map[3 := LogFile([b], 1, None)], None, 0, Some(b)) && s.db.logFile == 3 && s.db.nextFile == 4
    requires |b.ops| == 1
    requires s.db.mem == {} && BackgroundFree(s.db) && s.db.run.None?
    requires s.db.store.version == s.disk.manifest.store.version
    requires BatchEntries(b) == {FirstEntry()} && FirstManifest(s.disk.manifest)
    ensures Enabled(s, Insert) && s' == Perform(s, Insert)
    ensures Enabled(s', Switch) && s'' == Perform(s', Switch)
    ensures s''.Up? && s''.disk.logs == map[3 := LogFile([b], 1, None), 4 := NewLog()] && s''.disk.tear == None
    ensures s''.db == s.db.(lastSequence := 1, nextFile := 5, logFile := 4, imm := Some({FirstEntry()}), writer := None)
    ensures s''.disk.manifest == s.disk.manifest && s''.disk.tables == s.disk.tables && s''.history == s.history
  {
    s' := Perform(s, Insert);
    s'' := Perform(s', Switch);
    assert s'.db.mem == {FirstEntry()};
  }

  lemma Flushing(s: State, b: Batch) returns (s1: State, s2: State, s3: State)
    requires s.Up? && s.disk.tear == None && s.db.imm == Some({FirstEntry()}) && BackgroundFree(s.db) && s.db.run.None?
    requires |s.db.store.version| == NUM_LEVELS
    ensures Enabled(s, BeginFlush) && s1 == Perform(s, BeginFlush)
    ensures Enabled(s1, WriteFlush([FirstEntry()], 1)) && s2 == Perform(s1, WriteFlush([FirstEntry()], 1))
    ensures Enabled(s2, ApplyFlush(0)) && s3 == Perform(s2, ApplyFlush(0))
    ensures s3.Up? && s3.db.job.Applying? && s3.disk.tear == None && s3.disk.logs == s.disk.logs
    ensures s3.disk.manifest == s.disk.manifest
    ensures s3.history == s.history
  {
    hide ApplyEdit;
    s1 := Perform(s, BeginFlush);
    assert ToSet([FirstEntry()]) == {FirstEntry()};
    s2 := Perform(s1, WriteFlush([FirstEntry()], 1));
    s3 := Perform(s2, ApplyFlush(0));
  }

  lemma ManifestTorn(s: State, b: Batch) returns (s': State)
    requires s.Up? && s.db.job.Applying? && s.disk.logs == map[3 := LogFile([b], 1, None), 4 := NewLog()]
    requires s.disk.tear == None
    ensures Enabled(s, ManifestTearingCrash()) && s' == Perform(s, ManifestTearingCrash()) && s'.Down?
    ensures s'.disk.logs == s.disk.logs && s'.disk.manifest == s.disk.manifest && s'.disk.tear == Some(s.disk.manifest)
  {
    hide Held, MayCutAll, CutLogs;
    LogsStay(s.disk.logs, b);
    s' := Perform(s, ManifestTearingCrash());
  }

  lemma LogsStay(logs: map<nat, LogFile>, b: Batch)
    requires logs == map[3 := LogFile([b], 1, None), 4 := NewLog()]
    ensures MayCutAll(logs, ManifestTearingCrash().cuts) && CutLogs(logs, ManifestTearingCrash().cuts) == logs
  {
    assert [b][..1] == [b];
  }

  lemma Appending(s: State, b: Batch) returns (s': State)
    requires b == Batch(1, [Put(0.0, [])]) && BatchEntries(b) == {FirstEntry()}
    requires s.Down? && s.disk.logs == map[3 := LogFile([b], 1, None), 4 := NewLog()]
    requires s.disk.tear == Some(s.disk.manifest) && FirstManifest(s.disk.manifest)
    ensures Enabled(s, AppendingOpening()) && s' == Perform(s, AppendingOpening()) && s'.Up?
    ensures s'.disk.logs == s.disk.logs && s'.disk.tear == s.disk.tear && s'.db.deadLogs == {3}
  {
    hide ApplyEdit, BatchEntries, ReplayFrom, Replay;
    OnlyOp(b);
    OneLogged(s.disk.logs, b);
    TableReady();
    NoneMissing(s.disk.tables);
    s' := Perform(s, AppendingOpening());
    assert s'.db.deadLogs == {3};
  }

  lemma OneLogged(logs: map<nat, LogFile>, b: Batch)
    requires logs == map[3 := LogFile([b], 1, None), 4 := NewLog()]
    ensures ReplayFrom(logs, 3) == RecordEntries([b]) && Replay(logs, 3, 4) == RecordEntries([b])
  {
    assert RecordEntries([]) == {};
    hide RecordEntries;
    InReplayFrom(logs, 3, 3);
    forall e | e in ReplayFrom(logs, 3) ensures e in RecordEntries([b]) {
      var n :| n in logs && 3 <= n && e in RecordEntries(logs[n].records);
    }
    forall e | e in RecordEntries([b]) ensures e in Replay(logs, 3, 4) {
      assert e in RecordEntries(logs[3].records);
    }
  }

  lemma TableReady()
    ensures AllValid([FirstTable()]) && Successive([FirstTable()]) && FileEntries([FirstTable()]) == {FirstEntry()}
  {
    var f := FirstTable();
    assert FirstEntry() in [f][0].entries;
    forall e | e in FileEntries([f]) ensures e == FirstEntry() {
      var i :| 0 <= i < |[f]| && e in [f][i].entries;
    }
  }

  lemma Reverted(s: State, m: Manifest) returns (s': State, s'': State)
    requires s.Up? && s.disk.logs.Keys == {3, 4} && s.disk.logs[4] == NewLog() && s.disk.tear == Some(m)
    requires FirstManifest(m)
    requires s.db.deadLogs == {3}
    ensures Enabled(s, DeleteLog(3)) && s' == Perform(s, DeleteLog(3))
    ensures Enabled(s', RevertingCrash()) && s'' == Perform(s', RevertingCrash()) && s''.history == {}
  {
    s' := Perform(s, DeleteLog(3));
    assert s'.disk.logs.Keys == {4};
    s'' := Perform(s', RevertingCrash());
    NothingLogged(s''.disk.logs, 3);
  }

  // ------------------------------------------------------------------ every torn manifest

  /** Whenever recovery appends to a torn manifest, each entry that it flushed can be lost: once the log it was in is
      removed, a crash can bring the old manifest back. */
  lemma TornManifestLosesFlushed(s: State, o: Opening, n: nat, e: Entry) returns (s1: State, s2: State)
    requires Inv(s) && Enabled(s, Recover(o)) && o.append && s.disk.tear.Some?
    requires n in s.disk.logs && s.disk.manifest.logNumber <= n && (o.reuse.Some? ==> n < o.reuse.value)
    requires e in RecordEntries(s.disk.logs[n].records)
    ensures s1 == Perform(s, Recover(o)) && Enabled(s1, DeleteLog(n)) && s2 == Perform(s1, DeleteLog(n))
    ensures e in s2.history
    ensures exists cuts, revert, tear :: Enabled(s2, Crash(cuts, revert, tear))
                                         && e !in Perform(s2, Crash(cuts, revert, tear)).history
  {
    hide ManifestOk, LogsOk, Unambiguous, CanRecover, Reopened, ReplayFrom, OnDisk, Intact, Present, RecordEntries,
         Replay, MayCutAll, Held, Crashed, Fallback;
    var d, m := s.disk, s.disk.manifest;
    InReplayFrom(d.logs, m.logNumber, n);
    RemovesLog(d, s.history, o, n, e);
    DiskOkIff(d, s.history);
    LogsAfterRecovery(d, s.history, o);
    s1 := Perform(s, Recover(o));
    s2 := Perform(s1, DeleteLog(n));
    assert LogsSized(s2.disk.logs);
    assert e !in m.store.base;
    GoneWithLog(LogsThen(d, o.reuse, o.next), m.logNumber, n, e, s2.disk, m);
    InHistoryIffSafe(s2, e);
  }

  lemma RemovesLog(d: Disk, history: set<Entry>, o: Opening, n: nat, e: Entry)
    requires CanRecover(d, o) && |d.manifest.store.version| == NUM_LEVELS && o.append
    requires n in d.logs && d.manifest.logNumber <= n && (o.reuse.Some? ==> n < o.reuse.value)
    requires e in RecordEntries(d.logs[n].records)
    ensures var s := Reopened(d, history, o);
            && s.Up? && s.disk.tear == d.tear && n in s.db.deadLogs && s.disk.logs == LogsThen(d, o.reuse, o.next)
            && n in s.disk.logs && s.disk.logs[n] == d.logs[n] && s.history == history
  {
    hide RecordEntries, ApplyEdit, IsRecoveredSequence, AllValid, Successive;
    assert e in Reflushed(d, o.reuse);
    assert o.files != [] by {
      assert FileEntries([]) == {};
    }
  }

  lemma GoneWithLog(all: map<nat, LogFile>, from: nat, n: nat, e: Entry, d: Disk, m: Manifest)
    requires LogsOk(all, from) && n in all && from <= n && e in RecordEntries(all[n].records)
    requires d.logs == all - {n} && m.logNumber == from && e !in m.store.base
    ensures !SafeUnder(d, m, e)
  {
    hide RecordEntries, LogsOk, InSynced;
    forall k | k in d.logs && from <= k ensures !InSynced(d.logs[k], e) {
      NotInOtherLog(all, from, n, k, e);
      NotSynced(d.logs[k], e);
    }
  }
}
