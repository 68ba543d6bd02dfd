/** Whether a crash leaves a prefix of the logged writes. */
module EngineCrashes {
  import opened Keys
  import opened Lookup
  import opened Engine
  import opened EngineInvariant
  import opened EngineWrites
  import opened EngineRecovery
  import opened EngineDurability

  /** Everything at or before a surviving entry survives too. */
  ghost predicate IsPrefix(left: set<Entry>, history: set<Entry>) {
    left <= history && forall x, y :: x in left && y in history && y.key.sequence <= x.key.sequence ==> y in left
  }

  ghost predicate Whole(logs: map<nat, LogFile>, cut: map<nat, LogFile>, n: nat)
    requires n in logs && n in cut
  {
    RecordEntries(cut[n].records) == RecordEntries(logs[n].records)
  }

  /** If a log lost records, no later log kept any; and each kept a prefix. */
  ghost predicate CutInOrder(logs: map<nat, LogFile>, cut: map<nat, LogFile>, from: nat)
    requires logs.Keys == cut.Keys
  {
    && (forall n, m :: n in logs && m in logs && from <= n < m ==>
          Whole(logs, cut, n) || RecordEntries(cut[m].records) == {})
    && (forall n :: n in logs && from <= n ==> IsPrefix(RecordEntries(cut[n].records), RecordEntries(logs[n].records)))
  }

  lemma LogOrder(logs: map<nat, LogFile>, from: nat, n: nat, x: Entry, m: nat, y: Entry)
    requires LogsOk(logs, from) && n in logs && m in logs && from <= n && from <= m
    requires x in RecordEntries(logs[n].records) && y in RecordEntries(logs[m].records)
    ensures n < m ==> x.key.sequence < y.key.sequence
    ensures m < n ==> y.key.sequence < x.key.sequence
  {
    hide RecordEntries, RecordsOk;
    if n < m {
      assert SetNewer(RecordEntries(logs[m].records), RecordEntries(logs[n].records));
    } else if m < n {
      assert SetNewer(RecordEntries(logs[n].records), RecordEntries(logs[m].records));
    }
  }

  lemma RecordOrder(records: seq<Batch>, i: nat, x: Entry, j: nat, y: Entry)
    requires RecordsOk(records) && i < |records| && j < |records|
    requires x in BatchEntries(records[i]) && y in BatchEntries(records[j])
    ensures i < j ==> x.key.sequence < y.key.sequence
  {
    hide BatchEntries;
    if i < j {
      assert SetNewer(BatchEntries(records[j]), BatchEntries(records[i]));
    }
  }

  lemma InCut(logs: map<nat, LogFile>, cuts: map<nat, Cut>, from: nat, n: nat, y: Entry)
    requires LogsOk(logs, from) && MayCutAll(logs, cuts) && n in logs && from <= n
    requires y in RecordEntries(logs[n].records)
    ensures y in ReplayFrom(CutLogs(logs, cuts), from) <==> y in RecordEntries(CutLogs(logs, cuts)[n].records)
  {
    hide RecordEntries, MayCut, CutLog;
    var cut := CutLogs(logs, cuts);
    if y in ReplayFrom(cut, from) {
      var m :| m in cut && from <= m && y in RecordEntries(cut[m].records);
      CutEntries(logs[m], cuts[m]);
      LogOrder(logs, from, m, y, n, y);
    }
  }

  lemma InReplay(logs: map<nat, LogFile>, from: nat, e: Entry) returns (n: nat)
    requires e in ReplayFrom(logs, from)
    ensures n in logs && from <= n && e in RecordEntries(logs[n].records)
  {
    n :| n in logs && from <= n && e in RecordEntries(logs[n].records);
  }

  lemma CutInOrderGivesPrefix(logs: map<nat, LogFile>, cuts: map<nat, Cut>, from: nat, x: Entry, y: Entry)
    requires LogsOk(logs, from) && MayCutAll(logs, cuts)
    requires CutInOrder(logs, CutLogs(logs, cuts), from)
    requires x in ReplayFrom(CutLogs(logs, cuts), from) && y in ReplayFrom(logs, from)
    requires y.key.sequence <= x.key.sequence
    ensures y in ReplayFrom(CutLogs(logs, cuts), from)
  {
    hide RecordEntries, ReplayFrom, RecordsOk, MayCut, CutLog;
    var cut := CutLogs(logs, cuts);
    var m := InReplay(cut, from, x);
    var n := InReplay(logs, from, y);
    CutEntries(logs[m], cuts[m]);
    InCut(logs, cuts, from, n, y);
    LogOrder(logs, from, m, x, n, y);
  }

  lemma PrefixGivesCutInOrder(logs: map<nat, LogFile>, cuts: map<nat, Cut>, from: nat)
    requires LogsOk(logs, from) && MayCutAll(logs, cuts)
    requires IsPrefix(ReplayFrom(CutLogs(logs, cuts), from), ReplayFrom(logs, from))
    ensures CutInOrder(logs, CutLogs(logs, cuts), from)
  {
    hide RecordEntries, ReplayFrom, RecordsOk, MayCut, CutLog;
    var cut := CutLogs(logs, cuts);
    forall n, m | n in logs && m in logs && from <= n < m && RecordEntries(cut[m].records) != {}
      ensures Whole(logs, cut, n)
    {
      var x :| x in RecordEntries(cut[m].records);
      CutEntries(logs[m], cuts[m]);
      CutEntries(logs[n], cuts[n]);
      InReplayFrom(cut, from, m);
      InReplayFrom(logs, from, n);
      forall y | y in RecordEntries(logs[n].records) ensures y in RecordEntries(cut[n].records) {
        assert SetNewer(RecordEntries(logs[m].records), RecordEntries(logs[n].records));
        InCut(logs, cuts, from, n, y);
      }
    }
    forall n | n in logs && from <= n ensures IsPrefix(RecordEntries(cut[n].records), RecordEntries(logs[n].records)) {
      CutEntries(logs[n], cuts[n]);
      InReplayFrom(cut, from, n);
      InReplayFrom(logs, from, n);
      forall x, y | x in RecordEntries(cut[n].records) && y in RecordEntries(logs[n].records)
                    && y.key.sequence <= x.key.sequence
        ensures y in RecordEntries(cut[n].records)
      {
        InCut(logs, cuts, from, n, y);
      }
    }
  }

  lemma ReplayPrefixOfHistory(base: set<Entry>, left: set<Entry>, replayed: set<Entry>)
    requires left <= replayed && SetNewer(replayed, base)
    ensures IsPrefix(base + left, base + replayed) <==> IsPrefix(left, replayed)
  {
    if IsPrefix(base + left, base + replayed) {
      forall x, y | x in left && y in replayed && y.key.sequence <= x.key.sequence ensures y in left {
        assert x in base + left && y in base + replayed;
        assert y in base ==> y.key.sequence > y.key.sequence;
      }
    }
  }

  lemma PrefixIffInOrder(logs: map<nat, LogFile>, cuts: map<nat, Cut>, from: nat)
    requires LogsOk(logs, from) && MayCutAll(logs, cuts)
    ensures IsPrefix(ReplayFrom(CutLogs(logs, cuts), from), ReplayFrom(logs, from))
            <==> CutInOrder(logs, CutLogs(logs, cuts), from)
  {
    hide LogsOk, ReplayFrom, MayCutAll, CutLog;
    CutKeys(logs, cuts);
    hide CutLogs;
    CutReplay(logs, cuts, from);
    if CutInOrder(logs, CutLogs(logs, cuts), from) {
      hide CutInOrder;
      forall x, y | x in ReplayFrom(CutLogs(logs, cuts), from) && y in ReplayFrom(logs, from)
                    && y.key.sequence <= x.key.sequence
        ensures y in ReplayFrom(CutLogs(logs, cuts), from)
      {
        CutInOrderGivesPrefix(logs, cuts, from, x, y);
      }
    }
    if IsPrefix(ReplayFrom(CutLogs(logs, cuts), from), ReplayFrom(logs, from)) {
      PrefixGivesCutInOrder(logs, cuts, from);
    }
  }

  lemma CutKeys(logs: map<nat, LogFile>, cuts: map<nat, Cut>)
    requires MayCutAll(logs, cuts)
    ensures CutLogs(logs, cuts).Keys == logs.Keys
  {
  }

  ghost predicate KeptInOrder(logs: map<nat, LogFile>, cuts: map<nat, Cut>, from: nat)
    requires MayCutAll(logs, cuts)
  {
    CutKeys(logs, cuts);
    CutInOrder(logs, CutLogs(logs, cuts), from)
  }

  /** What a manifest points to: what was flushed by then, and the logs from its log number on. */
  ghost function HeldUnder(d: Disk, m: Manifest): set<Entry> {
    m.store.base + ReplayFrom(d.logs, m.logNumber)
  }

  /** Nothing of `history` that is not in `held` is as old as something in `left`. */
  ghost predicate RestIsNewer(left: set<Entry>, held: set<Entry>, history: set<Entry>) {
    forall x, y :: x in left && y in history && y !in held ==> x.key.sequence < y.key.sequence
  }

  lemma PrefixOfPart(left: set<Entry>, held: set<Entry>, history: set<Entry>)
    requires left <= held <= history
    ensures IsPrefix(left, history) <==> IsPrefix(left, held) && RestIsNewer(left, held, history)
    ensures IsPrefix(held, history) ==> RestIsNewer(left, held, history)
    ensures RestIsNewer(held, held, history) ==> IsPrefix(held, history)
  {
  }

  function After(d: Disk, revert: bool): Manifest
    requires revert ==> d.tear.Some?
  {
    if revert then d.tear.value else d.manifest
  }

  lemma PointsTo(s: State, revert: bool)
    requires Inv(s) && (revert ==> s.disk.tear.Some?)
    ensures var m := After(s.disk, revert);
            && HeldUnder(s.disk, m) <= s.history && (!revert ==> HeldUnder(s.disk, m) == s.history)
            && LogsOk(s.disk.logs, m.logNumber)
            && SetNewer(ReplayFrom(s.disk.logs, m.logNumber), m.store.base)
  {
    hide DbOk, ManifestOk, OnDisk, Intact, LogsOk, LogsSized, Unambiguous, Counted, ReplayFrom, SetNewer, Numbers;
  }

  /** What is left under a manifest after the logs were cut. */
  ghost function LeftUnder(d: Disk, m: Manifest, cuts: map<nat, Cut>): set<Entry>
    requires MayCutAll(d.logs, cuts)
  {
    m.store.base + ReplayFrom(CutLogs(d.logs, cuts), m.logNumber)
  }

  lemma CrashAllowed(s: State, cuts: map<nat, Cut>, revert: bool, tear: bool)
    requires Enabled(s, Crash(cuts, revert, tear))
    ensures MayCutAll(s.disk.logs, cuts) && (revert ==> s.disk.tear.Some?)
  {
    hide MayCutAll;
  }

  lemma CrashLeaves(s: State, cuts: map<nat, Cut>, revert: bool, tear: bool)
    requires Inv(s) && Enabled(s, Crash(cuts, revert, tear))
    requires MayCutAll(s.disk.logs, cuts) && (revert ==> s.disk.tear.Some?)
    ensures var m := After(s.disk, revert);
            && LeftUnder(s.disk, m, cuts) <= HeldUnder(s.disk, m)
            && Perform(s, Crash(cuts, revert, tear)).history == LeftUnder(s.disk, m, cuts)
  {
    hide Inv, ReplayFrom, CutLogs, MayCutAll;
    PointsTo(s, revert);
    CutReplay(s.disk.logs, cuts, After(s.disk, revert).logNumber);
  }

  /** A crash leaves a prefix of the logged writes exactly when it cuts the logs in order and, if it brings an older
      manifest back, all that this does not point to is newer than what is left. */
  lemma CrashLeavesPrefix(s: State, cuts: map<nat, Cut>, revert: bool, tear: bool)
    requires Inv(s) && Enabled(s, Crash(cuts, revert, tear))
    requires MayCutAll(s.disk.logs, cuts) && (revert ==> s.disk.tear.Some?)
    ensures var m, left := After(s.disk, revert), Perform(s, Crash(cuts, revert, tear)).history;
            IsPrefix(left, s.history)
            <==> KeptInOrder(s.disk.logs, cuts, m.logNumber)
                 && RestIsNewer(left, HeldUnder(s.disk, m), s.history)
  {
    hide Inv, LogsOk, ReplayFrom, IsPrefix, CutInOrder, MayCutAll, CutLogs, Perform, Enabled, RestIsNewer, SetNewer;
    CrashLeaves(s, cuts, revert, tear);
    CutKeys(s.disk.logs, cuts);
    CutReplay(s.disk.logs, cuts, After(s.disk, revert).logNumber);
    var m := After(s.disk, revert);
    var cut := CutLogs(s.disk.logs, cuts);
    PointsTo(s, revert);
    PrefixOfPart(Perform(s, Crash(cuts, revert, tear)).history, HeldUnder(s.disk, m), s.history);
    ReplayPrefixOfHistory(m.store.base, ReplayFrom(cut, m.logNumber), ReplayFrom(s.disk.logs, m.logNumber));
    PrefixIffInOrder(s.disk.logs, cuts, m.logNumber);
  }

  // ------------------------------------------------------------------ when every crash leaves a prefix

  ghost predicate AllFirm(log: LogFile)
    requires Firm(log) <= |log.records|
  {
    RecordEntries(log.records[..Firm(log)]) == RecordEntries(log.records)
  }

  /** At most one record with operations was appended behind a tear. */
  ghost predicate OneBehindTear(log: LogFile) {
    log.torn.Some? ==>
      forall i, j :: log.torn.value <= i < j < |log.records| ==>
        BatchEntries(log.records[i]) == {} || BatchEntries(log.records[j]) == {}
  }

  /** Before the crash: a log some of whose entries can be lost is followed by none that holds any. */
  ghost predicate TailAtRisk(logs: map<nat, LogFile>, from: nat)
    requires LogsSized(logs)
  {
    && (forall n, m :: n in logs && m in logs && from <= n < m ==>
          AllFirm(logs[n]) || RecordEntries(logs[m].records) == {})
    && (forall n :: n in logs && from <= n ==> OneBehindTear(logs[n]))
  }

  /** The record an entry of what is left comes from. */
  lemma LeftFrom(log: LogFile, c: Cut, x: Entry) returns (i: nat)
    requires MayCut(log, c) && x in RecordEntries(CutLog(log, c).records)
    ensures i < |log.records| && x in BatchEntries(log.records[i]) && (i < c.keep || !PassesTear(log, c))
    ensures PassesTear(log, c) ==> i < log.torn.value || c.skip <= i < c.keep
    ensures !PassesTear(log, c) ==> i < c.keep
  {
    var left := CutLog(log, c).records;
    var k :| 0 <= k < |left| && x in BatchEntries(left[k]);
    i := if PassesTear(log, c) && k >= log.torn.value then k - log.torn.value + c.skip else k;
    assert left[k] == log.records[i];
  }

  lemma IsLeft(log: LogFile, c: Cut, y: Entry, j: nat)
    requires MayCut(log, c) && j < |log.records| && y in BatchEntries(log.records[j])
    requires if PassesTear(log, c) then j < log.torn.value || c.skip <= j < c.keep else j < c.keep
    ensures y in RecordEntries(CutLog(log, c).records)
  {
    var left := CutLog(log, c).records;
    var k := if PassesTear(log, c) && j >= log.torn.value then j - c.skip + log.torn.value else j;
    assert left[k] == log.records[j];
  }

  lemma OnlyBehindTear(log: LogFile, j: nat, i: nat, y: Entry, x: Entry)
    requires OneBehindTear(log) && i < |log.records| && j < |log.records| && x in BatchEntries(log.records[i])
    requires y in BatchEntries(log.records[j])
    ensures log.torn.Some? && log.torn.value <= j ==> i <= j
  {
    hide BatchEntries;
  }

  lemma OneLogPrefix(log: LogFile, c: Cut)
    requires MayCut(log, c) && RecordsOk(log.records) && OneBehindTear(log)
    ensures IsPrefix(RecordEntries(CutLog(log, c).records), RecordEntries(log.records))
  {
    hide BatchEntries, RecordsOk, CutLog, MayCut;
    CutEntries(log, c);
    forall x, y | x in RecordEntries(CutLog(log, c).records) && y in RecordEntries(log.records)
                  && y.key.sequence <= x.key.sequence
      ensures y in RecordEntries(CutLog(log, c).records)
    {
      var i := LeftFrom(log, c, x);
      var j :| 0 <= j < |log.records| && y in BatchEntries(log.records[j]);
      RecordOrder(log.records, i, x, j, y);
      OnlyBehindTear(log, j, i, y, x);
      IsLeft(log, c, y, j);
    }
  }

  lemma TailAtRiskCutsInOrder(logs: map<nat, LogFile>, cuts: map<nat, Cut>, from: nat)
    requires LogsOk(logs, from) && LogsSized(logs) && TailAtRisk(logs, from) && MayCutAll(logs, cuts)
    ensures CutInOrder(logs, CutLogs(logs, cuts), from)
  {
    hide RecordEntries, RecordsOk, MayCut, CutLog, OneBehindTear, IsPrefix;
    var cut := CutLogs(logs, cuts);
    forall n, m | n in logs && m in logs && from <= n < m && RecordEntries(cut[m].records) != {}
      ensures Whole(logs, cut, n)
    {
      CutEntries(logs[m], cuts[m]);
      CutEntries(logs[n], cuts[n]);
      FirmIsLeft(logs[n], cuts[n]);
    }
    forall n | n in logs && from <= n ensures IsPrefix(RecordEntries(cut[n].records), RecordEntries(logs[n].records)) {
      OneLogPrefix(logs[n], cuts[n]);
    }
  }

  // ------------------------------------------------------------------ the crash that breaks the order

  function WholeCut(log: LogFile): Cut {
    Cut(|log.records|, if log.torn.Some? then log.torn.value else 0, true)
  }

  lemma WholeCutLeaves(log: LogFile)
    requires log.synced <= |log.records| && (log.torn.Some? ==> log.torn.value <= |log.records|)
    ensures MayCut(log, WholeCut(log)) && CutLog(log, WholeCut(log)).records == log.records
  {
  }

  /** All logs stay whole but one. */
  function CutsBut(logs: map<nat, LogFile>, n: nat, c: Cut): map<nat, Cut> {
    map k | k in logs :: if k == n then c else WholeCut(logs[k])
  }

  lemma CutsButAllowed(logs: map<nat, LogFile>, n: nat, c: Cut)
    requires LogsSized(logs) && n in logs && MayCut(logs[n], c)
    ensures MayCutAll(logs, CutsBut(logs, n, c))
    ensures CutLogs(logs, CutsBut(logs, n, c))[n] == CutLog(logs[n], c)
    ensures forall k :: k in logs && k != n ==> CutLogs(logs, CutsBut(logs, n, c))[k].records == logs[k].records
  {
    hide MayCut, CutLog, WholeCut;
    forall k | k in logs && k != n
      ensures MayCut(logs[k], WholeCut(logs[k])) && CutLog(logs[k], WholeCut(logs[k])).records == logs[k].records
    {
      WholeCutLeaves(logs[k]);
    }
  }

  /** Behind a tear, hide everything before record `j`. */
  function GapCut(log: LogFile, j: nat): Cut {
    Cut(|log.records|, j, true)
  }

  lemma GapLosesMiddle(log: LogFile, i: nat, j: nat)
    requires log.torn.Some? && log.synced <= |log.records| && log.torn.value <= i < j < |log.records|
    requires RecordsOk(log.records)
    requires BatchEntries(log.records[i]) != {} && BatchEntries(log.records[j]) != {}
    ensures MayCut(log, GapCut(log, j))
    ensures !IsPrefix(RecordEntries(CutLog(log, GapCut(log, j)).records), RecordEntries(log.records))
  {
    hide BatchEntries, RecordsOk;
    var c := GapCut(log, j);
    var left := CutLog(log, c).records;
    var x :| x in BatchEntries(log.records[j]);
    var y :| y in BatchEntries(log.records[i]);
    IsLeft(log, c, x, j);
    RecordOrder(log.records, i, y, j, x);
    assert y in RecordEntries(log.records);
    assert y !in RecordEntries(left) by {
      forall k | 0 <= k < |left| ensures y !in BatchEntries(left[k]) {
        var r := if k < log.torn.value then k else k - log.torn.value + j;
        assert left[k] == log.records[r];
        assert y in BatchEntries(log.records[r]) ==> y.key.sequence < y.key.sequence by {
          if y in BatchEntries(log.records[r]) {
            RecordOrder(log.records, i, y, r, y);
            RecordOrder(log.records, r, y, i, y);
          }
        }
      }
    }
  }

  lemma GapKeepsPrefix(log: LogFile, i: nat, j: nat)
    requires log.torn.Some? && log.synced <= |log.records| && log.torn.value <= i < j < |log.records|
    requires RecordsOk(log.records)
    ensures MayCut(log, GapCut(log, j))
    ensures IsPrefix(RecordEntries(CutLog(log, GapCut(log, j)).records), RecordEntries(log.records)) ==>
              BatchEntries(log.records[i]) == {} || BatchEntries(log.records[j]) == {}
  {
    hide BatchEntries, RecordsOk, RecordEntries, IsPrefix;
    if BatchEntries(log.records[i]) != {} && BatchEntries(log.records[j]) != {} {
      GapLosesMiddle(log, i, j);
    }
  }

  ghost predicate AlwaysInOrder(logs: map<nat, LogFile>, from: nat) {
    forall cuts :: MayCutAll(logs, cuts) ==> KeptInOrder(logs, cuts, from)
  }

  lemma AlwaysInOrderMeansTail(logs: map<nat, LogFile>, from: nat)
    requires LogsOk(logs, from) && LogsSized(logs) && AlwaysInOrder(logs, from)
    ensures TailAtRisk(logs, from)
  {
    hide RecordEntries, RecordsOk, MayCut, CutLog, FirmCut, GapCut, Firm, MayCutAll, CutsBut, IsPrefix, OneBehindTear;
    forall n, m | n in logs && m in logs && from <= n < m && RecordEntries(logs[m].records) != {}
      ensures Firm(logs[n]) <= |logs[n].records| && AllFirm(logs[n])
    {
      FirmCutLeaves(logs[n]);
      FirmBelow(logs[n]);
      var cuts := CutsBut(logs, n, FirmCut(logs[n]));
      CutsButAllowed(logs, n, FirmCut(logs[n]));
      CutKeys(logs, cuts);
      assert KeptInOrder(logs, cuts, from);
      assert Whole(logs, CutLogs(logs, cuts), n);
    }
    forall n | n in logs && from <= n ensures OneBehindTear(logs[n]) {
      TearInOrder(logs, from, n);
    }
  }

  lemma FirmBelow(log: LogFile)
    requires log.synced <= |log.records|
    ensures Firm(log) <= |log.records|
  {
  }

  lemma TearInOrder(logs: map<nat, LogFile>, from: nat, n: nat)
    requires LogsOk(logs, from) && LogsSized(logs) && AlwaysInOrder(logs, from) && n in logs && from <= n
    ensures OneBehindTear(logs[n])
  {
    hide RecordEntries, RecordsOk, MayCut, CutLog, GapCut, Firm, MayCutAll, CutsBut, IsPrefix, BatchEntries;
    var log := logs[n];
    if log.torn.Some? {
      forall i, j | log.torn.value <= i < j < |log.records|
        ensures BatchEntries(log.records[i]) == {} || BatchEntries(log.records[j]) == {}
      {
        GapKeepsPrefix(log, i, j);
        var cuts := CutsBut(logs, n, GapCut(log, j));
        CutsButAllowed(logs, n, GapCut(log, j));
        CutKeys(logs, cuts);
        assert KeptInOrder(logs, cuts, from);
      }
    }
  }

  function WholeCuts(logs: map<nat, LogFile>): map<nat, Cut> {
    map n | n in logs :: WholeCut(logs[n])
  }

  lemma WholeCutsLeave(logs: map<nat, LogFile>, from: nat)
    requires LogsSized(logs)
    ensures MayCutAll(logs, WholeCuts(logs))
    ensures ReplayFrom(CutLogs(logs, WholeCuts(logs)), from) == ReplayFrom(logs, from)
  {
    hide MayCut, CutLog, WholeCut, RecordEntries;
    forall n | n in logs
      ensures MayCut(logs[n], WholeCut(logs[n])) && CutLog(logs[n], WholeCut(logs[n])).records == logs[n].records
    {
      WholeCutLeaves(logs[n]);
    }
    var cut := CutLogs(logs, WholeCuts(logs));
    assert cut.Keys == logs.Keys && forall n :: n in logs ==> cut[n].records == logs[n].records;
  }

  /** Every crash after which the manifest says what it says now, or what it said when found torn, leaves a prefix. */
  ghost predicate AlwaysPrefix(s: State, revert: bool) {
    forall cuts, tear :: Enabled(s, Crash(cuts, revert, tear)) ==>
      IsPrefix(Perform(s, Crash(cuts, revert, tear)).history, s.history)
  }

  /** Known before the crash: the writes at risk are the last ones that this manifest points to, and it points to a
      prefix of all. */
  ghost predicate LastAtRisk(s: State, m: Manifest)
    requires LogsSized(s.disk.logs)
  {
    TailAtRisk(s.disk.logs, m.logNumber) && IsPrefix(HeldUnder(s.disk, m), s.history)
  }

  lemma AtRiskIsPrefix(s: State, revert: bool)
    requires Inv(s) && LogsSized(s.disk.logs) && (revert ==> s.disk.tear.Some?)
    requires LastAtRisk(s, After(s.disk, revert))
    ensures AlwaysPrefix(s, revert)
  {
    hide Inv, Perform, IsPrefix, CutInOrder, MayCutAll, MayRevert, MayTear, CutLogs, TailAtRisk, LogsOk, LogsSized,
         RestIsNewer, HeldUnder;
    var logs, m := s.disk.logs, After(s.disk, revert);
    PointsTo(s, revert);
    forall cuts, tear | Enabled(s, Crash(cuts, revert, tear))
      ensures IsPrefix(Perform(s, Crash(cuts, revert, tear)).history, s.history)
    {
      CrashAllowed(s, cuts, revert, tear);
      CrashLeavesPrefix(s, cuts, revert, tear);
      TailAtRiskCutsInOrder(logs, cuts, m.logNumber);
      CrashLeaves(s, cuts, revert, tear);
      PrefixOfPart(Perform(s, Crash(cuts, revert, tear)).history, HeldUnder(s.disk, m), s.history);
    }
  }

  lemma PrefixIsAtRisk(s: State, revert: bool)
    requires Inv(s) && LogsSized(s.disk.logs) && (revert ==> s.disk.tear.Some?)
    requires AlwaysPrefix(s, revert)
    ensures LastAtRisk(s, After(s.disk, revert))
  {
    hide Inv, Perform, IsPrefix, CutInOrder, MayCutAll, CutLogs, TailAtRisk, LogsOk, LogsSized, RestIsNewer,
         HeldUnder;
    var logs, m := s.disk.logs, After(s.disk, revert);
    var tear := revert || s.disk.tear == Some(s.disk.manifest);
    PointsTo(s, revert);
    forall cuts | MayCutAll(logs, cuts) ensures KeptInOrder(logs, cuts, m.logNumber) {
      assert Enabled(s, Crash(cuts, revert, tear));
      CrashLeavesPrefix(s, cuts, revert, tear);
    }
    AlwaysInOrderMeansTail(logs, m.logNumber);
    WholeCutsLeave(logs, m.logNumber);
    assert Enabled(s, Crash(WholeCuts(logs), revert, tear));
    WholeCrash(s, revert, tear);
  }

  lemma WholeCrash(s: State, revert: bool, tear: bool)
    requires Inv(s) && LogsSized(s.disk.logs) && Enabled(s, Crash(WholeCuts(s.disk.logs), revert, tear))
    requires revert ==> s.disk.tear.Some?
    ensures Perform(s, Crash(WholeCuts(s.disk.logs), revert, tear)).history
            == HeldUnder(s.disk, After(s.disk, revert))
  {
    hide Inv, Perform, Enabled, CutLogs, MayCutAll, ReplayFrom, LogsSized, WholeCuts;
    WholeCutsLeave(s.disk.logs, After(s.disk, revert).logNumber);
    CrashLeaves(s, WholeCuts(s.disk.logs), revert, tear);
  }

  /** Known before the crash: every crash leaves a prefix of the logged writes exactly when a log that can lose entries
      is followed by none that holds any, and at most one record stands behind a tear; and, if the manifest was found
      torn, the same from the log on that it pointed to then, with nothing missing before what it points to. */
  lemma EveryCrashLeavesPrefix(s: State)
    requires Inv(s)
    ensures LogsSized(s.disk.logs)
    ensures (forall cuts, revert, tear :: Enabled(s, Crash(cuts, revert, tear)) ==>
               IsPrefix(Perform(s, Crash(cuts, revert, tear)).history, s.history))
            <==> TailAtRisk(s.disk.logs, s.disk.manifest.logNumber)
                 && (s.disk.tear.Some? ==> LastAtRisk(s, s.disk.tear.value))
  {
    hide Inv, IsPrefix, TailAtRisk, LogsSized, HeldUnder, Enabled, Perform, LogsOk, SetNewer, ReplayFrom;
    InvSized(s);
    PointsTo(s, false);
    assert IsPrefix(s.history, s.history) by { PrefixOfItself(s.history); }
    CrashReverts(s);
    if TailAtRisk(s.disk.logs, s.disk.manifest.logNumber) && (s.disk.tear.Some? ==> LastAtRisk(s, s.disk.tear.value)) {
      AtRiskIsPrefix(s, false);
      if s.disk.tear.Some? {
        AtRiskIsPrefix(s, true);
      }
    }
    if forall cuts, revert, tear :: Enabled(s, Crash(cuts, revert, tear)) ==>
         IsPrefix(Perform(s, Crash(cuts, revert, tear)).history, s.history)
    {
      PrefixIsAtRisk(s, false);
      if s.disk.tear.Some? {
        PrefixIsAtRisk(s, true);
      }
    }
  }

  lemma PrefixOfItself(history: set<Entry>)
    ensures IsPrefix(history, history)
  {
  }

  lemma CrashReverts(s: State)
    ensures forall cuts, tear :: Enabled(s, Crash(cuts, true, tear)) ==> s.disk.tear.Some?
  {
    hide MayCutAll;
  }

  // ------------------------------------------------------------------ syncing the old log at a switch

  /** All logs but the last are synced, and none has a tear. */
  ghost predicate OlderSynced(logs: map<nat, LogFile>, from: nat, last: nat) {
    forall n :: n in logs && from <= n ==>
      n <= last && logs[n].torn.None? && (n < last ==> logs[n].synced == |logs[n].records|)
  }

  /** Then every crash leaves a prefix, if nothing was appended to a torn manifest. */
  lemma OlderSyncedLeavesPrefix(s: State, last: nat, cuts: map<nat, Cut>, revert: bool, tear: bool)
    requires Inv(s) && OlderSynced(s.disk.logs, s.disk.manifest.logNumber, last)
    requires Enabled(s, Crash(cuts, revert, tear)) && (s.disk.tear.Some? ==> s.disk.tear.value == s.disk.manifest)
    ensures IsPrefix(Perform(s, Crash(cuts, revert, tear)).history, s.history)
  {
    hide Inv, Perform, IsPrefix, Enabled, LogsSized, HeldUnder, ReplayFrom, LogsOk, SetNewer;
    EveryCrashLeavesPrefix(s);
    PointsTo(s, false);
    assert IsPrefix(s.history, s.history) by { PrefixOfItself(s.history); }
    var logs := s.disk.logs;
    assert TailAtRisk(logs, s.disk.manifest.logNumber) by {
      forall n | n in logs && s.disk.manifest.logNumber <= n < last
        ensures logs[n].records[..Firm(logs[n])] == logs[n].records
      {
      }
    }
  }

  /** A switch that synced the old log would keep it so; an append does. */
  lemma SyncingSwitch(logs: map<nat, LogFile>, from: nat, last: nat, next: nat, b: Batch, sync: bool)
    requires OlderSynced(logs, from, last) && last in logs && last < next
    ensures OlderSynced(logs[last := logs[last].(synced := |logs[last].records|)][next := NewLog()], from, next)
    ensures OlderSynced(Appended(logs, last, b, sync), from, last)
  {
  }
}
