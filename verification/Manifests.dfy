/** The manifest: LogAndApply, WriteSnapshot and Recover of VersionSet (db/version_set.cc). */
module Manifests {
  import opened Keys
  import opened Files
  import opened Plans
  import opened Layers
  import opened Builders

  /** A VersionEdit as recorded in the manifest. */
  datatype Record = Record(edit: Edit, logNumber: Option<nat>, prevLogNumber: Option<nat>, nextFile: Option<nat>,
                           lastSequence: Option<nat>)

  datatype Recovered = Recovered(version: Version, logNumber: nat, prevLogNumber: nat, nextFile: nat, lastSequence: nat)

  function EmptyVersion(): (v: Version)
    ensures |v| == NUM_LEVELS
  {
    seq(NUM_LEVELS, _ => [])
  }

  function Edits(records: seq<Record>): seq<Edit> {
    seq(|records|, i requires 0 <= i < |records| => records[i].edit)
  }

  /** The value of a field in the last record that has it. */
  function LastLog(records: seq<Record>): Option<nat> {
    if records == [] then None
    else var r := records[|records| - 1].logNumber; if r.Some? then r else LastLog(records[..|records| - 1])
  }

  function LastPrevLog(records: seq<Record>): Option<nat> {
    if records == [] then None
    else var r := records[|records| - 1].prevLogNumber; if r.Some? then r else LastPrevLog(records[..|records| - 1])
  }

  function LastNext(records: seq<Record>): Option<nat> {
    if records == [] then None
    else var r := records[|records| - 1].nextFile; if r.Some? then r else LastNext(records[..|records| - 1])
  }

  function LastSeq(records: seq<Record>): Option<nat> {
    if records == [] then None
    else var r := records[|records| - 1].lastSequence; if r.Some? then r else LastSeq(records[..|records| - 1])
  }

  lemma {:induction false} ApplyAllSnoc(p: Pending, edits: seq<Edit>, e: Edit)
    requires |p.deleted| == |p.added| == NUM_LEVELS
    ensures ApplyAll(p, edits + [e]) == ApplyTo(ApplyAll(p, edits), e)
    decreases |edits|
  {
    if edits == [] {
      assert [e][1..] == [];
      assert edits + [e] == [e];
      assert ApplyAll(ApplyTo(p, e), []) == ApplyTo(p, e);
    } else {
      assert (edits + [e])[0] == edits[0] && (edits + [e])[1..] == edits[1..] + [e];
      ApplyAllSnoc(ApplyTo(p, edits[0]), edits[1..], e);
    }
  }

  /** VersionSet::Recover: replay the records into one builder, then keep the last value of each field.
      MarkFileNumberUsed acts on the counter before it is overwritten, so it leaves no trace. */
  method Recover(records: seq<Record>) returns (r: Option<Recovered>)
    requires forall i :: 0 <= i < |records| ==> EditOk(records[i].edit)
    ensures r.Some? <==> LastNext(records).Some? && LastLog(records).Some? && LastSeq(records).Some?
    ensures r.Some? ==>
              && r.value.version == SaveTo(EmptyVersion(), ApplyAll(Fresh(), Edits(records)))
              && Some(r.value.logNumber) == LastLog(records)
              && r.value.prevLogNumber == (if LastPrevLog(records).Some? then LastPrevLog(records).value else 0)
              && r.value.nextFile == LastNext(records).value + 1
              && Some(r.value.lastSequence) == LastSeq(records)
  {
    hide ApplyTo, SaveTo;
    var builder := new Builder(EmptyVersion());
    var logNumber, prevLogNumber, nextFile, lastSequence := None, None, None, None;
    assert Edits(records[..0]) == [];
    for i := 0 to |records|
      invariant builder.Valid() && builder.base == EmptyVersion()
      invariant builder.State() == ApplyAll(Fresh(), Edits(records[..i]))
      invariant logNumber == LastLog(records[..i]) && prevLogNumber == LastPrevLog(records[..i])
      invariant nextFile == LastNext(records[..i]) && lastSequence == LastSeq(records[..i])
    {
      var record := records[i];
      assert records[..i + 1][..i] == records[..i] && records[..i + 1][i] == record;
      assert Edits(records[..i + 1]) == Edits(records[..i]) + [record.edit];
      ApplyAllSnoc(Fresh(), Edits(records[..i]), record.edit);
      builder.Apply(record.edit);
      if record.logNumber.Some? {
        logNumber := record.logNumber;
      }
      if record.prevLogNumber.Some? {
        prevLogNumber := record.prevLogNumber;
      }
      if record.nextFile.Some? {
        nextFile := record.nextFile;
      }
      if record.lastSequence.Some? {
        lastSequence := record.lastSequence;
      }
    }
    assert records[..|records|] == records;
    if nextFile.None? || logNumber.None? || lastSequence.None? {
      return None;
    }
    var v := builder.Save();
    return Some(Recovered(v, logNumber.value, if prevLogNumber.Some? then prevLogNumber.value else 0,
                          nextFile.value + 1, lastSequence.value));
  }

  // ------------------------------------------------------------------ WriteSnapshot

  /** All files of the first `n` levels, as additions. */
  function FilesOf(v: Version, n: nat): seq<(nat, File)>
    requires n <= |v|
  {
    if n == 0 then [] else FilesOf(v, n - 1) + seq(|v[n - 1]|, i requires 0 <= i < |v[n - 1]| => (n - 1, v[n - 1][i]))
  }

  function SnapshotEdit(v: Version): Edit {
    Edit({}, FilesOf(v, |v|))
  }

  lemma {:induction false} FilesOfMembers(v: Version, n: nat, l: nat, f: File)
    requires n <= |v|
    ensures (l, f) in FilesOf(v, n) <==> l < n && f in v[l]
  {
    if n > 0 {
      FilesOfMembers(v, n - 1, l, f);
      var last: seq<(nat, File)> := seq(|v[n - 1]|, i requires 0 <= i < |v[n - 1]| => (n - 1, v[n - 1][i]));
      if l == n - 1 && f in v[l] {
        var i :| 0 <= i < |v[l]| && v[l][i] == f;
        assert last[i] == (l, f);
      }
    }
  }

  /** No number is listed twice on a level. */
  ghost predicate NumbersDistinct(files: seq<File>) {
    forall i, j :: 0 <= i < j < |files| ==> files[i].number != files[j].number
  }

  ghost predicate PairsDistinct(added: seq<(nat, File)>) {
    forall i, j :: 0 <= i < j < |added| ==> added[i].0 != added[j].0 || added[i].1.number != added[j].1.number
  }

  lemma {:induction false} FilesOfDistinct(v: Version, n: nat)
    requires n <= |v|
    requires forall l :: 0 <= l < |v| ==> NumbersDistinct(v[l])
    ensures PairsDistinct(FilesOf(v, n))
  {
    if n > 0 {
      FilesOfDistinct(v, n - 1);
      var front := FilesOf(v, n - 1);
      var last: seq<(nat, File)> := seq(|v[n - 1]|, i requires 0 <= i < |v[n - 1]| => (n - 1, v[n - 1][i]));
      forall i, j | 0 <= i < j < |front + last|
        ensures (front + last)[i].0 != (front + last)[j].0 || (front + last)[i].1.number != (front + last)[j].1.number
      {
        if i < |front| && |front| <= j {
          FilesOfMembers(v, n - 1, front[i].0, front[i].1);
          assert (front[i].0, front[i].1) in front;
          assert (front + last)[j] == last[j - |front|];
        } else if |front| <= i {
          assert (front + last)[i] == last[i - |front|] && (front + last)[j] == last[j - |front|];
          assert NumbersDistinct(v[n - 1]);
        }
      }
    }
  }

  /** A snapshot record applied to nothing gives the version back. */
  lemma SnapshotRestores(v: Version)
    requires AllOrdered(v)
    requires forall l :: 0 <= l < |v| ==> NumbersDistinct(v[l])
    ensures ApplyEdit(EmptyVersion(), SnapshotEdit(v)) == v
    ensures AddsUnseen({}, SnapshotEdit(v))
  {
    hide Ordered, NumbersDistinct, InsertAll, SaveLevel;
    var e := SnapshotEdit(v);
    FilesOfDistinct(v, |v|);
    assert PairsDistinct(e.added);
    var r := ApplyEdit(EmptyVersion(), e);
    forall l | 0 <= l < NUM_LEVELS ensures r[l] == v[l] {
      SnapshotLevel(v, l);
    }
  }

  lemma SnapshotLevel(v: Version, l: nat)
    requires AllOrdered(v) && l < NUM_LEVELS
    requires PairsDistinct(FilesOf(v, |v|))
    ensures var all := FilesOf(v, |v|);
            SaveLevel([], InsertAll([], all, l, |all|),
                      {} + DeletedNumbers(SnapshotEdit(v), l) - AddedNumbers(all, l, |all|)) == v[l]
  {
    hide Ordered, InsertAll, SaveLevel, FilesOf;
    var added := FilesOf(v, |v|);
    var inserted := InsertAll([], added, l, |added|);
    var deleted := {} + DeletedNumbers(SnapshotEdit(v), l) - AddedNumbers(added, l, |added|);
    assert deleted == {};
    assert added[..|added|] == added;
    OrderedNothing();
    InsertAllMembers([], added, l, |added|);
    SaveLevelOrdered([], inserted, deleted);
    forall f ensures f in SaveLevel([], inserted, deleted) <==> f in v[l] {
      SaveLevelMembers([], inserted, deleted, f);
      FilesOfMembers(v, |v|, l, f);
    }
    OrderedUnique(SaveLevel([], inserted, deleted), v[l]);
  }

  // ------------------------------------------------------------------ VersionSet

  /** The builder fed with all records of the manifest yields the version. */
  ghost predicate Replays(records: seq<Record>, v: Version, seen: set<(nat, nat)>) {
    && (forall i :: 0 <= i < |records| ==> EditOk(records[i].edit))
    && InStep(EmptyVersion(), ApplyAll(Fresh(), Edits(records)), v, seen)
  }

  lemma ReplaysMore(records: seq<Record>, v: Version, seen: set<(nat, nat)>, r: Record)
    requires Replays(records, v, seen)
    requires EditOk(r.edit) && AddsUnseen(seen, r.edit)
    ensures Replays(records + [r], ApplyEdit(v, r.edit), seen + AddedPairs(r.edit))
  {
    hide InStep, ApplyTo, ApplyEdit, AddsUnseen, AddedPairs;
    assert Edits(records + [r]) == Edits(records) + [r.edit];
    ApplyAllSnoc(Fresh(), Edits(records), r.edit);
    Step(EmptyVersion(), ApplyAll(Fresh(), Edits(records)), v, seen, r.edit);
  }

  lemma ReplaysNothing()
    ensures Replays([], EmptyVersion(), {})
  {
    StartInStep(EmptyVersion());
    assert Listed(EmptyVersion()) == {};
    assert Edits([]) == [];
  }

  lemma ReplaysMeans(records: seq<Record>, v: Version, seen: set<(nat, nat)>)
    requires Replays(records, v, seen)
    ensures v == SaveTo(EmptyVersion(), ApplyAll(Fresh(), Edits(records)))
    ensures |v| == NUM_LEVELS
  {
  }

  lemma LastOfSnoc(records: seq<Record>, r: Record)
    ensures r.logNumber.Some? ==> LastLog(records + [r]) == r.logNumber
    ensures r.prevLogNumber.Some? ==> LastPrevLog(records + [r]) == r.prevLogNumber
    ensures r.nextFile.Some? ==> LastNext(records + [r]) == r.nextFile
    ensures r.lastSequence.Some? ==> LastSeq(records + [r]) == r.lastSequence
  {
  }

  class VersionSet {
    var current: Version
    var nextFile: nat
    var logNumber: nat
    var prevLogNumber: nat
    var lastSequence: nat
    var manifest: seq<Record>
    ghost var seen: set<(nat, nat)>

    /** The manifest says all there is to know about the current version. */
    ghost predicate Valid()
      reads this
    {
      && Replays(manifest, current, seen)
      && LastLog(manifest) == Some(logNumber) && LastPrevLog(manifest) == Some(prevLogNumber)
      && LastNext(manifest).Some? && LastNext(manifest).value <= nextFile
      && LastSeq(manifest).Some? && LastSeq(manifest).value <= lastSequence
      && forall s :: s in seen ==> s.1 < LastNext(manifest).value
    }

    /** The first LogAndApply after opening: a new manifest, started with a snapshot of the version. */
    constructor Open(r: Recovered, edit: Edit, log: nat, nextFile: nat, lastSequence: nat)
      requires AllOrdered(r.version) && forall l :: 0 <= l < NUM_LEVELS ==> NumbersDistinct(r.version[l])
      requires EditOk(edit) && AddsUnseen(Listed(r.version), edit)
      requires r.nextFile <= nextFile && r.lastSequence <= lastSequence
      requires forall s :: s in Listed(r.version) ==> s.1 < nextFile
      requires forall a :: a in edit.added ==> a.1.number < nextFile
      ensures Valid()
      ensures current == ApplyEdit(r.version, edit)
      ensures logNumber == log && prevLogNumber == 0 && this.nextFile == nextFile && this.lastSequence == lastSequence
    {
      hide Replays, ApplyEdit, AddsUnseen, Ordered, NumbersDistinct, FilesOf;
      var snapshot := Record(SnapshotEdit(r.version), None, None, None, None);
      var record := Record(edit, Some(log), Some(0), Some(nextFile), Some(lastSequence));
      this.logNumber, this.prevLogNumber, this.nextFile, this.lastSequence := log, 0, nextFile, lastSequence;
      this.current := ApplyEdit(r.version, edit);
      this.manifest := [snapshot] + [record];
      this.seen := AddedPairs(SnapshotEdit(r.version)) + AddedPairs(edit);
      new;
      SnapshotRestores(r.version);
      ReplaysNothing();
      SnapshotOk(r.version);
      ReplaysMore([], EmptyVersion(), {}, snapshot);
      assert [] + [snapshot] == [snapshot];
      assert {} + AddedPairs(SnapshotEdit(r.version)) == Listed(r.version);
      ReplaysMore([snapshot], r.version, Listed(r.version), record);
      LastOfSnoc([snapshot], record);
    }

    /** Apply the edit to the current version, append it to the manifest, install the result. */
    method LogAndApply(edit: Edit, log: Option<nat>, prevLog: Option<nat>, written: bool)
      requires Valid()
      requires EditOk(edit) && AddsUnseen(seen, edit)
      requires forall a :: a in edit.added ==> a.1.number < nextFile
      requires log.Some? ==> logNumber <= log.value < nextFile
      modifies this
      ensures Valid()
      ensures nextFile == old(nextFile) && lastSequence == old(lastSequence)
      ensures written ==>
                && current == ApplyEdit(old(current), edit)
                && logNumber == (if log.Some? then log.value else old(logNumber))
                && prevLogNumber == (if prevLog.Some? then prevLog.value else old(prevLogNumber))
                && seen == old(seen) + AddedPairs(edit)
      ensures !written ==>
                && current == old(current) && manifest == old(manifest) && seen == old(seen)
                && logNumber == old(logNumber) && prevLogNumber == old(prevLogNumber)
    {
      hide Replays, ApplyEdit, AddsUnseen;
      var record := Record(edit, Some(if log.Some? then log.value else logNumber),
                           Some(if prevLog.Some? then prevLog.value else prevLogNumber),
                           Some(nextFile), Some(lastSequence));
      assert |current| == NUM_LEVELS by { ReplaysMeans(manifest, current, seen); }
      var v := ApplyEdit(current, edit);
      if written {
        ReplaysMore(manifest, current, seen, record);
        LastOfSnoc(manifest, record);
        manifest := manifest + [record];
        current := v;
        logNumber, prevLogNumber := record.logNumber.value, record.prevLogNumber.value;
        seen := seen + AddedPairs(edit);
      }
    }

    /** Recovery from the manifest rebuilds the file lists and the log number, and starts file
        numbers above every number the manifest mentions. */
    method Reopen() returns (r: Option<Recovered>)
      requires Valid()
      ensures r.Some?
      ensures r.value.version == current && r.value.logNumber == logNumber && r.value.prevLogNumber == prevLogNumber
      ensures r.value.lastSequence <= lastSequence
      ensures forall s :: s in seen ==> s.1 < r.value.nextFile
    {
      ReplaysMeans(manifest, current, seen);
      r := Recover(manifest);
    }
  }

  lemma SnapshotOk(v: Version)
    requires |v| == NUM_LEVELS
    ensures EditOk(SnapshotEdit(v))
    ensures AddedPairs(SnapshotEdit(v)) == Listed(v)
  {
    hide FilesOf;
    var e := SnapshotEdit(v);
    forall a | a in e.added ensures a.0 < NUM_LEVELS && (a.0, a.1.number) in Listed(v) {
      FilesOfMembers(v, |v|, a.0, a.1);
      assert (a.0, a.1) == a;
    }
    forall s | s in Listed(v) ensures s in AddedPairs(e) {
      var l: int, f: File :| 0 <= l < |v| && f in v[l] && s == (l, f.number);
      FilesOfMembers(v, |v|, l, f);
      assert (l, f) in e.added;
    }
  }
}
