/** Replaying log files into level-0 tables (db/db_impl.cc, Recover and RecoverLogFile). */
module Replays {
  import opened Keys
  import opened Files
  import opened Layers
  import opened Lookup
  import opened Engine
  import opened Maps
  import opened EngineInvariant
  import opened EngineWrites
  import opened EngineRecovery

  // ------------------------------------------------------------------ the memtable

  /** MemTable::Add: the entry goes to its place in the order. */
  method Add(mem: seq<Entry>, e: Entry) returns (r: seq<Entry>)
    requires Sorted(mem) && forall x :: x in mem ==> x.key != e.key
    ensures Sorted(r) && ToSet(r) == ToSet(mem) + {e}
  {
    var i := 0;
    while i < |mem| && Less(mem[i].key, e.key)
      invariant i <= |mem| && forall j :: 0 <= j < i ==> Less(mem[j].key, e.key)
    {
      i := i + 1;
    }
    r := mem[..i] + [e] + mem[i..];
    AddSorted(mem, i, e);
    assert forall x :: x in r <==> x in mem || x == e by {
      assert mem == mem[..i] + mem[i..];
    }
  }

  lemma AddSorted(mem: seq<Entry>, i: nat, e: Entry)
    requires Sorted(mem) && i <= |mem| && (forall j :: 0 <= j < i ==> Less(mem[j].key, e.key))
    requires i < |mem| ==> Less(e.key, mem[i].key)
    ensures Sorted(mem[..i] + [e] + mem[i..])
  {
    var r := mem[..i] + [e] + mem[i..];
    forall a, b | 0 <= a < b < |r| ensures Less(r[a].key, r[b].key) {
      assert r[a] == if a < i then mem[a] else if a == i then e else mem[a - 1];
      assert r[b] == if b < i then mem[b] else if b == i then e else mem[b - 1];
      assert i < b - 1 && b - 1 < |mem| ==> Less(mem[i].key, mem[b - 1].key);
    }
  }

  /** The operations of a record, with consecutive sequence numbers. */
  method InsertBatch(mem: seq<Entry>, b: Batch) returns (r: seq<Entry>)
    requires Sorted(mem) && SetNewer(BatchEntries(b), ToSet(mem))
    ensures Sorted(r) && ToSet(r) == ToSet(mem) + BatchEntries(b)
    ensures forall m, at: nat :: Unambiguous(ToSet(mem)) && b.start + |b.ops| <= at + 1 && Shows(ToSet(mem), m, at) ==>
              Shows(ToSet(r), Fold(m, b.ops), at)
  {
    hide Sorted, Shows, Fold, Unambiguous;
    r := mem;
    for i := 0 to |b.ops|
      invariant Sorted(r) && ToSet(r) == ToSet(mem) + FirstEntries(b, i)
    {
      var e := OpEntry(b.ops[i], b.start + i);
      assert e in BatchEntries(b);
      forall x | x in r ensures x.key != e.key {
        assert x in ToSet(r);
      }
      r := Add(r, e);
    }
    forall m, at: nat | Unambiguous(ToSet(mem)) && b.start + |b.ops| <= at + 1 && Shows(ToSet(mem), m, at)
      ensures Shows(ToSet(r), Fold(m, b.ops), at)
    {
      RecordShows(ToSet(mem), b, m, at);
    }
  }

  lemma RecordShows(s: set<Entry>, b: Batch, m: map<UserKey, Bytes>, at: nat)
    requires Unambiguous(s) && SetNewer(BatchEntries(b), s) && b.start + |b.ops| <= at + 1 && Shows(s, m, at)
    ensures Shows(s + BatchEntries(b), Fold(m, b.ops), at)
  {
    hide Shows, Unambiguous;
    AllOfBatch(b);
    if b.ops == [] {
      assert s + BatchEntries(b) == s;
    } else {
      assert OpEntry(b.ops[0], b.start + 0) in BatchEntries(b);
      BatchShows(s, b, |b.ops|, m, at);
    }
  }

  // ------------------------------------------------------------------ one log

  /** What has been replayed of `records`: tables in order of age, then the memtable. */
  ghost predicate Replayed(records: seq<Batch>, files: seq<File>, mem: seq<Entry>, low: nat, next: nat) {
    && Sorted(mem) && AllValid(files) && Successive(files)
    && FileEntries(files) + ToSet(mem) == RecordEntries(records)
    && SetNewer(ToSet(mem), FileEntries(files))
    && low <= next && forall f :: f in files ==> low <= f.number < next
  }

  lemma FileEntriesSnoc(files: seq<File>, f: File)
    ensures FileEntries(files + [f]) == FileEntries(files) + ToSet(f.entries)
  {
    var more := files + [f];
    forall e | e in FileEntries(files) + ToSet(f.entries) ensures e in FileEntries(more) {
      if e in FileEntries(files) {
        var i :| 0 <= i < |files| && e in files[i].entries;
        assert e in more[i].entries;
      } else {
        assert e in more[|files|].entries;
      }
    }
  }

  lemma SuccessiveSnoc(files: seq<File>, f: File)
    requires Successive(files) && SetNewer(ToSet(f.entries), FileEntries(files))
    requires forall g :: g in files ==> g.number < f.number
    ensures Successive(files + [f])
  {
    var more := files + [f];
    forall i, j | 0 <= i < j < |more|
      ensures more[i].number < more[j].number && SetNewer(ToSet(more[j].entries), ToSet(more[i].entries))
    {
      if j == |files| {
        InFileEntries(files, files[i]);
      }
    }
  }

  /** WriteLevel0Table with no version to look at: the memtable becomes a table, unless it is empty. */
  method WriteTable(ghost records: seq<Batch>, files: seq<File>, mem: seq<Entry>, ghost low: nat, next: nat,
                    size: seq<Entry> -> nat)
    returns (files': seq<File>, next': nat)
    requires Replayed(records, files, mem, low, next) && Counted(RecordEntries(records), MAX_SEQUENCE)
    ensures Replayed(records, files', [], low, next') && next' == next + 1
    ensures if mem == [] then files' == files
            else |files'| == |files| + 1 && files'[..|files|] == files
                 && files'[|files|].entries == mem && files'[|files|].size == size(mem)
  {
    hide Replayed, RecordEntries, Counted;
    next' := next + 1;
    if mem == [] {
      files' := files;
      ReplayedLater(records, files, low, next);
      return;
    }
    var f := File(next, size(mem), mem[0].key, mem[|mem| - 1].key, mem);
    files' := files + [f];
    ReplayedTable(records, files, mem, low, next, f);
  }

  lemma ReplayedLater(records: seq<Batch>, files: seq<File>, low: nat, next: nat)
    requires Replayed(records, files, [], low, next)
    ensures Replayed(records, files, [], low, next + 1)
  {
  }

  lemma ReplayedTable(records: seq<Batch>, files: seq<File>, mem: seq<Entry>, low: nat, next: nat, f: File)
    requires Replayed(records, files, mem, low, next) && Counted(RecordEntries(records), MAX_SEQUENCE) && mem != []
    requires f.number == next && f.entries == mem && f.smallest == mem[0].key && f.largest == mem[|mem| - 1].key
    ensures Replayed(records, files + [f], [], low, next + 1)
  {
    hide Successive, SetNewer, RecordEntries, FileEntries;
    assert f.entries[|mem| - 1] in ToSet(mem);
    FileEntriesSnoc(files, f);
    SuccessiveSnoc(files, f);
    assert ToSet<Entry>([]) == {};
    EmptyNewer(FileEntries(files + [f]));
    assert FileEntries(files) + ToSet(mem) + {} == FileEntries(files) + ToSet(mem);
  }

  lemma EmptyNewer(s: set<Entry>)
    ensures SetNewer({}, s)
  {
  }

  lemma {:induction false} SortedOnce(a: seq<Entry>, b: seq<Entry>)
    requires Sorted(a) && Sorted(b) && ToSet(a) == ToSet(b)
    ensures a == b
  {
    if a == [] {
      NoneIn(b);
    } else {
      assert a[|a| - 1] in ToSet(b);
      var x, y := a[|a| - 1], b[|b| - 1];
      assert y in ToSet(a);
      assert x == y;
      SortedInit(a);
      SortedInit(b);
      SortedOnce(a[..|a| - 1], b[..|b| - 1]);
    }
  }

  lemma NoneIn(a: seq<Entry>)
    ensures ToSet(a) == {} ==> a == []
  {
    assert a != [] ==> a[0] in ToSet(a);
  }

  lemma SortedInit(a: seq<Entry>)
    requires Sorted(a) && a != []
    ensures Sorted(a[..|a| - 1]) && ToSet(a[..|a| - 1]) == ToSet(a) - {a[|a| - 1]}
  {
    var init := a[..|a| - 1];
    forall e | e in ToSet(a) - {a[|a| - 1]} ensures e in ToSet(init) {
      var i :| 0 <= i < |a| && a[i] == e;
      assert init[i] == e;
    }
    forall e | e in ToSet(init) ensures e != a[|a| - 1] {
      var i :| 0 <= i < |init| && init[i] == e;
      assert Less(a[i].key, a[|a| - 1].key);
    }
  }

  /** `mem` is the memtable of the first `n` records. */
  ghost predicate IsMemtable(records: seq<Batch>, n: nat, mem: seq<Entry>) {
    0 < n <= |records| && Sorted(mem) && ToSet(mem) == RecordEntries(records[..n])
  }

  /** One memtable for all records would get big enough to be written out on the way. */
  ghost predicate Outgrows(records: seq<Batch>, big: seq<Entry> -> bool) {
    exists n: nat, mem :: IsMemtable(records, n, mem) && big(mem)
  }

  ghost predicate FitsSoFar(records: seq<Batch>, big: seq<Entry> -> bool, i: nat) {
    forall n: nat, mem :: n <= i && IsMemtable(records, n, mem) ==> !big(mem)
  }

  lemma FitsOn(records: seq<Batch>, big: seq<Entry> -> bool, i: nat, mem: seq<Entry>)
    requires FitsSoFar(records, big, i) && IsMemtable(records, i + 1, mem) && !big(mem)
    ensures FitsSoFar(records, big, i + 1)
  {
    forall n: nat, m | n <= i + 1 && IsMemtable(records, n, m) ensures !big(m) {
      if n == i + 1 {
        SortedOnce(m, mem);
      }
    }
  }

  lemma OnlyMemtable(records: seq<Batch>, n: nat, files: seq<File>, mem: seq<Entry>, low: nat, next: nat)
    requires 0 < n <= |records| && Replayed(records[..n], files, mem, low, next) && files == []
    ensures IsMemtable(records, n, mem)
  {
    assert FileEntries([]) == {};
  }

  /** RecoverLogFile: records go to a memtable, made for the first of them, that is written out whenever it is big
      enough.  `mem` is what is left over if one is `open`; `flushed` says whether one was written out on the way. */
  method ReplayLog(records: seq<Batch>, next: nat, big: seq<Entry> -> bool, size: seq<Entry> -> nat, maxSequence: nat)
    returns (files: seq<File>, mem: seq<Entry>, open: bool, next': nat, maxSequence': nat, flushed: bool)
    requires RecordsOk(records) && Counted(RecordEntries(records), MAX_SEQUENCE)
    ensures Replayed(records, files, mem, next, next')
    ensures !flushed ==> files == [] && next' == next && ToSet(mem) == RecordEntries(records)
    ensures if open then !big(mem) else mem == []
    ensures !open && !flushed <==> records == []
    ensures flushed <==> Outgrows(records, big)
    ensures forall f :: f in files ==> big(f.entries) && f.size == size(f.entries)
    ensures maxSequence <= maxSequence' && Counted(RecordEntries(records), maxSequence')
    ensures maxSequence' == maxSequence || exists b :: b in records && maxSequence' + 1 == b.start + |b.ops|
  {
    hide Replayed, RecordsOk, Counted, RecordEntries, BatchEntries, IsMemtable, FitsSoFar, Sorted;
    files, mem, open, next', maxSequence', flushed := [], [], false, next, maxSequence, false;
    NothingReplayed(next);
    assert records[..0] == [];
    NothingCounted(maxSequence);
    assert FitsSoFar(records, big, 0) by { FitsAtFirst(records, big); }
    for i := 0 to |records|
      invariant Replayed(records[..i], files, mem, next, next')
      invariant !flushed ==> files == [] && next' == next
      invariant if open then !big(mem) else mem == []
      invariant !open && !flushed <==> i == 0
      invariant if flushed then Outgrows(records, big) else FitsSoFar(records, big, i)
      invariant forall f :: f in files ==> big(f.entries) && f.size == size(f.entries)
      invariant maxSequence <= maxSequence' && Counted(RecordEntries(records[..i]), maxSequence')
      invariant maxSequence' == maxSequence || exists b :: b in records && maxSequence' + 1 == b.start + |b.ops|
    {
      var b := records[i];
      assert b in records;
      ReplayNext(records, i, files, mem, next, next');
      open := true;
      mem := InsertBatch(mem, b);
      ReplayAdded(records, i, files, mem, next, next');
      if b.start + |b.ops| > maxSequence' + 1 {
        maxSequence' := b.start + |b.ops| - 1;
      }
      CountedMore(records, i, maxSequence');
      if !flushed {
        OnlyMemtable(records, i + 1, files, mem, next, next');
        if !big(mem) {
          FitsOn(records, big, i, mem);
        }
      }
      if big(mem) {
        flushed := true;
        CountedPart(records, i + 1, MAX_SEQUENCE);
        files, next' := WriteTable(records[..i + 1], files, mem, next, next', size);
        mem, open := [], false;
      }
    }
    assert records[..|records|] == records;
    if !flushed {
      FitsAll(records, big);
      NoFiles(records, mem, next, next');
    }
  }

  lemma FitsAtFirst(records: seq<Batch>, big: seq<Entry> -> bool)
    ensures FitsSoFar(records, big, 0)
  {
  }

  lemma FitsAll(records: seq<Batch>, big: seq<Entry> -> bool)
    requires FitsSoFar(records, big, |records|)
    ensures !Outgrows(records, big)
  {
  }

  lemma NothingReplayed(next: nat)
    ensures Replayed([], [], [], next, next)
  {
    assert FileEntries([]) == {} && RecordEntries([]) == {} && ToSet<Entry>([]) == {};
  }

  lemma NothingCounted(last: nat)
    ensures Counted(RecordEntries([]), last)
  {
    assert RecordEntries([]) == {};
  }

  lemma NoFiles(records: seq<Batch>, mem: seq<Entry>, low: nat, next: nat)
    requires Replayed(records, [], mem, low, next)
    ensures ToSet(mem) == RecordEntries(records)
  {
    assert FileEntries([]) == {};
  }

  /** A record is newer than all before it. */
  lemma RecordNewer(records: seq<Batch>, i: nat)
    requires RecordsOk(records) && i < |records|
    ensures SetNewer(BatchEntries(records[i]), RecordEntries(records[..i]))
  {
    forall x, y | x in BatchEntries(records[i]) && y in RecordEntries(records[..i])
      ensures x.key.sequence > y.key.sequence
    {
      var j :| 0 <= j < |records[..i]| && y in BatchEntries(records[..i][j]);
      assert SetNewer(BatchEntries(records[i]), BatchEntries(records[j]));
    }
  }

  lemma ReplayNext(records: seq<Batch>, i: nat, files: seq<File>, mem: seq<Entry>, low: nat, next: nat)
    requires RecordsOk(records) && i < |records| && Replayed(records[..i], files, mem, low, next)
    ensures Sorted(mem) && SetNewer(BatchEntries(records[i]), ToSet(mem))
    ensures SetNewer(BatchEntries(records[i]), FileEntries(files))
  {
    hide RecordEntries, BatchEntries, Sorted, Successive;
    RecordNewer(records, i);
  }

  lemma ReplayAdded(records: seq<Batch>, i: nat, files: seq<File>, mem: seq<Entry>, low: nat, next: nat)
    requires RecordsOk(records) && i < |records| && Sorted(mem)
    requires exists was :: Replayed(records[..i], files, was, low, next)
                           && ToSet(mem) == ToSet(was) + BatchEntries(records[i])
    ensures Replayed(records[..i + 1], files, mem, low, next)
  {
    hide BatchEntries, Sorted, Successive, RecordEntries;
    var was :| Replayed(records[..i], files, was, low, next) && ToSet(mem) == ToSet(was) + BatchEntries(records[i]);
    assert records[..i + 1] == records[..i] + [records[i]];
    RecordEntriesSnoc(records[..i], records[i]);
    RecordNewer(records, i);
  }

  lemma CountedMore(records: seq<Batch>, i: nat, last: nat)
    requires i < |records| && records[i].start + |records[i].ops| <= last + 1
    requires exists before: nat :: before <= last && Counted(RecordEntries(records[..i]), before)
    ensures Counted(RecordEntries(records[..i + 1]), last)
  {
    assert records[..i + 1] == records[..i] + [records[i]];
    RecordEntriesSnoc(records[..i], records[i]);
    forall e | e in BatchEntries(records[i]) ensures e.key.sequence <= last {
      BatchRange(records[i], e);
    }
  }

  lemma CountedPart(records: seq<Batch>, n: nat, last: nat)
    requires n <= |records| && Counted(RecordEntries(records), last)
    ensures Counted(RecordEntries(records[..n]), last)
  {
    PrefixEntries(records, n);
  }

  // ------------------------------------------------------------------ all logs

  /** The logs to replay, in order. */
  ghost predicate Enumerates(d: Disk, numbers: seq<nat>) {
    && (forall i, j :: 0 <= i < j < |numbers| ==> numbers[i] < numbers[j])
    && (forall n :: n in numbers <==> n in d.logs && d.manifest.logNumber <= n)
  }

  /** Sequence numbers fit into 56 bits. */
  ghost predicate Bounded(records: seq<Batch>) {
    forall b :: b in records ==> b.start + |b.ops| <= MAX_SEQUENCE
  }

  /** What the logs before place `k` hold. */
  ghost function EntriesBefore(d: Disk, numbers: seq<nat>, k: nat): set<Entry>
    requires k <= |numbers| && forall i :: 0 <= i < |numbers| ==> numbers[i] in d.logs
  {
    set i, e | 0 <= i < k && e in RecordEntries(d.logs[numbers[i]].records) :: e
  }

  lemma EntriesNext(d: Disk, numbers: seq<nat>, k: nat)
    requires k < |numbers| && forall i :: 0 <= i < |numbers| ==> numbers[i] in d.logs
    ensures EntriesBefore(d, numbers, k + 1) == EntriesBefore(d, numbers, k) + RecordEntries(d.logs[numbers[k]].records)
  {
    hide RecordEntries;
  }

  lemma EntriesNewer(d: Disk, numbers: seq<nat>, k: nat)
    requires Enumerates(d, numbers) && k < |numbers| && LogsOk(d.logs, d.manifest.logNumber)
    ensures forall i :: 0 <= i < |numbers| ==> numbers[i] in d.logs
    ensures SetNewer(RecordEntries(d.logs[numbers[k]].records), EntriesBefore(d, numbers, k))
    ensures RecordsOk(d.logs[numbers[k]].records)
  {
    hide RecordEntries, RecordsOk;
    forall i | 0 <= i < |numbers| ensures numbers[i] in d.logs && d.manifest.logNumber <= numbers[i] {
      assert numbers[i] in numbers;
    }
    var n := numbers[k];
    forall x, y | x in RecordEntries(d.logs[n].records) && y in EntriesBefore(d, numbers, k)
      ensures x.key.sequence > y.key.sequence
    {
      var i :| 0 <= i < k && y in RecordEntries(d.logs[numbers[i]].records);
      assert SetNewer(RecordEntries(d.logs[n].records), RecordEntries(d.logs[numbers[i]].records));
    }
  }

  lemma EntriesAll(d: Disk, numbers: seq<nat>)
    requires Enumerates(d, numbers)
    ensures forall i :: 0 <= i < |numbers| ==> numbers[i] in d.logs
    ensures EntriesBefore(d, numbers, |numbers|) == ReplayFrom(d.logs, d.manifest.logNumber)
    ensures |numbers| > 0 ==>
              EntriesBefore(d, numbers, |numbers| - 1) == Replay(d.logs, d.manifest.logNumber, numbers[|numbers| - 1])
    ensures |numbers| > 0 ==> forall n :: n in d.logs && d.manifest.logNumber <= n ==> n <= numbers[|numbers| - 1]
  {
    hide RecordEntries;
    forall i | 0 <= i < |numbers| ensures numbers[i] in d.logs && d.manifest.logNumber <= numbers[i] {
      assert numbers[i] in numbers;
    }
    forall n | n in d.logs && d.manifest.logNumber <= n ensures exists i :: 0 <= i < |numbers| && numbers[i] == n {
      assert n in numbers;
    }
  }

  /** Tables written so far hold what the logs so far hold. */
  ghost predicate Gathered(files: seq<File>, entries: set<Entry>, low: nat, next: nat) {
    && AllValid(files) && Successive(files) && FileEntries(files) == entries
    && low <= next && forall f :: f in files ==> low <= f.number < next
  }

  lemma FileEntriesConcat(a: seq<File>, b: seq<File>)
    ensures FileEntries(a + b) == FileEntries(a) + FileEntries(b)
  {
    var all := a + b;
    forall e | e in FileEntries(a) ensures e in FileEntries(all) {
      var i :| 0 <= i < |a| && e in a[i].entries;
      assert e in all[i].entries;
    }
    forall e | e in FileEntries(b) ensures e in FileEntries(all) {
      var i :| 0 <= i < |b| && e in b[i].entries;
      assert e in all[|a| + i].entries;
    }
  }

  lemma SuccessiveConcat(a: seq<File>, b: seq<File>)
    requires Successive(a) && Successive(b) && SetNewer(FileEntries(b), FileEntries(a))
    requires forall f, g :: f in a && g in b ==> f.number < g.number
    ensures Successive(a + b)
  {
    var all := a + b;
    forall i, j | 0 <= i < j < |all|
      ensures all[i].number < all[j].number && SetNewer(ToSet(all[j].entries), ToSet(all[i].entries))
    {
      if i < |a| <= j {
        InFileEntries(a, all[i]);
        InFileEntries(b, all[j]);
        assert all[i] in a && all[j] in b;
      } else if j < |a| {
        assert all[i] == a[i] && all[j] == a[j];
      } else {
        assert all[i] == b[i - |a|] && all[j] == b[j - |a|];
      }
    }
  }

  lemma GatherMore(files: seq<File>, entries: set<Entry>, low: nat, next: nat, more: seq<File>, records: seq<Batch>,
                   next': nat)
    requires Gathered(files, entries, low, next) && Replayed(records, more, [], next, next')
    requires SetNewer(RecordEntries(records), entries)
    ensures Gathered(files + more, entries + RecordEntries(records), low, next')
  {
    hide Successive, SetNewer, RecordEntries;
    assert ToSet<Entry>([]) == {};
    assert FileEntries(more) == RecordEntries(records);
    FileEntriesConcat(files, more);
    SuccessiveConcat(files, more);
  }

  /** The log that recovery goes on using: the last one, if logs are reused and its records fit into one memtable. */
  ghost function Reusable(d: Disk, numbers: seq<nat>, reuseLogs: bool, big: seq<Entry> -> bool): Option<nat>
    requires forall n :: n in numbers ==> n in d.logs
  {
    if reuseLogs && |numbers| > 0 && !Outgrows(d.logs[numbers[|numbers| - 1]].records, big)
    then Some(numbers[|numbers| - 1])
    else None
  }

  /** A record of the logs ends with this sequence number. */
  ghost predicate EndsAt(d: Disk, numbers: seq<nat>, last: nat)
    requires forall n :: n in numbers ==> n in d.logs
  {
    exists n, b :: n in numbers && b in d.logs[n].records && last + 1 == b.start + |b.ops|
  }

  /** RecoverLogFile for the log at place `i`, and what becomes of its last memtable. */
  method RecoverOne(d: Disk, numbers: seq<nat>, i: nat, reuseLogs: bool, big: seq<Entry> -> bool,
                    size: seq<Entry> -> nat, files: seq<File>, save: bool, ghost low: nat, next: nat, maxSequence: nat)
    returns (files': seq<File>, reuse: Option<nat>, save': bool, next': nat, maxSequence': nat)
    requires Enumerates(d, numbers) && LogsOk(d.logs, d.manifest.logNumber) && i < |numbers|
    requires Counted(ReplayFrom(d.logs, d.manifest.logNumber), MAX_SEQUENCE)
    requires forall n :: n in d.logs ==> Bounded(d.logs[n].records)
    requires forall n :: n in numbers ==> n in d.logs
    requires low <= next && Gathered(files, EntriesBefore(d, numbers, i), low, next)
    requires Counted(EntriesBefore(d, numbers, i), maxSequence) && maxSequence < MAX_SEQUENCE
    ensures reuse == if i + 1 < |numbers| then None else Reusable(d, numbers, reuseLogs, big)
    ensures next <= next' && numbers[i] < next'
    ensures Gathered(files', EntriesBefore(d, numbers, if reuse.Some? then i else i + 1), low, next')
    ensures Counted(EntriesBefore(d, numbers, i + 1), maxSequence') && maxSequence' < MAX_SEQUENCE
    ensures maxSequence' == maxSequence || EndsAt(d, numbers, maxSequence')
    ensures save' || (!save && files' == files)
    ensures d.logs[numbers[i]].records == [] ==> files' == files && save' == save
  {
    hide LogsOk, RecordEntries, ReplayFrom, Gathered, Replayed, Counted, Bounded, EntriesBefore, RecordsOk, SetNewer,
         Outgrows, EndsAt;
    var n := numbers[i];
    EntriesAll(d, numbers);
    EntriesNewer(d, numbers, i);
    EntriesNext(d, numbers, i);
    LogCounted(d, n);
    var more, mem, open, flushed;
    more, mem, open, next', maxSequence', flushed := ReplayLog(d.logs[n].records, next, big, size, maxSequence);
    ReplayedBound(d.logs[n].records, more, mem, next, next');
    files', reuse, save' := files, None, save;
    if reuseLogs && i == |numbers| - 1 && !flushed {
      reuse := Some(n);
      GatheredLater(files, EntriesBefore(d, numbers, i), low, next, next');
    } else {
      if open {
        more, next' := WriteTable(d.logs[n].records, more, mem, next, next', size);
      }
      GatherMore(files, EntriesBefore(d, numbers, i), low, next, more, d.logs[n].records, next');
      files', save' := files + more, save || flushed || open;
    }
    MaxBelow(d.logs[n].records, maxSequence, maxSequence');
    EndsHere(d, numbers, i, maxSequence, maxSequence');
    CountedBoth(EntriesBefore(d, numbers, i), RecordEntries(d.logs[n].records), maxSequence, maxSequence');
    if n >= next' {
      GatheredLater(files', EntriesBefore(d, numbers, if reuse.Some? then i else i + 1), low, next', n + 1);
      next' := n + 1;
    }
  }

  /** All logs from the manifest's log number on are replayed.  What recovery is then given is what it may be given. */
  method RecoverLogs(d: Disk, numbers: seq<nat>, reuseLogs: bool, append: bool, big: seq<Entry> -> bool,
                     size: seq<Entry> -> nat)
    returns (o: Opening)
    requires Enumerates(d, numbers) && LogsOk(d.logs, d.manifest.logNumber)
    requires d.manifest.logNumber <= d.manifest.nextFile
    requires d.manifest.lastSequence < MAX_SEQUENCE && Counted(ReplayFrom(d.logs, d.manifest.logNumber), MAX_SEQUENCE)
    requires forall n :: n in d.logs ==> Bounded(d.logs[n].records)
    ensures CanRecover(d, o) && o.append == append
    ensures o.reuse == Reusable(d, numbers, reuseLogs, big)
    ensures o.last == d.manifest.lastSequence || EndsAt(d, numbers, o.last)
    ensures (forall n :: n in numbers ==> d.logs[n].records == []) ==> o.files == [] && o.save == !append
  {
    hide LogsOk, RecordEntries, ReplayFrom, Replay, Gathered, Replayed, Counted, Successive, AllValid, FileEntries,
         Bounded, EntriesBefore, RecordsOk, SetNewer, Outgrows, CanRecover, Reflushed, EndsAt;
    EntriesAll(d, numbers);
    var files, reuse, save, next: nat := [], None, !append, d.manifest.nextFile + 1;
    ghost var low := next;
    var maxSequence: nat := 0;
    NothingGathered(low);
    assert EntriesBefore(d, numbers, 0) == {} by { EntriesNone(d, numbers); }
    NoneCounted(0);
    for i := 0 to |numbers|
      invariant reuse == if i < |numbers| then None else Reusable(d, numbers, reuseLogs, big)
      invariant maxSequence == 0 || EndsAt(d, numbers, maxSequence)
      invariant low <= next && (save || (append && files == []))
      invariant (forall j :: 0 <= j < i ==> d.logs[numbers[j]].records == []) ==> files == [] && save == !append
      invariant Gathered(files, EntriesBefore(d, numbers, if reuse.Some? then i - 1 else i), low, next)
      invariant forall j :: 0 <= j < i ==> numbers[j] < next
      invariant Counted(EntriesBefore(d, numbers, i), maxSequence) && maxSequence < MAX_SEQUENCE
    {
      files, reuse, save, next, maxSequence :=
        RecoverOne(d, numbers, i, reuseLogs, big, size, files, save, low, next, maxSequence);
    }
    var last := if d.manifest.lastSequence < maxSequence then maxSequence else d.manifest.lastSequence;
    o := Opening(files, reuse, append, save, next, last);
    OpeningFits(d, numbers, o, low, maxSequence);
  }

  lemma EndsHere(d: Disk, numbers: seq<nat>, i: nat, last: nat, last': nat)
    requires i < |numbers| && (forall n :: n in numbers ==> n in d.logs)
    requires last' == last || exists b :: b in d.logs[numbers[i]].records && last' + 1 == b.start + |b.ops|
    ensures last' == last || EndsAt(d, numbers, last')
  {
    assert numbers[i] in numbers;
  }

  lemma OpeningFits(d: Disk, numbers: seq<nat>, o: Opening, low: nat, last: nat)
    requires Enumerates(d, numbers) && d.manifest.logNumber <= d.manifest.nextFile && low == d.manifest.nextFile + 1
    requires o.reuse.Some? ==> |numbers| > 0 && o.reuse.value == numbers[|numbers| - 1]
    requires forall i :: 0 <= i < |numbers| ==> numbers[i] in d.logs
    requires Gathered(o.files, EntriesBefore(d, numbers, if o.reuse.Some? then |numbers| - 1 else |numbers|), low,
                      o.next)
    requires low <= o.next && (o.save || (o.append && o.files == []))
    requires forall j :: 0 <= j < |numbers| ==> numbers[j] < o.next
    requires Counted(EntriesBefore(d, numbers, |numbers|), last) && d.manifest.lastSequence <= o.last < MAX_SEQUENCE
    requires last <= o.last
    ensures CanRecover(d, o)
  {
    hide ReplayFrom, Replay, Gathered, Counted, Successive, AllValid, FileEntries, EntriesBefore;
    EntriesAll(d, numbers);
    GatheredMeans(o.files, EntriesBefore(d, numbers, if o.reuse.Some? then |numbers| - 1 else |numbers|), low, o.next);
    assert FileEntries(o.files) == Reflushed(d, o.reuse);
    CountedMeans(ReplayFrom(d.logs, d.manifest.logNumber), last);
    LogsBelow(d, numbers, o.next);
    if o.reuse.Some? {
      assert o.reuse.value in numbers;
    }
  }

  lemma EntriesNone(d: Disk, numbers: seq<nat>)
    requires forall i :: 0 <= i < |numbers| ==> numbers[i] in d.logs
    ensures EntriesBefore(d, numbers, 0) == {}
  {
  }

  lemma NothingGathered(low: nat)
    ensures Gathered([], {}, low, low)
  {
    assert FileEntries([]) == {};
  }

  lemma NoneCounted(last: nat)
    ensures Counted({}, last)
  {
  }

  lemma LogCounted(d: Disk, n: nat)
    requires n in d.logs && d.manifest.logNumber <= n && Counted(ReplayFrom(d.logs, d.manifest.logNumber), MAX_SEQUENCE)
    ensures Counted(RecordEntries(d.logs[n].records), MAX_SEQUENCE)
  {
    InReplayFrom(d.logs, d.manifest.logNumber, n);
  }

  lemma ReplayedBound(records: seq<Batch>, files: seq<File>, mem: seq<Entry>, low: nat, next: nat)
    requires Replayed(records, files, mem, low, next)
    ensures low <= next
  {
  }

  lemma GatheredLater(files: seq<File>, entries: set<Entry>, low: nat, next: nat, next': nat)
    requires Gathered(files, entries, low, next) && next <= next'
    ensures Gathered(files, entries, low, next')
  {
  }

  lemma MaxBelow(records: seq<Batch>, max: nat, max': nat)
    requires Bounded(records) && max < MAX_SEQUENCE
    requires max' == max || exists b :: b in records && max' + 1 == b.start + |b.ops|
    ensures max' < MAX_SEQUENCE
  {
  }

  lemma CountedBoth(a: set<Entry>, b: set<Entry>, max: nat, max': nat)
    requires Counted(a, max) && max <= max' && Counted(b, max')
    ensures Counted(a + b, max')
  {
  }

  lemma GatheredMeans(files: seq<File>, entries: set<Entry>, low: nat, next: nat)
    requires Gathered(files, entries, low, next)
    ensures AllValid(files) && Successive(files) && FileEntries(files) == entries
    ensures forall f :: f in files ==> low <= f.number < next
  {
  }

  lemma CountedMeans(s: set<Entry>, last: nat)
    requires Counted(s, last)
    ensures forall e :: e in s ==> e.key.sequence <= last
  {
  }

  lemma LogsBelow(d: Disk, numbers: seq<nat>, next: nat)
    requires Enumerates(d, numbers) && d.manifest.logNumber <= next
    requires forall j :: 0 <= j < |numbers| ==> numbers[j] < next
    ensures forall n :: n in d.logs ==> n < next
  {
    forall n | n in d.logs ensures n < next {
      if d.manifest.logNumber <= n {
        assert n in numbers;
      }
    }
  }
}
