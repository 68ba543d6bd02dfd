/** Point lookup (db/db_impl.cc, DBImpl::Get; db/version_set.cc, Version::Get; db/memtable.cc, MemTable::Get).

    The search stops at the first layer that has a visible entry.  It agrees with the definition of
    `View`, which looks at all entries of all layers. */
module Lookup {
  import opened Keys
  import opened Files
  import opened Plans
  import opened Layers

  // ------------------------------------------------------------------ one sorted run of entries

  /** The first entry at or after the target: where a table or memtable iterator stops. */
  method SeekEntry(es: seq<Entry>, target: InternalKey) returns (index: nat)
    requires Sorted(es)
    ensures index <= |es|
    ensures forall i :: 0 <= i < index ==> Less(es[i].key, target)
    ensures forall i :: index <= i < |es| ==> !Less(es[i].key, target)
  {
    var left, right := 0, |es|;
    while left < right
      invariant 0 <= left <= right <= |es|
      invariant forall i :: 0 <= i < left ==> Less(es[i].key, target)
      invariant forall i :: right <= i < |es| ==> !Less(es[i].key, target)
    {
      var mid := (left + right) / 2;
      if Compare(es[mid].key, target) < 0 {
        left := mid + 1;
      } else {
        right := mid;
      }
    }
    index := right;
  }

  /** Seek to the user key at the sequence number, then only compare the user key. */
  method SearchEntries(es: seq<Entry>, k: UserKey, at: nat) returns (r: Option<Entry>)
    requires Sorted(es)
    ensures r.Some? ==> IsNewest(ToSet(es), k, at, r.value)
    ensures r.None? ==> !AnyVisible(ToSet(es), k, at)
  {
    var index := SeekEntry(es, SeekKey(k, at));
    if index < |es| && es[index].key.user == k {
      FirstIsNewest(es, k, at, index);
      return Some(es[index]);
    }
    NoneVisible(es, k, at, index);
    return None;
  }

  lemma FirstIsNewest(es: seq<Entry>, k: UserKey, at: nat, index: nat)
    requires Sorted(es) && index < |es| && es[index].key.user == k
    requires forall i :: 0 <= i < index ==> Less(es[i].key, SeekKey(k, at))
    requires forall i :: index <= i < |es| ==> !Less(es[i].key, SeekKey(k, at))
    ensures IsNewest(ToSet(es), k, at, es[index])
  {
    forall x | x in ToSet(es) && x.key.user == k && x.key.sequence <= at
      ensures x.key.sequence <= es[index].key.sequence
    {
      var i :| 0 <= i < |es| && es[i] == x;
      if index < i {
        assert Less(es[index].key, es[i].key);
      }
    }
  }

  lemma NoneVisible(es: seq<Entry>, k: UserKey, at: nat, index: nat)
    requires Sorted(es) && index <= |es|
    requires forall i :: 0 <= i < index ==> Less(es[i].key, SeekKey(k, at))
    requires forall i :: index <= i < |es| ==> !Less(es[i].key, SeekKey(k, at))
    requires index < |es| ==> es[index].key.user != k
    ensures !AnyVisible(ToSet(es), k, at)
  {
    forall x | x in ToSet(es)
      ensures !(x.key.user == k && x.key.sequence <= at)
    {
      var i :| 0 <= i < |es| && es[i] == x;
      if index < i {
        assert Less(es[index].key, es[i].key);
      }
    }
  }

  // ------------------------------------------------------------------ one level

  ghost function LevelEntries(files: seq<File>): set<Entry> {
    set f, e | f in files && e in f.entries :: e
  }

  /** Binary search for the only file of a sorted level that can hold the newest visible entry. */
  method SearchLevel(files: seq<File>, k: UserKey, at: nat) returns (r: Option<Entry>)
    requires AllValid(files)
    ensures Disjoint(files) && r.Some? ==> IsNewest(LevelEntries(files), k, at, r.value)
    ensures Disjoint(files) && r.None? ==> !AnyVisible(LevelEntries(files), k, at)
    ensures r.Some? ==> r.value.key.user == k && FoundIn(files, SeekKey(k, at), r.value)
  {
    hide Disjoint, ValidFile, IsNewest, AnyVisible, LevelEntries, Turns;
    var index := FindFile(files, SeekKey(k, at));
    r := None;
    assert index <= |files| by { TurnsInside(files, SeekKey(k, at), index); }
    if index < |files| && !(k < files[index].smallest.user) {
      assert files[index] in files;
      assert Sorted(files[index].entries) by {
        ValidSorted(files[index]);
      }
      r := SearchEntries(files[index].entries, k, at);
      if r.Some? {
        if Disjoint(files) {
          NewestInFile(files, k, at, index, r.value);
        }
        NewestIsMember(ToSet(files[index].entries), k, at, r.value);
        return;
      }
    }
    if Disjoint(files) {
      NothingInLevel(files, k, at, index);
    }
  }

  /** In a file that a binary search for the key may come to. */
  ghost predicate FoundIn(files: seq<File>, key: InternalKey, e: Entry) {
    exists i: nat :: i < |files| && Turns(files, key, i) && e in files[i].entries
  }

  lemma TurnsInside(files: seq<File>, key: InternalKey, index: nat)
    requires Turns(files, key, index)
    ensures index <= |files|
  {
  }

  lemma ValidSorted(f: File)
    requires ValidFile(f)
    ensures Sorted(f.entries)
  {
  }

  lemma NewestIsMember(s: set<Entry>, k: UserKey, at: nat, e: Entry)
    requires IsNewest(s, k, at, e)
    ensures e in s && e.key.user == k && e.key.sequence <= at
  {
  }

  /** A file that ends before the seek key holds no visible entry of the user key. */
  lemma NothingBefore(f: File, k: UserKey, at: nat)
    requires ValidFile(f)
    requires Less(f.largest, SeekKey(k, at))
    ensures forall e :: e in f.entries ==> !(e.key.user == k && e.key.sequence <= at)
  {
    EntriesInRange(f);
  }

  lemma NewestInFile(files: seq<File>, k: UserKey, at: nat, index: nat, e: Entry)
    requires Disjoint(files) && AllValid(files) && index < |files|
    requires forall i :: 0 <= i < index ==> Less(files[i].largest, SeekKey(k, at))
    requires IsNewest(ToSet(files[index].entries), k, at, e)
    ensures IsNewest(LevelEntries(files), k, at, e)
  {
    hide Disjoint, ValidFile;
    var f := files[index];
    assert f in files && e in f.entries;
    forall x | x in LevelEntries(files) && x.key.user == k && x.key.sequence <= at
      ensures x.key.sequence <= e.key.sequence
    {
      var g: File :| g in files && x in g.entries;
      var i :| 0 <= i < |files| && files[i] == g;
      if i < index {
        NothingBefore(g, k, at);
      } else if i > index {
        LaterFile(files, index, i, e, x);
      } else {
        assert x in ToSet(f.entries);
      }
    }
  }

  lemma LaterFile(files: seq<File>, i: nat, j: nat, e: Entry, x: Entry)
    requires Disjoint(files) && AllValid(files)
    requires i < j < |files| && e in files[i].entries && x in files[j].entries
    ensures Less(e.key, x.key)
  {
    assert files[i] in files && files[j] in files;
    EntriesInRange(files[i]);
    EntriesInRange(files[j]);
    StartsByIndex(files, i, j);
  }

  lemma NothingInLevel(files: seq<File>, k: UserKey, at: nat, index: nat)
    requires Disjoint(files) && AllValid(files) && index <= |files|
    requires forall i :: 0 <= i < index ==> Less(files[i].largest, SeekKey(k, at))
    requires index < |files| ==> !Less(files[index].largest, SeekKey(k, at))
    requires index < |files| ==> k < files[index].smallest.user || !AnyVisible(ToSet(files[index].entries), k, at)
    ensures !AnyVisible(LevelEntries(files), k, at)
  {
    hide Disjoint, ValidFile;
    forall x | x in LevelEntries(files)
      ensures !(x.key.user == k && x.key.sequence <= at)
    {
      var g: File :| g in files && x in g.entries;
      var i :| 0 <= i < |files| && files[i] == g;
      assert ValidFile(g);
      if i < index {
        NothingBefore(g, k, at);
      } else {
        LastIsPast(files[index], k, at);
        if i > index {
          LastEntry(files[index]);
          LaterFile(files, index, i, files[index].entries[|files[index].entries| - 1], x);
        } else {
          assert x in ToSet(g.entries);
          EntriesInRange(g);
        }
      }
    }
  }

  lemma LastEntry(f: File)
    requires ValidFile(f)
    ensures |f.entries| > 0 && f.entries[|f.entries| - 1] in f.entries && f.entries[|f.entries| - 1].key == f.largest
  {
  }

  /** If a file reaches the seek key but shows nothing for the user key, it ends past the user key. */
  lemma LastIsPast(f: File, k: UserKey, at: nat)
    requires ValidFile(f)
    requires !Less(f.largest, SeekKey(k, at))
    requires k < f.smallest.user || !AnyVisible(ToSet(f.entries), k, at)
    ensures k < f.largest.user
  {
    EntriesInRange(f);
    var last := f.entries[|f.entries| - 1];
    assert last in ToSet(f.entries);
  }

  // ------------------------------------------------------------------ level 0

  /** Files in decreasing order of number, with the same members. */
  method SortNewestFirst(files: seq<File>) returns (r: seq<File>)
    requires NumberedByAge(files)
    ensures forall f :: f in r <==> f in files
    ensures forall i, j :: 0 <= i < j < |r| ==> r[i].number >= r[j].number
  {
    hide NumberedByAge;
    r := [];
    for n := 0 to |files|
      invariant forall f :: f in r <==> f in files[..n]
      invariant forall i, j :: 0 <= i < j < |r| ==> r[i].number >= r[j].number
    {
      var f := files[n];
      var k := 0;
      while k < |r| && r[k].number >= f.number
        invariant 0 <= k <= |r|
        invariant forall i :: 0 <= i < k ==> r[i].number >= f.number
      {
        k := k + 1;
      }
      assert files[..n + 1] == files[..n] + [f];
      Placed(r, k, f);
      r := r[..k] + [f] + r[k..];
    }
    assert files[..|files|] == files;
  }

  /** A file put at its place in a list by decreasing number. */
  lemma Placed(files: seq<File>, k: nat, f: File)
    requires k <= |files| && (forall i, j :: 0 <= i < j < |files| ==> files[i].number >= files[j].number)
    requires (forall i :: 0 <= i < k ==> files[i].number >= f.number) && (k < |files| ==> files[k].number < f.number)
    ensures var r := files[..k] + [f] + files[k..];
            && (forall g :: g in r <==> g in files || g == f)
            && forall i, j :: 0 <= i < j < |r| ==> r[i].number >= r[j].number
  {
    var r := files[..k] + [f] + files[k..];
    assert files == files[..k] + files[k..];
    forall i, j | 0 <= i < j < |r| ensures r[i].number >= r[j].number {
      assert r[i] == if i < k then files[i] else if i == k then f else files[i - 1];
      assert r[j] == if j < k then files[j] else if j == k then f else files[j - 1];
    }
  }

  /** The level-0 files whose range holds the user key, newest first. */
  method Candidates(files: seq<File>, k: UserKey) returns (r: seq<File>)
    requires NumberedByAge(files)
    ensures forall f :: f in r <==> f in files && Within(f, k)
    ensures forall i, j :: 0 <= i < j < |r| ==> r[i].number >= r[j].number
  {
    hide FileNewer;
    var tmp := [];
    for i := 0 to |files|
      invariant forall f :: f in tmp <==> f in files[..i] && Within(f, k)
    {
      assert files[..i + 1] == files[..i] + [files[i]];
      if k >= files[i].smallest.user && k <= files[i].largest.user {
        tmp := tmp + [files[i]];
      }
    }
    assert files[..|files|] == files;
    r := SortNewestFirst(tmp);
  }

  lemma OutOfRange(f: File, k: UserKey, at: nat)
    requires ValidFile(f) && !Within(f, k)
    ensures !AnyVisible(ToSet(f.entries), k, at)
  {
    EntriesInRange(f);
  }

  method SearchLevelZero(files: seq<File>, k: UserKey, at: nat) returns (r: Option<Entry>)
    requires NumberedByAge(files) && AllValid(files)
    ensures r.Some? ==> IsNewest(LevelEntries(files), k, at, r.value)
    ensures r.None? ==> !AnyVisible(LevelEntries(files), k, at)
    ensures r.Some? ==> exists f :: f in files && r.value in f.entries
  {
    hide FileNewer, ValidFile, IsNewest, AnyVisible, LevelEntries;
    var tmp := Candidates(files, k);
    for i := 0 to |tmp|
      invariant forall j :: 0 <= j < i ==> !AnyVisible(ToSet(tmp[j].entries), k, at)
    {
      assert tmp[i] in files;
      ValidSorted(tmp[i]);
      r := SearchEntries(tmp[i].entries, k, at);
      if r.Some? {
        FirstHitZero(files, tmp, k, at, i, r.value);
        NewestIsMember(ToSet(tmp[i].entries), k, at, r.value);
        return;
      }
    }
    NoHitZero(files, tmp, k, at);
    return None;
  }

  lemma FirstHitZero(files: seq<File>, tmp: seq<File>, k: UserKey, at: nat, n: nat, e: Entry)
    requires NumberedByAge(files) && AllValid(files)
    requires forall f :: f in tmp <==> f in files && Within(f, k)
    requires forall i, j :: 0 <= i < j < |tmp| ==> tmp[i].number >= tmp[j].number
    requires n < |tmp|
    requires forall j :: 0 <= j < n ==> !AnyVisible(ToSet(tmp[j].entries), k, at)
    requires IsNewest(ToSet(tmp[n].entries), k, at, e)
    ensures IsNewest(LevelEntries(files), k, at, e)
  {
    hide ValidFile;
    var f := tmp[n];
    assert f in files && e in f.entries;
    forall x | x in LevelEntries(files) && x.key.user == k && x.key.sequence <= at
      ensures x.key.sequence <= e.key.sequence
    {
      var g: File :| g in files && x in g.entries;
      assert x in ToSet(g.entries);
      if !Within(g, k) {
        OutOfRange(g, k, at);
      }
      var i :| 0 <= i < |tmp| && tmp[i] == g;
      if i > n && g != f {
        assert f.number > g.number;
        assert FileNewer(f, g);
      }
    }
  }

  lemma NoHitZero(files: seq<File>, tmp: seq<File>, k: UserKey, at: nat)
    requires AllValid(files)
    requires forall f :: f in tmp <==> f in files && Within(f, k)
    requires forall j :: 0 <= j < |tmp| ==> !AnyVisible(ToSet(tmp[j].entries), k, at)
    ensures !AnyVisible(LevelEntries(files), k, at)
  {
    hide ValidFile;
    forall x | x in LevelEntries(files)
      ensures !(x.key.user == k && x.key.sequence <= at)
    {
      var g: File :| g in files && x in g.entries;
      assert x in ToSet(g.entries);
      if Within(g, k) {
        var i :| 0 <= i < |tmp| && tmp[i] == g;
      } else {
        OutOfRange(g, k, at);
      }
    }
  }

  // ------------------------------------------------------------------ all layers

  /** Every entry of `a` is newer than every entry of `b`. */
  ghost predicate SetNewer(a: set<Entry>, b: set<Entry>) {
    forall x, y :: x in a && y in b ==> x.key.sequence > y.key.sequence
  }

  /** The first layer with a visible entry decides. */
  lemma FirstHit(upper: set<Entry>, here: set<Entry>, lower: set<Entry>, k: UserKey, at: nat, e: Entry)
    requires !AnyVisible(upper, k, at)
    requires IsNewest(here, k, at, e)
    requires forall y :: y in lower && y.key.user == k ==> y.key.sequence < e.key.sequence
    ensures IsNewest(upper + here + lower, k, at, e)
  {
  }

  lemma BothEmpty(a: set<Entry>, b: set<Entry>, k: UserKey, at: nat)
    requires !AnyVisible(a, k, at) && !AnyVisible(b, k, at)
    ensures !AnyVisible(a + b, k, at)
  {
  }

  /** Entries of the levels from `from` on. */
  ghost function EntriesFrom(v: Version, from: nat): set<Entry> {
    set l, f, e | from <= l < |v| && f in v[l] && e in f.entries :: e
  }

  lemma SplitLevel(v: Version, l: nat)
    requires l < |v|
    ensures EntriesFrom(v, l) == LevelEntries(v[l]) + EntriesFrom(v, l + 1)
    ensures EntriesFrom(v, 0) == VersionEntries(v)
  {
    forall e | e in EntriesFrom(v, l) ensures e in LevelEntries(v[l]) + EntriesFrom(v, l + 1) {
      var m: int, f: File :| l <= m < |v| && f in v[m] && e in f.entries;
      if m > l {
        assert l + 1 <= m < |v| && f in v[m] && e in f.entries;
      }
    }
    forall e | e in LevelEntries(v[l]) ensures e in EntriesFrom(v, l) {
      var f: File :| f in v[l] && e in f.entries;
    }
    forall e | e in EntriesFrom(v, l + 1) ensures e in EntriesFrom(v, l) {
      var m: int, f: File :| l + 1 <= m < |v| && f in v[m] && e in f.entries;
    }
  }

  lemma DeeperOlder(v: Version, l: nat, f: File, e: Entry, y: Entry)
    requires Layered(v) && l < NUM_LEVELS && f in v[l] && e in f.entries
    requires y in EntriesFrom(v, l + 1) && y.key.user == e.key.user
    ensures y.key.sequence < e.key.sequence
  {
    hide Layered;
    var m: int, g: File :| l + 1 <= m < |v| && g in v[m] && y in g.entries;
    assert m < NUM_LEVELS by { LayeredSize(v); }
    LayeredPair(v, l, m);
    assert FileNewer(f, g);
  }

  lemma LayeredSize(v: Version)
    requires Layered(v)
    ensures |v| == NUM_LEVELS
  {
  }

  /** What a search needs of a version: the levels are there, and each file by itself is in order. */
  ghost predicate Searchable(v: Version) {
    |v| == NUM_LEVELS && NumberedByAge(v[0]) && forall l :: 0 <= l < NUM_LEVELS ==> AllValid(v[l])
  }

  lemma LayeredSearchable(v: Version)
    requires Layered(v)
    ensures Searchable(v)
  {
  }

  lemma SearchableLevel(v: Version, l: nat)
    requires Searchable(v) && l < NUM_LEVELS
    ensures AllValid(v[l]) && (l == 0 ==> NumberedByAge(v[l]))
    ensures Layered(v) && l > 0 ==> Disjoint(v[l])
  {
  }

  /** The search may come upon the entry on level `l`. */
  ghost predicate FoundAt(v: Version, k: UserKey, at: nat, e: Entry, l: nat) {
    && l < |v| && e.key.user == k
    && if l == 0 then exists f :: f in v[0] && e in f.entries else FoundIn(v[l], SeekKey(k, at), e)
  }

  lemma FoundInFile(v: Version, k: UserKey, at: nat, e: Entry, l: nat) returns (f: File)
    requires FoundAt(v, k, at, e, l)
    ensures f in v[l] && e in f.entries
  {
    if l == 0 {
      f :| f in v[0] && e in f.entries;
    } else {
      var i: nat :| i < |v[l]| && Turns(v[l], SeekKey(k, at), i) && e in v[l][i].entries;
      f := v[l][i];
    }
  }

  /** The first level with a hit decides. */
  lemma FirstLevelHit(v: Version, k: UserKey, at: nat, l: nat, searched: set<Entry>, e: Entry)
    requires Layered(v) && l < NUM_LEVELS && FoundAt(v, k, at, e, l) && IsNewest(LevelEntries(v[l]), k, at, e)
    requires !AnyVisible(searched, k, at) && searched + EntriesFrom(v, l) == VersionEntries(v)
    ensures IsNewest(VersionEntries(v), k, at, e)
  {
    hide Layered, IsNewest, AnyVisible, EntriesFrom, VersionEntries, LevelEntries, FoundAt;
    LayeredSize(v);
    SplitLevel(v, l);
    var f := FoundInFile(v, k, at, e, l);
    NewestIsMember(LevelEntries(v[l]), k, at, e);
    forall y | y in EntriesFrom(v, l + 1) && y.key.user == k ensures y.key.sequence < e.key.sequence {
      DeeperOlder(v, l, f, e, y);
    }
    FirstHit(searched, LevelEntries(v[l]), EntriesFrom(v, l + 1), k, at, e);
    assert searched + LevelEntries(v[l]) + EntriesFrom(v, l + 1) == VersionEntries(v);
  }

  /** Version::Get: level 0 newest first, then one file per level.  On layers that are in order it finds the newest
      visible entry of all. */
  method SearchVersion(v: Version, k: UserKey, at: nat) returns (r: Option<Entry>)
    requires Searchable(v)
    ensures Layered(v) && r.Some? ==> IsNewest(VersionEntries(v), k, at, r.value)
    ensures Layered(v) && r.None? ==> !AnyVisible(VersionEntries(v), k, at)
    ensures r.Some? ==> exists l: nat :: FoundAt(v, k, at, r.value, l)
  {
    hide Layered, Searchable, IsNewest, AnyVisible, EntriesFrom, VersionEntries, LevelEntries, NumberedByAge, AllValid,
         Disjoint, FoundIn;
    assert |v| == NUM_LEVELS by { SearchableSize(v); }
    SplitLevel(v, 0);
    ghost var searched: set<Entry> := {};
    NothingVisible(k, at);
    assert searched + EntriesFrom(v, 0) == VersionEntries(v);
    for l := 0 to NUM_LEVELS
      invariant Layered(v) ==> !AnyVisible(searched, k, at)
      invariant searched + EntriesFrom(v, l) == VersionEntries(v)
    {
      SearchableLevel(v, l);
      SplitLevel(v, l);
      if l == 0 {
        r := SearchLevelZero(v[0], k, at);
        if r.Some? {
          NewestIsMember(LevelEntries(v[0]), k, at, r.value);
        }
      } else {
        r := SearchLevel(v[l], k, at);
      }
      if r.Some? {
        assert FoundAt(v, k, at, r.value, l);
        if Layered(v) {
          FirstLevelHit(v, k, at, l, searched, r.value);
        }
        return;
      }
      if Layered(v) {
        BothEmpty(searched, LevelEntries(v[l]), k, at);
      }
      searched := searched + LevelEntries(v[l]);
    }
    NothingBelow(v);
    assert searched == VersionEntries(v);
    return None;
  }

  lemma SearchableSize(v: Version)
    requires Searchable(v)
    ensures |v| == NUM_LEVELS
  {
  }

  lemma NothingBelow(v: Version)
    ensures EntriesFrom(v, |v|) == {}
  {
  }

  lemma NothingVisible(k: UserKey, at: nat)
    ensures !AnyVisible({}, k, at)
  {
  }

  /** DBImpl::Get: the memtable, the memtable being flushed, then the version.  The answer is that
      of the newest visible entry over all three. */
  method Get(mem: seq<Entry>, imm: seq<Entry>, v: Version, k: UserKey, at: nat) returns (r: Option<Bytes>)
    requires Sorted(mem) && Sorted(imm) && Layered(v)
    requires SetNewer(ToSet(mem), ToSet(imm)) && SetNewer(ToSet(mem), VersionEntries(v))
    requires SetNewer(ToSet(imm), VersionEntries(v))
    requires Unambiguous(ToSet(mem) + ToSet(imm) + VersionEntries(v))
    ensures r == View(ToSet(mem) + ToSet(imm) + VersionEntries(v), k, at)
  {
    hide Layered, IsNewest, AnyVisible, VersionEntries, Sorted, View, Unambiguous;
    ghost var m, i, d := ToSet(mem), ToSet(imm), VersionEntries(v);
    NothingVisible(k, at);
    var e := SearchEntries(mem, k, at);
    if e.Some? {
      NewestIsMember(m, k, at, e.value);
      FirstHit({}, m, i + d, k, at, e.value);
      assert {} + m + (i + d) == m + i + d;
      ViewOf(m + i + d, k, at, e.value);
      return Shown(e.value);
    }
    e := SearchEntries(imm, k, at);
    if e.Some? {
      NewestIsMember(i, k, at, e.value);
      FirstHit(m, i, d, k, at, e.value);
      ViewOf(m + i + d, k, at, e.value);
      return Shown(e.value);
    }
    BothEmpty(m, i, k, at);
    LayeredSearchable(v);
    e := SearchVersion(v, k, at);
    if e.Some? {
      FirstHit(m + i, d, {}, k, at, e.value);
      assert m + i + d + {} == m + i + d;
      ViewOf(m + i + d, k, at, e.value);
      return Shown(e.value);
    }
    BothEmpty(m + i, d, k, at);
    ViewOfNothing(m + i + d, k, at);
    return None;
  }
}
