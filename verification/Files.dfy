/** Table files, the lists of them that make up a level, and the searches over those lists
    (db/version_set.cc). */
module Files {
  import opened Keys
  import opened Slices

  /** FileMetaData.  A table is immutable, so the entries it was written with are part of the value. */
  datatype File = File(number: nat, size: nat, smallest: InternalKey, largest: InternalKey, entries: seq<Entry>)

  ghost predicate ValidFile(f: File) {
    && |f.entries| > 0
    && Sorted(f.entries)
    && f.smallest == f.entries[0].key
    && f.largest == f.entries[|f.entries| - 1].key
  }

  lemma EntriesInRange(f: File)
    requires ValidFile(f)
    ensures AtMost(f.smallest, f.largest)
    ensures forall e :: e in f.entries ==> AtMost(f.smallest, e.key) && AtMost(e.key, f.largest)
  {
  }

  /** Bounds in order, and a sequence number that fits in a tag. */
  ghost predicate ProperRanges(files: seq<File>) {
    forall f :: f in files ==> AtMost(f.smallest, f.largest) && f.largest.sequence <= MAX_SEQUENCE
  }

  /** A level above 0: files sorted and disjoint in internal-key order. */
  ghost predicate Disjoint(files: seq<File>) {
    && ProperRanges(files)
    && forall i, j :: 0 <= i < j < |files| ==> Less(files[i].largest, files[j].smallest)
  }

  predicate Within(f: File, u: UserKey) {
    f.smallest.user <= u <= f.largest.user
  }

  // ------------------------------------------------------------------ FindFile

  /** The files before `index` end before the key next to it, and the file at `index` does not. */
  predicate Turns(files: seq<File>, key: InternalKey, index: nat) {
    && index <= |files| && (index > 0 ==> Less(files[index - 1].largest, key))
    && (index < |files| ==> !Less(files[index].largest, key))
  }

  /** A file whose largest key is at least `key` next to one whose is not, by binary search; in a level that is sorted
      and disjoint, the first such file. */
  method FindFile(files: seq<File>, key: InternalKey) returns (index: nat)
    ensures Turns(files, key, index)
    ensures Disjoint(files) ==> forall i :: 0 <= i < index ==> Less(files[i].largest, key)
    ensures Disjoint(files) ==> forall i :: index <= i < |files| ==> !Less(files[i].largest, key)
  {
    var left, right := 0, |files|;
    while left < right
      invariant 0 <= left <= right <= |files|
      invariant left > 0 ==> Less(files[left - 1].largest, key)
      invariant right < |files| ==> !Less(files[right].largest, key)
      invariant Disjoint(files) ==> forall i :: 0 <= i < left ==> Less(files[i].largest, key)
      invariant Disjoint(files) ==> forall i :: right <= i < |files| ==> !Less(files[i].largest, key)
    {
      var mid := (left + right) / 2;
      if Disjoint(files) {
        LargestIncreases(files);
      }
      if Compare(files[mid].largest, key) < 0 {
        left := mid + 1;
      } else {
        right := mid;
      }
    }
    index := right;
  }

  lemma LargestIncreases(files: seq<File>)
    requires Disjoint(files)
    ensures forall i, j :: 0 <= i < j < |files| ==> Less(files[i].largest, files[j].largest)
  {
    forall i, j | 0 <= i < j < |files|
      ensures Less(files[i].largest, files[j].largest)
    {
      assert files[j] in files;
    }
  }

  // ------------------------------------------------------------------ overlap with a user-key range

  /** AfterFile: the bound is past the file; a missing bound is before all keys. */
  predicate AfterFile(bound: Option<UserKey>, f: File) {
    bound.Some? && bound.value > f.largest.user
  }

  /** BeforeFile: the bound is before the file; a missing bound is after all keys. */
  predicate BeforeFile(bound: Option<UserKey>, f: File) {
    bound.Some? && bound.value < f.smallest.user
  }

  predicate Overlaps(f: File, lo: Option<UserKey>, hi: Option<UserKey>) {
    !AfterFile(lo, f) && !BeforeFile(hi, f)
  }

  /** Whether some file meets the user-key range: a scan, or one binary search on a sorted level. */
  method SomeFileOverlapsRange(disjointSorted: bool, files: seq<File>, lo: Option<UserKey>, hi: Option<UserKey>)
    returns (r: bool)
    requires disjointSorted ==> Disjoint(files)
    ensures r <==> exists f :: f in files && Overlaps(f, lo, hi)
  {
    if !disjointSorted {
      for i := 0 to |files|
        invariant forall j :: 0 <= j < i ==> !Overlaps(files[j], lo, hi)
      {
        if AfterFile(lo, files[i]) || BeforeFile(hi, files[i]) {
        } else {
          assert files[i] in files && Overlaps(files[i], lo, hi);
          return true;
        }
      }
      return false;
    }
    var index := 0;
    if lo.Some? {
      index := FindFile(files, SeekKey(lo.value, MAX_SEQUENCE));
      assert forall i :: 0 <= i < index ==> AfterFile(lo, files[i]) by {
        forall i | 0 <= i < index ensures AfterFile(lo, files[i]) {
          assert files[i] in files;
        }
      }
    }
    if index >= |files| {
      return false;
    }
    assert files[index] in files;
    assert !AfterFile(lo, files[index]);
    if BeforeFile(hi, files[index]) {
      forall f | f in files ensures !Overlaps(f, lo, hi) {
        var i :| 0 <= i < |files| && files[i] == f;
        if i > index {
          assert Less(files[index].largest, f.smallest);
          assert BeforeFile(hi, f);
        }
      }
      return false;
    }
    return true;
  }

  /** The files of a list that meet a range, in list order. */
  function Selected(files: seq<File>, lo: Option<UserKey>, hi: Option<UserKey>): seq<File> {
    if files == [] then []
    else
      var last := files[|files| - 1];
      Selected(files[..|files| - 1], lo, hi) + (if Overlaps(last, lo, hi) then [last] else [])
  }

  lemma {:induction false} SelectedMembers(files: seq<File>, lo: Option<UserKey>, hi: Option<UserKey>)
    ensures forall f :: f in Selected(files, lo, hi) <==> f in files && Overlaps(f, lo, hi)
    ensures |Selected(files, lo, hi)| <= |files|
  {
    if files != [] {
      var n := |files| - 1;
      SelectedMembers(files[..n], lo, hi);
      assert files == files[..n] + [files[n]];
    }
  }

  lemma {:induction false} SelectedSlice(files: seq<File>, lo: Option<UserKey>, hi: Option<UserKey>, a: nat, b: nat)
    requires a <= b <= |files|
    requires forall i :: 0 <= i < |files| ==> (Overlaps(files[i], lo, hi) <==> a <= i < b)
    ensures Selected(files, lo, hi) == files[a..b]
  {
    hide Overlaps;
    if files != [] {
      var n := |files| - 1;
      if b == |files| && a < b {
        SelectedSlice(files[..n], lo, hi, a, n);
        SliceOfPrefix(files, n, a, n);
        SliceSnoc(files, a, n);
      } else if b <= n {
        SelectedSlice(files[..n], lo, hi, a, b);
        SliceOfPrefix(files, n, a, b);
      } else {
        SelectedSlice(files[..n], lo, hi, n, n);
      }
    }
  }

  lemma UserOrder(files: seq<File>, i: nat, j: nat)
    requires Disjoint(files)
    requires i < j < |files|
    ensures files[i].smallest.user <= files[i].largest.user <= files[j].smallest.user <= files[j].largest.user
  {
    assert files[i] in files && files[j] in files;
  }

  /** On a sorted level the files that meet a range are consecutive. */
  lemma SelectedRun(files: seq<File>, lo: Option<UserKey>, hi: Option<UserKey>) returns (a: nat, b: nat)
    requires Disjoint(files)
    ensures a <= b <= |files|
    ensures Selected(files, lo, hi) == files[a..b]
    ensures forall i :: 0 <= i < |files| ==> (Overlaps(files[i], lo, hi) <==> a <= i < b)
  {
    a := 0;
    while a < |files| && AfterFile(lo, files[a])
      invariant a <= |files|
      invariant forall i :: 0 <= i < a ==> AfterFile(lo, files[i])
    {
      a := a + 1;
    }
    b := a;
    while b < |files| && !BeforeFile(hi, files[b])
      invariant a <= b <= |files|
      invariant forall i :: a <= i < b ==> !BeforeFile(hi, files[i])
    {
      b := b + 1;
    }
    forall i | 0 <= i < |files|
      ensures Overlaps(files[i], lo, hi) <==> a <= i < b
    {
      if a < i {
        UserOrder(files, a, i);
      }
      if b < i {
        UserOrder(files, b, i);
      }
    }
    SelectedSlice(files, lo, hi, a, b);
  }
}
