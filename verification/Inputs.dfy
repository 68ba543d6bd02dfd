/** Choosing the inputs of a compaction (db/version_set.cc). */
module Inputs {
  import opened Keys
  import opened Files

  // ------------------------------------------------------------------ GetOverlappingInputs

  /** Range [lo, hi] reaches at least as far as [lo', hi']. */
  ghost predicate Reaches(lo: Option<UserKey>, hi: Option<UserKey>, lo': Option<UserKey>, hi': Option<UserKey>) {
    && (lo.Some? ==> lo'.Some? && lo.value <= lo'.value)
    && (hi.Some? ==> hi'.Some? && hi'.value <= hi.value)
  }

  /** Every file that meets the range lies inside it. */
  ghost predicate RangeClosed(files: seq<File>, lo: Option<UserKey>, hi: Option<UserKey>) {
    forall f :: f in files && Overlaps(f, lo, hi) ==>
      && (lo.Some? ==> lo.value <= f.smallest.user)
      && (hi.Some? ==> f.largest.user <= hi.value)
  }

  /** The least range that contains [begin, end] and is closed under the files that meet it. */
  ghost predicate LeastClosed(files: seq<File>, begin: Option<UserKey>, end: Option<UserKey>,
                              lo: Option<UserKey>, hi: Option<UserKey>)
  {
    && Reaches(lo, hi, begin, end)
    && RangeClosed(files, lo, hi)
    && InsideAllClosed(files, begin, end, lo, hi)
  }

  ghost predicate InsideAllClosed(files: seq<File>, begin: Option<UserKey>, end: Option<UserKey>,
                                  lo: Option<UserKey>, hi: Option<UserKey>)
  {
    forall lo', hi' :: Reaches(lo', hi', begin, end) && RangeClosed(files, lo', hi') ==> Reaches(lo', hi', lo, hi)
  }

  /** A file that meets the range so far lies in every closed range around it. */
  lemma GrowthForced(files: seq<File>, begin: Option<UserKey>, end: Option<UserKey>,
                     lo: Option<UserKey>, hi: Option<UserKey>, f: File)
    requires InsideAllClosed(files, begin, end, lo, hi)
    requires f in files && Overlaps(f, lo, hi)
    ensures lo.Some? && f.smallest.user < lo.value ==> InsideAllClosed(files, begin, end, Some(f.smallest.user), hi)
    ensures hi.Some? && f.largest.user > hi.value ==> InsideAllClosed(files, begin, end, lo, Some(f.largest.user))
  {
    forall lo', hi' | Reaches(lo', hi', begin, end) && RangeClosed(files, lo', hi')
      ensures lo.Some? && f.smallest.user < lo.value ==> Reaches(lo', hi', Some(f.smallest.user), hi)
      ensures hi.Some? && f.largest.user > hi.value ==> Reaches(lo', hi', lo, Some(f.largest.user))
    {
      assert Reaches(lo', hi', lo, hi);
      assert Overlaps(f, lo', hi');
    }
  }

  /** Indices of files that stick out of the range: what the restarts of the search use up. */
  ghost function Outside(files: seq<File>, lo: Option<UserKey>, hi: Option<UserKey>): (r: nat) {
    |set i | 0 <= i < |files| && lo.Some? && files[i].smallest.user < lo.value|
    + |set i | 0 <= i < |files| && hi.Some? && files[i].largest.user > hi.value|
  }

  lemma OutsideShrinksLow(files: seq<File>, lo: UserKey, hi: Option<UserKey>, n: nat)
    requires n < |files|
    requires files[n].smallest.user < lo
    ensures Outside(files, Some(files[n].smallest.user), hi) < Outside(files, Some(lo), hi)
  {
    var before := set i | 0 <= i < |files| && files[i].smallest.user < lo;
    var after := set i | 0 <= i < |files| && files[i].smallest.user < files[n].smallest.user;
    assert after <= before - {n};
    CardinalityMonotone(after, before - {n});
    assert before == set i | 0 <= i < |files| && Some(lo).Some? && files[i].smallest.user < Some(lo).value;
    assert after == set i | 0 <= i < |files| && Some(files[n].smallest.user).Some?
                                              && files[i].smallest.user < Some(files[n].smallest.user).value;
  }

  lemma OutsideShrinksHigh(files: seq<File>, lo: Option<UserKey>, hi: UserKey, n: nat)
    requires n < |files|
    requires files[n].largest.user > hi
    ensures Outside(files, lo, Some(files[n].largest.user)) < Outside(files, lo, Some(hi))
  {
    var before := set i | 0 <= i < |files| && files[i].largest.user > hi;
    var after := set i | 0 <= i < |files| && files[i].largest.user > files[n].largest.user;
    assert after <= before - {n};
    CardinalityMonotone(after, before - {n});
    assert before == set i | 0 <= i < |files| && Some(hi).Some? && files[i].largest.user > Some(hi).value;
    assert after == set i | 0 <= i < |files| && Some(files[n].largest.user).Some?
                                              && files[i].largest.user > Some(files[n].largest.user).value;
  }

  lemma {:induction false} CardinalityMonotone<T>(a: set<T>, b: set<T>)
    requires a <= b
    ensures |a| <= |b|
  {
    if a != {} {
      var x :| x in a;
      CardinalityMonotone(a - {x}, b - {x});
    }
  }

  /** Some file of the list covers the key. */
  ghost predicate CoversKey(files: seq<File>, u: UserKey) {
    exists f :: f in files && Within(f, u)
  }

  /** The files leave no gap between two user keys. */
  ghost predicate Covers(files: seq<File>, lo: UserKey, hi: UserKey) {
    forall u :: lo <= u <= hi ==> CoversKey(files, u)
  }

  lemma CoversWider(files: seq<File>, lo: UserKey, hi: UserKey, f: File)
    requires Covers(files, lo, hi)
    requires f in files && f.smallest.user <= hi && lo <= f.largest.user
    ensures Covers(files, if f.smallest.user < lo then f.smallest.user else lo,
                          if f.largest.user > hi then f.largest.user else hi)
  {
    var from := if f.smallest.user < lo then f.smallest.user else lo;
    var to := if f.largest.user > hi then f.largest.user else hi;
    forall u | from <= u <= to
      ensures CoversKey(files, u)
    {
      if u < lo || hi < u {
        assert f in files && Within(f, u);
      }
    }
  }

  /** A range without gaps stays without gaps. */
  ghost predicate KeepsCover(files: seq<File>, begin: Option<UserKey>, end: Option<UserKey>, lo: Option<UserKey>,
                             hi: Option<UserKey>) {
    && lo.Some? == begin.Some? && hi.Some? == end.Some?
    && (begin.Some? && end.Some? && Covers(files, begin.value, end.value) ==> Covers(files, lo.value, hi.value))
  }

  lemma CoverGrows(files: seq<File>, begin: Option<UserKey>, end: Option<UserKey>, lo: Option<UserKey>,
                   hi: Option<UserKey>, f: File)
    requires KeepsCover(files, begin, end, lo, hi)
    requires f in files && Overlaps(f, lo, hi)
    ensures lo.Some? && f.smallest.user < lo.value ==> KeepsCover(files, begin, end, Some(f.smallest.user), hi)
    ensures hi.Some? && f.largest.user > hi.value ==> KeepsCover(files, begin, end, lo, Some(f.largest.user))
  {
    if begin.Some? && end.Some? && Covers(files, begin.value, end.value) {
      CoversWider(files, lo.value, hi.value, f);
    }
  }

  lemma SelectedStep(files: seq<File>, i: nat, lo: Option<UserKey>, hi: Option<UserKey>)
    requires i < |files|
    ensures Selected(files[..i + 1], lo, hi) == Selected(files[..i], lo, hi)
            + (if Overlaps(files[i], lo, hi) then [files[i]] else [])
    ensures forall f :: f in files[..i + 1] <==> f in files[..i] || f == files[i]
  {
    assert files[..i + 1][..i] == files[..i] && files[..i + 1][i] == files[i];
    assert files[..i + 1] == files[..i] + [files[i]];
  }

  /** All files of a level that meet [begin, end]; on level 0 the range grows with each file found
      and the search starts over. */
  method GetOverlappingInputs(levelZero: bool, files: seq<File>, begin: Option<UserKey>, end: Option<UserKey>,
                              ghost others: seq<File>)
    returns (inputs: seq<File>, ghost lo: Option<UserKey>, ghost hi: Option<UserKey>)
    requires ProperRanges(files)
    ensures !levelZero ==> inputs == Selected(files, begin, end)
    ensures levelZero ==> exists lo, hi :: LeastClosed(files, begin, end, lo, hi) && inputs == Selected(files, lo, hi)
    ensures inputs == Selected(files, lo, hi)
    ensures !levelZero ==> lo == begin && hi == end
    ensures levelZero ==> LeastClosed(files, begin, end, lo, hi)
    ensures KeepsCover(files + others, begin, end, lo, hi)
  {
    inputs := [];
    var userBegin, userEnd := begin, end;
    var i := 0;
    while i < |files|
      invariant 0 <= i <= |files|
      invariant !levelZero ==> userBegin == begin && userEnd == end
      invariant Reaches(userBegin, userEnd, begin, end)
      invariant levelZero ==> InsideAllClosed(files, begin, end, userBegin, userEnd)
      invariant levelZero ==> RangeClosed(files[..i], userBegin, userEnd)
      invariant inputs == Selected(files[..i], userBegin, userEnd)
      invariant KeepsCover(files + others, begin, end, userBegin, userEnd)
      decreases Outside(files, userBegin, userEnd), |files| - i
    {
      var f := files[i];
      assert f in files;
      SelectedStep(files, i, userBegin, userEnd);
      i := i + 1;
      if userBegin.Some? && f.largest.user < userBegin.value {
      } else if userEnd.Some? && f.smallest.user > userEnd.value {
      } else {
        assert Overlaps(f, userBegin, userEnd);
        inputs := inputs + [f];
        if levelZero {
          CoverGrows(files + others, begin, end, userBegin, userEnd, f);
          GrowthForced(files, begin, end, userBegin, userEnd, f);
          if userBegin.Some? && f.smallest.user < userBegin.value {
            OutsideShrinksLow(files, userBegin.value, userEnd, i - 1);
            userBegin := Some(f.smallest.user);
            inputs := [];
            i := 0;
          } else if userEnd.Some? && f.largest.user > userEnd.value {
            OutsideShrinksHigh(files, userBegin, userEnd.value, i - 1);
            userEnd := Some(f.largest.user);
            inputs := [];
            i := 0;
          }
        }
      }
    }
    assert files[..i] == files;
    lo, hi := userBegin, userEnd;
  }

  // ------------------------------------------------------------------ GetRange

  /** [smallest, largest] is the least internal-key range around the files. */
  ghost predicate Hull(files: seq<File>, smallest: InternalKey, largest: InternalKey) {
    && (exists f :: f in files && f.smallest == smallest)
    && (exists f :: f in files && f.largest == largest)
    && forall f :: f in files ==> AtMost(smallest, f.smallest) && AtMost(f.largest, largest)
  }

  method GetRange(inputs: seq<File>) returns (smallest: InternalKey, largest: InternalKey)
    requires inputs != []
    ensures Hull(inputs, smallest, largest)
  {
    smallest, largest := inputs[0].smallest, inputs[0].largest;
    assert inputs[..1] == [inputs[0]];
    for i := 1 to |inputs|
      invariant Hull(inputs[..i], smallest, largest)
    {
      var f := inputs[i];
      HullMore(inputs[..i], smallest, largest, f);
      assert inputs[..i + 1] == inputs[..i] + [f];
      if Compare(f.smallest, smallest) < 0 {
        smallest := f.smallest;
      }
      if Compare(f.largest, largest) > 0 {
        largest := f.largest;
      }
    }
    assert inputs[..|inputs|] == inputs;
  }

  lemma HullMore(files: seq<File>, smallest: InternalKey, largest: InternalKey, f: File)
    requires Hull(files, smallest, largest)
    ensures Hull(files + [f], if Less(f.smallest, smallest) then f.smallest else smallest,
                 if Less(largest, f.largest) then f.largest else largest)
  {
    var more := files + [f];
    assert f in more;
    var a :| a in files && a.smallest == smallest;
    var b :| b in files && b.largest == largest;
    assert a in more && b in more;
  }

  // ------------------------------------------------------------------ AddBoundaryInputs

  ghost predicate IsLargest(files: seq<File>, key: InternalKey) {
    && (exists f :: f in files && f.largest == key)
    && forall f :: f in files ==> AtMost(f.largest, key)
  }

  method FindLargestKey(files: seq<File>) returns (r: Option<InternalKey>)
    ensures r.None? <==> files == []
    ensures r.Some? ==> IsLargest(files, r.value)
  {
    if files == [] {
      return None;
    }
    var largest := files[0].largest;
    for i := 1 to |files|
      invariant IsLargest(files[..i], largest)
    {
      assert files[..i + 1] == files[..i] + [files[i]];
      assert files[i] in files[..i + 1];
      if Compare(files[i].largest, largest) > 0 {
        largest := files[i].largest;
      }
    }
    assert files[..|files|] == files;
    return Some(largest);
  }

  /** File `g` starts after `key` but with the same user key: it holds older entries of that key. */
  predicate IsBoundary(key: InternalKey, g: File) {
    Less(key, g.smallest) && g.smallest.user == key.user
  }

  ghost predicate IsSmallestBoundary(files: seq<File>, key: InternalKey, g: File) {
    && g in files && IsBoundary(key, g)
    && forall h :: h in files && IsBoundary(key, h) ==> AtMost(g.smallest, h.smallest)
  }

  method FindSmallestBoundaryFile(files: seq<File>, key: InternalKey) returns (r: Option<File>)
    ensures r.None? <==> forall g :: g in files ==> !IsBoundary(key, g)
    ensures r.Some? ==> IsSmallestBoundary(files, key, r.value)
  {
    r := None;
    for i := 0 to |files|
      invariant r.None? <==> forall g :: g in files[..i] ==> !IsBoundary(key, g)
      invariant r.Some? ==> IsSmallestBoundary(files[..i], key, r.value)
    {
      var f := files[i];
      assert files[..i + 1] == files[..i] + [f];
      assert f in files[..i + 1];
      if Compare(f.smallest, key) > 0 && f.smallest.user == key.user {
        if r.None? || Compare(f.smallest, r.value.smallest) < 0 {
          r := Some(f);
        }
      }
    }
    assert files[..|files|] == files;
  }

  function EndKey(key: InternalKey, chain: seq<File>): InternalKey {
    if chain == [] then key else chain[|chain| - 1].largest
  }

  ghost predicate ChainStep(files: seq<File>, key: InternalKey, chain: seq<File>, i: nat)
    requires i < |chain|
  {
    IsSmallestBoundary(files, EndKey(key, chain[..i]), chain[i])
  }

  /** Each file of the chain is the smallest boundary file of what comes before it. */
  ghost predicate BoundaryChain(files: seq<File>, key: InternalKey, chain: seq<File>) {
    forall i :: 0 <= i < |chain| ==> ChainStep(files, key, chain, i)
  }

  ghost function After(files: seq<File>, key: InternalKey): set<int> {
    set i | 0 <= i < |files| && Less(key, files[i].smallest)
  }

  /** Extend the inputs with the files that continue their last user key, until none does. */
  method AddBoundaryInputs(levelFiles: seq<File>, compactionFiles: seq<File>)
    returns (r: seq<File>, ghost key: InternalKey, ghost chain: seq<File>)
    requires ProperRanges(levelFiles)
    ensures compactionFiles <= r
    ensures compactionFiles == [] ==> r == []
    ensures forall key, g :: IsLargest(r, key) && g in levelFiles ==> !IsBoundary(key, g)
    ensures r == compactionFiles + chain
    ensures compactionFiles != [] ==> IsLargest(compactionFiles, key)
    ensures BoundaryChain(levelFiles, key, chain)
    ensures compactionFiles != [] ==> forall g :: g in levelFiles ==> !IsBoundary(EndKey(key, chain), g)
  {
    r, chain, key := compactionFiles, [], SeekKey(0.0, 0);
    var first := FindLargestKey(compactionFiles);
    if first.None? {
      return;
    }
    key := first.value;
    var largestKey := first.value;
    var continueSearching := true;
    while continueSearching
      invariant r == compactionFiles + chain
      invariant largestKey == EndKey(key, chain)
      invariant IsLargest(r, largestKey)
      invariant BoundaryChain(levelFiles, key, chain)
      invariant !continueSearching ==> forall g :: g in levelFiles ==> !IsBoundary(largestKey, g)
      decreases After(levelFiles, largestKey), continueSearching
    {
      var boundary := FindSmallestBoundaryFile(levelFiles, largestKey);
      if boundary.Some? {
        var f := boundary.value;
        var i :| 0 <= i < |levelFiles| && levelFiles[i] == f;
        assert i in After(levelFiles, largestKey) && i !in After(levelFiles, f.largest);
        assert After(levelFiles, f.largest) < After(levelFiles, largestKey);
        LargestGrows(r, largestKey, f);
        r := r + [f];
        ChainGrows(levelFiles, key, chain, f);
        chain := chain + [f];
        largestKey := f.largest;
      } else {
        continueSearching := false;
      }
    }
  }

  lemma LargestGrows(files: seq<File>, key: InternalKey, f: File)
    requires IsLargest(files, key)
    requires IsBoundary(key, f) && AtMost(f.smallest, f.largest)
    ensures IsLargest(files + [f], f.largest)
  {
    assert f in files + [f];
  }

  lemma ChainGrows(files: seq<File>, key: InternalKey, chain: seq<File>, f: File)
    requires BoundaryChain(files, key, chain)
    requires IsSmallestBoundary(files, EndKey(key, chain), f)
    ensures BoundaryChain(files, key, chain + [f])
  {
    forall i | 0 <= i < |chain + [f]|
      ensures ChainStep(files, key, chain + [f], i)
    {
      if i < |chain| {
        assert ChainStep(files, key, chain, i);
        assert (chain + [f])[..i] == chain[..i];
      } else {
        assert (chain + [f])[..i] == chain;
      }
    }
  }
}
