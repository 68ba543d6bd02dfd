/** The Compaction object and the choice of its inputs (db/version_set.cc, SetupOtherInputs to IsTrivialMove). */
module Compactions {
  import opened Keys
  import opened Files
  import opened Inputs
  import opened Plans

  function TotalFileSize(files: seq<File>): nat {
    if files == [] then 0 else TotalFileSize(files[..|files| - 1]) + files[|files| - 1].size
  }

  /** How the inputs of a level may start out: all files of a closed range on level 0, a run elsewhere. */
  ghost predicate Seed(level: nat, files: seq<File>, inputs: seq<File>) {
    && inputs != []
    && if level == 0 then exists lo, hi :: ClosedSelection(files, lo, hi, inputs)
       else exists a, b :: IsRun(files, a, b, inputs)
  }

  ghost predicate ClosedSelection(files: seq<File>, lo: Option<UserKey>, hi: Option<UserKey>, inputs: seq<File>) {
    inputs == Selected(files, lo, hi) && RangeClosed(files, lo, hi)
  }

  ghost predicate IsRun(files: seq<File>, a: nat, b: nat, inputs: seq<File>) {
    a <= b <= |files| && inputs == files[a..b]
  }

  ghost predicate IsSlice(files: seq<File>, inputs: seq<File>) {
    exists a, b :: IsRun(files, a, b, inputs)
  }

  ghost predicate ProperLevel(level: nat, files: seq<File>) {
    ProperRanges(files) && (level > 0 ==> Disjoint(files))
  }

  // ------------------------------------------------------------------ level 0

  lemma ClosedSelectionApart(files: seq<File>, lo: Option<UserKey>, hi: Option<UserKey>, inputs: seq<File>)
    requires ProperRanges(files)
    requires ClosedSelection(files, lo, hi, inputs)
    ensures LevelClosed(0, files, inputs)
  {
    SelectedMembers(files, lo, hi);
    forall f, g | f in inputs && g in files && g !in inputs
      ensures UserApart(f, g)
    {
      assert !Overlaps(g, lo, hi);
      assert Overlaps(f, lo, hi);
    }
  }

  lemma ClosedHasNoBoundary(files: seq<File>, inputs: seq<File>, key: InternalKey)
    requires ProperRanges(files)
    requires LevelClosed(0, files, inputs)
    requires IsLargest(inputs, key)
    ensures forall g :: g in files ==> !IsBoundary(key, g)
  {
    var f :| f in inputs && f.largest == key;
    forall g | g in files
      ensures !IsBoundary(key, g)
    {
      if g in inputs {
        assert AtMost(g.largest, key);
      } else {
        assert UserApart(f, g);
      }
    }
  }

  /** On level 0 there is no boundary file to add. */
  lemma BoundaryClosesZero(files: seq<File>, seed: seq<File>, key: InternalKey, chain: seq<File>)
    requires ProperRanges(files)
    requires Seed(0, files, seed)
    requires IsLargest(seed, key) && BoundaryChain(files, key, chain)
    ensures LevelClosed(0, files, seed)
    ensures chain == []
  {
    assert |chain| > 0 ==> ChainStep(files, key, chain, 0);
    var lo, hi :| ClosedSelection(files, lo, hi, seed);
    ClosedSelectionApart(files, lo, hi, seed);
    ClosedHasNoBoundary(files, seed, key);
  }

  /** On a sorted level the boundary files prolong the run and close it. */
  lemma BoundaryClosesRun(level: nat, files: seq<File>, a: nat, b: nat, key: InternalKey, chain: seq<File>)
    requires level > 0 && Disjoint(files)
    requires a < b <= |files|
    requires IsLargest(files[a..b], key) && BoundaryChain(files, key, chain)
    requires forall g :: g in files ==> !IsBoundary(EndKey(key, chain), g)
    ensures b + |chain| <= |files|
    ensures files[a..b] + chain == files[a..b + |chain|]
    ensures ContinuedRun(files, b, b + |chain|)
    ensures LevelClosed(level, files, files[a..b + |chain|])
  {
    RunLargest(files, a, b, key);
    ChainRun(files, b, key, chain);
    RunClosed(level, files, a, b + |chain|);
  }

  /** The files of a sorted level that meet [smallest, largest], prolonged over their last user key. */
  ghost predicate Prolonged(files: seq<File>, smallest: InternalKey, largest: InternalKey, r: seq<File>, a: nat, b: nat,
                            c: nat) {
    && a <= b <= c <= |files|
    && (forall i :: 0 <= i < |files| ==> (Overlaps(files[i], Some(smallest.user), Some(largest.user)) <==> a <= i < b))
    && r == files[a..c]
    && (a == b ==> b == c)
    && (a < b ==> ContinuedRun(files, b, c))
    && (a < b ==> forall g :: g in files ==> !IsBoundary(files[c - 1].largest, g))
  }

  lemma ProlongedStops(files: seq<File>, s: InternalKey, l: InternalKey, r: seq<File>, a: nat, b: nat, c: nat)
    requires Prolonged(files, s, l, r, a, b, c)
    requires a < b
    ensures c < |files| ==> !Linked(files, c)
  {
    if c < |files| {
      assert files[c] in files;
    }
  }

  /** A wider range with no more files found them all already: comparing the sizes is enough. */
  lemma SameSizeSameFiles(files: seq<File>, s: InternalKey, l: InternalKey, r: seq<File>, a: nat, b: nat, c: nat,
                          s': InternalKey, l': InternalKey, r': seq<File>, a': nat, b': nat, c': nat)
    requires Disjoint(files)
    requires Prolonged(files, s, l, r, a, b, c) && Prolonged(files, s', l', r', a', b', c')
    requires AtMost(s', s) && AtMost(l, l')
    requires r != [] && |r'| == |r|
    ensures r' == r
  {
    assert Overlaps(files[a], Some(s.user), Some(l.user));
    assert Overlaps(files[a], Some(s'.user), Some(l'.user));
    assert Overlaps(files[b - 1], Some(s.user), Some(l.user));
    assert Overlaps(files[b - 1], Some(s'.user), Some(l'.user));
    ProlongedStops(files, s', l', r', a', b', c');
  }

  lemma ProlongedFacts(level: nat, files: seq<File>, s: InternalKey, l: InternalKey, r: seq<File>, a: nat, b: nat,
                       c: nat)
    requires level > 0 && Disjoint(files)
    requires Prolonged(files, s, l, r, a, b, c)
    ensures LevelClosed(level, files, r)
    ensures RangeTaken(files, r, s, l)
    ensures forall f :: f in r ==> AtMost(f.smallest, f.largest)
  {
    RunClosed(level, files, a, c);
    forall g | g in files && g !in r
      ensures g.largest.user < s.user || l.user < g.smallest.user
    {
      var j :| 0 <= j < |files| && files[j] == g;
      OutsideRun(files, a, c, j);
      assert !Overlaps(files[j], Some(s.user), Some(l.user));
    }
  }

  /** A file of the next level that was not taken is aside of all inputs. */
  lemma ProlongedAside(files: seq<File>, s: InternalKey, l: InternalKey, r: seq<File>, a: nat, b: nat, c: nat,
                       in0: seq<File>)
    requires Disjoint(files)
    requires Prolonged(files, s, l, r, a, b, c)
    requires Hull(in0, s, l)
    ensures OthersAside(files, r, in0 + r)
  {
    forall g | g in files && g !in r
      ensures Aside(g, in0 + r)
    {
      var j :| 0 <= j < |files| && files[j] == g;
      OutsideRun(files, a, c, j);
      ProlongedSide(files, s, l, r, a, b, c, j);
      assert forall f :: f in in0 ==> AtMost(s, f.smallest) && AtMost(f.largest, l);
    }
  }

  lemma ProlongedSide(files: seq<File>, s: InternalKey, l: InternalKey, r: seq<File>, a: nat, b: nat, c: nat, j: nat)
    requires Disjoint(files)
    requires Prolonged(files, s, l, r, a, b, c)
    requires j < |files| && !(a <= j < c)
    ensures || (files[j].largest.user < s.user && forall f :: f in r ==> Less(files[j].largest, f.smallest))
            || (l.user < files[j].smallest.user && forall f :: f in r ==> f.largest.user < files[j].smallest.user)
  {
    var g := files[j];
    assert g in files;
    assert !Overlaps(files[j], Some(s.user), Some(l.user));
    if a < b {
      assert Overlaps(files[a], Some(s.user), Some(l.user));
      if j < a {
        UserOrder(files, j, a);
        forall f | f in r
          ensures Less(g.largest, f.smallest)
        {
          var i :| 0 <= i < c - a && files[a..c][i] == f;
          StartsByIndex(files, j, a + i);
        }
      } else {
        UserOrder(files, a, j);
        ProlongedStops(files, s, l, r, a, b, c);
        forall f | f in r
          ensures f.largest.user < g.smallest.user
        {
          var i :| 0 <= i < c - a && files[a..c][i] == f;
          RunThenGap(files, a + i, c, j);
        }
      }
    }
  }

  lemma RunThenGap(files: seq<File>, i: nat, c: nat, j: nat)
    requires Disjoint(files)
    requires i < c <= j < |files|
    requires !Linked(files, c)
    ensures files[i].largest.user < files[j].smallest.user
  {
    StartsByIndex(files, c - 1, c);
    UserOrder(files, c - 1, c);
    assert files[c - 1].largest.user < files[c].smallest.user;
    if i < c - 1 {
      UserOrder(files, i, c - 1);
    }
    if c < j {
      UserOrder(files, c, j);
    }
  }

  lemma ProlongedConnected(files: seq<File>, base: seq<File>, s: InternalKey, l: InternalKey, r: seq<File>, a: nat,
                           b: nat, c: nat)
    requires Disjoint(files) && ProperRanges(base)
    requires Prolonged(files, s, l, r, a, b, c)
    requires Connected(base)
    requires exists f :: f in base && f.smallest.user == s.user
    requires exists f :: f in base && f.largest.user == l.user
    ensures Connected(r + base)
  {
    if a < b {
      var first := files[a..b] + base;
      assert forall f :: f in files[a..b] ==> f in files;
      forall g | g in first && g !in base
        ensures Meets(base, g)
      {
        var i :| 0 <= i < b - a && files[a..b][i] == g;
        assert Overlaps(files[a + i], Some(s.user), Some(l.user));
      }
      ConnectedMore(base, first);
      RunConnected(files, base, a, b, c);
    } else {
      assert r + base == base;
    }
  }

  // ------------------------------------------------------------------ which files are chosen

  /** The run `seed` of a sorted level, prolonged as long as the next file continues it. */
  ghost predicate BoundaryRun(files: seq<File>, seed: seq<File>, r: seq<File>, a: nat, b: nat, c: nat) {
    && a < b <= c <= |files| && seed == files[a..b] && r == files[a..c] && ContinuedRun(files, b, c)
    && forall g :: g in files ==> !IsBoundary(files[c - 1].largest, g)
  }

  /** `r` is the seed with its boundary files.  A closed selection of level 0 has none. */
  ghost predicate WithBoundary(level: nat, files: seq<File>, seed: seq<File>, r: seq<File>) {
    if level == 0 then r == seed else exists a, b, c :: BoundaryRun(files, seed, r, a, b, c)
  }

  /** `r` are the files that the level contributes to the user-key range of [smallest, largest]. */
  ghost predicate Taken(level: nat, files: seq<File>, smallest: InternalKey, largest: InternalKey, r: seq<File>) {
    if level == 0 then
      exists lo, hi ::
        LeastClosed(files, Some(smallest.user), Some(largest.user), lo, hi) && r == Selected(files, lo, hi)
    else exists a, b, c :: Prolonged(files, smallest, largest, r, a, b, c)
  }

  /** `r` are the files that the level contributes to the hull of the inputs. */
  ghost predicate TakenOver(level: nat, files: seq<File>, inputs: seq<File>, r: seq<File>) {
    exists s, l :: Hull(inputs, s, l) && Taken(level, files, s, l, r)
  }

  /** The level's inputs may grow to `wider`: these are all its files that meet the inputs so far, more than before,
      within the size limit, and the next level contributes to them just the files it contributed already. */
  ghost predicate MayGrow(level: nat, files0: seq<File>, files1: seq<File>, in0: seq<File>, in1: seq<File>, limit: nat,
                          wider: seq<File>) {
    && in1 != []
    && TakenOver(level, files0, in0 + in1, wider) && |wider| > |in0|
    && TotalFileSize(in1) + TotalFileSize(wider) < limit
    && TakenOver(level + 1, files1, wider, in1)
  }

  /** The level's inputs grow if they may. */
  ghost predicate GrownTo(level: nat, files0: seq<File>, files1: seq<File>, in0: seq<File>, in1: seq<File>, limit: nat,
                          out0: seq<File>) {
    if exists wider :: MayGrow(level, files0, files1, in0, in1, limit, wider)
    then MayGrow(level, files0, files1, in0, in1, limit, out0)
    else out0 == in0
  }

  /** The inputs that follow from the seed. */
  ghost predicate ChosenInputs(level: nat, files0: seq<File>, files1: seq<File>, seed: seq<File>, limit: nat,
                               out0: seq<File>, out1: seq<File>) {
    exists in0 ::
      && WithBoundary(level, files0, seed, in0)
      && TakenOver(level + 1, files1, in0, out1)
      && GrownTo(level, files0, files1, in0, out1, limit, out0)
  }

  lemma HullUnique(files: seq<File>, s: InternalKey, l: InternalKey, s': InternalKey, l': InternalKey)
    requires Hull(files, s, l) && Hull(files, s', l')
    ensures s == s' && l == l'
  {
    assert Compare(s, s') == 0 && Compare(l, l') == 0;
  }

  lemma ProlongedFinds(files: seq<File>, s: InternalKey, l: InternalKey, r: seq<File>, a: nat, b: nat, c: nat)
    requires Prolonged(files, s, l, r, a, b, c)
    ensures a < b <==> exists i :: 0 <= i < |files| && Overlaps(files[i], Some(s.user), Some(l.user))
  {
    if a < b {
      assert Overlaps(files[a], Some(s.user), Some(l.user));
    }
  }

  lemma ProlongedUnique(files: seq<File>, s: InternalKey, l: InternalKey, r: seq<File>, a: nat, b: nat, c: nat,
                        r': seq<File>, a': nat, b': nat, c': nat)
    requires Prolonged(files, s, l, r, a, b, c) && Prolonged(files, s, l, r', a', b', c')
    ensures r == r'
  {
    ProlongedFinds(files, s, l, r, a, b, c);
    ProlongedFinds(files, s, l, r', a', b', c');
    if a < b {
      assert Overlaps(files[a], Some(s.user), Some(l.user)) && Overlaps(files[b - 1], Some(s.user), Some(l.user));
      assert Overlaps(files[a'], Some(s.user), Some(l.user)) && Overlaps(files[b' - 1], Some(s.user), Some(l.user));
      ProlongedStops(files, s, l, r, a, b, c);
      ProlongedStops(files, s, l, r', a', b', c');
    }
  }

  /** What a level contributes is determined. */
  lemma TakenOverUnique(level: nat, files: seq<File>, inputs: seq<File>, r: seq<File>, r': seq<File>)
    requires TakenOver(level, files, inputs, r) && TakenOver(level, files, inputs, r')
    ensures r == r'
  {
    hide Hull, LeastClosed, Prolonged, Selected;
    var s, l :| Hull(inputs, s, l) && Taken(level, files, s, l, r);
    var s', l' :| Hull(inputs, s', l') && Taken(level, files, s', l', r');
    HullUnique(inputs, s, l, s', l');
    if level == 0 {
      var lo, hi :| LeastClosed(files, Some(s.user), Some(l.user), lo, hi) && r == Selected(files, lo, hi);
      var lo', hi' :| LeastClosed(files, Some(s.user), Some(l.user), lo', hi') && r' == Selected(files, lo', hi');
      LeastClosedUnique(files, Some(s.user), Some(l.user), lo, hi, lo', hi');
    } else {
      var a, b, c :| Prolonged(files, s, l, r, a, b, c);
      var a', b', c' :| Prolonged(files, s, l, r', a', b', c');
      ProlongedUnique(files, s, l, r, a, b, c, r', a', b', c');
    }
  }

  lemma LeastClosedUnique(files: seq<File>, begin: Option<UserKey>, end: Option<UserKey>, lo: Option<UserKey>,
                          hi: Option<UserKey>, lo': Option<UserKey>, hi': Option<UserKey>)
    requires LeastClosed(files, begin, end, lo, hi) && LeastClosed(files, begin, end, lo', hi')
    ensures lo == lo' && hi == hi'
  {
    assert Reaches(lo', hi', lo, hi) && Reaches(lo, hi, lo', hi');
  }

  lemma RunPlace(files: seq<File>, a: nat, b: nat, a': nat, b': nat)
    requires Disjoint(files) && a < b <= |files| && a' < b' <= |files| && files[a..b] == files[a'..b']
    ensures a == a' && b == b'
  {
    assert files[a..b][0] == files[a] && files[a'..b'][0] == files[a'];
    StartsByIndex(files, a, a');
    StartsByIndex(files, a', a);
    assert |files[a..b]| == |files[a'..b']|;
  }

  /** Overlapping files, then boundary files: that is what the level contributes to the range. */
  lemma BoundaryTaken(level: nat, files: seq<File>, s: InternalKey, l: InternalKey, found: seq<File>, r: seq<File>)
    requires level > 0 && Disjoint(files) && found != [] && found == Selected(files, Some(s.user), Some(l.user))
    requires WithBoundary(level, files, found, r)
    ensures Taken(level, files, s, l, r)
  {
    hide Selected, Overlaps, ContinuedRun, IsBoundary;
    var a: nat, b: nat, c: nat :| BoundaryRun(files, found, r, a, b, c);
    var a', b' := SelectedRun(files, Some(s.user), Some(l.user));
    RunPlace(files, a, b, a', b');
    assert Prolonged(files, s, l, r, a, b, c);
  }

  /** GetOverlappingInputs on a sorted level, then AddBoundaryInputs. */
  method TakeNext(files: seq<File>, smallest: InternalKey, largest: InternalKey)
    returns (r: seq<File>, ghost a: nat, ghost b: nat, ghost c: nat)
    requires Disjoint(files)
    ensures Prolonged(files, smallest, largest, r, a, b, c)
  {
    hide IsLargest, BoundaryChain, IsBoundary, ContinuedRun, Overlaps, KeepsCover, Less;
    var found, _, _ := GetOverlappingInputs(false, files, Some(smallest.user), Some(largest.user), []);
    a, b := SelectedRun(files, Some(smallest.user), Some(largest.user));
    ghost var key, chain;
    r, key, chain := AddBoundaryInputs(files, found);
    if a < b {
      RunLargest(files, a, b, key);
      ChainRun(files, b, key, chain);
      assert r == files[a..b + |chain|];
    }
    c := b + |chain|;
  }

  lemma RunProlonged(level: nat, files: seq<File>, a: nat, b: nat, key: InternalKey, chain: seq<File>,
                     others: seq<File>)
    requires level > 0 && Disjoint(files) && ProperRanges(others)
    requires a < b <= |files|
    requires IsLargest(files[a..b], key) && BoundaryChain(files, key, chain)
    requires forall g :: g in files ==> !IsBoundary(EndKey(key, chain), g)
    ensures LevelClosed(level, files, files[a..b] + chain)
    ensures Connected(files[a..b] + others) ==> Connected(files[a..b] + chain + others)
  {
    BoundaryClosesRun(level, files, a, b, key, chain);
    if Connected(files[a..b] + others) {
      RunConnected(files, others, a, b, b + |chain|);
    }
  }

  lemma RunEnds(level: nat, files: seq<File>, a: nat, b: nat, key: InternalKey, chain: seq<File>)
    requires level > 0 && Disjoint(files)
    requires a < b <= |files|
    requires IsLargest(files[a..b], key) && BoundaryChain(files, key, chain)
    requires forall g :: g in files ==> !IsBoundary(EndKey(key, chain), g)
    ensures b + |chain| <= |files|
    ensures BoundaryRun(files, files[a..b], files[a..b] + chain, a, b, b + |chain|)
  {
    hide IsLargest, BoundaryChain, IsBoundary, ContinuedRun, Disjoint;
    BoundaryClosesRun(level, files, a, b, key, chain);
    RunLargest(files, a, b, key);
    assert chain != [] ==> files[a..b + |chain|][b + |chain| - 1 - a] == chain[|chain| - 1];
  }

  /** AddBoundaryInputs on the level itself, then GetRange. */
  method TakeLevel(level: nat, files: seq<File>, seed: seq<File>, ghost others: seq<File>)
    returns (r: seq<File>, smallest: InternalKey, largest: InternalKey)
    requires ProperLevel(level, files) && ProperRanges(others)
    requires Seed(level, files, seed)
    ensures Hull(r, smallest, largest)
    ensures WithBoundary(level, files, seed, r)
    ensures LevelClosed(level, files, r) && Seed(level, files, r)
    ensures Subset(seed, r)
    ensures Connected(seed + others) ==> Connected(r + others)
  {
    ghost var key, chain;
    r, key, chain := AddBoundaryInputs(files, seed);
    if level == 0 {
      BoundaryClosesZero(files, seed, key, chain);
      assert r == seed;
    } else {
      ghost var a: nat, b: nat :| IsRun(files, a, b, seed);
      RunProlonged(level, files, a, b, key, chain, others);
      assert IsRun(files, a, b + |chain|, r) by { BoundaryClosesRun(level, files, a, b, key, chain); }
      assert BoundaryRun(files, seed, r, a, b, b + |chain|) by { RunEnds(level, files, a, b, key, chain); }
    }
    smallest, largest := GetRange(r);
  }

  lemma SelectedAgain(files: seq<File>, inputs: seq<File>, all: seq<File>, smallest: InternalKey, largest: InternalKey,
                      lo: Option<UserKey>, hi: Option<UserKey>)
    requires ProperRanges(files)
    requires Subset(inputs, files) && Subset(inputs, all) && Hull(all, smallest, largest)
    requires Reaches(lo, hi, Some(smallest.user), Some(largest.user))
    ensures Subset(inputs, Selected(files, lo, hi))
  {
    SelectedMembers(files, lo, hi);
    forall f | f in inputs
      ensures f in Selected(files, lo, hi)
    {
      assert f in files && f in all;
      assert Overlaps(f, lo, hi);
    }
  }

  lemma SelectedIsSeed(level: nat, files: seq<File>, lo: Option<UserKey>, hi: Option<UserKey>)
    requires ProperLevel(level, files)
    requires level == 0 ==> RangeClosed(files, lo, hi)
    requires Selected(files, lo, hi) != []
    ensures Seed(level, files, Selected(files, lo, hi))
  {
    var r := Selected(files, lo, hi);
    if level == 0 {
      assert ClosedSelection(files, lo, hi, r);
    } else {
      var a, b := SelectedRun(files, lo, hi);
      assert IsRun(files, a, b, r);
    }
  }

  lemma ExpandedConnectedRun(files: seq<File>, in0: seq<File>, in1: seq<File>, smallest: InternalKey,
                             largest: InternalKey)
    requires ProperRanges(files) && ProperRanges(in1)
    requires Connected(in0 + in1)
    requires Hull(in0 + in1, smallest, largest)
    requires Subset(in0, Selected(files, Some(smallest.user), Some(largest.user)))
    ensures Connected(Selected(files, Some(smallest.user), Some(largest.user)) + in1)
  {
    var found := Selected(files, Some(smallest.user), Some(largest.user));
    SelectedMembers(files, Some(smallest.user), Some(largest.user));
    forall g | g in found + in1 && g !in in0 + in1
      ensures Meets(in0 + in1, g)
    {
      assert Overlaps(g, Some(smallest.user), Some(largest.user));
    }
    ConnectedMore(in0 + in1, found + in1);
  }

  lemma HullCovered(files: seq<File>, in0: seq<File>, in1: seq<File>, smallest: InternalKey, largest: InternalKey)
    requires Connected(in0 + in1)
    requires Hull(in0 + in1, smallest, largest)
    requires Subset(in0, files)
    ensures Covers(files + in1, smallest.user, largest.user)
  {
    var a :| a in in0 + in1 && a.smallest == smallest;
    var b :| b in in0 + in1 && b.largest == largest;
    forall u | smallest.user <= u <= largest.user
      ensures CoversKey(files + in1, u)
    {
      assert CoversKey(in0 + in1, u);
      var f :| f in in0 + in1 && Within(f, u);
      assert f in files + in1;
    }
  }

  lemma ExpandedConnectedZero(files: seq<File>, in1: seq<File>, lo: UserKey, hi: UserKey)
    requires ProperRanges(files)
    requires RangeClosed(files, Some(lo), Some(hi))
    requires Covers(files + in1, lo, hi)
    requires forall f :: f in in1 ==> lo <= f.smallest.user && f.largest.user <= hi
    ensures Connected(Selected(files, Some(lo), Some(hi)) + in1)
  {
    var found := Selected(files, Some(lo), Some(hi));
    SelectedMembers(files, Some(lo), Some(hi));
    forall a, b, u | a in found + in1 && b in found + in1 && a.smallest.user <= u <= b.largest.user
      ensures CoversKey(found + in1, u)
    {
      assert lo <= a.smallest.user && b.largest.user <= hi;
      assert CoversKey(files + in1, u);
      var f :| f in files + in1 && Within(f, u);
      assert f in files ==> Overlaps(f, Some(lo), Some(hi));
      assert f in found + in1;
    }
  }

  /** Files of the level that meet the whole range of the inputs so far: the expansion to try. */
  method Expand(level: nat, files: seq<File>, in0: seq<File>, in1: seq<File>, smallest: InternalKey,
                largest: InternalKey)
    returns (r: seq<File>)
    requires ProperLevel(level, files) && ProperRanges(in1)
    requires in0 != [] && Subset(in0, files)
    requires Hull(in0 + in1, smallest, largest)
    ensures Subset(in0, r)
    ensures Seed(level, files, r)
    ensures if level == 0 then Taken(0, files, smallest, largest, r)
            else r == Selected(files, Some(smallest.user), Some(largest.user))
    ensures Connected(in0 + in1) ==> Connected(r + in1)
  {
    ghost var lo, hi;
    r, lo, hi := GetOverlappingInputs(level == 0, files, Some(smallest.user), Some(largest.user), in1);
    SelectedAgain(files, in0, in0 + in1, smallest, largest, lo, hi);
    assert in0[0] in in0 && in0[0] in r;
    SelectedIsSeed(level, files, lo, hi);
    if Connected(in0 + in1) {
      if level == 0 {
        HullCovered(files, in0, in1, smallest, largest);
        forall f | f in in1
          ensures lo.value <= f.smallest.user && f.largest.user <= hi.value
        {
          assert f in in0 + in1;
        }
        ExpandedConnectedZero(files, in1, lo.value, hi.value);
      } else {
        ExpandedConnectedRun(files, in0, in1, smallest, largest);
      }
    }
  }

  // ------------------------------------------------------------------ base level and grandparents

  /** Some file of a level at least `from` has the user key in its range. */
  ghost predicate CoveredBelow(v: Version, from: nat, u: UserKey) {
    exists l, f :: from <= l < |v| && f in v[l] && Within(f, u)
  }

  /** Files before index `n` end before the user key. */
  ghost predicate PassedBy(files: seq<File>, n: nat, u: UserKey) {
    n <= |files| && forall i :: 0 <= i < n ==> files[i].largest.user < u
  }

  /** At least the first `n` files end before `key`. */
  ghost predicate AllEndBefore(files: seq<File>, n: nat, key: InternalKey) {
    n <= |files| && forall i :: 0 <= i < n ==> Less(files[i].largest, key)
  }

  /** `n` is how many of the files end before `key`. */
  ghost predicate EndBefore(files: seq<File>, key: InternalKey, n: nat) {
    && n <= |files|
    && (forall i :: 0 <= i < n ==> Less(files[i].largest, key))
    && (forall i :: n <= i < |files| ==> !Less(files[i].largest, key))
  }

  lemma TotalFileSizeNone(files: seq<File>, a: nat)
    requires a <= |files|
    ensures TotalFileSize(files[a..a]) == 0
  {
  }

  lemma TotalFileSizeNext(files: seq<File>, a: nat, n: nat)
    requires a <= n < |files|
    ensures TotalFileSize(files[a..n + 1]) == TotalFileSize(files[a..n]) + files[n].size
  {
    assert files[a..n + 1][..n - a] == files[a..n];
  }

  lemma {:induction false} TotalFileSizeSplits(files: seq<File>, a: nat, b: nat, c: nat)
    requires a <= b <= c <= |files|
    ensures TotalFileSize(files[a..c]) == TotalFileSize(files[a..b]) + TotalFileSize(files[b..c])
    decreases c
  {
    if b < c {
      TotalFileSizeSplits(files, a, b, c - 1);
      assert files[a..c][..c - a - 1] == files[a..c - 1];
      assert files[b..c][..c - b - 1] == files[b..c - 1];
    } else {
      assert files[a..c] == files[a..b] && files[b..c] == [];
    }
  }

  /** `found` are the files that meet the user-key hull of `inputs`. */
  ghost predicate AllMeeting(files: seq<File>, inputs: seq<File>, found: seq<File>) {
    exists s: InternalKey, l: InternalKey :: Hull(inputs, s, l) && found == Selected(files, Some(s.user), Some(l.user))
  }

  ghost predicate ClosedOver(files0: seq<File>, files1: seq<File>, p: Plan) {
    && p.in0 != []
    && Hull(p.in0, p.smallest, p.largest)
    && LevelClosed(p.level, files0, p.in0)
    && LevelClosed(p.level + 1, files1, p.in1)
    && RangeTaken(files1, p.in1, p.smallest, p.largest)
    && OthersAside(files1, p.in1, p.in0 + p.in1)
  }

  /** Boundary files of the level, then the files of the next level that meet it. */
  method ChooseInputs(level: nat, files0: seq<File>, files1: seq<File>, seed: seq<File>)
    returns (in0: seq<File>, in1: seq<File>, smallest: InternalKey, largest: InternalKey,
             ghost plan: Plan, ghost a: nat, ghost b: nat, ghost c: nat)
    requires ProperLevel(level, files0) && Disjoint(files1)
    requires Seed(level, files0, seed)
    ensures plan == Plan(level, in0, in1, smallest, largest)
    ensures ClosedOver(files0, files1, plan) && Seed(level, files0, in0)
    ensures Prolonged(files1, smallest, largest, in1, a, b, c)
    ensures WithBoundary(level, files0, seed, in0)
    ensures Subset(seed, in0)
    ensures Connected(seed) ==> Connected(in0 + in1)
  {
    hide Connected, Prolonged, Hull, LevelClosed, RangeTaken, OthersAside, Seed;
    in0, smallest, largest := TakeLevel(level, files0, seed, []);
    assert seed + [] == seed && in0 + [] == in0;
    in1, a, b, c := TakeNext(files1, smallest, largest);
    ProlongedFacts(level + 1, files1, smallest, largest, in1, a, b, c);
    ProlongedAside(files1, smallest, largest, in1, a, b, c, in0);
    plan := Plan(level, in0, in1, smallest, largest);
    if Connected(seed) {
      ClosedProper(level, in0, files0);
      ProlongedConnected(files1, in0, smallest, largest, in1, a, b, c);
      ConnectedSwap(in1, in0);
    }
  }

  lemma ExpansionTaken(level: nat, files: seq<File>, inputs: seq<File>, s: InternalKey, l: InternalKey,
                       found: seq<File>, r: seq<File>)
    requires ProperLevel(level, files) && Hull(inputs, s, l) && found != []
    requires if level == 0 then Taken(0, files, s, l, found) else found == Selected(files, Some(s.user), Some(l.user))
    requires WithBoundary(level, files, found, r)
    ensures TakenOver(level, files, inputs, r)
  {
    hide Taken, Hull, Disjoint, Selected;
    if level > 0 {
      hide WithBoundary;
      BoundaryTaken(level, files, s, l, found, r);
    }
  }

  lemma NextTaken(level: nat, files: seq<File>, inputs: seq<File>, s: InternalKey, l: InternalKey, r: seq<File>,
                  a: nat, b: nat, c: nat)
    requires Hull(inputs, s, l) && Prolonged(files, s, l, r, a, b, c)
    ensures TakenOver(level + 1, files, inputs, r)
  {
    hide Hull, Prolonged;
    assert Taken(level + 1, files, s, l, r);
  }

  lemma NextUnique(level: nat, files: seq<File>, inputs: seq<File>, r: seq<File>, in1: seq<File>)
    requires TakenOver(level + 1, files, inputs, r)
    ensures TakenOver(level + 1, files, inputs, in1) ==> r == in1
  {
    hide TakenOver;
    if TakenOver(level + 1, files, inputs, in1) {
      TakenOverUnique(level + 1, files, inputs, r, in1);
    }
  }

  /** One expansion decides. */
  lemma NoOtherExpansion(level: nat, files0: seq<File>, files1: seq<File>, in0: seq<File>, in1: seq<File>, limit: nat,
                         wider: seq<File>)
    requires TakenOver(level, files0, in0 + in1, wider)
    ensures GrownTo(level, files0, files1, in0, in1, limit,
                    if MayGrow(level, files0, files1, in0, in1, limit, wider) then wider else in0)
  {
    hide TakenOver;
    forall other | MayGrow(level, files0, files1, in0, in1, limit, other) ensures other == wider {
      TakenOverUnique(level, files0, in0 + in1, wider, other);
    }
  }

  lemma NothingToGrow(level: nat, files0: seq<File>, files1: seq<File>, in0: seq<File>, limit: nat)
    ensures GrownTo(level, files0, files1, in0, [], limit, in0)
  {
  }

  /** Grow the inputs of the level as long as the next level contributes the same files. */
  method TryExpansion(level: nat, files0: seq<File>, files1: seq<File>, in0: seq<File>, in1: seq<File>,
                      smallest: InternalKey, largest: InternalKey, expandLimit: nat,
                      ghost a: nat, ghost b: nat, ghost c: nat)
    returns (out0: seq<File>, out1: seq<File>, outSmallest: InternalKey, outLargest: InternalKey, ghost plan: Plan)
    requires ProperLevel(level, files0) && Disjoint(files1)
    requires ClosedOver(files0, files1, Plan(level, in0, in1, smallest, largest)) && Seed(level, files0, in0)
    requires Prolonged(files1, smallest, largest, in1, a, b, c)
    ensures plan == Plan(level, out0, out1, outSmallest, outLargest)
    ensures ClosedOver(files0, files1, plan) && Seed(level, files0, out0)
    ensures out1 == in1
    ensures GrownTo(level, files0, files1, in0, in1, expandLimit, out0)
    ensures Subset(in0, out0)
    ensures Connected(in0 + in1) ==> Connected(out0 + out1)
  {
    hide Connected, Prolonged, Hull, LevelClosed, RangeTaken, OthersAside, Seed, WithBoundary, Taken,
         TakenOver, GrownTo, TotalFileSize;
    out0, out1, outSmallest, outLargest := in0, in1, smallest, largest;
    plan := Plan(level, in0, in1, smallest, largest);
    NothingToGrow(level, files0, files1, in0, expandLimit);
    if in1 != [] {
      var allStart, allLimit := GetRange(in0 + in1);
      assert ProperRanges(files1);
      ClosedProper(level, in0, files0);
      ClosedProper(level + 1, in1, files1);
      var found := Expand(level, files0, in0, in1, allStart, allLimit);
      var expanded0, newStart, newLimit := TakeLevel(level, files0, found, in1);
      ExpansionTaken(level, files0, in0 + in1, allStart, allLimit, found, expanded0);
      NoOtherExpansion(level, files0, files1, in0, in1, expandLimit, expanded0);
      if |expanded0| > |in0| && TotalFileSize(in1) + TotalFileSize(expanded0) < expandLimit {
        var expanded1, a', b', c' := TakeNext(files1, newStart, newLimit);
        NextTaken(level, files1, expanded0, newStart, newLimit, expanded1, a', b', c');
        NextUnique(level, files1, expanded0, expanded1, in1);
        if |expanded1| == |in1| {
          ProlongedFacts(level + 1, files1, newStart, newLimit, expanded1, a', b', c');
          ProlongedAside(files1, newStart, newLimit, expanded1, a', b', c', expanded0);
          HullWider(in0, smallest, largest, expanded0, newStart, newLimit);
          SameSizeSameFiles(files1, smallest, largest, in1, a, b, c, newStart, newLimit, expanded1, a', b', c');
          out0, out1, outSmallest, outLargest := expanded0, expanded1, newStart, newLimit;
          plan := Plan(level, out0, out1, outSmallest, outLargest);
        }
      }
    }
  }

  class Compaction {
    const level: nat
    const inputVersion: Version
    var inputs0: seq<File>
    var inputs1: seq<File>
    var grandparents: seq<File>
    var compactPointer: Option<InternalKey>
    var grandparentIndex: nat
    var seenKey: bool
    var overlappedBytes: nat
    var levelPtrs: seq<nat>

    constructor (level: nat, inputVersion: Version, seed: seq<File>)
      ensures this.level == level && this.inputVersion == inputVersion
      ensures inputs0 == seed && inputs1 == [] && grandparents == [] && compactPointer == None
      ensures grandparentIndex == 0 && !seenKey && overlappedBytes == 0
      ensures levelPtrs == seq(NUM_LEVELS, _ => 0)
    {
      this.level, this.inputVersion := level, inputVersion;
      inputs0, inputs1, grandparents, compactPointer := seed, [], [], None;
      grandparentIndex, seenKey, overlappedBytes := 0, false, 0;
      levelPtrs := seq(NUM_LEVELS, _ => 0);
    }

    /** Whether this is a seed from which SetupOtherInputs may start. */
    ghost predicate Startable()
      reads this
    {
      && Shaped(inputVersion) && level + 1 < NUM_LEVELS
      && Seed(level, inputVersion[level], inputs0)
    }

    /** Inputs as SetupOtherInputs leaves them: files of each of the two levels, none twice, and a sorted list of
        grandparents; nothing has been compared with the grandparents or the deeper levels yet. */
    ghost predicate Ready()
      reads this
    {
      && Shaped(inputVersion) && level + 1 < NUM_LEVELS
      && Seed(level, inputVersion[level], inputs0) && IsSlice(inputVersion[level + 1], inputs1)
      && Disjoint(grandparents)
      && grandparentIndex == 0 && !seenKey && overlappedBytes == 0 && levelPtrs == seq(NUM_LEVELS, _ => 0)
    }

    /** Complete the inputs: boundary files, the files of the next level, and an expansion of the
        level that pulls in no further file of the next. */
    method SetupOtherInputs(expandLimit: nat) returns (ghost plan: Plan)
      requires Startable() && grandparents == []
      requires grandparentIndex == 0 && !seenKey && overlappedBytes == 0 && levelPtrs == seq(NUM_LEVELS, _ => 0)
      modifies `inputs0, `inputs1, `grandparents, `compactPointer
      ensures plan.level == level && plan.in0 == inputs0 && plan.in1 == inputs1
      ensures PlanClosed(inputVersion, plan) && Ready()
      ensures ChosenInputs(level, inputVersion[level], inputVersion[level + 1], old(inputs0), expandLimit, inputs0,
                           inputs1)
      ensures Subset(old(inputs0), inputs0)
      ensures Connected(old(inputs0)) ==> Connected(inputs0 + inputs1)
      ensures compactPointer == Some(plan.largest)
      ensures level + 2 < NUM_LEVELS ==> AllMeeting(inputVersion[level + 2], inputs0 + inputs1, grandparents)
      ensures level + 2 == NUM_LEVELS ==> grandparents == []
    {
      hide Disjoint, Connected, Prolonged, Hull, LevelClosed, RangeTaken, OthersAside, Seed, ProperRanges, IsSlice,
           WithBoundary, TakenOver, GrownTo;
      ghost var seed := inputs0;
      var files0, files1 := inputVersion[level], inputVersion[level + 1];
      ShapedLevel(inputVersion, level);
      ShapedLevel(inputVersion, level + 1);
      ghost var first, a, b, c;
      var in0, in1, smallest, largest;
      in0, in1, smallest, largest, first, a, b, c := ChooseInputs(level, files0, files1, inputs0);
      ghost var first0, firstSmallest, firstLargest := in0, smallest, largest;
      NextTaken(level, files1, in0, smallest, largest, in1, a, b, c);
      in0, in1, smallest, largest, plan :=
        TryExpansion(level, files0, files1, in0, in1, smallest, largest, expandLimit, a, b, c);
      var allStart, allLimit := GetRange(in0 + in1);

      if level + 2 < NUM_LEVELS {
        ShapedLevel(inputVersion, level + 2);
        var overlapping, _, _ := GetOverlappingInputs(false, inputVersion[level + 2], Some(allStart.user),
                                                      Some(allLimit.user), []);
        grandparents := overlapping;
        SelectedDisjoint(inputVersion[level + 2], Some(allStart.user), Some(allLimit.user));
      } else {
        NothingDisjoint();
      }
      inputs0, inputs1, compactPointer := in0, in1, Some(largest);
      assert WithBoundary(level, files0, seed, first0) && GrownTo(level, files0, files1, first0, in1, expandLimit, in0);
      assert IsSlice(files1, in1) by { ProlongedSlice(files1, firstSmallest, firstLargest, in1, a, b, c); }
    }

    predicate IsTrivialMove(maxGrandparentOverlap: nat)
      reads this
    {
      |inputs0| == 1 && |inputs1| == 0 && TotalFileSize(grandparents) <= maxGrandparentOverlap
    }

    /** The per-level cursors have only passed files that end before the user key. */
    ghost predicate Behind(u: UserKey)
      reads this
    {
      && |inputVersion| == NUM_LEVELS && |levelPtrs| == NUM_LEVELS
      && forall l :: level + 2 <= l < NUM_LEVELS ==> PassedBy(inputVersion[l], levelPtrs[l], u)
    }

    /** No file below level + 1 has the user key in its range.  Keys are asked for in increasing
        order, and the cursors only move forward. */
    method IsBaseLevelForKey(u: UserKey) returns (r: bool)
      requires Shaped(inputVersion)
      requires Behind(u)
      modifies `levelPtrs
      ensures Behind(u)
      ensures r <==> !CoveredBelow(inputVersion, level + 2, u)
    {
      var lvl := level + 2;
      while lvl < NUM_LEVELS
        invariant level + 2 <= lvl
        invariant Behind(u)
        invariant forall l, f :: level + 2 <= l < lvl && l < NUM_LEVELS && f in inputVersion[l] ==> !Within(f, u)
      {
        var files := inputVersion[lvl];
        while levelPtrs[lvl] < |files|
          invariant Behind(u)
          invariant |levelPtrs| == NUM_LEVELS && levelPtrs[lvl] <= |files|
          decreases |files| - levelPtrs[lvl]
        {
          var f := files[levelPtrs[lvl]];
          if u <= f.largest.user {
            if u >= f.smallest.user {
              assert f in inputVersion[lvl] && Within(f, u);
              return false;
            }
            break;
          }
          levelPtrs := levelPtrs[lvl := levelPtrs[lvl] + 1];
        }
        NoneWithin(files, levelPtrs[lvl], u);
        lvl := lvl + 1;
      }
      return true;
    }

    /** The grandparent cursor stands after the files that end before `key`. */
    ghost predicate AtGrandparent(key: InternalKey)
      reads this
    {
      EndBefore(grandparents, key, grandparentIndex)
    }

    /** Whether the current output must end before `key`: it already overlaps too many grandparent bytes. */
    method ShouldStopBefore(key: InternalKey, maxGrandparentOverlap: nat) returns (r: bool)
      requires Disjoint(grandparents)
      requires AllEndBefore(grandparents, grandparentIndex, key)
      modifies `grandparentIndex, `seenKey, `overlappedBytes
      ensures AtGrandparent(key) && seenKey
      ensures old(grandparentIndex) <= grandparentIndex <= |grandparents|
      ensures var passed := TotalFileSize(grandparents[old(grandparentIndex)..grandparentIndex]);
              var total := old(overlappedBytes) + (if old(seenKey) then passed else 0);
              && r == (total > maxGrandparentOverlap)
              && overlappedBytes == (if r then 0 else total)
    {
      hide Disjoint, Less, TotalFileSize;
      ghost var from := grandparentIndex;
      TotalFileSizeNone(grandparents, from);
      while grandparentIndex < |grandparents| && Compare(key, grandparents[grandparentIndex].largest) > 0
        invariant from <= grandparentIndex <= |grandparents|
        invariant forall i :: 0 <= i < grandparentIndex ==> Less(grandparents[i].largest, key)
        invariant seenKey == old(seenKey)
        invariant overlappedBytes == old(overlappedBytes)
                                     + (if seenKey then TotalFileSize(grandparents[from..grandparentIndex]) else 0)
      {
        if seenKey {
          overlappedBytes := overlappedBytes + grandparents[grandparentIndex].size;
        }
        TotalFileSizeNext(grandparents, from, grandparentIndex);
        grandparentIndex := grandparentIndex + 1;
      }
      EndBeforeHere(grandparents, key, grandparentIndex);
      seenKey := true;
      r := overlappedBytes > maxGrandparentOverlap;
      if r {
        overlappedBytes := 0;
      }
    }
  }

  lemma ProlongedSlice(files: seq<File>, s: InternalKey, l: InternalKey, r: seq<File>, a: nat, b: nat, c: nat)
    requires Prolonged(files, s, l, r, a, b, c)
    ensures IsSlice(files, r)
  {
    assert IsRun(files, a, c, r);
  }

  lemma NothingDisjoint()
    ensures Disjoint([])
  {
  }

  lemma RunDisjoint(files: seq<File>, a: nat, b: nat)
    requires Disjoint(files) && a <= b <= |files|
    ensures Disjoint(files[a..b])
  {
    forall i | 0 <= i < b - a ensures files[a..b][i] == files[a + i] && files[a + i] in files {
    }
  }

  lemma SelectedDisjoint(files: seq<File>, lo: Option<UserKey>, hi: Option<UserKey>)
    requires Disjoint(files)
    ensures Disjoint(Selected(files, lo, hi))
  {
    hide Disjoint;
    var a, b := SelectedRun(files, lo, hi);
    RunDisjoint(files, a, b);
  }

  lemma EndBeforeHere(files: seq<File>, key: InternalKey, n: nat)
    requires Disjoint(files)
    requires n <= |files| && forall i :: 0 <= i < n ==> Less(files[i].largest, key)
    requires n < |files| ==> !Less(files[n].largest, key)
    ensures EndBefore(files, key, n)
  {
    LargestIncreases(files);
  }

  lemma NoneWithin(files: seq<File>, n: nat, u: UserKey)
    requires Disjoint(files)
    requires PassedBy(files, n, u)
    requires n < |files| ==> u < files[n].smallest.user
    ensures forall f :: f in files ==> !Within(f, u)
  {
    forall f | f in files
      ensures !Within(f, u)
    {
      var i :| 0 <= i < |files| && files[i] == f;
      if n < i {
        UserOrder(files, n, i);
      }
    }
  }

  lemma ClosedProper(level: nat, some: seq<File>, files: seq<File>)
    requires LevelClosed(level, files, some) && ProperRanges(files)
    ensures Subset(some, files)
    ensures ProperRanges(some)
  {
  }

  lemma ShapedLevel(v: Version, level: nat)
    requires Shaped(v) && level < NUM_LEVELS
    ensures ProperLevel(level, v[level])
    ensures level > 0 ==> Disjoint(v[level])
  {
  }

  lemma ConnectedSwap(a: seq<File>, b: seq<File>)
    requires Connected(a + b)
    ensures Connected(b + a)
  {
    forall f, g, u | f in b + a && g in b + a && f.smallest.user <= u <= g.largest.user
      ensures CoversKey(b + a, u)
    {
      assert f in a + b && g in a + b;
      assert CoversKey(a + b, u);
      var h :| h in a + b && Within(h, u);
      assert h in b + a;
    }
  }

  lemma HullWider(files: seq<File>, s: InternalKey, l: InternalKey, more: seq<File>, s': InternalKey, l': InternalKey)
    requires Hull(files, s, l) && Hull(more, s', l')
    requires Subset(files, more)
    ensures AtMost(s', s) && AtMost(l, l')
  {
  }
}
