/** What a choice of compaction inputs must satisfy, and why the searches of db/version_set.cc give it. */
module Plans {
  import opened Keys
  import opened Files
  import opened Inputs

  /** The files of every level. */
  type Version = seq<seq<File>>

  ghost predicate Shaped(v: Version) {
    && |v| == NUM_LEVELS
    && ProperRanges(v[0])
    && forall l :: 1 <= l < NUM_LEVELS ==> Disjoint(v[l])
  }

  /** Inputs of a compaction from `level` to `level + 1`; [smallest, largest] is the hull of `in0`. */
  datatype Plan = Plan(level: nat, in0: seq<File>, in1: seq<File>, smallest: InternalKey, largest: InternalKey)

  predicate UserApart(f: File, g: File) {
    f.largest.user < g.smallest.user || g.largest.user < f.smallest.user
  }

  /** `g` follows `f` in its level and starts with the user key that `f` ends with. */
  predicate Continues(f: File, g: File) {
    IsBoundary(f.largest, g)
  }

  ghost predicate Subset(a: seq<File>, b: seq<File>) {
    forall f :: f in a ==> f in b
  }

  /** No file left behind shares a user key with an input (level 0) or continues one (other levels). */
  ghost predicate LevelClosed(level: nat, files: seq<File>, inputs: seq<File>) {
    && Subset(inputs, files)
    && forall f, g :: f in inputs && g in files && g !in inputs ==>
         if level == 0 then UserApart(f, g) else !Continues(f, g)
  }

  /** No level+1 file left behind meets the user-key range of the level inputs. */
  ghost predicate RangeTaken(files: seq<File>, in1: seq<File>, smallest: InternalKey, largest: InternalKey) {
    forall g :: g in files && g !in in1 ==> g.largest.user < smallest.user || largest.user < g.smallest.user
  }

  /** In internal-key order `g` is before all the inputs, or in user-key order after all of them. */
  ghost predicate Aside(g: File, inputs: seq<File>) {
    || (forall f :: f in inputs ==> Less(g.largest, f.smallest))
    || (forall f :: f in inputs ==> f.largest.user < g.smallest.user)
  }

  ghost predicate OthersAside(files: seq<File>, in1: seq<File>, inputs: seq<File>) {
    forall g :: g in files && g !in in1 ==> Aside(g, inputs)
  }

  ghost predicate PlanClosed(v: Version, p: Plan) {
    && |v| == NUM_LEVELS && p.level + 1 < NUM_LEVELS
    && p.in0 != []
    && Hull(p.in0, p.smallest, p.largest)
    && LevelClosed(p.level, v[p.level], p.in0)
    && LevelClosed(p.level + 1, v[p.level + 1], p.in1)
    && RangeTaken(v[p.level + 1], p.in1, p.smallest, p.largest)
    && OthersAside(v[p.level + 1], p.in1, p.in0 + p.in1)
  }

  /** Every user key between two of the files lies in one of them. */
  ghost predicate Connected(files: seq<File>) {
    forall a, b, u :: a in files && b in files && a.smallest.user <= u <= b.largest.user ==> CoversKey(files, u)
  }

  /** `g` meets the user-key hull of the files. */
  ghost predicate Meets(files: seq<File>, g: File) {
    && (exists a :: a in files && a.smallest.user <= g.largest.user)
    && (exists b :: b in files && g.smallest.user <= b.largest.user)
  }

  lemma ConnectedMore(files: seq<File>, more: seq<File>)
    requires Connected(files)
    requires Subset(files, more)
    requires forall g :: g in more && g !in files ==> Meets(files, g)
    requires ProperRanges(more)
    ensures Connected(more)
  {
    forall a, b, u | a in more && b in more && a.smallest.user <= u <= b.largest.user
      ensures CoversKey(more, u)
    {
      if !Within(a, u) && !Within(b, u) {
        var a' := LeftWitness(files, more, a);
        var b' := RightWitness(files, more, b);
        assert a'.smallest.user <= u <= b'.largest.user;
        assert CoversKey(files, u);
        var f :| f in files && Within(f, u);
        assert f in more;
      }
    }
  }

  lemma LeftWitness(files: seq<File>, more: seq<File>, g: File) returns (a: File)
    requires g in more && (g in files || Meets(files, g))
    requires ProperRanges(more)
    ensures a in files && a.smallest.user <= g.largest.user
  {
    if g in files {
      a := g;
    } else {
      a :| a in files && a.smallest.user <= g.largest.user;
    }
  }

  lemma RightWitness(files: seq<File>, more: seq<File>, g: File) returns (b: File)
    requires g in more && (g in files || Meets(files, g))
    requires ProperRanges(more)
    ensures b in files && g.smallest.user <= b.largest.user
  {
    if g in files {
      b := g;
    } else {
      b :| b in files && g.smallest.user <= b.largest.user;
    }
  }

  // ------------------------------------------------------------------ runs of a sorted level

  lemma RunLargest(files: seq<File>, a: nat, b: nat, key: InternalKey)
    requires Disjoint(files)
    requires a < b <= |files|
    requires IsLargest(files[a..b], key)
    ensures key == files[b - 1].largest
  {
    LargestIncreases(files);
    assert files[a..b][b - 1 - a] == files[b - 1];
    assert files[b - 1] in files[a..b];
    var f :| f in files[a..b] && f.largest == key;
    var i :| 0 <= i < b - a && files[a..b][i] == f;
    assert files[a + i] == f;
  }

  lemma StartsByIndex(files: seq<File>, i: nat, j: nat)
    requires Disjoint(files)
    requires i < |files| && j < |files|
    ensures Less(files[i].largest, files[j].smallest) <==> i < j
    ensures i < j ==> Less(files[i].smallest, files[j].smallest)
  {
    assert files[i] in files && files[j] in files;
    if i > j {
      UserOrder(files, j, i);
      assert Less(files[j].largest, files[i].smallest);
    }
  }

  /** On a sorted level the only possible boundary file of a run is the next one. */
  lemma NextBoundary(files: seq<File>, b: nat, g: File)
    requires Disjoint(files)
    requires 0 < b <= |files|
    requires IsSmallestBoundary(files, files[b - 1].largest, g)
    ensures b < |files| && g == files[b]
  {
    var i :| 0 <= i < |files| && files[i] == g;
    StartsByIndex(files, b - 1, i);
    if i > b {
      UserOrder(files, b, i);
      UserOrder(files, b - 1, b);
      StartsByIndex(files, b - 1, b);
      assert IsBoundary(files[b - 1].largest, files[b]) && files[b] in files;
      StartsByIndex(files, b, i);
    }
  }

  predicate Linked(files: seq<File>, i: nat)
    requires 0 < i < |files|
  {
    Continues(files[i - 1], files[i])
  }

  ghost predicate ContinuedRun(files: seq<File>, b: nat, c: nat)
    requires 0 < b && c <= |files|
  {
    forall i :: b <= i < c ==> Linked(files, i)
  }

  /** So a boundary chain prolongs the run, each file continuing the one before. */
  lemma {:induction false} ChainAt(files: seq<File>, b: nat, key: InternalKey, chain: seq<File>, n: nat)
    requires Disjoint(files)
    requires 0 < b <= |files|
    requires key == files[b - 1].largest
    requires BoundaryChain(files, key, chain)
    requires n <= |chain|
    ensures b + n <= |files|
    ensures EndKey(key, chain[..n]) == files[b + n - 1].largest
    ensures n > 0 ==> chain[n - 1] == files[b + n - 1] && Linked(files, b + n - 1)
  {
    if n > 0 {
      ChainAt(files, b, key, chain, n - 1);
      assert ChainStep(files, key, chain, n - 1);
      NextBoundary(files, b + n - 1, chain[n - 1]);
      assert chain[..n][n - 1] == chain[n - 1];
    }
  }

  lemma ChainRun(files: seq<File>, b: nat, key: InternalKey, chain: seq<File>)
    requires Disjoint(files)
    requires 0 < b <= |files|
    requires key == files[b - 1].largest
    requires BoundaryChain(files, key, chain)
    ensures b + |chain| <= |files|
    ensures chain == files[b..b + |chain|]
    ensures EndKey(key, chain) == files[b + |chain| - 1].largest
    ensures ContinuedRun(files, b, b + |chain|)
  {
    ChainAt(files, b, key, chain, |chain|);
    assert chain[..|chain|] == chain;
    forall i | 0 <= i < |chain|
      ensures chain[i] == files[b + i]
    {
      ChainAt(files, b, key, chain, i + 1);
    }
    forall i | b <= i < b + |chain|
      ensures Linked(files, i)
    {
      ChainAt(files, b, key, chain, i - b + 1);
    }
  }

  /** A run without a boundary file after it is closed. */
  lemma RunClosed(level: nat, files: seq<File>, a: nat, b: nat)
    requires level > 0
    requires Disjoint(files)
    requires a <= b <= |files|
    requires a < b ==> forall g :: g in files ==> !IsBoundary(files[b - 1].largest, g)
    ensures LevelClosed(level, files, files[a..b])
  {
    forall f, g | f in files[a..b] && g in files && g !in files[a..b]
      ensures !Continues(f, g)
    {
      var i :| 0 <= i < b - a && files[a..b][i] == f;
      var j :| 0 <= j < |files| && files[j] == g;
      OutsideRun(files, a, b, j);
      assert files[a + i] == f;
      StartsByIndex(files, a + i, j);
      if j >= b {
        if a + i < b - 1 {
          UserOrder(files, a + i, b - 1);
        }
        UserOrder(files, b - 1, j);
        StartsByIndex(files, b - 1, j);
        assert !IsBoundary(files[b - 1].largest, g);
      }
    }
  }

  lemma OutsideRun(files: seq<File>, a: nat, b: nat, j: nat)
    requires a <= b <= |files|
    requires j < |files|
    ensures a <= j < b ==> files[j] in files[a..b]
  {
    if a <= j < b {
      assert files[a..b][j - a] == files[j];
    }
  }

  lemma {:induction false} RunConnected(files: seq<File>, others: seq<File>, a: nat, b: nat, c: nat)
    requires Disjoint(files) && ProperRanges(others)
    requires a < b <= c <= |files|
    requires Connected(files[a..b] + others)
    requires ContinuedRun(files, b, c)
    ensures Connected(files[a..c] + others)
    decreases c
  {
    if b < c {
      RunConnected(files, others, a, b, c - 1);
      var run, more := files[a..c - 1] + others, files[a..c] + others;
      assert files[a..c] == files[a..c - 1] + [files[c - 1]];
      assert files[a..c - 1][c - 2 - a] == files[c - 2];
      assert files[c - 2] in run;
      assert files[c - 2] in files && files[c - 1] in files;
      assert Linked(files, c - 1);
      assert Meets(run, files[c - 1]);
      assert ProperRanges(more) by {
        assert forall f :: f in files[a..c] ==> f in files;
      }
      ConnectedMore(run, more);
    }
  }
}
