/** The layer invariant of a version, and how the installation of new files keeps it.

    For every user key shallower layers hold newer sequence numbers; levels above 0 are sorted and
    disjoint in internal-key order. */
module Layers {
  import opened Keys
  import opened Files
  import opened Inputs
  import opened Plans
  import opened Compactions

  /** Every entry of `f` is newer than every entry of `g` for the same user key. */
  ghost predicate FileNewer(f: File, g: File) {
    forall x, y :: x in f.entries && y in g.entries && x.key.user == y.key.user ==> x.key.sequence > y.key.sequence
  }

  ghost predicate AllNewer(fs: seq<File>, gs: seq<File>) {
    forall f, g :: f in fs && g in gs ==> FileNewer(f, g)
  }

  /** Level 0: a larger file number is newer. */
  ghost predicate NumberedByAge(files: seq<File>) {
    && (forall f, g :: f in files && g in files && f.number > g.number ==> FileNewer(f, g))
    && (forall f, g :: f in files && g in files && f.number == g.number ==> f == g)
  }

  ghost predicate AllValid(files: seq<File>) {
    forall f :: f in files ==> ValidFile(f) && f.largest.sequence <= MAX_SEQUENCE
  }

  ghost predicate Layered(v: Version) {
    && Shaped(v)
    && (forall l :: 0 <= l < NUM_LEVELS ==> AllValid(v[l]))
    && NumberedByAge(v[0])
    && (forall i, j :: 0 <= i < j < NUM_LEVELS ==> AllNewer(v[i], v[j]))
  }

  ghost function VersionEntries(v: Version): set<Entry> {
    set l, f, e | 0 <= l < |v| && f in v[l] && e in f.entries :: e
  }

  // ------------------------------------------------------------------ files in order

  predicate BySmallest(f: File, g: File) {
    Less(f.smallest, g.smallest) || (f.smallest == g.smallest && f.number < g.number)
  }

  ghost predicate Ordered(files: seq<File>) {
    forall i, j :: 0 <= i < j < |files| ==> BySmallest(files[i], files[j])
  }

  predicate KeysApart(f: File, g: File) {
    Less(f.largest, g.smallest) || Less(g.largest, f.smallest)
  }

  ghost predicate PairwiseApart(files: seq<File>) {
    forall f, g :: f in files && g in files && f != g ==> KeysApart(f, g)
  }

  lemma OrderedApart(files: seq<File>)
    requires Ordered(files) && PairwiseApart(files) && ProperRanges(files)
    ensures Disjoint(files)
  {
    forall i, j | 0 <= i < j < |files|
      ensures Less(files[i].largest, files[j].smallest)
    {
      assert files[i] in files && files[j] in files;
      assert BySmallest(files[i], files[j]);
      assert KeysApart(files[i], files[j]);
    }
  }

  lemma DisjointApart(files: seq<File>)
    requires Disjoint(files)
    ensures PairwiseApart(files)
  {
    forall f, g | f in files && g in files && f != g
      ensures KeysApart(f, g)
    {
      var i :| 0 <= i < |files| && files[i] == f;
      var j :| 0 <= j < |files| && files[j] == g;
      StartsByIndex(files, i, j);
      StartsByIndex(files, j, i);
    }
  }

  /** Within a sorted level an earlier file is newer. */
  lemma EarlierNewer(f: File, g: File, all: set<Entry>)
    requires ValidFile(f) && ValidFile(g)
    requires Unambiguous(all) && ToSet(f.entries) <= all && ToSet(g.entries) <= all
    requires Less(f.largest, g.smallest)
    ensures FileNewer(f, g)
  {
    EntriesInRange(f);
    EntriesInRange(g);
    forall x, y | x in f.entries && y in g.entries && x.key.user == y.key.user
      ensures x.key.sequence > y.key.sequence
    {
      assert x in ToSet(f.entries) && y in ToSet(g.entries);
      assert Less(x.key, y.key);
    }
  }

  lemma UserApartNewer(f: File, g: File)
    requires ValidFile(f) && ValidFile(g)
    requires UserApart(f, g)
    ensures FileNewer(f, g) && FileNewer(g, f)
  {
    EntriesInRange(f);
    EntriesInRange(g);
  }

  // ------------------------------------------------------------------ when results may be installed

  /** What must hold of the current version for the merge of plan `p`, chosen on `base`, to go in. */
  ghost predicate Installable(cur: Version, base: Version, p: Plan) {
    && |cur| == NUM_LEVELS && p.level + 1 < NUM_LEVELS
    && Subset(p.in0, cur[p.level]) && Subset(p.in1, cur[p.level + 1])
    && RestNewer(cur[p.level], p.in0)
    && OthersAside(cur[p.level + 1], p.in1, p.in0 + p.in1)
    && NothingNewBelow(cur, base, p)
  }

  /** No file left behind on the level holds older entries for a user key of the inputs. */
  ghost predicate RestNewer(files: seq<File>, in0: seq<File>) {
    forall f, g :: f in in0 && g in files && g !in in0 ==> FileNewer(g, f)
  }

  /** A key of the inputs that a deeper level covers now was covered when the inputs were chosen. */
  ghost predicate NothingNewBelow(cur: Version, base: Version, p: Plan) {
    forall f, e :: f in p.in0 + p.in1 && e in f.entries && CoveredBelow(cur, p.level + 2, e.key.user) ==>
      CoveredBelow(base, p.level + 2, e.key.user)
  }

  lemma FileInVersion(v: Version, l: nat, f: File)
    requires l < |v| && f in v[l]
    ensures ToSet(f.entries) <= VersionEntries(v)
  {
    forall e | e in ToSet(f.entries)
      ensures e in VersionEntries(v)
    {
      assert f in v[l] && e in f.entries;
    }
  }

  lemma LayeredLevel(v: Version, l: nat)
    requires Layered(v) && l < NUM_LEVELS
    ensures AllValid(v[l]) && ProperRanges(v[l])
    ensures l > 0 ==> Disjoint(v[l])
    ensures l == 0 ==> NumberedByAge(v[0])
  {
  }

  lemma LayeredPair(v: Version, i: nat, j: nat)
    requires Layered(v) && i < j < NUM_LEVELS
    ensures AllNewer(v[i], v[j])
  {
  }

  /** The inputs that the search chose are installable on the version they were chosen on. */
  lemma PickInstallable(v: Version, p: Plan)
    requires Layered(v) && Unambiguous(VersionEntries(v))
    requires PlanClosed(v, p)
    ensures Installable(v, v, p)
  {
    hide Layered, Unambiguous, VersionEntries, FileNewer, ValidFile, Aside;
    LayeredLevel(v, p.level);
    forall f, g | f in p.in0 && g in v[p.level] && g !in p.in0
      ensures FileNewer(g, f)
    {
      if p.level == 0 {
        UserApartNewer(f, g);
      } else {
        FileInVersion(v, p.level, f);
        FileInVersion(v, p.level, g);
        DisjointApart(v[p.level]);
        assert KeysApart(f, g);
        if Less(g.largest, f.smallest) {
          EarlierNewer(g, f, VersionEntries(v));
        } else {
          assert !Continues(f, g);
          UserApartNewer(f, g);
        }
      }
    }
  }

  // ------------------------------------------------------------------ a flush

  /** `v'` is `v` with file `nf` added on level `level`. */
  ghost predicate FileAdded(v: Version, level: nat, nf: File, v': Version) {
    && |v| == |v'| == NUM_LEVELS && level < NUM_LEVELS
    && (forall l :: 0 <= l < NUM_LEVELS && l != level ==> v'[l] == v[l])
    && (forall f :: f in v'[level] <==> f in v[level] || f == nf)
    && Ordered(v'[level])
  }

  /** All entries of `nf` are newer than all of the version, and its number larger. */
  ghost predicate NewestFile(v: Version, nf: File) {
    forall l, f :: 0 <= l < |v| && f in v[l] ==> f.number < nf.number && FileNewer(nf, f)
  }

  /** No file of the levels up to `level` meets the user-key range of `nf`. */
  ghost predicate LandsClear(v: Version, level: nat, nf: File) {
    forall l, f :: 0 <= l <= level && l < |v| && f in v[l] ==> UserApart(f, nf)
  }

  /** A flush to the picked level keeps the layer invariant. */
  lemma FlushKeepsLayers(v: Version, level: nat, nf: File, v': Version)
    requires Layered(v)
    requires FileAdded(v, level, nf, v')
    requires ValidFile(nf) && nf.largest.sequence <= MAX_SEQUENCE
    requires NewestFile(v, nf)
    requires level > 0 ==> LandsClear(v, level, nf)
    ensures Layered(v')
  {
    hide Layered, FileNewer, ValidFile, UserApart;
    forall l | 0 <= l < NUM_LEVELS ensures AllValid(v'[l]) {
      LayeredLevel(v, l);
    }
    forall i, j | 0 <= i < j < NUM_LEVELS ensures AllNewer(v'[i], v'[j]) {
      LayeredPair(v, i, j);
      LayeredLevel(v, i);
      forall f, g | f in v'[i] && g in v'[j] ensures FileNewer(f, g) {
        if j == level && g !in v[j] {
          assert g == nf && f in v[i];
          assert ValidFile(f);
          UserApartNewer(f, nf);
        } else if i == level && f !in v[i] {
          assert f == nf && g in v[j];
        }
      }
    }
    LayeredLevel(v, level);
    LayeredLevel(v, 0);
    EntriesInRange(nf);
    if level > 0 {
      FlushApart(v[level], nf, v'[level]);
    }
    FlushShaped(v, level, nf, v');
    LayeredFrom(v');
  }

  lemma LayeredFrom(v: Version)
    requires Shaped(v)
    requires forall l :: 0 <= l < NUM_LEVELS ==> AllValid(v[l])
    requires NumberedByAge(v[0])
    requires forall i, j :: 0 <= i < j < NUM_LEVELS ==> AllNewer(v[i], v[j])
    ensures Layered(v)
  {
  }

  lemma FlushApart(files: seq<File>, nf: File, files': seq<File>)
    requires Disjoint(files) && Ordered(files')
    requires forall f :: f in files' <==> f in files || f == nf
    requires forall f :: f in files ==> UserApart(f, nf)
    requires AtMost(nf.smallest, nf.largest) && nf.largest.sequence <= MAX_SEQUENCE
    ensures Disjoint(files')
  {
    DisjointApart(files);
    OrderedApart(files');
  }

  lemma FlushShaped(v: Version, level: nat, nf: File, v': Version)
    requires Layered(v)
    requires FileAdded(v, level, nf, v')
    requires ProperRanges(v'[0])
    requires level > 0 ==> Disjoint(v'[level])
    ensures Shaped(v')
  {
    forall l | 1 <= l < NUM_LEVELS ensures Disjoint(v'[l]) {
      LayeredLevel(v, l);
    }
  }

  /** A flush that lands while a merge is under way leaves its results installable exactly when the
      new file, if it goes to the level the results go to, is on one side of all the inputs. */
  lemma FlushKeepsInstallable(cur: Version, base: Version, p: Plan, level: nat, nf: File, cur': Version)
    requires Layered(cur) && Installable(cur, base, p)
    requires FileAdded(cur, level, nf, cur')
    requires ValidFile(nf)
    requires NewestFile(cur, nf)
    requires level > 0 ==> LandsClear(cur, level, nf)
    ensures Installable(cur', base, p) <==> (level == p.level + 1 ==> Aside(nf, p.in0 + p.in1))
  {
    hide Layered, FileNewer, ValidFile, Aside, NothingNewBelow, UserApart;
    assert forall l, f :: 0 <= l < NUM_LEVELS && f in cur[l] ==> f in cur'[l];
    if level == p.level + 1 {
      assert nf !in p.in1 by { NewestIsNew(cur, p, nf); }
      assert nf in cur'[level];
    }
    if level >= p.level + 2 {
      InputsApart(cur, p, level, nf);
      FlushNothingNewBelow(cur, base, p, level, nf, cur');
    } else {
      assert NothingNewBelow(cur', base, p) by {
        SameBelow(cur, base, p, cur');
      }
    }
  }

  lemma NewestIsNew(cur: Version, p: Plan, nf: File)
    requires NewestFile(cur, nf) && p.level + 1 < |cur| && Subset(p.in1, cur[p.level + 1])
    ensures nf !in p.in1
  {
  }

  /** Inputs without gaps leave no place between them: a file that lands clear of them is on one side. */
  lemma ConnectedFlushAside(cur: Version, p: Plan, level: nat, nf: File)
    requires Layered(cur) && p.level + 1 < NUM_LEVELS && Subset(p.in0, cur[p.level]) && Subset(p.in1, cur[p.level + 1])
    requires Connected(p.in0 + p.in1) && ValidFile(nf)
    requires p.level + 1 <= level < NUM_LEVELS && LandsClear(cur, level, nf)
    ensures Aside(nf, p.in0 + p.in1)
  {
    EntriesInRange(nf);
    InputsApart(cur, p, level, nf);
    InputsProper(cur, p);
    ConnectedAside(p.in0 + p.in1, nf);
  }

  lemma InputsApart(cur: Version, p: Plan, level: nat, nf: File)
    requires |cur| == NUM_LEVELS && p.level + 1 <= level < NUM_LEVELS
    requires Subset(p.in0, cur[p.level]) && Subset(p.in1, cur[p.level + 1])
    requires LandsClear(cur, level, nf)
    ensures forall f :: f in p.in0 + p.in1 ==> UserApart(f, nf)
  {
  }

  lemma InputsProper(cur: Version, p: Plan)
    requires Layered(cur) && p.level + 1 < NUM_LEVELS
    requires Subset(p.in0, cur[p.level]) && Subset(p.in1, cur[p.level + 1])
    ensures ProperRanges(p.in0 + p.in1)
    ensures AllValid(p.in0 + p.in1)
  {
    LayeredLevel(cur, p.level);
    LayeredLevel(cur, p.level + 1);
  }

  /** A file apart from each of a set of files without gaps is on one side of all of them. */
  lemma ConnectedAside(inputs: seq<File>, g: File)
    requires Connected(inputs) && ProperRanges(inputs)
    requires AtMost(g.smallest, g.largest)
    requires forall f :: f in inputs ==> UserApart(f, g)
    ensures Aside(g, inputs)
  {
    assert !CoversKey(inputs, g.smallest.user);
    if a :| a in inputs && a.largest.user < g.smallest.user {
      forall f | f in inputs
        ensures f.largest.user < g.smallest.user
      {
        assert UserApart(f, g);
        assert !(a.smallest.user <= g.smallest.user <= f.largest.user);
      }
    }
  }

  lemma SameBelow(cur: Version, base: Version, p: Plan, cur': Version)
    requires NothingNewBelow(cur, base, p)
    requires |cur| == |cur'|
    requires forall l :: p.level + 2 <= l < |cur| ==> cur'[l] == cur[l]
    ensures NothingNewBelow(cur', base, p)
  {
    forall f, e | f in p.in0 + p.in1 && e in f.entries && CoveredBelow(cur', p.level + 2, e.key.user)
      ensures CoveredBelow(base, p.level + 2, e.key.user)
    {
      var l, g :| p.level + 2 <= l < |cur'| && g in cur'[l] && Within(g, e.key.user);
      assert g in cur[l];
      assert CoveredBelow(cur, p.level + 2, e.key.user);
    }
  }

  lemma FlushNothingNewBelow(cur: Version, base: Version, p: Plan, level: nat, nf: File, cur': Version)
    requires Layered(cur) && NothingNewBelow(cur, base, p)
    requires p.level + 1 < NUM_LEVELS && Subset(p.in0, cur[p.level]) && Subset(p.in1, cur[p.level + 1])
    requires FileAdded(cur, level, nf, cur')
    requires forall f :: f in p.in0 + p.in1 ==> UserApart(f, nf)
    ensures NothingNewBelow(cur', base, p)
  {
    InputsProper(cur, p);
    hide Layered;
    forall f, e | f in p.in0 + p.in1 && e in f.entries && CoveredBelow(cur', p.level + 2, e.key.user)
      ensures CoveredBelow(base, p.level + 2, e.key.user)
    {
      var l, g :| p.level + 2 <= l < |cur'| && g in cur'[l] && Within(g, e.key.user);
      EntriesInRange(f);
      assert UserApart(f, nf);
      assert g != nf;
      assert g in cur[l];
      assert CoveredBelow(cur, p.level + 2, e.key.user);
    }
  }

  // ------------------------------------------------------------------ installing results

  /** `cur'` is `cur` without the inputs of the plan and with `outs` on the next level. */
  ghost predicate Installed(cur: Version, p: Plan, outs: seq<File>, cur': Version) {
    && |cur| == |cur'| == NUM_LEVELS && p.level + 1 < NUM_LEVELS
    && (forall l :: 0 <= l < NUM_LEVELS && l != p.level && l != p.level + 1 ==> cur'[l] == cur[l])
    && (forall f :: f in cur'[p.level] <==> f in cur[p.level] && f !in p.in0)
    && (forall f :: f in cur'[p.level + 1] <==> (f in cur[p.level + 1] && f !in p.in1) || f in outs)
    && Ordered(cur'[p.level]) && Ordered(cur'[p.level + 1])
  }

  ghost predicate InSome(files: seq<File>, e: Entry) {
    exists f :: f in files && e in f.entries
  }

  /** Every entry of the files comes from one of the inputs. */
  ghost predicate ComesFrom(outs: seq<File>, inputs: seq<File>) {
    forall o, e :: o in outs && e in o.entries ==> InSome(inputs, e)
  }

  lemma SourceOf(outs: seq<File>, inputs: seq<File>, o: File, e: Entry) returns (f: File)
    requires ComesFrom(outs, inputs) && o in outs && e in o.entries
    ensures f in inputs && e in f.entries
  {
    assert InSome(inputs, e);
    f :| f in inputs && e in f.entries;
  }

  lemma NewerThanOutputs(g: File, outs: seq<File>, inputs: seq<File>)
    requires ComesFrom(outs, inputs)
    requires forall f :: f in inputs ==> FileNewer(g, f)
    ensures forall o :: o in outs ==> FileNewer(g, o)
  {
    forall o | o in outs ensures FileNewer(g, o) {
      forall x, y | x in g.entries && y in o.entries && x.key.user == y.key.user
        ensures x.key.sequence > y.key.sequence
      {
        var f := SourceOf(outs, inputs, o, y);
        assert FileNewer(g, f);
      }
    }
  }

  lemma OutputsNewerThan(g: File, outs: seq<File>, inputs: seq<File>)
    requires ComesFrom(outs, inputs)
    requires forall f :: f in inputs ==> FileNewer(f, g)
    ensures forall o :: o in outs ==> FileNewer(o, g)
  {
    forall o | o in outs ensures FileNewer(o, g) {
      forall x, y | x in o.entries && y in g.entries && x.key.user == y.key.user
        ensures x.key.sequence > y.key.sequence
      {
        var f := SourceOf(outs, inputs, o, x);
        assert FileNewer(f, g);
      }
    }
  }

  /** Outputs lie where the inputs lay, so a file aside of the inputs is apart from the outputs. */
  lemma AsideOfOutputs(g: File, outs: seq<File>, inputs: seq<File>)
    requires Aside(g, inputs)
    requires ComesFrom(outs, inputs)
    requires AllValid(inputs) && AllValid(outs)
    ensures forall o :: o in outs ==> KeysApart(g, o)
  {
    forall o | o in outs ensures KeysApart(g, o) {
      var f := SourceOf(outs, inputs, o, o.entries[0]);
      var h := SourceOf(outs, inputs, o, o.entries[|o.entries| - 1]);
      EntriesInRange(f);
      EntriesInRange(h);
    }
  }

  ghost predicate OutputsOrdered(outs: seq<File>) {
    forall f, g :: f in outs && g in outs && f != g ==> KeysApart(f, g)
  }

  lemma InstallNextDisjoint(files: seq<File>, in1: seq<File>, inputs: seq<File>, outs: seq<File>, files': seq<File>)
    requires Disjoint(files) && AllValid(files) && AllValid(inputs) && AllValid(outs)
    requires OthersAside(files, in1, inputs)
    requires ComesFrom(outs, inputs) && OutputsOrdered(outs)
    requires forall f :: f in files' <==> (f in files && f !in in1) || f in outs
    requires Ordered(files')
    ensures Disjoint(files')
  {
    hide Aside, ComesFrom, Ordered;
    forall f | f in files' ensures ValidFile(f) && AtMost(f.smallest, f.largest) {
      EntriesInRange(f);
    }
    DisjointApart(files);
    forall f, g | f in files' && g in files' && f != g
      ensures KeysApart(f, g)
    {
      if f in files && f !in in1 {
        AsideOfOutputs(f, outs, inputs);
      }
      if g in files && g !in in1 {
        AsideOfOutputs(g, outs, inputs);
      }
    }
    OrderedApart(files');
  }

  lemma SubDisjoint(files: seq<File>, files': seq<File>)
    requires Disjoint(files) && Ordered(files')
    requires forall f :: f in files' ==> f in files
    ensures Disjoint(files')
  {
    DisjointApart(files);
    OrderedApart(files');
  }

  /** Installing the results of a merge, or moving a file down, keeps the layer invariant. */
  lemma InstallKeepsLayers(cur: Version, base: Version, p: Plan, outs: seq<File>, cur': Version)
    requires Layered(cur) && Installable(cur, base, p)
    requires Installed(cur, p, outs, cur')
    requires AllValid(outs) && OutputsOrdered(outs) && ComesFrom(outs, p.in0 + p.in1)
    ensures Layered(cur')
  {
    hide Layered, FileNewer, ValidFile, Aside, NothingNewBelow, Ordered, ComesFrom, Disjoint;
    InputsProper(cur, p);
    forall l | 0 <= l < NUM_LEVELS ensures AllValid(cur'[l]) {
      LayeredLevel(cur, l);
    }
    InstallShaped(cur, base, p, outs, cur');
    InstallNumbered(cur, p, outs, cur');
    forall i, j | 0 <= i < j < NUM_LEVELS ensures AllNewer(cur'[i], cur'[j]) {
      InstallPair(cur, base, p, outs, cur', i, j);
    }
    LayeredFrom(cur');
  }

  lemma InstallShaped(cur: Version, base: Version, p: Plan, outs: seq<File>, cur': Version)
    requires Layered(cur) && Installable(cur, base, p)
    requires Installed(cur, p, outs, cur')
    requires AllValid(outs) && OutputsOrdered(outs) && ComesFrom(outs, p.in0 + p.in1)
    ensures Shaped(cur')
  {
    hide Layered, FileNewer, ValidFile, Aside, NothingNewBelow, Ordered, ComesFrom, Disjoint, OutputsOrdered, RestNewer;
    InputsProper(cur, p);
    LayeredLevel(cur, 0);
    assert forall f :: f in cur'[0] ==> f in cur[0];
    forall l | 1 <= l < NUM_LEVELS ensures Disjoint(cur'[l]) {
      LayeredLevel(cur, l);
      if l == p.level {
        SubDisjoint(cur[l], cur'[l]);
      } else if l == p.level + 1 {
        InstallNextDisjoint(cur[l], p.in1, p.in0 + p.in1, outs, cur'[l]);
      }
    }
  }

  lemma InstallNumbered(cur: Version, p: Plan, outs: seq<File>, cur': Version)
    requires Layered(cur)
    requires Installed(cur, p, outs, cur')
    ensures NumberedByAge(cur'[0])
  {
    LayeredLevel(cur, 0);
    assert forall f :: f in cur'[0] ==> f in cur[0];
  }

  lemma InstallPair(cur: Version, base: Version, p: Plan, outs: seq<File>, cur': Version, i: nat, j: nat)
    requires Layered(cur) && Installable(cur, base, p)
    requires Installed(cur, p, outs, cur')
    requires ComesFrom(outs, p.in0 + p.in1)
    requires i < j < NUM_LEVELS
    ensures AllNewer(cur'[i], cur'[j])
  {
    hide Layered, FileNewer, Aside, NothingNewBelow, Ordered, ComesFrom, OthersAside;
    LayeredPair(cur, i, j);
    var inputs := p.in0 + p.in1;
    forall f, g | f in cur'[i] && g in cur'[j]
      ensures FileNewer(f, g)
    {
      if j == p.level + 1 && g in outs {
        assert f in cur[i] && (i == p.level ==> f !in p.in0);
        ShallowerThanInputs(cur, base, p, i, f);
        NewerThanOutputs(f, outs, inputs);
      } else if i == p.level + 1 && f in outs {
        DeeperThanInputs(cur, p, j, g);
        OutputsNewerThan(g, outs, inputs);
      } else {
        assert f in cur[i] && g in cur[j];
      }
    }
  }

  lemma ShallowerThanInputs(cur: Version, base: Version, p: Plan, i: nat, f: File)
    requires Layered(cur) && Installable(cur, base, p)
    requires i <= p.level && f in cur[i] && (i == p.level ==> f !in p.in0)
    ensures forall g :: g in p.in0 + p.in1 ==> FileNewer(f, g)
  {
    hide FileNewer, Aside, NothingNewBelow, OthersAside, Shaped, NumberedByAge, AllValid;
    LayeredPair(cur, i, p.level + 1);
    if i < p.level {
      LayeredPair(cur, i, p.level);
    }
  }

  lemma DeeperThanInputs(cur: Version, p: Plan, j: nat, g: File)
    requires Layered(cur)
    requires p.level + 1 < j < NUM_LEVELS && g in cur[j]
    requires Subset(p.in0, cur[p.level]) && Subset(p.in1, cur[p.level + 1])
    ensures forall f :: f in p.in0 + p.in1 ==> FileNewer(f, g)
  {
    hide FileNewer, Shaped, NumberedByAge, AllValid;
    LayeredPair(cur, p.level, j);
    LayeredPair(cur, p.level + 1, j);
  }
}
