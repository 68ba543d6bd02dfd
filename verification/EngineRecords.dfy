/** The manifest as a list of edits: no file number enters a level twice, so one builder replays them all. */
module EngineRecords {
  import opened Keys
  import opened Files
  import opened Plans
  import opened Layers
  import opened Builders
  import opened Manifests
  import opened Engine
  import opened EngineEdits

  /** The level and number of every file that some edit adds. */
  ghost function Seen(edits: seq<Edit>): set<(nat, nat)> {
    if edits == [] then {} else Seen(edits[..|edits| - 1]) + AddedPairs(edits[|edits| - 1])
  }

  ghost function SeenNumbers(edits: seq<Edit>): set<nat> {
    set s | s in Seen(edits) :: s.1
  }

  /** Every file of the version was added where it is, and was never on a deeper level. */
  ghost predicate OnlySinks(seen: set<(nat, nat)>, v: Version) {
    forall l, f :: 0 <= l < |v| && f in v[l] ==>
      (l, f.number) in seen && forall m: nat :: (m, f.number) in seen ==> m <= l
  }

  /** The edits, none of which adds a number to a level again, lead from nothing to the version. */
  ghost predicate Recorded(edits: seq<Edit>, v: Version, bound: nat) {
    && (forall e :: e in edits ==> EditOk(e))
    && NeverReenters({}, edits) && ApplyEach(EmptyVersion(), edits) == v
    && (forall n :: n in SeenNumbers(edits) ==> n < bound)
    && OnlySinks(Seen(edits), v)
  }

  lemma SeenSnoc(edits: seq<Edit>, e: Edit)
    ensures Seen(edits + [e]) == Seen(edits) + AddedPairs(e)
    ensures SeenNumbers(edits + [e]) == SeenNumbers(edits) + (set a | a in e.added :: a.1.number)
  {
    assert (edits + [e])[..|edits|] == edits;
    forall n | n in SeenNumbers(edits + [e]) ensures n in SeenNumbers(edits) + (set a | a in e.added :: a.1.number) {
      var s :| s in Seen(edits + [e]) && s.1 == n;
      if s !in Seen(edits) {
        var a :| a in e.added && s == (a.0, a.1.number);
      }
    }
    forall n | n in SeenNumbers(edits) + (set a | a in e.added :: a.1.number) ensures n in SeenNumbers(edits + [e]) {
      if n in SeenNumbers(edits) {
        var s :| s in Seen(edits) && s.1 == n;
        assert s in Seen(edits + [e]);
      } else {
        var a :| a in e.added && a.1.number == n;
        assert (a.0, n) in AddedPairs(e);
      }
    }
  }

  lemma {:induction false} ApplyEachSnoc(v: Version, edits: seq<Edit>, e: Edit)
    requires |v| == NUM_LEVELS
    ensures ApplyEach(v, edits + [e]) == ApplyEdit(ApplyEach(v, edits), e)
    decreases |edits|
  {
    hide ApplyEdit;
    if edits == [] {
      assert edits + [e] == [e] && [e][1..] == [];
    } else {
      assert (edits + [e])[0] == edits[0] && (edits + [e])[1..] == edits[1..] + [e];
      ApplyEachSnoc(ApplyEdit(v, edits[0]), edits[1..], e);
    }
  }

  /** All pairs added by the edits, whichever end they are gathered from. */
  lemma {:induction false} SeenHead(edits: seq<Edit>)
    requires edits != []
    ensures Seen(edits) == AddedPairs(edits[0]) + Seen(edits[1..])
  {
    var n := |edits| - 1;
    if n == 0 {
      assert edits[..0] == [] && edits[1..] == [];
    } else {
      SeenHead(edits[..n]);
      assert edits[..n][1..] == edits[1..][..n - 1];
      assert edits[1..][n - 1] == edits[n];
    }
  }

  lemma {:induction false} NeverReentersSnoc(seen: set<(nat, nat)>, edits: seq<Edit>, e: Edit)
    requires NeverReenters(seen, edits) && AddsUnseen(seen + Seen(edits), e)
    ensures NeverReenters(seen, edits + [e])
    decreases |edits|
  {
    hide AddsUnseen, AddedPairs;
    if edits == [] {
      assert edits + [e] == [e] && [e][1..] == [];
      assert seen + Seen(edits) == seen;
    } else {
      assert (edits + [e])[0] == edits[0] && (edits + [e])[1..] == edits[1..] + [e];
      SeenHead(edits);
      assert seen + AddedPairs(edits[0]) + Seen(edits[1..]) == seen + Seen(edits);
      NeverReentersSnoc(seen + AddedPairs(edits[0]), edits[1..], e);
    }
  }

  lemma {:induction false} NeverReentersLast(seen: set<(nat, nat)>, edits: seq<Edit>, e: Edit)
    requires NeverReenters(seen, edits + [e])
    ensures AddsUnseen(seen + Seen(edits), e)
    decreases |edits|
  {
    hide AddsUnseen, AddedPairs;
    if edits == [] {
      assert edits + [e] == [e];
      assert seen + Seen(edits) == seen;
    } else {
      assert (edits + [e])[0] == edits[0] && (edits + [e])[1..] == edits[1..] + [e];
      SeenHead(edits);
      assert seen + AddedPairs(edits[0]) + Seen(edits[1..]) == seen + Seen(edits);
      NeverReentersLast(seen + AddedPairs(edits[0]), edits[1..], e);
    }
  }

  lemma RecordMore(edits: seq<Edit>, v: Version, bound: nat, e: Edit, bound': nat)
    requires Recorded(edits, v, bound) && bound <= bound' && |v| == NUM_LEVELS
    requires EditOk(e) && AddsUnseen(Seen(edits), e)
    requires forall a :: a in e.added ==> a.1.number < bound'
    requires OnlySinks(Seen(edits) + AddedPairs(e), ApplyEdit(v, e))
    ensures Recorded(edits + [e], ApplyEdit(v, e), bound')
    ensures SeenNumbers(edits + [e]) == SeenNumbers(edits) + (set a | a in e.added :: a.1.number)
  {
    hide ApplyEdit, AddsUnseen, AddedPairs, OnlySinks, EditOk, Seen, SeenNumbers, NeverReenters;
    SeenSnoc(edits, e);
    ApplyEachSnoc(EmptyVersion(), edits, e);
    assert {} + Seen(edits) == Seen(edits);
    NeverReentersSnoc({}, edits, e);
  }

  // ------------------------------------------------------------------ the edits of the engine

  /** Files with numbers of their own. */
  ghost predicate Unseen(edits: seq<Edit>, files: seq<File>) {
    && (forall f :: f in files ==> f.number !in SeenNumbers(edits))
    && (forall i, j :: 0 <= i < j < |files| ==> files[i].number != files[j].number)
  }

  lemma UnseenPair(edits: seq<Edit>, m: nat, n: nat)
    requires n !in SeenNumbers(edits)
    ensures (m, n) !in Seen(edits)
  {
    assert (m, n) in Seen(edits) ==> (m, n).1 in SeenNumbers(edits);
  }

  /** An edit that adds the files, all new, to one level. */
  ghost predicate AddsAt(e: Edit, level: nat, files: seq<File>) {
    level < NUM_LEVELS && EditOk(e) && e.added == seq(|files|, i requires 0 <= i < |files| => (level, files[i]))
  }

  lemma AddsAtMembers(e: Edit, level: nat, files: seq<File>, l: nat, f: File)
    requires AddsAt(e, level, files)
    ensures (l, f) in e.added <==> l == level && f in files
  {
    if l == level && f in files {
      var i :| 0 <= i < |files| && files[i] == f;
      assert e.added[i] == (l, f);
    }
  }

  /** An edit with new files is one more that adds no number again. */
  lemma RecordNew(edits: seq<Edit>, v: Version, bound: nat, e: Edit, level: nat, files: seq<File>, bound': nat)
    requires Recorded(edits, v, bound) && bound <= bound' && |v| == NUM_LEVELS && AllOrdered(v)
    requires AddsAt(e, level, files) && Unseen(edits, files)
    requires forall f :: f in files ==> f.number < bound'
    ensures Recorded(edits + [e], ApplyEdit(v, e), bound')
    ensures SeenNumbers(edits + [e]) == SeenNumbers(edits) + (set f | f in files :: f.number)
  {
    hide ApplyEdit, Seen, SeenNumbers, NeverReenters, ApplyEach, Ordered;
    forall a | a in e.added ensures a.0 == level && a.1 in files {
      AddsAtMembers(e, level, files, a.0, a.1);
    }
    forall a | a in e.added ensures (a.0, a.1.number) !in Seen(edits) {
      UnseenPair(edits, a.0, a.1.number);
    }
    SinksNew(edits, v, e, level, files);
    RecordMore(edits, v, bound, e, bound');
    forall f | f in files ensures exists a :: a in e.added && a.1.number == f.number {
      AddsAtMembers(e, level, files, level, f);
      assert (level, f) in e.added;
    }
  }

  lemma SinksNew(edits: seq<Edit>, v: Version, e: Edit, level: nat, files: seq<File>)
    requires |v| == NUM_LEVELS && AllOrdered(v) && OnlySinks(Seen(edits), v)
    requires AddsAt(e, level, files) && Unseen(edits, files)
    ensures OnlySinks(Seen(edits) + AddedPairs(e), ApplyEdit(v, e))
  {
    hide ApplyEdit, Seen, SeenNumbers, Ordered;
    assert AddsNew(v, e) by {
      forall a | a in e.added ensures a.0 == level && a.1 in files && Unnumbered(v[level], a.1.number) {
        AddsAtMembers(e, level, files, a.0, a.1);
        UnseenPair(edits, level, a.1.number);
      }
    }
    var v' := ApplyEdit(v, e);
    forall l: nat, f: File | l < |v'| && f in v'[l]
      ensures (l, f.number) in Seen(edits) + AddedPairs(e)
              && forall m: nat :: (m, f.number) in Seen(edits) + AddedPairs(e) ==> m <= l
    {
      EditMembers(v, e, l);
      AddedPairsAt(e, level, files);
      if (l, f) in e.added {
        AddsAtMembers(e, level, files, l, f);
        forall m: nat | (m, f.number) in Seen(edits) + AddedPairs(e) ensures m <= l {
          UnseenPair(edits, m, f.number);
        }
      } else {
        OldNotAdded(edits, v, e, level, files, l, f);
      }
    }
  }

  lemma AddedPairsAt(e: Edit, level: nat, files: seq<File>)
    requires AddsAt(e, level, files)
    ensures forall f :: f in files ==> (level, f.number) in AddedPairs(e)
    ensures forall s :: s in AddedPairs(e) ==> s.0 == level && exists f :: f in files && f.number == s.1
  {
    forall f | f in files ensures (level, f.number) in AddedPairs(e) {
      AddsAtMembers(e, level, files, level, f);
      assert (level, f) in e.added;
    }
    forall s | s in AddedPairs(e) ensures s.0 == level && exists f :: f in files && f.number == s.1 {
      var a :| a in e.added && s == (a.0, a.1.number);
      AddsAtMembers(e, level, files, a.0, a.1);
      assert a.1 in files;
    }
  }

  lemma OldNotAdded(edits: seq<Edit>, v: Version, e: Edit, level: nat, files: seq<File>, l: nat, f: File)
    requires |v| == NUM_LEVELS && OnlySinks(Seen(edits), v) && l < |v| && f in v[l]
    requires AddsAt(e, level, files) && Unseen(edits, files)
    ensures (l, f.number) in Seen(edits) && forall m: nat :: (m, f.number) in Seen(edits) + AddedPairs(e) ==> m <= l
  {
    hide Seen, SeenNumbers;
    AddedPairsAt(e, level, files);
    SeenListed(edits, l, f.number);
    assert forall m: nat :: (m, f.number) in AddedPairs(e) ==> exists g :: g in files && g.number == (m, f.number).1;
  }

  /** An edit that changes nothing. */
  lemma RecordNothing(edits: seq<Edit>, v: Version, bound: nat, bound': nat)
    requires Recorded(edits, v, bound) && bound <= bound' && |v| == NUM_LEVELS && AllOrdered(v)
    ensures ApplyEdit(v, Edit({}, [])) == v
    ensures Recorded(edits + [Edit({}, [])], v, bound')
    ensures SeenNumbers(edits + [Edit({}, [])]) == SeenNumbers(edits)
  {
    hide Recorded, ApplyEdit, SeenNumbers;
    var e := Edit({}, []);
    RecordNew(edits, v, bound, e, 0, [], bound');
    EmptyEdit(v);
    assert (set f: File | f in [] :: f.number) == {};
  }

  lemma EmptyEdit(v: Version)
    requires |v| == NUM_LEVELS && AllOrdered(v)
    ensures ApplyEdit(v, Edit({}, [])) == v
  {
    hide ApplyEdit, Ordered;
    var v' := ApplyEdit(v, Edit({}, []));
    forall l | 0 <= l < NUM_LEVELS ensures v'[l] == v[l] {
      EditMembers(v, Edit({}, []), l);
      OrderedUnique(v'[l], v[l]);
    }
  }

  /** A file that moves down comes to a level where its number has not been. */
  lemma RecordMove(edits: seq<Edit>, v: Version, bound: nat, p: Plan, f: File, bound': nat)
    requires Recorded(edits, v, bound) && bound <= bound' && |v| == NUM_LEVELS && NumbersIdentify(v) && AllOrdered(v)
    requires p.level + 1 < NUM_LEVELS && p.in0 == [f] && p.in1 == [] && f in v[p.level]
    ensures Recorded(edits + [MergeEdit(p, [f])], ApplyEdit(v, MergeEdit(p, [f])), bound')
    ensures SeenNumbers(edits + [MergeEdit(p, [f])]) == SeenNumbers(edits)
  {
    hide ApplyEdit, Seen, SeenNumbers, NeverReenters, ApplyEach, Ordered;
    var e := MergeEdit(p, [f]);
    assert e.added == [(p.level + 1, f)];
    assert f.number in SeenNumbers(edits) by { SeenListed(edits, p.level, f.number); }
    assert AddedPairs(e) == {(p.level + 1, f.number)} by {
      assert (p.level + 1, f) in e.added;
    }
    assert AddsUnseen(Seen(edits), e);
    SinksMoved(edits, v, p, f);
    RecordMore(edits, v, bound, e, bound');
    assert (set a | a in e.added :: a.1.number) == {f.number} by {
      assert (p.level + 1, f) in e.added;
    }
  }

  lemma SeenListed(edits: seq<Edit>, l: nat, n: nat)
    requires (l, n) in Seen(edits)
    ensures n in SeenNumbers(edits)
  {
    assert (l, n).1 == n;
  }

  lemma SinksMoved(edits: seq<Edit>, v: Version, p: Plan, f: File)
    requires |v| == NUM_LEVELS && NumbersIdentify(v) && AllOrdered(v) && OnlySinks(Seen(edits), v)
    requires p.level + 1 < NUM_LEVELS && p.in0 == [f] && p.in1 == [] && f in v[p.level]
    requires AddedPairs(MergeEdit(p, [f])) == {(p.level + 1, f.number)}
    ensures OnlySinks(Seen(edits) + AddedPairs(MergeEdit(p, [f])), ApplyEdit(v, MergeEdit(p, [f])))
  {
    hide ApplyEdit, Seen, Ordered, AddedPairs, MergeEdit;
    var e := MergeEdit(p, [f]);
    var v' := ApplyEdit(v, e);
    MergeEditInstalls(v, p, [f]);
    forall l: nat, g: File | l < |v'| && g in v'[l]
      ensures (l, g.number) in Seen(edits) + AddedPairs(e)
              && forall m: nat :: (m, g.number) in Seen(edits) + AddedPairs(e) ==> m <= l
    {
      MovedTo(v, p, f, v', l, g);
      if !(l == p.level + 1 && g == f) {
        assert g.number != f.number;
      }
    }
  }

  lemma MovedTo(v: Version, p: Plan, f: File, v': Version, l: nat, g: File)
    requires Installed(v, p, [f], v') && p.in0 == [f] && p.in1 == [] && f in v[p.level] && l < |v'| && g in v'[l]
    ensures (g in v[l] && !(l == p.level && g == f)) || (l == p.level + 1 && g == f)
  {
    assert f in p.in0 && (g in [f] <==> g == f);
  }

  lemma ListedIdentify(v: Version, l: nat, f: File, m: nat)
    requires NumbersIdentify(v) && l < |v| && f in v[l] && (m, f.number) in Listed(v)
    ensures m == l
  {
    var k: int, g: File :| 0 <= k < |v| && g in v[k] && (m, f.number) == (k, g.number);
  }

  /** A new manifest starts with all files of the version. */
  lemma RecordSnapshot(v: Version, bound: nat)
    requires AllOrdered(v) && NumbersIdentify(v)
    requires forall n :: n in Numbers(v) ==> n < bound
    ensures Recorded([SnapshotEdit(v)], v, bound)
    ensures SeenNumbers([SnapshotEdit(v)]) == Numbers(v)
  {
    hide ApplyEdit, Ordered, FilesOf, AddedPairs, NumbersIdentify;
    var e := SnapshotEdit(v);
    forall l | 0 <= l < |v| ensures NumbersDistinct(v[l]) {
      IdentifyDistinct(v, l);
    }
    SnapshotRestores(v);
    SnapshotOk(v);
    assert [e][1..] == [] && [e][..0] == [];
    assert Seen([e]) == Listed(v);
    assert NeverReenters({}, [e]);
    assert ApplyEach(EmptyVersion(), [e]) == ApplyEach(ApplyEdit(EmptyVersion(), e), []);
    forall l, f | 0 <= l < |v| && f in v[l]
      ensures (l, f.number) in Listed(v) && forall m: nat :: (m, f.number) in Listed(v) ==> m <= l
    {
      forall m: nat | (m, f.number) in Listed(v) ensures m <= l {
        ListedIdentify(v, l, f, m);
      }
    }
    ListedNumbers(v);
    assert SeenNumbers([e]) == set s | s in Listed(v) :: s.1;
  }

  lemma ListedNumbers(v: Version)
    ensures (set s | s in Listed(v) :: s.1) == Numbers(v)
  {
    forall n | n in Numbers(v) ensures n in (set s | s in Listed(v) :: s.1) {
      var l, f :| 0 <= l < |v| && f in v[l] && f.number == n;
      assert (l, f.number) in Listed(v);
      assert (l, n).1 == n;
    }
  }

  lemma IdentifyDistinct(v: Version, l: nat)
    requires NumbersIdentify(v) && AllOrdered(v) && l < |v|
    ensures NumbersDistinct(v[l])
  {
    forall i, j | 0 <= i < j < |v[l]| ensures v[l][i].number != v[l][j].number {
      assert BySmallest(v[l][i], v[l][j]);
    }
  }

  lemma RecordStart()
    ensures Recorded([Edit({}, [])], EmptyVersion(), 0)
  {
    hide ApplyEdit;
    assert Seen([]) == {};
    assert AllOrdered(EmptyVersion());
    assert NeverReenters({}, []) && ApplyEach(EmptyVersion(), []) == EmptyVersion();
    RecordNothing([], EmptyVersion(), 0, 0);
    assert [] + [Edit({}, [])] == [Edit({}, [])];
  }

  /** One builder fed with all the edits gives the version. */
  lemma RecordedReplays(edits: seq<Edit>, v: Version, bound: nat)
    requires Recorded(edits, v, bound)
    ensures SaveTo(EmptyVersion(), ApplyAll(Fresh(), edits)) == v
  {
    assert Listed(EmptyVersion()) == {};
    BuilderFolds(EmptyVersion(), edits);
  }
}
