/** Version edits and the Builder that applies them (db/version_set.cc, VersionSet::Builder). */
module Builders {
  import opened Keys
  import opened Files
  import opened Plans
  import opened Layers

  /** The file changes of a VersionEdit. */
  datatype Edit = Edit(deleted: set<(nat, nat)>, added: seq<(nat, File)>)

  ghost predicate EditOk(e: Edit) {
    && (forall d :: d in e.deleted ==> d.0 < NUM_LEVELS)
    && (forall a :: a in e.added ==> a.0 < NUM_LEVELS)
  }

  // ------------------------------------------------------------------ one level

  function Kept(f: File, deleted: set<nat>): seq<File> {
    if f.number in deleted then [] else [f]
  }

  /** SaveTo on one level: merge the added files into the base files, dropping deleted numbers. */
  function SaveLevel(base: seq<File>, added: seq<File>, deleted: set<nat>): seq<File>
    decreases |base| + |added|
  {
    if added == [] then
      if base == [] then [] else Kept(base[0], deleted) + SaveLevel(base[1..], added, deleted)
    else if base != [] && !BySmallest(added[0], base[0]) then
      Kept(base[0], deleted) + SaveLevel(base[1..], added, deleted)
    else
      Kept(added[0], deleted) + SaveLevel(base, added[1..], deleted)
  }

  lemma {:induction false} SaveLevelMembers(base: seq<File>, added: seq<File>, deleted: set<nat>, f: File)
    ensures f in SaveLevel(base, added, deleted) <==> (f in base || f in added) && f.number !in deleted
    decreases |base| + |added|
  {
    if base != [] && (added == [] || !BySmallest(added[0], base[0])) {
      SaveLevelMembers(base[1..], added, deleted, f);
      assert base == [base[0]] + base[1..];
    } else if added != [] {
      SaveLevelMembers(base, added[1..], deleted, f);
      assert added == [added[0]] + added[1..];
    }
  }

  /** No file of one list has both the smallest key and the number of a file of the other. */
  ghost predicate NoClash(base: seq<File>, added: seq<File>) {
    forall f, g :: f in base && g in added ==> BySmallest(f, g) || BySmallest(g, f)
  }

  lemma OrderedTail(files: seq<File>)
    requires Ordered(files) && files != []
    ensures Ordered(files[1..])
    ensures forall f :: f in files[1..] ==> BySmallest(files[0], f)
  {
    forall f | f in files[1..] ensures BySmallest(files[0], f) {
      var i :| 0 <= i < |files[1..]| && files[1..][i] == f;
      assert files[i + 1] == f;
    }
  }

  lemma OrderedCons(f: File, files: seq<File>)
    requires Ordered(files)
    requires forall g :: g in files ==> BySmallest(f, g)
    ensures Ordered([f] + files)
  {
    forall i, j | 0 <= i < j < |[f] + files|
      ensures BySmallest(([f] + files)[i], ([f] + files)[j])
    {
      assert ([f] + files)[j] == files[j - 1];
      assert files[j - 1] in files;
    }
  }

  lemma {:induction false} SaveLevelOrdered(base: seq<File>, added: seq<File>, deleted: set<nat>)
    requires Ordered(base) && Ordered(added) && NoClash(base, added)
    ensures Ordered(SaveLevel(base, added, deleted))
    decreases |base| + |added|
  {
    hide Ordered;
    if base == [] && added == [] {
      OrderedNothing();
    } else if base != [] && (added == [] || !BySmallest(added[0], base[0])) {
      OrderedTail(base);
      assert base == [base[0]] + base[1..];
      SaveLevelOrdered(base[1..], added, deleted);
      var rest := SaveLevel(base[1..], added, deleted);
      if added != [] {
        OrderedTail(added);
        assert added == [added[0]] + added[1..];
      }
      forall g | g in rest ensures BySmallest(base[0], g) {
        SaveLevelMembers(base[1..], added, deleted, g);
      }
      OrderedCons(base[0], rest);
      assert SaveLevel(base, added, deleted) == Kept(base[0], deleted) + rest;
      assert [] + rest == rest;
    } else {
      OrderedTail(added);
      assert added == [added[0]] + added[1..];
      SaveLevelOrdered(base, added[1..], deleted);
      var rest := SaveLevel(base, added[1..], deleted);
      if base != [] {
        OrderedTail(base);
        assert base == [base[0]] + base[1..];
      }
      forall g | g in rest ensures BySmallest(added[0], g) {
        SaveLevelMembers(base, added[1..], deleted, g);
      }
      OrderedCons(added[0], rest);
      assert SaveLevel(base, added, deleted) == Kept(added[0], deleted) + rest;
      assert [] + rest == rest;
    }
  }

  lemma OrderedNothing()
    ensures Ordered([])
  {
  }

  /** The order decides the list: two ordered lists with the same files are equal. */
  lemma {:induction false} OrderedUnique(a: seq<File>, b: seq<File>)
    requires Ordered(a) && Ordered(b)
    requires forall f :: f in a <==> f in b
    ensures a == b
  {
    hide Ordered;
    assert a != [] ==> a[0] in a;
    assert b != [] ==> b[0] in b;
    if a != [] && b != [] {
      OrderedTail(a);
      OrderedTail(b);
      assert a == [a[0]] + a[1..] && b == [b[0]] + b[1..];
      assert a[0] in a && b[0] in b;
      assert a[0] == b[0];
      forall f ensures f in a[1..] <==> f in b[1..] {
        assert f in a[1..] ==> f in a;
        assert f in b[1..] ==> f in b;
      }
      OrderedUnique(a[1..], b[1..]);
    }
  }

  // ------------------------------------------------------------------ a builder

  /** Numbers deleted from and files added to each level so far. */
  datatype Pending = Pending(deleted: seq<set<nat>>, added: seq<seq<File>>)

  /** Insertion into the ordered set of added files: an equal element is not inserted twice. */
  function InsertFile(files: seq<File>, f: File): seq<File> {
    if files == [] then [f]
    else if BySmallest(files[0], f) then [files[0]] + InsertFile(files[1..], f)
    else if BySmallest(f, files[0]) then [f] + files
    else files
  }

  ghost predicate NoTwin(files: seq<File>, f: File) {
    forall g :: g in files ==> BySmallest(f, g) || BySmallest(g, f)
  }

  lemma {:induction false} InsertFileMembers(files: seq<File>, f: File)
    requires Ordered(files)
    ensures Ordered(InsertFile(files, f))
    ensures forall g :: g in InsertFile(files, f) ==> g in files || g == f
    ensures NoTwin(files, f) ==> forall g :: g in InsertFile(files, f) <==> g in files || g == f
  {
    hide Ordered;
    if files == [] {
      OrderedOne(f);
    } else {
      OrderedTail(files);
      assert files == [files[0]] + files[1..];
      if BySmallest(files[0], f) {
        InsertFileMembers(files[1..], f);
        OrderedCons(files[0], InsertFile(files[1..], f));
      } else if BySmallest(f, files[0]) {
        forall g | g in files ensures BySmallest(f, g) {
          assert g == files[0] || g in files[1..];
        }
        OrderedCons(f, files);
      } else {
        assert files[0] in files;
      }
    }
  }

  lemma OrderedOne(f: File)
    ensures Ordered([f])
  {
  }

  /** The numbers added to level `l` by the first `n` new files. */
  function AddedNumbers(added: seq<(nat, File)>, l: nat, n: nat): set<nat>
    requires n <= |added|
  {
    set i | 0 <= i < n && added[i].0 == l :: added[i].1.number
  }

  function DeletedNumbers(e: Edit, l: nat): set<nat> {
    set d | d in e.deleted && d.0 == l :: d.1
  }

  function InsertAll(files: seq<File>, added: seq<(nat, File)>, l: nat, n: nat): seq<File>
    requires n <= |added|
  {
    if n == 0 then files
    else
      var before := InsertAll(files, added, l, n - 1);
      if added[n - 1].0 == l then InsertFile(before, added[n - 1].1) else before
  }

  /** What Apply leaves in the builder. */
  function ApplyTo(p: Pending, e: Edit): (r: Pending)
    requires |p.deleted| == |p.added| == NUM_LEVELS
    ensures |r.deleted| == |r.added| == NUM_LEVELS
  {
    Pending(seq(NUM_LEVELS, l requires 0 <= l < NUM_LEVELS =>
                  p.deleted[l] + DeletedNumbers(e, l) - AddedNumbers(e.added, l, |e.added|)),
            seq(NUM_LEVELS, l requires 0 <= l < NUM_LEVELS => InsertAll(p.added[l], e.added, l, |e.added|)))
  }

  function Fresh(): (p: Pending)
    ensures |p.deleted| == |p.added| == NUM_LEVELS
  {
    Pending(seq(NUM_LEVELS, _ => {}), seq(NUM_LEVELS, _ => []))
  }

  function SaveTo(base: Version, p: Pending): (v: Version)
    requires |base| == |p.deleted| == |p.added| == NUM_LEVELS
    ensures |v| == NUM_LEVELS
  {
    seq(NUM_LEVELS, l requires 0 <= l < NUM_LEVELS => SaveLevel(base[l], p.added[l], p.deleted[l]))
  }

  class Builder {
    const base: Version
    var deleted: seq<set<nat>>
    var added: seq<seq<File>>

    function State(): Pending
      reads this
    {
      Pending(deleted, added)
    }

    ghost predicate Valid()
      reads this
    {
      |base| == |deleted| == |added| == NUM_LEVELS
    }

    constructor (base: Version)
      requires |base| == NUM_LEVELS
      ensures Valid() && this.base == base && State() == Fresh()
    {
      this.base := base;
      deleted := seq(NUM_LEVELS, _ => {});
      added := seq(NUM_LEVELS, _ => []);
    }

    /** Record the deletions, then the new files; a new file takes its number back from the deletions. */
    method Apply(e: Edit)
      requires Valid() && EditOk(e)
      modifies this
      ensures Valid() && State() == ApplyTo(old(State()), e)
    {
      hide InsertFile, DeletedNumbers, AddedNumbers;
      ghost var was := State();
      var afterDeletions := RecordDeletions(deleted, e);
      deleted := afterDeletions;
      forall l | 0 <= l < NUM_LEVELS ensures AddedNumbers(e.added, l, 0) == {} {
        AddedNumbersNone(e.added, l);
      }
      for i := 0 to |e.added|
        invariant Valid()
        invariant forall l :: 0 <= l < NUM_LEVELS ==>
                    deleted[l] == was.deleted[l] + DeletedNumbers(e, l) - AddedNumbers(e.added, l, i)
        invariant forall l :: 0 <= l < NUM_LEVELS ==> added[l] == InsertAll(was.added[l], e.added, l, i)
      {
        var (level, f) := e.added[i];
        assert e.added[i] in e.added;
        forall l | 0 <= l < NUM_LEVELS
          ensures AddedNumbers(e.added, l, i + 1) == AddedNumbers(e.added, l, i)
                  + (if l == level then {f.number} else {})
        {
          AddedNumbersStep(e.added, l, i);
        }
        deleted := deleted[level := deleted[level] - {f.number}];
        added := added[level := InsertFile(added[level], f)];
      }
    }

    /** Merge the added files of each level into its base files. */
    method Save() returns (v: Version)
      requires Valid()
      ensures v == SaveTo(base, State())
    {
      v := [];
      for l := 0 to NUM_LEVELS
        invariant |v| == l
        invariant forall m :: 0 <= m < l ==> v[m] == SaveLevel(base[m], added[m], deleted[m])
      {
        var files := SaveOneLevel(base[l], added[l], deleted[l]);
        v := v + [files];
      }
    }
  }

  lemma AddedNumbersNone(added: seq<(nat, File)>, l: nat)
    ensures AddedNumbers(added, l, 0) == {}
  {
  }

  lemma AddedNumbersStep(added: seq<(nat, File)>, l: nat, n: nat)
    requires n < |added|
    ensures AddedNumbers(added, l, n + 1) == AddedNumbers(added, l, n)
            + (if l == added[n].0 then {added[n].1.number} else {})
  {
  }

  lemma TakeBase(base: seq<File>, added: seq<File>, deleted: set<nat>, b: nat, a: nat, files: seq<File>)
    requires b < |base| && a <= |added|
    requires a < |added| ==> !BySmallest(added[a], base[b])
    ensures files + Kept(base[b], deleted) + SaveLevel(base[b + 1..], added[a..], deleted)
            == files + SaveLevel(base[b..], added[a..], deleted)
  {
    assert base[b..][1..] == base[b + 1..];
  }

  lemma TakeAdded(base: seq<File>, added: seq<File>, deleted: set<nat>, b: nat, a: nat, files: seq<File>)
    requires b <= |base| && a < |added|
    requires b < |base| ==> BySmallest(added[a], base[b])
    ensures files + Kept(added[a], deleted) + SaveLevel(base[b..], added[a + 1..], deleted)
            == files + SaveLevel(base[b..], added[a..], deleted)
  {
    assert added[a..][1..] == added[a + 1..];
  }

  method SaveOneLevel(base: seq<File>, added: seq<File>, deleted: set<nat>) returns (files: seq<File>)
    ensures files == SaveLevel(base, added, deleted)
  {
    hide SaveLevel, BySmallest, Kept;
    files := [];
    var b := 0;
    assert base[0..] == base && added[0..] == added;
    for a := 0 to |added|
      invariant b <= |base|
      invariant files + SaveLevel(base[b..], added[a..], deleted) == SaveLevel(base, added, deleted)
    {
      while b < |base| && !BySmallest(added[a], base[b])
        invariant b <= |base|
        invariant files + SaveLevel(base[b..], added[a..], deleted) == SaveLevel(base, added, deleted)
      {
        TakeBase(base, added, deleted, b, a, files);
        files := files + Kept(base[b], deleted);
        b := b + 1;
      }
      TakeAdded(base, added, deleted, b, a, files);
      files := files + Kept(added[a], deleted);
    }
    while b < |base|
      invariant b <= |base|
      invariant files + SaveLevel(base[b..], added[|added|..], deleted) == SaveLevel(base, added, deleted)
    {
      TakeBase(base, added, deleted, b, |added|, files);
      files := files + Kept(base[b], deleted);
      b := b + 1;
    }
    SaveNothing(base, added, deleted);
  }

  lemma SaveNothing(base: seq<File>, added: seq<File>, deleted: set<nat>)
    ensures SaveLevel(base[|base|..], added[|added|..], deleted) == []
  {
  }

  method RecordDeletions(deleted: seq<set<nat>>, e: Edit) returns (r: seq<set<nat>>)
    requires |deleted| == NUM_LEVELS && EditOk(e)
    ensures |r| == NUM_LEVELS
    ensures forall l :: 0 <= l < NUM_LEVELS ==> r[l] == deleted[l] + DeletedNumbers(e, l)
  {
    r := deleted;
    var todo := e.deleted;
    while todo != {}
      invariant |r| == NUM_LEVELS && todo <= e.deleted
      invariant forall l :: 0 <= l < NUM_LEVELS ==>
                  r[l] == deleted[l] + (set d | d in e.deleted - todo && d.0 == l :: d.1)
    {
      var d :| d in todo;
      todo := todo - {d};
      r := r[d.0 := r[d.0] + {d.1}];
      assert e.deleted - todo == e.deleted - (todo + {d}) + {d};
    }
    assert e.deleted - todo == e.deleted;
  }

  // ------------------------------------------------------------------ many edits in one builder

  /** LogAndApply: a builder for one edit. */
  function ApplyEdit(v: Version, e: Edit): (r: Version)
    requires |v| == NUM_LEVELS
    ensures |r| == NUM_LEVELS
  {
    SaveTo(v, ApplyTo(Fresh(), e))
  }

  /** One version at a time. */
  function ApplyEach(v: Version, edits: seq<Edit>): (r: Version)
    requires |v| == NUM_LEVELS
    ensures |r| == NUM_LEVELS
    decreases |edits|
  {
    if edits == [] then v else ApplyEach(ApplyEdit(v, edits[0]), edits[1..])
  }

  /** One builder for all, as in recovery. */
  function ApplyAll(p: Pending, edits: seq<Edit>): (r: Pending)
    requires |p.deleted| == |p.added| == NUM_LEVELS
    ensures |r.deleted| == |r.added| == NUM_LEVELS
    decreases |edits|
  {
    if edits == [] then p else ApplyAll(ApplyTo(p, edits[0]), edits[1..])
  }

  function AddedPairs(e: Edit): set<(nat, nat)> {
    set a | a in e.added :: (a.0, a.1.number)
  }

  /** The edit adds no number to a level that has seen it, nor any twice. */
  ghost predicate AddsUnseen(seen: set<(nat, nat)>, e: Edit) {
    && (forall a :: a in e.added ==> (a.0, a.1.number) !in seen)
    && (forall i, j :: 0 <= i < j < |e.added| ==>
          e.added[i].0 != e.added[j].0 || e.added[i].1.number != e.added[j].1.number)
  }

  /** No file number enters the same level twice. */
  ghost predicate NeverReenters(seen: set<(nat, nat)>, edits: seq<Edit>)
    decreases |edits|
  {
    edits == [] || (AddsUnseen(seen, edits[0]) && NeverReenters(seen + AddedPairs(edits[0]), edits[1..]))
  }

  ghost function Listed(v: Version): set<(nat, nat)> {
    set l, f | 0 <= l < |v| && f in v[l] :: (l, f.number)
  }

  lemma DifferentNumbers(f: File, g: File)
    requires f.number != g.number
    ensures BySmallest(f, g) || BySmallest(g, f)
  {
  }

  ghost predicate Unnumbered(files: seq<File>, number: nat) {
    forall f :: f in files ==> f.number != number
  }

  lemma {:induction false} InsertAllMembers(files: seq<File>, added: seq<(nat, File)>, l: nat, n: nat)
    requires Ordered(files) && n <= |added|
    requires forall i :: 0 <= i < n && added[i].0 == l ==> Unnumbered(files, added[i].1.number)
    requires forall i, j :: 0 <= i < j < n ==> added[i].0 != added[j].0 || added[i].1.number != added[j].1.number
    ensures Ordered(InsertAll(files, added, l, n))
    ensures forall f :: f in InsertAll(files, added, l, n) <==> f in files || (l, f) in added[..n]
  {
    hide Ordered;
    if n > 0 {
      InsertAllMembers(files, added, l, n - 1);
      var before := InsertAll(files, added, l, n - 1);
      assert added[..n] == added[..n - 1] + [added[n - 1]];
      if added[n - 1].0 == l {
        var f := added[n - 1].1;
        forall g | g in before ensures BySmallest(f, g) || BySmallest(g, f) {
          if g !in files {
            var i :| 0 <= i < n - 1 && added[..n - 1][i] == (l, g);
            assert added[i] == (l, g);
          }
          DifferentNumbers(f, g);
        }
        InsertFileMembers(before, f);
      }
    }
  }

  /** One level of one step: the long-lived builder and the fresh one give the same list. */
  lemma LevelAgrees(base: seq<File>, added: seq<File>, deleted: set<nat>, w: seq<File>, e: Edit, l: nat)
    requires Ordered(base) && Ordered(added)
    requires w == SaveLevel(base, added, deleted)
    requires forall f, g :: f in base && g in added ==> f.number != g.number
    requires forall i :: 0 <= i < |e.added| && e.added[i].0 == l ==>
               Unnumbered(base, e.added[i].1.number) && Unnumbered(added, e.added[i].1.number)
    requires forall i, j :: 0 <= i < j < |e.added| ==>
               e.added[i].0 != e.added[j].0 || e.added[i].1.number != e.added[j].1.number
    ensures SaveLevel(base, InsertAll(added, e.added, l, |e.added|),
                      deleted + DeletedNumbers(e, l) - AddedNumbers(e.added, l, |e.added|))
            == SaveLevel(w, InsertAll([], e.added, l, |e.added|),
                         {} + DeletedNumbers(e, l) - AddedNumbers(e.added, l, |e.added|))
    ensures forall f, g :: f in base && g in InsertAll(added, e.added, l, |e.added|) ==> f.number != g.number
    ensures Ordered(InsertAll(added, e.added, l, |e.added|))
  {
    hide Ordered, InsertAll, SaveLevel, BySmallest;
    var n := |e.added|;
    var news, dels := AddedNumbers(e.added, l, n), DeletedNumbers(e, l);
    var more, only := InsertAll(added, e.added, l, n), InsertAll([], e.added, l, n);
    assert e.added[..n] == e.added;
    OrderedNothing();
    InsertAllMembers(added, e.added, l, n);
    InsertAllMembers([], e.added, l, n);
    forall f | f in only ensures f.number in news && Unnumbered(base, f.number) && Unnumbered(added, f.number) {
      assert (l, f) in e.added;
    }
    forall f | f in base || f in added ensures f.number !in news {
    }
    forall f ensures f in w <==> (f in base || f in added) && f.number !in deleted {
      SaveLevelMembers(base, added, deleted, f);
    }
    NumbersApart(base, more);
    NumbersApart(w, only);
    NumbersApart(base, added);
    SaveLevelOrdered(base, added, deleted);
    SaveLevelOrdered(base, more, deleted + dels - news);
    SaveLevelOrdered(w, only, {} + dels - news);
    forall f ensures f in SaveLevel(base, more, deleted + dels - news) <==> f in SaveLevel(w, only, {} + dels - news) {
      SaveLevelMembers(base, more, deleted + dels - news, f);
      SaveLevelMembers(w, only, {} + dels - news, f);
    }
    OrderedUnique(SaveLevel(base, more, deleted + dels - news), SaveLevel(w, only, {} + dels - news));
  }

  lemma NumbersApart(a: seq<File>, b: seq<File>)
    requires forall f, g :: f in a && g in b ==> f.number != g.number
    ensures NoClash(a, b)
  {
    forall f, g | f in a && g in b ensures BySmallest(f, g) || BySmallest(g, f) {
      DifferentNumbers(f, g);
    }
  }

  /** What links a builder in the middle of its edits to the version reached one edit at a time. */
  ghost predicate InStep(base: Version, p: Pending, w: Version, seen: set<(nat, nat)>) {
    && |base| == |w| == |p.deleted| == |p.added| == NUM_LEVELS
    && w == SaveTo(base, p)
    && forall l :: 0 <= l < NUM_LEVELS ==> LevelInStep(base[l], p.added[l], l, seen)
  }

  ghost predicate LevelInStep(base: seq<File>, added: seq<File>, l: nat, seen: set<(nat, nat)>) {
    && Ordered(base) && Ordered(added)
    && (forall f, g :: f in base && g in added ==> f.number != g.number)
    && (forall f :: f in base || f in added ==> (l, f.number) in seen)
  }

  lemma StepLevel(base: seq<File>, added: seq<File>, deleted: set<nat>, w: seq<File>, e: Edit, l: nat,
                  seen: set<(nat, nat)>)
    requires LevelInStep(base, added, l, seen)
    requires w == SaveLevel(base, added, deleted)
    requires AddsUnseen(seen, e)
    ensures LevelInStep(base, InsertAll(added, e.added, l, |e.added|), l, seen + AddedPairs(e))
    ensures SaveLevel(base, InsertAll(added, e.added, l, |e.added|),
                      deleted + DeletedNumbers(e, l) - AddedNumbers(e.added, l, |e.added|))
            == SaveLevel(w, InsertAll([], e.added, l, |e.added|),
                         {} + DeletedNumbers(e, l) - AddedNumbers(e.added, l, |e.added|))
  {
    hide Ordered, InsertAll, SaveLevel;
    forall i | 0 <= i < |e.added| && e.added[i].0 == l
      ensures Unnumbered(base, e.added[i].1.number) && Unnumbered(added, e.added[i].1.number)
    {
      assert e.added[i] in e.added;
    }
    LevelAgrees(base, added, deleted, w, e, l);
    InsertAllMembers(added, e.added, l, |e.added|);
    assert e.added[..|e.added|] == e.added;
    forall f | f in base || f in InsertAll(added, e.added, l, |e.added|)
      ensures (l, f.number) in seen + AddedPairs(e)
    {
      if f !in base && f !in added {
        assert (l, f) in e.added;
      }
    }
  }

  lemma Step(base: Version, p: Pending, w: Version, seen: set<(nat, nat)>, e: Edit)
    requires InStep(base, p, w, seen)
    requires AddsUnseen(seen, e)
    ensures InStep(base, ApplyTo(p, e), ApplyEdit(w, e), seen + AddedPairs(e))
  {
    hide SaveLevel, InsertAll, DeletedNumbers, AddedNumbers, LevelInStep, AddsUnseen, AddedPairs;
    var p', w' := ApplyTo(p, e), ApplyEdit(w, e);
    forall l | 0 <= l < NUM_LEVELS
      ensures LevelInStep(base[l], p'.added[l], l, seen + AddedPairs(e)) && w'[l] == SaveTo(base, p')[l]
    {
      StepLevel(base[l], p.added[l], p.deleted[l], w[l], e, l, seen);
    }
    assert w' == SaveTo(base, p');
  }

  lemma {:induction false} Fold(base: Version, p: Pending, w: Version, seen: set<(nat, nat)>, edits: seq<Edit>)
    requires InStep(base, p, w, seen)
    requires NeverReenters(seen, edits)
    ensures SaveTo(base, ApplyAll(p, edits)) == ApplyEach(w, edits)
    ensures exists seen' :: InStep(base, ApplyAll(p, edits), ApplyEach(w, edits), seen')
    decreases |edits|
  {
    if edits != [] {
      Step(base, p, w, seen, edits[0]);
      Fold(base, ApplyTo(p, edits[0]), ApplyEdit(w, edits[0]), seen + AddedPairs(edits[0]), edits[1..]);
    }
  }

  ghost predicate AllOrdered(v: Version) {
    |v| == NUM_LEVELS && forall l :: 0 <= l < NUM_LEVELS ==> Ordered(v[l])
  }

  lemma StartInStep(v: Version)
    requires AllOrdered(v)
    ensures InStep(v, Fresh(), v, Listed(v))
  {
    forall l | 0 <= l < NUM_LEVELS
      ensures LevelInStep(v[l], Fresh().added[l], l, Listed(v)) && SaveTo(v, Fresh())[l] == v[l]
    {
      SaveUnchanged(v[l]);
      assert forall f :: f in v[l] ==> (l, f.number) in Listed(v);
    }
  }

  lemma {:induction false} SaveUnchanged(files: seq<File>)
    ensures SaveLevel(files, [], {}) == files
  {
    if files != [] {
      SaveUnchanged(files[1..]);
    }
  }

  /** Applying any history of edits in one builder equals applying them one version at a time, when
      no file number enters the same level twice. */
  lemma BuilderFolds(v: Version, edits: seq<Edit>)
    requires AllOrdered(v)
    requires NeverReenters(Listed(v), edits)
    ensures SaveTo(v, ApplyAll(Fresh(), edits)) == ApplyEach(v, edits)
  {
    StartInStep(v);
    Fold(v, Fresh(), v, Listed(v), edits);
  }

  /** Without the condition it fails: a number that left a level and came back is listed twice. */
  lemma ReentryBreaksFolding(f: File)
    ensures var v: Version := [[], [f], [], [], [], [], []];
            var edits := [Edit({(1, f.number)}, []), Edit({}, [(1, f)])];
            && ApplyEach(v, edits)[1] == [f]
            && SaveTo(v, ApplyAll(Fresh(), edits))[1] == [f, f]
  {
    var v: Version := [[], [f], [], [], [], [], []];
    var e0, e1 := Edit({(1, f.number)}, []), Edit({}, [(1, f)]);
    TwoEdits(v, e0, e1);
    assert DeletedNumbers(e0, 1) == {f.number} by {
      assert (1, f.number) in e0.deleted;
    }
    assert AddedNumbers(e1.added, 1, 1) == {f.number} by {
      assert e1.added[0].1.number == f.number;
    }
    assert InsertAll([], e1.added, 1, 1) == [f];
    var p := ApplyTo(Fresh(), e0);
    assert p.deleted[1] == {f.number};
    assert ApplyEdit(v, e0)[1] == SaveLevel([f], [], {f.number}) == [];
    assert ApplyTo(Fresh(), e1).added[1] == [f] && ApplyTo(Fresh(), e1).deleted[1] == {};
    assert ApplyEdit(ApplyEdit(v, e0), e1)[1] == SaveLevel([], [f], {}) == [f];
    var q := ApplyTo(p, e1);
    assert q.added[1] == [f] && q.deleted[1] == {};
    assert SaveTo(v, q)[1] == SaveLevel([f], [f], {});
    assert SaveLevel([f], [f], {}) == [f] + SaveLevel([], [f], {});
  }

  lemma TwoEdits(v: Version, e0: Edit, e1: Edit)
    requires |v| == NUM_LEVELS
    ensures ApplyEach(v, [e0, e1]) == ApplyEdit(ApplyEdit(v, e0), e1)
    ensures ApplyAll(Fresh(), [e0, e1]) == ApplyTo(ApplyTo(Fresh(), e0), e1)
  {
    assert [e0, e1][1..] == [e1] && [e1][1..] == [];
    var w, p := ApplyEdit(v, e0), ApplyTo(Fresh(), e0);
    assert ApplyEach(w, [e1]) == ApplyEach(ApplyEdit(w, e1), []);
    assert ApplyAll(p, [e1]) == ApplyAll(ApplyTo(p, e1), []);
  }
}
