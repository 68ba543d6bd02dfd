/** What the edits of the engine do to the lists of files. */
module EngineEdits {
  import opened Keys
  import opened Files
  import opened Plans
  import opened Layers
  import opened Builders
  import opened Engine

  /** A number names one file, on one level. */
  ghost predicate NumbersIdentify(v: Version) {
    forall l, m, f, g :: 0 <= l < |v| && 0 <= m < |v| && f in v[l] && g in v[m] && f.number == g.number ==>
      f == g && l == m
  }

  /** The files added to a level have new numbers there. */
  ghost predicate AddsNew(v: Version, e: Edit) {
    && EditOk(e)
    && (forall a :: a in e.added && a.0 < |v| ==> Unnumbered(v[a.0], a.1.number))
    && (forall i, j :: 0 <= i < j < |e.added| ==>
          e.added[i].0 != e.added[j].0 || e.added[i].1.number != e.added[j].1.number)
  }

  lemma EditMembers(v: Version, e: Edit, l: nat)
    requires AllOrdered(v) && l < NUM_LEVELS
    requires AddsNew(v, e)
    ensures Ordered(ApplyEdit(v, e)[l])
    ensures forall f :: f in ApplyEdit(v, e)[l] <==>
                          (f in v[l] && f.number !in DeletedNumbers(e, l)) || (l, f) in e.added
  {
    hide Ordered, InsertAll, SaveLevel, BySmallest;
    var n := |e.added|;
    var only := InsertAll([], e.added, l, n);
    var news := AddedNumbers(e.added, l, n);
    var dels := {} + DeletedNumbers(e, l) - news;
    assert e.added[..n] == e.added;
    OrderedNothing();
    InsertAllMembers([], e.added, l, n);
    forall f | f in only ensures f.number in news && Unnumbered(v[l], f.number) {
      assert (l, f) in e.added;
    }
    NumbersApart(v[l], only);
    SaveLevelOrdered(v[l], only, dels);
    forall f
      ensures f in SaveLevel(v[l], only, dels)
              <==> (f in v[l] && f.number !in DeletedNumbers(e, l)) || (l, f) in e.added
    {
      SaveLevelMembers(v[l], only, dels, f);
      if f in v[l] {
        NotNew(v, e, l, f);
      }
    }
    assert ApplyEdit(v, e)[l] == SaveLevel(v[l], only, dels);
  }

  lemma NotNew(v: Version, e: Edit, l: nat, f: File)
    requires l < |v| && f in v[l]
    requires AddsNew(v, e)
    ensures f.number !in AddedNumbers(e.added, l, |e.added|)
    ensures (l, f) !in e.added
  {
    forall i | 0 <= i < |e.added| && e.added[i].0 == l
      ensures e.added[i].1.number != f.number
    {
      assert e.added[i] in e.added;
    }
  }

  // ------------------------------------------------------------------ flush

  lemma FlushEditAdds(v: Version, level: nat, f: File)
    requires AllOrdered(v) && level < NUM_LEVELS
    requires f.number !in Numbers(v)
    ensures FileAdded(v, level, f, ApplyEdit(v, FlushEdit(level, f)))
    ensures AllOrdered(ApplyEdit(v, FlushEdit(level, f)))
  {
    hide Ordered, ApplyEdit;
    var e := FlushEdit(level, f);
    assert AddsNew(v, e) by {
      forall g | g in v[level] ensures g.number != f.number {
        assert g.number in Numbers(v);
      }
    }
    forall l | 0 <= l < NUM_LEVELS
      ensures Ordered(ApplyEdit(v, e)[l])
      ensures l != level ==> ApplyEdit(v, e)[l] == v[l]
    {
      EditMembers(v, e, l);
      if l != level {
        forall g ensures g in ApplyEdit(v, e)[l] <==> g in v[l] {
        }
        OrderedUnique(ApplyEdit(v, e)[l], v[l]);
      }
    }
    EditMembers(v, e, level);
    assert e.added[0] == (level, f);
  }

  // ------------------------------------------------------------------ merge and move

  lemma MergeEditDeletes(v: Version, p: Plan, outs: seq<File>, l: nat, f: File)
    requires NumbersIdentify(v) && l < |v| && f in v[l] && p.level + 1 < |v|
    requires Subset(p.in0, v[p.level]) && Subset(p.in1, v[p.level + 1])
    ensures f.number in DeletedNumbers(MergeEdit(p, outs), l) <==>
            (l == p.level && f in p.in0) || (l == p.level + 1 && f in p.in1)
  {
    var e := MergeEdit(p, outs);
    if (l == p.level && f in p.in0) || (l == p.level + 1 && f in p.in1) {
      assert (l, f.number) in e.deleted;
    }
    if f.number in DeletedNumbers(e, l) {
      assert (l, f.number) in e.deleted;
      if l == p.level {
        var g :| g in p.in0 && (p.level, g.number) == (l, f.number);
      } else {
        var g :| g in p.in1 && (p.level + 1, g.number) == (l, f.number);
      }
    }
  }

  lemma MergeEditAdds(p: Plan, outs: seq<File>, l: nat, f: File)
    ensures (l, f) in MergeEdit(p, outs).added <==> l == p.level + 1 && f in outs
  {
    var e := MergeEdit(p, outs);
    if l == p.level + 1 && f in outs {
      var i :| 0 <= i < |outs| && outs[i] == f;
      assert e.added[i] == (l, f);
    }
  }

  lemma MergeEditInstalls(v: Version, p: Plan, outs: seq<File>)
    requires AllOrdered(v) && NumbersIdentify(v) && p.level + 1 < NUM_LEVELS
    requires Subset(p.in0, v[p.level]) && Subset(p.in1, v[p.level + 1])
    requires forall o :: o in outs ==> Unnumbered(v[p.level + 1], o.number)
    requires forall i, j :: 0 <= i < j < |outs| ==> outs[i].number != outs[j].number
    ensures Installed(v, p, outs, ApplyEdit(v, MergeEdit(p, outs)))
    ensures AllOrdered(ApplyEdit(v, MergeEdit(p, outs)))
  {
    hide Ordered, ApplyEdit, NumbersIdentify;
    var e := MergeEdit(p, outs);
    var v' := ApplyEdit(v, e);
    assert AddsNew(v, e) by {
      forall a | a in e.added ensures a.0 == p.level + 1 && a.1 in outs {
        assert a == (a.0, a.1);
        MergeEditAdds(p, outs, a.0, a.1);
      }
    }
    forall l | 0 <= l < NUM_LEVELS
      ensures Ordered(v'[l])
      ensures forall f :: f in v'[l] <==>
                (f in v[l] && !(l == p.level && f in p.in0) && !(l == p.level + 1 && f in p.in1))
                || (l == p.level + 1 && f in outs)
    {
      EditMembers(v, e, l);
      forall f ensures f in v'[l] <==>
                (f in v[l] && !(l == p.level && f in p.in0) && !(l == p.level + 1 && f in p.in1))
                || (l == p.level + 1 && f in outs) {
        MergeEditAdds(p, outs, l, f);
        if f in v[l] {
          MergeEditDeletes(v, p, outs, l, f);
        }
      }
    }
    forall l | 0 <= l < NUM_LEVELS && l != p.level && l != p.level + 1 ensures v'[l] == v[l] {
      OrderedUnique(v'[l], v[l]);
    }
  }

  // ------------------------------------------------------------------ recovery

  /** `v'` is `v` with the files added on level 0. */
  ghost predicate FilesAdded(v: Version, files: seq<File>, v': Version) {
    && |v| == |v'| == NUM_LEVELS
    && (forall l :: 1 <= l < NUM_LEVELS ==> v'[l] == v[l])
    && (forall f :: f in v'[0] <==> f in v[0] || f in files)
    && Ordered(v'[0])
  }

  lemma RecoverEditAdds(v: Version, files: seq<File>)
    requires AllOrdered(v)
    requires forall f :: f in files ==> f.number !in Numbers(v)
    requires forall i, j :: 0 <= i < j < |files| ==> files[i].number != files[j].number
    ensures FilesAdded(v, files, ApplyEdit(v, RecoverEdit(files)))
    ensures AllOrdered(ApplyEdit(v, RecoverEdit(files)))
  {
    hide Ordered, ApplyEdit;
    var e := RecoverEdit(files);
    var v' := ApplyEdit(v, e);
    forall l, f ensures (l, f) in e.added <==> l == 0 && f in files {
      if l == 0 && f in files {
        var i :| 0 <= i < |files| && files[i] == f;
        assert e.added[i] == (l, f);
      }
    }
    assert AddsNew(v, e) by {
      forall a | a in e.added ensures a.0 == 0 && a.1 in files && Unnumbered(v[0], a.1.number) {
        assert a == (a.0, a.1);
        forall g | g in v[0] ensures g.number != a.1.number {
          assert g.number in Numbers(v);
        }
      }
    }
    forall l | 0 <= l < NUM_LEVELS
      ensures Ordered(v'[l])
      ensures l > 0 ==> v'[l] == v[l]
    {
      EditMembers(v, e, l);
      if l > 0 {
        OrderedUnique(v'[l], v[l]);
      }
    }
    EditMembers(v, e, 0);
  }
}
