/** The merging iterator in both directions (table/merger.cc): over children that share no key it moves like a plain
    cursor over all their entries in order, whatever the changes of direction. */
module MergingIters {
  import opened Keys
  import opened Lookup

  type Entries = seq<Entry>

  // ------------------------------------------------------------------ the merged list

  ghost predicate InChild(children: seq<Entries>, e: Entry) {
    exists i, j :: 0 <= i < |children| && 0 <= j < |children[i]| && children[i][j] == e
  }

  /** Each child is sorted, and no key is in two of them. */
  ghost predicate Mergeable(children: seq<Entries>) {
    && (forall i :: 0 <= i < |children| ==> Sorted(children[i]))
    && (forall i, j, a, b ::
          0 <= i < j < |children| && 0 <= a < |children[i]| && 0 <= b < |children[j]|
          ==> children[i][a].key != children[j][b].key)
  }

  /** `all` is what the children hold, in order. */
  ghost predicate IsMerge(all: Entries, children: seq<Entries>) {
    Mergeable(children) && Sorted(all) && forall e :: e in all <==> InChild(children, e)
  }

  lemma PlaceOf(all: Entries, children: seq<Entries>, i: nat, j: nat) returns (q: nat)
    requires IsMerge(all, children) && i < |children| && j < |children[i]|
    ensures q < |all| && all[q] == children[i][j]
  {
    assert InChild(children, children[i][j]);
    q :| 0 <= q < |all| && all[q] == children[i][j];
  }

  lemma ChildOf(all: Entries, children: seq<Entries>, q: nat) returns (i: nat, j: nat)
    requires IsMerge(all, children) && q < |all|
    ensures i < |children| && j < |children[i]| && children[i][j] == all[q]
  {
    assert all[q] in all;
    i, j :| 0 <= i < |children| && 0 <= j < |children[i]| && children[i][j] == all[q];
  }

  // ------------------------------------------------------------------ a cut through all children

  /** Child `i` has `cuts[i]` entries before place `p` of the merged list. */
  ghost predicate CutAt(all: Entries, children: seq<Entries>, cuts: seq<int>, p: nat) {
    && |cuts| == |children| && p <= |all|
    && (forall i :: 0 <= i < |children| ==> 0 <= cuts[i] <= |children[i]|)
    && (forall i, j, q ::
          0 <= i < |children| && 0 <= j < |children[i]| && 0 <= q < |all| && all[q] == children[i][j]
          ==> (j < cuts[i] <==> q < p))
  }

  /** The least entry behind the cut is the one at `p`. */
  lemma LeastBehind(all: Entries, children: seq<Entries>, cuts: seq<int>, p: nat, k: nat)
    requires IsMerge(all, children) && CutAt(all, children, cuts, p) && k < |children| && cuts[k] < |children[k]|
    requires forall i :: 0 <= i < |children| && cuts[i] < |children[i]| ==>
               AtMost(children[k][cuts[k]].key, children[i][cuts[i]].key)
    ensures p < |all| && children[k][cuts[k]] == all[p]
  {
    var q := PlaceOf(all, children, k, cuts[k]);
    var i, j := ChildOf(all, children, p);
    assert !(j < cuts[i]);
    assert Sorted(children[i]) && Sorted(all);
    assert cuts[i] < j ==> Less(children[i][cuts[i]].key, children[i][j].key);
  }

  lemma NoneBehind(all: Entries, children: seq<Entries>, cuts: seq<int>, p: nat)
    requires IsMerge(all, children) && CutAt(all, children, cuts, p)
    requires forall i :: 0 <= i < |children| ==> cuts[i] == |children[i]|
    ensures p == |all|
  {
    if p < |all| {
      var i, j := ChildOf(all, children, p);
    }
  }

  /** The greatest entry before the cut is the one before `p`. */
  lemma GreatestBefore(all: Entries, children: seq<Entries>, cuts: seq<int>, p: nat, k: nat)
    requires IsMerge(all, children) && CutAt(all, children, cuts, p) && k < |children| && cuts[k] > 0
    requires forall i :: 0 <= i < |children| && cuts[i] > 0 ==>
               AtMost(children[i][cuts[i] - 1].key, children[k][cuts[k] - 1].key)
    ensures p > 0 && children[k][cuts[k] - 1] == all[p - 1]
  {
    var q := PlaceOf(all, children, k, cuts[k] - 1);
    var i, j := ChildOf(all, children, p - 1);
    assert j < cuts[i];
    assert Sorted(children[i]) && Sorted(all);
    assert j < cuts[i] - 1 ==> Less(children[i][j].key, children[i][cuts[i] - 1].key);
  }

  lemma NoneBefore(all: Entries, children: seq<Entries>, cuts: seq<int>, p: nat)
    requires IsMerge(all, children) && CutAt(all, children, cuts, p)
    requires forall i :: 0 <= i < |children| ==> cuts[i] == 0
    ensures p == 0
  {
    if p > 0 {
      var i, j := ChildOf(all, children, p - 1);
    }
  }

  /** The entries before the one at `p`, child by child, and whether that one is counted too. */
  lemma CutAround(all: Entries, children: seq<Entries>, cuts: seq<int>, p: nat, inclusive: bool)
    requires IsMerge(all, children) && p < |all| && |cuts| == |children|
    requires forall i :: 0 <= i < |children| ==> 0 <= cuts[i] <= |children[i]|
    requires forall i, j :: 0 <= i < |children| && 0 <= j < |children[i]| ==>
               (j < cuts[i] <==> Less(children[i][j].key, all[p].key) || (inclusive && children[i][j] == all[p]))
    ensures CutAt(all, children, cuts, if inclusive then p + 1 else p)
  {
    forall i, j, q | 0 <= i < |children| && 0 <= j < |children[i]| && 0 <= q < |all| && all[q] == children[i][j]
      ensures j < cuts[i] <==> q < (if inclusive then p + 1 else p)
    {
      assert q < p ==> Less(all[q].key, all[p].key);
      assert p < q ==> Less(all[p].key, all[q].key);
    }
  }

  lemma CutBySeek(all: Entries, children: seq<Entries>, cuts: seq<int>, p: nat, target: InternalKey)
    requires IsMerge(all, children) && p <= |all| && |cuts| == |children|
    requires forall i :: 0 <= i < |children| ==> 0 <= cuts[i] <= |children[i]|
    requires forall i, j :: 0 <= i < |children| && 0 <= j < |children[i]| ==>
               (j < cuts[i] <==> Less(children[i][j].key, target))
    requires forall q :: 0 <= q < |all| ==> (q < p <==> Less(all[q].key, target))
    ensures CutAt(all, children, cuts, p)
  {
  }

  /** Which entries of a child come before another entry, when the child that holds it is told apart. */
  lemma KeysApart(all: Entries, children: seq<Entries>, p: nat, k: nat, c: nat, i: nat, j: nat)
    requires IsMerge(all, children) && p < |all| && k < |children| && c < |children[k]| && children[k][c] == all[p]
    requires i < |children| && j < |children[i]|
    ensures i != k ==> children[i][j].key != all[p].key
    ensures i == k ==> (Less(children[i][j].key, all[p].key) <==> j < c) && (children[i][j] == all[p] <==> j == c)
  {
    assert Sorted(children[k]);
    if i == k {
      assert j < c ==> Less(children[i][j].key, children[k][c].key);
      assert c < j ==> Less(children[k][c].key, children[i][j].key);
    }
  }

  lemma CutAdvance(all: Entries, children: seq<Entries>, cuts: seq<int>, p: nat, k: nat)
    requires IsMerge(all, children) && CutAt(all, children, cuts, p) && p < |all|
    requires k < |children| && cuts[k] < |children[k]| && children[k][cuts[k]] == all[p]
    ensures CutAt(all, children, cuts[k := cuts[k] + 1], p + 1)
  {
    hide IsMerge;
    forall i, j, q | 0 <= i < |children| && 0 <= j < |children[i]| && 0 <= q < |all| && all[q] == children[i][j]
      ensures j < cuts[k := cuts[k] + 1][i] <==> q < p + 1
    {
      KeysApart(all, children, p, k, cuts[k], i, j);
      SamePlace(all, children, p, q);
    }
  }

  lemma CutRetreat(all: Entries, children: seq<Entries>, cuts: seq<int>, p: nat, k: nat)
    requires IsMerge(all, children) && CutAt(all, children, cuts, p + 1) && p < |all|
    requires k < |children| && cuts[k] > 0 && children[k][cuts[k] - 1] == all[p]
    ensures CutAt(all, children, cuts[k := cuts[k] - 1], p)
  {
    hide IsMerge;
    forall i, j, q | 0 <= i < |children| && 0 <= j < |children[i]| && 0 <= q < |all| && all[q] == children[i][j]
      ensures j < cuts[k := cuts[k] - 1][i] <==> q < p
    {
      KeysApart(all, children, p, k, cuts[k] - 1, i, j);
      SamePlace(all, children, p, q);
    }
  }

  lemma SamePlace(all: Entries, children: seq<Entries>, p: nat, q: nat)
    requires IsMerge(all, children) && p < |all| && q < |all|
    ensures all[p] == all[q] <==> p == q
  {
    assert p < q ==> Less(all[p].key, all[q].key);
    assert q < p ==> Less(all[q].key, all[p].key);
  }

  lemma ChildSorted(all: Entries, children: seq<Entries>, i: nat)
    requires IsMerge(all, children) && i < |children|
    ensures Sorted(children[i])
  {
  }

  // ------------------------------------------------------------------ the iterator

  /** Places one further on. */
  function Above(at: seq<int>): (r: seq<int>)
    ensures |r| == |at| && forall i :: 0 <= i < |at| ==> r[i] == at[i] + 1
  {
    seq(|at|, i requires 0 <= i < |at| => at[i] + 1)
  }

  /** A child at place -1 or behind its last entry is not valid. */
  class MergingIterator {
    const children: seq<Entries>
    var at: seq<int>
    var current: Option<nat>
    var forward: bool

    ghost predicate Shaped()
      reads this
    {
      |at| == |children| && forall i :: 0 <= i < |children| ==> -1 <= at[i] <= |children[i]|
    }

    /** Moving forward, no child is before the current entry; moving back, none is behind it. */
    ghost predicate Around(all: Entries, p: nat)
      reads this
    {
      if forward then CutAt(all, children, at, p) else CutAt(all, children, Above(at), p + 1)
    }

    /** The iterator stands on entry `p` of the merged list, or is not valid. */
    ghost predicate On(all: Entries, p: Option<nat>)
      reads this
    {
      && IsMerge(all, children) && Shaped()
      && (if p.None? then current.None?
          else
            && current.Some? && current.value < |children| && p.value < |all|
            && 0 <= at[current.value] < |children[current.value]|
            && children[current.value][at[current.value]] == all[p.value] && Around(all, p.value))
    }

    constructor (children: seq<Entries>, ghost all: Entries)
      requires IsMerge(all, children)
      ensures this.children == children && On(all, None)
    {
      this.children, at, current, forward := children, seq(|children|, _ => 0), None, true;
    }

    method FindSmallest(ghost all: Entries, ghost p: nat)
      requires IsMerge(all, children) && CutAt(all, children, at, p) && forward
      modifies `current
      ensures On(all, if p < |all| then Some(p) else None)
    {
      hide IsMerge, CutAt;
      assert Shaped() by { CutShape(all, children, at, p); }
      assert forall i :: 0 <= i < |children| ==> at[i] >= 0 by { CutShape(all, children, at, p); }
      current := None;
      for i := 0 to |children|
        invariant current.None? ==> forall j :: 0 <= j < i ==> at[j] == |children[j]|
        invariant current.Some? ==> current.value < |children| && at[current.value] < |children[current.value]|
        invariant current.Some? ==> forall j :: 0 <= j < i && at[j] < |children[j]| ==>
                    AtMost(children[current.value][at[current.value]].key, children[j][at[j]].key)
      {
        if at[i] < |children[i]| {
          if current.None? || Less(children[i][at[i]].key, children[current.value][at[current.value]].key) {
            current := Some(i);
          }
        }
      }
      if current.Some? {
        LeastBehind(all, children, at, p, current.value);
      } else {
        NoneBehind(all, children, at, p);
      }
    }

    method FindLargest(ghost all: Entries, ghost p: nat)
      requires IsMerge(all, children) && |at| == |children| && CutAt(all, children, Above(at), p) && !forward
      modifies `current
      ensures On(all, if p > 0 then Some(p - 1) else None)
    {
      hide IsMerge, CutAt;
      ghost var cuts := Above(at);
      assert forall i :: 0 <= i < |children| ==> 0 <= cuts[i] <= |children[i]| by { CutShape(all, children, cuts, p); }
      assert p <= |all| by { CutShape(all, children, cuts, p); }
      assert forall i :: 0 <= i < |children| ==> at[i] == cuts[i] - 1;
      current := None;
      for i := |children| downto 0
        invariant current.None? ==> forall j :: i <= j < |children| ==> at[j] == -1
        invariant current.Some? ==> current.value < |children| && at[current.value] >= 0
        invariant current.Some? ==> forall j :: i <= j < |children| && at[j] >= 0 ==>
                    AtMost(children[j][at[j]].key, children[current.value][at[current.value]].key)
      {
        if at[i] >= 0 {
          if current.None? || Less(children[current.value][at[current.value]].key, children[i][at[i]].key) {
            current := Some(i);
          }
        }
      }
      if current.Some? {
        GreatestBefore(all, children, cuts, p, current.value);
      } else {
        NoneBefore(all, children, cuts, p);
      }
    }

    method SeekToFirst(ghost all: Entries)
      requires IsMerge(all, children)
      modifies this
      ensures On(all, if all == [] then None else Some(0))
    {
      at := seq(|children|, _ => 0);
      forward := true;
      FindSmallest(all, 0);
    }

    method SeekToLast(ghost all: Entries)
      requires IsMerge(all, children)
      modifies this
      ensures On(all, if all == [] then None else Some(|all| - 1))
    {
      at := seq(|children|, i requires 0 <= i < |children| => |children[i]| - 1);
      forward := false;
      FindLargest(all, |all|);
    }

    /** All children but `skip` go to their first entry at or behind the key, or past one with the key. */
    method SeekOthers(ghost all: Entries, key: InternalKey, skip: Option<nat>, past: bool) returns (places: seq<int>)
      requires IsMerge(all, children) && Shaped()
      requires past ==> forall i, j :: 0 <= i < |children| && skip != Some(i) && 0 <= j < |children[i]| ==>
                          children[i][j].key != key
      ensures |places| == |children|
      ensures forall i :: 0 <= i < |children| && skip != Some(i) ==> 0 <= places[i] <= |children[i]|
      ensures forall i, j :: 0 <= i < |children| && skip != Some(i) && 0 <= j < |children[i]| ==>
                (j < places[i] <==> Less(children[i][j].key, key))
      ensures skip.Some? && skip.value < |children| ==> places[skip.value] == at[skip.value]
    {
      hide IsMerge, Sorted;
      places := at;
      for i := 0 to |children|
        invariant |places| == |children|
        invariant forall j :: i <= j < |children| || skip == Some(j) ==> 0 <= j < |children| ==> places[j] == at[j]
        invariant forall j :: 0 <= j < i && skip != Some(j) ==> 0 <= places[j] <= |children[j]|
        invariant forall j, x :: 0 <= j < i && skip != Some(j) && 0 <= x < |children[j]| ==>
                    (x < places[j] <==> Less(children[j][x].key, key))
      {
        if skip != Some(i) {
          ChildSorted(all, children, i);
          var n := SeekEntry(children[i], key);
          var there := n < |children[i]| && Compare(key, children[i][n].key) == 0;
          places := places[i := if past && there then n + 1 else n];
        }
      }
    }

    method Seek(target: InternalKey, ghost all: Entries, ghost p: nat)
      requires IsMerge(all, children) && Shaped() && p <= |all|
      requires forall q :: 0 <= q < |all| ==> (q < p <==> Less(all[q].key, target))
      modifies this
      ensures On(all, if p < |all| then Some(p) else None)
    {
      hide IsMerge, CutAt;
      at := SeekOthers(all, target, None, false);
      forward := true;
      CutBySeek(all, children, at, p, target);
      FindSmallest(all, p);
    }

    method Next(ghost all: Entries, ghost p: nat)
      requires On(all, Some(p))
      modifies this
      ensures On(all, if p + 1 < |all| then Some(p + 1) else None)
    {
      hide IsMerge, CutAt;
      var k := current.value;
      if !forward {
        var key := children[k][at[k]].key;
        NotThere(all, children, p, k, at[k]);
        at := SeekOthers(all, key, Some(k), true);
        forward := true;
        at := at[k := at[k] + 1];
        PassesAll(all, children, at, p, k);
      } else {
        CutAdvance(all, children, at, p, k);
        at := at[k := at[k] + 1];
      }
      FindSmallest(all, p + 1);
    }

    method Prev(ghost all: Entries, ghost p: nat)
      requires On(all, Some(p))
      modifies this
      ensures On(all, if p > 0 then Some(p - 1) else None)
    {
      hide IsMerge, CutAt;
      var k := current.value;
      if forward {
        var key := children[k][at[k]].key;
        var places := SeekOthers(all, key, Some(k), false);
        BeforeAll(all, children, places, p, k);
        // One step back, or the last entry of a child that has none at or behind the key.
        at := seq(|children|, i requires 0 <= i < |children| =>
                    if i == k || places[i] < |children[i]| then places[i] - 1 else |children[i]| - 1);
        forward := false;
        assert Above(at) == places;
      } else {
        ghost var cuts := Above(at);
        CutRetreat(all, children, cuts, p, k);
        at := at[k := at[k] - 1];
        assert Above(at) == cuts[k := cuts[k] - 1];
      }
      FindLargest(all, p);
    }
  }

  lemma NotThere(all: Entries, children: seq<Entries>, p: nat, k: nat, c: nat)
    requires IsMerge(all, children) && p < |all| && k < |children| && c < |children[k]| && children[k][c] == all[p]
    ensures forall i, j :: 0 <= i < |children| && i != k && 0 <= j < |children[i]| ==>
              children[i][j].key != children[k][c].key
  {
    hide IsMerge;
    forall i, j | 0 <= i < |children| && i != k && 0 <= j < |children[i]|
      ensures children[i][j].key != children[k][c].key
    {
      KeysApart(all, children, p, k, c, i, j);
    }
  }

  /** All children are behind the entry. */
  lemma PassesAll(all: Entries, children: seq<Entries>, at: seq<int>, p: nat, k: nat)
    requires IsMerge(all, children) && p < |all| && |at| == |children| && k < |children|
    requires 0 < at[k] <= |children[k]| && children[k][at[k] - 1] == all[p]
    requires forall i :: 0 <= i < |children| && i != k ==> 0 <= at[i] <= |children[i]|
    requires forall i, j :: 0 <= i < |children| && i != k && 0 <= j < |children[i]| ==>
               (j < at[i] <==> Less(children[i][j].key, all[p].key))
    ensures CutAt(all, children, at, p + 1)
  {
    hide IsMerge, CutAt;
    forall i, j | 0 <= i < |children| && 0 <= j < |children[i]|
      ensures j < at[i] <==> Less(children[i][j].key, all[p].key) || children[i][j] == all[p]
    {
      KeysApart(all, children, p, k, at[k] - 1, i, j);
    }
    CutAround(all, children, at, p, true);
  }

  /** All children are where the entries before it end. */
  lemma BeforeAll(all: Entries, children: seq<Entries>, at: seq<int>, p: nat, k: nat)
    requires IsMerge(all, children) && p < |all| && |at| == |children| && k < |children|
    requires 0 <= at[k] < |children[k]| && children[k][at[k]] == all[p]
    requires forall i :: 0 <= i < |children| && i != k ==> 0 <= at[i] <= |children[i]|
    requires forall i, j :: 0 <= i < |children| && i != k && 0 <= j < |children[i]| ==>
               (j < at[i] <==> Less(children[i][j].key, all[p].key))
    ensures CutAt(all, children, at, p)
  {
    hide IsMerge, CutAt;
    forall i, j | 0 <= i < |children| && 0 <= j < |children[i]|
      ensures j < at[i] <==> Less(children[i][j].key, all[p].key)
    {
      KeysApart(all, children, p, k, at[k], i, j);
    }
    CutAround(all, children, at, p, false);
  }

  lemma CutShape(all: Entries, children: seq<Entries>, cuts: seq<int>, p: nat)
    requires CutAt(all, children, cuts, p)
    ensures |cuts| == |children| && p <= |all| && forall i :: 0 <= i < |children| ==> 0 <= cuts[i] <= |children[i]|
  {
  }

  // ------------------------------------------------------------------ any sequence of calls

  datatype Move = First | Last | To(target: InternalKey) | Forth | Back

  /** How many entries come before the target. */
  function CountBefore(all: Entries, target: InternalKey): (n: nat)
    ensures n <= |all|
  {
    if all == [] || !Less(all[0].key, target) then 0 else 1 + CountBefore(all[1..], target)
  }

  lemma {:induction false} CountIsPlace(all: Entries, target: InternalKey, q: nat)
    requires Sorted(all) && q < |all|
    ensures q < CountBefore(all, target) <==> Less(all[q].key, target)
  {
    if Less(all[0].key, target) {
      if q > 0 {
        CountIsPlace(all[1..], target, q - 1);
      }
    } else {
      assert q > 0 ==> Less(all[0].key, all[q].key);
    }
  }

  function Shown(all: Entries, p: int): Option<nat> {
    if 0 <= p < |all| then Some(p) else None
  }

  /** A plain cursor over a list.  It is moved on or back only while it is valid. */
  function Moved(all: Entries, p: Option<nat>, move: Move): Option<nat> {
    match move
    case First => Shown(all, 0)
    case Last => Shown(all, |all| - 1)
    case To(target) => Shown(all, CountBefore(all, target))
    case Forth => if p.Some? then Shown(all, p.value + 1) else None
    case Back => if p.Some? then Shown(all, p.value - 1) else None
  }

  function PlaceAfter(all: Entries, moves: seq<Move>): Option<nat> {
    if moves == [] then None else Moved(all, PlaceAfter(all, moves[..|moves| - 1]), moves[|moves| - 1])
  }

  method Apply(it: MergingIterator, move: Move, ghost all: Entries, ghost p: Option<nat>)
    requires it.On(all, p)
    modifies it
    ensures it.On(all, Moved(all, p, move))
  {
    hide IsMerge, CutAt;
    match move {
      case First => it.SeekToFirst(all);
      case Last => it.SeekToLast(all);
      case To(target) =>
        forall q | 0 <= q < |all| ensures q < CountBefore(all, target) <==> Less(all[q].key, target) {
          MergeSorted(all, it.children);
          CountIsPlace(all, target, q);
        }
        it.Seek(target, all, CountBefore(all, target));
      case Forth =>
        if it.current.Some? {
          it.Next(all, p.value);
        }
      case Back =>
        if it.current.Some? {
          it.Prev(all, p.value);
        }
    }
  }

  lemma MergeSorted(all: Entries, children: seq<Entries>)
    requires IsMerge(all, children)
    ensures Sorted(all)
  {
  }

  /** Whatever the calls, the merging iterator shows the entry that a plain cursor over the merged list shows. */
  method DriveMerged(children: seq<Entries>, ghost all: Entries, moves: seq<Move>) returns (shown: seq<Option<Entry>>)
    requires IsMerge(all, children)
    ensures |shown| == |moves|
    ensures forall i :: 0 <= i < |moves| ==>
              var p := PlaceAfter(all, moves[..i + 1]);
              shown[i] == if p.Some? && p.value < |all| then Some(all[p.value]) else None
  {
    hide IsMerge, CutAt, Moved;
    var it := new MergingIterator(children, all);
    shown := [];
    for n := 0 to |moves|
      invariant fresh(it) && it.children == children && it.On(all, PlaceAfter(all, moves[..n])) && |shown| == n
      invariant forall i :: 0 <= i < n ==>
                  var p := PlaceAfter(all, moves[..i + 1]);
                  shown[i] == if p.Some? && p.value < |all| then Some(all[p.value]) else None
    {
      assert moves[..n + 1][..n] == moves[..n];
      Apply(it, moves[n], all, PlaceAfter(all, moves[..n]));
      if it.current.Some? {
        shown := shown + [Some(children[it.current.value][it.at[it.current.value]])];
      } else {
        shown := shown + [None];
      }
    }
  }
}
