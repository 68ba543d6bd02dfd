/** The operations of the skip list (db/skiplist.h), one caller at a time. */
module SkipListClass {
  import opened Keys
  import opened SkipLists

  /** The keys on a level. */
  function KeysOf(h: Heap, list: seq<nat>): set<Key> {
    set i | 0 < i < |list| && list[i] < |h.keys| :: h.keys[list[i]]
  }

  /** `prev[l]` is where the search left level `l`, for each level from `from` to the top. */
  ghost predicate LeftAt(h: Heap, levels: seq<seq<nat>>, prev: seq<nat>, from: nat, k: Key) {
    && |prev| == MAX_HEIGHT && |levels| == MAX_HEIGHT
    && forall l :: from <= l < h.maxHeight && l < MAX_HEIGHT ==> Leaves(h, levels[l], l, prev[l], k)
  }

  ghost predicate Leaves(h: Heap, list: seq<nat>, l: nat, p: nat, k: Key) {
    && p in list && Has(h, p, l) && Before(h, p, k)
    && (h.next[p][l].Some? ==> h.next[p][l].value < |h.keys| && h.keys[h.next[p][l].value] >= k)
  }

  class SkipList {
    var heap: Heap
    ghost var levels: seq<seq<nat>>

    ghost predicate Valid()
      reads this
    {
      Consistent(heap, levels) && EmptyAbove(heap, levels)
    }

    ghost function Contents(): set<Key>
      reads this
      requires levels != []
    {
      KeysOf(heap, levels[0])
    }

    constructor ()
      ensures Valid() && Contents() == {}
    {
      heap := Heap([0.0], [seq(MAX_HEIGHT, _ => None)], 1);
      levels := seq(MAX_HEIGHT, _ => [0]);
      new;
      forall l | 0 <= l < MAX_HEIGHT ensures Level(heap, l, levels[l]) {
        assert Has(heap, 0, l);
      }
    }

    /** The first node at or after the key, and for each level the last node before it. */
    method FindGreaterOrEqual(k: Key) returns (r: Option<nat>, prev: seq<nat>)
      requires Valid()
      ensures LeftAt(heap, levels, prev, 0, k)
      ensures Brackets(heap, levels[0], prev[0], r, Some(k))
    {
      hide Consistent, At, Brackets;
      assert 1 <= heap.maxHeight <= MAX_HEIGHT by { HeightBound(heap, levels); }
      var x: nat, level: nat := 0, heap.maxHeight - 1;
      prev := seq(MAX_HEIGHT, _ => 0);
      HeadAt(heap, levels, level, Some(k));
      assert LeftAt(heap, levels, prev, level + 1, k) by { NoneLeft(heap, levels, prev, k); }
      ghost var place: nat := PlaceAt(heap, levels, level, x);
      while true
        invariant level < heap.maxHeight <= MAX_HEIGHT
        invariant At(heap, levels, level, x, Some(k))
        invariant place < |levels[level]| && levels[level][place] == x
        invariant LeftAt(heap, levels, prev, level + 1, k)
        decreases level, |levels[level]| - place
      {
        AtHas(heap, levels, level, x, Some(k));
        var next := heap.next[x][level];
        StepRight(heap, levels, level, x, Some(k));
        if GoesOn(heap, next, Some(k)) {
          place := PlaceNext(heap, levels, level, place);
          x := next.value;
        } else {
          prev := prev[level := x];
          if level == 0 {
            StopBrackets(heap, levels, x, Some(k));
            return next, prev;
          }
          StepDown(heap, levels, level, x, Some(k));
          level := level - 1;
          place := PlaceAt(heap, levels, level, x);
        }
      }
    }

    /** The last node before the target, the head if there is none; without a target, the last node. */
    method FindLast(target: Option<Key>) returns (x: nat)
      requires Valid()
      ensures exists next :: Brackets(heap, levels[0], x, next, target)
    {
      hide Consistent, At, Brackets;
      assert 1 <= heap.maxHeight <= MAX_HEIGHT by { HeightBound(heap, levels); }
      var level: nat := heap.maxHeight - 1;
      x := 0;
      HeadAt(heap, levels, level, target);
      ghost var place: nat := PlaceAt(heap, levels, level, x);
      while true
        invariant level < heap.maxHeight <= MAX_HEIGHT
        invariant At(heap, levels, level, x, target)
        invariant place < |levels[level]| && levels[level][place] == x
        decreases level, |levels[level]| - place
      {
        AtHas(heap, levels, level, x, target);
        var next := heap.next[x][level];
        StepRight(heap, levels, level, x, target);
        if !GoesOn(heap, next, target) {
          if level == 0 {
            StopBrackets(heap, levels, x, target);
            return;
          }
          StepDown(heap, levels, level, x, target);
          level := level - 1;
          place := PlaceAt(heap, levels, level, x);
        } else {
          place := PlaceNext(heap, levels, level, place);
          x := next.value;
        }
      }
    }

    /** A key that is not in the list yet becomes part of it. */
    method Insert(k: Key, height: nat)
      requires Valid() && k !in Contents() && 1 <= height <= MAX_HEIGHT
      modifies this
      ensures Valid() && Contents() == old(Contents()) + {k}
      ensures forall l :: 0 <= l < MAX_HEIGHT ==> (|old(heap.keys)| in levels[l] <==> l < height)
      ensures heap.maxHeight == if height > old(heap.maxHeight) then height else old(heap.maxHeight)
    {
      hide Consistent, Prepared, EmptyAbove, KeysOf, Brackets, Linking, LeftAt;
      var x, prev := FindGreaterOrEqual(k);
      SearchPrepares(heap, levels, prev, k);
      assert |prev| == MAX_HEIGHT by { LeftLength(heap, levels, prev, k); }
      if height > heap.maxHeight {
        var i := heap.maxHeight;
        while i < height
          invariant heap == old(heap) && levels == old(levels) && heap.maxHeight <= i <= height
          invariant |prev| == MAX_HEIGHT && Prepared(heap, levels, prev, i, k)
        {
          PrepareAbove(heap, levels, prev, i, k);
          prev := prev[i := 0];
          i := i + 1;
        }
        GrowKeeps(heap, levels, height);
        GrowPrepared(heap, levels, prev, height, k);
        GrowEmpty(heap, levels, height);
        heap := heap.(maxHeight := height);
      } else {
        PrepareLess(heap, levels, prev, heap.maxHeight, height, k);
      }
      var node := |heap.keys|;
      AllocateStep(heap, levels, prev, height, k);
      AllocateEmpty(heap, levels, k, height);
      heap := Allocated(heap, k, height);
      ghost var list := levels[0];
      var i := 0;
      while i < height
        invariant i <= height && |levels| == MAX_HEIGHT && Consistent(heap, levels) && EmptyAbove(heap, levels)
        invariant Linking(heap, levels, node, height, prev, i, k)
        invariant heap.keys == old(heap.keys) + [k]
        invariant heap.maxHeight == if height > old(heap.maxHeight) then height else old(heap.maxHeight)
        invariant i == 0 ==> levels[0] == list
        invariant i > 0 ==> IsInserted(list, levels[0], node)
      {
        LinkingPrev(heap, levels, node, height, prev, i, k);
        OwnStep(heap, levels, node, height, prev, i, k);
        StoreEmpty(heap, levels, node, i, heap.next[prev[i]][i]);
        heap := Stored(heap, node, i, heap.next[prev[i]][i]);
        ghost var p := PublishStep(heap, levels, node, height, prev, i, k);
        heap := Stored(heap, prev[i], i, Some(node));
        levels := levels[i := Inserted(levels[i], p, node)];
        i := i + 1;
      }
      LinkedLevels(heap, levels, node, height, prev, k);
      AllHave(old(heap), old(levels));
      InsertedKeys(old(heap), heap, list, levels[0], node, k);
    }

    method Contains(k: Key) returns (r: bool)
      requires Valid()
      ensures r <==> k in Contents()
    {
      hide Consistent, Brackets;
      var x, prev := FindGreaterOrEqual(k);
      BracketsKey(heap, levels, prev[0], x, k);
      r := x.Some? && heap.keys[x.value] == k;
    }
  }

  // ------------------------------------------------------------------ the search

  lemma PlaceAt(h: Heap, levels: seq<seq<nat>>, l: nat, x: nat) returns (i: nat)
    requires Consistent(h, levels) && l < MAX_HEIGHT && x in levels[l]
    ensures i < |levels[l]| && levels[l][i] == x
  {
    i :| 0 <= i < |levels[l]| && levels[l][i] == x;
  }

  lemma PlaceNext(h: Heap, levels: seq<seq<nat>>, l: nat, i: nat) returns (j: nat)
    requires Consistent(h, levels) && l < MAX_HEIGHT && i < |levels[l]| && Has(h, levels[l][i], l)
    requires h.next[levels[l][i]][l].Some?
    ensures i < j < |levels[l]| && levels[l][j] == h.next[levels[l][i]][l].value
  {
    LevelOf(h, levels, l);
    assert Link(h, l, levels[l], i);
    j := i + 1;
  }

  lemma LeftLength(h: Heap, levels: seq<seq<nat>>, prev: seq<nat>, k: Key)
    requires LeftAt(h, levels, prev, 0, k)
    ensures |prev| == MAX_HEIGHT
  {
  }

  lemma NoneLeft(h: Heap, levels: seq<seq<nat>>, prev: seq<nat>, k: Key)
    requires Consistent(h, levels) && |prev| == MAX_HEIGHT
    ensures LeftAt(h, levels, prev, h.maxHeight, k)
  {
  }

  lemma OnLevel(h: Heap, levels: seq<seq<nat>>, l: nat, p: nat)
    requires Consistent(h, levels) && l < MAX_HEIGHT && p in levels[l] && Has(h, p, l) && h.next[p][l].Some?
    ensures var n := h.next[p][l].value; n < |h.keys| && h.keys[n] in KeysOf(h, levels[0])
  {
    LevelOf(h, levels, l);
    var i := PlaceOf(h, l, levels[l], p);
    var n := levels[l][i + 1];
    assert Has(h, n, l) && n != 0;
    assert l > 0 ==> PartOf(levels[l], levels[0]);
    LevelOf(h, levels, 0);
    var j := PlaceOf(h, 0, levels[0], n);
    assert h.keys[levels[0][j]] in KeysOf(h, levels[0]);
  }

  /** For a key that is not there, the search finds where it belongs on every level. */
  lemma SearchPrepares(h: Heap, levels: seq<seq<nat>>, prev: seq<nat>, k: Key)
    requires Consistent(h, levels) && LeftAt(h, levels, prev, 0, k) && k !in KeysOf(h, levels[0])
    ensures Prepared(h, levels, prev, h.maxHeight, k)
  {
    hide Consistent, KeysOf;
    HeightBound(h, levels);
    forall l | 0 <= l < h.maxHeight ensures Precedes(h, l, levels[l], prev[l], k) {
      assert Leaves(h, levels[l], l, prev[l], k);
      if h.next[prev[l]][l].Some? {
        OnLevel(h, levels, l, prev[l]);
      }
    }
  }

  lemma BracketsKey(h: Heap, levels: seq<seq<nat>>, x: nat, next: Option<nat>, k: Key)
    requires Consistent(h, levels) && Brackets(h, levels[0], x, next, Some(k))
    ensures next.Some? ==> next.value < |h.keys|
    ensures k in KeysOf(h, levels[0]) <==> next.Some? && h.keys[next.value] == k
  {
    var list := levels[0];
    LevelOf(h, levels, 0);
    var i :| 0 <= i < |list| && BracketsAt(h, list, i, x, next, Some(k));
    forall m | i + 1 < m < |list| ensures h.keys[list[m]] > h.keys[list[i + 1]] {
      assert Before(h, list[i + 1], h.keys[list[m]]);
    }
    if k in KeysOf(h, list) {
      var j :| 0 < j < |list| && list[j] < |h.keys| && h.keys[list[j]] == k;
      assert !IsAfter(h, list[j], Some(k)) by { assert Before(h, list[0], h.keys[list[j]]); }
      assert i < j;
    }
    if next.Some? && h.keys[next.value] == k {
      assert h.keys[list[i + 1]] == k;
    }
  }

  // ------------------------------------------------------------------ the insertion

  lemma PrepareAbove(h: Heap, levels: seq<seq<nat>>, prev: seq<nat>, i: nat, k: Key)
    requires Consistent(h, levels) && EmptyAbove(h, levels) && Prepared(h, levels, prev, i, k)
    requires h.maxHeight <= i < MAX_HEIGHT
    ensures Prepared(h, levels, prev[i := 0], i + 1, k)
  {
    LevelOf(h, levels, i);
    assert Link(h, i, levels[i], 0);
    forall l | 0 <= l < i + 1 ensures Precedes(h, l, levels[l], prev[i := 0][l], k) {
      assert l < i ==> Precedes(h, l, levels[l], prev[l], k);
    }
  }

  lemma PrepareLess(h: Heap, levels: seq<seq<nat>>, prev: seq<nat>, n: nat, height: nat, k: Key)
    requires Prepared(h, levels, prev, n, k) && height <= n
    ensures Prepared(h, levels, prev, height, k)
  {
  }

  lemma GrowEmpty(h: Heap, levels: seq<seq<nat>>, height: nat)
    requires EmptyAbove(h, levels) && h.maxHeight <= height
    ensures EmptyAbove(h.(maxHeight := height), levels)
  {
  }

  lemma AllocateEmpty(h: Heap, levels: seq<seq<nat>>, k: Key, height: nat)
    requires EmptyAbove(h, levels)
    ensures EmptyAbove(Allocated(h, k, height), levels)
  {
  }

  lemma StoreEmpty(h: Heap, levels: seq<seq<nat>>, n: nat, l: nat, to: Option<nat>)
    requires EmptyAbove(h, levels) && Has(h, n, l)
    ensures EmptyAbove(Stored(h, n, l, to), levels)
  {
  }

  lemma LinkingPrev(h: Heap, levels: seq<seq<nat>>, x: nat, height: nat, prev: seq<nat>, i: nat, k: Key)
    requires Linking(h, levels, x, height, prev, i, k) && i < height
    ensures |prev| == MAX_HEIGHT == |levels| && i < MAX_HEIGHT && Has(h, x, i) && Has(h, prev[i], i)
    ensures prev[i] in levels[i]
  {
    assert Precedes(h, i, levels[i], prev[i], k);
  }

  lemma LinkedLevels(h: Heap, levels: seq<seq<nat>>, x: nat, height: nat, prev: seq<nat>, k: Key)
    requires Linking(h, levels, x, height, prev, height, k)
    ensures |levels| == MAX_HEIGHT && forall l :: 0 <= l < MAX_HEIGHT ==> (x in levels[l] <==> l < height)
  {
  }

  ghost predicate IsInserted(list: seq<nat>, list': seq<nat>, x: nat) {
    exists p :: 0 <= p < |list| && list' == Inserted(list, p, x)
  }

  lemma KeyAt(h: Heap, list: seq<nat>, i: nat)
    requires 0 < i < |list| && list[i] < |h.keys|
    ensures h.keys[list[i]] in KeysOf(h, list)
  {
  }

  lemma OldKey(h: Heap, h': Heap, list: seq<nat>, p: nat, x: nat, y: Key)
    requires p < |list| && h.keys <= h'.keys && y in KeysOf(h, list)
    ensures y in KeysOf(h', Inserted(list, p, x))
  {
    var list' := Inserted(list, p, x);
    var i :| 0 < i < |list| && list[i] < |h.keys| && h.keys[list[i]] == y;
    var j := if i <= p then i else i + 1;
    assert list'[j] == list[i];
    KeyAt(h', list', j);
  }

  lemma NewKey(h: Heap, h': Heap, list: seq<nat>, p: nat, x: nat, k: Key, y: Key)
    requires p < |list| && h'.keys == h.keys + [k] && x == |h.keys| && y in KeysOf(h', Inserted(list, p, x))
    requires forall i :: 0 <= i < |list| ==> list[i] < |h.keys|
    ensures y in KeysOf(h, list) || y == k
  {
    var list' := Inserted(list, p, x);
    var i :| 0 < i < |list'| && list'[i] < |h'.keys| && h'.keys[list'[i]] == y;
    if i != p + 1 {
      var j := if i <= p then i else i - 1;
      assert list'[i] == list[j];
      KeyAt(h, list, j);
    }
  }

  lemma InsertedKeys(h: Heap, h': Heap, list: seq<nat>, list': seq<nat>, x: nat, k: Key)
    requires IsInserted(list, list', x) && h'.keys == h.keys + [k] && x == |h.keys|
    requires list != [] && forall i :: 0 <= i < |list| ==> list[i] < |h.keys|
    ensures KeysOf(h', list') == KeysOf(h, list) + {k}
  {
    hide KeysOf, Inserted;
    var p :| 0 <= p < |list| && list' == Inserted(list, p, x);
    forall y | y in KeysOf(h', list') ensures y in KeysOf(h, list) + {k} {
      NewKey(h, h', list, p, x, k, y);
    }
    forall y | y in KeysOf(h, list) ensures y in KeysOf(h', list') {
      OldKey(h, h', list, p, x, y);
    }
    assert p + 1 < |list'| && list'[p + 1] == x by { InsertedAt(list, p, x); }
    KeyAt(h', list', p + 1);
  }

  lemma InsertedAt(list: seq<nat>, p: nat, x: nat)
    requires p < |list|
    ensures p + 1 < |Inserted(list, p, x)| && Inserted(list, p, x)[p + 1] == x
  {
  }

  lemma AllHave(h: Heap, levels: seq<seq<nat>>)
    requires Consistent(h, levels)
    ensures levels[0] != [] && forall i :: 0 <= i < |levels[0]| ==> levels[0][i] < |h.keys|
  {
    LevelOf(h, levels, 0);
    forall i | 0 <= i < |levels[0]| ensures levels[0][i] < |h.keys| {
      assert Has(h, levels[0][i], 0);
    }
  }
}
