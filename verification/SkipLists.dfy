/** The skip list under the memtable (db/skiplist.h): its links after every single store.

    Nodes are numbered; node 0 is the head, whose key is not looked at.  A key is its place in the
    comparator's order. */
module SkipLists {
  import opened Keys

  type Key = real

  const MAX_HEIGHT := 12

  datatype Heap = Heap(keys: seq<Key>, next: seq<seq<Option<nat>>>, maxHeight: nat)

  // ------------------------------------------------------------------ links

  /** Node `n` exists and has a link on level `l`. */
  predicate Has(h: Heap, n: nat, l: nat) {
    n < |h.next| && n < |h.keys| && l < |h.next[n]|
  }

  /** Node `n` comes before the key. */
  predicate Before(h: Heap, n: nat, k: Key)
    requires n < |h.keys|
  {
    n == 0 || h.keys[n] < k
  }

  /** Place `i` of the list is linked to the next one. */
  predicate Link(h: Heap, l: nat, list: seq<nat>, i: nat)
    requires i < |list| && Has(h, list[i], l)
  {
    h.next[list[i]][l] == if i + 1 < |list| then Some(list[i + 1]) else None
  }

  /** Following the links of level `l` from the head gives `list`, which is sorted. */
  ghost predicate Level(h: Heap, l: nat, list: seq<nat>) {
    && list != [] && list[0] == 0
    && (forall i :: 0 <= i < |list| ==> Has(h, list[i], l))
    && (forall i :: 0 <= i < |list| ==> Link(h, l, list, i))
    && (forall i, j :: 0 <= i < j < |list| ==> list[j] != 0 && Before(h, list[i], h.keys[list[j]]))
  }

  ghost predicate PartOf(upper: seq<nat>, lower: seq<nat>) {
    forall n :: n in upper ==> n in lower
  }

  /** Every level is a sorted list, and part of the levels below. */
  ghost predicate Consistent(h: Heap, levels: seq<seq<nat>>) {
    && |levels| == MAX_HEIGHT && 1 <= h.maxHeight <= MAX_HEIGHT && |h.keys| == |h.next|
    && (forall l :: 0 <= l < MAX_HEIGHT ==> Level(h, l, levels[l]))
    && (forall l, m :: 0 <= l < m < MAX_HEIGHT ==> PartOf(levels[m], levels[l]))
  }

  lemma LevelOf(h: Heap, levels: seq<seq<nat>>, l: nat)
    requires Consistent(h, levels) && l < MAX_HEIGHT
    ensures Level(h, l, levels[l])
  {
  }

  lemma PlaceOf(h: Heap, l: nat, list: seq<nat>, n: nat) returns (i: nat)
    requires Level(h, l, list) && n in list
    ensures i < |list| && list[i] == n && Has(h, n, l) && Link(h, l, list, i)
  {
    i :| 0 <= i < |list| && list[i] == n;
  }

  // ------------------------------------------------------------------ stores that no list sees

  /** `h'` has all nodes of `h`, and the same links from those in `list`. */
  ghost predicate Agrees(h: Heap, h': Heap, l: nat, list: seq<nat>) {
    forall i :: 0 <= i < |list| && Has(h, list[i], l) ==>
      Has(h', list[i], l) && h'.keys[list[i]] == h.keys[list[i]] && h'.next[list[i]][l] == h.next[list[i]][l]
  }

  lemma LevelKept(h: Heap, h': Heap, l: nat, list: seq<nat>)
    requires Level(h, l, list) && Agrees(h, h', l, list)
    ensures Level(h', l, list)
  {
    forall i | 0 <= i < |list| ensures Has(h', list[i], l) && Link(h', l, list, i) {
      assert Link(h, l, list, i);
    }
    forall i, j | 0 <= i < j < |list| ensures list[j] != 0 && Before(h', list[i], h'.keys[list[j]]) {
      assert Before(h, list[i], h.keys[list[j]]);
    }
  }

  /** max_height_ is stored. */
  lemma GrowKeeps(h: Heap, levels: seq<seq<nat>>, height: nat)
    requires Consistent(h, levels) && 1 <= height <= MAX_HEIGHT
    ensures Consistent(h.(maxHeight := height), levels)
  {
    forall l | 0 <= l < MAX_HEIGHT ensures Level(h.(maxHeight := height), l, levels[l]) {
      LevelKept(h, h.(maxHeight := height), l, levels[l]);
    }
  }

  function Allocated(h: Heap, k: Key, height: nat): Heap {
    h.(keys := h.keys + [k], next := h.next + [seq(height, _ => None)])
  }

  lemma AllocateKeeps(h: Heap, levels: seq<seq<nat>>, k: Key, height: nat)
    requires Consistent(h, levels)
    ensures Consistent(Allocated(h, k, height), levels)
    ensures forall l :: 0 <= l < MAX_HEIGHT ==> |h.keys| !in levels[l]
  {
    forall l | 0 <= l < MAX_HEIGHT ensures Level(Allocated(h, k, height), l, levels[l]) && |h.keys| !in levels[l] {
      LevelOf(h, levels, l);
      LevelKept(h, Allocated(h, k, height), l, levels[l]);
    }
  }

  function Stored(h: Heap, n: nat, l: nat, to: Option<nat>): Heap
    requires Has(h, n, l)
  {
    h.(next := h.next[n := h.next[n][l := to]])
  }

  /** A link of a node that is not on that level yet. */
  lemma OwnLinkKeeps(h: Heap, levels: seq<seq<nat>>, x: nat, l: nat, to: Option<nat>)
    requires Consistent(h, levels) && l < MAX_HEIGHT && Has(h, x, l) && x !in levels[l]
    ensures Consistent(Stored(h, x, l, to), levels)
  {
    var h' := Stored(h, x, l, to);
    forall m | 0 <= m < MAX_HEIGHT ensures Level(h', m, levels[m]) {
      LevelOf(h, levels, m);
      LevelKept(h, h', m, levels[m]);
    }
  }

  // ------------------------------------------------------------------ the store that publishes

  /** `p` is the last node before the key on level `l`. */
  ghost predicate Precedes(h: Heap, l: nat, list: seq<nat>, p: nat, k: Key) {
    && p in list && Has(h, p, l) && Before(h, p, k)
    && (h.next[p][l].Some? ==> h.next[p][l].value < |h.keys| && h.keys[h.next[p][l].value] > k)
  }

  function Inserted(list: seq<nat>, i: nat, x: nat): seq<nat>
    requires i < |list|
  {
    list[..i + 1] + [x] + list[i + 1..]
  }

  /** All of the list is on the right side of the key. */
  lemma Split(h: Heap, l: nat, list: seq<nat>, i: nat, k: Key)
    requires Level(h, l, list) && i < |list| && Precedes(h, l, list, list[i], k)
    ensures forall j :: 0 <= j <= i ==> Before(h, list[j], k)
    ensures forall j :: i < j < |list| ==> h.keys[list[j]] > k
  {
    assert Link(h, l, list, i);
    forall j | 0 <= j <= i ensures Before(h, list[j], k) {
      assert j < i ==> Before(h, list[j], h.keys[list[i]]) && list[i] != 0;
    }
    forall j | i < j < |list| ensures h.keys[list[j]] > k {
      assert i + 1 < j ==> Before(h, list[i + 1], h.keys[list[j]]) && list[i + 1] != 0;
    }
  }

  lemma PublishLevel(h: Heap, l: nat, list: seq<nat>, i: nat, x: nat)
    requires Level(h, l, list) && i < |list| && Has(h, x, l) && x != 0 && x !in list
    requires Precedes(h, l, list, list[i], h.keys[x])
    requires h.next[x][l] == h.next[list[i]][l]
    ensures Level(Stored(h, list[i], l, Some(x)), l, Inserted(list, i, x))
  {
    hide Precedes;
    var h' := Stored(h, list[i], l, Some(x));
    var list' := Inserted(list, i, x);
    assert Link(h, l, list, i);
    forall j | 0 <= j < |list'| ensures Has(h', list'[j], l) {
      assert list'[j] == if j <= i then list[j] else if j == i + 1 then x else list[j - 1];
    }
    forall j | 0 <= j < |list'| ensures Link(h', l, list', j) {
      PublishLink(h, l, list, i, x, j);
    }
    forall a, b | 0 <= a < b < |list'| ensures list'[b] != 0 && Before(h', list'[a], h'.keys[list'[b]]) {
      PublishOrder(h, l, list, i, x, a, b);
    }
  }

  lemma Distinct(h: Heap, l: nat, list: seq<nat>, a: nat, b: nat)
    requires Level(h, l, list) && a < |list| && b < |list| && a != b
    ensures list[a] != list[b]
  {
    if a < b {
      assert Before(h, list[a], h.keys[list[b]]);
    } else {
      assert Before(h, list[b], h.keys[list[a]]);
    }
  }

  lemma PublishLink(h: Heap, l: nat, list: seq<nat>, i: nat, x: nat, j: nat)
    requires Level(h, l, list) && i < |list| && Has(h, x, l) && x !in list
    requires h.next[x][l] == h.next[list[i]][l]
    requires j <= |list| && Has(Stored(h, list[i], l, Some(x)), Inserted(list, i, x)[j], l)
    ensures Link(Stored(h, list[i], l, Some(x)), l, Inserted(list, i, x), j)
  {
    var list' := Inserted(list, i, x);
    if j < i {
      assert Link(h, l, list, j);
      Distinct(h, l, list, i, j);
    } else if j == i + 1 {
      assert Link(h, l, list, i);
    } else if j > i + 1 {
      assert Link(h, l, list, j - 1);
      Distinct(h, l, list, i, j - 1);
    }
  }

  lemma PublishOrder(h: Heap, l: nat, list: seq<nat>, i: nat, x: nat, a: nat, b: nat)
    requires Level(h, l, list) && i < |list| && Has(h, x, l) && x != 0
    requires Precedes(h, l, list, list[i], h.keys[x])
    requires a < b <= |list|
    ensures var list' := Inserted(list, i, x);
            list'[b] != 0 && Has(h, list'[a], l) && Has(h, list'[b], l) && Before(h, list'[a], h.keys[list'[b]])
  {
    Split(h, l, list, i, h.keys[x]);
    hide Precedes;
    var list' := Inserted(list, i, x);
    assert list'[a] == if a <= i then list[a] else if a == i + 1 then x else list[a - 1];
    assert list'[b] == if b <= i then list[b] else if b == i + 1 then x else list[b - 1];
    if a != i + 1 && b != i + 1 {
      var c, d := if a <= i then a else a - 1, if b <= i then b else b - 1;
      assert Before(h, list[c], h.keys[list[d]]);
    }
  }

  /** The store that makes node `x` part of level `l`: every level is sorted and part of the one below. */
  lemma PublishKeeps(h: Heap, levels: seq<seq<nat>>, l: nat, p: nat, x: nat) returns (i: nat)
    requires Consistent(h, levels) && l < MAX_HEIGHT && Has(h, x, l) && x != 0 && x !in levels[l]
    requires Precedes(h, l, levels[l], p, h.keys[x])
    requires h.next[x][l] == h.next[p][l]
    requires forall m :: 0 <= m < l ==> x in levels[m]
    ensures i < |levels[l]| && levels[l][i] == p
    ensures Consistent(Stored(h, p, l, Some(x)), levels[l := Inserted(levels[l], i, x)])
  {
    LevelOf(h, levels, l);
    i := PlaceOf(h, l, levels[l], p);
    var h' := Stored(h, p, l, Some(x));
    var levels' := levels[l := Inserted(levels[l], i, x)];
    PublishLevel(h, l, levels[l], i, x);
    forall m | 0 <= m < MAX_HEIGHT ensures Level(h', m, levels'[m]) {
      if m != l {
        LevelOf(h, levels, m);
        LevelKept(h, h', m, levels[m]);
      }
    }
    forall a, b | 0 <= a < b < MAX_HEIGHT ensures PartOf(levels'[b], levels'[a]) {
      assert PartOf(levels[b], levels[a]);
      forall n | n in levels'[b] ensures n in levels'[a] {
        InInserted(levels[l], i, x, n);
      }
    }
  }

  lemma InInserted(list: seq<nat>, i: nat, x: nat, n: nat)
    requires i < |list|
    ensures n in Inserted(list, i, x) <==> n in list || n == x
  {
    assert list == list[..i + 1] + list[i + 1..];
  }

  // ------------------------------------------------------------------ searching

  /** A search for the place of `target`; no target is past the end. */
  predicate IsAfter(h: Heap, n: nat, target: Option<Key>)
    requires n < |h.keys|
  {
    n == 0 || target.None? || h.keys[n] < target.value
  }

  /** KeyIsAfterNode: there is a next node and it is still before the target. */
  predicate GoesOn(h: Heap, next: Option<nat>, target: Option<Key>)
    requires next.Some? ==> next.value < |h.keys|
  {
    next.Some? && (target.None? || h.keys[next.value] < target.value)
  }

  /** The searcher is at a node of the level that is before the target. */
  ghost predicate At(h: Heap, levels: seq<seq<nat>>, l: nat, x: nat, target: Option<Key>) {
    l < MAX_HEIGHT && |levels| == MAX_HEIGHT && x in levels[l] && Has(h, x, l) && IsAfter(h, x, target)
  }

  /** On level 0, `x` is the last node before the target and `next` the first one that is not. */
  ghost predicate Brackets(h: Heap, list: seq<nat>, x: nat, next: Option<nat>, target: Option<Key>) {
    exists i :: 0 <= i < |list| && BracketsAt(h, list, i, x, next, target)
  }

  ghost predicate BracketsAt(h: Heap, list: seq<nat>, i: nat, x: nat, next: Option<nat>, target: Option<Key>)
    requires i < |list|
  {
    && list[i] == x && next == (if i + 1 < |list| then Some(list[i + 1]) else None)
    && (forall j :: 0 <= j < |list| ==> list[j] < |h.keys|)
    && (forall j :: 0 <= j <= i ==> IsAfter(h, list[j], target))
    && (forall j :: i < j < |list| ==> !IsAfter(h, list[j], target))
  }

  lemma StepRight(h: Heap, levels: seq<seq<nat>>, l: nat, x: nat, target: Option<Key>)
    requires Consistent(h, levels) && At(h, levels, l, x, target)
    ensures var next := h.next[x][l];
            && (next.Some? ==> next.value < |h.keys|)
            && (GoesOn(h, next, target) ==> At(h, levels, l, next.value, target))
  {
    LevelOf(h, levels, l);
    var i := PlaceOf(h, l, levels[l], x);
    if i + 1 < |levels[l]| {
      assert Has(h, levels[l][i + 1], l);
    }
  }

  lemma StepDown(h: Heap, levels: seq<seq<nat>>, l: nat, x: nat, target: Option<Key>)
    requires Consistent(h, levels) && At(h, levels, l, x, target) && l > 0
    ensures At(h, levels, l - 1, x, target)
  {
    assert PartOf(levels[l], levels[l - 1]);
    LevelOf(h, levels, l - 1);
    var i := PlaceOf(h, l - 1, levels[l - 1], x);
  }

  /** Where the search stops on level 0, it has found the target's place. */
  lemma StopBrackets(h: Heap, levels: seq<seq<nat>>, x: nat, target: Option<Key>)
    requires Consistent(h, levels) && At(h, levels, 0, x, target)
    requires h.next[x][0].Some? ==> h.next[x][0].value < |h.keys|
    requires !GoesOn(h, h.next[x][0], target)
    ensures Brackets(h, levels[0], x, h.next[x][0], target)
  {
    LevelOf(h, levels, 0);
    var list := levels[0];
    var i := PlaceOf(h, 0, list, x);
    forall j | 0 <= j < |list| ensures list[j] < |h.keys| {
      assert Has(h, list[j], 0);
    }
    forall j | 0 <= j <= i ensures IsAfter(h, list[j], target) {
      assert j < i ==> Before(h, list[j], h.keys[list[i]]) && list[i] != 0;
    }
    forall j | i < j < |list| ensures !IsAfter(h, list[j], target) {
      assert i + 1 < j ==> Before(h, list[i + 1], h.keys[list[j]]) && list[i + 1] != 0;
    }
    assert BracketsAt(h, list, i, x, h.next[x][0], target);
  }

  lemma HeadAt(h: Heap, levels: seq<seq<nat>>, l: nat, target: Option<Key>)
    requires Consistent(h, levels) && l < MAX_HEIGHT
    ensures At(h, levels, l, 0, target)
  {
    LevelOf(h, levels, l);
  }

  lemma AtHas(h: Heap, levels: seq<seq<nat>>, l: nat, x: nat, target: Option<Key>)
    requires At(h, levels, l, x, target)
    ensures l < MAX_HEIGHT && |levels| == MAX_HEIGHT && x in levels[l] && Has(h, x, l) && IsAfter(h, x, target)
  {
  }

  lemma HeightBound(h: Heap, levels: seq<seq<nat>>)
    requires Consistent(h, levels)
    ensures 1 <= h.maxHeight <= MAX_HEIGHT && |levels| == MAX_HEIGHT && |h.keys| == |h.next| && |h.keys| > 0
  {
    LevelOf(h, levels, 0);
    assert Has(h, levels[0][0], 0);
  }

  // ------------------------------------------------------------------ an insertion under way

  /** Levels that no node has reached are empty. */
  ghost predicate EmptyAbove(h: Heap, levels: seq<seq<nat>>) {
    forall l :: h.maxHeight <= l < |levels| ==> levels[l] == [0]
  }

  /** Node `x` is on the levels below `i` and on no other; `prev` holds its place on the levels to come. */
  ghost predicate Linking(h: Heap, levels: seq<seq<nat>>, x: nat, height: nat, prev: seq<nat>, i: nat, k: Key) {
    && |levels| == MAX_HEIGHT && |prev| == MAX_HEIGHT && i <= height <= h.maxHeight <= MAX_HEIGHT
    && 0 < x < |h.keys| == |h.next| && h.keys[x] == k && |h.next[x]| == height
    && (forall l :: 0 <= l < i ==> x in levels[l])
    && (forall l :: i <= l < MAX_HEIGHT ==> x !in levels[l])
    && (forall l :: i <= l < height ==> Precedes(h, l, levels[l], prev[l], k))
  }

  lemma PrecedesKept(h: Heap, h': Heap, l: nat, list: seq<nat>, p: nat, k: Key)
    requires Precedes(h, l, list, p, k)
    requires h.keys <= h'.keys && Has(h', p, l) && h'.next[p][l] == h.next[p][l]
    ensures Precedes(h', l, list, p, k)
  {
  }

  /** The first of the two stores for a level: the new node's own link. */
  lemma OwnStep(h: Heap, levels: seq<seq<nat>>, x: nat, height: nat, prev: seq<nat>, i: nat, k: Key)
    requires Consistent(h, levels) && Linking(h, levels, x, height, prev, i, k) && i < height
    ensures Has(h, prev[i], i) && Has(h, x, i) && prev[i] in levels[i]
    ensures var h' := Stored(h, x, i, h.next[prev[i]][i]);
            && Consistent(h', levels) && Linking(h', levels, x, height, prev, i, k)
            && h'.next[x][i] == h'.next[prev[i]][i]
  {
    hide Consistent;
    assert Precedes(h, i, levels[i], prev[i], k);
    var h' := Stored(h, x, i, h.next[prev[i]][i]);
    OwnLinkKeeps(h, levels, x, i, h.next[prev[i]][i]);
    forall l | i <= l < height ensures Precedes(h', l, levels[l], prev[l], k) {
      assert Precedes(h, l, levels[l], prev[l], k);
      PrecedesKept(h, h', l, levels[l], prev[l], k);
    }
  }

  /** The second store: the link that makes the node part of the level. */
  lemma PublishStep(h: Heap, levels: seq<seq<nat>>, x: nat, height: nat, prev: seq<nat>, i: nat, k: Key)
    returns (p: nat)
    requires Consistent(h, levels) && Linking(h, levels, x, height, prev, i, k) && i < height
    requires Has(h, prev[i], i) && Has(h, x, i) && h.next[x][i] == h.next[prev[i]][i]
    ensures p < |levels[i]| && levels[i][p] == prev[i]
    ensures var h' := Stored(h, prev[i], i, Some(x));
            var levels' := levels[i := Inserted(levels[i], p, x)];
            && Consistent(h', levels') && Linking(h', levels', x, height, prev, i + 1, k)
            && (EmptyAbove(h, levels) ==> EmptyAbove(h', levels'))
  {
    hide Consistent;
    assert Precedes(h, i, levels[i], prev[i], k);
    p := PublishKeeps(h, levels, i, prev[i], x);
    var h' := Stored(h, prev[i], i, Some(x));
    var levels' := levels[i := Inserted(levels[i], p, x)];
    InInserted(levels[i], p, x, x);
    forall l | i + 1 <= l < height ensures Precedes(h', l, levels'[l], prev[l], k) {
      assert Precedes(h, l, levels[l], prev[l], k);
      PrecedesKept(h, h', l, levels[l], prev[l], k);
    }
  }

  /** What the search has to find before an insertion. */
  ghost predicate Prepared(h: Heap, levels: seq<seq<nat>>, prev: seq<nat>, height: nat, k: Key) {
    && |prev| == MAX_HEIGHT && |levels| == MAX_HEIGHT && height <= MAX_HEIGHT
    && forall l :: 0 <= l < height ==> Precedes(h, l, levels[l], prev[l], k)
  }

  /** A node with no links yet is ready to be linked. */
  lemma AllocateStep(h: Heap, levels: seq<seq<nat>>, prev: seq<nat>, height: nat, k: Key)
    requires Consistent(h, levels) && Prepared(h, levels, prev, height, k) && height <= h.maxHeight
    ensures var h' := Allocated(h, k, height);
            Consistent(h', levels) && Linking(h', levels, |h.keys|, height, prev, 0, k)
  {
    hide Consistent;
    var h' := Allocated(h, k, height);
    HeightBound(h, levels);
    AllocateKeeps(h, levels, k, height);
    forall l | 0 <= l < height ensures Precedes(h', l, levels[l], prev[l], k) {
      assert Precedes(h, l, levels[l], prev[l], k);
      PrecedesKept(h, h', l, levels[l], prev[l], k);
    }
  }

  lemma GrowPrepared(h: Heap, levels: seq<seq<nat>>, prev: seq<nat>, height: nat, k: Key)
    requires Prepared(h, levels, prev, height, k)
    ensures Prepared(h.(maxHeight := height), levels, prev, height, k)
  {
    forall l | 0 <= l < height ensures Precedes(h.(maxHeight := height), l, levels[l], prev[l], k) {
      PrecedesKept(h, h.(maxHeight := height), l, levels[l], prev[l], k);
    }
  }
}
