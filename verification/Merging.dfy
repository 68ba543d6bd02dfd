/** The merge loop of a compaction (db/db_impl.cc, DoCompactionWork). */
module Merging {
  import opened Keys
  import opened Files
  import opened Plans
  import opened Compactions

  // ------------------------------------------------------------------ what the loop may drop

  /** An earlier, newer entry of the same user key is already visible to the oldest snapshot. */
  ghost predicate HiddenBefore(input: seq<Entry>, i: nat, snapshot: nat)
    requires i < |input|
  {
    exists j :: 0 <= j < i && input[j].key.user == input[i].key.user && input[j].key.sequence <= snapshot
  }

  /** A deletion every reader sees, of a key that no deeper level can hold. */
  ghost predicate Obsolete(v: Version, from: nat, snapshot: nat, e: Entry) {
    e.key.kind.Deletion? && e.key.sequence <= snapshot && !CoveredBelow(v, from, e.key.user)
  }

  ghost predicate Dropped(v: Version, from: nat, snapshot: nat, input: seq<Entry>, i: nat)
    requires i < |input|
  {
    HiddenBefore(input, i, snapshot) || Obsolete(v, from, snapshot, input[i])
  }

  /** The entries among the first `n` that are kept. */
  ghost function Survivors(v: Version, from: nat, snapshot: nat, input: seq<Entry>, n: nat): seq<Entry>
    requires n <= |input|
  {
    if n == 0 then []
    else Survivors(v, from, snapshot, input, n - 1)
         + (if Dropped(v, from, snapshot, input, n - 1) then [] else [input[n - 1]])
  }

  /** Comparing with the entry just before is enough: entries of a user key are adjacent, newest first. */
  lemma HiddenByPrevious(input: seq<Entry>, i: nat, snapshot: nat)
    requires Sorted(input) && i < |input|
    ensures HiddenBefore(input, i, snapshot) <==>
            i > 0 && input[i - 1].key.user == input[i].key.user && input[i - 1].key.sequence <= snapshot
  {
    if HiddenBefore(input, i, snapshot) {
      var j :| 0 <= j < i && input[j].key.user == input[i].key.user && input[j].key.sequence <= snapshot;
      assert Less(input[i - 1].key, input[i].key);
      if j < i - 1 {
        assert Less(input[j].key, input[i - 1].key);
      }
    }
  }

  /** Of what every reader sees there is one entry per user key, and a deletion only if a deeper level may hold the key:
      nothing is left that could have been dropped. */
  ghost predicate Lean(v: Version, from: nat, snapshot: nat, es: seq<Entry>) {
    && (forall x, y ::
          x in es && y in es && x.key.user == y.key.user && x.key.sequence <= snapshot && y.key.sequence <= snapshot
          ==> x == y)
    && (forall x :: x in es && x.key.kind.Deletion? && x.key.sequence <= snapshot ==>
          exists l, f :: from <= l < |v| && f in v[l] && f.smallest.user <= x.key.user <= f.largest.user)
  }

  lemma {:induction false} SurvivorAt(v: Version, from: nat, snapshot: nat, input: seq<Entry>, n: nat, x: Entry)
    returns (i: nat)
    requires n <= |input| && x in Survivors(v, from, snapshot, input, n)
    ensures i < n && input[i] == x && !Dropped(v, from, snapshot, input, i)
  {
    hide Dropped;
    if x in Survivors(v, from, snapshot, input, n - 1) {
      i := SurvivorAt(v, from, snapshot, input, n - 1, x);
    } else {
      i := n - 1;
    }
  }

  /** The merge drops all that it can. */
  lemma SurvivorsLean(v: Version, from: nat, snapshot: nat, input: seq<Entry>)
    requires Sorted(input)
    ensures Lean(v, from, snapshot, Survivors(v, from, snapshot, input, |input|))
  {
    hide Survivors;
    var es := Survivors(v, from, snapshot, input, |input|);
    forall x, y | x in es && y in es && x.key.user == y.key.user
                  && x.key.sequence <= snapshot && y.key.sequence <= snapshot
      ensures x == y
    {
      var i := SurvivorAt(v, from, snapshot, input, |input|, x);
      var j := SurvivorAt(v, from, snapshot, input, |input|, y);
    }
    forall x | x in es && x.key.kind.Deletion? && x.key.sequence <= snapshot
      ensures exists l, f :: from <= l < |v| && f in v[l] && f.smallest.user <= x.key.user <= f.largest.user
    {
      var i := SurvivorAt(v, from, snapshot, input, |input|, x);
      assert CoveredBelow(v, from, x.key.user);
      var l, f :| from <= l < |v| && f in v[l] && Within(f, x.key.user);
      assert f.smallest.user <= x.key.user <= f.largest.user;
    }
  }

  // ------------------------------------------------------------------ output files

  function Concat(outputs: seq<seq<Entry>>): seq<Entry> {
    if outputs == [] then [] else Concat(outputs[..|outputs| - 1]) + outputs[|outputs| - 1]
  }

  /** The grandparents that end inside the output hold at most `limit` bytes. */
  ghost predicate OverlapBounded(grandparents: seq<File>, output: seq<Entry>, limit: nat) {
    output != [] ==>
      forall m: nat, n: nat ::
        EndBefore(grandparents, output[0].key, m) && EndBefore(grandparents, output[|output| - 1].key, n) && m <= n
        ==> TotalFileSize(grandparents[m..n]) <= limit
  }

  /** The output was closed as soon as it reached the size. */
  ghost predicate SizeBounded(fileSize: seq<Entry> -> nat, output: seq<Entry>, maxSize: nat) {
    forall k :: 0 < k < |output| ==> fileSize(output[..k]) < maxSize
  }

  ghost predicate GoodOutput(grandparents: seq<File>, fileSize: seq<Entry> -> nat, output: seq<Entry>, limit: nat,
                             maxSize: nat) {
    output != [] && OverlapBounded(grandparents, output, limit) && SizeBounded(fileSize, output, maxSize)
  }

  /** While an output is open, the byte counter covers every grandparent passed since its first key. */
  ghost predicate CountsSince(grandparents: seq<File>, first: InternalKey, index: nat, bytes: nat) {
    && index <= |grandparents|
    && exists m: nat ::
         EndBefore(grandparents, first, m) && m <= index && TotalFileSize(grandparents[m..index]) <= bytes
  }

  lemma CountsMore(grandparents: seq<File>, first: InternalKey, index: nat, index': nat, bytes: nat)
    requires CountsSince(grandparents, first, index, bytes)
    requires index <= index' <= |grandparents|
    ensures CountsSince(grandparents, first, index', bytes + TotalFileSize(grandparents[index..index']))
  {
    var m: nat :| EndBefore(grandparents, first, m) && m <= index && TotalFileSize(grandparents[m..index]) <= bytes;
    TotalFileSizeSplits(grandparents, m, index, index');
  }

  lemma EndBeforeUnique(files: seq<File>, key: InternalKey, m: nat, n: nat)
    requires EndBefore(files, key, m) && EndBefore(files, key, n)
    ensures m == n
  {
    assert m < |files| ==> (Less(files[m].largest, key) <==> m < n);
    assert n < |files| ==> (Less(files[n].largest, key) <==> n < m);
  }

  lemma CountsBound(grandparents: seq<File>, output: seq<Entry>, index: nat, bytes: nat, limit: nat)
    requires output != []
    requires CountsSince(grandparents, output[0].key, index, bytes)
    requires EndBefore(grandparents, output[|output| - 1].key, index)
    requires bytes <= limit
    ensures OverlapBounded(grandparents, output, limit)
  {
    var first, last := output[0].key, output[|output| - 1].key;
    var k: nat :| EndBefore(grandparents, first, k) && k <= index && TotalFileSize(grandparents[k..index]) <= bytes;
    forall m: nat, n: nat | EndBefore(grandparents, first, m) && EndBefore(grandparents, last, n) && m <= n
      ensures TotalFileSize(grandparents[m..n]) <= limit
    {
      EndBeforeUnique(grandparents, output[0].key, m, k);
      EndBeforeUnique(grandparents, output[|output| - 1].key, n, index);
    }
  }

  lemma CountsFromHere(grandparents: seq<File>, first: InternalKey, index: nat, bytes: nat)
    requires EndBefore(grandparents, first, index)
    ensures CountsSince(grandparents, first, index, bytes)
  {
    TotalFileSizeNone(grandparents, index);
  }

  lemma SizeBoundedGrows(fileSize: seq<Entry> -> nat, output: seq<Entry>, e: Entry, maxSize: nat)
    requires SizeBounded(fileSize, output, maxSize)
    requires output != [] ==> fileSize(output) < maxSize
    ensures SizeBounded(fileSize, output + [e], maxSize)
  {
    forall k | 0 < k < |output + [e]|
      ensures fileSize((output + [e])[..k]) < maxSize
    {
      if k < |output| {
        assert (output + [e])[..k] == output[..k];
      } else {
        assert (output + [e])[..k] == output;
      }
    }
  }

  /** The grandparents that the counter holds end at the index. */
  ghost predicate CountedFrom(grandparents: seq<File>, index: nat, bytes: nat, m: nat) {
    m <= index <= |grandparents| && bytes == TotalFileSize(grandparents[m..index])
  }

  ghost predicate CountsPassed(grandparents: seq<File>, index: nat, bytes: nat) {
    exists m: nat :: CountedFrom(grandparents, index, bytes, m)
  }

  lemma PassedMore(grandparents: seq<File>, index: nat, index': nat, bytes: nat)
    requires CountsPassed(grandparents, index, bytes) && index <= index' <= |grandparents|
    ensures CountsPassed(grandparents, index', bytes + TotalFileSize(grandparents[index..index']))
  {
    var m: nat :| CountedFrom(grandparents, index, bytes, m);
    TotalFileSizeSplits(grandparents, m, index, index');
    assert CountedFrom(grandparents, index', bytes + TotalFileSize(grandparents[index..index']), m);
  }

  lemma PassedNone(grandparents: seq<File>, index: nat)
    requires index <= |grandparents|
    ensures CountsPassed(grandparents, index, 0)
  {
    TotalFileSizeNone(grandparents, index);
    assert CountedFrom(grandparents, index, 0, index);
  }

  /** An output ends because it reached the size, or because at a key behind it, not behind `bound`, more than `limit`
      bytes of grandparents had been passed. */
  ghost predicate EndsFor(grandparents: seq<File>, fileSize: seq<Entry> -> nat, o: seq<Entry>, limit: nat, maxSize: nat,
                          bound: InternalKey) {
    && o != []
    && (fileSize(o) >= maxSize || exists key :: StopsAt(grandparents, o[|o| - 1].key, key, limit) && AtMost(key, bound))
  }

  ghost predicate StopsAt(grandparents: seq<File>, last: InternalKey, key: InternalKey, limit: nat) {
    Less(last, key) && exists m: nat, n: nat ::
      m <= n && EndBefore(grandparents, key, n) && TotalFileSize(grandparents[m..n]) > limit
  }

  /** No output but the last ends without need. */
  ghost predicate CutsForced(grandparents: seq<File>, fileSize: seq<Entry> -> nat, limit: nat, maxSize: nat,
                             outputs: seq<seq<Entry>>) {
    forall i :: 0 <= i < |outputs| - 1 ==> CutForced(grandparents, fileSize, limit, maxSize, outputs, i)
  }

  ghost predicate CutForced(grandparents: seq<File>, fileSize: seq<Entry> -> nat, limit: nat, maxSize: nat,
                            outputs: seq<seq<Entry>>, i: nat)
    requires i < |outputs| - 1
  {
    outputs[i + 1] != [] && EndsFor(grandparents, fileSize, outputs[i], limit, maxSize, outputs[i + 1][0].key)
  }

  lemma EndsLater(grandparents: seq<File>, fileSize: seq<Entry> -> nat, o: seq<Entry>, limit: nat, maxSize: nat,
                  bound: InternalKey, bound': InternalKey)
    requires EndsFor(grandparents, fileSize, o, limit, maxSize, bound) && AtMost(bound, bound')
    ensures EndsFor(grandparents, fileSize, o, limit, maxSize, bound')
  {
    hide StopsAt;
    if fileSize(o) < maxSize {
      var key :| StopsAt(grandparents, o[|o| - 1].key, key, limit) && AtMost(key, bound);
      assert AtMost(key, bound');
    }
  }

  /** The cuts so far: the last output ended for a reason that the next one, open or to come, does not precede. */
  ghost predicate CutsSoFar(grandparents: seq<File>, fileSize: seq<Entry> -> nat, limit: nat, maxSize: nat,
                            outputs: seq<seq<Entry>>, current: seq<Entry>, next: InternalKey) {
    && CutsForced(grandparents, fileSize, limit, maxSize, outputs)
    && (outputs != [] ==> EndsFor(grandparents, fileSize, outputs[|outputs| - 1], limit, maxSize,
                                  if current != [] then current[0].key else next))
  }

  lemma CutsLater(grandparents: seq<File>, fileSize: seq<Entry> -> nat, limit: nat, maxSize: nat,
                  outputs: seq<seq<Entry>>, current: seq<Entry>, next: InternalKey, next': InternalKey)
    requires CutsSoFar(grandparents, fileSize, limit, maxSize, outputs, current, next) && AtMost(next, next')
    ensures CutsSoFar(grandparents, fileSize, limit, maxSize, outputs, current, next')
  {
    hide EndsFor;
    if outputs != [] && current == [] {
      EndsLater(grandparents, fileSize, outputs[|outputs| - 1], limit, maxSize, next, next');
    }
  }

  lemma CutsGrow(grandparents: seq<File>, fileSize: seq<Entry> -> nat, limit: nat, maxSize: nat,
                 outputs: seq<seq<Entry>>, current: seq<Entry>, e: Entry)
    requires CutsSoFar(grandparents, fileSize, limit, maxSize, outputs, current, e.key)
    ensures CutsSoFar(grandparents, fileSize, limit, maxSize, outputs, current + [e], e.key)
  {
    hide EndsFor;
  }

  /** Closing the open output for a reason. */
  lemma CutsClose(grandparents: seq<File>, fileSize: seq<Entry> -> nat, limit: nat, maxSize: nat,
                  outputs: seq<seq<Entry>>, current: seq<Entry>, next: InternalKey)
    requires CutsSoFar(grandparents, fileSize, limit, maxSize, outputs, current, next) && current != []
    requires EndsFor(grandparents, fileSize, current, limit, maxSize, next)
    ensures CutsSoFar(grandparents, fileSize, limit, maxSize, outputs + [current], [], next)
  {
    CutsLast(grandparents, fileSize, limit, maxSize, outputs, current, next);
  }

  lemma CutsLast(grandparents: seq<File>, fileSize: seq<Entry> -> nat, limit: nat, maxSize: nat,
                 outputs: seq<seq<Entry>>, current: seq<Entry>, next: InternalKey)
    requires CutsSoFar(grandparents, fileSize, limit, maxSize, outputs, current, next)
    ensures CutsForced(grandparents, fileSize, limit, maxSize, if current == [] then outputs else outputs + [current])
  {
    hide EndsFor;
    if current != [] {
      var more: seq<seq<Entry>> := outputs + [current];
      forall i | 0 <= i < |more| - 1
        ensures CutForced(grandparents, fileSize, limit, maxSize, more, i)
      {
        assert i < |outputs| - 1 ==> CutForced(grandparents, fileSize, limit, maxSize, outputs, i);
      }
    }
  }

  lemma CutsNone(grandparents: seq<File>, fileSize: seq<Entry> -> nat, limit: nat, maxSize: nat)
    ensures CutsForced(grandparents, fileSize, limit, maxSize, [])
    ensures forall next :: CutsSoFar(grandparents, fileSize, limit, maxSize, [], [], next)
  {
  }

  /** Closing the open output because of the grandparents that were passed. */
  lemma CutsStop(grandparents: seq<File>, fileSize: seq<Entry> -> nat, limit: nat, maxSize: nat,
                 outputs: seq<seq<Entry>>, current: seq<Entry>, index: nat, bytes: nat, next: InternalKey)
    requires CutsSoFar(grandparents, fileSize, limit, maxSize, outputs, current, next) && current != []
    requires CountsPassed(grandparents, index, bytes) && bytes > limit
    requires EndBefore(grandparents, next, index) && Less(current[|current| - 1].key, next)
    ensures CutsSoFar(grandparents, fileSize, limit, maxSize, outputs + [current], [], next)
  {
    hide CutsSoFar, Less, EndBefore;
    var m: nat :| CountedFrom(grandparents, index, bytes, m);
    assert StopsAt(grandparents, current[|current| - 1].key, next, limit);
    assert AtMost(next, next);
    assert EndsFor(grandparents, fileSize, current, limit, maxSize, next);
    CutsClose(grandparents, fileSize, limit, maxSize, outputs, current, next);
  }

  lemma ConcatSnoc(outputs: seq<seq<Entry>>, o: seq<Entry>)
    ensures Concat(outputs + [o]) == Concat(outputs) + o
  {
    assert (outputs + [o])[..|outputs|] == outputs;
  }

  // ------------------------------------------------------------------ the loop

  /** What `current_user_key` and `last_sequence_for_key` hold before entry `i`. */
  ghost predicate RemembersPrevious(input: seq<Entry>, i: nat, userKey: Option<UserKey>, lastSequence: nat)
    requires i <= |input|
  {
    if i == 0 then userKey == None
    else userKey == Some(input[i - 1].key.user) && lastSequence == input[i - 1].key.sequence
  }

  lemma DropSpelledOut(v: Version, from: nat, snapshot: nat, input: seq<Entry>, i: nat)
    requires |v| == NUM_LEVELS && i < |input|
    ensures Dropped(v, from, snapshot, input, i) <==>
            || (exists j :: 0 <= j < i && input[j].key.user == input[i].key.user && input[j].key.sequence <= snapshot)
            || (input[i].key.kind == Deletion && input[i].key.sequence <= snapshot
                && forall l, f :: from <= l < NUM_LEVELS && f in v[l] ==>
                     !(f.smallest.user <= input[i].key.user <= f.largest.user))
  {
    var u := input[i].key.user;
    if CoveredBelow(v, from, u) {
      var l, f :| from <= l < |v| && f in v[l] && Within(f, u);
      assert f.smallest.user <= u <= f.largest.user;
    } else {
      forall l, f | from <= l < NUM_LEVELS && f in v[l] ensures !(f.smallest.user <= u <= f.largest.user) {
        assert !Within(f, u);
      }
    }
  }

  /** The drop decision for entry `i`. */
  method DecideDrop(c: Compaction, input: seq<Entry>, i: nat, snapshot: nat, userKey: Option<UserKey>,
                    lastSequence: nat)
    returns (drop: bool, userKey': Option<UserKey>, lastSequence': nat)
    requires Sorted(input) && i < |input|
    requires Shaped(c.inputVersion)
    requires snapshot < MAX_SEQUENCE
    requires RemembersPrevious(input, i, userKey, lastSequence)
    requires c.Behind(input[i].key.user)
    modifies c`levelPtrs
    ensures c.Behind(input[i].key.user)
    ensures RemembersPrevious(input, i + 1, userKey', lastSequence')
    ensures drop <==> Dropped(c.inputVersion, c.level + 2, snapshot, input, i)
    ensures drop <==>
            || (exists j :: 0 <= j < i && input[j].key.user == input[i].key.user && input[j].key.sequence <= snapshot)
            || (input[i].key.kind == Deletion && input[i].key.sequence <= snapshot
                && forall l, f :: c.level + 2 <= l < NUM_LEVELS && f in c.inputVersion[l] ==>
                     !(f.smallest.user <= input[i].key.user <= f.largest.user))
  {
    DropSpelledOut(c.inputVersion, c.level + 2, snapshot, input, i);
    hide Sorted, Shaped, CoveredBelow, HiddenBefore;
    var e := input[i];
    HiddenByPrevious(input, i, snapshot);
    userKey', lastSequence', drop := userKey, lastSequence, false;
    if userKey == None || userKey.value != e.key.user {
      userKey', lastSequence' := Some(e.key.user), MAX_SEQUENCE;
    }
    if lastSequence' <= snapshot {
      drop := true;
    } else if e.key.kind.Deletion? && e.key.sequence <= snapshot {
      drop := c.IsBaseLevelForKey(e.key.user);
    }
    lastSequence' := e.key.sequence;
  }

  lemma StartBefore(c: Compaction, input: seq<Entry>)
    requires Shaped(c.inputVersion)
    requires c.grandparentIndex == 0
    requires c.levelPtrs == seq(NUM_LEVELS, _ => 0)
    ensures input != [] ==> c.Behind(input[0].key.user)
    ensures input != [] ==> AllEndBefore(c.grandparents, 0, input[0].key)
  {
  }

  /** What was passed before entry `i` is before entry `i + 1` too. */
  lemma NextKey(c: Compaction, input: seq<Entry>, i: nat)
    requires Sorted(input) && i + 1 < |input|
    requires c.Behind(input[i].key.user)
    requires EndBefore(c.grandparents, input[i].key, c.grandparentIndex)
    ensures c.Behind(input[i + 1].key.user)
    ensures AllEndBefore(c.grandparents, c.grandparentIndex, input[i + 1].key)
    ensures AtMost(input[i].key, input[i + 1].key)
    ensures Less(input[i].key, input[i + 1].key)
    ensures forall k :: Less(k, input[i].key) ==> Less(k, input[i + 1].key)
  {
    assert Less(input[i].key, input[i + 1].key);
  }

  /** The finished outputs are good; the open one is, below the size, and its overlap is counted. */
  ghost predicate OutputsGood(grandparents: seq<File>, fileSize: seq<Entry> -> nat, limit: nat, maxSize: nat,
                              outputs: seq<seq<Entry>>, current: seq<Entry>, index: nat, bytes: nat)
  {
    && (forall o :: o in outputs ==> GoodOutput(grandparents, fileSize, o, limit, maxSize))
    && (current != [] ==>
          && GoodOutput(grandparents, fileSize, current, limit, maxSize)
          && fileSize(current) < maxSize
          && CountsSince(grandparents, current[0].key, index, bytes))
  }

  lemma PassGrandparents(grandparents: seq<File>, fileSize: seq<Entry> -> nat, limit: nat, maxSize: nat,
                         outputs: seq<seq<Entry>>, current: seq<Entry>, index: nat, bytes: nat, index': nat)
    requires OutputsGood(grandparents, fileSize, limit, maxSize, outputs, current, index, bytes)
    requires index <= index' <= |grandparents|
    ensures OutputsGood(grandparents, fileSize, limit, maxSize, outputs, current, index',
                        bytes + TotalFileSize(grandparents[index..index']))
  {
    if current != [] {
      CountsMore(grandparents, current[0].key, index, index', bytes);
    }
  }

  lemma FinishOutput(grandparents: seq<File>, fileSize: seq<Entry> -> nat, limit: nat, maxSize: nat,
                     outputs: seq<seq<Entry>>, current: seq<Entry>, index: nat, bytes: nat, bytes': nat)
    requires current != []
    requires OutputsGood(grandparents, fileSize, limit, maxSize, outputs, current, index, bytes)
    ensures OutputsGood(grandparents, fileSize, limit, maxSize, outputs + [current], [], index, bytes')
    ensures Concat(outputs + [current]) + [] == Concat(outputs) + current
  {
    ConcatSnoc(outputs, current);
  }

  /** Add an entry to the open output, and close it if it is big enough. */
  method AddEntry(ghost grandparents: seq<File>, fileSize: seq<Entry> -> nat, ghost limit: nat, maxSize: nat,
                  outputs: seq<seq<Entry>>, current: seq<Entry>, e: Entry, ghost index: nat, ghost bytes: nat)
    returns (outputs': seq<seq<Entry>>, current': seq<Entry>)
    requires OutputsGood(grandparents, fileSize, limit, maxSize, outputs, current, index, bytes)
    requires CutsSoFar(grandparents, fileSize, limit, maxSize, outputs, current, e.key)
    requires EndBefore(grandparents, e.key, index) && bytes <= limit
    ensures OutputsGood(grandparents, fileSize, limit, maxSize, outputs', current', index, bytes)
    ensures CutsSoFar(grandparents, fileSize, limit, maxSize, outputs', current', e.key)
    ensures current' != [] ==> current'[|current'| - 1] == e
    ensures Concat(outputs') + current' == Concat(outputs) + current + [e]
  {
    hide OverlapBounded, SizeBounded, CountsSince, EndBefore, CutsSoFar, StopsAt, Concat, Less;
    assert SizeBounded(fileSize, current, maxSize) by {
      if current == [] {
        SizeBoundedNothing(fileSize, maxSize);
      }
    }
    SizeBoundedGrows(fileSize, current, e, maxSize);
    if current == [] {
      CountsFromHere(grandparents, e.key, index, bytes);
    }
    current' := current + [e];
    CountsBound(grandparents, current', index, bytes, limit);
    outputs' := outputs;
    CutsGrow(grandparents, fileSize, limit, maxSize, outputs, current, e);
    if fileSize(current') >= maxSize {
      ConcatSnoc(outputs, current');
      CutsClose(grandparents, fileSize, limit, maxSize, outputs, current', e.key);
      outputs', current' := outputs + [current'], [];
    }
  }

  lemma SizeBoundedNothing(fileSize: seq<Entry> -> nat, maxSize: nat)
    ensures SizeBounded(fileSize, [], maxSize)
  {
  }

  /** Drop what no reader can tell from nothing, and cut the rest into output files. */
  method DoCompactionWork(c: Compaction, input: seq<Entry>, snapshot: nat, fileSize: seq<Entry> -> nat,
                          maxSize: nat, maxGrandparentOverlap: nat)
    returns (outputs: seq<seq<Entry>>)
    requires Sorted(input)
    requires Shaped(c.inputVersion)
    requires snapshot < MAX_SEQUENCE
    requires Disjoint(c.grandparents)
    requires c.grandparentIndex == 0 && !c.seenKey && c.overlappedBytes == 0
    requires c.levelPtrs == seq(NUM_LEVELS, _ => 0)
    modifies c
    ensures Concat(outputs) == Survivors(c.inputVersion, c.level + 2, snapshot, input, |input|)
    ensures Lean(c.inputVersion, c.level + 2, snapshot, Concat(outputs))
    ensures c.grandparents == old(c.grandparents)
    ensures CutsForced(c.grandparents, fileSize, maxGrandparentOverlap, maxSize, outputs)
    ensures forall o :: o in outputs ==> GoodOutput(c.grandparents, fileSize, o, maxGrandparentOverlap, maxSize)
  {
    hide Sorted, Shaped, Disjoint, Dropped, EndBefore, AllEndBefore, PassedBy, Less, CountsSince, GoodOutput, Concat,
         CutsSoFar, CutsForced, EndsFor, CountsPassed, Lean, OutputsGood;
    outputs := [];
    var current: seq<Entry> := [];
    var userKey: Option<UserKey>, lastSequence := None, MAX_SEQUENCE;
    var i := 0;
    StartBefore(c, input);
    ConcatNothing();
    SurvivorsLean(c.inputVersion, c.level + 2, snapshot, input);
    PassedNone(c.grandparents, 0);
    CutsNone(c.grandparents, fileSize, maxGrandparentOverlap, maxSize);
    NothingWritten(c.grandparents, fileSize, maxGrandparentOverlap, maxSize);
    while i < |input|
      invariant 0 <= i <= |input|
      invariant RemembersPrevious(input, i, userKey, lastSequence)
      invariant i < |input| ==> c.Behind(input[i].key.user)
      invariant c.grandparents == old(c.grandparents)
      invariant Concat(outputs) + current == Survivors(c.inputVersion, c.level + 2, snapshot, input, i)
      invariant i > 0 ==> c.seenKey
      invariant i == 0 ==> current == []
      invariant OutputsGood(c.grandparents, fileSize, maxGrandparentOverlap, maxSize, outputs, current,
                            c.grandparentIndex, c.overlappedBytes)
      invariant i < |input| ==> AllEndBefore(c.grandparents, c.grandparentIndex, input[i].key)
      invariant i == 0 ==> !c.seenKey && c.overlappedBytes == 0
      invariant CountsPassed(c.grandparents, c.grandparentIndex, c.overlappedBytes)
      invariant i < |input| && current != [] ==> Less(current[|current| - 1].key, input[i].key)
      invariant i < |input| ==>
                  CutsSoFar(c.grandparents, fileSize, maxGrandparentOverlap, maxSize, outputs, current, input[i].key)
      invariant i == |input| ==> CutsForced(c.grandparents, fileSize, maxGrandparentOverlap, maxSize,
                                            if current == [] then outputs else outputs + [current])
    {
      ghost var index, bytes := c.grandparentIndex, c.overlappedBytes;
      var stop := c.ShouldStopBefore(input[i].key, maxGrandparentOverlap);
      if i > 0 {
        PassGrandparents(c.grandparents, fileSize, maxGrandparentOverlap, maxSize, outputs, current, index, bytes,
                         c.grandparentIndex);
        PassedMore(c.grandparents, index, c.grandparentIndex, bytes);
      }
      PassedNone(c.grandparents, c.grandparentIndex);
      if current == [] {
        NoneOpen(c.grandparents, fileSize, maxGrandparentOverlap, maxSize, outputs, index, bytes, c.grandparentIndex,
                 c.overlappedBytes);
      }
      if stop && current != [] {
        CutsStop(c.grandparents, fileSize, maxGrandparentOverlap, maxSize, outputs, current, c.grandparentIndex,
                 bytes + TotalFileSize(c.grandparents[index..c.grandparentIndex]), input[i].key);
        FinishOutput(c.grandparents, fileSize, maxGrandparentOverlap, maxSize, outputs, current, c.grandparentIndex,
                     bytes + TotalFileSize(c.grandparents[index..c.grandparentIndex]), c.overlappedBytes);
        outputs, current := outputs + [current], [];
      }
      var drop;
      drop, userKey, lastSequence := DecideDrop(c, input, i, snapshot, userKey, lastSequence);
      if !drop {
        outputs, current := AddEntry(c.grandparents, fileSize, maxGrandparentOverlap, maxSize, outputs, current,
                                     input[i], c.grandparentIndex, c.overlappedBytes);
      }
      if i + 1 < |input| {
        NextKey(c, input, i);
        CutsLater(c.grandparents, fileSize, maxGrandparentOverlap, maxSize, outputs, current, input[i].key,
                  input[i + 1].key);
      } else {
        CutsLast(c.grandparents, fileSize, maxGrandparentOverlap, maxSize, outputs, current, input[i].key);
      }
      i := i + 1;
    }
    if current != [] {
      FinishOutput(c.grandparents, fileSize, maxGrandparentOverlap, maxSize, outputs, current, c.grandparentIndex,
                   c.overlappedBytes, c.overlappedBytes);
      outputs, current := outputs + [current], [];
    }
    AllWritten(c.grandparents, fileSize, maxGrandparentOverlap, maxSize, outputs, c.grandparentIndex,
               c.overlappedBytes);
  }

  lemma NothingWritten(grandparents: seq<File>, fileSize: seq<Entry> -> nat, limit: nat, maxSize: nat)
    ensures OutputsGood(grandparents, fileSize, limit, maxSize, [], [], 0, 0)
  {
  }

  lemma NoneOpen(grandparents: seq<File>, fileSize: seq<Entry> -> nat, limit: nat, maxSize: nat,
                 outputs: seq<seq<Entry>>, index: nat, bytes: nat, index': nat, bytes': nat)
    requires OutputsGood(grandparents, fileSize, limit, maxSize, outputs, [], index, bytes)
    ensures OutputsGood(grandparents, fileSize, limit, maxSize, outputs, [], index', bytes')
  {
  }

  lemma AllWritten(grandparents: seq<File>, fileSize: seq<Entry> -> nat, limit: nat, maxSize: nat,
                   outputs: seq<seq<Entry>>, index: nat, bytes: nat)
    requires OutputsGood(grandparents, fileSize, limit, maxSize, outputs, [], index, bytes)
    ensures forall o :: o in outputs ==> GoodOutput(grandparents, fileSize, o, limit, maxSize)
  {
  }

  lemma ConcatNothing()
    ensures Concat([]) == []
  {
  }
}
