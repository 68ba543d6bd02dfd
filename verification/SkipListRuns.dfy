/** One inserting thread and a reader without locks (db/skiplist.h): every load and every store is a step.

    Loads and stores are sequentially consistent.  Readers do not write, so one stands for all. */
module SkipListRuns {
  import opened Keys
  import opened SkipLists
  import opened SkipListClass

  /** The inserting thread: before its search; with a place for the key; with a node on the levels below
      `level`, whose link on `level` has been set if `own`. */
  datatype Writer = Resting | Ready(key: Key, height: nat, prev: seq<nat>)
                  | Storing(key: Key, height: nat, prev: seq<nat>, node: nat, level: nat, own: bool)

  /** A search: the node it is at and its level; at the end, the two nodes it found and the list of level 0
      at its last load. */
  datatype Reader = Waiting | Looking(target: Option<Key>, node: nat, level: nat)
                  | Found(target: Option<Key>, last: nat, next: Option<nat>, seen: seq<nat>)

  /** `levels` records what the links of each level give; no step depends on it. */
  datatype State = State(heap: Heap, levels: seq<seq<nat>>, writer: Writer, reader: Reader)

  datatype Step = Search(key: Key, height: nat, prev: seq<nat>) | Grow | Allocate | SetOwn | Publish | Finish
                | StartLooking(target: Option<Key>) | Load

  // ------------------------------------------------------------------ steps

  /** The search of the inserting thread, for which nothing changes; see SkipListClass.SearchPrepares. */
  ghost predicate CanSearch(s: State, k: Key, height: nat, prev: seq<nat>) {
    && s.writer.Resting? && s.levels != [] && k !in KeysOf(s.heap, s.levels[0]) && 1 <= height <= MAX_HEIGHT
    && |prev| == MAX_HEIGHT && LeftAt(s.heap, s.levels, prev, 0, k)
    && forall l :: s.heap.maxHeight <= l < MAX_HEIGHT ==> prev[l] == 0
  }

  ghost predicate CanStore(s: State) {
    && s.writer.Storing? && s.writer.level < s.writer.height && |s.writer.prev| == MAX_HEIGHT
       && s.writer.level < MAX_HEIGHT
    && Has(s.heap, s.writer.node, s.writer.level) && Has(s.heap, s.writer.prev[s.writer.level], s.writer.level)
  }

  ghost predicate CanLoad(s: State) {
    && s.reader.Looking? && Has(s.heap, s.reader.node, s.reader.level) && s.levels != []
    && var next := s.heap.next[s.reader.node][s.reader.level]; next.Some? ==> next.value < |s.heap.keys|
  }

  ghost predicate Enabled(s: State, step: Step) {
    match step
    case Search(k, height, prev) => CanSearch(s, k, height, prev)
    case Grow => s.writer.Ready? && s.writer.height > s.heap.maxHeight
    case Allocate => s.writer.Ready? && s.writer.height <= s.heap.maxHeight
    case SetOwn => CanStore(s) && !s.writer.own
    case Publish =>
      CanStore(s) && s.writer.own && s.writer.level < |s.levels|
      && s.writer.prev[s.writer.level] in s.levels[s.writer.level]
    case Finish => s.writer.Storing? && s.writer.level == s.writer.height
    case StartLooking(_) => s.heap.maxHeight > 0
    case Load => CanLoad(s)
  }

  ghost function PlaceIn(list: seq<nat>, n: nat): (i: nat)
    requires n in list
    ensures i < |list| && list[i] == n
  {
    var i :| 0 <= i < |list| && list[i] == n;
    i
  }

  ghost function AfterLoad(s: State): Reader
    requires CanLoad(s)
  {
    var r := s.reader;
    var next := s.heap.next[r.node][r.level];
    if GoesOn(s.heap, next, r.target) then Looking(r.target, next.value, r.level)
    else if r.level == 0 then Found(r.target, r.node, next, s.levels[0])
    else Looking(r.target, r.node, r.level - 1)
  }

  ghost function Perform(s: State, step: Step): State
    requires Enabled(s, step)
  {
    match step
    case Search(k, height, prev) => s.(writer := Ready(k, height, prev))
    case Grow => s.(heap := s.heap.(maxHeight := s.writer.height))
    case Allocate =>
      var w := s.writer;
      s.(heap := Allocated(s.heap, w.key, w.height),
         writer := Storing(w.key, w.height, w.prev, |s.heap.keys|, 0, false))
    case SetOwn =>
      var w := s.writer;
      s.(heap := Stored(s.heap, w.node, w.level, s.heap.next[w.prev[w.level]][w.level]), writer := w.(own := true))
    case Publish =>
      var w := s.writer;
      var list := s.levels[w.level];
      s.(heap := Stored(s.heap, w.prev[w.level], w.level, Some(w.node)),
         levels := s.levels[w.level := Inserted(list, PlaceIn(list, w.prev[w.level]), w.node)],
         writer := w.(level := w.level + 1, own := false))
    case Finish => s.(writer := Resting)
    case StartLooking(target) => s.(reader := Looking(target, 0, s.heap.maxHeight - 1))
    case Load => s.(reader := AfterLoad(s))
  }

  // ------------------------------------------------------------------ the invariant

  ghost predicate WriterOk(s: State) {
    match s.writer
    case Resting => true
    case Ready(k, height, prev) => 1 <= height && Prepared(s.heap, s.levels, prev, height, k)
    case Storing(k, height, prev, x, level, own) =>
      && Linking(s.heap, s.levels, x, height, prev, level, k)
      && (own ==>
            level < height && Has(s.heap, prev[level], level)
            && s.heap.next[x][level] == s.heap.next[prev[level]][level])
  }

  ghost predicate ReaderOk(s: State) {
    match s.reader
    case Waiting => true
    case Looking(target, x, level) => At(s.heap, s.levels, level, x, target)
    case Found(target, last, next, seen) => Brackets(s.heap, seen, last, next, target)
  }

  ghost predicate Inv(s: State) {
    Consistent(s.heap, s.levels) && EmptyAbove(s.heap, s.levels) && WriterOk(s) && ReaderOk(s)
  }

  // ------------------------------------------------------------------ what readers keep when the list grows

  ghost predicate Grows(s: State, s': State) {
    && s.heap.keys <= s'.heap.keys && |s.levels| == |s'.levels| == MAX_HEIGHT
    && (forall l :: 0 <= l < MAX_HEIGHT ==> PartOf(s.levels[l], s'.levels[l]))
    && (forall n, l :: Has(s.heap, n, l) ==> Has(s'.heap, n, l))
  }

  lemma ReaderKept(s: State, s': State)
    requires ReaderOk(s) && Grows(s, s') && s'.reader == s.reader
    ensures ReaderOk(s')
  {
    match s.reader
    case Waiting =>
    case Looking(target, x, level) =>
      assert PartOf(s.levels[level], s'.levels[level]);
    case Found(target, last, next, seen) =>
      var i :| 0 <= i < |seen| && BracketsAt(s.heap, seen, i, last, next, target);
      assert BracketsAt(s'.heap, seen, i, last, next, target);
  }

  // ------------------------------------------------------------------ every step keeps the invariant

  lemma KeepSearch(s: State, k: Key, height: nat, prev: seq<nat>)
    requires Inv(s) && CanSearch(s, k, height, prev)
    ensures Prepared(s.heap, s.levels, prev, height, k)
  {
    hide Prepared, KeysOf, LeftAt;
    HeightBound(s.heap, s.levels);
    SearchPrepares(s.heap, s.levels, prev, k);
    if height > s.heap.maxHeight {
      var i := s.heap.maxHeight;
      while i < height
        invariant s.heap.maxHeight <= i <= height
        invariant Prepared(s.heap, s.levels, prev, i, k)
      {
        PrepareAbove(s.heap, s.levels, prev, i, k);
        assert prev[i := 0] == prev;
        i := i + 1;
      }
    } else {
      PrepareLess(s.heap, s.levels, prev, s.heap.maxHeight, height, k);
    }
  }

  lemma StepWriter(s: State, step: Step)
    requires Inv(s) && Enabled(s, step) && (step.Search? || step.Grow? || step.Allocate? || step.Finish?)
    ensures Inv(Perform(s, step)) && Grows(s, Perform(s, step))
  {
    hide Consistent, EmptyAbove, Prepared, Linking, ReaderOk, At, Brackets, CanSearch;
    var s' := Perform(s, step);
    HeightBound(s.heap, s.levels);
    match step {
      case Search(k, height, prev) =>
        KeepSearch(s, k, height, prev);
        SearchHeight(s, k, height, prev);
      case Grow =>
        PreparedHeight(s.heap, s.levels, s.writer.prev, s.writer.height, s.writer.key);
        GrowKeeps(s.heap, s.levels, s.writer.height);
        GrowEmpty(s.heap, s.levels, s.writer.height);
        GrowPrepared(s.heap, s.levels, s.writer.prev, s.writer.height, s.writer.key);
      case Allocate =>
        AllocateStep(s.heap, s.levels, s.writer.prev, s.writer.height, s.writer.key);
        AllocateEmpty(s.heap, s.levels, s.writer.key, s.writer.height);
      case Finish =>
    }
    ReaderKept(s, s');
  }

  lemma SearchHeight(s: State, k: Key, height: nat, prev: seq<nat>)
    requires CanSearch(s, k, height, prev)
    ensures 1 <= height
  {
  }

  lemma PreparedHeight(h: Heap, levels: seq<seq<nat>>, prev: seq<nat>, height: nat, k: Key)
    requires Prepared(h, levels, prev, height, k)
    ensures height <= MAX_HEIGHT
  {
  }

  lemma KeepSetOwn(s: State)
    requires Inv(s) && Enabled(s, SetOwn)
    ensures Inv(Perform(s, SetOwn)) && Grows(s, Perform(s, SetOwn))
  {
    hide Consistent, EmptyAbove, Linking, ReaderOk, At, Brackets;
    var w := s.writer;
    HeightBound(s.heap, s.levels);
    OwnStep(s.heap, s.levels, w.node, w.height, w.prev, w.level, w.key);
    StoreEmpty(s.heap, s.levels, w.node, w.level, s.heap.next[w.prev[w.level]][w.level]);
    ReaderKept(s, Perform(s, SetOwn));
  }

  lemma KeepPublish(s: State)
    requires Inv(s) && Enabled(s, Publish)
    ensures Inv(Perform(s, Publish)) && Grows(s, Perform(s, Publish))
  {
    hide Consistent, EmptyAbove, Linking, ReaderOk, At, Brackets, Inserted;
    var w := s.writer;
    var list := s.levels[w.level];
    HeightBound(s.heap, s.levels);
    var p := PublishStep(s.heap, s.levels, w.node, w.height, w.prev, w.level, w.key);
    SamePlace(s, w.level, p, PlaceIn(list, w.prev[w.level]));
    forall n ensures n in list ==> n in Inserted(list, p, w.node) {
      InInserted(list, p, w.node, n);
    }
    ReaderKept(s, Perform(s, Publish));
  }

  lemma SamePlace(s: State, l: nat, a: nat, b: nat)
    requires Consistent(s.heap, s.levels) && l < MAX_HEIGHT && a < |s.levels[l]| && b < |s.levels[l]|
    requires s.levels[l][a] == s.levels[l][b]
    ensures a == b
  {
    LevelOf(s.heap, s.levels, l);
    if a != b {
      Distinct(s.heap, l, s.levels[l], a, b);
    }
  }

  lemma KeepLoad(s: State)
    requires Inv(s) && Enabled(s, Load)
    ensures Inv(Perform(s, Load)) && Grows(s, Perform(s, Load))
  {
    hide Consistent, EmptyAbove, WriterOk, At, Brackets, Linking, Prepared;
    HeightBound(s.heap, s.levels);
    var r := s.reader;
    var next := s.heap.next[r.node][r.level];
    AtHas(s.heap, s.levels, r.level, r.node, r.target);
    StepRight(s.heap, s.levels, r.level, r.node, r.target);
    if !GoesOn(s.heap, next, r.target) {
      if r.level == 0 {
        StopBrackets(s.heap, s.levels, r.node, r.target);
      } else {
        StepDown(s.heap, s.levels, r.level, r.node, r.target);
      }
    }
    WriterSame(s, Perform(s, Load));
  }

  lemma WriterSame(s: State, s': State)
    requires WriterOk(s) && s'.heap == s.heap && s'.levels == s.levels && s'.writer == s.writer
    ensures WriterOk(s')
  {
  }

  lemma KeepStart(s: State, target: Option<Key>)
    requires Inv(s) && Enabled(s, StartLooking(target))
    ensures Inv(Perform(s, StartLooking(target))) && Grows(s, Perform(s, StartLooking(target)))
  {
    hide Consistent, EmptyAbove, WriterOk, At;
    HeightBound(s.heap, s.levels);
    HeadAt(s.heap, s.levels, s.heap.maxHeight - 1, target);
    WriterSame(s, Perform(s, StartLooking(target)));
  }

  /** After every single store each level is sorted and part of the levels below, and nodes stay where they are. */
  lemma StepKeepsInv(s: State, step: Step)
    requires Inv(s) && Enabled(s, step)
    ensures Inv(Perform(s, step)) && Grows(s, Perform(s, step))
  {
    hide Inv, Enabled, Perform, Grows;
    match step
    case Search(_, _, _) => StepWriter(s, step);
    case Grow => StepWriter(s, step);
    case Allocate => StepWriter(s, step);
    case Finish => StepWriter(s, step);
    case SetOwn => KeepSetOwn(s);
    case Publish => KeepPublish(s);
    case StartLooking(target) => KeepStart(s, target);
    case Load => KeepLoad(s);
  }

  /** A search and an insertion can always go on. */
  lemma NeverStuck(s: State)
    requires Inv(s)
    ensures s.reader.Looking? ==> Enabled(s, Load)
    ensures s.writer.Ready? ==> Enabled(s, Grow) || Enabled(s, Allocate)
    ensures s.writer.Storing? ==> Enabled(s, SetOwn) || Enabled(s, Publish) || Enabled(s, Finish)
  {
    hide Consistent, EmptyAbove, At, Brackets, Prepared;
    HeightBound(s.heap, s.levels);
    if s.reader.Looking? {
      AtHas(s.heap, s.levels, s.reader.level, s.reader.node, s.reader.target);
      StepRight(s.heap, s.levels, s.reader.level, s.reader.node, s.reader.target);
    }
    if s.writer.Storing? && s.writer.level < s.writer.height {
      LinkingPrev(s.heap, s.levels, s.writer.node, s.writer.height, s.writer.prev, s.writer.level, s.writer.key);
    }
  }

  // ------------------------------------------------------------------ runs

  ghost predicate Initial(s: State) {
    Consistent(s.heap, s.levels) && EmptyAbove(s.heap, s.levels) && s.writer.Resting? && s.reader.Waiting?
  }

  ghost predicate IsRun(states: seq<State>, steps: seq<Step>) {
    && |states| == |steps| + 1 && Initial(states[0])
    && forall i :: 0 <= i < |steps| ==> Follows(states, steps, i)
  }

  ghost predicate Follows(states: seq<State>, steps: seq<Step>, i: nat)
    requires i < |steps| && |states| == |steps| + 1
  {
    Enabled(states[i], steps[i]) && states[i + 1] == Perform(states[i], steps[i])
  }

  lemma {:induction false} RunInv(states: seq<State>, steps: seq<Step>, i: nat)
    requires IsRun(states, steps) && i < |states|
    ensures Inv(states[i])
  {
    hide Enabled, Perform, Consistent, EmptyAbove;
    if i > 0 {
      RunInv(states, steps, i - 1);
      assert Follows(states, steps, i - 1);
      StepKeepsInv(states[i - 1], steps[i - 1]);
    }
  }

  lemma {:induction false} RunGrows(states: seq<State>, steps: seq<Step>, i: nat, j: nat)
    requires IsRun(states, steps) && i <= j < |states|
    ensures states[i].heap.keys <= states[j].heap.keys
    ensures |states[i].levels| == |states[j].levels| == MAX_HEIGHT && PartOf(states[i].levels[0], states[j].levels[0])
  {
    hide Enabled, Perform, Inv;
    if i < j {
      RunGrows(states, steps, i, j - 1);
      RunInv(states, steps, j - 1);
      assert Follows(states, steps, j - 1);
      StepKeepsInv(states[j - 1], steps[j - 1]);
    } else {
      RunInv(states, steps, i);
      InvLevels(states[i]);
    }
  }

  lemma InvLevels(s: State)
    requires Inv(s)
    ensures |s.levels| == MAX_HEIGHT
  {
  }

  /** A search whose last load is step `j` returns the two neighbours of its target in the list as it is then,
      whatever stores came in between.  All that was in the list at an earlier step `i` is in that list. */
  lemma SearchIsRight(states: seq<State>, steps: seq<Step>, i: nat, j: nat)
    requires IsRun(states, steps) && i <= j < |steps|
    requires steps[j].Load? && states[j + 1].reader.Found?
    ensures |states[i].levels| == |states[j].levels| == MAX_HEIGHT
    ensures var r := states[j + 1].reader;
            Brackets(states[j].heap, states[j].levels[0], r.last, r.next, r.target)
    ensures PartOf(states[i].levels[0], states[j].levels[0])
  {
    hide Inv, Brackets;
    RunGrows(states, steps, i, j);
    RunInv(states, steps, j);
    RunInv(states, steps, j + 1);
    assert Follows(states, steps, j);
    FoundIs(states[j + 1]);
  }

  lemma FoundIs(s: State)
    requires Inv(s) && s.reader.Found?
    ensures Brackets(s.heap, s.reader.seen, s.reader.last, s.reader.next, s.reader.target)
  {
  }
}
