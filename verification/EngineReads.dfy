/** While the database stays open, reads follow the writes that are published, and nothing else changes what they
    find. */
module EngineReads {
  import opened Keys
  import opened Lookup
  import opened Engine
  import opened Maps
  import opened EngineInvariant
  import opened EngineWrites
  import opened EngineFlush
  import opened EngineRuns
  import opened EngineTheorems

  /** Reads without a snapshot find this map. */
  ghost predicate Answers(db: Db, m: map<UserKey, Bytes>) {
    forall k :: Read(db, k, db.lastSequence) == Find(m, k)
  }

  /** The operations of the record that is logged and not yet published. */
  function InWriter(db: Db): seq<Op> {
    if db.writer.Some? then db.writer.value.ops else []
  }

  /** The same before step `n`, given what it was before step `i`. */
  function Waiting(steps: seq<Step>, i: nat, n: nat, first: seq<Op>): seq<Op>
    requires i <= n <= |steps|
  {
    if i == n then first
    else
      match steps[n - 1]
      case Append(ops, _) => ops
      case Insert => []
      case _ => Waiting(steps, i, n - 1, first)
  }

  /** The operations of the records that the steps from `i` up to `n` publish, in order. */
  function Published(steps: seq<Step>, i: nat, n: nat, first: seq<Op>): seq<Op>
    requires i <= n <= |steps|
  {
    if i == n then []
    else Published(steps, i, n - 1, first) + (if steps[n - 1].Insert? then Waiting(steps, i, n - 1, first) else [])
  }

  lemma ReadView(s: State, k: UserKey)
    requires Inv(s) && s.Up?
    ensures Read(s.db, k, s.db.lastSequence) == View(s.history, k, s.db.lastSequence)
  {
    hide DbOk, DiskOk, Read, View;
    HorizonBelow(s.disk, s.history, s.db, s.db.lastSequence);
    ReadIsHistory(s.disk, s.history, s.db, k, s.db.lastSequence);
  }

  lemma AnswersHistory(s: State, m: map<UserKey, Bytes>)
    requires Inv(s) && s.Up?
    ensures Answers(s.db, m) <==> Shows(s.history, m, s.db.lastSequence)
  {
    hide Inv, Read, View, Find;
    forall k ensures Read(s.db, k, s.db.lastSequence) == View(s.history, k, s.db.lastSequence) {
      ReadView(s, k);
    }
  }

  lemma SameShows(a: set<Entry>, b: set<Entry>, m: map<UserKey, Bytes>, at: nat)
    requires Unambiguous(a) && Unambiguous(b) && SameUpTo(a, b, at) && Shows(a, m, at)
    ensures Shows(b, m, at)
  {
    hide View, Unambiguous, SameUpTo, Find;
    forall k ensures View(b, k, at) == Find(m, k) {
      SameView(a, b, k, at);
    }
  }

  lemma LaterShows(s: set<Entry>, m: map<UserKey, Bytes>, last: nat, at: nat)
    requires Unambiguous(s) && Counted(s, last) && last <= at && Shows(s, m, last)
    ensures Shows(s, m, at)
  {
    hide View, Unambiguous, Counted, Find;
    forall k ensures View(s, k, at) == Find(m, k) {
      LaterView(s, k, last, at);
    }
  }

  /** The history is what has been published and the record under way. */
  lemma HistorySplits(s: State) returns (below: set<Entry>)
    requires Inv(s) && s.Up?
    ensures s.history == below + WriterEntries(s.db) && Counted(below, s.db.lastSequence)
    ensures Unambiguous(s.history) && Unambiguous(below)
    ensures s.db.writer.Some? ==> s.db.writer.value.start == s.db.lastSequence + 1
  {
    hide DiskSane, TearOk, StoreOk, LogsMatch, SnapshotsOk, Readable, PinnedReadable, NumbersOk, ManifestMatches, RunOk,
         JobOk, GarbageOk, SetNewer, Unambiguous, Counted, LogsOk, Durable;
    below := s.db.store.base + ImmEntries(s.db) + s.db.mem;
    HistoryUnambiguous(s);
    UnambiguousSub(below, s.history);
  }

  /** Publishing a record does to the map what its operations do. */
  lemma InsertAnswers(s: State, m: map<UserKey, Bytes>)
    requires Inv(s) && Enabled(s, Insert) && s.Up? && Answers(s.db, m)
    ensures Perform(s, Insert).Up? && Answers(Perform(s, Insert).db, Fold(m, InWriter(s.db)))
  {
    hide Inv, Answers, Shows, Counted, Unambiguous, BatchEntries, FirstEntries, SameUpTo;
    var b, last := s.db.writer.value, s.db.lastSequence;
    var s' := Perform(s, Insert);
    AnswersHistory(s, m);
    var below := HistorySplits(s);
    assert b.start == last + 1;
    BelowSame(s.history, below, b, last);
    SameShows(s.history, below, m, last);
    LaterShows(below, m, last, last + |b.ops|);
    BelowStart(below, last, b.start);
    BatchShows(below, b, |b.ops|, m, last + |b.ops|);
    AllOfBatch(b);
    StepKeepsInv(s, Insert);
    AnswersHistory(s', Fold(m, b.ops));
  }

  lemma BelowStart(s: set<Entry>, last: nat, start: nat)
    requires Counted(s, last) && start == last + 1
    ensures forall x :: x in s ==> x.key.sequence < start
  {
  }

  lemma BelowSame(history: set<Entry>, below: set<Entry>, b: Batch, last: nat)
    requires history == below + BatchEntries(b) && b.start == last + 1
    ensures SameUpTo(history, below, last)
  {
    forall e | e in BatchEntries(b) ensures e.key.sequence > last {
      BatchRange(b, e);
    }
  }

  /** No other step changes what reads find. */
  lemma QuietAnswers(s: State, step: Step, m: map<UserKey, Bytes>)
    requires Inv(s) && Enabled(s, step) && s.Up? && !step.Crash? && !step.Insert? && Answers(s.db, m)
    ensures Perform(s, step).Up? && Answers(Perform(s, step).db, m)
    ensures Perform(s, step).db.lastSequence == s.db.lastSequence
    ensures InWriter(Perform(s, step).db) == if step.Append? then step.ops else InWriter(s.db)
  {
    hide Inv, Answers, Shows, Unambiguous, SameUpTo, Enabled, Perform;
    StepGrows(s, step);
    var s' := Perform(s, step);
    LastKept(s, step);
    StepKeepsInv(s, step);
    AnswersHistory(s, m);
    AnswersHistory(s', m);
    HistoryUnambiguous(s);
    HistoryUnambiguous(s');
    SameShows(s.history, s'.history, m, s.db.lastSequence);
  }

  lemma LastKept(s: State, step: Step)
    requires Enabled(s, step) && s.Up? && !step.Crash? && !step.Insert?
    ensures Perform(s, step).Up? && Perform(s, step).db.lastSequence == s.db.lastSequence
    ensures InWriter(Perform(s, step).db) == if step.Append? then step.ops else InWriter(s.db)
  {
    hide FlushedStore, FlushedEdit, Extended, MergedStore, MovedStore, MergeEdit, LiveNumbers, Max, Appended,
         BackgroundFree, CanRecover, Reopened, BatchEntries;
  }

  /** From any open state on, and until the next crash, reads find the map there was with the published operations
      applied in order: whatever else the steps are, and however they interleave. */
  lemma {:induction false} ReadsFollowWrites(states: seq<State>, steps: seq<Step>, i: nat, j: nat,
                                             m: map<UserKey, Bytes>)
    requires IsRun(states, steps) && i <= j < |states| && states[i].Up? && Answers(states[i].db, m)
    requires forall n :: i <= n < j ==> !steps[n].Crash?
    ensures states[j].Up? && InWriter(states[j].db) == Waiting(steps, i, j, InWriter(states[i].db))
    ensures Answers(states[j].db, Fold(m, Published(steps, i, j, InWriter(states[i].db))))
  {
    hide Inv, Enabled, Perform, Answers;
    var first := InWriter(states[i].db);
    if i < j {
      ReadsFollowWrites(states, steps, i, j - 1, m);
      var done := Published(steps, i, j - 1, first);
      RunInv(states, steps, j - 1);
      assert Follows(states, steps, j - 1);
      if steps[j - 1].Insert? {
        InsertAnswers(states[j - 1], Fold(m, done));
        InsertIdle(states[j - 1]);
        FoldMore(m, done, InWriter(states[j - 1].db));
      } else {
        QuietAnswers(states[j - 1], steps[j - 1], Fold(m, done));
        assert done + [] == done;
      }
    }
  }

  lemma InsertIdle(s: State)
    requires Enabled(s, Insert)
    ensures Perform(s, Insert).Up? && InWriter(Perform(s, Insert).db) == []
  {
  }

  /** A database that was never written to, once open, is empty; so the map that reads find from then on is made by the
      published operations alone. */
  lemma NewDatabaseFollowsWrites(states: seq<State>, steps: seq<Step>, i: nat, j: nat)
    requires IsRun(states, steps) && i < j < |states| && steps[i].Recover?
    requires (forall n :: 0 <= n < i ==> !steps[n].Append?) && forall n :: i <= n < j ==> !steps[n].Crash?
    ensures states[j].Up? && Answers(states[j].db, Fold(map[], Published(steps, i + 1, j, [])))
  {
    hide Inv, Answers, Perform, Enabled, View;
    NoHistory(states, steps, i);
    RecoveryShowsHistory(states, steps, i, 0.0);
    assert states[i + 1].Up? && states[i + 1].history == {};
    RunInv(states, steps, i + 1);
    NothingShown(states[i + 1].db.lastSequence);
    AnswersHistory(states[i + 1], map[]);
    assert InWriter(states[i + 1].db) == [] by {
      assert Follows(states, steps, i);
      RecoveredIdle(states[i], steps[i]);
    }
    ReadsFollowWrites(states, steps, i + 1, j, map[]);
  }

  lemma RecoveredIdle(s: State, step: Step)
    requires Enabled(s, step) && step.Recover?
    ensures Perform(s, step).Up? && InWriter(Perform(s, step).db) == []
  {
    hide CanRecover, RecoveredEdits, WithTables, Reflushed;
    RecoverStarts(s, step);
    CanReuse(s.disk, step.opening);
  }

  lemma {:induction false} NoHistory(states: seq<State>, steps: seq<Step>, i: nat)
    requires IsRun(states, steps) && i < |states| && forall n :: 0 <= n < i ==> !steps[n].Append?
    ensures states[i].history == {}
  {
    hide Enabled, Perform;
    if i > 0 {
      NoHistory(states, steps, i - 1);
      assert Follows(states, steps, i - 1);
      NoHistoryStep(states[i - 1], steps[i - 1]);
    }
  }

  lemma NoHistoryStep(s: State, step: Step)
    requires Enabled(s, step) && !step.Append? && s.history == {}
    ensures Perform(s, step).history == {}
  {
    hide FlushedStore, FlushedEdit, Extended, MergedStore, MovedStore, MergeEdit, LiveNumbers, Max, BackgroundFree,
         CanRecover, CanApplyFlush, CanPick, CanApplyMerge, TableOf;
  }
}
