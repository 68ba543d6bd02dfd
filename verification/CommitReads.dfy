/** What clients see of their writes: the engine, driven by the writer queue, answers reads with the map that the
    acknowledged writes make. */
module CommitReads {
  import opened Keys
  import opened Engine
  import opened Maps
  import opened EngineInvariant
  import opened EngineTheorems
  import opened EngineReads
  import opened EngineWork
  import opened EngineCommit
  import Queue = GroupCommit
  import WriteBatches

  /** The map after the operations of a write batch, one after the other. */
  function Written(m: map<Bytes, Bytes>, ops: seq<WriteBatches.BatchOp>): map<Bytes, Bytes> {
    if ops == [] then m
    else
      var before := Written(m, ops[..|ops| - 1]);
      match ops[|ops| - 1]
      case Put(key, value) => before[key := value]
      case Delete(key) => before - {key}
  }

  function Value(m: map<Bytes, Bytes>, key: Bytes): Option<Bytes> {
    if key in m then Some(m[key]) else None
  }

  /** The operations of the writers that were told that all is well, in order. */
  ghost function Acknowledged(q: Queue.State): seq<WriteBatches.BatchOp> {
    if Queue.Known(q, q.acknowledged) then Queue.GroupOps(Queue.Requests(q, q.acknowledged)) else []
  }

  /** The comparator takes no other byte string for this key. */
  ghost predicate Distinct(rank: Bytes -> UserKey, key: Bytes) {
    forall other :: rank(other) == rank(key) ==> other == key
  }

  // ------------------------------------------------------------------ keys and their places

  lemma {:induction false} RankedFold(m: map<Bytes, Bytes>, n: map<UserKey, Bytes>, ops: seq<WriteBatches.BatchOp>,
                                      rank: Bytes -> UserKey, key: Bytes)
    requires Distinct(rank, key) && Find(n, rank(key)) == Value(m, key)
    ensures Find(Fold(n, RankedOps(ops, rank)), rank(key)) == Value(Written(m, ops), key)
  {
    if ops != [] {
      var init := ops[..|ops| - 1];
      RankedFold(m, n, init, rank, key);
      assert RankedOps(ops, rank)[..|ops| - 1] == RankedOps(init, rank);
    }
  }

  lemma {:induction false} WrittenMore(m: map<Bytes, Bytes>, a: seq<WriteBatches.BatchOp>,
                                       b: seq<WriteBatches.BatchOp>)
    ensures Written(m, a + b) == Written(Written(m, a), b)
  {
    if b == [] {
      assert a + b == a;
    } else {
      WrittenMore(m, a, b[..|b| - 1]);
      assert (a + b)[..|a + b| - 1] == a + b[..|b| - 1];
    }
  }

  // ------------------------------------------------------------------ acknowledged writes

  /** The operations that the step makes visible. */
  function Publishes(q: Queue.State, step: Queue.Step): seq<WriteBatches.BatchOp> {
    if step.Publish? && q.phase.Inserting? then q.phase.record.ops else []
  }

  lemma AcknowledgedGrows(q: Queue.State, step: Queue.Step)
    requires Queue.Inv(q) && Queue.Enabled(q, step)
    ensures Acknowledged(Queue.Perform(q, step)) == Acknowledged(q) + Publishes(q, step)
  {
    hide Queue.Inv, Queue.Perform, Queue.Enabled, Acknowledged, Publishes, Queue.LogOps, Queue.Published;
    Queue.StepKeepsInv(q, step);
    AcknowledgedIsPublished(q);
    AcknowledgedIsPublished(Queue.Perform(q, step));
    RecordInHand(q);
    PublishedGrows(q, step);
  }

  lemma AcknowledgedIsPublished(q: Queue.State)
    requires Queue.Inv(q)
    ensures Acknowledged(q) == Queue.LogOps(Queue.Published(q))
  {
    hide Queue.PhaseOk, Queue.LogOk, Queue.Known, Queue.GroupOps, Queue.LogOps, Queue.Published, Queue.LogEntries,
         Queue.Partial;
  }

  lemma RecordInHand(q: Queue.State)
    requires Queue.Inv(q)
    ensures q.phase.Logging? ==> !q.broken
    ensures q.phase.Inserting? ==> !q.broken && q.log != [] && q.log[|q.log| - 1] == q.phase.record
  {
    hide Queue.LogOk, Queue.AckOk, Queue.InHand;
  }

  lemma PublishedGrows(q: Queue.State, step: Queue.Step)
    requires Queue.Enabled(q, step) && (q.phase.Logging? ==> !q.broken)
    requires q.phase.Inserting? ==> !q.broken && q.log != [] && q.log[|q.log| - 1] == q.phase.record
    ensures Queue.LogOps(Queue.Published(Queue.Perform(q, step))) ==
            Queue.LogOps(Queue.Published(q)) + Publishes(q, step)
  {
    hide Queue.LogOps, Queue.GroupOps, Queue.IsGroup, Queue.Known;
    var q' := Queue.Perform(q, step);
    if step.Publish? {
      LogOpsLast(q.log);
      assert Queue.Published(q) == q.log[..|q.log| - 1] && Queue.Published(q') == q.log;
    } else {
      assert step.Log? && |q'.log| > |q.log| ==> q'.log[..|q.log|] == q.log;
      assert Queue.Published(q') == Queue.Published(q);
    }
  }

  lemma LogOpsLast(log: seq<Queue.Record>)
    requires log != []
    ensures Queue.LogOps(log) == Queue.LogOps(log[..|log| - 1]) + log[|log| - 1].ops
  {
  }

  // ------------------------------------------------------------------ reads

  /** Some map answers all reads. */
  lemma SomeMapAnswers(s: State) returns (n: map<UserKey, Bytes>)
    requires Inv(s) && s.Up?
    ensures Answers(s.db, n)
  {
    hide Inv, Answers;
    var h, at := s.history, s.db.lastSequence;
    n := map k | k in (set e | e in h :: e.key.user) && View(h, k, at).Some? :: View(h, k, at).value;
    forall k ensures View(h, k, at) == Find(n, k) {
      if AnyVisible(h, k, at) {
        var e := Newest(h, k, at);
        assert e.key.user in (set e | e in h :: e.key.user);
      }
    }
    AnswersHistory(s, n);
  }

  lemma MoveAnswers(q: Queue.State, s: State, move: Move, q': Queue.State, s': State, rank: Bytes -> UserKey,
                    n: map<UserKey, Bytes>)
    requires Queue.Inv(q) && Inv(s) && InStep(q, s, rank) && Moves(q, s, move, q', s', rank)
    requires s.Up? && Answers(s.db, n)
    ensures s'.Up?
    ensures Answers(s'.db, Fold(n, RankedOps(if move.ByQueue? then Publishes(q, move.queueStep) else [], rank)))
  {
    hide Queue.Inv, Inv, Answers, Queue.Perform, Perform, Enabled, GoesWell;
    match move {
      case ByEngine(step) =>
        QuietAnswers(s, step, n);
      case ByQueue(step) =>
        if EngineSteps(q, step, rank) != [] {
          var x := EngineSteps(q, step, rank)[0];
          LeadsBy(s, x, s');
          if x.Insert? {
            InsertedOps(q, s, rank);
            InsertAnswers(s, n);
          } else {
            QuietAnswers(s, x, n);
          }
        }
    }
  }

  lemma LeadsBy(s: State, x: Step, s': State)
    requires Leads(s, [x], s')
    ensures Enabled(s, x) && s' == Perform(s, x)
  {
    hide Enabled, Perform;
    assert [x][1..] == [];
  }

  lemma InsertedOps(q: Queue.State, s: State, rank: Bytes -> UserKey)
    requires Queue.Inv(q) && InStep(q, s, rank) && q.phase.Inserting?
    ensures s.Up? && InWriter(s.db) == RankedOps(q.phase.record.ops, rank)
  {
    hide Queue.LogOk, Queue.AckOk, BatchEntries;
  }

  /** However the steps of writers, readers and the background thread interleave, and whatever syncs fail: reads of a
      key find what the map there was at the start holds for it, with the writes acknowledged since applied in
      order. */
  lemma {:induction false} ReadsFollowAcknowledged(qs: seq<Queue.State>, ss: seq<State>, moves: seq<Move>, i: nat,
                                                   rank: Bytes -> UserKey, key: Bytes, m: map<Bytes, Bytes>)
    returns (n: map<UserKey, Bytes>)
    requires IsJointRun(qs, ss, moves, rank) && i < |qs| && Distinct(rank, key)
    requires ss[0].Up? && Read(ss[0].db, rank(key), ss[0].db.lastSequence) == Value(m, key)
    ensures ss[i].Up? && Answers(ss[i].db, n)
    ensures Acknowledged(qs[0]) <= Acknowledged(qs[i])
    ensures Find(n, rank(key)) == Value(Written(m, Acknowledged(qs[i])[|Acknowledged(qs[0])|..]), key)
    ensures Read(ss[i].db, rank(key), ss[i].db.lastSequence) ==
              Value(Written(m, Acknowledged(qs[i])[|Acknowledged(qs[0])|..]), key)
  {
    hide Queue.Inv, Inv, InStep, Read, Distinct, Acknowledged, Find, Value, Publishes, Moves, RankedOps, Fold;
    var first := |Acknowledged(qs[0])|;
    if i == 0 {
      n := SomeMapAnswers(ss[0]);
      assert Acknowledged(qs[0])[first..] == [];
    } else {
      var before := ReadsFollowAcknowledged(qs, ss, moves, i - 1, rank, key, m);
      JointRunInStep(qs, ss, moves, i - 1, rank);
      assert Moves(qs[i - 1], ss[i - 1], moves[i - 1], qs[i], ss[i], rank);
      var more := if moves[i - 1].ByQueue? then Publishes(qs[i - 1], moves[i - 1].queueStep) else [];
      MoveAnswers(qs[i - 1], ss[i - 1], moves[i - 1], qs[i], ss[i], rank, before);
      MoveAcknowledges(qs[i - 1], ss[i - 1], moves[i - 1], qs[i], ss[i], rank);
      n := Fold(before, RankedOps(more, rank));
      var done := Acknowledged(qs[i - 1])[first..];
      RankedFold(Written(m, done), before, more, rank, key);
      WrittenMore(m, done, more);
      assert Acknowledged(qs[i])[first..] == done + more;
    }
  }

  lemma MoveAcknowledges(q: Queue.State, s: State, move: Move, q': Queue.State, s': State, rank: Bytes -> UserKey)
    requires Queue.Inv(q) && Moves(q, s, move, q', s', rank)
    ensures Acknowledged(q') == Acknowledged(q) + if move.ByQueue? then Publishes(q, move.queueStep) else []
  {
    hide Queue.Inv, Queue.Perform, Queue.Enabled, Acknowledged, Publishes;
    if move.ByQueue? {
      AcknowledgedGrows(q, move.queueStep);
    }
  }
}
