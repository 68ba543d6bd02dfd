/** Group commit drives the engine: a record that the leader logs is an Append, its publication an Insert, and room made
    for a request to flush a Switch.  All other steps of the engine may come in between. */
module EngineCommit {
  import opened Keys
  import opened Engine
  import opened EngineInvariant
  import opened EngineWrites
  import opened EngineRuns
  import opened EngineDurability
  import opened EngineWork
  import Queue = GroupCommit
  import WriteBatches

  // ------------------------------------------------------------------ records and batches

  function RankedOp(op: WriteBatches.BatchOp, rank: Bytes -> UserKey): Op {
    match op
    case Put(key, value) => Put(rank(key), value)
    case Delete(key) => Remove(rank(key))
  }

  /** The operations, each key replaced by its place in the comparator's order. */
  function RankedOps(ops: seq<WriteBatches.BatchOp>, rank: Bytes -> UserKey): seq<Op> {
    seq(|ops|, i requires 0 <= i < |ops| => RankedOp(ops[i], rank))
  }

  function BatchOf(r: Queue.Record, rank: Bytes -> UserKey): Batch {
    Batch(r.start, RankedOps(r.ops, rank))
  }

  // ------------------------------------------------------------------ in step

  /** The record that is logged but not published: one that is being inserted, or one whose sync failed. */
  function UnderWay(q: Queue.State): Option<Queue.Record> {
    if q.broken && q.log != [] then Some(q.log[|q.log| - 1])
    else if q.phase.Inserting? then Some(q.phase.record)
    else None
  }

  /** The engine is where the queue is: the record under way is the engine's, last sequence numbers agree, but that the
      engine stays before a record whose sync failed, and all that the queue logged is in the history. */
  ghost predicate InStep(q: Queue.State, s: State, rank: Bytes -> UserKey) {
    && s.Up? && s.db.logFile in s.disk.logs
    && s.db.writer == (if UnderWay(q).Some? then Some(BatchOf(UnderWay(q).value, rank)) else None)
    && (if q.broken && q.log != [] then s.db.lastSequence + 1 == UnderWay(q).value.start
        else s.db.lastSequence == q.lastSequence)
    && (q.phase.Failing? ==> q.broken)
    && forall i :: 0 <= i < |q.log| ==> BatchEntries(BatchOf(q.log[i], rank)) <= s.history
  }

  /** No append fails, and sequence numbers do not run out.  A sync may fail. */
  ghost predicate GoesWell(q: Queue.State, step: Queue.Step) {
    && (step.Log? ==> !step.outcome.AppendFailed?)
    && (step.Log? && q.phase.Logging? ==> q.lastSequence + |q.phase.record.ops| < MAX_SEQUENCE)
  }

  /** Room is made for a request to flush that leads: MakeRoomForWrite switches the memtable, whatever it holds. */
  predicate ForcesSwitch(q: Queue.State, step: Queue.Step) {
    step.RoomMade? && step.ok && q.queue != [] && q.queue[0] < |q.requests| && q.requests[q.queue[0]].ops.None?
  }

  /** What the engine does when the queue takes a step. */
  function EngineSteps(q: Queue.State, step: Queue.Step, rank: Bytes -> UserKey): seq<Step> {
    if step.Log? && q.phase.Logging? then
      [Append(RankedOps(q.phase.record.ops, rank), q.phase.record.synced && step.outcome.Logged?)]
    else if step.Publish? then [Insert]
    else if ForcesSwitch(q, step) then [Switch]
    else []
  }

  lemma LeadsOne(s: State, step: Step)
    requires Enabled(s, step)
    ensures Leads(s, [step], Perform(s, step))
  {
    hide Enabled, Perform;
    assert [step][1..] == [];
  }

  lemma LogAppends(q: Queue.State, outcome: Queue.Outcome, s: State, rank: Bytes -> UserKey) returns (s': State)
    requires Queue.Inv(q) && q.phase.Logging? && InStep(q, s, rank) && GoesWell(q, Queue.Log(outcome))
    requires Queue.Enabled(q, Queue.Log(outcome))
    ensures Leads(s, EngineSteps(q, Queue.Log(outcome), rank), s')
    ensures InStep(Queue.Perform(q, Queue.Log(outcome)), s', rank)
  {
    hide BatchEntries, Leads, Queue.RecordOk, Queue.LogOk, Queue.AckOk;
    var r := q.phase.record;
    var step := Append(RankedOps(r.ops, rank), r.synced && outcome.Logged?);
    s' := Perform(s, step);
    LeadsOne(s, step);
    var q' := Queue.Perform(q, Queue.Log(outcome));
    forall i | 0 <= i < |q'.log| ensures BatchEntries(BatchOf(q'.log[i], rank)) <= s'.history {
      assert i < |q.log| ==> q'.log[i] == q.log[i];
    }
  }

  lemma PublishInserts(q: Queue.State, s: State, rank: Bytes -> UserKey) returns (s': State)
    requires Queue.Inv(q) && q.phase.Inserting? && Queue.Enabled(q, Queue.Publish) && s.Up? && InStep(q, s, rank)
    ensures Leads(s, EngineSteps(q, Queue.Publish, rank), s')
    ensures InStep(Queue.Perform(q, Queue.Publish), s', rank)
    ensures s'.Up? && s'.db.mem == s.db.mem + BatchEntries(BatchOf(q.phase.record, rank))
  {
    hide BatchEntries, Leads, Queue.RecordOk, Queue.LogOk, Queue.AckOk;
    s' := Perform(s, Insert);
    LeadsOne(s, Insert);
  }

  lemma BrokenLogged(q: Queue.State)
    requires Queue.Inv(q)
    ensures q.broken ==> q.log != [] && !q.phase.Inserting?
  {
    hide Queue.RecordOk, Queue.AckOk;
  }

  lemma OtherStepsIdle(q: Queue.State, step: Queue.Step, s: State, rank: Bytes -> UserKey)
    requires Queue.Inv(q) && Queue.Enabled(q, step) && InStep(q, s, rank) && !step.Log? && !step.Publish?
    requires !ForcesSwitch(q, step)
    ensures EngineSteps(q, step, rank) == [] && InStep(Queue.Perform(q, step), s, rank)
  {
    hide BatchEntries, BatchOf, Queue.Inv, Queue.GroupOps, Queue.IsGroup;
    BrokenLogged(q);
  }

  lemma FlushSwitches(q: Queue.State, step: Queue.Step, s: State, rank: Bytes -> UserKey) returns (s': State)
    requires Queue.Enabled(q, step) && InStep(q, s, rank) && ForcesSwitch(q, step) && s.db.imm.None?
    ensures Leads(s, [Switch], s') && InStep(Queue.Perform(q, step), s', rank)
    ensures q.queue[0] in Queue.Perform(q, step).switched
  {
    hide BatchEntries, BatchOf, Leads, Queue.GroupOps, Queue.IsGroup;
    s' := Perform(s, Switch);
    LeadsOne(s, Switch);
  }

  /** Each step of the queue that goes well is matched by the engine.  Room for a request to flush is made when the
      memtable before has been flushed. */
  lemma QueueStepInEngine(q: Queue.State, step: Queue.Step, s: State, rank: Bytes -> UserKey) returns (s': State)
    requires Queue.Inv(q) && Queue.Enabled(q, step) && GoesWell(q, step) && InStep(q, s, rank)
    requires s.Up? && (ForcesSwitch(q, step) ==> s.db.imm.None?)
    ensures Leads(s, EngineSteps(q, step, rank), s') && InStep(Queue.Perform(q, step), s', rank)
  {
    hide InStep, Leads, Queue.Inv, Queue.Perform;
    if step.Log? {
      s' := LogAppends(q, step.outcome, s, rank);
    } else if step.Publish? {
      s' := PublishInserts(q, s, rank);
    } else if ForcesSwitch(q, step) {
      s' := FlushSwitches(q, step, s, rank);
    } else {
      OtherStepsIdle(q, step, s, rank);
      s' := s;
      LeadsNowhere(s);
    }
  }

  // ------------------------------------------------------------------ the engine by itself

  /** The steps that no writer in the queue takes: readers, snapshots, background work, and a memtable that is full. */
  predicate Background(step: Step) {
    !step.Append? && !step.Insert? && !step.Crash?
  }

  /** Such steps do not disturb the queue. */
  lemma BackgroundInStep(q: Queue.State, s: State, step: Step, rank: Bytes -> UserKey)
    requires InStep(q, s, rank) && Inv(s) && Enabled(s, step) && Background(step)
    ensures InStep(q, Perform(s, step), rank)
  {
    hide BatchEntries, BatchOf, DbOk, DiskOk, Fallback, FlushedStore, FlushedEdit, Extended, MergedStore, MovedStore,
         MergeEdit, LiveNumbers, Max, BackgroundFree, CanApplyFlush, CanPick, CanApplyMerge, SmallestSnapshot, TableOf;
    if step.DeleteLog? {
      ManifestLogBound(s.disk, s.history, s.db);
      DeadLogOld(s.disk, s.history, s.db, step.number);
    }
  }

  // ------------------------------------------------------------------ both together

  datatype Move = ByQueue(queueStep: Queue.Step) | ByEngine(engineStep: Step)

  ghost predicate Moves(q: Queue.State, s: State, move: Move, q': Queue.State, s': State, rank: Bytes -> UserKey) {
    match move
    case ByQueue(step) =>
      && Queue.Enabled(q, step) && GoesWell(q, step) && q' == Queue.Perform(q, step)
      && Leads(s, EngineSteps(q, step, rank), s')
    case ByEngine(step) =>
      q' == q && Enabled(s, step) && Background(step) && s' == Perform(s, step)
  }

  /** The queue and the engine from an open database on, their steps in any order. */
  ghost predicate IsJointRun(qs: seq<Queue.State>, ss: seq<State>, moves: seq<Move>, rank: Bytes -> UserKey) {
    && |qs| == |ss| == |moves| + 1
    && Queue.Inv(qs[0]) && Inv(ss[0]) && InStep(qs[0], ss[0], rank)
    && forall i :: 0 <= i < |moves| ==> Moves(qs[i], ss[i], moves[i], qs[i + 1], ss[i + 1], rank)
  }

  lemma MoveInStep(q: Queue.State, s: State, move: Move, q': Queue.State, s': State, rank: Bytes -> UserKey)
    requires Queue.Inv(q) && Inv(s) && InStep(q, s, rank) && Moves(q, s, move, q', s', rank)
    ensures Queue.Inv(q') && Inv(s') && InStep(q', s', rank)
  {
    hide InStep, Leads, Queue.Inv, Queue.Enabled, Queue.Perform, Inv, Enabled, Perform, EngineSteps, GoesWell;
    match move {
      case ByQueue(step) =>
        Queue.StepKeepsInv(q, step);
        LeadsInv(s, EngineSteps(q, step, rank), s');
        MatchedInStep(q, step, s, s', rank);
      case ByEngine(step) =>
        StepKeepsInv(s, step);
        BackgroundInStep(q, s, step, rank);
    }
  }

  lemma {:induction false} LeadsInv(s: State, steps: seq<Step>, s': State)
    requires Inv(s) && Leads(s, steps, s')
    ensures Inv(s')
    decreases |steps|
  {
    hide Inv, Enabled, Perform;
    if steps != [] {
      StepKeepsInv(s, steps[0]);
      LeadsInv(Perform(s, steps[0]), steps[1..], s');
    }
  }

  lemma LeadsSame(s: State, steps: seq<Step>, a: State, b: State)
    requires |steps| <= 1 && Leads(s, steps, a) && Leads(s, steps, b)
    ensures a == b
  {
    hide Enabled, Perform;
  }

  /** What the engine does for the queue is determined by the step. */
  lemma MatchedInStep(q: Queue.State, step: Queue.Step, s: State, s': State, rank: Bytes -> UserKey)
    requires Queue.Inv(q) && Queue.Enabled(q, step) && GoesWell(q, step) && InStep(q, s, rank)
    requires Leads(s, EngineSteps(q, step, rank), s')
    ensures InStep(Queue.Perform(q, step), s', rank)
  {
    hide InStep, Queue.Inv, Queue.Perform, Queue.Enabled, GoesWell, Perform;
    assert s.Up? by { InStepUp(q, s, rank); }
    assert ForcesSwitch(q, step) ==> s.db.imm.None?;
    hide Enabled, Leads, ForcesSwitch, EngineSteps;
    var t := QueueStepInEngine(q, step, s, rank);
    OneAtMost(q, step, rank);
    LeadsSame(s, EngineSteps(q, step, rank), s', t);
  }

  lemma InStepUp(q: Queue.State, s: State, rank: Bytes -> UserKey)
    requires InStep(q, s, rank)
    ensures s.Up?
  {
  }

  lemma OneAtMost(q: Queue.State, step: Queue.Step, rank: Bytes -> UserKey)
    ensures |EngineSteps(q, step, rank)| <= 1
  {
  }

  /** However the steps of the queue and of the engine interleave: both keep their invariants, last sequence numbers
      agree, the record under way is the engine's, and all that was logged is in the history. */
  lemma {:induction false} JointRunInStep(qs: seq<Queue.State>, ss: seq<State>, moves: seq<Move>, i: nat,
                                          rank: Bytes -> UserKey)
    requires IsJointRun(qs, ss, moves, rank) && i < |qs|
    ensures Queue.Inv(qs[i]) && Inv(ss[i]) && InStep(qs[i], ss[i], rank)
  {
    hide Queue.Inv, Inv, InStep, Moves;
    if i > 0 {
      JointRunInStep(qs, ss, moves, i - 1, rank);
      MoveInStep(qs[i - 1], ss[i - 1], moves[i - 1], qs[i], ss[i], rank);
    }
  }

  // ------------------------------------------------------------------ runs of the queue alone

  ghost function EngineRun(states: seq<Queue.State>, steps: seq<Queue.Step>, rank: Bytes -> UserKey, n: nat): seq<Step>
    requires n <= |steps| <= |states|
  {
    if n == 0 then [] else EngineRun(states, steps, rank, n - 1) + EngineSteps(states[n - 1], steps[n - 1], rank)
  }

  lemma {:induction false} LeadsBoth(s: State, a: seq<Step>, s': State, b: seq<Step>, s'': State)
    requires Leads(s, a, s') && Leads(s', b, s'')
    ensures Leads(s, a + b, s'')
    decreases |a|
  {
    hide Enabled, Perform;
    if a == [] {
      assert a + b == b;
    } else {
      assert (a + b)[0] == a[0] && (a + b)[1..] == a[1..] + b;
      LeadsBoth(Perform(s, a[0]), a[1..], s', b, s'');
    }
  }

  /** Every run of the queue that goes well, and in which no request to flush leads, is a sequence of steps of the
      engine, from any state in which no one writes: one Append for each record in the order of the log, and one Insert
      when it is published. */
  lemma {:induction false} QueueRunInEngine(states: seq<Queue.State>, steps: seq<Queue.Step>, i: nat, s: State,
                                            rank: Bytes -> UserKey)
    returns (s': State)
    requires Queue.IsRun(states, steps) && i < |states|
    requires forall j :: 0 <= j < |steps| && steps[j].Log? ==> GoesWell(states[j], steps[j])
    requires forall j :: 0 <= j < |steps| ==> !ForcesSwitch(states[j], steps[j])
    requires InStep(states[0], s, rank)
    ensures Leads(s, EngineRun(states, steps, rank, i), s') && InStep(states[i], s', rank)
  {
    hide Queue.Enabled, Queue.Perform, Queue.Inv, Leads, InStep, ForcesSwitch;
    if i == 0 {
      s' := s;
      assert Leads(s, [], s) by { LeadsNowhere(s); }
    } else {
      var before := QueueRunInEngine(states, steps, i - 1, s, rank);
      Queue.RunInv(states, steps, i - 1);
      assert Queue.Follows(states, steps, i - 1);
      InStepUp(states[i - 1], before, rank);
      s' := QueueStepInEngine(states[i - 1], steps[i - 1], before, rank);
      LeadsBoth(s, EngineRun(states, steps, rank, i - 1), before, EngineSteps(states[i - 1], steps[i - 1], rank), s');
    }
  }
}
