/** The writer queue and group commit (db/db_impl.cc, Write and BuildBatchGroup).

    One step is a section run under the mutex, or one thing the leader does while it has released it. */
module GroupCommit {
  import opened Keys
  import opened WriteBatches

  /** A writer: its operations (none for a request that only forces a flush), their byte size, and
      whether it asked for a sync. */
  datatype Request = Request(ops: Option<seq<BatchOp>>, size: nat, sync: bool)

  // ------------------------------------------------------------------ the group

  function OpsOf(r: Request): seq<BatchOp> {
    if r.ops.Some? then r.ops.value else []
  }

  function SizeOf(r: Request): nat {
    if r.ops.Some? then r.size else 0
  }

  /** The operations of the requests, one after the other. */
  function GroupOps(rs: seq<Request>): seq<BatchOp> {
    if rs == [] then [] else GroupOps(rs[..|rs| - 1]) + OpsOf(rs[|rs| - 1])
  }

  function GroupSize(rs: seq<Request>): nat {
    if rs == [] then 0 else GroupSize(rs[..|rs| - 1]) + SizeOf(rs[|rs| - 1])
  }

  function MaxSize(first: nat): nat {
    if first <= 0x20000 then first + 0x20000 else 0x100000
  }

  /** Request `i` may join the group led by the first one. */
  ghost predicate Joins(queue: seq<Request>, i: nat)
    requires i < |queue|
  {
    && (queue[i].sync ==> queue[0].sync)
    && (queue[i].ops.Some? ==> GroupSize(queue[..i + 1]) <= MaxSize(queue[0].size))
  }

  /** The first `n` requests are a group: all after the first may join, and the next may not. */
  ghost predicate IsGroup(queue: seq<Request>, n: nat) {
    && 1 <= n <= |queue|
    && (forall i :: 1 <= i < n ==> Joins(queue, i))
    && (n < |queue| ==> !Joins(queue, n))
  }

  method BuildBatchGroup(queue: seq<Request>) returns (n: nat, ops: seq<BatchOp>)
    requires queue != [] && queue[0].ops.Some?
    ensures IsGroup(queue, n) && ops == GroupOps(queue[..n])
  {
    hide GroupOps, GroupSize;
    var first := queue[0];
    var size := first.size;
    ops := first.ops.value;
    n := 1;
    GroupOfOne(queue);
    while n < |queue|
      invariant 1 <= n <= |queue|
      invariant forall i :: 1 <= i < n ==> Joins(queue, i)
      invariant ops == GroupOps(queue[..n]) && size == GroupSize(queue[..n])
    {
      GroupMore(queue, n);
      var w := queue[n];
      if w.sync && !first.sync {
        break;
      }
      if w.ops.Some? {
        if size + w.size > MaxSize(first.size) {
          break;
        }
        size := size + w.size;
        ops := ops + w.ops.value;
      }
      n := n + 1;
    }
  }

  lemma GroupOfOne(queue: seq<Request>)
    requires queue != []
    ensures GroupOps(queue[..1]) == OpsOf(queue[0]) && GroupSize(queue[..1]) == SizeOf(queue[0])
  {
    assert queue[..0] == [];
    GroupMore(queue, 0);
  }

  lemma GroupMore(queue: seq<Request>, n: nat)
    requires n < |queue|
    ensures GroupOps(queue[..n + 1]) == GroupOps(queue[..n]) + OpsOf(queue[n])
    ensures GroupSize(queue[..n + 1]) == GroupSize(queue[..n]) + SizeOf(queue[n])
  {
    assert queue[..n + 1][..n] == queue[..n];
  }

  /** A group that grew is of at most 1 MB, and at most 128 KB are added to a first write of at most 128 KB. */
  lemma {:induction false} GroupWithinLimit(queue: seq<Request>, n: nat)
    requires 1 <= n <= |queue| && queue[0].ops.Some? && forall i :: 1 <= i < n ==> Joins(queue, i)
    ensures GroupSize(queue[..n]) == queue[0].size || GroupSize(queue[..n]) <= 1_048_576
    ensures queue[0].size <= 131_072 ==> GroupSize(queue[..n]) <= queue[0].size + 131_072
  {
    hide GroupSize;
    GroupOfOne(queue);
    if n > 1 {
      GroupWithinLimit(queue, n - 1);
      GroupMore(queue, n - 1);
      assert Joins(queue, n - 1);
    }
  }

  /** A write is left to the next group only if it must be synced and the first need not, or if it is too big: the group
      with it would exceed 1 MB, or add more than 128 KB to a first write of at most 128 KB. */
  lemma GroupTakesAll(queue: seq<Request>, n: nat)
    requires IsGroup(queue, n) && queue[0].ops.Some? && n < |queue| && !(queue[n].sync && !queue[0].sync)
    ensures queue[n].ops.Some?
    ensures if queue[0].size <= 131_072 then GroupSize(queue[..n + 1]) > queue[0].size + 131_072
            else GroupSize(queue[..n + 1]) > 1_048_576
  {
    hide GroupSize;
    assert !Joins(queue, n);
  }

  // ------------------------------------------------------------------ state

  /** A log record: where its sequence numbers start, its operations, who wrote them, and if it was synced. */
  datatype Record = Record(start: nat, ops: seq<BatchOp>, writers: seq<nat>, synced: bool)

  /** What the leader is about. */
  datatype Phase = Idle | MakingRoom | Logging(n: nat, record: Record)
                 | Inserting(n: nat, record: Record, done: nat) | Failing(n: nat, record: Record)

  datatype Outcome = Logged | AppendFailed | SyncFailed

  /** Writers are numbered as they arrive.  `broken` is set once a sync failed.  `leader` says for each writer that has
      left who led the group it left with; `switched` are the writers for whom the memtable was switched. */
  datatype State = State(
    requests: seq<Request>, queue: seq<nat>, finished: seq<nat>, acknowledged: seq<nat>,
    phase: Phase, log: seq<Record>, lastSequence: nat, mem: seq<(nat, BatchOp)>, broken: bool,
    leader: seq<nat>, switched: set<nat>)

  datatype Step =
    | Arrive(request: Request)
    | Lead
    | RoomMade(ok: bool, n: nat)
    | Log(outcome: Outcome)
    | InsertOne
    | Publish
    | Fail

  function Requests(s: State, ids: seq<nat>): seq<Request>
    requires forall i :: 0 <= i < |ids| ==> ids[i] < |s.requests|
  {
    seq(|ids|, i requires 0 <= i < |ids| => s.requests[ids[i]])
  }

  /** The queue holds writers that have arrived. */
  ghost predicate Known(s: State, ids: seq<nat>) {
    forall i :: 0 <= i < |ids| ==> ids[i] < |s.requests|
  }

  ghost predicate CanRoomMade(s: State, ok: bool, n: nat) {
    && s.phase.MakingRoom? && s.queue != [] && Known(s, s.queue) && (ok ==> !s.broken)
    && (if ok && s.requests[s.queue[0]].ops.Some? then IsGroup(Requests(s, s.queue), n) else n == 1)
  }

  ghost predicate Enabled(s: State, step: Step) {
    match step
    case Arrive(_) => true
    case Lead => s.phase.Idle? && s.queue != []
    case RoomMade(ok, n) => CanRoomMade(s, ok, n)
    case Log(outcome) => s.phase.Logging? && (outcome.SyncFailed? ==> s.phase.record.synced)
    case InsertOne => s.phase.Inserting? && s.phase.done < |s.phase.record.ops|
    case Publish => s.phase.Inserting? && s.phase.done == |s.phase.record.ops| && s.phase.n <= |s.queue|
    case Fail => s.phase.Failing? && s.phase.n <= |s.queue|
  }

  /** The first `n` writers leave the queue, the first of them as their leader. */
  function Left(s: State, n: nat, ok: bool): State
    requires n <= |s.queue|
  {
    s.(queue := s.queue[n..], finished := s.finished + s.queue[..n],
       acknowledged := if ok then s.acknowledged + s.queue[..n] else s.acknowledged, phase := Idle,
       leader := s.leader + seq(n, _ => if s.queue == [] then 0 else s.queue[0]))
  }

  /** A request without operations leaves alone; with room made for it, the memtable was switched. */
  function LeftAlone(s: State, ok: bool): State
    requires s.queue != []
  {
    Left(if ok then s.(switched := s.switched + {s.queue[0]}) else s, 1, ok)
  }

  function Perform(s: State, step: Step): State
    requires Enabled(s, step)
  {
    match step
    case Arrive(r) => s.(requests := s.requests + [r], queue := s.queue + [|s.requests|])
    case Lead => s.(phase := MakingRoom)
    case RoomMade(ok, n) =>
      var leader := s.requests[s.queue[0]];
      if ok && leader.ops.Some? then
        var group := s.queue[..n];
        s.(phase := Logging(n, Record(s.lastSequence + 1, GroupOps(Requests(s, group)), group, leader.sync)))
      else LeftAlone(s, ok && leader.ops.None?)
    case Log(outcome) =>
      var r := s.phase.record;
      if outcome.Logged? then s.(log := s.log + [r], phase := Inserting(s.phase.n, r, 0))
      else if outcome.AppendFailed? then s.(phase := Failing(s.phase.n, r))
      else s.(log := s.log + [r], broken := true, phase := Failing(s.phase.n, r))
    case InsertOne =>
      var r := s.phase.record;
      s.(mem := s.mem + [(r.start + s.phase.done, r.ops[s.phase.done])], phase := s.phase.(done := s.phase.done + 1))
    case Publish => Left(s.(lastSequence := s.lastSequence + |s.phase.record.ops|), s.phase.n, true)
    case Fail => Left(s.(lastSequence := s.lastSequence + |s.phase.record.ops|), s.phase.n, false)
  }

  // ------------------------------------------------------------------ the invariant

  function Upto(n: nat): seq<nat> {
    seq(n, i => i)
  }

  /** The operations of all records, in order. */
  function LogOps(log: seq<Record>): seq<BatchOp> {
    if log == [] then [] else LogOps(log[..|log| - 1]) + log[|log| - 1].ops
  }

  /** The first `n` operations of a record with their sequence numbers. */
  function Numbered(r: Record, n: nat): seq<(nat, BatchOp)>
    requires n <= |r.ops|
  {
    seq(n, i requires 0 <= i < n => (r.start + i, r.ops[i]))
  }

  function LogEntries(log: seq<Record>): seq<(nat, BatchOp)> {
    if log == [] then [] else LogEntries(log[..|log| - 1]) + Numbered(log[|log| - 1], |log[|log| - 1].ops|)
  }

  /** The record holds the operations of its writers in their order, and is synced if one of them asked for it. */
  ghost predicate RecordOk(s: State, r: Record) {
    && Known(s, r.writers) && r.ops == GroupOps(Requests(s, r.writers))
    && forall i :: 0 <= i < |r.writers| && s.requests[r.writers[i]].sync ==> r.synced
  }

  /** Ranges of sequence numbers are disjoint and increase. */
  ghost predicate Ranges(log: seq<Record>, last: nat) {
    && (forall i, j :: 0 <= i < j < |log| ==> log[i].start + |log[i].ops| <= log[j].start)
    && (forall i :: 0 <= i < |log| ==> log[i].start + |log[i].ops| <= last + 1)
  }

  /** The record that the leader works on is that of the first `n` writers in the queue. */
  ghost predicate InHand(s: State, n: nat, r: Record) {
    1 <= n <= |s.queue| && r.writers == s.queue[..n] && r.start == s.lastSequence + 1 && RecordOk(s, r)
  }

  /** The records whose writers were told that all is well. */
  ghost function Published(s: State): seq<Record> {
    if (s.broken || s.phase.Inserting?) && s.log != [] then s.log[..|s.log| - 1] else s.log
  }

  ghost predicate PhaseOk(s: State) {
    match s.phase
    case Idle => true
    case MakingRoom => s.queue != []
    case Logging(n, r) => !s.broken && InHand(s, n, r)
    case Inserting(n, r, done) =>
      !s.broken && InHand(s, n, r) && done <= |r.ops| && s.log != [] && s.log[|s.log| - 1] == r
    case Failing(n, r) => InHand(s, n, r)
  }

  ghost function Partial(s: State): seq<(nat, BatchOp)> {
    if s.phase.Inserting? && s.phase.done <= |s.phase.record.ops| then Numbered(s.phase.record, s.phase.done) else []
  }

  /** The last record may be ahead of the last sequence number: while it is inserted, or after its sync failed. */
  ghost predicate LogOk(s: State) {
    && (forall i :: 0 <= i < |s.log| ==> RecordOk(s, s.log[i]))
    && Ranges(Published(s), s.lastSequence)
    && (s.broken ==> s.log != [])
    && (s.log != [] ==> forall i :: 0 <= i < |Published(s)| && |Published(s)| < |s.log| ==>
          Published(s)[i].start + |Published(s)[i].ops| <= s.log[|s.log| - 1].start)
  }

  ghost predicate AckOk(s: State) {
    && Known(s, s.acknowledged) && GroupOps(Requests(s, s.acknowledged)) == LogOps(Published(s))
    && s.mem == LogEntries(Published(s)) + Partial(s)
  }

  ghost predicate Inv(s: State) {
    && s.finished + s.queue == Upto(|s.requests|)
    && PhaseOk(s) && LogOk(s) && AckOk(s)
  }

  // ------------------------------------------------------------------ small facts

  lemma QueueKnown(s: State)
    requires s.finished + s.queue == Upto(|s.requests|)
    ensures Known(s, s.queue) && Known(s, s.finished)
  {
    forall i | 0 <= i < |s.queue| ensures s.queue[i] < |s.requests| {
      assert s.queue[i] == (s.finished + s.queue)[|s.finished| + i];
    }
    forall i | 0 <= i < |s.finished| ensures s.finished[i] < |s.requests| {
      assert s.finished[i] == (s.finished + s.queue)[i];
    }
  }

  lemma {:induction false} GroupOpsConcat(a: seq<Request>, b: seq<Request>)
    ensures GroupOps(a + b) == GroupOps(a) + GroupOps(b)
  {
    if b == [] {
      assert a + b == a;
    } else {
      assert (a + b)[..|a + b| - 1] == a + b[..|b| - 1];
      GroupOpsConcat(a, b[..|b| - 1]);
    }
  }

  /** A writer more changes nothing about the others. */
  lemma MoreRequests(s: State, s': State, ids: seq<nat>)
    requires Known(s, ids) && s.requests <= s'.requests
    ensures Known(s', ids) && Requests(s', ids) == Requests(s, ids)
  {
  }

  lemma RecordKept(s: State, s': State, r: Record)
    requires RecordOk(s, r) && s.requests <= s'.requests
    ensures RecordOk(s', r)
  {
    MoreRequests(s, s', r.writers);
  }

  // ------------------------------------------------------------------ every step keeps the invariant

  lemma KeepArrive(s: State, r: Request)
    requires Inv(s)
    ensures Inv(Perform(s, Arrive(r)))
  {
    hide RecordOk, Ranges, LogOps, LogEntries, Numbered;
    var s' := Perform(s, Arrive(r));
    assert s'.finished + s'.queue == (s.finished + s.queue) + [|s.requests|];
    forall i | 0 <= i < |s'.log| ensures RecordOk(s', s'.log[i]) {
      RecordKept(s, s', s.log[i]);
    }
    MoreRequests(s, s', s.acknowledged);
    if s.phase.Logging? || s.phase.Inserting? || s.phase.Failing? {
      RecordKept(s, s', s.phase.record);
      assert s'.queue[..s.phase.n] == s.queue[..s.phase.n];
    }
  }

  lemma GroupSync(queue: seq<Request>, n: nat)
    requires IsGroup(queue, n)
    ensures forall i :: 0 <= i < n && queue[i].sync ==> queue[0].sync
  {
    forall i | 0 <= i < n && queue[i].sync ensures queue[0].sync {
      assert i > 0 ==> Joins(queue, i);
    }
  }

  lemma FirstRequests(s: State, n: nat)
    requires Known(s, s.queue) && n <= |s.queue|
    ensures Known(s, s.queue[..n]) && Requests(s, s.queue[..n]) == Requests(s, s.queue)[..n]
  {
  }

  /** The record of a group. */
  lemma GroupRecordOk(s: State, n: nat)
    requires Known(s, s.queue) && s.queue != [] && IsGroup(Requests(s, s.queue), n)
    ensures n <= |s.queue| && Known(s, s.queue[..n])
    ensures RecordOk(s, Record(s.lastSequence + 1, GroupOps(Requests(s, s.queue[..n])), s.queue[..n],
                               s.requests[s.queue[0]].sync))
  {
    hide IsGroup, GroupOps;
    assert 1 <= n <= |Requests(s, s.queue)| by { GroupBound(Requests(s, s.queue), n); }
    FirstRequests(s, n);
    GroupSync(Requests(s, s.queue), n);
    forall i | 0 <= i < n && s.requests[s.queue[..n][i]].sync ensures s.requests[s.queue[0]].sync {
      assert Requests(s, s.queue)[i].sync;
    }
  }

  lemma GroupBound(queue: seq<Request>, n: nat)
    requires IsGroup(queue, n)
    ensures 1 <= n <= |queue|
  {
  }

  /** Writers that leave leave in order. */
  lemma LeftInOrder(s: State, n: nat, ok: bool)
    requires s.finished + s.queue == Upto(|s.requests|) && n <= |s.queue|
    ensures var s' := Left(s, n, ok); s'.finished + s'.queue == Upto(|s.requests|)
  {
    assert s.queue == s.queue[..n] + s.queue[n..];
    assert s.finished + s.queue[..n] + s.queue[n..] == s.finished + (s.queue[..n] + s.queue[n..]);
  }

  lemma Acknowledge(s: State, n: nat)
    requires Known(s, s.acknowledged) && Known(s, s.queue) && n <= |s.queue|
    ensures Known(s, s.acknowledged + s.queue[..n]) && Known(s, s.queue[..n])
    ensures GroupOps(Requests(s, s.acknowledged + s.queue[..n])) == GroupOps(Requests(s, s.acknowledged))
            + GroupOps(Requests(s, s.queue[..n]))
  {
    hide GroupOps;
    assert Requests(s, s.acknowledged + s.queue[..n]) == Requests(s, s.acknowledged) + Requests(s, s.queue[..n]);
    GroupOpsConcat(Requests(s, s.acknowledged), Requests(s, s.queue[..n]));
  }

  lemma KeepRoomMade(s: State, ok: bool, n: nat)
    requires Inv(s) && CanRoomMade(s, ok, n)
    ensures Inv(Perform(s, RoomMade(ok, n)))
  {
    hide RecordOk, Ranges, LogOps, LogEntries, Numbered, IsGroup, GroupOps;
    var s' := Perform(s, RoomMade(ok, n));
    QueueKnown(s);
    if ok && s.requests[s.queue[0]].ops.Some? {
      GroupBound(Requests(s, s.queue), n);
      GroupRecordOk(s, n);
      SameRecords(s, s');
    } else {
      LeftInOrder(s, 1, ok);
      SameRecords(s, s');
      if ok {
        Acknowledge(s, 1);
        NoOps(s);
      }
    }
  }

  lemma SameRecords(s: State, s': State)
    requires s'.requests == s.requests
    ensures forall r :: RecordOk(s, r) <==> RecordOk(s', r)
    ensures forall ids :: Known(s, ids) <==> Known(s', ids)
    ensures forall ids :: Known(s, ids) ==> Requests(s, ids) == Requests(s', ids)
  {
  }

  /** A request without operations adds none. */
  lemma NoOps(s: State)
    requires Known(s, s.queue) && s.queue != [] && s.requests[s.queue[0]].ops.None?
    ensures Known(s, s.queue[..1]) && GroupOps(Requests(s, s.queue[..1])) == []
  {
    var rs := Requests(s, s.queue[..1]);
    assert rs[..0] == [];
    assert GroupOps(rs) == GroupOps(rs[..0]) + OpsOf(rs[0]);
  }

  lemma KeepLog(s: State, outcome: Outcome)
    requires Inv(s) && Enabled(s, Log(outcome))
    ensures Inv(Perform(s, Log(outcome)))
  {
    hide RecordOk, LogOps, LogEntries, GroupOps, Known, Ranges, LogOk, PhaseOk, AckOk;
    var s' := Perform(s, Log(outcome));
    LogPhase(s, s', outcome);
    LogLog(s, s', outcome);
    LogAck(s, s');
  }

  lemma LogPhase(s: State, s': State, outcome: Outcome)
    requires PhaseOk(s) && Enabled(s, Log(outcome)) && s' == Perform(s, Log(outcome))
    ensures PhaseOk(s')
  {
    hide RecordOk;
    SameRecords(s, s');
  }

  lemma LogLog(s: State, s': State, outcome: Outcome)
    requires PhaseOk(s) && LogOk(s) && Enabled(s, Log(outcome)) && s' == Perform(s, Log(outcome))
    ensures LogOk(s') && Published(s') == Published(s)
  {
    hide RecordOk, Ranges;
    SameRecords(s, s');
    if !outcome.AppendFailed? {
      LogMore(s, s');
    }
  }

  lemma LogAck(s: State, s': State)
    requires AckOk(s) && Published(s') == Published(s) && s'.mem == s.mem && s'.acknowledged == s.acknowledged
    requires s'.requests == s.requests
    requires s.phase.Logging? && (s'.phase.Inserting? ==> s'.phase.done == 0)
    ensures AckOk(s')
  {
    hide LogOps, LogEntries, GroupOps, Published, Known;
    SameRecords(s, s');
    assert Partial(s) == [] && Partial(s') == [];
  }

  /** The record is added ahead of the last sequence number. */
  lemma LogMore(s: State, s': State)
    requires LogOk(s) && s.phase.Logging? && !s.broken && s.phase.record.start == s.lastSequence + 1
    requires RecordOk(s, s.phase.record)
    requires s'.log == s.log + [s.phase.record] && s'.requests == s.requests && s'.lastSequence == s.lastSequence
    requires s'.broken || s'.phase.Inserting?
    ensures LogOk(s') && Published(s') == s.log == Published(s)
  {
    hide RecordOk;
    SameRecords(s, s');
    assert s'.log[..|s'.log| - 1] == s.log;
  }

  lemma KeepInsertOne(s: State)
    requires Inv(s) && Enabled(s, InsertOne)
    ensures Inv(Perform(s, InsertOne))
  {
    hide RecordOk, LogOps, LogEntries, GroupOps, Known, Ranges;
    var s' := Perform(s, InsertOne);
    SameRecords(s, s');
    assert Partial(s') == Partial(s) + [(s.phase.record.start + s.phase.done, s.phase.record.ops[s.phase.done])];
    assert Published(s') == Published(s);
  }

  lemma KeepPublish(s: State)
    requires Inv(s) && Enabled(s, Publish)
    ensures Inv(Perform(s, Publish))
  {
    hide LogOps, LogEntries, GroupOps, Known;
    var s' := Perform(s, Publish);
    SameRecords(s, s');
    var n, r := s.phase.n, s.phase.record;
    QueueKnown(s);
    LeftInOrder(s, n, true);
    Acknowledge(s, n);
    assert s.log == Published(s) + [r] && Published(s') == s.log;
    LogSnoc(Published(s), r);
    assert Partial(s) == Numbered(r, |r.ops|);
    assert s'.mem + Partial(s') == s'.mem;
  }

  lemma LogSnoc(log: seq<Record>, r: Record)
    ensures LogOps(log + [r]) == LogOps(log) + r.ops
    ensures LogEntries(log + [r]) == LogEntries(log) + Numbered(r, |r.ops|)
  {
    assert (log + [r])[..|log|] == log;
  }

  lemma KeepFail(s: State)
    requires Inv(s) && Enabled(s, Fail)
    ensures Inv(Perform(s, Fail))
  {
    hide LogOps, LogEntries, GroupOps, Known, RecordOk;
    var s' := Perform(s, Fail);
    SameRecords(s, s');
    LeftInOrder(s, s.phase.n, false);
    assert Published(s') == Published(s);
  }

  lemma StepKeepsInv(s: State, step: Step)
    requires Inv(s) && Enabled(s, step)
    ensures Inv(Perform(s, step))
  {
    match step
    case Arrive(r) => KeepArrive(s, r);
    case Lead => KeepLead(s);
    case RoomMade(ok, n) => KeepRoomMade(s, ok, n);
    case Log(outcome) => KeepLog(s, outcome);
    case InsertOne => KeepInsertOne(s);
    case Publish => KeepPublish(s);
    case Fail => KeepFail(s);
  }

  lemma KeepLead(s: State)
    requires Inv(s) && Enabled(s, Lead)
    ensures Inv(Perform(s, Lead))
  {
    hide LogOps, LogEntries, GroupOps, Known, RecordOk, Ranges;
    SameRecords(s, Perform(s, Lead));
  }

  // ------------------------------------------------------------------ runs

  ghost predicate Initial(s: State) {
    s == State([], [], [], [], Idle, [], s.lastSequence, [], false, [], {})
  }

  ghost predicate IsRun(states: seq<State>, steps: seq<Step>) {
    && |states| == |steps| + 1 && Initial(states[0])
    && forall i :: 0 <= i < |steps| ==> Follows(states, steps, i)
  }

  ghost predicate Follows(states: seq<State>, steps: seq<Step>, i: nat)
    requires i < |steps| && |states| == |steps| + 1
  {
    Enabled(states[i], steps[i]) && states[i + 1] == Perform(states[i], steps[i])
  }

  lemma InitialOk(s: State)
    requires Initial(s)
    ensures Inv(s)
  {
  }

  lemma {:induction false} RunInv(states: seq<State>, steps: seq<Step>, i: nat)
    requires IsRun(states, steps) && i < |states|
    ensures Inv(states[i])
  {
    if i > 0 {
      hide Enabled, Perform, Inv;
      RunInv(states, steps, i - 1);
      assert Follows(states, steps, i - 1);
      StepKeepsInv(states[i - 1], steps[i - 1]);
    } else {
      InitialOk(states[0]);
    }
  }

  /** Each writer leaves the queue once, in the order of arrival. */
  lemma WritersLeaveInOrder(states: seq<State>, steps: seq<Step>, i: nat)
    requires IsRun(states, steps) && i < |states|
    ensures states[i].finished == Upto(|states[i].finished|)
  {
    hide IsRun, PhaseOk, LogOk, AckOk;
    RunInv(states, steps, i);
    var s := states[i];
    assert s.finished == (s.finished + s.queue)[..|s.finished|];
  }

  /** The log holds the operations of the writers that succeeded, in the order of their arrival, and nothing
      else but the record under way or one whose sync failed. */
  lemma LogHoldsAcknowledged(states: seq<State>, steps: seq<Step>, i: nat)
    requires IsRun(states, steps) && i < |states|
    ensures var s := states[i];
            && Known(s, s.acknowledged)
            && GroupOps(Requests(s, s.acknowledged)) == LogOps(Published(s))
            && Published(s) <= s.log && |s.log| <= |Published(s)| + 1
            && (!s.broken && !s.phase.Inserting? ==> Published(s) == s.log)
  {
    hide IsRun, PhaseOk, LogOk, LogOps, GroupOps;
    RunInv(states, steps, i);
  }

  /** Sequence numbers of records are disjoint and increase, and a record is synced if a writer of it asked for that. */
  lemma RecordsAreSeparate(states: seq<State>, steps: seq<Step>, i: nat, a: nat, b: nat)
    requires IsRun(states, steps) && i < |states| && a < b < |states[i].log|
    ensures var log := states[i].log; log[a].start + |log[a].ops| <= log[b].start
    ensures var r := states[i].log[a];
            && Known(states[i], r.writers) && r.ops == GroupOps(Requests(states[i], r.writers))
            && forall w :: w in r.writers && states[i].requests[w].sync ==> r.synced
  {
    hide IsRun, PhaseOk, AckOk, GroupOps;
    RunInv(states, steps, i);
    var s := states[i];
    assert RecordOk(s, s.log[a]);
    assert s.log[a] == Published(s)[a];
  }

  lemma {:induction false} EntriesBelow(log: seq<Record>, last: nat)
    requires Ranges(log, last)
    ensures forall i :: 0 <= i < |LogEntries(log)| ==> LogEntries(log)[i].0 <= last
  {
    if log != [] {
      EntriesBelow(log[..|log| - 1], last);
    }
  }

  /** A reader at the last sequence number sees, of what is in the memtable, exactly the published records:
      all of a record or nothing of it. */
  lemma AllOrNothing(states: seq<State>, steps: seq<Step>, i: nat, j: nat)
    requires IsRun(states, steps) && i < |states| && j < |states[i].mem|
    ensures var s := states[i];
            s.mem[j].0 <= s.lastSequence <==> j < |LogEntries(Published(s))|
    ensures LogEntries(Published(states[i])) <= states[i].mem
  {
    hide IsRun, LogEntries, RecordOk, LogOps, GroupOps, Ranges;
    RunInv(states, steps, i);
    var s := states[i];
    EntriesBelow(Published(s), s.lastSequence);
  }

  // ------------------------------------------------------------------ requests without operations

  /** A request without operations at any place of the queue joins the group exactly when all before it do and it does
      not ask for a sync the leader did not ask for. */
  lemma FlushRequestJoins(queue: seq<Request>, n: nat, k: nat)
    requires IsGroup(queue, n) && 0 < k < |queue| && queue[k].ops.None?
    ensures k < n <==> (forall i :: 1 <= i < k ==> Joins(queue, i)) && (queue[k].sync ==> queue[0].sync)
  {
    assert Joins(queue, k) <==> (queue[k].sync ==> queue[0].sync);
  }

  /** A writer that has left left with a leader that did not arrive after it; the memtable was switched for those that
      led without operations and were told that all is well. */
  ghost predicate LeadOk(s: State) {
    && |s.leader| == |s.finished|
    && (forall w :: 0 <= w < |s.leader| ==> s.leader[w] <= w)
    && (forall w :: w in s.switched ==>
          w < |s.leader| && w < |s.requests| && s.leader[w] == w && s.requests[w].ops.None?)
    && (forall w ::
          w in s.acknowledged && w < |s.requests| && w < |s.leader| && s.leader[w] == w && s.requests[w].ops.None?
          ==> w in s.switched)
    && (forall w :: w in s.acknowledged ==> w < |s.leader|)
    && (s.phase.Logging? || s.phase.Inserting? || s.phase.Failing? ==>
          s.queue != [] && s.queue[0] < |s.requests| && s.requests[s.queue[0]].ops.Some?)
  }

  lemma QueuePlace(s: State, k: nat)
    requires s.finished + s.queue == Upto(|s.requests|) && k < |s.queue|
    ensures s.queue[k] == |s.finished| + k < |s.requests|
  {
    assert s.queue[k] == (s.finished + s.queue)[|s.finished| + k];
  }

  lemma LeftLeads(s: State, n: nat, ok: bool)
    requires s.finished + s.queue == Upto(|s.requests|) && 1 <= n <= |s.queue| && LeadOk(s)
    requires s.queue[0] < |s.requests| && (s.requests[s.queue[0]].ops.Some? || !ok)
    ensures LeadOk(Left(s, n, ok))
  {
    forall k | 0 <= k < n ensures s.queue[k] == |s.finished| + k {
      QueuePlace(s, k);
    }
    var s' := Left(s, n, ok);
    forall w | 0 <= w < |s'.leader| ensures s'.leader[w] <= w {
      assert w >= |s.leader| ==> s'.leader[w] == s.queue[0];
    }
    forall w | w in s'.acknowledged
      ensures w < |s'.leader| && (w < |s.requests| && s'.leader[w] == w && s.requests[w].ops.None? ==> w in s'.switched)
    {
      if w !in s.acknowledged {
        var k :| 0 <= k < n && s.queue[k] == w;
        assert s'.leader[w] == s.queue[0];
      }
    }
  }

  lemma StepKeepsLead(s: State, step: Step)
    requires Inv(s) && Enabled(s, step) && LeadOk(s)
    ensures LeadOk(Perform(s, step))
  {
    if s.queue != [] {
      QueuePlace(s, 0);
    }
    if step.RoomMade? {
      RoomLeads(s, step.ok, step.n);
    } else if step.Publish? || step.Fail? {
      PublishLeads(s, step);
    } else {
      assert |s.finished + s.queue| == |s.requests|;
      OthersLead(s, step);
    }
  }

  lemma RoomLeads(s: State, ok: bool, n: nat)
    requires s.finished + s.queue == Upto(|s.requests|) && LeadOk(s) && CanRoomMade(s, ok, n)
    ensures LeadOk(Perform(s, RoomMade(ok, n)))
  {
    hide IsGroup, GroupOps;
    QueuePlace(s, 0);
    if !(ok && s.requests[s.queue[0]].ops.Some?) {
      AloneLeads(s, ok && s.requests[s.queue[0]].ops.None?);
    }
  }

  lemma PublishLeads(s: State, step: Step)
    requires Inv(s) && LeadOk(s) && Enabled(s, step) && (step.Publish? || step.Fail?)
    ensures LeadOk(Perform(s, step))
  {
    hide RecordOk, LogOk, AckOk, GroupOps, Left;
    LeftLeads(s.(lastSequence := s.lastSequence + |s.phase.record.ops|), s.phase.n, step.Publish?);
  }

  lemma OthersLead(s: State, step: Step)
    requires LeadOk(s) && |s.finished| <= |s.requests| && Enabled(s, step) && !step.RoomMade? && !step.Publish?
    requires !step.Fail?
    ensures LeadOk(Perform(s, step))
  {
  }

  lemma AloneLeads(s: State, ok: bool)
    requires s.finished + s.queue == Upto(|s.requests|) && s.queue != [] && LeadOk(s) && s.phase.MakingRoom?
    requires s.queue[0] < |s.requests| && (ok ==> s.requests[s.queue[0]].ops.None?)
    ensures LeadOk(LeftAlone(s, ok))
  {
    QueuePlace(s, 0);
    if !ok {
      LeftLeads(s, 1, false);
    } else {
      var s' := LeftAlone(s, ok);
      assert s'.leader == s.leader + [s.queue[0]];
      assert s'.acknowledged == s.acknowledged + [s.queue[0]];
    }
  }

  lemma {:induction false} RunLead(states: seq<State>, steps: seq<Step>, i: nat)
    requires IsRun(states, steps) && i < |states|
    ensures LeadOk(states[i])
  {
    if i > 0 {
      hide Enabled, Perform, Inv, LeadOk;
      RunLead(states, steps, i - 1);
      RunInv(states, steps, i - 1);
      assert Follows(states, steps, i - 1);
      StepKeepsLead(states[i - 1], steps[i - 1]);
    }
  }

  /** Step `j` forms the group of `first` with `w` in it. */
  ghost predicate Grouped(states: seq<State>, steps: seq<Step>, j: nat, first: nat, w: nat)
    requires j < |steps| && |states| == |steps| + 1
  {
    && steps[j].RoomMade? && steps[j].ok && Known(states[j], states[j].queue)
    && IsGroup(Requests(states[j], states[j].queue), steps[j].n) && steps[j].n <= |states[j].queue|
    && states[j].queue[0] == first && w in states[j].queue[..steps[j].n]
  }

  predicate Committing(s: State) {
    s.phase.Logging? || s.phase.Inserting? || s.phase.Failing?
  }

  lemma CommittingStep(s: State, step: Step)
    requires Inv(s) && Enabled(s, step) && Committing(Perform(s, step))
    ensures var s' := Perform(s, step);
            && s.queue != [] && s'.queue != [] && s'.queue[0] == s.queue[0]
            && s'.phase.n <= |s.queue| && s'.phase.n <= |s'.queue| && s'.queue[..s'.phase.n] == s.queue[..s'.phase.n]
            && (if step.RoomMade? then
                  step.ok && Known(s, s.queue) && IsGroup(Requests(s, s.queue), step.n) && step.n == s'.phase.n
                else Committing(s) && s.phase.n == s'.phase.n)
  {
    hide GroupOps, RecordOk, LogOk, AckOk;
  }

  lemma GroupedNow(states: seq<State>, steps: seq<Step>, j: nat, w: nat)
    requires j < |steps| && |states| == |steps| + 1 && steps[j].RoomMade? && steps[j].ok
    requires Known(states[j], states[j].queue) && IsGroup(Requests(states[j], states[j].queue), steps[j].n)
    requires steps[j].n <= |states[j].queue| && states[j].queue != [] && w in states[j].queue[..steps[j].n]
    ensures Grouped(states, steps, j, states[j].queue[0], w)
  {
    hide IsGroup, Known;
  }

  /** The group that is being logged was formed by an earlier step. */
  lemma {:induction false} PhaseStarted(states: seq<State>, steps: seq<Step>, i: nat, w: nat)
    requires IsRun(states, steps) && i < |states| && Committing(states[i])
    requires states[i].phase.n <= |states[i].queue| && states[i].queue != []
    requires w in states[i].queue[..states[i].phase.n]
    ensures exists j :: 0 <= j < i && Grouped(states, steps, j, states[i].queue[0], w)
  {
    hide IsGroup, Inv, Enabled, Perform, Known, Grouped;
    if i > 0 {
      RunInv(states, steps, i - 1);
      assert Follows(states, steps, i - 1);
      CommittingStep(states[i - 1], steps[i - 1]);
      if steps[i - 1].RoomMade? {
        GroupedNow(states, steps, i - 1, w);
      } else {
        PhaseStarted(states, steps, i - 1, w);
        var j :| 0 <= j < i - 1 && Grouped(states, steps, j, states[i].queue[0], w);
      }
    }
  }

  /** How a writer leaves: alone as its own leader, or with the group at the head of the queue. */
  lemma LeavingStep(s: State, step: Step, w: nat)
    requires Inv(s) && LeadOk(s) && Enabled(s, step) && |s.finished| <= w < |Perform(s, step).finished|
    ensures s.queue != [] && w < |Perform(s, step).leader| && Perform(s, step).leader[w] == s.queue[0]
    ensures s.queue[0] == w || (Committing(s) && s.phase.n <= |s.queue| && w in s.queue[..s.phase.n])
  {
    hide GroupOps, RecordOk, LogOk, AckOk, IsGroup;
    QueuePlace(s, w - |s.finished|);
    QueuePlace(s, 0);
    if step.Publish? || step.Fail? {
      assert s.queue[..s.phase.n][w - |s.finished|] == w;
    }
  }

  lemma StayingStep(s: State, step: Step, w: nat)
    requires Enabled(s, step) && LeadOk(s) && w < |s.finished|
    ensures w < |Perform(s, step).leader| && Perform(s, step).leader[w] == s.leader[w]
  {
    hide GroupOps, IsGroup;
  }

  /** A writer that did not lead was in the group of an earlier leader. */
  lemma {:induction false} JoinedAGroup(states: seq<State>, steps: seq<Step>, i: nat, w: nat)
    requires IsRun(states, steps) && i < |states| && w < |states[i].finished|
    ensures |states[i].leader| == |states[i].finished| && states[i].leader[w] <= w
    ensures states[i].leader[w] < w ==> exists j :: 0 <= j < i && Grouped(states, steps, j, states[i].leader[w], w)
  {
    RunLead(states, steps, i);
    if i > 0 {
      hide Inv, Enabled, Perform, Grouped;
      var s := states[i - 1];
      RunInv(states, steps, i - 1);
      RunLead(states, steps, i - 1);
      assert Follows(states, steps, i - 1);
      if w < |s.finished| {
        JoinedAGroup(states, steps, i - 1, w);
        StayingStep(s, steps[i - 1], w);
        if s.leader[w] < w {
          var j :| 0 <= j < i - 1 && Grouped(states, steps, j, s.leader[w], w);
        }
      } else {
        LeavingStep(s, steps[i - 1], w);
        if s.queue[0] != w {
          PhaseStarted(states, steps, i - 1, w);
          var j :| 0 <= j < i - 1 && Grouped(states, steps, j, s.queue[0], w);
        }
      }
    }
  }

  /** Writer `w` is in the group that `first` is committing. */
  ghost predicate InGroup(s: State, first: nat, w: nat) {
    && Committing(s) && s.queue != [] && s.phase.n <= |s.queue|
    && s.queue[0] == first && w in s.queue[..s.phase.n]
  }

  ghost predicate LedBy(s: State, first: nat, w: nat) {
    w < |s.finished| && w < |s.leader| && s.leader[w] == first
  }

  lemma GroupForms(states: seq<State>, steps: seq<Step>, j: nat, first: nat, w: nat)
    requires j < |steps| && |states| == |steps| + 1 && Follows(states, steps, j) && Inv(states[j])
    requires Grouped(states, steps, j, first, w) && first != w
    ensures InGroup(states[j + 1], first, w)
  {
    hide IsGroup, GroupOps, RecordOk, LogOk, AckOk;
  }

  /** A group stays together until all of it leaves. */
  lemma GroupStep(s: State, step: Step, first: nat, w: nat)
    requires Inv(s) && LeadOk(s) && Enabled(s, step) && InGroup(s, first, w)
    ensures InGroup(Perform(s, step), first, w) || LedBy(Perform(s, step), first, w)
  {
    hide GroupOps, RecordOk, LogOk, AckOk, IsGroup;
    var k :| 0 <= k < s.phase.n && s.queue[k] == w;
    QueuePlace(s, k);
    if step.Publish? || step.Fail? {
      LeavingStep(s, step, w);
    } else {
      assert Perform(s, step).queue[..s.phase.n] == s.queue[..s.phase.n];
    }
  }

  lemma {:induction false} GroupLeaves(states: seq<State>, steps: seq<Step>, j: nat, i: nat, first: nat, w: nat)
    requires IsRun(states, steps) && j < i < |states| && Grouped(states, steps, j, first, w) && first != w
    ensures InGroup(states[i], first, w) || LedBy(states[i], first, w)
  {
    hide Inv, Enabled, Perform, Grouped, InGroup, LeadOk;
    RunInv(states, steps, i - 1);
    RunLead(states, steps, i - 1);
    assert Follows(states, steps, i - 1);
    if i == j + 1 {
      GroupForms(states, steps, j, first, w);
    } else {
      GroupLeaves(states, steps, j, i - 1, first, w);
      if InGroup(states[i - 1], first, w) {
        GroupStep(states[i - 1], steps[i - 1], first, w);
      } else {
        StayingStep(states[i - 1], steps[i - 1], w);
        RunLead(states, steps, i);
        FinishedStays(states[i - 1], steps[i - 1]);
      }
    }
  }

  lemma FinishedStays(s: State, step: Step)
    requires Enabled(s, step)
    ensures |s.finished| <= |Perform(s, step).finished|
  {
    hide IsGroup, GroupOps;
  }

  lemma InGroupWaits(s: State, first: nat, w: nat)
    requires Inv(s) && InGroup(s, first, w)
    ensures |s.finished| <= w
  {
    hide GroupOps, RecordOk, LogOk, AckOk;
    var k :| 0 <= k < s.phase.n && s.queue[k] == w;
    QueuePlace(s, k);
  }

  /** A writer leaves the queue without having led exactly when it is in the group of one that arrived before it.  The
      memtable was switched for a request to flush that was told that all is well exactly when it led. */
  lemma FlushRequestsLeadOrJoin(states: seq<State>, steps: seq<Step>, i: nat, w: nat)
    requires IsRun(states, steps) && i < |states| && w < |states[i].finished|
    ensures w < |states[i].requests| && |states[i].leader| == |states[i].finished|
    ensures states[i].leader[w] != w
            <==> exists j, first: nat :: 0 <= j < i && first < w && Grouped(states, steps, j, first, w)
    ensures forall j, first: nat :: 0 <= j < i && first < w && Grouped(states, steps, j, first, w) ==>
              states[i].leader[w] == first
    ensures states[i].requests[w].ops.None? && w in states[i].acknowledged ==>
              (w in states[i].switched <==> states[i].leader[w] == w)
  {
    hide IsGroup, GroupOps, RecordOk, LogOk, LogOps, LogEntries, Grouped, AckOk, InGroup;
    RunInv(states, steps, i);
    RunLead(states, steps, i);
    assert |states[i].finished + states[i].queue| == |states[i].requests|;
    JoinedAGroup(states, steps, i, w);
    forall j, first: nat | 0 <= j < i && first < w && Grouped(states, steps, j, first, w)
      ensures states[i].leader[w] == first
    {
      GroupLeaves(states, steps, j, i, first, w);
      if InGroup(states[i], first, w) {
        InGroupWaits(states[i], first, w);
      }
    }
  }

  // ------------------------------------------------------------------ a flush request that is absorbed

  function Write(): Request {
    Request(Some([Delete([])]), 14, false)
  }

  function Flush(): Request {
    Request(None, 0, false)
  }

  function Absorbing(): seq<Step> {
    [Arrive(Write()), Arrive(Flush()), Lead, RoomMade(true, 2), Log(Logged), InsertOne, Publish]
  }

  /** A write and a request to flush arrive together: both are told that all is well, and no memtable was switched. */
  lemma FlushRequestAbsorbed() returns (states: seq<State>)
    ensures IsRun(states, Absorbing())
    ensures states[7].acknowledged == [0, 1] && states[7].requests == [Write(), Flush()] && Flush().ops.None?
    ensures states[7].switched == {} && states[7].leader == [0, 0]
  {
    hide Enabled, Perform;
    var s0 := State([], [], [], [], Idle, [], 0, [], false, [], {});
    var s1, s2, s3 := BothArrive(s0);
    var r := Record(1, [Delete([])], [0, 1], false);
    GroupFormed(s3, r);
    var s4 := s3.(phase := Logging(2, r));
    var s5, s6, s7 := BothLeave(s4, r);
    states := [s0, s1, s2, s3, s4, s5, s6, s7];
    assert Follows(states, Absorbing(), 0) && Follows(states, Absorbing(), 1) && Follows(states, Absorbing(), 2);
    assert Follows(states, Absorbing(), 3);
    assert Follows(states, Absorbing(), 4) && Follows(states, Absorbing(), 5) && Follows(states, Absorbing(), 6);
  }

  lemma BothArrive(s0: State) returns (s1: State, s2: State, s3: State)
    requires s0 == State([], [], [], [], Idle, [], 0, [], false, [], {})
    ensures Enabled(s0, Arrive(Write())) && s1 == Perform(s0, Arrive(Write()))
    ensures Enabled(s1, Arrive(Flush())) && s2 == Perform(s1, Arrive(Flush()))
    ensures Enabled(s2, Lead) && s3 == Perform(s2, Lead)
    ensures s3 == s0.(requests := [Write(), Flush()], queue := [0, 1], phase := MakingRoom)
  {
    s1 := Perform(s0, Arrive(Write()));
    s2 := Perform(s1, Arrive(Flush()));
    s3 := Perform(s2, Lead);
    assert s1.requests == [Write()] && s1.queue == [0];
    assert s2.requests == [Write(), Flush()] && s2.queue == [0, 1];
  }

  lemma BothLeave(s4: State, r: Record) returns (s5: State, s6: State, s7: State)
    requires s4 == State([Write(), Flush()], [0, 1], [], [], Logging(2, r), [], 0, [], false, [], {})
    requires r == Record(1, [Delete([])], [0, 1], false)
    ensures Enabled(s4, Log(Logged)) && s5 == Perform(s4, Log(Logged))
    ensures Enabled(s5, InsertOne) && s6 == Perform(s5, InsertOne)
    ensures Enabled(s6, Publish) && s7 == Perform(s6, Publish)
    ensures s7.acknowledged == [0, 1] && s7.requests == [Write(), Flush()] && s7.switched == {} && s7.leader == [0, 0]
  {
    s5 := Perform(s4, Log(Logged));
    s6 := Perform(s5, InsertOne);
    s7 := Perform(s6, Publish);
    assert [0, 1][..2] == [0, 1];
  }

  lemma GroupFormed(s: State, r: Record)
    requires s.requests == [Write(), Flush()] && s.queue == [0, 1] && s.phase.MakingRoom? && !s.broken
    requires s.lastSequence == 0
    requires r == Record(1, [Delete([])], [0, 1], false)
    ensures Enabled(s, RoomMade(true, 2)) && Perform(s, RoomMade(true, 2)) == s.(phase := Logging(2, r))
  {
    var rs := Requests(s, s.queue);
    assert rs == [Write(), Flush()];
    assert rs[..1] == [Write()] && rs[..2] == rs;
    assert Joins(rs, 1);
    assert s.queue[..2] == s.queue;
    GroupOfOne(rs);
    GroupMore(rs, 1);
    assert GroupOps(rs) == [Delete([])];
    assert s.requests[s.queue[0]] == Write();
  }
}
