/** In every run the history is the writes that were logged, in the order of their sequence numbers, and shows the map
    that they make. */
module EngineMaps {
  import opened Lookup
  import opened Engine
  import opened Maps
  import opened EngineInvariant
  import opened EngineWrites
  import opened EngineRuns

  /** The write is operation `t` of the record that the step appends in the state. */
  ghost predicate IssuedAt(s: State, step: Step, t: nat, w: Write) {
    s.Up? && step.Append? && t < |step.ops| && w == Write(s.db.lastSequence + 1 + t, step.ops[t])
  }

  /** One of the first `i` steps of the run logged the write. */
  ghost predicate Issued(states: seq<State>, steps: seq<Step>, i: nat, w: Write)
    requires i <= |steps| && |states| == |steps| + 1
  {
    exists n: nat, t: nat :: n < i && IssuedAt(states[n], steps[n], t, w)
  }

  /** The writes are those whose entries are in the history of state `i`, in order, and each was logged before. */
  ghost predicate IsAccount(states: seq<State>, steps: seq<Step>, i: nat, ws: seq<Write>)
    requires i <= |steps| && |states| == |steps| + 1
  {
    && Increasing(ws) && EntriesOf(ws) == states[i].history
    && forall w :: w in ws ==> Issued(states, steps, i, w)
  }

  lemma IncreasingMore(ws: seq<Write>, b: Batch)
    requires Increasing(ws) && SetNewer(BatchEntries(b), EntriesOf(ws))
    ensures Increasing(ws + Numbered(b, |b.ops|))
  {
    var all := ws + Numbered(b, |b.ops|);
    forall i, j | 0 <= i < j < |all| ensures all[i].number < all[j].number {
      if i < |ws| <= j {
        assert OpEntry(ws[i].op, ws[i].number) in EntriesOf(ws);
        assert OpEntry(b.ops[j - |ws|], b.start + (j - |ws|)) in BatchEntries(b);
      }
    }
  }

  /** A record is added at the end, a crash takes some away, and no other step changes the history. */
  lemma AccountStep(s: State, step: Step, ws: seq<Write>) returns (ws': seq<Write>)
    requires Inv(s) && Enabled(s, step) && Increasing(ws) && EntriesOf(ws) == s.history
    ensures Increasing(ws') && EntriesOf(ws') == Perform(s, step).history
    ensures forall w :: w in ws' ==> w in ws || exists t: nat :: IssuedAt(s, step, t, w)
  {
    hide DbOk, DiskOk, DiskSane, TearOk, BatchEntries, EntriesOf, Increasing, SetNewer, Held, Crashed;
    ws' := ws;
    if step.Append? {
      var b := Batch(s.db.lastSequence + 1, step.ops);
      HistoryBelow(s.disk, s.history, s.db, b);
      IncreasingMore(ws, b);
      EntriesOfRecord(ws, b);
      ws' := ws + Numbered(b, |b.ops|);
      forall w | w in Numbered(b, |b.ops|) ensures exists t: nat :: IssuedAt(s, step, t, w) {
        var t :| 0 <= t < |b.ops| && w == Numbered(b, |b.ops|)[t];
        assert IssuedAt(s, step, t, w);
      }
    } else if step.Crash? {
      var d := Crashed(s.disk, step.cuts, step.revert, step.tear);
      KeptEntries(ws, Held(d));
      ws' := Kept(ws, Held(d));
    } else {
      HistoryKept(s, step);
    }
  }

  lemma HistoryKept(s: State, step: Step)
    requires Enabled(s, step) && !step.Append? && !step.Crash?
    ensures Perform(s, step).history == s.history
  {
    hide FlushedStore, FlushedEdit, Extended, MergedStore, MovedStore, MergeEdit, LiveNumbers, Max, BackgroundFree,
         CanRecover, CanApplyFlush, CanPick, CanApplyMerge, TableOf;
  }

  lemma {:induction false} HistoryIsWrites(states: seq<State>, steps: seq<Step>, i: nat) returns (ws: seq<Write>)
    requires IsRun(states, steps) && i < |states|
    ensures IsAccount(states, steps, i, ws)
    ensures forall at :: Shows(states[i].history, FoldTo(ws, at), at)
  {
    hide Inv, Enabled, Perform, EntriesOf, Shows, Increasing;
    if i == 0 {
      ws := [];
      NoWrites(ws);
      NoEntries();
    } else {
      var before := HistoryIsWrites(states, steps, i - 1);
      RunInv(states, steps, i - 1);
      assert Follows(states, steps, i - 1);
      ws := AccountStep(states[i - 1], steps[i - 1], before);
      forall w | w in ws ensures Issued(states, steps, i, w) {
        IssuedStill(states, steps, i - 1, w, w in before);
      }
    }
    forall at ensures Shows(states[i].history, FoldTo(ws, at), at) {
      WritesShow(ws, at);
    }
  }

  lemma NoWrites(ws: seq<Write>)
    requires ws == []
    ensures Increasing(ws)
  {
  }

  lemma IssuedStill(states: seq<State>, steps: seq<Step>, i: nat, w: Write, before: bool)
    requires i < |steps| && |states| == |steps| + 1
    requires if before then Issued(states, steps, i, w) else exists t: nat :: IssuedAt(states[i], steps[i], t, w)
    ensures Issued(states, steps, i + 1, w)
  {
    if before {
      var n: nat, t: nat :| n < i && IssuedAt(states[n], steps[n], t, w);
      assert n < i + 1 && IssuedAt(states[n], steps[n], t, w);
    } else {
      var t: nat :| IssuedAt(states[i], steps[i], t, w);
    }
  }
}
