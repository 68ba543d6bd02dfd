/** What a sequence of writes does to a map: the meaning that reads are held to (include/leveldb/db.h, Put and Delete).
 */
module Maps {
  import opened Keys
  import opened Engine

  function Apply(m: map<UserKey, Bytes>, op: Op): map<UserKey, Bytes> {
    match op
    case Put(k, v) => m[k := v]
    case Remove(k) => m - {k}
  }

  /** The map after the operations, one after the other. */
  function Fold(m: map<UserKey, Bytes>, ops: seq<Op>): map<UserKey, Bytes> {
    if ops == [] then m else Apply(Fold(m, ops[..|ops| - 1]), ops[|ops| - 1])
  }

  function Find(m: map<UserKey, Bytes>, k: UserKey): Option<Bytes> {
    if k in m then Some(m[k]) else None
  }

  /** To a reader at sequence number `at` the entries are this map. */
  ghost predicate Shows(s: set<Entry>, m: map<UserKey, Bytes>, at: nat) {
    forall k :: View(s, k, at) == Find(m, k)
  }

  lemma {:induction false} FoldMore(m: map<UserKey, Bytes>, a: seq<Op>, b: seq<Op>)
    ensures Fold(m, a + b) == Fold(Fold(m, a), b)
  {
    if b == [] {
      assert a + b == a;
    } else {
      FoldMore(m, a, b[..|b| - 1]);
      assert (a + b)[..|a + b| - 1] == a + b[..|b| - 1];
    }
  }

  /** The newest entry decides for its key, and changes nothing for others. */
  lemma TopView(s: set<Entry>, e: Entry, k: UserKey, at: nat)
    requires Unambiguous(s) && forall x :: x in s ==> x.key.sequence < e.key.sequence
    ensures Unambiguous(s + {e})
    ensures View(s + {e}, k, at) == if e.key.user == k && e.key.sequence <= at then Shown(e) else View(s, k, at)
  {
    var all := s + {e};
    if e.key.user == k && e.key.sequence <= at {
      assert IsNewest(all, k, at, e);
      ViewOf(all, k, at, e);
    } else if AnyVisible(s, k, at) {
      var x := Newest(s, k, at);
      assert IsNewest(all, k, at, x);
      ViewOf(all, k, at, x);
      ViewOf(s, k, at, x);
    } else {
      assert !AnyVisible(all, k, at);
    }
  }

  /** One more write, seen by the reader, is one more operation on the map. */
  lemma TopShows(s: set<Entry>, m: map<UserKey, Bytes>, op: Op, n: nat, at: nat)
    requires Unambiguous(s) && (forall x :: x in s ==> x.key.sequence < n)
    requires Shows(s, m, at)
    ensures Unambiguous(s + {OpEntry(op, n)})
    ensures Shows(s + {OpEntry(op, n)}, if n <= at then Apply(m, op) else m, at)
  {
    hide View, Unambiguous;
    forall k ensures View(s + {OpEntry(op, n)}, k, at) == Find(if n <= at then Apply(m, op) else m, k) {
      TopView(s, OpEntry(op, n), k, at);
      assert View(s, k, at) == Find(m, k);
    }
    TopView(s, OpEntry(op, n), 0.0, at);
  }

  // ------------------------------------------------------------------ one record

  function FirstEntries(b: Batch, n: nat): set<Entry>
    requires n <= |b.ops|
  {
    set i | 0 <= i < n :: OpEntry(b.ops[i], b.start + i)
  }

  lemma FirstSnoc(b: Batch, n: nat)
    requires n <= |b.ops|
    ensures n == 0 ==> FirstEntries(b, n) == {}
    ensures n > 0 ==> FirstEntries(b, n) == FirstEntries(b, n - 1) + {OpEntry(b.ops[n - 1], b.start + n - 1)}
    ensures n > 0 ==> forall x :: x in FirstEntries(b, n - 1) ==> x.key.sequence < b.start + n - 1
  {
  }

  /** A record on top of older entries does to the map what its operations do. */
  lemma {:induction false} BatchShows(s: set<Entry>, b: Batch, n: nat, m: map<UserKey, Bytes>, at: nat)
    requires Unambiguous(s) && (forall x :: x in s ==> x.key.sequence < b.start)
    requires n <= |b.ops| && b.start + n <= at + 1 && Shows(s, m, at)
    ensures Unambiguous(s + FirstEntries(b, n)) && Shows(s + FirstEntries(b, n), Fold(m, b.ops[..n]), at)
  {
    hide Unambiguous, Shows, FirstEntries, OpEntry;
    FirstSnoc(b, n);
    if n == 0 {
      assert s + FirstEntries(b, 0) == s && b.ops[..0] == [];
    } else {
      BatchShows(s, b, n - 1, m, at);
      var below := s + FirstEntries(b, n - 1);
      TopShows(below, Fold(m, b.ops[..n - 1]), b.ops[n - 1], b.start + n - 1, at);
      assert below + {OpEntry(b.ops[n - 1], b.start + n - 1)} == s + FirstEntries(b, n);
      assert b.ops[..n][..n - 1] == b.ops[..n - 1];
    }
  }

  lemma AllOfBatch(b: Batch)
    ensures FirstEntries(b, |b.ops|) == BatchEntries(b) && b.ops[..|b.ops|] == b.ops
  {
  }

  // ------------------------------------------------------------------ many writes

  /** An operation and the sequence number it was given. */
  datatype Write = Write(number: nat, op: Op)

  ghost predicate Increasing(ws: seq<Write>) {
    forall i, j :: 0 <= i < j < |ws| ==> ws[i].number < ws[j].number
  }

  function EntriesOf(ws: seq<Write>): set<Entry> {
    set i | 0 <= i < |ws| :: OpEntry(ws[i].op, ws[i].number)
  }

  /** The map after those of the writes that have a number up to `at`. */
  function FoldTo(ws: seq<Write>, at: nat): map<UserKey, Bytes> {
    if ws == [] then map[]
    else
      var m := FoldTo(ws[..|ws| - 1], at);
      if ws[|ws| - 1].number <= at then Apply(m, ws[|ws| - 1].op) else m
  }

  /** Entries of writes show, at any sequence number, the map that the writes up to it make. */
  lemma {:induction false} WritesShow(ws: seq<Write>, at: nat)
    requires Increasing(ws)
    ensures Unambiguous(EntriesOf(ws)) && Shows(EntriesOf(ws), FoldTo(ws, at), at)
  {
    hide Unambiguous;
    if ws == [] {
      NothingShown(at);
      assert EntriesOf(ws) == {};
    } else {
      hide Shows;
      var n := |ws| - 1;
      WritesShow(ws[..n], at);
      var below := EntriesOf(ws[..n]);
      assert below + {OpEntry(ws[n].op, ws[n].number)} == EntriesOf(ws) by {
        EntriesSnoc(ws[..n], ws[n]);
        assert ws[..n] + [ws[n]] == ws;
      }
      forall x | x in below ensures x.key.sequence < ws[n].number {
        var i :| 0 <= i < n && x == OpEntry(ws[..n][i].op, ws[..n][i].number);
      }
      TopShows(below, FoldTo(ws[..n], at), ws[n].op, ws[n].number, at);
    }
  }

  lemma NothingShown(at: nat)
    ensures Unambiguous({}) && Shows({}, map[], at)
  {
    forall k ensures View({}, k, at) == Find(map[], k) {
      ViewOfNothing({}, k, at);
    }
  }

  lemma NoEntries()
    ensures EntriesOf([]) == {}
  {
  }

  lemma EntriesSnoc(ws: seq<Write>, w: Write)
    ensures EntriesOf(ws + [w]) == EntriesOf(ws) + {OpEntry(w.op, w.number)}
  {
    var all := ws + [w];
    forall e | e in EntriesOf(ws) + {OpEntry(w.op, w.number)} ensures e in EntriesOf(all) {
      if e in EntriesOf(ws) {
        var i :| 0 <= i < |ws| && e == OpEntry(ws[i].op, ws[i].number);
        assert all[i] == ws[i];
      } else {
        assert all[|ws|] == w;
      }
    }
  }

  /** The first `n` operations of a record, numbered. */
  function Numbered(b: Batch, n: nat): seq<Write>
    requires n <= |b.ops|
  {
    seq(n, i requires 0 <= i < n => Write(b.start + i, b.ops[i]))
  }

  lemma EntriesOfRecord(ws: seq<Write>, b: Batch)
    ensures EntriesOf(ws + Numbered(b, |b.ops|)) == EntriesOf(ws) + BatchEntries(b)
  {
    var more := Numbered(b, |b.ops|);
    var all := ws + more;
    forall e | e in EntriesOf(ws) + BatchEntries(b) ensures e in EntriesOf(all) {
      if e in EntriesOf(ws) {
        var i :| 0 <= i < |ws| && e == OpEntry(ws[i].op, ws[i].number);
        assert all[i] == ws[i];
      } else {
        var i :| 0 <= i < |b.ops| && e == OpEntry(b.ops[i], b.start + i);
        assert all[|ws| + i] == Write(b.start + i, b.ops[i]);
      }
    }
    forall e | e in EntriesOf(all) ensures e in EntriesOf(ws) + BatchEntries(b) {
      var i :| 0 <= i < |all| && e == OpEntry(all[i].op, all[i].number);
      if i < |ws| {
        assert all[i] == ws[i];
      } else {
        assert all[i] == Write(b.start + (i - |ws|), b.ops[i - |ws|]);
      }
    }
  }

  /** Those of the writes whose entries are in `s`. */
  function Kept(ws: seq<Write>, s: set<Entry>): seq<Write> {
    if ws == [] then []
    else
      var w := ws[|ws| - 1];
      Kept(ws[..|ws| - 1], s) + (if OpEntry(w.op, w.number) in s then [w] else [])
  }

  lemma {:induction false} KeptEntries(ws: seq<Write>, s: set<Entry>)
    requires Increasing(ws)
    ensures EntriesOf(Kept(ws, s)) == EntriesOf(ws) * s && Increasing(Kept(ws, s))
    ensures forall w :: w in Kept(ws, s) ==> w in ws
  {
    hide EntriesOf, OpEntry;
    if ws == [] {
      NoEntries();
    } else {
      var n := |ws| - 1;
      KeptEntries(ws[..n], s);
      EntriesSnoc(ws[..n], ws[n]);
      assert ws[..n] + [ws[n]] == ws;
      EntriesSnoc(Kept(ws[..n], s), ws[n]);
      assert Kept(ws[..n], s) + [] == Kept(ws[..n], s);
      forall w | w in Kept(ws[..n], s) ensures w.number < ws[n].number {
        assert w in ws[..n];
      }
    }
  }
}
