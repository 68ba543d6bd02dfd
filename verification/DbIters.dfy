/** The two-way iterator over the visible entries (db/db_iter.cc).

    The internal iterator is a position in a sorted sequence of entries, or no position. */
module DbIters {
  import opened Keys

  // ------------------------------------------------------------------ what is visible

  predicate Visible(e: Entry, s: nat) {
    e.key.sequence <= s
  }

  /** Entry `i` is the newest visible one for its user key, and a value. */
  ghost predicate Current(es: seq<Entry>, s: nat, i: int) {
    && 0 <= i < |es| && Visible(es[i], s) && es[i].key.kind.Value?
    && NoneBefore(es, s, i, es[i].key.user)
  }

  /** No entry before `i` is visible and for user key `k`. */
  ghost predicate NoneBefore(es: seq<Entry>, s: nat, i: int, k: UserKey) {
    forall j :: 0 <= j < i && j < |es| && Visible(es[j], s) ==> es[j].key.user != k
  }

  ghost predicate UserSorted(es: seq<Entry>) {
    forall i, j :: 0 <= i < j < |es| ==> es[i].key.user <= es[j].key.user
  }

  lemma SortedUsers(es: seq<Entry>)
    requires Sorted(es)
    ensures UserSorted(es)
  {
    forall i, j | 0 <= i < j < |es| ensures es[i].key.user <= es[j].key.user {
      assert Less(es[i].key, es[j].key);
    }
  }

  /** `i` is the first current entry from `from` on whose user key is above `skip` (if there is one to skip). */
  ghost predicate Wanted(es: seq<Entry>, s: nat, from: int, skip: Option<UserKey>, i: int) {
    Current(es, s, i) && from <= i && (skip.Some? ==> es[i].key.user > skip.value)
  }

  ghost predicate IsFirst(es: seq<Entry>, s: nat, from: int, skip: Option<UserKey>, r: Option<nat>) {
    if r.None? then forall i :: !Wanted(es, s, from, skip, i)
    else Wanted(es, s, from, skip, r.value) && forall i :: Wanted(es, s, from, skip, i) ==> r.value <= i
  }

  /** `r` is the last current entry at or before `to`. */
  ghost predicate IsLast(es: seq<Entry>, s: nat, to: int, r: Option<nat>) {
    if r.None? then forall i :: i <= to ==> !Current(es, s, i)
    else r.value <= to && Current(es, s, r.value) && forall i :: i <= to && Current(es, s, i) ==> i <= r.value
  }

  // ------------------------------------------------------------------ the forward scan

  /** Every entry from `at` on that is not to be skipped has no visible one before `at`. */
  ghost predicate Fresh(es: seq<Entry>, s: nat, at: int, skip: Option<UserKey>) {
    forall j :: at <= j < |es| && 0 <= j && (skip.Some? ==> es[j].key.user > skip.value) ==>
      NoneBefore(es, s, at, es[j].key.user)
  }

  /** The same entries are wanted after the scan has moved on. */
  ghost predicate SameWanted(es: seq<Entry>, s: nat, from: int, skip: Option<UserKey>, from': int,
                             skip': Option<UserKey>) {
    forall i :: Wanted(es, s, from, skip, i) <==> Wanted(es, s, from', skip', i)
  }

  lemma FreshIsCurrent(es: seq<Entry>, s: nat, at: nat, skip: Option<UserKey>)
    requires at < |es| && Fresh(es, s, at, skip)
    requires Visible(es[at], s) && es[at].key.kind.Value? && (skip.Some? ==> es[at].key.user > skip.value)
    ensures IsFirst(es, s, at, skip, Some(at))
  {
  }

  /** Nothing visible from `at` on is before the key to skip. */
  ghost predicate Ahead(es: seq<Entry>, s: nat, at: int, skip: Option<UserKey>) {
    skip.Some? ==> forall j :: at <= j < |es| && 0 <= j && Visible(es[j], s) ==> skip.value <= es[j].key.user
  }

  lemma SkipDeletion(es: seq<Entry>, s: nat, at: nat, skip: Option<UserKey>)
    requires UserSorted(es) && at < |es| && Fresh(es, s, at, skip) && Ahead(es, s, at, skip)
    requires Visible(es[at], s) && es[at].key.kind.Deletion?
    ensures var skip' := Some(es[at].key.user);
            SameWanted(es, s, at, skip, at + 1, skip') && Fresh(es, s, at + 1, skip') && Ahead(es, s, at + 1, skip')
  {
    var k := es[at].key.user;
    forall i ensures Wanted(es, s, at, skip, i) <==> Wanted(es, s, at + 1, Some(k), i) {
      if Wanted(es, s, at, skip, i) {
        assert i != at;
        assert es[at].key.user <= es[i].key.user;
      }
    }
  }

  lemma SkipHidden(es: seq<Entry>, s: nat, at: nat, skip: Option<UserKey>)
    requires UserSorted(es) && at < |es| && Fresh(es, s, at, skip) && Ahead(es, s, at, skip)
    requires !Visible(es[at], s) || (skip.Some? && es[at].key.user <= skip.value)
    ensures SameWanted(es, s, at, skip, at + 1, skip) && Fresh(es, s, at + 1, skip) && Ahead(es, s, at + 1, skip)
  {
  }

  lemma SameFirst(es: seq<Entry>, s: nat, from: int, skip: Option<UserKey>, from': int, skip': Option<UserKey>,
                  r: Option<nat>)
    requires SameWanted(es, s, from, skip, from', skip') && IsFirst(es, s, from', skip', r)
    ensures IsFirst(es, s, from, skip, r)
  {
  }

  // ------------------------------------------------------------------ the backward scan

  /** The first visible entry above `at` and up to `to`. */
  ghost predicate FirstVisible(es: seq<Entry>, s: nat, at: int, to: int, m: Option<nat>) {
    if m.None? then forall j :: at < j <= to && 0 <= j < |es| ==> !Visible(es[j], s)
    else
      && at < m.value <= to && m.value < |es| && Visible(es[m.value], s)
      && forall j :: at < j < m.value && 0 <= j ==> !Visible(es[j], s)
  }

  /** The scan has come down to `at`, and `m` is what it holds. */
  ghost predicate Scanned(es: seq<Entry>, s: nat, at: int, to: int, m: Option<nat>) {
    && FirstVisible(es, s, at, to, m)
    && (m.Some? ==> forall i :: m.value < i <= to ==> !Current(es, s, i))
  }

  lemma ScanHidden(es: seq<Entry>, s: nat, at: nat, to: int, m: Option<nat>)
    requires at < |es| && Scanned(es, s, at, to, m) && !Visible(es[at], s)
    ensures Scanned(es, s, at - 1, to, m)
  {
  }

  lemma ScanVisible(es: seq<Entry>, s: nat, at: nat, to: int, m: Option<nat>)
    requires at < |es| && at <= to && Scanned(es, s, at, to, m) && Visible(es[at], s)
    requires m.Some? && es[m.value].key.kind.Value? ==> es[m.value].key.user == es[at].key.user
    ensures Scanned(es, s, at - 1, to, Some(at))
  {
    forall i | at < i <= to ensures !Current(es, s, i) {
      if m.Some? && i == m.value {
        assert !Current(es, s, i) by {
          assert es[i].key.kind.Value? ==> !NoneBefore(es, s, i, es[i].key.user);
        }
      }
    }
  }

  /** Stopping at an entry for a smaller user key, or at the front. */
  lemma ScanStops(es: seq<Entry>, s: nat, at: int, to: int, m: nat)
    requires UserSorted(es) && -1 <= at < |es| && Scanned(es, s, at, to, Some(m)) && es[m].key.kind.Value?
    requires at >= 0 ==> es[at].key.user < es[m].key.user
    ensures IsLast(es, s, to, Some(m))
  {
    forall j | 0 <= j < m && Visible(es[j], s) ensures es[j].key.user != es[m].key.user {
      assert j <= at;
      assert es[j].key.user <= es[at].key.user;
    }
  }

  lemma ScanNothing(es: seq<Entry>, s: nat, to: int, m: Option<nat>)
    requires Scanned(es, s, -1, to, m) && (m.Some? ==> es[m.value].key.kind.Deletion?)
    ensures IsLast(es, s, to, None)
  {
  }

  // ------------------------------------------------------------------ the iterator

  datatype Direction = Forward | Reverse

  /** What saved_key_ holds once cleared; it is never looked at then. */
  const CLEARED: UserKey := 0.0

  class DbIter {
    const entries: seq<Entry>
    const sequence: nat
    var at: Option<nat>
    var savedKey: UserKey
    var savedValue: Bytes
    var direction: Direction
    var valid: bool

    ghost predicate Inner()
      reads this
    {
      UserSorted(entries) && (at.Some? ==> at.value < |entries|)
    }

    /** In the reverse direction the internal iterator is before entry `c`: nothing visible is between,
        and it is at a smaller user key or has run off the front. */
    ghost predicate Parked(c: nat)
      reads this
    {
      && Inner() && c < |entries| && savedKey == entries[c].key.user && savedValue == entries[c].value
      && FirstVisible(entries, sequence, Place(), c, Some(c))
      && (at.Some? ==> entries[at.value].key.user < savedKey)
    }

    ghost function Place(): int
      reads this
    {
      if at.Some? then at.value else -1
    }

    /** The iterator stands on entry `c`. */
    ghost predicate On(c: nat)
      reads this
    {
      && Inner() && valid && Current(entries, sequence, c)
      && (if direction.Forward? then at == Some(c) else Parked(c))
    }

    /** The iterator stands on `r`, or is not valid. */
    ghost predicate Stands(r: Option<nat>)
      reads this
    {
      Inner() && valid == r.Some? && (r.Some? ==> On(r.value))
    }

    constructor (entries: seq<Entry>, sequence: nat)
      requires Sorted(entries)
      ensures Stands(None) && this.entries == entries && this.sequence == sequence
    {
      SortedUsers(entries);
      this.entries, this.sequence := entries, sequence;
      at, savedKey, savedValue, direction, valid := None, CLEARED, [], Forward, false;
    }

    /** The user key, when valid. */
    method Key(ghost c: nat) returns (k: UserKey)
      requires On(c)
      ensures k == entries[c].key.user
    {
      if direction.Forward? {
        k := entries[at.value].key.user;
      } else {
        k := savedKey;
      }
    }

    method Value(ghost c: nat) returns (v: Bytes)
      requires On(c)
      ensures v == entries[c].value
    {
      if direction.Forward? {
        v := entries[at.value].value;
      } else {
        v := savedValue;
      }
    }

    method InnerNext()
      requires Inner() && at.Some?
      modifies this`at
      ensures Inner()
      ensures at == if old(at).value + 1 < |entries| then Some(old(at).value + 1) else None
    {
      at := if at.value + 1 < |entries| then Some(at.value + 1) else None;
    }

    method InnerPrev()
      requires Inner() && at.Some?
      modifies this`at
      ensures Inner()
      ensures at == if old(at).value > 0 then Some(old(at).value - 1) else None
    {
      at := if at.value > 0 then Some(at.value - 1) else None;
    }

    /** The loop over entries to yield or to pass by; `skip` is the key to pass by, if any. */
    method FindNextUserEntry(skipping: bool, key: UserKey) returns (ghost r: Option<nat>)
      requires Inner() && at.Some? && direction.Forward?
      requires var skip := if skipping then Some(key) else None;
               Fresh(entries, sequence, at.value, skip) && Ahead(entries, sequence, at.value, skip)
      modifies this
      ensures Stands(r)
      ensures IsFirst(entries, sequence, old(at).value, if skipping then Some(key) else None, r)
    {
      hide IsFirst, Fresh, Ahead, SameWanted, UserSorted;
      var skip := if skipping then Some(key) else None;
      ghost var from, first := at.value, skip;
      StillWanted(entries, sequence, from, first);
      while at.Some?
        invariant Inner() && direction.Forward? && from <= if at.Some? then at.value else |entries|
        invariant var place := if at.Some? then at.value else |entries|;
                  SameWanted(entries, sequence, from, first, place, skip)
                  && Fresh(entries, sequence, place, skip) && Ahead(entries, sequence, place, skip)
        decreases |entries| - if at.Some? then at.value else |entries|
      {
        var e := entries[at.value];
        if e.key.sequence <= sequence {
          match e.key.kind
          case Deletion =>
            SkipDeletion(entries, sequence, at.value, skip);
            ChainWanted(entries, sequence, from, first, at.value, skip, at.value + 1, Some(e.key.user));
            skip := Some(e.key.user);
          case Value =>
            if skip.Some? && e.key.user <= skip.value {
              SkipHidden(entries, sequence, at.value, skip);
              ChainWanted(entries, sequence, from, first, at.value, skip, at.value + 1, skip);
            } else {
              valid := true;
              savedKey := CLEARED;
              FreshIsCurrent(entries, sequence, at.value, skip);
              SameFirst(entries, sequence, from, first, at.value, skip, Some(at.value));
              FirstIsCurrent(entries, sequence, from, first, at.value);
              return Some(at.value);
            }
        } else {
          SkipHidden(entries, sequence, at.value, skip);
          ChainWanted(entries, sequence, from, first, at.value, skip, at.value + 1, skip);
        }
        InnerNext();
      }
      savedKey := CLEARED;
      valid := false;
      r := None;
      NothingAtEnd(entries, sequence, skip);
      SameFirst(entries, sequence, from, first, |entries|, skip, None);
    }

    /** Scans back over the entries for one user key after the other, until one of them is a value. */
    method FindPrevUserEntry() returns (ghost r: Option<nat>)
      requires Inner() && direction.Reverse?
      modifies this
      ensures Stands(r)
      ensures IsLast(entries, sequence, old(Place()), r)
    {
      hide IsLast, UserSorted, Scanned;
      var kind := Deletion;
      ghost var to := Place();
      ghost var m: Option<nat> := None;
      NothingScanned(entries, sequence, to);
      while at.Some?
        invariant Inner() && direction.Reverse? && Place() <= to < |entries|
        invariant Scanned(entries, sequence, Place(), to, m)
        invariant Holding(m, kind)
        decreases Place() + 1
      {
        var e := entries[at.value];
        if e.key.sequence <= sequence {
          if kind != Deletion && e.key.user < savedKey {
            break;
          }
          ScanUser(entries, sequence, at.value, to, m);
          ScanVisible(entries, sequence, at.value, to, m);
          m := at;
          kind := e.key.kind;
          if kind == Deletion {
            savedKey := CLEARED;
            savedValue := [];
          } else {
            savedKey := e.key.user;
            savedValue := e.value;
          }
        } else {
          ScanHidden(entries, sequence, at.value, to, m);
        }
        InnerPrev();
      }
      r := m;
      if kind == Deletion {
        ScanNothing(entries, sequence, to, m);
        r := None;
        valid := false;
        savedKey := CLEARED;
        savedValue := [];
        direction := Forward;
      } else {
        ScanStops(entries, sequence, Place(), to, m.value);
        LastIsParked(entries, sequence, Place(), to, m.value);
        valid := true;
      }
    }

    /** What the scan has saved. */
    ghost predicate Holding(m: Option<nat>, kind: Kind)
      reads this
    {
      && (kind.Value? ==> m.Some?)
      && (m.Some? ==> m.value < |entries| && entries[m.value].key.kind == kind)
      && (kind.Value? ==> savedKey == entries[m.value].key.user && savedValue == entries[m.value].value)
    }

    /** From one visible entry to the next. */
    method Next(ghost c: nat) returns (ghost r: Option<nat>)
      requires On(c)
      modifies this
      ensures Stands(r) && IsFirst(entries, sequence, c + 1, None, r)
    {
      hide IsFirst, Fresh, Ahead, UserSorted;
      ghost var from := Place() + 1;
      if direction.Reverse? {
        NextFromParked(entries, sequence, c, Place(), savedKey);
        direction := Forward;
        if at.None? {
          at := if entries != [] then Some(0) else None;
        } else {
          InnerNext();
        }
      } else {
        NextFromEntry(entries, sequence, c);
        savedKey := entries[at.value].key.user;
        InnerNext();
      }
      if at.None? {
        valid := false;
        savedKey := CLEARED;
        PastEnd(entries, sequence, c);
        return None;
      }
      ghost var k := savedKey;
      r := FindNextUserEntry(true, savedKey);
      SameFirst(entries, sequence, c + 1, None, from, Some(k), r);
    }

    /** From one visible entry to the one before. */
    method Prev(ghost c: nat) returns (ghost r: Option<nat>)
      requires On(c)
      modifies this
      ensures Stands(r) && IsLast(entries, sequence, c - 1, r)
    {
      hide IsLast, UserSorted;
      if direction.Forward? {
        savedKey := entries[at.value].key.user;
        InnerPrev();
        while at.Some? && entries[at.value].key.user >= savedKey
          invariant Inner() && direction.Forward? && Place() < c && savedKey == entries[c].key.user
          invariant forall j :: Place() < j < c ==> entries[j].key.user >= savedKey
          decreases Place() + 1
        {
          InnerPrev();
        }
        BeforeGroup(entries, sequence, c, Place());
        if at.None? {
          valid := false;
          savedKey := CLEARED;
          savedValue := [];
          NothingBefore(entries, sequence, c);
          return None;
        }
        direction := Reverse;
      } else {
        BeforeParked(entries, sequence, c, Place());
      }
      ghost var place := Place();
      r := FindPrevUserEntry();
      SameLast(entries, sequence, place, c - 1, r);
    }

    /** To the first visible entry at or after `target`. */
    method Seek(target: UserKey) returns (ghost r: Option<nat>)
      requires Inner()
      modifies this
      ensures Stands(r) && IsSought(entries, sequence, target, r)
    {
      hide IsFirst, Fresh, Ahead, IsSought;
      direction := Forward;
      savedValue := [];
      savedKey := target;
      var i := 0;
      while i < |entries| && Less(entries[i].key, SeekKey(target, sequence))
        invariant i <= |entries| && Inner() && direction.Forward?
        invariant forall j :: 0 <= j < i ==> Less(entries[j].key, SeekKey(target, sequence))
      {
        i := i + 1;
      }
      SeekFrom(entries, sequence, target, i);
      at := if i < |entries| then Some(i) else None;
      if at.Some? {
        r := FindNextUserEntry(false, savedKey);
      } else {
        valid := false;
        r := None;
        NothingAtEnd(entries, sequence, None);
      }
      FirstIsSought(entries, sequence, target, i, r);
    }

    method SeekToFirst() returns (ghost r: Option<nat>)
      requires Inner()
      modifies this
      ensures Stands(r) && IsFirst(entries, sequence, 0, None, r)
    {
      hide IsFirst, UserSorted;
      direction := Forward;
      savedValue := [];
      at := if entries != [] then Some(0) else None;
      if at.Some? {
        r := FindNextUserEntry(false, savedKey);
      } else {
        valid := false;
        r := None;
        NothingAtEnd(entries, sequence, None);
      }
    }

    method SeekToLast() returns (ghost r: Option<nat>)
      requires Inner()
      modifies this
      ensures Stands(r) && IsLast(entries, sequence, |entries| - 1, r)
    {
      hide IsLast, UserSorted;
      direction := Reverse;
      savedValue := [];
      at := if entries != [] then Some(|entries| - 1) else None;
      r := FindPrevUserEntry();
    }
  }

  // ------------------------------------------------------------------ why the scans start right

  lemma StillWanted(es: seq<Entry>, s: nat, from: int, skip: Option<UserKey>)
    ensures SameWanted(es, s, from, skip, from, skip)
  {
  }

  lemma NothingScanned(es: seq<Entry>, s: nat, to: int)
    requires to < |es|
    ensures Scanned(es, s, to, to, None)
  {
  }

  /** The scan goes on only within the entries for the saved user key. */
  lemma ScanUser(es: seq<Entry>, s: nat, at: nat, to: int, m: Option<nat>)
    requires UserSorted(es) && at < |es| && Scanned(es, s, at, to, m)
    ensures m.Some? ==> m.value < |es| && es[at].key.user <= es[m.value].key.user
  {
  }

  lemma LastIsParked(es: seq<Entry>, s: nat, at: int, to: int, m: nat)
    requires Scanned(es, s, at, to, Some(m)) && IsLast(es, s, to, Some(m))
    ensures FirstVisible(es, s, at, m, Some(m)) && Current(es, s, m)
  {
  }

  lemma LaterUser(es: seq<Entry>, s: nat, c: nat, i: int)
    requires UserSorted(es) && Current(es, s, c) && Current(es, s, i) && c < i
    ensures es[c].key.user < es[i].key.user
  {
    assert es[c].key.user <= es[i].key.user;
    assert es[c].key.user != es[i].key.user;
  }

  lemma NextFromEntry(es: seq<Entry>, s: nat, c: nat)
    requires UserSorted(es) && Current(es, s, c)
    ensures var skip := Some(es[c].key.user);
            SameWanted(es, s, c + 1, None, c + 1, skip) && Fresh(es, s, c + 1, skip) && Ahead(es, s, c + 1, skip)
  {
    forall i | Wanted(es, s, c + 1, None, i) ensures es[i].key.user > es[c].key.user {
      LaterUser(es, s, c, i);
    }
  }

  lemma NextFromParked(es: seq<Entry>, s: nat, c: nat, place: int, k: UserKey)
    requires UserSorted(es) && Current(es, s, c) && k == es[c].key.user
    requires -1 <= place < c && FirstVisible(es, s, place, c, Some(c)) && (place >= 0 ==> es[place].key.user < k)
    ensures SameWanted(es, s, c + 1, None, place + 1, Some(k)) && Fresh(es, s, place + 1, Some(k))
    ensures Ahead(es, s, place + 1, Some(k))
  {
    forall i | Wanted(es, s, c + 1, None, i) ensures es[i].key.user > k {
      LaterUser(es, s, c, i);
    }
  }

  lemma PastEnd(es: seq<Entry>, s: nat, c: nat)
    requires c + 1 >= |es|
    ensures IsFirst(es, s, c + 1, None, None)
  {
  }

  lemma BeforeGroup(es: seq<Entry>, s: nat, c: nat, place: int)
    requires UserSorted(es) && Current(es, s, c) && -1 <= place < c
    requires forall j :: place < j < c ==> es[j].key.user >= es[c].key.user
    ensures forall i :: place < i <= c - 1 ==> !Current(es, s, i)
  {
    forall i | place < i <= c - 1 ensures !Current(es, s, i) {
      assert es[i].key.user == es[c].key.user;
    }
  }

  lemma BeforeParked(es: seq<Entry>, s: nat, c: nat, place: int)
    requires FirstVisible(es, s, place, c, Some(c))
    ensures forall i :: place < i <= c - 1 ==> !Current(es, s, i)
  {
  }

  lemma NothingBefore(es: seq<Entry>, s: nat, c: nat)
    requires forall i :: -1 < i <= c - 1 ==> !Current(es, s, i)
    ensures IsLast(es, s, c - 1, None)
  {
  }

  lemma SameLast(es: seq<Entry>, s: nat, place: int, to: int, r: Option<nat>)
    requires IsLast(es, s, place, r) && place <= to
    requires forall i :: place < i <= to ==> !Current(es, s, i)
    ensures IsLast(es, s, to, r)
  {
  }

  /** `r` is the first current entry at or after `target`. */
  ghost predicate IsSought(es: seq<Entry>, s: nat, target: UserKey, r: Option<nat>) {
    if r.None? then forall i :: Current(es, s, i) ==> es[i].key.user < target
    else
      && Current(es, s, r.value) && es[r.value].key.user >= target
      && forall i :: Current(es, s, i) && es[i].key.user >= target ==> r.value <= i
  }

  lemma SeekFrom(es: seq<Entry>, s: nat, target: UserKey, i: nat)
    requires UserSorted(es) && i <= |es|
    requires forall j :: 0 <= j < i ==> Less(es[j].key, SeekKey(target, s))
    requires i < |es| ==> !Less(es[i].key, SeekKey(target, s))
    ensures forall j :: 0 <= j < i && Visible(es[j], s) ==> es[j].key.user < target
    ensures forall j :: i <= j < |es| ==> es[j].key.user >= target
    ensures Fresh(es, s, i, None) && Ahead(es, s, i, None)
  {
  }

  lemma FirstIsSought(es: seq<Entry>, s: nat, target: UserKey, i: nat, r: Option<nat>)
    requires i <= |es| && IsFirst(es, s, i, None, r)
    requires forall j :: 0 <= j < i && Visible(es[j], s) ==> es[j].key.user < target
    requires forall j :: i <= j < |es| ==> es[j].key.user >= target
    ensures IsSought(es, s, target, r)
  {
    forall j | Current(es, s, j) && es[j].key.user >= target ensures Wanted(es, s, i, None, j) {
    }
  }

  lemma ChainWanted(es: seq<Entry>, s: nat, a: int, x: Option<UserKey>, b: int, y: Option<UserKey>, c: int,
                    z: Option<UserKey>)
    requires SameWanted(es, s, a, x, b, y) && SameWanted(es, s, b, y, c, z)
    ensures SameWanted(es, s, a, x, c, z)
  {
  }

  lemma FirstIsCurrent(es: seq<Entry>, s: nat, from: int, skip: Option<UserKey>, i: nat)
    requires IsFirst(es, s, from, skip, Some(i))
    ensures Current(es, s, i)
  {
  }

  lemma NothingAtEnd(es: seq<Entry>, s: nat, skip: Option<UserKey>)
    ensures IsFirst(es, s, |es|, skip, None)
  {
  }

  // ------------------------------------------------------------------ the plain cursor

  /** The places of the current entries among the first `n`, in order. */
  ghost function Places(es: seq<Entry>, s: nat, n: nat): (r: seq<nat>)
    requires n <= |es|
    ensures forall i :: 0 <= i < |r| ==> r[i] < n && Current(es, s, r[i])
    ensures forall i, j :: 0 <= i < j < |r| ==> r[i] < r[j]
    ensures forall c: nat :: c < n && Current(es, s, c) ==> c in r
  {
    if n == 0 then []
    else if Current(es, s, n - 1) then Places(es, s, n - 1) + [n - 1]
    else Places(es, s, n - 1)
  }

  /** The map that a reader at `s` sees, as a list sorted by key. */
  ghost function VisibleMap(es: seq<Entry>, s: nat): (r: seq<(UserKey, Bytes)>)
    ensures |r| == |Places(es, s, |es|)|
  {
    var places := Places(es, s, |es|);
    seq(|places|, i requires 0 <= i < |places| => (es[places[i]].key.user, es[places[i]].value))
  }

  /** The list is sorted, and it is what lookups show. */
  lemma VisibleMapIsView(es: seq<Entry>, s: nat, k: UserKey, v: Bytes)
    requires Sorted(es) && Unambiguous(ToSet(es))
    ensures forall i, j :: 0 <= i < j < |VisibleMap(es, s)| ==> VisibleMap(es, s)[i].0 < VisibleMap(es, s)[j].0
    ensures (k, v) in VisibleMap(es, s) <==> View(ToSet(es), k, s) == Some(v)
  {
    SortedUsers(es);
    var places, list := Places(es, s, |es|), VisibleMap(es, s);
    forall i, j | 0 <= i < j < |list| ensures list[i].0 < list[j].0 {
      LaterUser(es, s, places[i], places[j]);
    }
    if (k, v) in list {
      var i :| 0 <= i < |list| && list[i] == (k, v);
      CurrentIsView(es, s, places[i]);
    }
    if View(ToSet(es), k, s) == Some(v) {
      var c := ViewIsCurrent(es, s, k, v);
      var i :| 0 <= i < |places| && places[i] == c;
      assert list[i] == (k, v);
    }
  }

  lemma CurrentIsView(es: seq<Entry>, s: nat, c: nat)
    requires Sorted(es) && Unambiguous(ToSet(es)) && Current(es, s, c)
    ensures View(ToSet(es), es[c].key.user, s) == Some(es[c].value)
  {
    assert es[c] in ToSet(es);
    forall x | x in ToSet(es) && x.key.user == es[c].key.user && x.key.sequence <= s
      ensures x.key.sequence <= es[c].key.sequence
    {
      var j :| 0 <= j < |es| && es[j] == x;
      assert c < j ==> Less(es[c].key, es[j].key);
    }
    ViewOf(ToSet(es), es[c].key.user, s, es[c]);
  }

  lemma ViewIsCurrent(es: seq<Entry>, s: nat, k: UserKey, v: Bytes) returns (c: nat)
    requires Sorted(es) && Unambiguous(ToSet(es)) && View(ToSet(es), k, s) == Some(v)
    ensures Current(es, s, c) && es[c].key.user == k && es[c].value == v
  {
    var e := Newest(ToSet(es), k, s);
    c :| 0 <= c < |es| && es[c] == e;
    forall j | 0 <= j < c && Visible(es[j], s) ensures es[j].key.user != k {
      assert Less(es[j].key, es[c].key);
      assert es[j] in ToSet(es);
    }
  }

  datatype Move = First | Last | To(target: UserKey) | Forth | Back

  /** The first place from `i` on whose key is at or after `t`. */
  function Sought(list: seq<(UserKey, Bytes)>, t: UserKey, i: nat): (p: Option<nat>)
    requires i <= |list|
    ensures p.None? ==> forall j :: i <= j < |list| ==> list[j].0 < t
    ensures p.Some? ==> i <= p.value < |list| && list[p.value].0 >= t && forall j :: i <= j < p.value ==> list[j].0 < t
    decreases |list| - i
  {
    if i == |list| then None else if list[i].0 >= t then Some(i) else Sought(list, t, i + 1)
  }

  /** A plain cursor over a sorted list: a place in it, or none. */
  function Moved(list: seq<(UserKey, Bytes)>, p: Option<nat>, move: Move): (r: Option<nat>)
    ensures r.Some? ==> r.value < |list|
  {
    match move
    case First => if list == [] then None else Some(0)
    case Last => if list == [] then None else Some(|list| - 1)
    case Forth => if p.None? || p.value + 1 >= |list| then None else Some(p.value + 1)
    case Back => if p.None? || p.value == 0 || p.value > |list| then None else Some(p.value - 1)
    case To(t) => Sought(list, t, 0)
  }

  /** Where the plain cursor is after the moves. */
  function PlaceAfter(list: seq<(UserKey, Bytes)>, moves: seq<Move>): (r: Option<nat>)
    ensures r.Some? ==> r.value < |list|
  {
    if moves == [] then None else Moved(list, PlaceAfter(list, moves[..|moves| - 1]), moves[|moves| - 1])
  }

  /** What the plain cursor shows after the moves. */
  function ShownAfter(list: seq<(UserKey, Bytes)>, moves: seq<Move>): Option<(UserKey, Bytes)> {
    var p := PlaceAfter(list, moves);
    if p.None? then None else Some(list[p.value])
  }

  ghost function EntryAt(places: seq<nat>, p: Option<nat>): Option<nat>
    requires p.Some? ==> p.value < |places|
  {
    if p.None? then None else Some(places[p.value])
  }

  lemma PlaceOf(es: seq<Entry>, s: nat, c: nat) returns (i: nat)
    requires Current(es, s, c)
    ensures var places := Places(es, s, |es|); i < |places| && places[i] == c
  {
    var places := Places(es, s, |es|);
    assert c in places;
    i :| 0 <= i < |places| && places[i] == c;
  }

  lemma PlacesOrder(es: seq<Entry>, s: nat, i: nat, j: nat)
    requires var n := |Places(es, s, |es|)|; i < n && j < n
    ensures var places := Places(es, s, |es|); i < j <==> places[i] < places[j]
  {
  }

  lemma FirstIsPlace(es: seq<Entry>, s: nat, from: nat, p: nat, r: Option<nat>)
    requires var places := Places(es, s, |es|);
             && p <= |places| && IsFirst(es, s, from, None, r)
             && (forall i :: 0 <= i < p ==> places[i] < from) && (p < |places| ==> from <= places[p])
    ensures var places := Places(es, s, |es|);
            r == if p < |places| then Some(places[p]) else None
  {
    var places := Places(es, s, |es|);
    if p < |places| {
      assert Wanted(es, s, from, None, places[p]);
    }
    if r.Some? {
      var i := PlaceOf(es, s, r.value);
      if p < |places| {
        PlacesOrder(es, s, p, i);
      }
    }
  }

  lemma LastIsPlace(es: seq<Entry>, s: nat, to: int, p: nat, r: Option<nat>)
    requires var places := Places(es, s, |es|);
             && p <= |places| && IsLast(es, s, to, r)
             && (p > 0 ==> places[p - 1] <= to) && (forall i :: p <= i < |places| ==> places[i] > to)
    ensures var places := Places(es, s, |es|);
            r == if p > 0 then Some(places[p - 1]) else None
  {
    var places := Places(es, s, |es|);
    if p > 0 {
      assert Current(es, s, places[p - 1]);
    }
    if r.Some? {
      var i := PlaceOf(es, s, r.value);
      assert i < p;
      PlacesOrder(es, s, i, p - 1);
    }
  }

  lemma SoughtIsPlace(es: seq<Entry>, s: nat, t: UserKey, r: Option<nat>)
    requires UserSorted(es) && IsSought(es, s, t, r)
    ensures var p := Sought(VisibleMap(es, s), t, 0);
            r == EntryAt(Places(es, s, |es|), p)
  {
    var places, list := Places(es, s, |es|), VisibleMap(es, s);
    var p := Sought(list, t, 0);
    if p.Some? {
      assert Current(es, s, places[p.value]) && es[places[p.value]].key.user >= t;
      assert r.Some?;
      var i := PlaceOf(es, s, r.value);
      assert list[i].0 >= t;
      PlacesOrder(es, s, p.value, i);
    } else {
      forall c | Current(es, s, c) ensures es[c].key.user < t {
        var i := PlaceOf(es, s, c);
        assert list[i].0 == es[c].key.user;
      }
    }
  }

  lemma FirstMove(es: seq<Entry>, s: nat, p: Option<nat>, r: Option<nat>)
    requires IsFirst(es, s, 0, None, r)
    ensures r == EntryAt(Places(es, s, |es|), Moved(VisibleMap(es, s), p, First))
  {
    hide IsFirst, VisibleMap;
    FirstIsPlace(es, s, 0, 0, r);
  }

  lemma LastMove(es: seq<Entry>, s: nat, p: Option<nat>, r: Option<nat>)
    requires IsLast(es, s, |es| - 1, r)
    ensures r == EntryAt(Places(es, s, |es|), Moved(VisibleMap(es, s), p, Last))
  {
    hide IsLast, VisibleMap;
    LastIsPlace(es, s, |es| - 1, |Places(es, s, |es|)|, r);
  }

  lemma ForthMove(es: seq<Entry>, s: nat, p: nat, r: Option<nat>)
    requires var places := Places(es, s, |es|); p < |places| && IsFirst(es, s, places[p] + 1, None, r)
    ensures r == EntryAt(Places(es, s, |es|), Moved(VisibleMap(es, s), Some(p), Forth))
  {
    hide IsFirst, VisibleMap;
    FirstIsPlace(es, s, Places(es, s, |es|)[p] + 1, p + 1, r);
  }

  lemma BackMove(es: seq<Entry>, s: nat, p: nat, r: Option<nat>)
    requires p < |Places(es, s, |es|)|
    requires var c: int := Places(es, s, |es|)[p]; IsLast(es, s, c - 1, r)
    ensures r == EntryAt(Places(es, s, |es|), Moved(VisibleMap(es, s), Some(p), Back))
  {
    hide IsLast, VisibleMap;
    var c: int := Places(es, s, |es|)[p];
    LastIsPlace(es, s, c - 1, p, r);
  }

  /** The iterator stands where the plain cursor does. */
  ghost predicate Agrees(it: DbIter, c: Option<nat>, p: Option<nat>)
    reads it
  {
    && it.Stands(c)
    && (p.Some? ==> p.value < |Places(it.entries, it.sequence, |it.entries|)|)
    && c == EntryAt(Places(it.entries, it.sequence, |it.entries|), p)
  }

  /** One move of the iterator is one move of the plain cursor. */
  method Apply(it: DbIter, move: Move, ghost c: Option<nat>, ghost p: Option<nat>) returns (ghost r: Option<nat>)
    requires Agrees(it, c, p)
    modifies it
    ensures Agrees(it, r, Moved(VisibleMap(it.entries, it.sequence), p, move))
  {
    hide IsFirst, IsLast, IsSought, UserSorted, Current, Places, VisibleMap, DbIter.On;
    ghost var es, s := it.entries, it.sequence;
    r := c;
    match move {
      case First =>
        r := it.SeekToFirst();
        FirstMove(es, s, p, r);
      case Last =>
        r := it.SeekToLast();
        LastMove(es, s, p, r);
      case To(t) =>
        r := it.Seek(t);
        SoughtIsPlace(es, s, t, r);
      case Forth =>
        if it.valid {
          r := it.Next(c.value);
          ForthMove(es, s, p.value, r);
        }
      case Back =>
        if it.valid {
          r := it.Prev(c.value);
          BackMove(es, s, p.value, r);
        }
    }
  }

  lemma ListAt(es: seq<Entry>, s: nat, i: nat)
    requires i < |Places(es, s, |es|)|
    ensures var c := Places(es, s, |es|)[i]; VisibleMap(es, s)[i] == (es[c].key.user, es[c].value)
  {
  }

  /** Whatever the moves, the iterator shows what a plain cursor over the visible map shows.  A move to the
      next or previous entry is made only when the iterator is valid. */
  method Drive(entries: seq<Entry>, sequence: nat, moves: seq<Move>) returns (shown: seq<Option<(UserKey, Bytes)>>)
    requires Sorted(entries)
    ensures |shown| == |moves|
    ensures forall i :: 0 <= i < |moves| ==> shown[i] == ShownAfter(VisibleMap(entries, sequence), moves[..i + 1])
  {
    hide Sorted, Places, Moved, Current, DbIter.On, UserSorted, VisibleMap;
    var it := new DbIter(entries, sequence);
    shown := [];
    ghost var list := VisibleMap(entries, sequence);
    ghost var c: Option<nat> := None;
    for n := 0 to |moves|
      invariant fresh(it) && it.entries == entries && it.sequence == sequence
      invariant Agrees(it, c, PlaceAfter(list, moves[..n]))
      invariant |shown| == n
      invariant forall i :: 0 <= i < n ==> shown[i] == ShownAfter(list, moves[..i + 1])
    {
      assert moves[..n + 1][..n] == moves[..n];
      ghost var p := PlaceAfter(list, moves[..n]);
      c := Apply(it, moves[n], c, p);
      if it.valid {
        var k := it.Key(c.value);
        var v := it.Value(c.value);
        ListAt(entries, sequence, PlaceAfter(list, moves[..n + 1]).value);
        shown := shown + [Some((k, v))];
      } else {
        shown := shown + [None];
      }
    }
  }
}
