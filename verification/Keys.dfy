/** Internal keys and their order (db/dbformat.h, db/dbformat.cc).

    The user comparator may be any total order on byte strings.  There are countably many byte
    strings, so every such order embeds in the rational numbers: a user key is represented here
    by its place in that order, a `real`.  Byte strings that the comparator calls equal are one key.
 */
module Keys {

  type UserKey = real

  type Bytes = seq<bv8>

  /** kTypeDeletion = 0 and kTypeValue = 1. */
  datatype Kind = Deletion | Value

  /** The largest sequence number that fits beside an eight-bit type: 2^56 - 1. */
  const MAX_SEQUENCE: nat := 0xFF_FFFF_FFFF_FFFF

  const NUM_LEVELS: nat := 7
  const MAX_MEM_COMPACT_LEVEL: nat := 2

  datatype InternalKey = InternalKey(user: UserKey, sequence: nat, kind: Kind)

  datatype Entry = Entry(key: InternalKey, value: Bytes)

  datatype Option<+T> = None | Some(value: T)

  /** The eight trailing bytes of an encoded internal key, as a number. */
  function Tag(k: InternalKey): nat {
    k.sequence * 256 + (if k.kind.Value? then 1 else 0)
  }

  /** Increasing user key, then decreasing tag. */
  predicate Less(a: InternalKey, b: InternalKey) {
    a.user < b.user || (a.user == b.user && Tag(a) > Tag(b))
  }

  predicate AtMost(a: InternalKey, b: InternalKey) {
    Less(a, b) || a == b
  }

  /** InternalKeyComparator::Compare as a three-way result. */
  function Compare(a: InternalKey, b: InternalKey): (r: int)
    ensures r < 0 <==> Less(a, b)
    ensures r == 0 <==> a == b
    ensures r > 0 <==> Less(b, a)
  {
    if a.user < b.user then -1
    else if a.user > b.user then 1
    else if Tag(a) > Tag(b) then -1
    else if Tag(a) < Tag(b) then 1
    else 0
  }

  /** The key a reader seeks to: it sorts before every entry for `user` with sequence at most `s`
      and after every entry for `user` with a larger sequence (kValueTypeForSeek is kTypeValue). */
  function SeekKey(user: UserKey, s: nat): InternalKey {
    InternalKey(user, s, Value)
  }

  lemma SeekKeySplits(user: UserKey, s: nat, k: InternalKey)
    requires k.user == user
    ensures Less(k, SeekKey(user, s)) <==> k.sequence > s
  {
  }

  ghost predicate Sorted(es: seq<Entry>) {
    forall i, j :: 0 <= i < j < |es| ==> Less(es[i].key, es[j].key)
  }

  /** Each sequence number was given to one operation, so no two entries for a user key share one. */
  ghost predicate Unambiguous(s: set<Entry>) {
    forall a, b :: a in s && b in s && a.key.user == b.key.user && a.key.sequence == b.key.sequence ==> a == b
  }

  function ToSet<T>(s: seq<T>): set<T> {
    set x | x in s
  }

  // ------------------------------------------------------------------ what a reader should see

  /** Entry `e` is the newest entry for `k` in `s` that a reader at sequence `at` may see. */
  ghost predicate IsNewest(s: set<Entry>, k: UserKey, at: nat, e: Entry) {
    && e in s && e.key.user == k && e.key.sequence <= at
    && forall x :: x in s && x.key.user == k && x.key.sequence <= at ==> x.key.sequence <= e.key.sequence
  }

  ghost predicate AnyVisible(s: set<Entry>, k: UserKey, at: nat) {
    exists e :: e in s && e.key.user == k && e.key.sequence <= at
  }

  function Shown(e: Entry): Option<Bytes> {
    if e.key.kind.Value? then Some(e.value) else None
  }

  lemma {:induction false} NewestExists(s: set<Entry>, k: UserKey, at: nat) returns (e: Entry)
    requires AnyVisible(s, k, at)
    ensures IsNewest(s, k, at, e)
    decreases at
  {
    if x :| x in s && x.key.user == k && x.key.sequence == at {
      e := x;
    } else {
      e := NewestExists(s, k, at - 1);
    }
  }

  ghost function Newest(s: set<Entry>, k: UserKey, at: nat): (e: Entry)
    requires AnyVisible(s, k, at)
    ensures IsNewest(s, k, at, e)
  {
    assert exists e :: IsNewest(s, k, at, e) by {
      var e := NewestExists(s, k, at);
    }
    var e :| IsNewest(s, k, at, e);
    e
  }

  /** The value of `k` at sequence `at`: that of the newest visible entry, nothing if there is
      none or if it is a deletion. */
  ghost function View(s: set<Entry>, k: UserKey, at: nat): Option<Bytes> {
    if AnyVisible(s, k, at) then Shown(Newest(s, k, at)) else None
  }

  lemma ViewOf(s: set<Entry>, k: UserKey, at: nat, e: Entry)
    requires Unambiguous(s)
    requires IsNewest(s, k, at, e)
    ensures View(s, k, at) == Shown(e)
  {
    var x := Newest(s, k, at);
    assert x.key.sequence == e.key.sequence;
  }

  lemma ViewOfNothing(s: set<Entry>, k: UserKey, at: nat)
    requires !AnyVisible(s, k, at)
    ensures View(s, k, at) == None
  {
  }
}
