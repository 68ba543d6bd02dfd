/** The list of live snapshots: a circular doubly linked list with a dummy head (db/snapshot.h). */
module Snapshots {

  class Snapshot {
    const number: nat
    var prev: Snapshot?
    var next: Snapshot?

    constructor (number: nat)
      ensures this.number == number
    {
      this.number := number;
      prev, next := null, null;
    }
  }

  /** The place after `i` in a ring of `n`. */
  function After(i: nat, n: nat): nat {
    if i + 1 < n then i + 1 else 0
  }

  ghost predicate Linked(ring: seq<Snapshot>, i: nat)
    requires i < |ring|
    reads ring
  {
    ring[i].next == ring[After(i, |ring|)] && ring[After(i, |ring|)].prev == ring[i]
  }

  ghost predicate Distinct(ring: seq<Snapshot>) {
    forall i, j :: 0 <= i < j < |ring| ==> ring[i] != ring[j]
  }

  ghost predicate Ordered(ring: seq<Snapshot>) {
    forall i, j :: 1 <= i < j < |ring| ==> ring[i].number <= ring[j].number
  }

  /** The ring without place `k`. */
  function Without(ring: seq<Snapshot>, k: nat): seq<Snapshot>
    requires k < |ring|
  {
    ring[..k] + ring[k + 1..]
  }

  class SnapshotList {
    const head: Snapshot
    ghost var ring: seq<Snapshot>

    ghost predicate Valid()
      reads this, ring
    {
      && ring != [] && ring[0] == head && Distinct(ring) && Ordered(ring)
      && forall i :: 0 <= i < |ring| ==> Linked(ring, i)
    }

    /** The sequence numbers of the live snapshots, as they were taken. */
    ghost function Numbers(): seq<nat>
      reads this
      requires ring != []
    {
      seq(|ring| - 1, i requires 0 <= i < |ring| - 1 reads this => ring[i + 1].number)
    }

    constructor ()
      ensures Valid() && Numbers() == [] && fresh(ring)
    {
      var h := new Snapshot(0);
      head := h;
      ring := [h];
      new;
      head.prev := head;
      head.next := head;
    }

    predicate Empty()
      reads this, ring, head
      requires Valid()
      ensures Empty() <==> Numbers() == []
    {
      assert Linked(ring, 0);
      head.next == head
    }

    /** The oldest snapshot has the smallest number. */
    method Oldest() returns (s: Snapshot)
      requires Valid() && !Empty()
      ensures s.number == Numbers()[0] && forall i :: 0 <= i < |Numbers()| ==> s.number <= Numbers()[i]
    {
      assert Linked(ring, 0);
      s := head.next;
      assert s == ring[1];
    }

    method Newest() returns (s: Snapshot)
      requires Valid() && !Empty()
      ensures s.number == Numbers()[|Numbers()| - 1] && forall i :: 0 <= i < |Numbers()| ==> Numbers()[i] <= s.number
    {
      assert Linked(ring, |ring| - 1);
      s := head.prev;
      assert s == ring[|ring| - 1];
    }

    /** A new snapshot goes to the end. */
    method New(number: nat) returns (s: Snapshot)
      requires Valid() && forall i :: 0 <= i < |Numbers()| ==> Numbers()[i] <= number
      modifies this, ring
      ensures Valid() && fresh(s) && ring == old(ring) + [s]
      ensures Numbers() == old(Numbers()) + [number]
    {
      forall i | 1 <= i < |ring| ensures ring[i].number <= number {
        assert Numbers()[i - 1] == ring[i].number;
      }
      s := new Snapshot(number);
      ghost var was, n := ring, |ring|;
      assert Linked(was, n - 1);
      s.next := head;
      s.prev := head.prev;
      s.prev.next := s;
      s.next.prev := s;
      ring := was + [s];
      forall i | 0 <= i < n + 1 ensures Linked(ring, i) {
        assert i < n ==> old(Linked(was, i));
      }
      NewOrdered(was, s);
      assert Numbers() == old(Numbers()) + [number];
    }

    /** The snapshot leaves the list; the others stay in order. */
    method Delete(s: Snapshot, ghost k: nat)
      requires Valid() && 0 < k < |ring| && ring[k] == s
      modifies this, ring
      ensures Valid() && ring == Without(old(ring), k)
      ensures Numbers() == old(Numbers())[..k - 1] + old(Numbers())[k..]
    {
      ghost var was, n := ring, |ring|;
      assert Linked(was, k - 1) && Linked(was, k);
      ghost var p, q := was[k - 1], was[After(k, n)];
      s.prev.next := s.next;
      s.next.prev := s.prev;
      ring := Without(was, k);
      WithoutOrdered(was, k);
      forall i | 0 <= i < |ring| ensures Linked(ring, i) {
        PlaceAfter(was, k, i);
        ghost var j := if i < k then i else i + 1;
        if j != k - 1 {
          assert old(Linked(was, j));
          Apart(was, j, k - 1);
          Apart(was, After(j, n), After(k, n));
        }
      }
      assert |Numbers()| == n - 2;
    }
  }

  lemma Apart(ring: seq<Snapshot>, i: nat, j: nat)
    requires Distinct(ring) && i < |ring| && j < |ring| && i != j
    ensures ring[i] != ring[j]
  {
  }

  lemma PlaceAfter(ring: seq<Snapshot>, k: nat, i: nat)
    requires 0 < k < |ring| && i < |ring| - 1
    ensures var j := if i < k then i else i + 1;
            && |Without(ring, k)| == |ring| - 1 && Without(ring, k)[i] == ring[j]
            && Without(ring, k)[After(i, |ring| - 1)] == ring[After(if j == k - 1 then k else j, |ring|)]
  {
  }

  lemma WithoutOrdered(ring: seq<Snapshot>, k: nat)
    requires Ordered(ring) && Distinct(ring) && 0 < k < |ring|
    ensures Ordered(Without(ring, k)) && Distinct(Without(ring, k)) && Without(ring, k)[0] == ring[0]
  {
    var left := Without(ring, k);
    forall i, j | 0 <= i < j < |left| ensures left[i] != left[j] && (1 <= i ==> left[i].number <= left[j].number) {
      assert left[i] == ring[if i < k then i else i + 1] && left[j] == ring[if j < k then j else j + 1];
    }
  }

  lemma NewOrdered(ring: seq<Snapshot>, s: Snapshot)
    requires Ordered(ring) && Distinct(ring) && s !in ring
    requires forall i :: 1 <= i < |ring| ==> ring[i].number <= s.number
    ensures Ordered(ring + [s]) && Distinct(ring + [s])
  {
  }
}
