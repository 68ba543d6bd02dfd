/** The merging iterator, forward from the first entry (table/merger.cc). */
module Mergers {
  import opened Keys
  import opened Files
  import opened Layers
  import opened Invisibility

  /** No key is in two of the files. */
  ghost predicate KeysDistinct(files: seq<File>) {
    forall i, j, x, y :: 0 <= i < j < |files| && x in files[i].entries && y in files[j].entries ==> x.key != y.key
  }

  ghost predicate AllSorted(files: seq<File>) {
    forall i :: 0 <= i < |files| ==> Sorted(files[i].entries)
  }

  /** A place in each file. */
  ghost predicate Places(files: seq<File>, at: seq<nat>) {
    |at| == |files| && forall i :: 0 <= i < |files| ==> at[i] <= |files[i].entries|
  }

  function Remaining(files: seq<File>, at: seq<nat>, n: nat): nat
    requires n <= |files| && |at| == |files| && forall i :: 0 <= i < |files| ==> at[i] <= |files[i].entries|
  {
    if n == 0 then 0 else Remaining(files, at, n - 1) + |files[n - 1].entries| - at[n - 1]
  }

  lemma {:induction false} RemainingShrinks(files: seq<File>, at: seq<nat>, k: nat, n: nat)
    requires Places(files, at) && k < |files| && at[k] < |files[k].entries| && n <= |files|
    ensures Places(files, at[k := at[k] + 1])
    ensures Remaining(files, at[k := at[k] + 1], n) == Remaining(files, at, n) - if k < n then 1 else 0
  {
    if n > 0 {
      RemainingShrinks(files, at, k, n - 1);
    }
  }

  /** FindSmallest: the child with the smallest current key, if any child has one. */
  method FindSmallest(files: seq<File>, at: seq<nat>) returns (r: Option<nat>)
    requires Places(files, at)
    ensures r.None? ==> forall i :: 0 <= i < |files| ==> at[i] == |files[i].entries|
    ensures r.Some? ==> r.value < |files| && at[r.value] < |files[r.value].entries|
    ensures r.Some? ==> forall i :: 0 <= i < |files| && at[i] < |files[i].entries| ==>
              AtMost(files[r.value].entries[at[r.value]].key, files[i].entries[at[i]].key)
  {
    r := None;
    for i := 0 to |files|
      invariant r.None? ==> forall j :: 0 <= j < i ==> at[j] == |files[j].entries|
      invariant r.Some? ==> r.value < |files| && at[r.value] < |files[r.value].entries|
      invariant r.Some? ==> forall j :: 0 <= j < i && at[j] < |files[j].entries| ==>
                  AtMost(files[r.value].entries[at[r.value]].key, files[j].entries[at[j]].key)
    {
      if at[i] < |files[i].entries| {
        if r.None? || Less(files[i].entries[at[i]].key, files[r.value].entries[at[r.value]].key) {
          r := Some(i);
        }
      }
    }
  }

  /** What has been yielded: exactly the entries before the places, in order, and all before what remains. */
  ghost predicate Yielded(files: seq<File>, at: seq<nat>, input: seq<Entry>)
    requires Places(files, at)
  {
    && Sorted(input)
    && (forall e :: e in input ==> exists i, j :: 0 <= i < |files| && 0 <= j < at[i] && files[i].entries[j] == e)
    && (forall i, j :: 0 <= i < |files| && 0 <= j < at[i] ==> files[i].entries[j] in input)
    && (forall e, i, j :: e in input && 0 <= i < |files| && at[i] <= j < |files[i].entries| ==>
          Less(e.key, files[i].entries[j].key))
  }

  lemma NextAhead(files: seq<File>, at: seq<nat>, k: nat, i: nat, j: nat)
    requires Places(files, at) && AllSorted(files) && KeysDistinct(files) && k < |files| && at[k] < |files[k].entries|
    requires forall m :: 0 <= m < |files| && at[m] < |files[m].entries| ==>
               AtMost(files[k].entries[at[k]].key, files[m].entries[at[m]].key)
    requires i < |files| && j < |files[i].entries| && at[i] <= j && !(i == k && j == at[k])
    ensures Less(files[k].entries[at[k]].key, files[i].entries[j].key)
  {
    var x, first := files[k].entries[at[k]], files[i].entries[at[i]];
    assert Sorted(files[i].entries);
    if i != k {
      assert first in files[i].entries && x in files[k].entries;
      assert first.key != x.key;
    }
    assert at[i] < j ==> Less(first.key, files[i].entries[j].key);
  }

  lemma SortedSnoc(input: seq<Entry>, x: Entry)
    requires Sorted(input) && forall e :: e in input ==> Less(e.key, x.key)
    ensures Sorted(input + [x])
  {
    var more := input + [x];
    forall i, j | 0 <= i < j < |more| ensures Less(more[i].key, more[j].key) {
      assert j == |input| ==> more[i] in input;
    }
  }

  lemma YieldNext(files: seq<File>, at: seq<nat>, input: seq<Entry>, k: nat)
    requires Places(files, at) && AllSorted(files) && KeysDistinct(files) && Yielded(files, at, input)
    requires k < |files| && at[k] < |files[k].entries|
    requires forall m :: 0 <= m < |files| && at[m] < |files[m].entries| ==>
               AtMost(files[k].entries[at[k]].key, files[m].entries[at[m]].key)
    ensures Places(files, at[k := at[k] + 1]) && Yielded(files, at[k := at[k] + 1], input + [files[k].entries[at[k]]])
  {
    hide KeysDistinct, AllSorted, Less, AtMost, Sorted;
    var x := files[k].entries[at[k]];
    var at', input' := at[k := at[k] + 1], input + [x];
    SortedSnoc(input, x);
    forall e | e in input' ensures exists i, j :: 0 <= i < |files| && 0 <= j < at'[i] && files[i].entries[j] == e {
      if e in input {
        var i, j :| 0 <= i < |files| && 0 <= j < at[i] && files[i].entries[j] == e;
        assert j < at'[i];
      } else {
        assert files[k].entries[at[k]] == e;
      }
    }
    forall e, i, j | e in input' && 0 <= i < |files| && at'[i] <= j < |files[i].entries|
      ensures Less(e.key, files[i].entries[j].key)
    {
      if e !in input {
        NextAhead(files, at, k, i, j);
      }
    }
  }

  /** All entries of the files, in order. */
  method Merge(files: seq<File>) returns (input: seq<Entry>)
    requires AllSorted(files) && KeysDistinct(files)
    ensures MergedFrom(input, files)
  {
    hide KeysDistinct, AllSorted, Less, AtMost, Sorted;
    var at: seq<nat> := seq(|files|, _ => 0);
    input := [];
    assert Sorted(input) by { NothingSorted(); }
    while true
      invariant Places(files, at) && Yielded(files, at, input)
      decreases Remaining(files, at, |files|)
    {
      var k := FindSmallest(files, at);
      if k.None? {
        break;
      }
      YieldNext(files, at, input, k.value);
      RemainingShrinks(files, at, k.value, |files|);
      input := input + [files[k.value].entries[at[k.value]]];
      at := at[k.value := at[k.value] + 1];
    }
    forall e ensures e in input <==> InSome(files, e) {
      if e in input {
        var i, j :| 0 <= i < |files| && 0 <= j < at[i] && files[i].entries[j] == e;
        assert files[i] in files;
      }
      if InSome(files, e) {
        var f :| f in files && e in f.entries;
        var i :| 0 <= i < |files| && files[i] == f;
        var j :| 0 <= j < |f.entries| && f.entries[j] == e;
        assert files[i].entries[j] in input;
      }
    }
  }

  lemma NothingSorted()
    ensures Sorted([])
  {
  }
}
