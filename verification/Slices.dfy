/** Parts of parts of sequences. */
module Slices {

  lemma SliceOfSlice<T>(s: seq<T>, o: nat, p: nat, a: nat, b: nat)
    requires o <= p <= |s| && a <= b <= p - o
    ensures s[o..p][a..b] == s[o + a..o + b]
  {
    var x, y := s[o..p][a..b], s[o + a..o + b];
    forall i | 0 <= i < b - a ensures x[i] == y[i] {
      assert s[o..p][a + i] == s[o + a + i];
    }
    assert x == y;
  }

  lemma SliceOfPrefix<T>(s: seq<T>, n: nat, a: nat, b: nat)
    requires a <= b <= n <= |s|
    ensures s[..n][a..b] == s[a..b]
  {
  }

  lemma SliceTail<T>(s: seq<T>, o: nat, p: nat, k: nat)
    requires o <= p <= |s| && k <= p - o
    ensures s[o..p][k..] == s[o + k..p]
  {
  }

  lemma SliceSnoc<T>(s: seq<T>, a: nat, b: nat)
    requires a <= b < |s|
    ensures s[a..b + 1] == s[a..b] + [s[b]]
  {
  }
}
