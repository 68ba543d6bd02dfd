/** Variable-length integers and length-prefixed byte strings, as the batch and manifest records use them. */
module Coding {
  import opened Keys
  import opened Octets

  datatype Status = Ok | Corruption

  const TWO_32: nat := 0x1_0000_0000
  const TWO_64: nat := 0x1_0000_0000_0000_0000

  // ------------------------------------------------------------------ variable-length integers

  /** Seven bits a byte, low bits first; the top bit says that more follow. */
  function Varint(n: nat): seq<bv8> {
    if n < 128 then [Octet(n)] else [Octet(128 + n % 128)] + Varint(n / 128)
  }

  /** Reads at most `max` bytes. */
  function GetVarint(input: seq<bv8>, max: nat): Option<(nat, seq<bv8>)> {
    if max == 0 || input == [] then None
    else
      var b := NumberOf(input[0]);
      if b < 128 then Some((b, input[1..]))
      else
        match GetVarint(input[1..], max - 1)
        case None => None
        case Some(more) => Some((b - 128 + 128 * more.0, more.1))
  }

  /** Bits above the width of the result are lost. */
  function GetVarint32(input: seq<bv8>): Option<(nat, seq<bv8>)> {
    match GetVarint(input, 5)
    case None => None
    case Some(r) => Some((r.0 % TWO_32, r.1))
  }

  function GetVarint64(input: seq<bv8>): Option<(nat, seq<bv8>)> {
    match GetVarint(input, 10)
    case None => None
    case Some(r) => Some((r.0 % TWO_64, r.1))
  }

  function Pow128(k: nat): nat {
    if k == 0 then 1 else 128 * Pow128(k - 1)
  }

  lemma {:induction false} VarintRoundTrip(n: nat, max: nat, rest: seq<bv8>)
    requires max > 0 && n < Pow128(max)
    ensures GetVarint(Varint(n) + rest, max) == Some((n, rest))
    decreases max
  {
    hide Octet, NumberOf;
    var input := Varint(n) + rest;
    if n < 128 {
      OctetRoundTrip(n);
      assert input[1..] == rest;
    } else {
      OctetRoundTrip(128 + n % 128);
      assert input[1..] == Varint(n / 128) + rest;
      VarintRoundTrip(n / 128, max - 1, rest);
    }
  }

  lemma Varint32RoundTrip(n: nat, rest: seq<bv8>)
    requires n < TWO_32
    ensures GetVarint32(Varint(n) + rest) == Some((n, rest))
  {
    hide Varint, GetVarint;
    assert Pow128(5) == 128 * (128 * (128 * (128 * (128 * Pow128(0)))));
    VarintRoundTrip(n, 5, rest);
  }

  lemma Varint64RoundTrip(n: nat, rest: seq<bv8>)
    requires n < TWO_64
    ensures GetVarint64(Varint(n) + rest) == Some((n, rest))
  {
    hide Varint, GetVarint;
    assert Pow128(5) == 34359738368;
    assert Pow128(10) == 128 * (128 * (128 * (128 * (128 * Pow128(5)))));
    VarintRoundTrip(n, 10, rest);
  }

  lemma {:induction false} GetVarintShrinks(input: seq<bv8>, max: nat)
    ensures var r := GetVarint(input, max); r.Some? ==> |r.value.1| < |input|
  {
    if max > 0 && input != [] {
      GetVarintShrinks(input[1..], max - 1);
    }
  }

  // ------------------------------------------------------------------ byte strings

  function LengthPrefixed(s: seq<bv8>): seq<bv8> {
    Varint(|s|) + s
  }

  function GetLengthPrefixed(input: seq<bv8>): Option<(seq<bv8>, seq<bv8>)> {
    match GetVarint32(input)
    case None => None
    case Some(r) => if |r.1| >= r.0 then Some((r.1[..r.0], r.1[r.0..])) else None
  }

  lemma LengthPrefixedRoundTrip(s: seq<bv8>, rest: seq<bv8>)
    requires |s| < TWO_32
    ensures GetLengthPrefixed(LengthPrefixed(s) + rest) == Some((s, rest))
  {
    hide Varint, GetVarint32;
    assert LengthPrefixed(s) + rest == Varint(|s|) + (s + rest);
    Varint32RoundTrip(|s|, s + rest);
    assert (s + rest)[..|s|] == s && (s + rest)[|s|..] == rest;
  }

  lemma GetLengthPrefixedShrinks(input: seq<bv8>)
    ensures var r := GetLengthPrefixed(input); r.Some? ==> |r.value.1| < |input|
  {
    hide GetVarint;
    GetVarintShrinks(input, 5);
  }

  // ------------------------------------------------------------------ fixed-width integers

  /** The low `k` bytes of `n`, lowest first. */
  function Fixed(n: nat, k: nat): (r: seq<bv8>)
    ensures |r| == k
  {
    if k == 0 then [] else [Octet(n % 256)] + Fixed(n / 256, k - 1)
  }

  function Unfixed(bytes: seq<bv8>): nat {
    if bytes == [] then 0 else NumberOf(bytes[0]) + 256 * Unfixed(bytes[1..])
  }

  function Pow256(k: nat): nat {
    if k == 0 then 1 else 256 * Pow256(k - 1)
  }

  lemma {:induction false} FixedRoundTrip(n: nat, k: nat)
    requires n < Pow256(k)
    ensures Unfixed(Fixed(n, k)) == n
  {
    hide Octet, NumberOf;
    if k > 0 {
      OctetRoundTrip(n % 256);
      assert Fixed(n, k)[1..] == Fixed(n / 256, k - 1);
      FixedRoundTrip(n / 256, k - 1);
    }
  }

  lemma Widths()
    ensures Pow256(4) == TWO_32 && Pow256(8) == TWO_64
  {
    assert Pow256(2) == 65536;
    assert Pow256(4) == 256 * (256 * Pow256(2));
    assert Pow256(6) == 256 * (256 * Pow256(4));
    assert Pow256(8) == 256 * (256 * Pow256(6));
  }
}
