/** Bytes and the numbers they stand for. */
module Octets {

  function Low(n: nat): nat {
    n % 2
  }

  function Half(n: nat): nat {
    n / 2
  }

  function Bit(n: nat, mask: bv8): bv8 {
    if Low(n) == 1 then mask else 0
  }

  function Assembled(n0: nat, n1: nat, n2: nat, n3: nat, n4: nat, n5: nat, n6: nat, n7: nat): bv8 {
    Bit(n0, 1) | Bit(n1, 2) | Bit(n2, 4) | Bit(n3, 8) | Bit(n4, 16) | Bit(n5, 32) | Bit(n6, 64) | Bit(n7, 128)
  }

  /** The byte with value `n`. */
  function Octet(n: nat): bv8 {
    var n1 := Half(n);
    var n2 := Half(n1);
    var n3 := Half(n2);
    var n4 := Half(n3);
    var n5 := Half(n4);
    var n6 := Half(n5);
    Assembled(n, n1, n2, n3, n4, n5, n6, Half(n6))
  }

  function Weight(b: bv8, mask: bv8, w: nat): nat {
    if b & mask == mask then w else 0
  }

  /** The value of a byte. */
  function NumberOf(b: bv8): nat {
    Weight(b, 1, 1) + Weight(b, 2, 2) + Weight(b, 4, 4) + Weight(b, 8, 8)
    + Weight(b, 16, 16) + Weight(b, 32, 32) + Weight(b, 64, 64) + Weight(b, 128, 128)
  }

  lemma LowBit(n: nat)
    ensures Low(n) == 0 || Low(n) == 1
  {
  }

  lemma BitsAssembled(n0: nat, n1: nat, n2: nat, n3: nat, n4: nat, n5: nat, n6: nat, n7: nat)
    ensures var b := Assembled(n0, n1, n2, n3, n4, n5, n6, n7);
            && (b & 1 == 1 <==> Low(n0) == 1) && (b & 2 == 2 <==> Low(n1) == 1) && (b & 4 == 4 <==> Low(n2) == 1)
            && (b & 8 == 8 <==> Low(n3) == 1) && (b & 16 == 16 <==> Low(n4) == 1) && (b & 32 == 32 <==> Low(n5) == 1)
            && (b & 64 == 64 <==> Low(n6) == 1) && (b & 128 == 128 <==> Low(n7) == 1)
  {
    hide Low;
  }

  lemma Weighs(b: bv8, mask: bv8, w: nat, n: nat)
    requires b & mask == mask <==> Low(n) == 1
    ensures Weight(b, mask, w) == if Low(n) == 1 then w else 0
  {
  }

  lemma ValueAssembled(n0: nat, n1: nat, n2: nat, n3: nat, n4: nat, n5: nat, n6: nat, n7: nat)
    ensures NumberOf(Assembled(n0, n1, n2, n3, n4, n5, n6, n7)) ==
            Low(n0) + 2 * Low(n1) + 4 * Low(n2) + 8 * Low(n3) + 16 * Low(n4) + 32 * Low(n5) + 64 * Low(n6)
            + 128 * Low(n7)
  {
    var b := Assembled(n0, n1, n2, n3, n4, n5, n6, n7);
    BitsAssembled(n0, n1, n2, n3, n4, n5, n6, n7);
    LowBit(n0);
    LowBit(n1);
    LowBit(n2);
    LowBit(n3);
    LowBit(n4);
    LowBit(n5);
    LowBit(n6);
    LowBit(n7);
    hide Low, Assembled, Weight;
    Weighs(b, 1, 1, n0);
    Weighs(b, 2, 2, n1);
    Weighs(b, 4, 4, n2);
    Weighs(b, 8, 8, n3);
    Weighs(b, 16, 16, n4);
    Weighs(b, 32, 32, n5);
    Weighs(b, 64, 64, n6);
    Weighs(b, 128, 128, n7);
  }

  lemma Halve(n: nat)
    ensures n == 2 * Half(n) + Low(n)
  {
  }

  lemma OctetRoundTrip(n: nat)
    requires n < 256
    ensures NumberOf(Octet(n)) == n
  {
    hide Low, Half, Assembled, NumberOf;
    var n1 := Half(n);
    var n2 := Half(n1);
    var n3 := Half(n2);
    var n4 := Half(n3);
    var n5 := Half(n4);
    var n6 := Half(n5);
    var n7 := Half(n6);
    ValueAssembled(n, n1, n2, n3, n4, n5, n6, n7);
    Halve(n);
    Halve(n1);
    Halve(n2);
    Halve(n3);
    Halve(n4);
    Halve(n5);
    Halve(n6);
    Halve(n7);
  }
}
