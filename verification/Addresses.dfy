/**
  An address (Misc/IPv6Addr.cpp) is a number in the lease database, octets in the arithmetic on
  pools, and bits in the splitting of prefixes: the three are the same addresses.
 */
module Addresses {
  import opened Address128
  import opened AddressBits
  import Leases

  /** The octets of a bit string as numbers. */
  function Numbers(s: Octets): (r: seq<Octet>)
    ensures |r| == |s|
  {
    seq(|s|, k requires 0 <= k < |s| => s[k] as int)
  }

  /** The address that the lease database stores for it. */
  function Address(s: Octets): Leases.Ip {
    Val(Numbers(s))
  }

  /** Different octets are different addresses in the database. */
  lemma AddressInjective(a: Octets, b: Octets)
    requires |a| == |b|
    ensures Address(a) == Address(b) <==> a == b
  {
    if Address(a) == Address(b) {
      ValInjective(Numbers(a), Numbers(b));
      forall k | 0 <= k < |a|
        ensures a[k] == b[k]
      {
        assert Numbers(a)[k] == Numbers(b)[k];
        SameOctet(a[k], b[k]);
      }
    }
  }

  lemma SameOctet(x: bv8, y: bv8)
    requires x as int == y as int
    ensures x == y
  {
  }

  lemma Pow256At14()
    ensures Pow256(14) == 0x1_0000_0000_0000_0000_0000_0000_0000
    ensures Pow256(15) == 0x100_0000_0000_0000_0000_0000_0000_0000
  {
    assert Pow256(4) == 0x1_0000_0000;
    assert Pow256(8) == 0x1_0000_0000_0000_0000;
    assert Pow256(11) == 0x1_0000_0000_0000_0000_000000;
  }

  lemma LinkLocalNumber(v: nat, first: int, second: int, rest: nat)
    requires 0 <= first < 256 && 0 <= second < 256 && rest < 0x1_0000_0000_0000_0000_0000_0000_0000
    requires v == 0x100_0000_0000_0000_0000_0000_0000_0000 * first + 0x1_0000_0000_0000_0000_0000_0000_0000 * second + rest
    ensures Leases.LinkLocal(v) <==> first == 0xfe && second == 0x80
  {
    assert v / 0x1_0000_0000_0000_0000_0000_0000_0000 == 256 * first + second;
  }

  /** What the database takes for a link-local address is one whose octets start with fe 80. */
  lemma LinkLocalIff(s: seq<Octet>)
    requires |s| == 16
    ensures Leases.LinkLocal(Val(s)) <==> s[0] == 0xfe && s[1] == 0x80
  {
    var tail := s[1..];
    ValHead(s);
    ValHead(tail);
    ValBound(tail[1..]);
    Pow256At14();
    LinkLocalNumber(Val(s), s[0], s[1], Val(tail[1..]));
  }
}
