/**
  `net.IPNet.Contains`, the loop test of the CIDR enumeration. It is a bytewise test under the mask, except
  that an IPv6 address that is an IPv4-mapped one (section 2.5.5.2 of RFC 4291) is cut down to its last four
  bytes first, and addresses of different lengths do not match.
*/
module IpNet {
  import opened Addresses
  import opened Arithmetic

  const PREFIX: Address := [0, 0, 0, 0, 0, 0, 0, 0, 0, 0, 255, 255]

  predicate IsMapped(ip: Address) {
    |ip| == 16 && ip[..12] == PREFIX
  }

  /** The four bytes of an IPv4-mapped address; any other address as it is. */
  function Short(ip: Address): Address {
    if IsMapped(ip) then ip[12..] else ip
  }

  predicate Contains(net: Address, mask: seq<byte>, ip: Address)
    requires |mask| == |net|
  {
    var m := if IsMapped(net) then mask[12..] else mask;
    SameUnderMask(Short(net), m, Short(ip))
  }

  // ---- The mapped addresses among all ----

  const FIRST: Address := PREFIX + [0, 0, 0, 0]
  const LAST: Address := PREFIX + [255, 255, 255, 255]

  /** The value of ::ffff:0:0. */
  const MAPPED: nat := 65535 * 0x1_0000_0000

  lemma {:induction false} ZeroValue(s: Address)
    requires forall i :: 0 <= i < |s| ==> s[i] == 0
    ensures Value(s) == 0
  {
    if s != [] {
      ZeroValue(s[..|s| - 1]);
    }
  }

  lemma PrefixValue()
    ensures Value(PREFIX) == 65535
  {
    var zeros := PREFIX[..10];
    ZeroValue(zeros);
    ValueExtend(zeros, 255);
    ValueExtend(zeros + [255], 255);
    assert PREFIX == zeros + [255] + [255];
  }

  lemma Pow2Of32()
    ensures Pow2(32) == 0x1_0000_0000
  {
    assert Pow2(8) == 256;
    Pow2Byte(8);
    Pow2Byte(16);
    Pow2Byte(24);
  }

  /** The mapped addresses are an interval of 2^32 values. */
  lemma {:induction false} MappedIsInterval(ip: Address)
    requires |ip| == 16
    ensures IsMapped(ip) <==> MAPPED <= Value(ip) < MAPPED + 0x1_0000_0000
  {
    var head, tail := ip[..12], ip[12..];
    assert ip == head + tail;
    ValueSplit(head, tail);
    ValueBound(tail);
    Pow2Of32();
    PrefixValue();
    if Value(head) == 65535 {
      ValueInjective(head, PREFIX);
    }
  }

  // ---- Contains against the plain test ----

  lemma {:induction false} FullMaskByte(p: nat, i: nat, x: byte)
    requires p >= 8 * i + 8
    ensures And(x, MaskByte(p, i)) == x
  {
    MaskedByte(x, p, i);
    assert Pow2(0) == 1;
  }

  lemma {:induction false} EmptyMaskByte(p: nat, i: nat)
    requires p <= 8 * i
    ensures MaskByte(p, i) == 0
  {
    assert Pow2(8) == 256;
  }

  /** A network address that is mapped has a prefix of at least 96 bits. */
  lemma {:induction false} MappedNetwork(addr: Address, p: nat)
    requires IsMapped(Masked(addr, CidrMask(p, |addr|)))
    ensures p >= 96
  {
    var net := Masked(addr, CidrMask(p, |addr|));
    assert net[11] == net[..12][11] == 255;
    assert And(addr[11], MaskByte(p, 11)) == 255;
  }

  /** With a prefix of at least 96 bits the first twelve bytes of the two addresses agree. */
  lemma {:induction false} LongPrefix(net: Address, p: nat, ip: Address)
    requires |net| == 16 && p >= 96 && SameUnderMask(net, CidrMask(p, 16), ip)
    ensures ip[..12] == net[..12]
  {
    forall i | 0 <= i < 12
      ensures ip[i] == net[i]
    {
      FullMaskByte(p, i, ip[i]);
      FullMaskByte(p, i, net[i]);
    }
  }

  /** With a prefix of at most 96 bits all mapped addresses pass the plain test if one does. */
  lemma {:induction false} ShortPrefix(net: Address, p: nat, ip: Address, other: Address)
    requires |net| == 16 && p <= 96 && SameUnderMask(net, CidrMask(p, 16), ip)
    requires IsMapped(ip) && IsMapped(other)
    ensures SameUnderMask(net, CidrMask(p, 16), other)
  {
    forall i | 0 <= i < 16
      ensures And(net[i], MaskByte(p, i)) == And(other[i], MaskByte(p, i))
    {
      if i < 12 {
        assert ip[i] == ip[..12][i] == other[..12][i] == other[i];
        assert And(net[i], CidrMask(p, 16)[i]) == And(ip[i], CidrMask(p, 16)[i]);
      } else {
        EmptyMaskByte(p, i);
      }
    }
  }

  /** What the library test comes to: the plain one, with the mapped addresses left out unless the network
      address is one of them. */
  lemma {:induction false} ContainsIff(addr: Address, p: nat, ip: Address)
    requires |ip| == |addr|
    ensures var net, mask := Masked(addr, CidrMask(p, |addr|)), CidrMask(p, |addr|);
      Contains(net, mask, ip) <==> SameUnderMask(net, mask, ip) && (IsMapped(ip) ==> IsMapped(net))
  {
    var net, mask := Masked(addr, CidrMask(p, |addr|)), CidrMask(p, |addr|);
    if IsMapped(net) {
      MappedNetwork(addr, p);
      if IsMapped(ip) {
        BothMapped(net, mask, ip);
      } else if SameUnderMask(net, mask, ip) {
        LongPrefix(net, p, ip);
      }
    }
  }

  lemma {:induction false} BothMapped(net: Address, mask: seq<byte>, ip: Address)
    requires |mask| == 16 && IsMapped(net) && IsMapped(ip)
    ensures Contains(net, mask, ip) <==> SameUnderMask(net, mask, ip)
  {
    assert forall i :: 0 <= i < 12 ==> net[i] == net[..12][i] == ip[..12][i] == ip[i];
    if Contains(net, mask, ip) {
      forall i | 0 <= i < 16
        ensures And(net[i], mask[i]) == And(ip[i], mask[i])
      {
        if i >= 12 {
          assert And(net[12..][i - 12], mask[12..][i - 12]) == And(ip[12..][i - 12], mask[12..][i - 12]);
        }
      }
    }
  }
}
