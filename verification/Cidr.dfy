/** Enumeration of the addresses of a CIDR block, as `discover.parseCIDR` and `utils.ParseCIDR` do it. */
module Cidr {
  import opened Addresses
  import opened Arithmetic
  import opened IpNet

  /** What `net.ParseCIDR` makes of the text: an address and a prefix length, or an error. */
  datatype Parsed = Malformed | Parsed(addr: Address, prefix: nat)

  datatype Result<+T> = Ok(value: T) | InvalidCidr

  /** The blocks whose enumeration comes to an end; see `LoopStopsIff`. */
  predicate Enumerable(addr: Address, p: nat) {
    p <= 8 * |addr| && (p >= 1 || |addr| == 16)
  }

  function Network(addr: Address, p: nat): (net: Address)
    ensures |net| == |addr|
  {
    Masked(addr, CidrMask(p, |addr|))
  }

  function BlockSize(addr: Address, p: nat): (d: nat)
    requires p <= 8 * |addr|
    ensures d >= 1
  {
    Pow2(8 * |addr| - p)
  }

  /** `ip` belongs to the block: its first `p` bits are those of the network address. */
  predicate InBlock(addr: Address, p: nat, ip: Address) {
    SameUnderMask(Network(addr, p), CidrMask(p, |addr|), ip)
  }

  /** `ip` passes the loop test. */
  predicate Passes(addr: Address, p: nat, ip: Address) {
    Contains(Network(addr, p), CidrMask(p, |addr|), ip)
  }

  /** The address of the block whose host bits are all one. */
  predicate IsBroadcast(addr: Address, p: nat, ip: Address)
    requires p <= 8 * |addr|
  {
    InBlock(addr, p, ip) && Value(ip) + 1 == Value(Network(addr, p)) + BlockSize(addr, p)
  }

  /** A host address: in the block, and neither the network nor the broadcast address when the block is
      large enough to have hosts besides them (section 3.2.1.3 of RFC 1122). */
  predicate IsHost(addr: Address, p: nat, ip: Address)
    requires p <= 8 * |addr|
  {
    && InBlock(addr, p, ip)
    && (BlockSize(addr, p) > 2 ==> ip != Network(addr, p) && !IsBroadcast(addr, p, ip))
  }

  /** The block fits into the address space, and twice over when the prefix is not empty. */
  lemma {:induction false} BlockFits(addr: Address, p: nat)
    requires p <= 8 * |addr|
    ensures Value(Network(addr, p)) + BlockSize(addr, p) <= Pow2(8 * |addr|)
    ensures p >= 1 ==> 2 * BlockSize(addr, p) <= Pow2(8 * |addr|)
  {
    MaskedValue(addr, p);
    ValueBound(addr);
    Pow2Add(p, 8 * |addr| - p);
    RoundDownFits(Value(addr), BlockSize(addr, p), Pow2(p));
    if p >= 1 {
      Pow2Monotonic(8 * |addr| - p, 8 * |addr| - 1);
    }
  }

  // ---- How far the loop gets ----

  /** An IPv6 block with the IPv4-mapped addresses properly inside it. The library test cuts the block off
      where they begin. An IPv4 block, in four bytes or mapped, is none of these. */
  predicate CutOff(addr: Address, p: nat) {
    |addr| == 16 && p < 96 && InBlock(addr, p, FIRST)
  }

  /** How many addresses, from the network address on, pass the test. */
  function Count(addr: Address, p: nat): nat
    requires p <= 8 * |addr|
  {
    if CutOff(addr, p) then CutOffInside(addr, p); MAPPED - Value(Network(addr, p)) else BlockSize(addr, p)
  }

  lemma {:induction false} CutOffInside(addr: Address, p: nat)
    requires p <= 8 * |addr| && CutOff(addr, p)
    ensures Value(FIRST) == MAPPED && IsMapped(FIRST) && !IsMapped(Network(addr, p))
    ensures Value(Network(addr, p)) < MAPPED
    ensures MAPPED + 0xFFFF_FFFF < Value(Network(addr, p)) + BlockSize(addr, p)
    ensures InBlock(addr, p, FIRST)
  {
    var net := Network(addr, p);
    assert FIRST[..12] == PREFIX && LAST[..12] == PREFIX;
    if IsMapped(net) {
      MappedNetwork(addr, p);
    }
    EndsOfMapped();
    BlockIsInterval(addr, p, FIRST);
    if Value(net) == MAPPED {
      MappedIsInterval(net);
    }
    ShortPrefix(net, p, FIRST, LAST);
    BlockIsInterval(addr, p, LAST);
  }

  lemma EndsOfMapped()
    ensures Value(FIRST) == MAPPED && Value(LAST) == MAPPED + 0xFFFF_FFFF
  {
    Pow2Of32();
    PrefixValue();
    ZeroValue([0, 0, 0, 0]);
    ValueSplit(PREFIX, [0, 0, 0, 0]);
    AllOnesValue();
    ValueSplit(PREFIX, [255, 255, 255, 255]);
  }

  lemma AllOnesValue()
    ensures Value([255, 255, 255, 255]) == 0xFFFF_FFFF
  {
    ValueExtend([], 255);
    ValueExtend([255], 255);
    ValueExtend([255, 255], 255);
    ValueExtend([255, 255, 255], 255);
    assert [] + [255] == [255] && [255] + [255] == [255, 255] && [255, 255] + [255] == [255, 255, 255];
    assert [255, 255, 255] + [255] == [255, 255, 255, 255];
  }

  /** Unless the block is cut off, the test is the plain one for all its addresses. */
  lemma {:induction false} PassesIff(addr: Address, p: nat, ip: Address)
    requires p <= 8 * |addr| && |ip| == |addr|
    ensures !CutOff(addr, p) ==> (Passes(addr, p, ip) <==> InBlock(addr, p, ip))
    ensures CutOff(addr, p) ==> (Passes(addr, p, ip) <==> InBlock(addr, p, ip) && !IsMapped(ip))
  {
    var net := Network(addr, p);
    ContainsIff(addr, p, ip);
    if CutOff(addr, p) {
      CutOffInside(addr, p);
    } else if InBlock(addr, p, ip) && IsMapped(ip) {
      assert FIRST[..12] == PREFIX;
      if p < 96 {
        ShortPrefix(net, p, ip, FIRST);
      } else {
        LongPrefix(net, p, ip);
      }
    }
  }

  /** `ip` is the network address after `k` increments, which wrap round at the end of the address space. */
  predicate AtStep(addr: Address, p: nat, k: nat, ip: Address) {
    var v := Value(Network(addr, p)) + k;
    |ip| == |addr| && Value(ip) == if v == Pow2(8 * |addr|) then 0 else v
  }

  /** After `k` increments from the network address the loop test holds exactly when `k` addresses have not
      yet used up those that pass, even if the last increment wraps round to zero. */
  lemma {:induction false} LoopTest(addr: Address, p: nat, k: nat, ip: Address)
    requires Enumerable(addr, p) && k <= Count(addr, p) && AtStep(addr, p, k, ip)
    ensures Passes(addr, p, ip) <==> k < Count(addr, p)
    ensures k < Count(addr, p) ==> Value(ip) == Value(Network(addr, p)) + k
  {
    BlockFits(addr, p);
    BlockIsInterval(addr, p, ip);
    PassesIff(addr, p, ip);
    if CutOff(addr, p) {
      CutOffInside(addr, p);
      MappedIsInterval(ip);
    } else {
      NoPrefixIsCutOff(addr, p);
    }
  }

  lemma {:induction false} NoPrefixIsCutOff(addr: Address, p: nat)
    ensures |addr| == 16 && p == 0 ==> CutOff(addr, p)
  {
    if |addr| == 16 && p == 0 {
      EveryAddressInBlock(addr, FIRST);
    }
  }

  lemma {:induction false} EveryAddressInBlock(addr: Address, ip: Address)
    requires |ip| == |addr|
    ensures InBlock(addr, 0, ip)
  {
    forall i | 0 <= i < |addr|
      ensures CidrMask(0, |addr|)[i] == 0
    {
      EmptyMaskByte(0, i);
    }
  }

  lemma {:induction false} NextStep(addr: Address, p: nat, k: nat, ip: Address)
    requires Enumerable(addr, p) && k <= Count(addr, p) && AtStep(addr, p, k, ip) && Passes(addr, p, ip)
    ensures k < Count(addr, p) && Value(ip) == Value(Network(addr, p)) + k
    ensures AtStep(addr, p, k + 1, Successor(ip))
  {
    LoopTest(addr, p, k, ip);
    SuccessorWraps(ip);
  }

  lemma {:induction false} FirstStep(addr: Address, p: nat)
    ensures AtStep(addr, p, 0, Network(addr, p))
  {
    ValueBound(Network(addr, p));
  }

  // ---- The enumeration ----

  /** The address under the mask, in an array that the loop may change. */
  method MaskIp(addr: Address, p: nat) returns (ip: array<byte>)
    ensures fresh(ip) && ip[..] == Network(addr, p)
  {
    var mask := CidrMask(p, |addr|);
    ip := new byte[|addr|];
    for i := 0 to |addr|
      invariant ip[..i] == Masked(addr, mask)[..i]
    {
      ip[i] := And(addr[i], mask[i]);
    }
  }

  /** A copy in an array of its own. */
  method Copy(ip: array<byte>) returns (n: array<byte>)
    ensures fresh(n) && n[..] == ip[..]
  {
    n := new byte[ip.Length];
    for i := 0 to ip.Length
      invariant n[..i] == ip[..i]
    {
      n[i] := ip[i];
    }
  }

  /** Arrays of `n` bytes, no two of them the same, holding consecutive values from `base` on. */
  ghost predicate Listed(ips: seq<array<byte>>, n: nat, base: nat)
    reads ips
  {
    && (forall k :: 0 <= k < |ips| ==> ips[k].Length == n && Value(ips[k][..]) == base + k)
    && (forall j, k :: 0 <= j < k < |ips| ==> ips[j] != ips[k])
  }

  /** One round of the loop: a copy of the address goes into the list, then the address is incremented. */
  method Record(ips: seq<array<byte>>, ip: array<byte>, ghost base: nat) returns (more: seq<array<byte>>)
    requires Listed(ips, ip.Length, base) && ip !in ips
    requires Value(ip[..]) == base + |ips|
    modifies ip
    ensures |more| == |ips| + 1 && more == ips + [more[|ips|]] && fresh(more[|ips|]) && ip !in more
    ensures Listed(more, ip.Length, base)
    ensures ip[..] == Successor(old(ip[..]))
  {
    var n := Copy(ip);
    more := ips + [n];
    IncIP(ip);
  }

  /** Between two rounds: as many addresses are listed as increments were made, and `ip` is not one of the
      listed arrays. */
  ghost predicate BetweenRounds(addr: Address, p: nat, ips: seq<array<byte>>, ip: array<byte>)
    requires p <= 8 * |addr|
    reads ips, ip
  {
    && |ips| <= Count(addr, p) && AtStep(addr, p, |ips|, ip[..])
    && Listed(ips, |addr|, Value(Network(addr, p))) && ip !in ips
  }

  /** A round keeps that. */
  method Round(addr: Address, p: nat, ips: seq<array<byte>>, ip: array<byte>) returns (more: seq<array<byte>>)
    requires Enumerable(addr, p) && BetweenRounds(addr, p, ips, ip) && Passes(addr, p, ip[..])
    modifies ip
    ensures |more| == |ips| + 1 && more == ips + [more[|ips|]] && fresh(more[|ips|])
    ensures BetweenRounds(addr, p, more, ip)
  {
    NextStep(addr, p, |ips|, ip[..]);
    more := Record(ips, ip, Value(Network(addr, p)));
  }

  /** The loop of `parseCIDR`: every address of the block, the last increment wrapping round if it must, or
      those below the mapped ones if the block is cut off there. */
  method Enumerate(addr: Address, p: nat) returns (ips: seq<array<byte>>)
    requires Enumerable(addr, p)
    ensures |ips| == Count(addr, p)
    ensures fresh(ips)
    ensures Listed(ips, |addr|, Value(Network(addr, p)))
  {
    ips := [];
    var ip := MaskIp(addr, p);
    assert BetweenRounds(addr, p, [], ip) by {
      FirstStep(addr, p);
    }
    while Passes(addr, p, ip[..])
      invariant fresh(ip) && BetweenRounds(addr, p, ips, ip)
      invariant fresh(ips)
      decreases Count(addr, p) - |ips|
    {
      ips := Round(addr, p, ips, ip);
    }
    LoopTest(addr, p, |ips|, ip[..]);
  }

  /** `parseCIDR`. Every listed address is a copy in an array of its own, so that the increments that follow
      leave it alone. */
  method ParseCIDR(text: Parsed) returns (r: Result<seq<array<byte>>>)
    requires text.Parsed? ==> Enumerable(text.addr, text.prefix)
    ensures text.Malformed? <==> r.InvalidCidr?
    ensures r.Ok? ==>
      var ips, n := r.value, Count(text.addr, text.prefix);
      var skip := if n > 2 then 1 else 0;
      && |ips| == n - 2 * skip && fresh(ips)
      && Listed(ips, |text.addr|, Value(Network(text.addr, text.prefix)) + skip)
  {
    if text.Malformed? {
      return InvalidCidr;
    }
    var ips := Enumerate(text.addr, text.prefix);
    if |ips| > 2 {
      return Ok(ips[1..|ips| - 1]);
    }
    return Ok(ips);
  }

  // ---- What the list is ----

  /** The list as values: the addresses that pass are consecutive, and trimmed at both ends if there are more
      than two. */
  ghost predicate ListsBlock(hosts: seq<Address>, addr: Address, p: nat)
    requires p <= 8 * |addr|
  {
    var n := Count(addr, p);
    var skip := if n > 2 then 1 else 0;
    && |hosts| == n - 2 * skip
    && forall k :: 0 <= k < |hosts| ==> |hosts[k]| == |addr| && Value(hosts[k]) == Value(Network(addr, p)) + k + skip
  }

  /** A block that is not cut off, in numbers: with h host bits the list is the 2^h values from the address
      rounded down to a multiple of 2^h on, without the first and the last of them if h is at least 2. */
  lemma {:induction false} ListInNumbers(hosts: seq<Address>, addr: Address, p: nat)
    requires p <= 8 * |addr| && ListsBlock(hosts, addr, p) && !CutOff(addr, p)
    ensures var h := 8 * |addr| - p;
      var base := Value(addr) - Value(addr) % Pow2(h);
      && |hosts| == (if h >= 2 then Pow2(h) - 2 else Pow2(h))
      && forall k :: 0 <= k < |hosts| ==>
           |hosts[k]| == |addr| && Value(hosts[k]) == base + k + if h >= 2 then 1 else 0
  {
    var h := 8 * |addr| - p;
    MaskedValue(addr, p);
    if h >= 2 {
      Pow2Monotonic(2, h);
      assert Pow2(2) == 4;
    } else {
      assert Pow2(0) == 1 && Pow2(1) == 2;
    }
  }

  /** What gets listed: an address of the block that is not cut off, and not the first or the last of them
      when there are more than two. */
  predicate IsListed(addr: Address, p: nat, ip: Address)
    requires p <= 8 * |addr|
  {
    var end := Value(Network(addr, p)) + Count(addr, p);
    && InBlock(addr, p, ip) && Value(ip) < end
    && (Count(addr, p) > 2 ==> ip != Network(addr, p) && Value(ip) + 1 != end)
  }

  /** Strictly ascending, hence without duplicates. */
  lemma ListIsAscending(hosts: seq<Address>, addr: Address, p: nat)
    requires p <= 8 * |addr| && ListsBlock(hosts, addr, p)
    ensures forall j, k :: 0 <= j < k < |hosts| ==> Value(hosts[j]) < Value(hosts[k])
  {
  }

  lemma {:induction false} ListsExactly(hosts: seq<Address>, addr: Address, p: nat, ip: Address)
    requires p <= 8 * |addr| && ListsBlock(hosts, addr, p)
    ensures ip in hosts <==> IsListed(addr, p, ip)
  {
    var base, n := Value(Network(addr, p)), Count(addr, p);
    var skip := if n > 2 then 1 else 0;
    if |ip| == |addr| {
      CountInBlock(addr, p);
      BlockIsInterval(addr, p, ip);
      if IsListed(addr, p, ip) {
        if n > 2 && Value(ip) == base {
          ValueInjective(ip, Network(addr, p));
        }
        var k := Value(ip) - base - skip;
        assert 0 <= k < |hosts|;
        ValueInjective(ip, hosts[k]);
      }
    }
  }

  lemma {:induction false} CountInBlock(addr: Address, p: nat)
    requires p <= 8 * |addr|
    ensures 1 <= Count(addr, p) <= BlockSize(addr, p)
  {
    if CutOff(addr, p) {
      CutOffInside(addr, p);
    }
  }

  /** The list holds the host addresses of the block and no others, exactly when the block is not cut off. */
  lemma {:induction false} ListedAreTheHostsIff(addr: Address, p: nat)
    requires p <= 8 * |addr|
    ensures (forall ip: Address :: IsListed(addr, p, ip) <==> IsHost(addr, p, ip)) <==> !CutOff(addr, p)
  {
    if CutOff(addr, p) {
      CutOffInside(addr, p);
      assert IsHost(addr, p, FIRST) && !IsListed(addr, p, FIRST);
    } else {
      forall ip: Address
        ensures IsListed(addr, p, ip) <==> IsHost(addr, p, ip)
      {
        if InBlock(addr, p, ip) {
          BlockIsInterval(addr, p, ip);
        }
      }
    }
  }

  lemma {:induction false} EachListedOnce(hosts: seq<Address>, addr: Address, p: nat, ip: Address)
    requires p <= 8 * |addr| && ListsBlock(hosts, addr, p)
    ensures multiset(hosts)[ip] == if IsListed(addr, p, ip) then 1 else 0
    ensures !CutOff(addr, p) ==> multiset(hosts)[ip] == if IsHost(addr, p, ip) then 1 else 0
  {
    ListIsAscending(hosts, addr, p);
    ListsExactly(hosts, addr, p, ip);
    OnceInAscending(hosts, ip);
    ListedAreTheHostsIff(addr, p);
  }

  lemma {:induction false} OnceInAscending(s: seq<Address>, x: Address)
    requires forall j, k :: 0 <= j < k < |s| ==> Value(s[j]) < Value(s[k])
    ensures multiset(s)[x] == if x in s then 1 else 0
  {
    if s != [] {
      var init := s[..|s| - 1];
      OnceInAscending(init, x);
      assert s == init + [s[|s| - 1]];
    }
  }

  // ---- The empty prefix ----

  function Increments(s: Address, k: nat): (t: Address)
    ensures |t| == |s|
  {
    if k == 0 then s else Successor(Increments(s, k - 1))
  }

  lemma {:induction false} IncrementsValue(s: Address, k: nat)
    ensures Value(Increments(s, k)) == (Value(s) + k) % Pow2(8 * |s|)
  {
    var w := Pow2(8 * |s|);
    if k == 0 {
      ValueBound(s);
      ModSmall(Value(s), w);
    } else {
      IncrementsValue(s, k - 1);
      SuccessorValue(Increments(s, k - 1));
      ModOfSum(Value(s) + k - 1, 1, w);
    }
  }

  /** The enumeration comes to an end exactly when the prefix is not empty or the address is an IPv6 one. With
      an empty IPv4 prefix every address passes the test, whatever the increments, and the loop never stops;
      with an empty IPv6 prefix it stops at the mapped addresses. */
  lemma {:induction false} LoopStopsIff(addr: Address, p: nat)
    requires p <= 8 * |addr|
    ensures (exists k: nat :: !Passes(addr, p, Increments(Network(addr, p), k))) <==> p >= 1 || |addr| == 16
  {
    if Enumerable(addr, p) {
      StopsAtCount(addr, p);
    } else {
      forall k: nat
        ensures Passes(addr, p, Increments(Network(addr, p), k))
      {
        var ip := Increments(Network(addr, p), k);
        EveryAddressInBlock(addr, ip);
        PassesIff(addr, p, ip);
      }
    }
  }

  lemma {:induction false} StopsAtCount(addr: Address, p: nat)
    requires Enumerable(addr, p)
    ensures !Passes(addr, p, Increments(Network(addr, p), Count(addr, p)))
  {
    var k := Count(addr, p);
    AfterIncrements(addr, p, k);
    LoopTest(addr, p, k, Increments(Network(addr, p), k));
  }

  lemma {:induction false} AfterIncrements(addr: Address, p: nat, k: nat)
    requires p <= 8 * |addr| && k <= Count(addr, p)
    ensures AtStep(addr, p, k, Increments(Network(addr, p), k))
  {
    IncrementsValue(Network(addr, p), k);
    assert Value(Network(addr, p)) + k <= Pow2(8 * |addr|) by {
      BlockFits(addr, p);
      CountInBlock(addr, p);
    }
    WrapOnce(Value(Network(addr, p)) + k, Pow2(8 * |addr|));
  }
}
