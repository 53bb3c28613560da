/** IP addresses as big-endian bytes, `incIP`, and the bytewise mask test of a CIDR block. */
module Addresses {
  import opened Arithmetic

  type byte = x: int | 0 <= x < 256
  type Address = seq<byte>

  /** The big-endian integer value. */
  function Value(s: Address): nat {
    if s == [] then 0 else 256 * Value(s[..|s| - 1]) + s[|s| - 1]
  }

  // ---- Values of addresses ----

  lemma {:induction false} ValueBound(s: Address)
    ensures Value(s) < Pow2(8 * |s|)
  {
    if s != [] {
      ValueBound(s[..|s| - 1]);
      Pow2Byte(8 * (|s| - 1));
    }
  }

  /** Addresses of one length are told apart by their values. */
  lemma {:induction false} ValueInjective(s: Address, t: Address)
    requires |s| == |t| && Value(s) == Value(t)
    ensures s == t
  {
    if s != [] {
      var a, b := s[..|s| - 1], t[..|t| - 1];
      assert Value(a) == Value(b) && s[|s| - 1] == t[|t| - 1];
      ValueInjective(a, b);
      assert s == a + [s[|s| - 1]] && t == b + [t[|t| - 1]];
    }
  }

  lemma {:induction false} ValueExtend(s: Address, b: byte)
    ensures Value(s + [b]) == 256 * Value(s) + b
  {
    assert (s + [b])[..|s|] == s;
  }

  /** The value of an address from those of its two parts. */
  lemma {:induction false} ValueSplit(s: Address, t: Address)
    ensures Value(s + t) == Value(s) * Pow2(8 * |t|) + Value(t)
  {
    if t == [] {
      assert s + t == s;
    } else {
      var init, last := t[..|t| - 1], t[|t| - 1];
      var q := Pow2(8 * |init|);
      assert Value(s + t) == 256 * (Value(s) * q + Value(init)) + last by {
        ValueSplit(s, init);
        assert s + t == (s + init) + [last];
        ValueExtend(s + init, last);
      }
      assert Value(t) == 256 * Value(init) + last;
      assert Pow2(8 * |t|) == 256 * q by {
        Pow2Byte(8 * |init|);
      }
      ShiftDigit(Value(s), q, Value(init), last);
    }
  }

  // ---- incIP ----

  /** One more, with the carry going left and falling off the end. */
  function Successor(s: Address): (t: Address)
    ensures |t| == |s|
  {
    if s == [] then []
    else if s[|s| - 1] == 255 then Successor(s[..|s| - 1]) + [0]
    else s[..|s| - 1] + [s[|s| - 1] + 1]
  }

  /** One more, or zero after the last address. */
  lemma {:induction false} SuccessorWraps(s: Address)
    ensures Value(Successor(s)) == if Value(s) + 1 == Pow2(8 * |s|) then 0 else Value(s) + 1
  {
    if s != [] {
      var init, last := s[..|s| - 1], s[|s| - 1];
      ValueBound(init);
      Pow2Byte(8 * |init|);
      if last == 255 {
        SuccessorWraps(init);
        ValueExtend(Successor(init), 0);
      } else {
        ValueExtend(init, last + 1);
      }
    }
  }

  /** `incIP` adds one modulo 2 to the width of the address. */
  lemma {:induction false} SuccessorValue(s: Address)
    ensures Value(Successor(s)) == (Value(s) + 1) % Pow2(8 * |s|)
  {
    SuccessorWraps(s);
    ValueBound(s);
    WrapOnce(Value(s) + 1, Pow2(8 * |s|));
  }

  /** Bytes from `j` on have been turned from 255 to 0: what `Successor` still has to do is left of `j`. */
  lemma {:induction false} CarryPrefix(s: Address, j: nat)
    requires j <= |s| && forall k :: j <= k < |s| ==> s[k] == 255
    ensures Successor(s) == Successor(s[..j]) + seq(|s| - j, i => 0)
    decreases |s|
  {
    if j == |s| {
      assert s[..j] == s;
    } else {
      var init := s[..|s| - 1];
      CarryPrefix(init, j);
      assert init[..j] == s[..j];
      assert seq(|s| - j, i => 0 as byte) == seq(|init| - j, i => 0 as byte) + [0];
    }
  }

  method IncIP(ip: array<byte>)
    modifies ip
    ensures ip[..] == Successor(old(ip[..]))
  {
    ghost var was := ip[..];
    var j := ip.Length - 1;
    while j >= 0
      invariant -1 <= j < ip.Length
      invariant ip[..j + 1] == was[..j + 1]
      invariant forall k :: j < k < ip.Length ==> was[k] == 255 && ip[k] == 0
    {
      ip[j] := if ip[j] == 255 then 0 else ip[j] + 1;
      CarryPrefix(was, j + 1);
      if ip[j] > 0 {
        assert was[..j + 1][..j] == was[..j];
        assert ip[..] == was[..j] + [was[j] + 1] + seq(|was| - (j + 1), i => 0);
        return;
      }
      j := j - 1;
    }
    CarryPrefix(was, 0);
  }

  // ---- Masks ----

  /** Bitwise AND. */
  function And(a: nat, b: nat): (r: nat)
    ensures r <= a && r <= b
  {
    if a == 0 || b == 0 then 0 else 2 * And(a / 2, b / 2) + (if a % 2 == 1 && b % 2 == 1 then 1 else 0)
  }

  lemma {:induction false} AndStep(a: nat, b: nat)
    ensures And(a, b) == 2 * And(a / 2, b / 2) + (if a % 2 == 1 && b % 2 == 1 then 1 else 0)
  {
  }

  lemma {:induction false} AndOnes(x: nat, w: nat)
    requires x < Pow2(w)
    ensures And(x, Pow2(w) - 1) == x
  {
    if w != 0 {
      AndOnes(x / 2, w - 1);
      AndStep(x, Pow2(w) - 1);
      assert (Pow2(w) - 1) / 2 == Pow2(w - 1) - 1;
    }
  }

  lemma {:induction false} AndEven(x: nat, m: nat)
    ensures And(x, 2 * m) == 2 * And(x / 2, m)
  {
    AndStep(x, 2 * m);
    assert (2 * m) / 2 == m && (2 * m) % 2 == 0;
  }

  lemma {:induction false} AndHighDigit(x: nat, m: nat, q: nat, m': nat, q': nat)
    requires q > 0 && m' == 2 * m && q' == 2 * q
    requires And(x / 2, m) == RoundDown(x / 2, q)
    ensures And(x, m') == RoundDown(x, q')
  {
    AndEven(x, m);
    HalveRound(x, q);
  }

  /** Clears the low `h` bits of a number of `w` bits. */
  lemma {:induction false} AndHighOnes(x: nat, w: nat, h: nat)
    requires h <= w && x < Pow2(w)
    ensures Pow2(h) <= Pow2(w) && And(x, Pow2(w) - Pow2(h)) == RoundDown(x, Pow2(h))
  {
    Pow2Monotonic(h, w);
    if h == 0 {
      AndOnes(x, w);
    } else {
      AndHighOnes(x / 2, w - 1, h - 1);
      AndHighDigit(x, Pow2(w - 1) - Pow2(h - 1), Pow2(h - 1), Pow2(w) - Pow2(h), Pow2(h));
    }
  }

  /** How many of the leading `p` one bits fall into byte `i`. */
  function OnesIn(p: nat, i: nat): (k: nat)
    ensures k <= 8
  {
    if p <= 8 * i then 0 else if p >= 8 * i + 8 then 8 else p - 8 * i
  }

  function MaskByte(p: nat, i: nat): byte {
    Pow2Monotonic(0, 8 - OnesIn(p, i));
    Pow2Monotonic(8 - OnesIn(p, i), 8);
    assert Pow2(8) == 256;
    256 - Pow2(8 - OnesIn(p, i))
  }

  /** `p` one bits followed by zeros, `n` bytes in all. */
  function CidrMask(p: nat, n: nat): (m: seq<byte>)
    ensures |m| == n
  {
    seq(n, i requires 0 <= i < n => MaskByte(p, i))
  }

  function Masked(s: Address, m: seq<byte>): (t: Address)
    requires |m| == |s|
    ensures |t| == |s|
  {
    seq(|s|, i requires 0 <= i < |s| => And(s[i], m[i]))
  }

  /** Equal bytes under the mask. */
  predicate SameUnderMask(net: Address, m: seq<byte>, ip: Address)
    requires |m| == |net|
  {
    |ip| == |net| && forall i :: 0 <= i < |net| ==> And(net[i], m[i]) == And(ip[i], m[i])
  }

  lemma {:induction false} MaskedByte(x: byte, p: nat, i: nat)
    ensures And(x, MaskByte(p, i)) == RoundDown(x, Pow2(8 - OnesIn(p, i)))
  {
    assert Pow2(8) == 256;
    AndHighOnes(x, 8, 8 - OnesIn(p, i));
  }

  /** Masking clears the low bits of the value: it rounds down to a multiple of the block size. */
  lemma {:induction false} MaskedValue(s: Address, p: nat)
    requires p <= 8 * |s|
    ensures Value(Masked(s, CidrMask(p, |s|))) == RoundDown(Value(s), Pow2(8 * |s| - p))
  {
    if s != [] {
      var n := |s| - 1;
      if p <= 8 * n {
        MaskedValue(s[..n], p);
        MaskedHead(s, p);
      } else {
        MaskedTail(s, p);
      }
    }
  }

  lemma {:induction false} MaskedSplit(s: Address, p: nat)
    requires s != []
    ensures Masked(s, CidrMask(p, |s|)) == Masked(s[..|s| - 1], CidrMask(p, |s| - 1)) + [And(s[|s| - 1], MaskByte(p, |s| - 1))]
  {
  }

  lemma {:induction false} MaskedHead(s: Address, p: nat)
    requires s != [] && p <= 8 * (|s| - 1)
    requires Value(Masked(s[..|s| - 1], CidrMask(p, |s| - 1))) == RoundDown(Value(s[..|s| - 1]), Pow2(8 * (|s| - 1) - p))
    ensures Value(Masked(s, CidrMask(p, |s|))) == RoundDown(Value(s), Pow2(8 * |s| - p))
  {
    var n := |s| - 1;
    MaskedSplit(s, p);
    assert MaskByte(p, n) == 0 by {
      assert Pow2(8) == 256;
    }
    ValueExtend(Masked(s[..n], CidrMask(p, n)), 0);
    Pow2Byte(8 * n - p);
    RoundHigherDigits(Value(s[..n]), s[n], Pow2(8 * n - p));
  }

  lemma {:induction false} MaskedTail(s: Address, p: nat)
    requires s != [] && 8 * (|s| - 1) < p <= 8 * |s|
    ensures Value(Masked(s, CidrMask(p, |s|))) == RoundDown(Value(s), Pow2(8 * |s| - p))
  {
    var n := |s| - 1;
    var d, low := Pow2(8 * |s| - p), And(s[n], MaskByte(p, n));
    assert low == RoundDown(s[n], d) by {
      MaskedByte(s[n], p, n);
      assert 8 - OnesIn(p, n) == 8 * |s| - p;
    }
    assert Value(Masked(s, CidrMask(p, |s|))) == 256 * Value(s[..n]) + low by {
      MaskedSplit(s, p);
      AllOnesPrefix(s, p, n);
      ValueExtend(s[..n], low);
    }
    Pow2Complement(p - 8 * n, 8 * |s| - p);
    RoundLastDigit(Value(s[..n]), s[n], Pow2(p - 8 * n), d);
  }

  lemma {:induction false} AllOnesPrefix(s: Address, p: nat, n: nat)
    requires n < |s| && 8 * n < p
    ensures Masked(s[..n], CidrMask(p, n)) == s[..n]
  {
    forall i | 0 <= i < n
      ensures And(s[i], MaskByte(p, i)) == s[i]
    {
      MaskedByte(s[i], p, i);
      assert OnesIn(p, i) == 8 && Pow2(0) == 1;
    }
  }

  /** The bytewise test is a test of the rounded values. */
  lemma {:induction false} ContainsIffSameBlock(net: Address, p: nat, ip: Address)
    requires |ip| == |net| && p <= 8 * |net|
    ensures SameUnderMask(net, CidrMask(p, |net|), ip)
            <==> RoundDown(Value(net), Pow2(8 * |net| - p)) == RoundDown(Value(ip), Pow2(8 * |net| - p))
  {
    var m := CidrMask(p, |net|);
    MaskedValue(net, p);
    MaskedValue(ip, p);
    SameMaskedIff(net, m, ip);
    if Value(Masked(net, m)) == Value(Masked(ip, m)) {
      ValueInjective(Masked(net, m), Masked(ip, m));
    }
  }

  lemma {:induction false} SameMaskedIff(net: Address, m: seq<byte>, ip: Address)
    requires |m| == |net| == |ip|
    ensures SameUnderMask(net, m, ip) <==> Masked(net, m) == Masked(ip, m)
  {
    var a, b := Masked(net, m), Masked(ip, m);
    assert forall i :: 0 <= i < |net| ==> a[i] == And(net[i], m[i]) && b[i] == And(ip[i], m[i]);
  }

  /** A CIDR block is an interval of integers: with the host bits of the network address cleared, an address
      passes the mask test exactly when its value is one of the 2^h values from the network address on. */
  lemma {:induction false} BlockIsInterval(net: Address, p: nat, ip: Address)
    requires |ip| == |net| && p <= 8 * |net|
    ensures var base := Masked(net, CidrMask(p, |net|));
      SameUnderMask(base, CidrMask(p, |net|), ip) <==> Value(base) <= Value(ip) < Value(base) + Pow2(8 * |net| - p)
  {
    var base := Masked(net, CidrMask(p, |net|));
    MaskedValue(net, p);
    ContainsIffSameBlock(base, p, ip);
    RoundDownInterval(Value(net), Value(ip), Pow2(8 * |net| - p));
  }
}
