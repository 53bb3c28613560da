/** `mtr.calculateStats`: the figures of one hop, from round trip times among which anything at or above a
    threshold counts as lost. The live display and the final report use different thresholds. */
module HopStats {
  import opened Arithmetic
  import opened Folds
  import opened Summary
  import Ping

  datatype HopStats = HopStats(sent: int, loss: real, last: int, min: int, max: int, avg: int, jitter: int)

  /** The samples below the threshold, in order. */
  function Valid(rtts: seq<int>, timeout: int): seq<int> {
    if rtts == [] then []
    else
      var last := rtts[|rtts| - 1];
      if last < timeout then Valid(rtts[..|rtts| - 1], timeout) + [last] else Valid(rtts[..|rtts| - 1], timeout)
  }

  /** The figures as the report defines them. */
  function HopStatsOf(rtts: seq<int>, timeout: int): HopStats {
    if rtts == [] then HopStats(0, 100.0, 0, timeout, timeout, timeout, 0)
    else
      var valid := Valid(rtts, timeout);
      var last := if rtts[|rtts| - 1] < timeout then rtts[|rtts| - 1] else 0;
      if valid == [] then HopStats(|rtts|, 100.0, last, 0, 0, 0, 0)
      else
        var m := Summarize(valid);
        HopStats(|rtts|, Ping.Loss(|rtts|, |valid|), last, m.min, m.max, m.avg, m.jitter)
  }

  method CalculateStats(rtts: seq<int>, timeout: int) returns (s: HopStats)
    ensures s == HopStatsOf(rtts, timeout)
  {
    if |rtts| == 0 {
      return HopStats(0, 100.0, 0, timeout, timeout, timeout, 0);
    }
    var validRTTs := BelowThreshold(rtts, timeout);
    var last := rtts[|rtts| - 1];
    if last >= timeout {
      last := 0;
    }
    if |validRTTs| == 0 {
      return HopStats(|rtts|, 100.0, last, 0, 0, 0, 0);
    }
    var loss := Ping.Loss(|rtts|, |validRTTs|);
    var m := SummariseSorted(validRTTs);
    s := HopStats(|rtts|, loss, last, m.min, m.max, m.avg, m.jitter);
  }

  /** The filtering loop of `calculateStats`. */
  method BelowThreshold(rtts: seq<int>, timeout: int) returns (valid: seq<int>)
    ensures valid == Valid(rtts, timeout)
  {
    valid := [];
    for i := 0 to |rtts|
      invariant valid == Valid(rtts[..i], timeout)
    {
      assert rtts[..i + 1][..i] == rtts[..i];
      if rtts[i] < timeout {
        valid := valid + [rtts[i]];
      }
    }
    assert rtts[..|rtts|] == rtts;
  }

  /** The rest of it, which sorts its own list and leaves the samples alone. */
  method SummariseSorted(valid: seq<int>) returns (m: Summary)
    requires valid != []
    ensures m == Summarize(valid)
  {
    var slice := new int[|valid|](i requires 0 <= i < |valid| => valid[i]);
    assert slice[..] == valid;
    m := SummarizeInPlace(slice);
  }

  // ---- What the figures are ----

  /** A sum over the samples below the threshold, as a sum over all of them. */
  lemma {:induction false} ValidTotal(f: int -> int, rtts: seq<int>, timeout: int)
    ensures Total(f, Valid(rtts, timeout)) == Total(x => if x < timeout then f(x) else 0, rtts)
  {
    if rtts != [] {
      var init, last := rtts[..|rtts| - 1], rtts[|rtts| - 1];
      ValidTotal(f, init, timeout);
      assert rtts == init + [last];
      TotalExtend(x => if x < timeout then f(x) else 0, init, last);
      TotalExtend(f, Valid(init, timeout), last);
    }
  }

  lemma {:induction false} ValidCount(rtts: seq<int>, timeout: int)
    ensures |Valid(rtts, timeout)| == Total(x => if x < timeout then 1 else 0, rtts)
  {
    var valid := Valid(rtts, timeout);
    var one := (x: int) => 1;
    ValidTotal(one, rtts, timeout);
    TotalWithin(one, valid, 1, 1);
    TotalSame(x => if x < timeout then one(x) else 0, x => if x < timeout then 1 else 0, rtts);
  }

  lemma {:induction false} ValidSum(rtts: seq<int>, timeout: int)
    ensures Sum(Valid(rtts, timeout)) == Total(x => if x < timeout then x else 0, rtts)
  {
    var f := (x: int) => x;
    TotalSame(Identity, f, Valid(rtts, timeout));
    ValidTotal(f, rtts, timeout);
    TotalSame(x => if x < timeout then f(x) else 0, x => if x < timeout then x else 0, rtts);
  }

  lemma {:induction false} ValidDeviation(rtts: seq<int>, timeout: int, a: int)
    ensures Total(Deviation(a), Valid(rtts, timeout))
            == Total(x => if x >= timeout then 0 else if x >= a then x - a else a - x, rtts)
  {
    ValidTotal(Deviation(a), rtts, timeout);
    TotalSame(x => if x < timeout then Deviation(a)(x) else 0,
              x => if x >= timeout then 0 else if x >= a then x - a else a - x, rtts);
  }

  /** What is always there: the number of samples, the last one, which shows as 0 if it is lost, and what takes
      the place of the figures when there are no samples or only lost ones. */
  lemma {:induction false} HopWithoutReplies(rtts: seq<int>, timeout: int)
    ensures var s := HopStatsOf(rtts, timeout);
      && s.sent == |rtts|
      && (rtts == [] ==> s == HopStats(0, 100.0, 0, timeout, timeout, timeout, 0))
      && (rtts != [] ==> s.last == if rtts[|rtts| - 1] < timeout then rtts[|rtts| - 1] else 0)
      && (rtts != [] && (forall i :: 0 <= i < |rtts| ==> rtts[i] >= timeout) ==> s == HopStats(|rtts|, 100.0, 0, 0, 0, 0, 0))
  {
    var valid := Valid(rtts, timeout);
    if valid != [] {
      ValidMembers(rtts, timeout, valid[0]);
    }
  }

  /** The figures of a hop with a reply: minimum and maximum are samples below the threshold and bound the
      others, loss, mean and jitter are the quotients of the sums over those samples. */
  lemma {:induction false} HopFigures(rtts: seq<int>, timeout: int)
    requires exists i :: 0 <= i < |rtts| && rtts[i] < timeout
    ensures var s, n := HopStatsOf(rtts, timeout), Total(x => if x < timeout then 1 else 0, rtts);
      && s.min in rtts && s.max in rtts && s.max < timeout
      && (forall i :: 0 <= i < |rtts| && rtts[i] < timeout ==> s.min <= rtts[i] <= s.max)
      && n > 0 && s.loss * s.sent as real == 100.0 * (s.sent - n) as real
      && s.avg == GoDiv(Total(x => if x < timeout then x else 0, rtts), n)
      && s.jitter == GoDiv(Total(x => if x >= timeout then 0 else if x >= s.avg then x - s.avg else s.avg - x, rtts), n)
      && s.min <= s.avg <= s.max && 2 * s.jitter <= s.max - s.min
  {
    var i :| 0 <= i < |rtts| && rtts[i] < timeout;
    ValidMembers(rtts, timeout, rtts[i]);
    HopExtremes(rtts, timeout);
    HopMeans(rtts, timeout);
    SummaryBounds(Valid(rtts, timeout));
    HopLoss(rtts, timeout, |Valid(rtts, timeout)|);
  }

  lemma {:induction false} HopLoss(rtts: seq<int>, timeout: int, n: int)
    requires rtts != [] && n == |Valid(rtts, timeout)|
    ensures var s := HopStatsOf(rtts, timeout);
      s.sent == |rtts| && s.loss * s.sent as real == 100.0 * (s.sent - n) as real
  {
    LossOfHop(rtts, timeout);
    Ping.LossIsShare(|rtts|, n);
  }

  lemma {:induction false} HopMeans(rtts: seq<int>, timeout: int)
    requires Valid(rtts, timeout) != []
    ensures var m, n := Summarize(Valid(rtts, timeout)), Total(x => if x < timeout then 1 else 0, rtts);
      && n == |Valid(rtts, timeout)|
      && m.avg == GoDiv(Total(x => if x < timeout then x else 0, rtts), n)
      && m.jitter == GoDiv(Total(x => if x >= timeout then 0 else if x >= m.avg then x - m.avg else m.avg - x, rtts), n)
  {
    ValidCount(rtts, timeout);
    ValidSum(rtts, timeout);
    ValidDeviation(rtts, timeout, Average(Valid(rtts, timeout)));
  }

  lemma {:induction false} HopExtremes(rtts: seq<int>, timeout: int)
    requires Valid(rtts, timeout) != []
    ensures var m := Summarize(Valid(rtts, timeout));
      && m.min in rtts && m.max in rtts && m.max < timeout
      && forall i :: 0 <= i < |rtts| && rtts[i] < timeout ==> m.min <= rtts[i] <= m.max
  {
    var valid := Valid(rtts, timeout);
    MinIsLeast(valid);
    MaxIsGreatest(valid);
    ValidMembers(rtts, timeout, Min(valid));
    ValidMembers(rtts, timeout, Max(valid));
    forall i | 0 <= i < |rtts| && rtts[i] < timeout
      ensures Min(valid) <= rtts[i] <= Max(valid)
    {
      ValidMembers(rtts, timeout, rtts[i]);
    }
  }

  // ---- Two thresholds ----

  /** Raising the threshold lets in the samples between the old one and the new, and takes none away. */
  lemma {:induction false} ValidGrows(rtts: seq<int>, t1: int, t2: int)
    requires t1 <= t2
    ensures |Valid(rtts, t1)| <= |Valid(rtts, t2)| <= |rtts|
    ensures |Valid(rtts, t1)| == |Valid(rtts, t2)| <==> forall i :: 0 <= i < |rtts| ==> !(t1 <= rtts[i] < t2)
  {
    if rtts != [] {
      var init, last := rtts[..|rtts| - 1], rtts[|rtts| - 1];
      ValidGrows(init, t1, t2);
      assert forall i :: 0 <= i < |rtts| ==> rtts[i] == if i < |init| then init[i] else last;
    }
  }

  /** What was in already was below the old threshold, and what is let in is at or above it. */
  lemma {:induction false} ValidSums(rtts: seq<int>, t1: int, t2: int)
    requires t1 <= t2
    ensures Total(Above(t1), Valid(rtts, t1)) <= 0
    ensures Total(Above(t1), Valid(rtts, t1)) <= Total(Above(t1), Valid(rtts, t2))
  {
    if rtts != [] {
      var init, last := rtts[..|rtts| - 1], rtts[|rtts| - 1];
      ValidSums(init, t1, t2);
      TotalExtend(Above(t1), Valid(init, t1), last);
      TotalExtend(Above(t1), Valid(init, t2), last);
    }
  }

  lemma {:induction false} ValidMembers(rtts: seq<int>, t: int, x: int)
    ensures x in Valid(rtts, t) <==> x in rtts && x < t
  {
    if rtts != [] {
      var init := rtts[..|rtts| - 1];
      ValidMembers(init, t, x);
      assert rtts == init + [rtts[|rtts| - 1]];
    }
  }

  lemma MeanGrows(s1: int, n1: nat, s2: int, n2: nat, t: int)
    requires 0 < n1 <= n2 && s1 - t * n1 <= 0 && s1 - t * n1 <= s2 - t * n2
    ensures GoDiv(s1, n1) <= GoDiv(s2, n2)
  {
    var e := n2 - n1;
    TimesMonotonic(s1, t * n1, e);
    assert t * e == t * n2 - t * n1;
    TimesMonotonic(t * e, s2 - s1, n1);
    assert t * n1 * e == t * e * n1;
    assert s1 * n2 == s1 * n1 + s1 * e;
    assert s2 * n1 == s1 * n1 + (s2 - s1) * n1;
    GoDivMonotonic(s1, n1, s2, n2);
  }

  /** A higher threshold gives the same best time, no better worst and mean times, and no higher loss. */
  lemma {:induction false} ThresholdMonotonic(rtts: seq<int>, t1: int, t2: int)
    requires t1 <= t2 && Valid(rtts, t1) != []
    ensures var lower, higher := HopStatsOf(rtts, t1), HopStatsOf(rtts, t2);
      && higher.sent == lower.sent && higher.min == lower.min
      && higher.max >= lower.max && higher.avg >= lower.avg && higher.loss <= lower.loss
  {
    var v1, v2 := Valid(rtts, t1), Valid(rtts, t2);
    ValidGrows(rtts, t1, t2);
    ValidSums(rtts, t1, t2);
    AboveSum(v1, t1);
    AboveSum(v2, t1);
    MeanGrows(Sum(v1), |v1|, Sum(v2), |v2|, t1);
    LossOrder(|rtts|, |v1|, |v2|);
    ExtremesGrow(rtts, t1, t2);
  }

  lemma {:induction false} ExtremesGrow(rtts: seq<int>, t1: int, t2: int)
    requires t1 <= t2 && Valid(rtts, t1) != []
    ensures Valid(rtts, t2) != []
    ensures Min(Valid(rtts, t2)) == Min(Valid(rtts, t1)) && Max(Valid(rtts, t2)) >= Max(Valid(rtts, t1))
  {
    var v1, v2 := Valid(rtts, t1), Valid(rtts, t2);
    ValidGrows(rtts, t1, t2);
    MinIsLeast(v1);
    MinIsLeast(v2);
    MaxIsGreatest(v1);
    MaxIsGreatest(v2);
    ValidMembers(rtts, t1, Min(v1));
    ValidMembers(rtts, t2, Min(v1));
    ValidMembers(rtts, t1, Min(v2));
    ValidMembers(rtts, t2, Min(v2));
    ValidMembers(rtts, t1, Max(v1));
    ValidMembers(rtts, t2, Max(v1));
  }

  lemma LossOrder(sent: int, a: int, b: int)
    requires sent > 0
    ensures a <= b <==> Ping.Loss(sent, b) <= Ping.Loss(sent, a)
    ensures a == b <==> Ping.Loss(sent, b) == Ping.Loss(sent, a)
  {
    var s := sent as real;
    var x, y := Ping.Loss(sent, a), Ping.Loss(sent, b);
    assert x * s == (sent - a) as real * 100.0;
    assert y * s == (sent - b) as real * 100.0;
    assert (x - y) * s == (b - a) as real * 100.0;
    if x > y {
      assert (x - y) * s > 0.0;
    } else if x < y {
      assert (y - x) * s > 0.0;
    }
  }

  /** The threshold of the live display. */
  const LIVE: int := 5_000_000_000

  lemma {:induction false} LossOfHop(rtts: seq<int>, t: int)
    requires rtts != []
    ensures |Valid(rtts, t)| <= |rtts| && HopStatsOf(rtts, t).loss == Ping.Loss(|rtts|, |Valid(rtts, t)|)
  {
    ValidGrows(rtts, t, t);
    if Valid(rtts, t) == [] {
      var s := |rtts| as real;
      assert s / s == 1.0;
    }
  }

  /** The live display and the final report agree on the loss of a hop exactly when no sample lies between
      the two thresholds. A failed probe is recorded as the timeout itself, so with a timeout below five
      seconds every failure is such a sample: the live display counts it as a reply. */
  lemma {:induction false} LiveLossAgreesIff(rtts: seq<int>, timeout: int)
    requires rtts != []
    ensures LIVE == 5_000_000_000
    ensures HopStatsOf(rtts, LIVE).loss == HopStatsOf(rtts, timeout).loss
            <==> forall i :: 0 <= i < |rtts| ==> !(timeout <= rtts[i] < LIVE) && !(LIVE <= rtts[i] < timeout)
    ensures timeout < LIVE && timeout in rtts ==> HopStatsOf(rtts, LIVE).loss < HopStatsOf(rtts, timeout).loss
  {
    LossOfHop(rtts, LIVE);
    LossOfHop(rtts, timeout);
    LossOrder(|rtts|, |Valid(rtts, LIVE)|, |Valid(rtts, timeout)|);
    LossOrder(|rtts|, |Valid(rtts, timeout)|, |Valid(rtts, LIVE)|);
    if timeout <= LIVE {
      ValidGrows(rtts, timeout, LIVE);
    } else {
      ValidGrows(rtts, LIVE, timeout);
    }
  }
}
