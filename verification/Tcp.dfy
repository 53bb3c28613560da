/** `tcp.Checker.Run`: repeated dials, with 0 recorded for a failure. */
module Tcp {
  import opened Folds
  import opened Summary
  import opened Wrappers

  datatype TcpState = OPEN | CLOSED | TIMEOUT

  datatype TcpResult = TcpResult(
    state: TcpState, latency: int, min: int, max: int, avg: int, samples: seq<int>, attempts: int)

  /** The recorded latencies of the first `n` dials, in order; a failure is recorded as 0. */
  function Recorded(dial: nat -> Option<nat>, n: nat): (s: seq<int>)
    ensures |s| == n
  {
    seq(n, i requires 0 <= i < n => if dial(i).Some? then dial(i).value else 0)
  }

  function NonZero(s: seq<int>): seq<int> {
    if s == [] then []
    else
      var last := s[|s| - 1];
      if last == 0 then NonZero(s[..|s| - 1]) else NonZero(s[..|s| - 1]) + [last]
  }

  lemma NonZeroExtend(s: seq<int>, x: int)
    ensures NonZero(s + [x]) == if x == 0 then NonZero(s) else NonZero(s) + [x]
  {
    assert (s + [x])[..|s|] == s;
  }

  /** The samples are the measurable latencies of the dials that connected, in the order of the dials. */
  lemma {:induction false} SamplesAreDials(dial: nat -> Option<nat>, n: nat) returns (at: seq<nat>)
    ensures var samples := NonZero(Recorded(dial, n));
      && Positions(at, n) && |at| == |samples|
      && forall k :: 0 <= k < |at| ==> samples[k] > 0 && dial(at[k]) == Some(samples[k])
    ensures forall i: nat :: i < n && dial(i).Some? && dial(i).value > 0 ==> i in at
  {
    if n == 0 {
      at := [];
    } else {
      at := SamplesAreDials(dial, n - 1);
      assert Recorded(dial, n)[..n - 1] == Recorded(dial, n - 1);
      if dial(n - 1).Some? && dial(n - 1).value > 0 {
        at := at + [n - 1];
      }
    }
  }

  /** `Checker.Run`: each attempt dials once and waits for it. `cancelled(i)` says whether the context is done
      before the i-th attempt. Zero stands for failure, and the timeout is where the minimum starts from. */
  method Run(count: int, timeout: nat, cancelled: nat -> bool, dial: nat -> Option<nat>) returns (r: TcpResult)
    ensures r.state == TIMEOUT <==> count <= 0 || exists i: nat :: i < count && cancelled(i)
    ensures r.state == TIMEOUT ==> r == TcpResult(TIMEOUT, 0, 0, 0, 0, [], 0)
    ensures r.state != TIMEOUT ==> r.attempts == count && r.samples == NonZero(Recorded(dial, count))
    ensures r.state == OPEN <==> r.samples != []
    ensures r.state == OPEN ==> r.latency == r.avg == Average(r.samples) && r.max == Max(r.samples)
    ensures r.state == OPEN ==> r.min == if Min(r.samples) < timeout then Min(r.samples) else timeout
    ensures r.state == CLOSED ==> r == TcpResult(CLOSED, 0, timeout, 0, 0, [], count)
    ensures r.state == OPEN ==> exists i: nat :: i < count && dial(i).Some? && dial(i).value > 0
    ensures r.state == CLOSED ==> forall i: nat :: i < count && dial(i).Some? ==> dial(i).value == 0
  {
    var latencies: seq<int> := [];
    var i: nat := 0;
    while i < count
      invariant 0 < count ==> i <= count
      invariant count <= 0 ==> i == 0
      invariant latencies == Recorded(dial, i)
      invariant forall j: nat :: j < i ==> !cancelled(j)
      decreases count - i
    {
      if cancelled(i) {
        return TcpResult(TIMEOUT, 0, 0, 0, 0, [], 0);
      }
      var attempt := dial(i);
      if attempt.None? {
        latencies := latencies + [0];
      } else {
        latencies := latencies + [attempt.value];
      }
      i := i + 1;
    }
    if |latencies| == 0 {
      return TcpResult(TIMEOUT, 0, 0, 0, 0, [], 0);
    }
    var samples, min, max, total := Tally(latencies, timeout);
    if |samples| == 0 {
      forall j: nat | j < count && dial(j).Some?
        ensures dial(j).value == 0
      {
        assert latencies[j] == dial(j).value;
      }
      return TcpResult(CLOSED, 0, min, max, 0, samples, count);
    }
    var j :| 0 <= j < |latencies| && latencies[j] != 0;
    assert dial(j).Some? && dial(j).value > 0;
    var avg := GoDiv(total, |samples|);
    r := TcpResult(OPEN, avg, min, max, avg, samples, count);
  }

  /** The fold of `Checker.Run` over the recorded latencies. */
  method Tally(latencies: seq<int>, timeout: nat) returns (samples: seq<int>, min: int, max: int, total: int)
    requires forall j :: 0 <= j < |latencies| ==> latencies[j] >= 0
    ensures samples == NonZero(latencies) && total == Sum(samples)
    ensures samples == [] <==> forall j :: 0 <= j < |latencies| ==> latencies[j] == 0
    ensures samples == [] ==> min == timeout && max == 0
    ensures samples != [] ==> max == Max(samples) && min == if Min(samples) < timeout then Min(samples) else timeout
  {
    samples := [];
    min, max, total := timeout, 0, 0;
    for k := 0 to |latencies|
      invariant samples == NonZero(latencies[..k])
      invariant Tallied(samples, timeout, min, max, total)
    {
      var l := latencies[k];
      assert latencies[..k + 1] == latencies[..k] + [l];
      NonZeroExtend(latencies[..k], l);
      if l == 0 {
        continue;
      }
      TallyOne(samples, timeout, min, max, total, l);
      samples := samples + [l];
      if l < min {
        min := l;
      }
      if l > max {
        max := l;
      }
      total := total + l;
    }
    assert latencies[..|latencies|] == latencies;
    NonZeroEmptyIff(latencies);
  }

  /** The running figures over the samples kept so far. */
  ghost predicate Tallied(samples: seq<int>, timeout: nat, min: int, max: int, total: int) {
    && total == Sum(samples) && max >= 0
    && (samples == [] ==> min == timeout && max == 0)
    && (samples != [] ==> max == Max(samples) && min == if Min(samples) < timeout then Min(samples) else timeout)
  }

  lemma TallyOne(samples: seq<int>, timeout: nat, min: int, max: int, total: int, l: int)
    requires Tallied(samples, timeout, min, max, total) && l >= 0
    ensures Tallied(samples + [l], timeout, if l < min then l else min, if l > max then l else max, total + l)
  {
    Extend(samples, l);
  }

  lemma {:induction false} NonZeroEmptyIff(s: seq<int>)
    ensures NonZero(s) == [] <==> forall j :: 0 <= j < |s| ==> s[j] == 0
  {
    if s != [] {
      var init := s[..|s| - 1];
      NonZeroEmptyIff(init);
      assert forall j :: 0 <= j < |s| ==> s[j] == if j < |init| then init[j] else s[|s| - 1];
    }
  }
}
