/** `ping.Pinger.processResult`, which summarises by sorting the round trip times in place. */
module Ping {
  import opened Summary

  /** `ping.Result`, as far as `processResult` reads and writes it. */
  class PingResult {
    var rtt: array<int>
    var received: int
    var sent: int
    var packetLoss: real
    var min: int
    var max: int
    var avg: int
    var jitter: int

    constructor (sent: int)
      ensures fresh(rtt) && rtt.Length == 0 && this.sent == sent && received == 0 && packetLoss == 0.0
      ensures Stats() == Summary(0, 0, 0, 0)
    {
      rtt := new int[0];
      this.sent := sent;
      received, packetLoss, min, max, avg, jitter := 0, 0.0, 0, 0, 0, 0;
    }

    function Stats(): Summary
      reads this
    {
      Summary(min, max, avg, jitter)
    }
  }

  function Loss(sent: int, received: int): real
    requires sent > 0
  {
    (sent - received) as real / sent as real * 100.0
  }

  /** The share of the requests that were not answered, in percent. */
  lemma LossIsShare(sent: int, received: int)
    requires sent > 0
    ensures Loss(sent, received) * sent as real == 100.0 * (sent - received) as real
  {
  }

  /** The percentage is one exactly when no more replies were counted than requests sent; the receiver does
      not match the two, so nothing else keeps it from going negative. */
  lemma LossIsPercentageIff(loss: real, sent: int, received: nat)
    requires sent > 0 && loss * sent as real == 100.0 * (sent - received) as real
    ensures 0.0 <= loss <= 100.0 <==> received <= sent
  {
    var s, d := sent as real, (sent - received) as real;
    if received <= sent {
      assert 0.0 <= d <= s;
    } else {
      assert d < 0.0;
    }
  }

  /** The loss of a report, which stays as it is when nothing was sent. */
  method SetLoss(result: PingResult)
    modifies result`packetLoss
    ensures result.sent > 0 ==> result.packetLoss * result.sent as real == 100.0 * (result.sent - result.received) as real
    ensures result.sent <= 0 ==> result.packetLoss == old(result.packetLoss)
  {
    if result.sent > 0 {
      result.packetLoss := Loss(result.sent, result.received);
      LossIsShare(result.sent, result.received);
    }
  }

  /** `processResult`: the report on the round trip times as they arrived. The caller's slice is left sorted,
      and it is the one the result refers to. */
  method ProcessResult(result: PingResult, rtts: array<int>)
    modifies result, rtts
    ensures result.received == rtts.Length && result.rtt == rtts && result.sent == old(result.sent)
    ensures rtts[..] == Sort(old(rtts[..]))
    ensures rtts.Length == 0 ==> result.packetLoss == 100.0 && result.Stats() == old(result.Stats())
    ensures rtts.Length > 0 ==> result.Stats() == Summarize(old(rtts[..]))
    ensures rtts.Length > 0 && result.sent > 0 ==>
              result.packetLoss * result.sent as real == 100.0 * (result.sent - rtts.Length) as real
    ensures rtts.Length > 0 && result.sent <= 0 ==> result.packetLoss == old(result.packetLoss)
  {
    result.received := rtts.Length;
    result.rtt := rtts;
    if rtts.Length == 0 {
      result.packetLoss := 100.0;
      return;
    }
    var m := SummarizeInPlace(rtts);
    result.min, result.max, result.avg, result.jitter := m.min, m.max, m.avg, m.jitter;
    SetLoss(result);
  }

  /** A slice that has been summarised is sorted, holds the samples it held, and can be summarised again
      with the same outcome, whatever order the samples came in. */
  lemma {:induction false} SummarisingTwice(arrived: seq<int>, shuffled: seq<int>)
    requires arrived != [] && multiset(arrived) == multiset(shuffled)
    ensures Sorted(Sort(arrived)) && multiset(Sort(arrived)) == multiset(arrived)
    ensures Sort(shuffled) == Sort(arrived) && Sort(Sort(arrived)) == Sort(arrived)
    ensures shuffled != [] && Summarize(shuffled) == Summarize(arrived)
  {
    SortSorts(arrived);
    SortSorts(Sort(arrived));
    SortedUnique(Sort(Sort(arrived)), Sort(arrived));
    SortPermuted(arrived, shuffled);
    SummaryIgnoresOrder(arrived, shuffled);
  }
}
