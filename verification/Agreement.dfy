/** The one-pass summaries against the sorting ones. */
module Agreement {
  import opened Summary
  import opened Wrappers
  import opened Tcp
  import opened Monitoring
  import TcPing

  /** Same samples, same figures: three probes in the three formats, one per tool, whose surviving samples
      are the same up to order. The one-pass folds then report the minimum, mean and maximum that the sorting
      summaries report, exactly when their starting values for the minimum do not get in the way. */
  method SameSamplesSameFigures(samples: seq<int>, timeout: nat, dial: nat -> Option<nat>, count: nat, m: Monitor, probes: seq<Option<nat>>)
    returns (tcp: TcpResult, monitor: MonitorResult, ping: TcPing.Ending)
    requires samples != []
    requires multiset(NonZero(Recorded(dial, count))) == multiset(samples)
    requires multiset(Available(m.data)) == multiset(samples) && multiset(TcPing.Connected(probes)) == multiset(samples)
    ensures var s := Summarize(samples);
      && ping.Report? && ping.min == s.min && ping.avg == s.avg && ping.max == s.max
      && tcp.state == OPEN && tcp.avg == s.avg && tcp.max == s.max
      && monitor.avg == s.avg && monitor.max == s.max
      && (tcp.min == s.min <==> s.min <= timeout)
      && (monitor.min == s.min <==> s.min <= 3_600_000_000_000)
      && s.min <= s.avg <= s.max
  {
    SummaryIgnoresOrder(samples, NonZero(Recorded(dial, count)));
    SummaryIgnoresOrder(samples, Available(m.data));
    SummaryIgnoresOrder(samples, TcPing.Connected(probes));
    SummaryBounds(samples);
    assert count == 0 ==> Recorded(dial, count) == [];
    assert |multiset(samples)| == |samples|;
    tcp := Tcp.Run(count, timeout, _ => false, dial);
    monitor := m.Result();
    ping := TcPing.Run(probes);
  }
}
