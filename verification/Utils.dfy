/** `utils.Stats`. */
module Utils {
  import opened Summary

  /** `utils.Stats`. It sorts the slice of its caller, and it reports no loss unless there are no samples. */
  method Stats(durations: array<int>) returns (min: int, max: int, avg: int, jitter: int, loss: real, sent: int)
    modifies durations
    ensures durations[..] == Sort(old(durations[..]))
    ensures sent == durations.Length
    ensures durations.Length == 0 ==> Summary(min, max, avg, jitter) == Summary(0, 0, 0, 0) && loss == 100.0
    ensures durations.Length > 0 ==> Summary(min, max, avg, jitter) == Summarize(old(durations[..])) && loss == 0.0
  {
    if durations.Length == 0 {
      return 0, 0, 0, 0, 100.0, 0;
    }
    sent, loss := durations.Length, 0.0;
    var m := SummarizeInPlace(durations);
    min, max, avg, jitter := m.min, m.max, m.avg, m.jitter;
  }
}
