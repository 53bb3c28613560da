/** `mtr.MTR.Run`: cycles of probes with growing TTL, cancelled at any check, and the report made of them. */
module Mtr {
  import opened Folds
  import opened Summary
  import opened HopStats
  import Ping

  datatype Config = Config(cycles: int, maxHops: int, timeout: nat)

  datatype Reply = Lost | Rtt(d: nat)

  /** The outside world. `cancelled(c, t)` is what the context check sees before the probe of TTL `t` in cycle
      `c`, and before the whole cycle for `t` = 0; `listens(c)` is whether the socket can be opened. */
  datatype World = World(listens: nat -> bool, cancelled: (nat, nat) -> bool, probe: (nat, nat) -> Reply)

  /** A failed probe is recorded as the timeout. */
  function Sample(cfg: Config, world: World, c: nat, t: nat): int {
    match world.probe(c, t) case Rtt(d) => d case Lost => cfg.timeout
  }

  // ---- Which probes are made ----

  /** No check of the first `n` cycles sees the context done. */
  ghost predicate Clear(cfg: Config, world: World, n: nat) {
    forall c: nat :: c < n ==> ClearCycle(cfg, world, c, cfg.maxHops)
  }

  /** No check of cycle `c` up to TTL `t` sees the context done. */
  ghost predicate ClearCycle(cfg: Config, world: World, c: nat, t: int) {
    !world.cancelled(c, 0) && (world.listens(c) ==> forall u: nat :: 1 <= u <= t ==> !world.cancelled(c, u))
  }

  /** The probe of TTL `t` in cycle `c` is made: the cycle listens and no check before it stops the run. */
  ghost predicate Visited(cfg: Config, world: World, c: nat, t: nat) {
    c < cfg.cycles && 1 <= t <= cfg.maxHops && world.listens(c) && Clear(cfg, world, c) && ClearCycle(cfg, world, c, t)
  }

  /** The samples for TTL `t` from the first `n` cycles. */
  ghost function Samples(cfg: Config, world: World, t: nat, n: nat): seq<int> {
    if n == 0 then []
    else Samples(cfg, world, t, n - 1) + if Visited(cfg, world, n - 1, t) then [Sample(cfg, world, n - 1, t)] else []
  }

  function Cycles(cfg: Config): nat {
    if cfg.cycles < 0 then 0 else cfg.cycles
  }

  /** Nothing is probed after a check has stopped the run. */
  lemma {:induction false} SamplesEnd(cfg: Config, world: World, t: nat, n: nat, m: nat)
    requires n <= m && forall c: nat :: n <= c < m ==> !Visited(cfg, world, c, t)
    ensures Samples(cfg, world, t, m) == Samples(cfg, world, t, n)
  {
    if n < m {
      SamplesEnd(cfg, world, t, n, m - 1);
    }
  }

  lemma {:induction false} VisitMeansSample(cfg: Config, world: World, c: nat, t: nat, n: nat)
    requires c < n && Visited(cfg, world, c, t)
    ensures Samples(cfg, world, t, n) != []
  {
    if c < n - 1 {
      VisitMeansSample(cfg, world, c, t, n - 1);
    }
  }

  // ---- The run ----

  datatype Hop = Hop(number: nat, stats: HopStats)

  class MtrResult {
    var hops: seq<Hop>
    var cycles: int
    var running: bool

    constructor ()
      ensures hops == [] && cycles == 0 && !running
    {
      hops, cycles, running := [], 0, false;
    }
  }

  /** The per-TTL lists of round trip times hold the samples of the first `n` cycles, for TTLs from `lo` on,
      and of one cycle more below. */
  ghost predicate Holds(cfg: Config, world: World, hopData: map<nat, seq<int>>, n: nat, lo: nat) {
    forall t: nat ::
      var want := Samples(cfg, world, t, if t < lo then n + 1 else n);
      (t in hopData <==> want != []) && (t in hopData ==> hopData[t] == want)
  }

  /** The hops are numbered from 1 without a gap, as far as the probes of the first cycle got. */
  ghost predicate Numbered(hops: seq<Hop>) {
    forall i :: 0 <= i < |hops| ==> hops[i].number == i + 1
  }

  /** A report: the hops the first cycle reached, each with the figures of all its samples. */
  ghost predicate Reported(cfg: Config, world: World, hops: seq<Hop>) {
    && Numbered(hops)
    && (forall t: nat :: 1 <= t <= |hops| <==> Visited(cfg, world, 0, t))
    && forall i :: 0 <= i < |hops| ==> hops[i].stats == HopStatsOf(Samples(cfg, world, i + 1, Cycles(cfg)), cfg.timeout)
  }

  /** `MTR.Run` on a host that resolves. Every report is about exactly the probes that were made, whatever
      the cancellation; the hops are those the first cycle reached. */
  method Run(cfg: Config, world: World) returns (result: MtrResult, cancelled: bool)
    ensures fresh(result) && !result.running && result.cycles == cfg.cycles
    ensures cancelled <==> !Clear(cfg, world, Cycles(cfg))
    ensures Reported(cfg, world, result.hops)
  {
    result := new MtrResult();
    var hopData: map<nat, seq<int>> := map[];
    var cycle: nat := 0;
    while cycle < cfg.cycles
      invariant cycle <= Cycles(cfg) && fresh(result)
      invariant Clear(cfg, world, cycle)
      invariant Holds(cfg, world, hopData, cycle, 0)
      invariant Numbered(result.hops)
      invariant cycle == 0 ==> result.hops == []
      invariant cycle > 0 ==> forall t: nat :: 1 <= t <= |result.hops| <==> Visited(cfg, world, 0, t)
      decreases cfg.cycles - cycle
    {
      if world.cancelled(cycle, 0) {
        StopsHere(cfg, world, hopData, cycle, cycle);
        Finalize(cfg, world, result, hopData);
        return result, true;
      }
      if !world.listens(cycle) {
        NotListening(cfg, world, hopData, cycle);
        cycle := cycle + 1;
        continue;
      }
      var hops, stop;
      hopData, hops, stop := Cycle(cfg, world, cycle, hopData);
      if cycle == 0 {
        result.hops := hops;
      }
      if stop {
        StopsHere(cfg, world, hopData, cycle, cycle + 1);
        Finalize(cfg, world, result, hopData);
        return result, true;
      }
      if cfg.cycles > 1 {
        result.cycles := cycle + 1;
        result.running := true;
      }
      cycle := cycle + 1;
    }
    Finalize(cfg, world, result, hopData);
    cancelled := false;
  }

  lemma NotListening(cfg: Config, world: World, hopData: map<nat, seq<int>>, cycle: nat)
    requires !world.listens(cycle) && Holds(cfg, world, hopData, cycle, 0)
    ensures Holds(cfg, world, hopData, cycle + 1, 0)
  {
    forall t: nat
      ensures Samples(cfg, world, t, cycle + 1) == Samples(cfg, world, t, cycle)
    {
      SamplesEnd(cfg, world, t, cycle, cycle + 1);
    }
  }

  /** Once a check has stopped the run, the lists are what they will be. */
  lemma StopsHere(cfg: Config, world: World, hopData: map<nat, seq<int>>, cycle: nat, n: nat)
    requires cycle < Cycles(cfg) && Holds(cfg, world, hopData, n, 0)
    requires !ClearCycle(cfg, world, cycle, cfg.maxHops)
    requires n == cycle + 1 || (n == cycle && world.cancelled(cycle, 0))
    ensures Holds(cfg, world, hopData, Cycles(cfg), 0)
    ensures !Clear(cfg, world, Cycles(cfg))
  {
    forall t: nat
      ensures Samples(cfg, world, t, Cycles(cfg)) == Samples(cfg, world, t, n)
    {
      forall c: nat | n <= c
        ensures !Visited(cfg, world, c, t)
      {
        if c > cycle {
          assert !Clear(cfg, world, c);
        }
      }
      SamplesEnd(cfg, world, t, n, Cycles(cfg));
    }
  }

  /** One more sample in the list of its TTL. */
  lemma HoldsNext(cfg: Config, world: World, hopData: map<nat, seq<int>>, n: nat, ttl: nat)
    requires Holds(cfg, world, hopData, n, ttl) && Visited(cfg, world, n, ttl)
    ensures Holds(cfg, world,
                  hopData[ttl := (if ttl in hopData then hopData[ttl] else []) + [Sample(cfg, world, n, ttl)]], n, ttl + 1)
  {
  }

  /** One cycle that listens: the inner loop, with the hops it would create if it is the first. */
  method Cycle(cfg: Config, world: World, cycle: nat, data: map<nat, seq<int>>)
    returns (hopData: map<nat, seq<int>>, hops: seq<Hop>, stop: bool)
    requires cycle < cfg.cycles && world.listens(cycle)
    requires Clear(cfg, world, cycle) && !world.cancelled(cycle, 0)
    requires Holds(cfg, world, data, cycle, 0)
    ensures Holds(cfg, world, hopData, cycle + 1, 0)
    ensures stop ==> exists t: nat :: 1 <= t <= cfg.maxHops && world.cancelled(cycle, t)
    ensures !stop ==> Clear(cfg, world, cycle + 1)
    ensures Numbered(hops) && forall t: nat :: 1 <= t <= |hops| <==> Visited(cfg, world, cycle, t)
  {
    hopData, hops := data, [];
    var ttl: nat := 1;
    while ttl <= cfg.maxHops
      invariant 1 <= ttl && (ttl <= cfg.maxHops + 1 || ttl == 1)
      invariant forall u: nat :: 1 <= u < ttl ==> !world.cancelled(cycle, u)
      invariant Holds(cfg, world, hopData, cycle, ttl)
      invariant |hops| == ttl - 1 && Numbered(hops)
      decreases cfg.maxHops - ttl
    {
      if world.cancelled(cycle, ttl) {
        CycleEnds(cfg, world, hopData, cycle, ttl);
        return hopData, hops, true;
      }
      assert Visited(cfg, world, cycle, ttl);
      var rtt := match world.probe(cycle, ttl) case Rtt(d) => d case Lost => cfg.timeout;
      HoldsNext(cfg, world, hopData, cycle, ttl);
      hopData := hopData[ttl := (if ttl in hopData then hopData[ttl] else []) + [rtt]];
      hops := hops + [Hop(ttl, HopStatsOf([], 0))];
      ttl := ttl + 1;
    }
    CycleEnds(cfg, world, hopData, cycle, ttl);
    stop := false;
  }

  lemma CycleEnds(cfg: Config, world: World, hopData: map<nat, seq<int>>, cycle: nat, ttl: nat)
    requires Holds(cfg, world, hopData, cycle, ttl)
    requires forall u: nat :: u >= ttl ==> !Visited(cfg, world, cycle, u)
    ensures Holds(cfg, world, hopData, cycle + 1, 0)
  {
    forall t: nat | t >= ttl
      ensures Samples(cfg, world, t, cycle + 1) == Samples(cfg, world, t, cycle)
    {
      SamplesEnd(cfg, world, t, cycle, cycle + 1);
    }
  }

  /** `finalize`: the figures of every hop from its samples. It reports the configured number of cycles, also
      when fewer were run. */
  method Finalize(cfg: Config, world: World, result: MtrResult, hopData: map<nat, seq<int>>)
    requires Numbered(result.hops)
    requires Holds(cfg, world, hopData, Cycles(cfg), 0)
    requires forall t: nat :: 1 <= t <= |result.hops| ==> Visited(cfg, world, 0, t)
    modifies result
    ensures !result.running && result.cycles == cfg.cycles
    ensures |result.hops| == old(|result.hops|) && Numbered(result.hops)
    ensures forall i :: 0 <= i < |result.hops| ==>
              result.hops[i].stats == HopStatsOf(Samples(cfg, world, i + 1, Cycles(cfg)), cfg.timeout)
  {
    result.running := false;
    result.cycles := cfg.cycles;
    for i := 0 to |result.hops|
      invariant !result.running && result.cycles == cfg.cycles
      invariant |result.hops| == old(|result.hops|) && Numbered(result.hops)
      invariant forall j :: 0 <= j < i ==>
                  result.hops[j].stats == HopStatsOf(Samples(cfg, world, j + 1, Cycles(cfg)), cfg.timeout)
    {
      var ttl := result.hops[i].number;
      assert ttl == i + 1 && Visited(cfg, world, 0, ttl);
      VisitMeansSample(cfg, world, 0, ttl, Cycles(cfg));
      if ttl in hopData {
        var stats := CalculateStats(hopData[ttl], cfg.timeout);
        result.hops := result.hops[i := result.hops[i].(stats := stats)];
      }
    }
  }

  // ---- What the counts mean ----

  function Listened(world: World, n: nat): nat {
    if n == 0 then 0 else Listened(world, n - 1) + if world.listens(n - 1) then 1 else 0
  }

  /** Without a cancellation every TTL has been probed once in each cycle that listened. */
  lemma {:induction false} UncancelledSent(cfg: Config, world: World, t: nat, n: nat)
    requires n <= Cycles(cfg) && Clear(cfg, world, Cycles(cfg)) && 1 <= t <= cfg.maxHops
    ensures |Samples(cfg, world, t, n)| == Listened(world, n)
  {
    if n > 0 {
      UncancelledSent(cfg, world, t, n - 1);
      assert ClearCycle(cfg, world, n - 1, cfg.maxHops);
    }
  }

  /** Whatever the cancellation, the counts do not grow with the TTL and differ by at most one; they differ
      only if the run was stopped between the two in its last cycle. */
  lemma {:induction false} SentFalls(cfg: Config, world: World, t: nat, u: nat, n: nat)
    requires 1 <= t <= u <= cfg.maxHops
    ensures |Samples(cfg, world, u, n)| <= |Samples(cfg, world, t, n)| <= |Samples(cfg, world, u, n)| + 1
    ensures |Samples(cfg, world, t, n)| != |Samples(cfg, world, u, n)| ==> !Clear(cfg, world, n)
  {
    if n > 0 {
      SentFalls(cfg, world, t, u, n - 1);
      if Visited(cfg, world, n - 1, u) {
        assert Visited(cfg, world, n - 1, t);
      } else if Visited(cfg, world, n - 1, t) {
        assert !ClearCycle(cfg, world, n - 1, u);
        assert !ClearCycle(cfg, world, n - 1, cfg.maxHops);
      }
      if !Clear(cfg, world, n - 1) {
        assert !Clear(cfg, world, n);
      }
    }
  }

  /** The `Sent` column of any report falls by at most one in all from the first hop to the last; without a
      cancellation, and if the first cycle listened, every TTL has a hop and was sent one probe in each cycle
      that listened. */
  lemma SentColumn(cfg: Config, world: World, hops: seq<Hop>)
    requires Reported(cfg, world, hops)
    ensures forall i, j :: 0 <= i <= j < |hops| ==> hops[j].stats.sent <= hops[i].stats.sent <= hops[j].stats.sent + 1
    ensures Clear(cfg, world, Cycles(cfg)) && Cycles(cfg) > 0 && world.listens(0) ==>
              && |hops| == (if cfg.maxHops > 0 then cfg.maxHops else 0)
              && forall i :: 0 <= i < |hops| ==> hops[i].stats.sent == Listened(world, Cycles(cfg))
  {
    assert |hops| > 0 ==> Visited(cfg, world, 0, |hops|);
    assert |hops| > 0 ==> |hops| <= cfg.maxHops;
    forall i: nat, j: nat | i <= j < |hops|
      ensures hops[j].stats.sent <= hops[i].stats.sent <= hops[j].stats.sent + 1
    {
      SentFalls(cfg, world, i + 1, j + 1, Cycles(cfg));
    }
    if Clear(cfg, world, Cycles(cfg)) && Cycles(cfg) > 0 && world.listens(0) {
      assert ClearCycle(cfg, world, 0, cfg.maxHops);
      if cfg.maxHops > 0 {
        var top: nat := cfg.maxHops;
        assert Visited(cfg, world, 0, top);
        assert top <= |hops|;
      }
      forall i: nat | i < |hops|
        ensures hops[i].stats.sent == Listened(world, Cycles(cfg))
      {
        UncancelledSent(cfg, world, i + 1, Cycles(cfg));
      }
    }
  }

  lemma {:induction false} SampleMeansVisit(cfg: Config, world: World, t: nat, n: nat)
    ensures Samples(cfg, world, t, n) != [] ==> exists c: nat :: c < n && Visited(cfg, world, c, t)
  {
    if n > 0 {
      SampleMeansVisit(cfg, world, t, n - 1);
    }
  }

  /** Some cycle opens its socket and gets as far as its first probe. */
  ghost predicate FirstProbeMade(cfg: Config, world: World) {
    exists c: nat ::
      c < cfg.cycles && world.listens(c) && Clear(cfg, world, c) && !world.cancelled(c, 0) && !world.cancelled(c, 1)
  }

  /** Hops are created in the first cycle only: if that does not listen, the report is empty whatever the
      others find. So the report has every TTL that was probed exactly when the first cycle listened, or no
      cycle made a probe. */
  lemma ReportCoversProbesIff(cfg: Config, world: World, hops: seq<Hop>)
    requires Reported(cfg, world, hops)
    ensures (forall t: nat :: Samples(cfg, world, t, Cycles(cfg)) != [] ==> 1 <= t <= |hops|)
            <==> (world.listens(0) || cfg.maxHops < 1 || !FirstProbeMade(cfg, world))
    ensures !world.listens(0) ==> hops == []
  {
    assert |hops| > 0 ==> Visited(cfg, world, 0, |hops|);
    if world.listens(0) || cfg.maxHops < 1 || !FirstProbeMade(cfg, world) {
      forall t: nat | Samples(cfg, world, t, Cycles(cfg)) != []
        ensures 1 <= t <= |hops|
      {
        SampleMeansVisit(cfg, world, t, Cycles(cfg));
        var c: nat :| c < Cycles(cfg) && Visited(cfg, world, c, t);
        assert FirstProbeMade(cfg, world);
        if c > 0 {
          assert ClearCycle(cfg, world, 0, cfg.maxHops);
        }
        assert Visited(cfg, world, 0, t);
      }
    } else {
      var c: nat :|
        c < cfg.cycles && world.listens(c) && Clear(cfg, world, c) && !world.cancelled(c, 0) && !world.cancelled(c, 1);
      VisitMeansSample(cfg, world, c, 1, Cycles(cfg));
      assert Samples(cfg, world, 1, Cycles(cfg)) != [];
    }
  }

  // ---- What the figures mean ----

  /** The context is not done at any check before the probe of TTL `t` in cycle `c`. */
  ghost predicate NeverDoneBefore(cfg: Config, world: World, c: nat, t: nat) {
    && (forall b: nat :: b <= c ==> !world.cancelled(b, 0))
    && (forall b: nat, u: nat :: b < c && world.listens(b) && 1 <= u <= cfg.maxHops ==> !world.cancelled(b, u))
    && (forall u: nat :: 1 <= u <= t ==> !world.cancelled(c, u))
  }

  /** No check of the first `n` cycles sees the context done. */
  lemma ClearIff(cfg: Config, world: World, n: nat)
    ensures Clear(cfg, world, n) <==>
            && (forall b: nat :: b < n ==> !world.cancelled(b, 0))
            && (forall b: nat, u: nat :: b < n && world.listens(b) && 1 <= u <= cfg.maxHops ==> !world.cancelled(b, u))
  {
    if Clear(cfg, world, n) {
      forall b: nat | b < n
        ensures !world.cancelled(b, 0)
        ensures forall u: nat :: world.listens(b) && 1 <= u <= cfg.maxHops ==> !world.cancelled(b, u)
      {
        assert ClearCycle(cfg, world, b, cfg.maxHops);
      }
    }
  }

  /** The probes that are made: in a listening cycle, while no check has seen the context done. */
  lemma VisitedIff(cfg: Config, world: World, c: nat, t: nat)
    ensures Visited(cfg, world, c, t) <==>
            c < cfg.cycles && 1 <= t <= cfg.maxHops && world.listens(c) && NeverDoneBefore(cfg, world, c, t)
  {
    if world.listens(c) && NeverDoneBefore(cfg, world, c, t) {
      assert forall b: nat :: b < c ==> ClearCycle(cfg, world, b, cfg.maxHops);
    } else if Visited(cfg, world, c, t) {
      forall b: nat | b < c
        ensures !world.cancelled(b, 0)
        ensures forall u: nat :: world.listens(b) && 1 <= u <= cfg.maxHops ==> !world.cancelled(b, u)
      {
        assert ClearCycle(cfg, world, b, cfg.maxHops);
      }
    }
  }

  function Numbers(n: nat): (s: seq<nat>)
    ensures |s| == n && forall c :: 0 <= c < n ==> s[c] == c
  {
    seq(n, c => c)
  }

  /** The probe is made and answered before the timeout. */
  ghost predicate InTime(cfg: Config, world: World, c: nat, t: nat) {
    Visited(cfg, world, c, t) && world.probe(c, t).Rtt? && world.probe(c, t).d < cfg.timeout
  }

  lemma {:induction false} SampleIsReply(cfg: Config, world: World, t: nat, n: nat, x: int)
    ensures x in Samples(cfg, world, t, n) <==>
            exists c: nat :: c < n && Visited(cfg, world, c, t)
              && x == if world.probe(c, t).Rtt? then world.probe(c, t).d else cfg.timeout
  {
    if n > 0 {
      SampleIsReply(cfg, world, t, n - 1, x);
    }
  }

  /** A sum over the samples, as a sum over the cycles. */
  lemma {:induction false} SamplesTotal(cfg: Config, world: World, t: nat, n: nat, f: int -> int)
    ensures Total(f, Samples(cfg, world, t, n))
            == Total((c: nat) => if Visited(cfg, world, c, t) then f(Sample(cfg, world, c, t)) else 0, Numbers(n))
  {
    if n > 0 {
      SamplesTotal(cfg, world, t, n - 1, f);
      assert Numbers(n) == Numbers(n - 1) + [n - 1];
      TotalExtend<nat>((c: nat) => if Visited(cfg, world, c, t) then f(Sample(cfg, world, c, t)) else 0, Numbers(n - 1), n - 1);
      if Visited(cfg, world, n - 1, t) {
        TotalExtend(f, Samples(cfg, world, t, n - 1), Sample(cfg, world, n - 1, t));
      } else {
        assert Samples(cfg, world, t, n) == Samples(cfg, world, t, n - 1);
      }
    }
  }

  /** A sum over the samples below the timeout, as a sum over the answers in time. */
  lemma {:induction false} InTimeTotal(cfg: Config, world: World, t: nat, n: nat, g: int -> int, f: int -> int)
    requires forall x: int :: g(x) == if x < cfg.timeout then f(x) else 0
    requires n <= Cycles(cfg)
    ensures Total(g, Samples(cfg, world, t, n))
            == Total((c: nat) => if InTime(cfg, world, c, t) then f(world.probe(c, t).d) else 0, Numbers(n))
  {
    SamplesTotal(cfg, world, t, n, g);
    var bySample := (c: nat) => if Visited(cfg, world, c, t) then g(Sample(cfg, world, c, t)) else 0;
    var byReply := (c: nat) => if InTime(cfg, world, c, t) then f(world.probe(c, t).d) else 0;
    forall k | 0 <= k < n
      ensures bySample(Numbers(n)[k]) == byReply(Numbers(n)[k])
    {
      assert g(Sample(cfg, world, k, t)) == if Sample(cfg, world, k, t) < cfg.timeout then f(Sample(cfg, world, k, t)) else 0;
    }
    TotalSame(bySample, byReply, Numbers(n));
  }

  /** The extremes of a hop are times of answers to its probes that came in time, and bound all of them. */
  lemma {:induction false} ReportedExtremes(cfg: Config, world: World, hops: seq<Hop>, t: nat)
    requires Reported(cfg, world, hops) && 1 <= t <= |hops|
    requires exists c: nat :: InTime(cfg, world, c, t)
    ensures var s := hops[t - 1].stats;
      && (forall c: nat :: Visited(cfg, world, c, t) && world.probe(c, t).Rtt? && world.probe(c, t).d < cfg.timeout ==>
            s.min <= world.probe(c, t).d <= s.max)
      && (exists c: nat :: InTime(cfg, world, c, t) && world.probe(c, t).d == s.min)
      && (exists c: nat :: InTime(cfg, world, c, t) && world.probe(c, t).d == s.max)
  {
    var rtts := Samples(cfg, world, t, Cycles(cfg));
    SomeAnswer(cfg, world, t);
    HopFigures(rtts, cfg.timeout);
    var s := hops[t - 1].stats;
    SampleIsReply(cfg, world, t, Cycles(cfg), s.min);
    SampleIsReply(cfg, world, t, Cycles(cfg), s.max);
    forall c: nat | Visited(cfg, world, c, t) && world.probe(c, t).Rtt? && world.probe(c, t).d < cfg.timeout
      ensures s.min <= world.probe(c, t).d <= s.max
    {
      SampleIsReply(cfg, world, t, Cycles(cfg), world.probe(c, t).d);
    }
  }

  lemma {:induction false} SomeAnswer(cfg: Config, world: World, t: nat)
    requires exists c: nat :: InTime(cfg, world, c, t)
    ensures var rtts := Samples(cfg, world, t, Cycles(cfg)); exists k :: 0 <= k < |rtts| && rtts[k] < cfg.timeout
  {
    var c: nat :| InTime(cfg, world, c, t);
    SampleIsReply(cfg, world, t, Cycles(cfg), world.probe(c, t).d);
  }

  /** Its mean is that of the answers in time, and its jitter their mean distance from it. */
  lemma {:induction false} ReportedMeans(cfg: Config, world: World, hops: seq<Hop>, t: nat)
    requires Reported(cfg, world, hops) && 1 <= t <= |hops|
    requires exists c: nat :: InTime(cfg, world, c, t)
    ensures var s, all := hops[t - 1].stats, Numbers(Cycles(cfg));
      var n := Total((c: nat) => if InTime(cfg, world, c, t) then 1 else 0, all);
      && n > 0
      && s.avg == GoDiv(Total((c: nat) => if InTime(cfg, world, c, t) then world.probe(c, t).d else 0, all), n)
      && s.jitter == GoDiv(Total((c: nat) =>
           if !InTime(cfg, world, c, t) then 0
           else if world.probe(c, t).d >= s.avg then world.probe(c, t).d - s.avg
           else s.avg - world.probe(c, t).d, all), n)
  {
    var s := hops[t - 1].stats;
    SomeAnswer(cfg, world, t);
    HopFigures(Samples(cfg, world, t, Cycles(cfg)), cfg.timeout);
    CountInTime(cfg, world, t);
    SumInTime(cfg, world, t);
    DeviationInTime(cfg, world, t, s.avg);
  }

  lemma {:induction false} CountInTime(cfg: Config, world: World, t: nat)
    ensures Total(x => if x < cfg.timeout then 1 else 0, Samples(cfg, world, t, Cycles(cfg)))
            == Total((c: nat) => if InTime(cfg, world, c, t) then 1 else 0, Numbers(Cycles(cfg)))
  {
    var one := (x: int) => 1;
    InTimeTotal(cfg, world, t, Cycles(cfg), x => if x < cfg.timeout then 1 else 0, one);
    TotalSame((c: nat) => if InTime(cfg, world, c, t) then one(world.probe(c, t).d) else 0,
              (c: nat) => if InTime(cfg, world, c, t) then 1 else 0, Numbers(Cycles(cfg)));
  }

  lemma {:induction false} SumInTime(cfg: Config, world: World, t: nat)
    ensures Total(x => if x < cfg.timeout then x else 0, Samples(cfg, world, t, Cycles(cfg)))
            == Total((c: nat) => if InTime(cfg, world, c, t) then world.probe(c, t).d else 0, Numbers(Cycles(cfg)))
  {
    var f := (x: int) => x;
    InTimeTotal(cfg, world, t, Cycles(cfg), x => if x < cfg.timeout then x else 0, f);
    TotalSame((c: nat) => if InTime(cfg, world, c, t) then f(world.probe(c, t).d) else 0,
              (c: nat) => if InTime(cfg, world, c, t) then world.probe(c, t).d else 0, Numbers(Cycles(cfg)));
  }

  lemma {:induction false} DeviationInTime(cfg: Config, world: World, t: nat, a: int)
    ensures Total(x => if x >= cfg.timeout then 0 else if x >= a then x - a else a - x, Samples(cfg, world, t, Cycles(cfg)))
            == Total((c: nat) =>
                 if !InTime(cfg, world, c, t) then 0
                 else if world.probe(c, t).d >= a then world.probe(c, t).d - a
                 else a - world.probe(c, t).d, Numbers(Cycles(cfg)))
  {
    var f := x => if x >= a then x - a else a - x;
    InTimeTotal(cfg, world, t, Cycles(cfg), x => if x >= cfg.timeout then 0 else if x >= a then x - a else a - x, f);
    TotalSame((c: nat) => if InTime(cfg, world, c, t) then f(world.probe(c, t).d) else 0,
              (c: nat) =>
                if !InTime(cfg, world, c, t) then 0
                else if world.probe(c, t).d >= a then world.probe(c, t).d - a
                else a - world.probe(c, t).d, Numbers(Cycles(cfg)));
  }

  /** The other columns: the probes made, the last reply, which shows as 0 if it was late or missing, and what is
      shown of a hop that never answered in time. */
  lemma {:induction false} ReportedRest(cfg: Config, world: World, hops: seq<Hop>, t: nat)
    requires Reported(cfg, world, hops) && 1 <= t <= |hops|
    ensures var s := hops[t - 1].stats;
      && s.sent == Total((c: nat) => if Visited(cfg, world, c, t) then 1 else 0, Numbers(Cycles(cfg)))
      && (forall c: nat :: Visited(cfg, world, c, t) && (forall later: nat :: later > c ==> !Visited(cfg, world, later, t)) ==>
            s.last == if world.probe(c, t).Rtt? && world.probe(c, t).d < cfg.timeout then world.probe(c, t).d else 0)
      && ((forall c: nat :: !InTime(cfg, world, c, t)) ==>
            s.loss == 100.0 && s.last == 0 && s.min == 0 && s.max == 0 && s.avg == 0 && s.jitter == 0)
  {
    var rtts := Samples(cfg, world, t, Cycles(cfg));
    assert rtts != [] by {
      assert Visited(cfg, world, 0, t);
      VisitMeansSample(cfg, world, 0, t, Cycles(cfg));
    }
    HopWithoutReplies(rtts, cfg.timeout);
    SamplesCount(cfg, world, t, Cycles(cfg));
    forall c: nat | Visited(cfg, world, c, t) && forall later: nat :: later > c ==> !Visited(cfg, world, later, t)
      ensures rtts[|rtts| - 1] == Sample(cfg, world, c, t)
    {
      SamplesEnd(cfg, world, t, c + 1, Cycles(cfg));
    }
    if forall c: nat :: !InTime(cfg, world, c, t) {
      NoneInTime(cfg, world, t);
    }
  }

  lemma {:induction false} NoneInTime(cfg: Config, world: World, t: nat)
    requires forall c: nat :: !InTime(cfg, world, c, t)
    ensures var rtts := Samples(cfg, world, t, Cycles(cfg)); forall k :: 0 <= k < |rtts| ==> rtts[k] >= cfg.timeout
  {
    var rtts := Samples(cfg, world, t, Cycles(cfg));
    forall k | 0 <= k < |rtts|
      ensures rtts[k] >= cfg.timeout
    {
      SampleIsReply(cfg, world, t, Cycles(cfg), rtts[k]);
      var c: nat :| Visited(cfg, world, c, t) && rtts[k] == if world.probe(c, t).Rtt? then world.probe(c, t).d else cfg.timeout;
      assert !InTime(cfg, world, c, t);
    }
  }

  lemma {:induction false} SamplesCount(cfg: Config, world: World, t: nat, n: nat)
    ensures |Samples(cfg, world, t, n)| == Total((c: nat) => if Visited(cfg, world, c, t) then 1 else 0, Numbers(n))
  {
    var one := (x: int) => 1;
    SamplesTotal(cfg, world, t, n, one);
    TotalWithin(one, Samples(cfg, world, t, n), 1, 1);
    TotalSame((c: nat) => if Visited(cfg, world, c, t) then one(Sample(cfg, world, c, t)) else 0,
              (c: nat) => if Visited(cfg, world, c, t) then 1 else 0, Numbers(n));
  }

  // ---- What the loss means ----

  /** The reported loss of a hop is the share of its probes that were not answered before the timeout: a
      failure, recorded as the timeout itself, counts, and so does an answer that came too late. */
  lemma LossIsUnanswered(cfg: Config, world: World, hops: seq<Hop>, t: nat)
    requires Reported(cfg, world, hops) && 1 <= t <= |hops|
    ensures var s := hops[t - 1].stats;
      var answered := Total((c: nat) => if InTime(cfg, world, c, t) then 1 else 0, Numbers(Cycles(cfg)));
      s.sent > 0 && s.loss == Ping.Loss(s.sent, answered)
  {
    var rtts := Samples(cfg, world, t, Cycles(cfg));
    assert rtts != [] by {
      assert Visited(cfg, world, 0, t);
      VisitMeansSample(cfg, world, 0, t, Cycles(cfg));
    }
    CountInTime(cfg, world, t);
    ValidCount(rtts, cfg.timeout);
    LossOfHop(rtts, cfg.timeout);
  }

  lemma {:induction false} FailureIsSampled(cfg: Config, world: World, t: nat, c: nat, n: nat)
    requires c < n && Visited(cfg, world, c, t) && world.probe(c, t) == Lost
    ensures cfg.timeout in Samples(cfg, world, t, n)
  {
    if c < n - 1 {
      FailureIsSampled(cfg, world, t, c, n - 1);
    }
  }

  /** With a timeout below five seconds the live display after `n` cycles shows a lower loss than the report
      would, for every hop that has had a failure: it takes the failure for an answer. */
  lemma LiveDisplayHidesFailures(cfg: Config, world: World, t: nat, c: nat, n: nat)
    requires c < n && Visited(cfg, world, c, t) && world.probe(c, t) == Lost && cfg.timeout < LIVE
    ensures HopStatsOf(Samples(cfg, world, t, n), LIVE).loss < HopStatsOf(Samples(cfg, world, t, n), cfg.timeout).loss
  {
    FailureIsSampled(cfg, world, t, c, n);
    LiveLossAgreesIff(Samples(cfg, world, t, n), cfg.timeout);
  }
}
