/** The loop of `runTCPing` in `cmd/netcheck`. */
module TcPing {
  import opened Folds
  import opened Summary
  import opened Wrappers

  /** What the loop prints when it is interrupted. `DividesByZero` is the run-time fault of an integer division. */
  datatype Ending =
    | Nothing
    | DividesByZero
    | Report(total: nat, success: nat, fail: nat, loss: real, min: int, avg: int, max: int)

  /** The latencies of the probes that got through, in order. */
  function Connected(probes: seq<Option<nat>>): seq<int> {
    if probes == [] then []
    else
      var last := probes[|probes| - 1];
      if last.Some? then Connected(probes[..|probes| - 1]) + [last.value] else Connected(probes[..|probes| - 1])
  }

  lemma ConnectedExtend(probes: seq<Option<nat>>, x: Option<nat>)
    ensures Connected(probes + [x]) == if x.Some? then Connected(probes) + [x.value] else Connected(probes)
  {
    assert (probes + [x])[..|probes|] == probes;
  }

  /** The probes at these positions got through, with these latencies. */
  ghost predicate HasLatencies(probes: seq<Option<nat>>, at: seq<nat>, latencies: seq<int>) {
    && |at| == |latencies|
    && forall k :: 0 <= k < |at| ==> at[k] < |probes| && probes[at[k]].Some? && probes[at[k]].value == latencies[k]
  }

  /** They are those of all the probes that got through, and of no others. */
  lemma {:induction false} ConnectedAreProbes(probes: seq<Option<nat>>) returns (at: seq<nat>)
    ensures Positions(at, |probes|) && HasLatencies(probes, at, Connected(probes))
    ensures forall i :: 0 <= i < |probes| && probes[i].Some? ==> i in at
  {
    at := [];
    if probes != [] {
      var init := probes[..|probes| - 1];
      var earlier := ConnectedAreProbes(init);
      PositionsExtend(earlier, |init|);
      assert HasLatencies(probes, earlier, Connected(init));
      at := earlier;
      if probes[|init|].Some? {
        at := earlier + [|init|];
      }
      assert HasLatencies(probes, at, Connected(probes));
      forall i | 0 <= i < |probes| && probes[i].Some?
        ensures i in at
      {
        if i < |init| {
          assert init[i] == probes[i];
        }
      }
    }
  }

  /** The loop of `runTCPing` over the probes made before the interrupt, and its closing statistics. They
      divide by the number of successes whenever there was a probe, so they fault exactly when there were
      probes and none got through; otherwise they are the summary of the ones that did. */
  method Run(probes: seq<Option<nat>>) returns (e: Ending)
    ensures e == Nothing <==> probes == []
    ensures e == DividesByZero <==> probes != [] && forall i :: 0 <= i < |probes| ==> probes[i].None?
    ensures e.Report? <==> Connected(probes) != []
    ensures e.Report? ==>
      var s := Connected(probes);
      && e.total == |probes| && e.success == |s| && e.fail == |probes| - |s|
      && e.loss == e.fail as real / e.total as real * 100.0
      && e.min == Min(s) && e.avg == Average(s) && e.max == Max(s)
  {
    var total, success, fail: nat := 0, 0, 0;
    var minLat, maxLat, totalLat: int := 0, 0, 0;
    for k := 0 to |probes|
      invariant total == k && success == |Connected(probes[..k])| && fail == k - success
      invariant totalLat == Sum(Connected(probes[..k]))
      invariant success > 0 ==> minLat == Min(Connected(probes[..k])) && maxLat == Max(Connected(probes[..k]))
      invariant success == 0 <==> forall i :: 0 <= i < k ==> probes[i].None?
    {
      assert probes[..k + 1] == probes[..k] + [probes[k]];
      ConnectedExtend(probes[..k], probes[k]);
      total := total + 1;
      match probes[k]
      case None => fail := fail + 1;
      case Some(latency) =>
        Extend(Connected(probes[..k]), latency);
        success := success + 1;
        if success == 1 {
          minLat := latency;
          maxLat := latency;
        } else {
          if latency < minLat {
            minLat := latency;
          }
          if latency > maxLat {
            maxLat := latency;
          }
        }
        totalLat := totalLat + latency;
    }
    assert probes[..|probes|] == probes;
    if total > 0 {
      if success == 0 {
        return DividesByZero;
      }
      var avgLat := GoDiv(totalLat, success);
      return Report(total, success, fail, fail as real / total as real * 100.0, minLat, avgLat, maxLat);
    }
    e := Nothing;
  }
}
