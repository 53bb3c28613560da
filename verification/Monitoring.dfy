/** `monitoring.Monitor`: `Start`, which keeps a complete log beside a lossy bounded channel, and `Result`. */
module Monitoring {
  import opened Folds
  import opened Summary

  datatype DataPoint = DataPoint(latency: nat, available: bool)

  const HOUR: nat := 3_600_000_000_000

  datatype MonitorResult = MonitorResult(
    avg: int, min: int, max: int, uptime: real, failures: nat, total: nat)

  /** The latencies of the available points, in order. */
  function Available(data: seq<DataPoint>): seq<int> {
    if data == [] then []
    else
      var last := data[|data| - 1];
      if last.available then Available(data[..|data| - 1]) + [last.latency] else Available(data[..|data| - 1])
  }

  lemma AvailableExtend(data: seq<DataPoint>, dp: DataPoint)
    ensures Available(data + [dp]) == if dp.available then Available(data) + [dp.latency] else Available(data)
  {
    assert (data + [dp])[..|data|] == data;
  }

  /** The points at these positions are available, with these latencies. */
  ghost predicate HasLatencies(data: seq<DataPoint>, at: seq<nat>, latencies: seq<int>) {
    && |at| == |latencies|
    && forall k :: 0 <= k < |at| ==> at[k] < |data| && data[at[k]].available && data[at[k]].latency == latencies[k]
  }

  /** They are those of all the available points, and of no others. */
  lemma {:induction false} AvailableArePoints(data: seq<DataPoint>) returns (at: seq<nat>)
    ensures Positions(at, |data|) && HasLatencies(data, at, Available(data))
    ensures forall i :: 0 <= i < |data| && data[i].available ==> i in at
  {
    at := [];
    if data != [] {
      var init := data[..|data| - 1];
      var earlier := AvailableArePoints(init);
      PositionsExtend(earlier, |init|);
      assert HasLatencies(data, earlier, Available(init));
      at := earlier;
      if data[|init|].available {
        at := earlier + [|init|];
      }
      assert HasLatencies(data, at, Available(data));
      forall i | 0 <= i < |data| && data[i].available
        ensures i in at
      {
        if i < |init| {
          assert init[i] == data[i];
        }
      }
    }
  }

  // ---- The step system ----

  /** The capacity of the channel. */
  const CAPACITY: nat := 100

  /** Where the goroutine is: at the test of the count, waiting for the ticker or the context, with the point
      of a check that is not logged yet, with one that is logged and not offered yet, with one that is not
      counted yet, out of the loop, with `running` reset, or at its end with the channel closed. */
  datatype Pc = AtTop | AtSelect | Checked(dp: DataPoint) | Logged(dp: DataPoint) | Offered | Leaving | Closing | Ended

  /** A tick of the ticker with the check it leads to; the goroutine seeing the context done; its next step of
      any other kind; the context being done; a call of `Stop`; the reader taking a point. */
  datatype Label = Tick(dp: DataPoint) | SeeDone | Move | Cancel | Stop | Receive

  /** `stopped` says whether the channel `done` is closed. As in the pool, a send on a closed channel and a
      second close are a state with `panicked` set, from which nothing moves. */
  datatype MonitorState = MonitorState(
    pc: Pc,
    data: seq<DataPoint>,
    buffer: seq<DataPoint>,
    received: seq<DataPoint>,
    iterations: nat,
    running: bool,
    closed: bool,
    cancelled: bool,
    stopped: bool,
    panicked: bool)

  function Initial(): MonitorState {
    MonitorState(AtTop, [], [], [], 0, true, false, false, false, false)
  }

  predicate Enabled(s: MonitorState, a: Label) {
    && !s.panicked
    && match a
       case Tick(_) => s.pc == AtSelect
       case SeeDone => s.pc == AtSelect && s.cancelled
       case Move => s.pc != AtSelect && s.pc != Ended
       case Cancel => !s.cancelled
       case Stop => true
       case Receive => s.buffer != []
  }

  function Apply(count: int, s: MonitorState, a: Label): MonitorState
    requires Enabled(s, a)
  {
    match a
    case Tick(dp) => s.(pc := Checked(dp))
    case SeeDone => s.(pc := Leaving)
    case Move => MoveOn(count, s)
    case Cancel => s.(cancelled := true)
    case Stop => if s.running then (if s.stopped then s.(panicked := true) else s.(stopped := true)) else s
    case Receive => s.(received := s.received + [s.buffer[0]], buffer := s.buffer[1..])
  }

  function MoveOn(count: int, s: MonitorState): MonitorState
    requires s.pc != AtSelect && s.pc != Ended
  {
    match s.pc
    case AtTop => s.(pc := if count > 0 && s.iterations >= count then Leaving else AtSelect)
    case Checked(dp) => s.(pc := Logged(dp), data := s.data + [dp])
    case Logged(dp) =>
      if s.closed then s.(panicked := true)
      else s.(pc := Offered, buffer := if |s.buffer| < CAPACITY then s.buffer + [dp] else s.buffer)
    case Offered => s.(pc := AtTop, iterations := s.iterations + 1)
    case Leaving => s.(pc := Closing, running := false)
    case Closing => if s.closed then s.(panicked := true) else s.(pc := Ended, closed := true)
  }

  /** The labels can be executed one after the other from the start. */
  predicate Runs(count: int, labels: seq<Label>)
    decreases |labels|, 0
  {
    labels == [] || (Runs(count, Before(labels)) && Enabled(Play(count, Before(labels)), Last(labels)))
  }

  function Play(count: int, labels: seq<Label>): MonitorState
    requires Runs(count, labels)
    decreases |labels|, 1
  {
    if labels == [] then Initial() else Apply(count, Play(count, Before(labels)), Last(labels))
  }

  function Before(labels: seq<Label>): (init: seq<Label>)
    requires labels != []
    ensures |init| < |labels|
  {
    labels[..|labels| - 1]
  }

  function Last(labels: seq<Label>): Label
    requires labels != []
  {
    labels[|labels| - 1]
  }

  // ---- The monitor ----

  /** The monitor as the program keeps it, with its goroutine and its reader. */
  class Monitor {
    const count: int
    var data: seq<DataPoint>
    var ch: seq<DataPoint>
    var closed: bool
    var running: bool
    var stopped: bool
    var iterations: nat
    var pc: Pc
    var received: seq<DataPoint>
    var cancelled: bool
    var panicked: bool

    constructor (count: int)
      ensures this.count == count && State() == Initial().(running := false)
    {
      this.count := count;
      data, ch, received, iterations, pc := [], [], [], 0, AtTop;
      closed, running, stopped, cancelled, panicked := false, false, false, false, false;
    }

    function State(): MonitorState
      reads this
    {
      MonitorState(pc, data, ch, received, iterations, running, closed, cancelled, stopped, panicked)
    }

    /** A send that gives way when the channel is full. */
    method Offer(dp: DataPoint)
      requires !closed
      modifies this`ch
      ensures ch == if |old(ch)| < CAPACITY then old(ch) + [dp] else old(ch)
    {
      if |ch| < CAPACITY {
        ch := ch + [dp];
      }
    }

    /** The goroutine of `Start` with its reader, its context and the callers of `Stop`, in any order. */
    method Start(labels: seq<Label>)
      requires State() == Initial().(running := false) && Runs(count, labels)
      modifies this
      ensures State() == Play(count, labels)
    {
      running := true;
      assert labels[..0] == [];
      for k := 0 to |labels|
        invariant Runs(count, labels[..k]) && State() == Play(count, labels[..k])
      {
        RunsPrefix(count, labels, k + 1);
        assert Before(labels[..k + 1]) == labels[..k];
        Act(labels[k]);
      }
      assert labels[..|labels|] == labels;
    }

    method Act(a: Label)
      requires Enabled(State(), a)
      modifies this
      ensures State() == Apply(count, old(State()), a)
    {
      match a
      case Tick(dp) => pc := Checked(dp);
      case SeeDone => pc := Leaving;
      case Move => Proceed();
      case Cancel => cancelled := true;
      case Stop =>
        if running {
          if stopped {
            panicked := true;
          } else {
            stopped := true;
          }
        }
      case Receive => received, ch := received + [ch[0]], ch[1..];
    }

    /** What the goroutine does from one place at which others may come in to the next. */
    method Proceed()
      requires pc != AtSelect && pc != Ended
      modifies this
      ensures State() == MoveOn(count, old(State()))
    {
      match pc
      case AtTop => pc := if count > 0 && iterations >= count then Leaving else AtSelect;
      case Checked(dp) => data, pc := data + [dp], Logged(dp);
      case Logged(dp) =>
        if closed {
          panicked := true;
        } else {
          Offer(dp);
          pc := Offered;
        }
      case Offered => iterations, pc := iterations + 1, AtTop;
      case Leaving => running, pc := false, Closing;
      case Closing =>
        if closed {
          panicked := true;
        } else {
          closed, pc := true, Ended;
        }
    }

    /** `Monitor.Result`. The minimum starts from an hour and the maximum from 0, the zero latency. */
    method Result() returns (r: MonitorResult)
      ensures data == [] ==> r == MonitorResult(0, 0, 0, 0.0, 0, 0)
      ensures r.total == |data| && r.failures == |data| - |Available(data)|
      ensures data != [] ==> r.uptime == |Available(data)| as real / |data| as real * 100.0
      ensures data != [] && Available(data) == [] ==> r.avg == 0 && r.min == 3_600_000_000_000 && r.max == 0
      ensures Available(data) != [] ==> r.avg == Average(Available(data)) && r.max == Max(Available(data))
      ensures Available(data) != [] ==>
                r.min == if Min(Available(data)) < 3_600_000_000_000 then Min(Available(data)) else 3_600_000_000_000
    {
      if |data| == 0 {
        return MonitorResult(0, 0, 0, 0.0, 0, 0);
      }
      var failures: nat := 0;
      var min, max, total: int := HOUR, 0, 0;
      for k := 0 to |data|
        invariant failures == k - |Available(data[..k])|
        invariant total == Sum(Available(data[..k])) && max >= 0
        invariant Available(data[..k]) == [] ==> min == HOUR && max == 0
        invariant Available(data[..k]) != [] ==>
                    && max == Max(Available(data[..k]))
                    && min == if Min(Available(data[..k])) < HOUR then Min(Available(data[..k])) else HOUR
      {
        var dp := data[k];
        ghost var seen := Available(data[..k]);
        assert data[..k + 1] == data[..k] + [dp];
        AvailableExtend(data[..k], dp);
        if !dp.available {
          failures := failures + 1;
          continue;
        }
        Extend(seen, dp.latency);
        total := total + dp.latency;
        if dp.latency < min {
          min := dp.latency;
        }
        if dp.latency > max {
          max := dp.latency;
        }
      }
      assert data[..|data|] == data;
      var successCount := |data| - failures;
      var avg := 0;
      if successCount > 0 {
        avg := GoDiv(total, successCount);
      }
      r := MonitorResult(avg, min, max, successCount as real / |data| as real * 100.0, failures, |data|);
    }
  }

  lemma {:induction false} RunsPrefix(count: int, labels: seq<Label>, k: nat)
    requires Runs(count, labels) && k <= |labels|
    ensures Runs(count, labels[..k])
    decreases |labels|
  {
    if k == |labels| {
      assert labels[..k] == labels;
    } else {
      RunsPrefix(count, Before(labels), k);
      assert Before(labels)[..k] == labels[..k];
    }
  }

  // ---- Control ----

  predicate InLoop(pc: Pc) {
    pc == AtTop || pc == AtSelect || pc.Checked? || pc.Logged? || pc == Offered
  }

  /** What holds wherever the goroutine is. It leaves the loop only when it has seen the context done or has
      made as many checks as it was asked for; `running` is reset before the channel is closed. */
  predicate Controlled(count: int, s: MonitorState) {
    && (s.running <==> InLoop(s.pc) || s.pc == Leaving)
    && (s.closed <==> s.pc == Ended)
    && |s.data| == s.iterations + (if s.pc.Logged? || s.pc == Offered then 1 else 0)
    && (count > 0 ==> s.iterations <= count)
    && (count > 0 && InLoop(s.pc) && s.pc != AtTop ==> s.iterations < count)
    && (!InLoop(s.pc) ==> s.cancelled || (count > 0 && s.iterations == count))
    && (s.panicked ==> s.stopped && s.running)
  }

  lemma {:induction false} StepKeepsControl(count: int, s: MonitorState, a: Label)
    requires Controlled(count, s) && Enabled(s, a)
    ensures Controlled(count, Apply(count, s, a))
  {
  }

  lemma {:induction false} ControlIsKept(count: int, labels: seq<Label>)
    requires Runs(count, labels)
    ensures Controlled(count, Play(count, labels))
    decreases |labels|
  {
    if labels != [] {
      ControlIsKept(count, Before(labels));
      StepKeepsControl(count, Play(count, Before(labels)), Last(labels));
    }
  }

  /** How often `Stop` was called while the monitor was running. */
  function StopsWhileRunning(count: int, labels: seq<Label>): nat
    requires Runs(count, labels)
    decreases |labels|
  {
    if labels == [] then 0
    else
      var s := Play(count, Before(labels));
      StopsWhileRunning(count, Before(labels)) + if Last(labels) == Stop && s.running then 1 else 0
  }

  /** The one fault there is: a second call of `Stop` on a running monitor. In particular nothing is ever sent
      on the closed channel, and that is closed once only. */
  lemma {:induction false} FaultsIff(count: int, labels: seq<Label>)
    requires Runs(count, labels)
    ensures Play(count, labels).panicked <==> StopsWhileRunning(count, labels) >= 2
    ensures Play(count, labels).stopped <==> StopsWhileRunning(count, labels) >= 1
    decreases |labels|
  {
    if labels != [] {
      ControlIsKept(count, Before(labels));
      FaultsIff(count, Before(labels));
    }
  }

  function WithoutStops(labels: seq<Label>): seq<Label>
    decreases |labels|
  {
    if labels == [] then []
    else WithoutStops(Before(labels)) + if Last(labels) == Stop then [] else [Last(labels)]
  }

  /** `Stop` does not stop anything: every run is possible without the calls of `Stop` in it, and differs only
      in what `Stop` itself leaves behind. */
  lemma {:induction false} StopStopsNothing(count: int, labels: seq<Label>)
    requires Runs(count, labels)
    ensures Runs(count, WithoutStops(labels))
    ensures Play(count, WithoutStops(labels)) == Unstopped(Play(count, labels))
    decreases |labels|
  {
    if labels != [] {
      StopStopsNothing(count, Before(labels));
      ControlIsKept(count, Before(labels));
      var s, a, fewer := Play(count, Before(labels)), Last(labels), WithoutStops(Before(labels));
      StopIsIrrelevant(count, s, a);
      if a != Stop {
        assert Before(fewer + [a]) == fewer && Last(fewer + [a]) == a;
      } else {
        assert WithoutStops(labels) == fewer;
      }
    }
  }

  /** The state but for what `Stop` leaves behind. */
  function Unstopped(s: MonitorState): MonitorState {
    s.(stopped := false, panicked := false)
  }

  lemma {:induction false} StopIsIrrelevant(count: int, s: MonitorState, a: Label)
    requires Controlled(count, s) && Enabled(s, a)
    ensures a == Stop ==> Unstopped(Apply(count, s, a)) == Unstopped(s)
    ensures a != Stop ==> Enabled(Unstopped(s), a) && Apply(count, Unstopped(s), a) == Unstopped(Apply(count, s, a))
  {
  }

  /** The steps of the goroutine. */
  function OwnSteps(labels: seq<Label>): nat
    decreases |labels|
  {
    if labels == [] then 0
    else OwnSteps(Before(labels)) + if Last(labels).Tick? || Last(labels) == SeeDone || Last(labels) == Move then 1 else 0
  }

  function Offset(pc: Pc): nat {
    match pc
    case AtTop => 0
    case AtSelect => 1
    case Checked(_) => 2
    case Logged(_) => 3
    case Offered => 4
    case Leaving => 2
    case Closing => 3
    case Ended => 4
  }

  lemma {:induction false} StepsPerCheck(count: int, labels: seq<Label>)
    requires Runs(count, labels)
    ensures OwnSteps(labels) <= 5 * Play(count, labels).iterations + Offset(Play(count, labels).pc)
    decreases |labels|
  {
    if labels != [] {
      StepsPerCheck(count, Before(labels));
      ControlIsKept(count, Before(labels));
      OwnStepCounts(count, Play(count, Before(labels)), Last(labels));
    }
  }

  lemma {:induction false} OwnStepCounts(count: int, s: MonitorState, a: Label)
    requires Controlled(count, s) && Enabled(s, a)
    ensures var t := Apply(count, s, a);
      5 * s.iterations + Offset(s.pc) + (if a.Tick? || a == SeeDone || a == Move then 1 else 0) <= 5 * t.iterations + Offset(t.pc)
  {
  }

  /** With a count the goroutine ends: it makes at most five steps for each check and four more, and it can
      always make one until it has ended, whether or not anyone reads. */
  lemma GoroutineEnds(count: int, labels: seq<Label>)
    requires Runs(count, labels)
    ensures count > 0 ==> OwnSteps(labels) <= 5 * count + 4
    ensures var s := Play(count, labels);
      s.pc != Ended && !s.panicked ==> Enabled(s, Move) || forall dp :: Enabled(s, Tick(dp))
  {
    StepsPerCheck(count, labels);
    ControlIsKept(count, labels);
  }

  function ToEnd(pc: Pc): nat {
    match pc
    case Checked(_) => 7
    case Logged(_) => 6
    case Offered => 5
    case AtTop => 4
    case AtSelect => 3
    case Leaving => 2
    case Closing => 1
    case Ended => 0
  }

  /** Once the context is done the goroutine can end from wherever it is, within seven steps of its own and
      without another check. */
  lemma {:induction false} CancelledCanEnd(count: int, labels: seq<Label>) returns (all: seq<Label>)
    requires Runs(count, labels) && Play(count, labels).cancelled && !Play(count, labels).panicked
    ensures labels <= all && |all| <= |labels| + 7
    ensures forall k :: |labels| <= k < |all| ==> all[k] == Move || all[k] == SeeDone
    ensures Runs(count, all) && Play(count, all).pc == Ended && Play(count, all).closed && !Play(count, all).running
  {
    all := EndSteps(count, labels);
    ControlIsKept(count, all);
  }

  lemma {:induction false} EndSteps(count: int, labels: seq<Label>) returns (all: seq<Label>)
    requires Runs(count, labels) && Play(count, labels).cancelled && !Play(count, labels).panicked
    ensures labels <= all && |all| <= |labels| + ToEnd(Play(count, labels).pc)
    ensures forall k :: |labels| <= k < |all| ==> all[k] == Move || all[k] == SeeDone
    ensures Runs(count, all) && Play(count, all).pc == Ended
    decreases ToEnd(Play(count, labels).pc)
  {
    var s := Play(count, labels);
    if s.pc == Ended {
      all := labels;
    } else {
      ControlIsKept(count, labels);
      var a := if s.pc == AtSelect then SeeDone else Move;
      StepTowardsEnd(count, s, a);
      var more := labels + [a];
      assert Before(more) == labels && Last(more) == a;
      all := EndSteps(count, more);
      assert all[|labels|] == more[|labels|];
    }
  }

  lemma {:induction false} StepTowardsEnd(count: int, s: MonitorState, a: Label)
    requires Controlled(count, s) && s.cancelled && !s.panicked && s.pc != Ended
    requires a == if s.pc == AtSelect then SeeDone else Move
    ensures Enabled(s, a)
    ensures var t := Apply(count, s, a); ToEnd(t.pc) < ToEnd(s.pc) && t.cancelled && !t.panicked
  {
  }

  // ---- The log ----

  /** The checks that were made, in order. */
  function Ticks(labels: seq<Label>): seq<DataPoint>
    decreases |labels|
  {
    if labels == [] then []
    else Ticks(Before(labels)) + if Last(labels).Tick? then [Last(labels).dp] else []
  }

  function InHand(pc: Pc): seq<DataPoint> {
    if pc.Checked? then [pc.dp] else []
  }

  lemma {:induction false} LogIsCurrent(count: int, labels: seq<Label>)
    requires Runs(count, labels)
    ensures Play(count, labels).data + InHand(Play(count, labels).pc) == Ticks(labels)
    decreases |labels|
  {
    if labels != [] {
      LogIsCurrent(count, Before(labels));
      StepExtendsLog(count, Play(count, Before(labels)), Last(labels));
    }
  }

  lemma {:induction false} StepExtendsLog(count: int, s: MonitorState, a: Label)
    requires Enabled(s, a)
    ensures var t := Apply(count, s, a);
      t.data + InHand(t.pc) == s.data + InHand(s.pc) + if a.Tick? then [a.dp] else []
  {
  }

  /** The log is complete: at any time it has every check but the one in hand, and no more than were asked for.
      Once the goroutine is out of the loop it has every check, as many as were asked for unless it was
      cancelled; and it gets there only with a count or a cancellation. */
  lemma LogIsComplete(count: int, labels: seq<Label>)
    requires Runs(count, labels)
    ensures var s, t := Play(count, labels), Ticks(labels);
      && s.data + InHand(s.pc) == t
      && (count > 0 ==> |t| <= count)
      && (!InLoop(s.pc) ==> s.data == t && (s.cancelled || (count > 0 && |t| == count)))
      && (s.closed ==> !s.running && s.data == t)
  {
    LogIsCurrent(count, labels);
    ControlIsKept(count, labels);
  }

  // ---- The stream ----

  /** The elements of `s` that are flagged, in order. */
  function Select(s: seq<DataPoint>, flags: seq<bool>): seq<DataPoint>
    requires |flags| == |s|
  {
    if s == [] then []
    else Select(s[..|s| - 1], flags[..|s| - 1]) + if flags[|s| - 1] then [s[|s| - 1]] else []
  }

  /** The logged points of which it is settled whether they go into the channel: all but one that has not been
      offered yet. */
  function Settled(s: MonitorState): seq<DataPoint> {
    if s.pc.Logged? && s.data != [] then s.data[..|s.data| - 1] else s.data
  }

  /** The point at index `i` of the log was offered while the channel was full. */
  ghost predicate OfferedWhileFull(count: int, labels: seq<Label>, i: nat)
    requires Runs(count, labels)
  {
    exists k: nat :: k < |labels| && FullAt(count, labels, k, i)
  }

  ghost predicate FullAt(count: int, labels: seq<Label>, k: nat, i: nat)
    requires Runs(count, labels) && k < |labels|
  {
    RunsPrefix(count, labels, k);
    var s := Play(count, labels[..k]);
    labels[k] == Move && s.pc.Logged? && |s.data| == i + 1 && |s.buffer| == 100
  }

  lemma {:induction false} FullEarlier(count: int, labels: seq<Label>, i: nat)
    requires labels != [] && Runs(count, labels) && OfferedWhileFull(count, Before(labels), i)
    ensures OfferedWhileFull(count, labels, i)
  {
    var k: nat :| k < |Before(labels)| && FullAt(count, Before(labels), k, i);
    assert Before(labels)[..k] == labels[..k];
    assert FullAt(count, labels, k, i);
  }

  lemma {:induction false} SelectExtend(s: seq<DataPoint>, flags: seq<bool>, dp: DataPoint, flag: bool)
    requires |flags| == |s|
    ensures Select(s + [dp], flags + [flag]) == Select(s, flags) + if flag then [dp] else []
  {
    assert (s + [dp])[..|s|] == s && (flags + [flag])[..|s|] == flags;
  }

  /** The offer is the one step that settles a point; it adds it to the stream if there is room. */
  lemma {:induction false} StepExtendsStream(count: int, s: MonitorState, a: Label)
    requires Controlled(count, s) && Buffered(s) && Enabled(s, a)
    ensures var t := Apply(count, s, a);
      if a == Move && s.pc.Logged? then
        && Settled(t) == Settled(s) + [s.pc.dp]
        && t.received + t.buffer == s.received + s.buffer + if |s.buffer| < CAPACITY then [s.pc.dp] else []
      else
        Settled(t) == Settled(s) && t.received + t.buffer == s.received + s.buffer
  {
    if a == Move && s.pc.Logged? {
      OfferExtendsStream(count, s);
    } else if a == Receive {
      assert s.buffer == [s.buffer[0]] + s.buffer[1..];
    } else {
      assert Apply(count, s, a).buffer == s.buffer && Apply(count, s, a).received == s.received;
    }
  }

  lemma {:induction false} OfferExtendsStream(count: int, s: MonitorState)
    requires Controlled(count, s) && Buffered(s) && Enabled(s, Move) && s.pc.Logged?
    ensures var t := Apply(count, s, Move);
      && Settled(t) == s.data == Settled(s) + [s.pc.dp]
      && t.received + t.buffer == s.received + s.buffer + if |s.buffer| < CAPACITY then [s.pc.dp] else []
  {
    assert s.data == s.data[..|s.data| - 1] + [s.pc.dp];
    assert s.received + (s.buffer + [s.pc.dp]) == s.received + s.buffer + [s.pc.dp];
  }

  predicate Buffered(s: MonitorState) {
    |s.buffer| <= CAPACITY && (s.pc.Logged? ==> s.data != [] && s.data[|s.data| - 1] == s.pc.dp)
  }

  lemma {:induction false} StepKeepsBuffered(count: int, s: MonitorState, a: Label)
    requires Buffered(s) && Enabled(s, a)
    ensures Buffered(Apply(count, s, a))
  {
  }

  lemma {:induction false} BufferIsBounded(count: int, labels: seq<Label>)
    requires Runs(count, labels)
    ensures Buffered(Play(count, labels))
    decreases |labels|
  {
    if labels != [] {
      BufferIsBounded(count, Before(labels));
      StepKeepsBuffered(count, Play(count, Before(labels)), Last(labels));
    }
  }

  /** At any time what the reader has received, followed by what waits in the channel, is a subsequence of
      the settled part of the log; the channel holds at most its capacity; and a settled point is missing from
      the stream only if the channel was full when it was offered. */
  lemma {:induction false} StreamIsPartOfLog(count: int, labels: seq<Label>) returns (flags: seq<bool>)
    requires Runs(count, labels)
    ensures var s := Play(count, labels);
      && |s.buffer| <= 100
      && |flags| == |Settled(s)| && Select(Settled(s), flags) == s.received + s.buffer
    ensures forall i: nat :: i < |flags| && !flags[i] ==> OfferedWhileFull(count, labels, i)
    decreases |labels|
  {
    BufferIsBounded(count, labels);
    if labels == [] {
      flags := [];
    } else {
      var init, a := Before(labels), Last(labels);
      var s := Play(count, init);
      flags := StreamIsPartOfLog(count, init);
      BufferIsBounded(count, init);
      ControlIsKept(count, init);
      StepExtendsStream(count, s, a);
      forall i: nat | i < |flags| && !flags[i]
        ensures OfferedWhileFull(count, labels, i)
      {
        FullEarlier(count, labels, i);
      }
      if a == Move && s.pc.Logged? {
        SelectExtend(Settled(s), flags, s.pc.dp, |s.buffer| < CAPACITY);
        assert labels[..|init|] == init;
        assert |s.buffer| == CAPACITY ==> FullAt(count, labels, |init|, |flags|);
        flags := flags + [|s.buffer| < CAPACITY];
      }
    }
  }

  /** A log no longer than the channel is streamed in full. */
  lemma {:induction false} ShortLogIsStreamed(count: int, labels: seq<Label>)
    requires Runs(count, labels)
    ensures |Play(count, labels).buffer| <= |Settled(Play(count, labels))|
    ensures |Play(count, labels).data| <= 100 ==>
              Play(count, labels).received + Play(count, labels).buffer == Settled(Play(count, labels))
    decreases |labels|
  {
    if labels != [] {
      var s, a := Play(count, Before(labels)), Last(labels);
      ShortLogIsStreamed(count, Before(labels));
      BufferIsBounded(count, Before(labels));
      ControlIsKept(count, Before(labels));
      StepExtendsStream(count, s, a);
    }
  }
}
