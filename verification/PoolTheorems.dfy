/** What the worker pool guarantees over every run: safety of its channels, conservation, progress,
    exactly-once delivery, and what is left when it is cancelled. */
module PoolTheorems {
  import opened Folds
  import opened Pool

  // ---- Safety in every reachable state ----

  lemma BusyWorker<J>(ws: seq<Worker<J>>, i: nat)
    requires i < |ws| && (ws[i].Holding? || ws[i].Probing?)
    ensures Total(Busy<J>, ws) >= 1
  {
    TotalUpdate(Busy<J>, ws, i, Ranging);
    TotalWithin(Busy<J>, ws[i := Ranging], 0, 1);
  }

  /** A worker that is about to send finds the result channel open and not full. */
  lemma SendIsSafe<J, V>(s: State<J, V>, i: nat, input: seq<J>, workers: nat)
    requires Inv(s, input, workers) && i < |s.workers| && (s.workers[i].Holding? || s.workers[i].Probing?)
    ensures !s.core.resultsClosed && |s.core.results| < s.core.cap
  {
    BusyWorker(s.workers, i);
    LiveCounts(s.workers, i);
  }

  /** The producer finds the job channel open and not full. */
  lemma ProduceIsSafe<J, V>(s: State<J, V>, input: seq<J>, workers: nat)
    requires Inv(s, input, workers) && s.core.main == Producing && s.core.unsent != []
    ensures !s.core.jobsClosed && |s.core.jobs| < s.core.cap
  {
  }

  /** No schedule makes a goroutine fault or block on a full channel: every send has room and an open
      channel, each channel is closed at most once, and the WaitGroup counts the live workers. */
  lemma ChannelsAreSafe<J, V>(input: seq<J>, workers: nat, labels: seq<Label<V>>)
    requires Runs(Init(input, workers), labels)
    ensures var s := Exec(Init(input, workers), labels);
      && !s.core.panicked
      && |s.core.jobs| <= |input| && |s.core.results| <= |input|
      && s.core.wg == Total(Live<J>, s.workers)
      && (s.core.main == Producing ==> !s.core.jobsClosed && (s.core.unsent == [] || |s.core.jobs| < |input|))
      && (s.core.closer == Released ==> !s.core.resultsClosed)
      && (forall i :: 0 <= i < |s.workers| && s.workers[i].Probing? ==> !s.core.resultsClosed && |s.core.results| < |input|)
      && (s.core.resultsClosed ==> forall i :: 0 <= i < |s.workers| ==> s.workers[i].Exited?)
  {
    InitInv<J, V>(input, workers);
    RunKeepsInv(Init(input, workers), labels, input, workers);
    var s := Exec(Init(input, workers), labels);
    TotalWithin(Busy<J>, s.workers, 0, 1);
    forall i | 0 <= i < |s.workers| && s.workers[i].Probing?
      ensures !s.core.resultsClosed && |s.core.results| < |input|
    {
      SendIsSafe(s, i, input, workers);
    }
    forall i | 0 <= i < |s.workers| && s.core.resultsClosed
      ensures s.workers[i].Exited?
    {
      if !s.workers[i].Exited? {
        LiveCounts(s.workers, i);
      }
    }
  }

  /** Where each job is, in every reachable state; and what a dropped job implies. */
  lemma {:induction false} JobsAreConserved<J, V>(input: seq<J>, workers: nat, labels: seq<Label<V>>, j: J)
    requires Runs(Init(input, workers), labels)
    ensures var s := Exec(Init(input, workers), labels);
      && s.core.taken + s.core.jobs + s.core.unsent == input
      && multiset(input)[j] ==
           multiset(s.core.unsent)[j] + multiset(s.core.jobs)[j] + Total(Holds(j), s.workers)
           + multiset(JobsOf(s.core.results))[j] + multiset(JobsOf(s.core.collected))[j] + multiset(s.core.dropped)[j]
      && |s.core.dropped| <= workers
      && (s.core.dropped != [] ==> s.core.cancelled)
      && multiset(JobsOf(s.core.collected))[j] <= multiset(input)[j]
  {
    InitInv<J, V>(input, workers);
    RunKeepsInv(Init(input, workers), labels, input, workers);
    RunKeepsBalance(Init<J, V>(input, workers), labels, input, workers, j);
    var s := Exec(Init(input, workers), labels);
    LiveBounds(s.workers);
    TotalWithin(Holds(j), s.workers, 0, 1);
    assert multiset(input) == multiset(s.core.taken) + multiset(s.core.jobs) + multiset(s.core.unsent);
  }

  // ---- Progress ----

  function FirstLive<J>(ws: seq<Worker<J>>): (i: nat)
    ensures i <= |ws|
    ensures i < |ws| ==> !ws[i].Exited?
    ensures i == |ws| ==> Total(Live<J>, ws) == 0
  {
    if ws == [] then 0 else if !ws[0].Exited? then 0 else 1 + FirstLive(ws[1..])
  }

  /** A step that can be taken, other than cancelling, in any state from which `Run` has not returned. */
  function NextLabel<J(==), V(==)>(s: State<J, V>, verdict: J -> V): Label<V> {
    var c, ws := s.core, s.workers;
    match c.main
    case Spawning => if c.unspawned > 0 then Spawn else Main(BeginProducing)
    case Producing => if c.unsent == [] then Main(CloseJobs) else Main(Produce)
    case Launching => Main(Launch)
    case Returned => Main(Cancel)
    case Collecting =>
      if c.results != [] then Main(Collect)
      else if c.resultsClosed then Main(Return)
      else if c.closer == Released then Main(CloseResults)
      else
        var i := FirstLive(ws);
        if i == |ws| then Main(WaitDone)
        else match ws[i]
             case Ranging => if c.jobs != [] then Take(i) else Leave(i)
             case Holding(_) => if c.cancelled then NoticeCancel(i) else PassCheck(i)
             case Probing(job) => Send(i, verdict(job))
             case Exited => Main(Cancel)
  }

  /** No deadlock: whatever has happened, and whether or not the context is done, something can move. */
  lemma Progress<J, V>(s: State<J, V>, verdict: J -> V, input: seq<J>, workers: nat)
    requires Inv(s, input, workers) && s.core.main != Returned
    ensures Enabled(s, NextLabel(s, verdict)) && NextLabel(s, verdict) != Main(Cancel)
  {
    var c, ws := s.core, s.workers;
    if c.main == Producing && c.unsent != [] {
      ProduceIsSafe(s, input, workers);
    } else if c.main == Collecting && c.results == [] && !c.resultsClosed && c.closer == Waiting {
      var i := FirstLive(ws);
      if i < |ws| && ws[i].Probing? {
        SendIsSafe(s, i, input, workers);
      }
    }
  }

  // ---- Termination ----

  function WorkerRank<J>(w: Worker<J>): int {
    match w case Ranging => 1 case Holding(_) => 4 case Probing(_) => 3 case Exited => 0
  }

  function MainRank(m: Main): nat {
    match m case Spawning => 4 case Producing => 3 case Launching => 2 case Collecting => 1 case Returned => 0
  }

  function CloserRank(k: Closer): nat {
    match k case NotStarted => 3 case Waiting => 2 case Released => 1 case Finished => 0
  }

  /** How many more steps there can be at most. */
  function CoreRank<J, V>(c: Core<J, V>): nat {
    5 * |c.unsent| + 4 * |c.jobs| + |c.results| + 2 * c.unspawned
    + MainRank(c.main) + CloserRank(c.closer) + if c.cancelled then 0 else 1
  }

  function Rank<J, V>(s: State<J, V>): (r: int)
    ensures r >= 0
  {
    TotalWithin(WorkerRank<J>, s.workers, 0, 4);
    CoreRank(s.core) + Total(WorkerRank<J>, s.workers)
  }

  /** Every step, the cancellation included, brings the end nearer. */
  lemma {:induction false} StepLowersRank<J, V>(s: State<J, V>, a: Label<V>, input: seq<J>, workers: nat)
    requires Inv(s, input, workers) && Enabled(s, a)
    ensures Rank(Apply(s, a)) < Rank(s)
  {
    StepKeepsInv(s, a, input, workers);
    match a
    case Main(l) => MainLowersRank(s.core, l);
    case Spawn => TotalExtend(WorkerRank<J>, s.workers, Ranging);
    case _ =>
      WorkerAdvances(s, a, a.i);
      TotalUpdate(WorkerRank<J>, s.workers, a.i, Apply(s, a).workers[a.i]);
  }

  /** A step of a worker changes that worker only, and what it adds to the rank of one side it more than takes
      from the other. */
  lemma {:induction false} WorkerAdvances<J, V>(s: State<J, V>, a: Label<V>, i: nat)
    requires Enabled(s, a) && !Apply(s, a).core.panicked
    requires a == Take(i) || a == Leave(i) || a == NoticeCancel(i) || a == PassCheck(i) || (a.Send? && a.i == i)
    ensures var t := Apply(s, a);
      && |t.workers| == |s.workers| && i < |s.workers| && t.workers == s.workers[i := t.workers[i]]
      && CoreRank(t.core) + WorkerRank(t.workers[i]) < CoreRank(s.core) + WorkerRank(s.workers[i])
  {
  }

  lemma MainLowersRank<J, V>(c: Core<J, V>, l: MainLabel)
    requires MainEnabled(c, l) && !MainApply(c, l).panicked
    requires c.main == Launching ==> c.closer == NotStarted
    ensures CoreRank(MainApply(c, l)) < CoreRank(c)
  {
  }

  lemma {:induction false} RunLowersRank<J, V>(s: State<J, V>, labels: seq<Label<V>>, input: seq<J>, workers: nat)
    requires Inv(s, input, workers) && Runs(s, labels)
    ensures |labels| + Rank(Exec(s, labels)) <= Rank(s)
    decreases |labels|
  {
    if labels != [] {
      StepLowersRank(s, labels[0], input, workers);
      StepKeepsInv(s, labels[0], input, workers);
      RunLowersRank(Apply(s, labels[0]), labels[1..], input, workers);
    }
  }

  lemma InitRank<J, V>(input: seq<J>, workers: nat)
    ensures Rank(Init<J, V>(input, workers)) == 5 * |input| + 2 * workers + 8
  {
    var s := Init<J, V>(input, workers);
    assert CoreRank(s.core) == 5 * |input| + 2 * workers + 8;
    assert Total(WorkerRank<J>, s.workers) == 0;
  }

  /** No run is longer than this, so every run that is not stopped short returns. */
  lemma RunsAreBounded<J, V>(input: seq<J>, workers: nat, labels: seq<Label<V>>)
    requires Runs(Init(input, workers), labels)
    ensures |labels| <= 5 * |input| + 2 * workers + 8
  {
    InitInv<J, V>(input, workers);
    InitRank<J, V>(input, workers);
    RunLowersRank(Init(input, workers), labels, input, workers);
  }

  /** A run in which nothing can move any more, or only the cancellation, has returned. */
  lemma StuckMeansReturned<J, V>(input: seq<J>, workers: nat, labels: seq<Label<V>>, verdict: J -> V)
    requires Runs(Init(input, workers), labels)
    requires forall a :: Enabled(Exec(Init(input, workers), labels), a) ==> a == Main(Cancel)
    ensures Exec(Init(input, workers), labels).core.main == Returned
  {
    InitInv<J, V>(input, workers);
    RunKeepsInv(Init(input, workers), labels, input, workers);
    var s := Exec(Init(input, workers), labels);
    if s.core.main != Returned {
      Progress(s, verdict, input, workers);
    }
  }

  /** From every reachable state the run can be completed without cancelling it. */
  lemma {:induction false} CanFinish<J, V>(s: State<J, V>, verdict: J -> V, input: seq<J>, workers: nat)
    returns (labels: seq<Label<V>>)
    requires Inv(s, input, workers)
    ensures Runs(s, labels)
    ensures Exec(s, labels).core.main == Returned && Exec(s, labels).core.cancelled == s.core.cancelled
    decreases Rank(s)
  {
    if s.core.main == Returned {
      labels := [];
    } else {
      var a := NextLabel(s, verdict);
      Progress(s, verdict, input, workers);
      StepLowersRank(s, a, input, workers);
      StepKeepsInv(s, a, input, workers);
      var rest := CanFinish(Apply(s, a), verdict, input, workers);
      labels := [a] + rest;
      assert labels[1..] == rest;
    }
  }

  // ---- What has been delivered when Run returns ----

  /** When `Run` has returned, every job that is not in the result was dropped by a worker or is still in
      the job channel, and either takes a cancellation or an absence of workers. */
  lemma {:induction false} ReturnedState<J, V>(s: State<J, V>, input: seq<J>, workers: nat)
    requires Inv(s, input, workers) && s.core.main == Returned
    ensures forall i :: 0 <= i < |s.workers| ==> s.workers[i].Exited?
    ensures s.core.unsent == [] && s.core.results == []
    ensures |s.core.collected| + |s.core.dropped| + |s.core.jobs| == |input|
    ensures s.core.dropped != [] ==> s.core.cancelled
    ensures s.core.jobs != [] ==> s.core.cancelled || workers == 0
  {
    forall i | 0 <= i < |s.workers|
      ensures s.workers[i].Exited?
    {
      if !s.workers[i].Exited? {
        LiveCounts(s.workers, i);
      }
    }
    forall i | 0 <= i < |s.workers|
      ensures 0 <= Busy(s.workers[i]) <= 0
    {
    }
    TotalWithin(Busy<J>, s.workers, 0, 0);
  }

  lemma ReturnedBalance<J, V>(s: State<J, V>, input: seq<J>, workers: nat, j: J)
    requires Inv(s, input, workers) && Balanced(s, j) && s.core.main == Returned
    ensures multiset(JobsOf(s.core.collected))[j] + multiset(s.core.dropped)[j] + multiset(s.core.jobs)[j] == multiset(input)[j]
  {
    ReturnedState(s, input, workers);
    TotalWithin(Holds(j), s.workers, 0, 0);
    assert input == s.core.taken + s.core.jobs;
  }

  /** Accounting of a cancelled scan: what is not reported was abandoned, at most once by each worker, or
      never picked up. */
  lemma {:induction false} CancelledScan<J, V>(input: seq<J>, workers: nat, labels: seq<Label<V>>)
    requires Runs(Init(input, workers), labels) && Exec(Init(input, workers), labels).core.main == Returned
    ensures var c := Exec(Init(input, workers), labels).core;
      && multiset(JobsOf(c.collected)) + multiset(c.dropped) + multiset(c.jobs) == multiset(input)
      && c.taken + c.jobs == input
      && |c.dropped| <= workers
      && multiset(JobsOf(c.collected)) <= multiset(input)
  {
    InitInv<J, V>(input, workers);
    RunKeepsInv(Init(input, workers), labels, input, workers);
    var s := Exec(Init(input, workers), labels);
    ReturnedState(s, input, workers);
    LiveBounds(s.workers);
    var found := multiset(JobsOf(s.core.collected)) + multiset(s.core.dropped) + multiset(s.core.jobs);
    forall j: J
      ensures found[j] == multiset(input)[j]
    {
      RunKeepsBalance(Init<J, V>(input, workers), labels, input, workers, j);
      ReturnedBalance(s, input, workers, j);
    }
    SameCounts(found, multiset(input));
  }

  lemma SameCounts<J>(a: multiset<J>, b: multiset<J>)
    requires forall j: J :: a[j] == b[j]
    ensures a == b
  {
  }

  /** Exactly once: an uncancelled run with at least one worker answers every job as often as it was asked,
      duplicates included, and nothing else. */
  lemma ExactlyOnce<J, V>(input: seq<J>, workers: nat, labels: seq<Label<V>>)
    requires Runs(Init(input, workers), labels)
    requires Exec(Init(input, workers), labels).core.main == Returned && !Exec(Init(input, workers), labels).core.cancelled
    requires workers >= 1
    ensures multiset(JobsOf(Exec(Init(input, workers), labels).core.collected)) == multiset(input)
  {
    CancelledScan(input, workers, labels);
    InitInv<J, V>(input, workers);
    RunKeepsInv(Init(input, workers), labels, input, workers);
    ReturnedState(Exec(Init(input, workers), labels), input, workers);
  }

  /** A run without workers that has returned has nothing to show, and the whole input is left in the channel. */
  lemma {:induction false} NoWorkersNoResults<J, V>(input: seq<J>, labels: seq<Label<V>>)
    requires Runs(Init(input, 0), labels) && Exec(Init(input, 0), labels).core.main == Returned
    ensures Exec(Init(input, 0), labels).core.collected == []
    ensures Exec(Init(input, 0), labels).core.jobs == input
  {
    InitInv<J, V>(input, 0);
    RunKeepsInv(Init(input, 0), labels, input, 0);
    NoWorkersTakeNothing(Init<J, V>(input, 0), labels, input);
    ReturnedState(Exec(Init(input, 0), labels), input, 0);
  }

  lemma {:induction false} NoWorkersTakeNothing<J, V>(s: State<J, V>, labels: seq<Label<V>>, input: seq<J>)
    requires Inv(s, input, 0) && s.core.taken == [] && Runs(s, labels)
    ensures Exec(s, labels).core.taken == []
    decreases |labels|
  {
    if labels != [] {
      StepKeepsInv(s, labels[0], input, 0);
      assert !labels[0].Take?;
      NoWorkersTakeNothing(Apply(s, labels[0]), labels[1..], input);
    }
  }

  /** The scan never reports an error, so this is all a caller has to go by: without a cancellation the
      answer is complete in every run if and only if there is a worker or nothing to do. */
  lemma CompleteIff<J, V>(input: seq<J>, workers: nat, verdict: J -> V)
    ensures (forall labels: seq<Label<V>> ::
               Runs(Init(input, workers), labels)
               && Exec(Init(input, workers), labels).core.main == Returned
               && !Exec(Init(input, workers), labels).core.cancelled
               ==> multiset(JobsOf(Exec(Init(input, workers), labels).core.collected)) == multiset(input))
            <==> (workers >= 1 || input == [])
  {
    if workers >= 1 {
      forall labels: seq<Label<V>> |
        Runs(Init(input, workers), labels)
        && Exec(Init(input, workers), labels).core.main == Returned
        && !Exec(Init(input, workers), labels).core.cancelled
        ensures multiset(JobsOf(Exec(Init(input, workers), labels).core.collected)) == multiset(input)
      {
        ExactlyOnce(input, workers, labels);
      }
    } else {
      forall labels: seq<Label<V>> |
        Runs(Init(input, 0), labels) && Exec(Init(input, 0), labels).core.main == Returned
        ensures Exec(Init(input, 0), labels).core.collected == []
      {
        NoWorkersNoResults(input, labels);
      }
      InitInv<J, V>(input, 0);
      var labels := CanFinish(Init(input, 0), verdict, input, 0);
      assert Exec(Init(input, 0), labels).core.collected == [];
      assert |multiset(input)| == |input|;
    }
  }

  /** No worker has got past the context check, and none will. */
  ghost predicate NothingProbed<J, V>(s: State<J, V>) {
    && s.core.cancelled && s.core.results == [] && s.core.collected == []
    && forall i :: 0 <= i < |s.workers| ==> !s.workers[i].Probing?
  }

  lemma {:induction false} NothingWillBeProbed<J, V>(s: State<J, V>, labels: seq<Label<V>>)
    requires NothingProbed(s) && Runs(s, labels)
    ensures Exec(s, labels).core.collected == []
    decreases |labels|
  {
    if labels != [] {
      NothingWillBeProbed(Apply(s, labels[0]), labels[1..]);
    }
  }

  /** With cancellation allowed, an answer that is complete in every run is too much to ask for: a context
      that is done before the first worker looks at it leaves an empty answer, and no error to tell. */
  lemma CompleteDespiteCancelIff<J, V>(input: seq<J>, workers: nat, verdict: J -> V)
    ensures (forall labels: seq<Label<V>> ::
               Runs(Init(input, workers), labels) && Exec(Init(input, workers), labels).core.main == Returned
               ==> multiset(JobsOf(Exec(Init(input, workers), labels).core.collected)) == multiset(input))
            <==> input == []
  {
    var s := Init<J, V>(input, workers);
    InitInv<J, V>(input, workers);
    if input == [] {
      forall labels: seq<Label<V>> |
        Runs(s, labels) && Exec(s, labels).core.main == Returned
        ensures multiset(JobsOf(Exec(s, labels).core.collected)) == multiset(input)
      {
        CancelledScan(input, workers, labels);
      }
    } else {
      var t := Apply(s, Main(Cancel));
      StepKeepsInv(s, Main(Cancel), input, workers);
      var rest := CanFinish(t, verdict, input, workers);
      NothingWillBeProbed(t, rest);
      var labels := [Main(Cancel)] + rest;
      assert labels[1..] == rest;
      assert labels[0] == Main(Cancel) && Apply(s, labels[0]) == t;
      assert Runs(s, labels) && Exec(s, labels) == Exec(t, rest);
      assert |multiset(JobsOf(Exec(s, labels).core.collected))| == 0 && |multiset(input)| == |input|;
    }
  }

  // ---- Order with a single worker ----

  function InHand<J>(ws: seq<Worker<J>>): seq<J> {
    if ws != [] && (ws[0].Holding? || ws[0].Probing?) then [ws[0].job] else []
  }

  ghost predicate Queued<J, V>(s: State<J, V>) {
    JobsOf(s.core.collected) + JobsOf(s.core.results) + InHand(s.workers) + s.core.dropped == s.core.taken
  }

  lemma MainKeepsQueued<J, V>(s: State<J, V>, l: MainLabel)
    requires Queued(s) && Enabled(s, Main(l))
    ensures Queued(Apply(s, Main(l)))
  {
    var c := s.core;
    if l == Collect {
      JobsOfTail(c.results);
      JobsOfExtend(c.collected, c.results[0]);
    }
  }

  lemma {:induction false} StepKeepsQueued<J, V>(s: State<J, V>, a: Label<V>, input: seq<J>)
    requires Inv(s, input, 1) && Queued(s) && Enabled(s, a)
    ensures Queued(Apply(s, a))
  {
    var c, ws := s.core, s.workers;
    StepKeepsInv(s, a, input, 1);
    match a
    case Main(l) => MainKeepsQueued(s, l);
    case Spawn =>
    case Send(i, v) =>
      LiveCounts(ws, i);
      JobsOfExtend(c.results, Item(ws[i].job, v));
    case _ =>
      LiveCounts(ws, a.i);
      assert c.dropped == [];
  }

  lemma {:induction false} RunKeepsQueued<J, V>(s: State<J, V>, labels: seq<Label<V>>, input: seq<J>)
    requires Inv(s, input, 1) && Queued(s) && Runs(s, labels)
    ensures Queued(Exec(s, labels))
    decreases |labels|
  {
    if labels != [] {
      StepKeepsInv(s, labels[0], input, 1);
      StepKeepsQueued(s, labels[0], input);
      RunKeepsQueued(Apply(s, labels[0]), labels[1..], input);
    }
  }

  /** With one worker the answers come in the order of the input: at any time a prefix of it, cancelled or
      not, and all of it when an uncancelled run has returned. */
  lemma {:induction false} OneWorkerKeepsOrder<J, V>(input: seq<J>, labels: seq<Label<V>>)
    requires Runs(Init(input, 1), labels)
    ensures var c := Exec(Init(input, 1), labels).core;
      && JobsOf(c.collected) <= input
      && (c.main == Returned && !c.cancelled ==> JobsOf(c.collected) == input)
  {
    InitInv<J, V>(input, 1);
    RunKeepsInv(Init(input, 1), labels, input, 1);
    RunKeepsQueued(Init<J, V>(input, 1), labels, input);
    var s := Exec(Init(input, 1), labels);
    if s.core.main == Returned && !s.core.cancelled {
      ReturnedState(s, input, 1);
    }
  }

  // ---- What is delivered ----

  /** What the sends of a run put into the channel, in order: the job in the worker's hands and the value sent. */
  function Sent<J(==), V(==)>(s: State<J, V>, labels: seq<Label<V>>): seq<Item<J, V>>
    requires Runs(s, labels)
    decreases |labels|
  {
    if labels == [] then []
    else
      var a := labels[0];
      (if a.Send? then [Item(s.workers[a.i].job, a.value)] else []) + Sent(Apply(s, a), labels[1..])
  }

  lemma {:induction false} StepDelivers<J, V>(s: State<J, V>, a: Label<V>)
    requires Enabled(s, a) && !Apply(s, a).core.panicked
    ensures var t := Apply(s, a);
      t.core.collected + t.core.results
      == s.core.collected + s.core.results + if a.Send? then [Item(s.workers[a.i].job, a.value)] else []
  {
    match a
    case Main(l) =>
      if l == Collect {
        assert s.core.results == [s.core.results[0]] + s.core.results[1..];
      }
    case Send(i, v) =>
    case _ =>
      var c := Apply(s, a).core;
      assert c.collected == s.core.collected && c.results == s.core.results;
  }

  lemma {:induction false} RunDelivers<J, V>(s: State<J, V>, labels: seq<Label<V>>, input: seq<J>, workers: nat)
    requires Inv(s, input, workers) && Runs(s, labels)
    ensures var c := Exec(s, labels).core; c.collected + c.results == s.core.collected + s.core.results + Sent(s, labels)
    decreases |labels|
  {
    if labels != [] {
      StepKeepsInv(s, labels[0], input, workers);
      StepDelivers(s, labels[0]);
      RunDelivers(Apply(s, labels[0]), labels[1..], input, workers);
    }
  }

  /** What has been collected is what was sent, in the order of the sends and with their values, but for what is
      still in the channel; on return nothing is. */
  lemma {:induction false} CollectedAsSent<J, V>(input: seq<J>, workers: nat, labels: seq<Label<V>>)
    requires Runs(Init(input, workers), labels)
    ensures var c := Exec(Init(input, workers), labels).core;
      && c.collected + c.results == Sent(Init(input, workers), labels)
      && (c.main == Returned ==> c.collected == Sent(Init(input, workers), labels))
  {
    InitInv<J, V>(input, workers);
    RunDelivers(Init(input, workers), labels, input, workers);
    RunKeepsInv(Init(input, workers), labels, input, workers);
  }

  // ---- Running it ----

  /** The run that a scheduler chooses: each step is the one that `pick` proposes, or the next step that is
      always there if that cannot be taken. What is sent is then what `pick` proposes, or what `verdict` says. */
  ghost predicate Chosen<J, V>(s: State<J, V>, labels: seq<Label<V>>, pick: State<J, V> -> Label<V>, verdict: J -> V)
    decreases |labels|
  {
    labels == []
    || (&& Enabled(s, labels[0])
        && labels[0] == (if Enabled(s, pick(s)) then pick(s) else NextLabel(s, verdict))
        && Chosen(Apply(s, labels[0]), labels[1..], pick, verdict))
  }

  lemma {:induction false} ChosenExtend<J, V>(s: State<J, V>, labels: seq<Label<V>>, a: Label<V>, pick: State<J, V> -> Label<V>, verdict: J -> V)
    requires Chosen(s, labels, pick, verdict) && Runs(s, labels)
    requires var t := Exec(s, labels); Enabled(t, a) && a == if Enabled(t, pick(t)) then pick(t) else NextLabel(t, verdict)
    ensures Chosen(s, labels + [a], pick, verdict)
    decreases |labels|
  {
    if labels == [] {
      assert ([] + [a])[1..] == [];
    } else {
      assert (labels + [a])[0] == labels[0] && (labels + [a])[1..] == labels[1..] + [a];
      ChosenExtend(Apply(s, labels[0]), labels[1..], a, pick, verdict);
    }
  }

  /** Runs the pool to the end under any scheduler. The program returns the results only; whether the context
      was done is not something it reports. */
  method RunPool<J(==, !new), V(==, !new)>(input: seq<J>, workers: nat, pick: State<J, V> -> Label<V>, verdict: J -> V)
    returns (results: seq<Item<J, V>>, cancelled: bool, ghost labels: seq<Label<V>>)
    ensures Runs(Init(input, workers), labels) && Chosen(Init(input, workers), labels, pick, verdict)
    ensures Exec(Init(input, workers), labels).core.main == Returned
    ensures results == Exec(Init(input, workers), labels).core.collected == Sent(Init(input, workers), labels)
    ensures cancelled == Exec(Init(input, workers), labels).core.cancelled
    ensures (forall s :: pick(s) != Main(Cancel)) ==> !cancelled
    ensures multiset(JobsOf(results)) <= multiset(input)
    ensures workers >= 1 && (!cancelled || forall s :: pick(s) != Main(Cancel)) ==> multiset(JobsOf(results)) == multiset(input)
    ensures workers == 0 ==> results == []
    ensures workers == 1 ==> JobsOf(results) <= input
  {
    var s;
    s, labels := Drive(input, workers, pick, verdict);
    CancelledScan(input, workers, labels);
    CollectedAsSent(input, workers, labels);
    if workers >= 1 && !s.core.cancelled {
      ExactlyOnce(input, workers, labels);
    }
    if workers == 0 {
      NoWorkersNoResults(input, labels);
    }
    if workers == 1 {
      OneWorkerKeepsOrder(input, labels);
    }
    results, cancelled := s.core.collected, s.core.cancelled;
  }

  method Drive<J(==, !new), V(==, !new)>(input: seq<J>, workers: nat, pick: State<J, V> -> Label<V>, verdict: J -> V)
    returns (s: State<J, V>, ghost labels: seq<Label<V>>)
    ensures Runs(Init(input, workers), labels) && Chosen(Init(input, workers), labels, pick, verdict)
    ensures s == Exec(Init(input, workers), labels) && s.core.main == Returned
    ensures (forall t :: pick(t) != Main(Cancel)) ==> !s.core.cancelled
  {
    s, labels := Init<J, V>(input, workers), [];
    InitInv<J, V>(input, workers);
    while s.core.main != Returned
      invariant Inv(s, input, workers)
      invariant Runs(Init(input, workers), labels) && Exec(Init(input, workers), labels) == s
      invariant Chosen(Init(input, workers), labels, pick, verdict)
      invariant (forall t :: pick(t) != Main(Cancel)) ==> !s.core.cancelled
      decreases Rank(s)
    {
      var a := if Enabled(s, pick(s)) then pick(s) else NextLabel(s, verdict);
      Progress(s, verdict, input, workers);
      StepLowersRank(s, a, input, workers);
      StepKeepsInv(s, a, input, workers);
      StepCancels(s, a);
      RunExtend(Init(input, workers), labels, a);
      ChosenExtend(Init(input, workers), labels, a, pick, verdict);
      labels := labels + [a];
      s := Apply(s, a);
    }
  }

  lemma {:induction false} StepCancels<J, V>(s: State<J, V>, a: Label<V>)
    requires Enabled(s, a)
    ensures Apply(s, a).core.cancelled <==> s.core.cancelled || a == Main(Cancel)
  {
  }

  lemma {:induction false} RunExtend<J, V>(s: State<J, V>, labels: seq<Label<V>>, a: Label<V>)
    requires Runs(s, labels) && Enabled(Exec(s, labels), a)
    ensures Runs(s, labels + [a]) && Exec(s, labels + [a]) == Apply(Exec(s, labels), a)
    decreases |labels|
  {
    if labels == [] {
      assert ([] + [a])[1..] == [];
    } else {
      assert (labels + [a])[0] == labels[0] && (labels + [a])[1..] == labels[1..] + [a];
      RunExtend(Apply(s, labels[0]), labels[1..], a);
    }
  }
}
