/**
  The bounded worker pool of `portscan.Scanner.Run`, `tcp.BatchCheck` and `udp.BatchCheck`, as a step
  system. One goroutine spawns the workers, fills and closes the job channel, launches the closer
  goroutine and collects; every other goroutine runs concurrently with it.

  Go's run-time faults are not assumed away: a send on a closed channel, a second close and a negative
  WaitGroup counter lead to a state with `panicked` set, from which nothing moves. A full channel blocks
  its sender. That none of this happens is proved, not built into the steps.
*/
module Pool {
  import opened Folds

  /** The program counter of the goroutine that runs `Run` or `BatchCheck`. */
  datatype Main = Spawning | Producing | Launching | Collecting | Returned

  /** The goroutine that waits for the workers and then closes the result channel. */
  datatype Closer = NotStarted | Waiting | Released | Finished

  /** What a worker sends: the job it was given and what it found out about it. */
  datatype Item<+J, +V> = Item(job: J, value: V)

  /** Everything but the workers. `taken` (jobs received, in order) and `dropped` (jobs received and then
      abandoned because the context was done) are histories; no step reads them. */
  datatype Core<J, V> = Core(
    main: Main,
    unspawned: nat,
    unsent: seq<J>,
    jobs: seq<J>,
    jobsClosed: bool,
    wg: int,
    closer: Closer,
    results: seq<Item<J, V>>,
    resultsClosed: bool,
    collected: seq<Item<J, V>>,
    cancelled: bool,
    panicked: bool,
    cap: nat,
    taken: seq<J>,
    dropped: seq<J>)

  function InitCore<J, V>(input: seq<J>, workers: nat): Core<J, V> {
    Core(Spawning, workers, input, [], false, 0, NotStarted, [], false, [], false, false, |input|, [], [])
  }

  // ---- Steps that involve no worker ----

  datatype MainLabel =
    | BeginProducing | Produce | CloseJobs | Launch | Collect | Return
    | WaitDone | CloseResults
    | Cancel

  predicate MainEnabled<J, V>(c: Core<J, V>, l: MainLabel) {
    && !c.panicked
    && match l
       case BeginProducing => c.main == Spawning && c.unspawned == 0
       case Produce => c.main == Producing && c.unsent != [] && (c.jobsClosed || |c.jobs| < c.cap)
       case CloseJobs => c.main == Producing && c.unsent == []
       case Launch => c.main == Launching
       case Collect => c.main == Collecting && c.results != []
       case Return => c.main == Collecting && c.results == [] && c.resultsClosed
       case WaitDone => c.closer == Waiting && c.wg == 0
       case CloseResults => c.closer == Released
       case Cancel => !c.cancelled
  }

  function MainApply<J, V>(c: Core<J, V>, l: MainLabel): Core<J, V>
    requires MainEnabled(c, l)
  {
    match l
    case BeginProducing => c.(main := Producing)
    case Produce =>
      if c.jobsClosed then c.(panicked := true)
      else c.(unsent := c.unsent[1..], jobs := c.jobs + [c.unsent[0]])
    case CloseJobs =>
      if c.jobsClosed then c.(panicked := true) else c.(main := Launching, jobsClosed := true)
    case Launch => c.(main := Collecting, closer := Waiting)
    case Collect => c.(results := c.results[1..], collected := c.collected + [c.results[0]])
    case Return => c.(main := Returned)
    case WaitDone => c.(closer := Released)
    case CloseResults =>
      if c.resultsClosed then c.(panicked := true) else c.(closer := Finished, resultsClosed := true)
    case Cancel => c.(cancelled := true)
  }

  // ---- What a worker does to the rest of the state ----

  /** A worker is counted before its goroutine starts. */
  function AddWorker<J, V>(c: Core<J, V>): Core<J, V>
    requires c.unspawned > 0
  {
    c.(unspawned := c.unspawned - 1, wg := c.wg + 1)
  }

  function TakeJob<J, V>(c: Core<J, V>): Core<J, V>
    requires c.jobs != []
  {
    c.(jobs := c.jobs[1..], taken := c.taken + [c.jobs[0]])
  }

  /** The deferred `wg.Done()`. */
  function Depart<J, V>(c: Core<J, V>): Core<J, V> {
    if c.wg <= 0 then c.(panicked := true) else c.(wg := c.wg - 1)
  }

  function Abandon<J, V>(c: Core<J, V>, job: J): Core<J, V> {
    Depart(c).(dropped := c.dropped + [job])
  }

  predicate MayPost<J, V>(c: Core<J, V>) {
    c.resultsClosed || |c.results| < c.cap
  }

  function Post<J, V>(c: Core<J, V>, item: Item<J, V>): Core<J, V> {
    if c.resultsClosed then c.(panicked := true) else c.(results := c.results + [item])
  }

  // ---- The whole pool ----

  /** `Ranging`: at `range jobs`. `Holding`: job received, context not yet looked at.
      `Probing`: past the context check, result not yet sent. `Exited`: returned, `wg.Done` called. */
  datatype Worker<J> = Ranging | Holding(job: J) | Probing(job: J) | Exited

  datatype State<J, V> = State(core: Core<J, V>, workers: seq<Worker<J>>)

  datatype Label<V> =
    | Main(l: MainLabel)
    | Spawn
    | Take(i: nat)
    | Leave(i: nat)
    | NoticeCancel(i: nat)
    | PassCheck(i: nat)
    | Send(i: nat, value: V)

  function Init<J, V>(input: seq<J>, workers: nat): State<J, V> {
    State(InitCore(input, workers), [])
  }

  predicate Enabled<J(==), V(==)>(s: State<J, V>, a: Label<V>) {
    var c, ws := s.core, s.workers;
    && !c.panicked
    && match a
       case Main(l) => MainEnabled(c, l)
       case Spawn => c.main == Spawning && c.unspawned > 0
       case Take(i) => i < |ws| && ws[i].Ranging? && c.jobs != []
       case Leave(i) => i < |ws| && ws[i].Ranging? && c.jobs == [] && c.jobsClosed
       case NoticeCancel(i) => i < |ws| && ws[i].Holding? && c.cancelled
       case PassCheck(i) => i < |ws| && ws[i].Holding? && !c.cancelled
       case Send(i, _) => i < |ws| && ws[i].Probing? && MayPost(c)
  }

  function Apply<J(==), V(==)>(s: State<J, V>, a: Label<V>): State<J, V>
    requires Enabled(s, a)
  {
    var c, ws := s.core, s.workers;
    match a
    case Main(l) => State(MainApply(c, l), ws)
    case Spawn => State(AddWorker(c), ws + [Ranging])
    case Take(i) => State(TakeJob(c), ws[i := Holding(c.jobs[0])])
    case Leave(i) => State(Depart(c), ws[i := Exited])
    case NoticeCancel(i) => State(Abandon(c, ws[i].job), ws[i := Exited])
    case PassCheck(i) => State(c, ws[i := Probing(ws[i].job)])
    case Send(i, v) => State(Post(c, Item(ws[i].job, v)), ws[i := Ranging])
  }

  /** `labels` can be executed one after the other from `s`: a schedule, with a time of cancellation and
      the verdicts of the probes folded in. */
  predicate Runs<J(==), V(==)>(s: State<J, V>, labels: seq<Label<V>>)
    decreases |labels|
  {
    labels == [] || (Enabled(s, labels[0]) && Runs(Apply(s, labels[0]), labels[1..]))
  }

  function Exec<J(==), V(==)>(s: State<J, V>, labels: seq<Label<V>>): State<J, V>
    requires Runs(s, labels)
    decreases |labels|
  {
    if labels == [] then s else Exec(Apply(s, labels[0]), labels[1..])
  }

  lemma {:induction false} RunsAppend<J, V>(s: State<J, V>, a: seq<Label<V>>, b: seq<Label<V>>)
    requires Runs(s, a) && Runs(Exec(s, a), b)
    ensures Runs(s, a + b) && Exec(s, a + b) == Exec(Exec(s, a), b)
    decreases |a|
  {
    if a == [] {
      assert a + b == b;
    } else {
      assert (a + b)[0] == a[0] && (a + b)[1..] == a[1..] + b;
      RunsAppend(Apply(s, a[0]), a[1..], b);
    }
  }

  // ---- The invariant ----

  function Live<J>(w: Worker<J>): int { if w.Exited? then 0 else 1 }

  function Busy<J>(w: Worker<J>): int { if w.Holding? || w.Probing? then 1 else 0 }

  /** 1 for a worker with job `j` in hand. */
  function Holds<J(==)>(j: J): Worker<J> -> int {
    (w: Worker<J>) => if (w.Holding? || w.Probing?) && w.job == j then 1 else 0
  }

  function JobsOf<J, V>(items: seq<Item<J, V>>): seq<J> {
    seq(|items|, i requires 0 <= i < |items| => items[i].job)
  }

  /** Channel and WaitGroup discipline. */
  ghost predicate Disciplined<J, V>(s: State<J, V>, workers: nat) {
    var c := s.core;
    && !c.panicked
    && |s.workers| + c.unspawned == workers
    && c.wg == Total(Live<J>, s.workers)
    && (c.jobsClosed <==> c.main in {Launching, Collecting, Returned})
    && (c.closer == NotStarted <==> c.main in {Spawning, Producing, Launching})
    && (c.main != Spawning ==> c.unspawned == 0)
    && (c.jobsClosed ==> c.unsent == [])
    && (c.closer in {Released, Finished} ==> c.wg == 0)
    && (c.resultsClosed <==> c.closer == Finished)
    && (c.main == Returned ==> c.resultsClosed && c.results == [])
  }

  /** No job is lost, duplicated or reordered on its way to the workers. */
  ghost predicate InOrder<J, V>(c: Core<J, V>, input: seq<J>) {
    c.cap == |input| && c.taken + c.jobs + c.unsent == input
  }

  /** Every received copy of `j` is in the hands of a worker, in the result channel, collected or dropped. */
  ghost predicate Balanced<J, V>(s: State<J, V>, j: J) {
    var c := s.core;
    multiset(c.taken)[j] ==
    Total(Holds(j), s.workers) + multiset(JobsOf(c.results))[j] + multiset(JobsOf(c.collected))[j] + multiset(c.dropped)[j]
  }

  /** As many jobs received as are in hand, answered or dropped: what keeps the result channel from filling up. */
  ghost predicate Sized<J, V>(s: State<J, V>) {
    var c := s.core;
    |c.taken| == Total(Busy<J>, s.workers) + |c.results| + |c.collected| + |c.dropped|
  }

  /** A job is dropped only after cancellation, at most one by each worker; a worker leaves only when the
      jobs have run out or the context is done. */
  ghost predicate Departures<J, V>(s: State<J, V>) {
    var c := s.core;
    && |c.dropped| + Total(Live<J>, s.workers) <= |s.workers|
    && (c.dropped != [] ==> c.cancelled)
    && (Total(Live<J>, s.workers) < |s.workers| ==> c.cancelled || (c.jobsClosed && c.jobs == []))
  }

  ghost predicate Inv<J, V>(s: State<J, V>, input: seq<J>, workers: nat) {
    Disciplined(s, workers) && InOrder(s.core, input) && Sized(s) && Departures(s)
  }

  lemma JobsOfExtend<J, V>(items: seq<Item<J, V>>, x: Item<J, V>)
    ensures JobsOf(items + [x]) == JobsOf(items) + [x.job]
  {
  }

  lemma JobsOfTail<J, V>(items: seq<Item<J, V>>)
    requires items != []
    ensures JobsOf(items) == [items[0].job] + JobsOf(items[1..])
  {
  }

  lemma LiveBounds<J>(ws: seq<Worker<J>>)
    ensures 0 <= Total(Live<J>, ws) <= |ws|
  {
    TotalWithin(Live<J>, ws, 0, 1);
  }

  /** A live worker keeps the count above zero. */
  lemma LiveCounts<J>(ws: seq<Worker<J>>, i: nat)
    requires i < |ws| && !ws[i].Exited?
    ensures Total(Live<J>, ws) >= 1
  {
    TotalUpdate(Live<J>, ws, i, Exited);
    LiveBounds(ws[i := Exited]);
  }

  lemma InitInv<J, V>(input: seq<J>, workers: nat)
    ensures Inv(Init<J, V>(input, workers), input, workers)
  {
  }

  lemma {:induction false} MainKeepsInv<J, V>(s: State<J, V>, l: MainLabel, input: seq<J>, workers: nat)
    requires Inv(s, input, workers) && Enabled(s, Main(l))
    ensures Inv(Apply(s, Main(l)), input, workers)
  {
    var c := s.core;
    LiveBounds(s.workers);
    if l == Produce {
      assert c.taken + (c.jobs + [c.unsent[0]]) + c.unsent[1..] == c.taken + c.jobs + c.unsent;
    }
  }

  lemma {:induction false} WorkerKeepsInv<J, V>(s: State<J, V>, a: Label<V>, i: nat, input: seq<J>, workers: nat)
    requires Inv(s, input, workers) && Enabled(s, a)
    requires a == Take(i) || a == Leave(i) || a == NoticeCancel(i) || a == PassCheck(i) || (a.Send? && a.i == i)
    ensures Inv(Apply(s, a), input, workers)
  {
    var c, t := s.core, Apply(s, a);
    var w := t.workers[i];
    LiveBounds(s.workers);
    LiveCounts(s.workers, i);
    TotalUpdate(Live<J>, s.workers, i, w);
    TotalUpdate(Busy<J>, s.workers, i, w);
    if a == Take(i) {
      assert c.taken + [c.jobs[0]] + c.jobs[1..] + c.unsent == c.taken + c.jobs + c.unsent;
    }
  }

  lemma {:induction false} StepKeepsInv<J, V>(s: State<J, V>, a: Label<V>, input: seq<J>, workers: nat)
    requires Inv(s, input, workers) && Enabled(s, a)
    ensures Inv(Apply(s, a), input, workers)
  {
    match a
    case Main(l) => MainKeepsInv(s, l, input, workers);
    case Spawn =>
      TotalExtend(Live<J>, s.workers, Ranging);
      TotalExtend(Busy<J>, s.workers, Ranging);
    case _ => WorkerKeepsInv(s, a, a.i, input, workers);
  }

  lemma ExtendCount<T>(s: seq<T>, x: T, j: T)
    ensures multiset(s + [x])[j] == multiset(s)[j] + if x == j then 1 else 0
  {
  }

  lemma {:induction false} MainKeepsBalance<J, V>(s: State<J, V>, l: MainLabel, j: J)
    requires Balanced(s, j) && Enabled(s, Main(l))
    ensures Balanced(Apply(s, Main(l)), j)
  {
    var t := Apply(s, Main(l));
    assert t.workers == s.workers && t.core.taken == s.core.taken && t.core.dropped == s.core.dropped;
    if l == Collect {
      CollectKeepsCount(s.core.results, s.core.collected, j);
    } else {
      assert t.core.results == s.core.results && t.core.collected == s.core.collected;
    }
  }

  lemma {:induction false} CollectKeepsCount<J, V>(results: seq<Item<J, V>>, collected: seq<Item<J, V>>, j: J)
    requires results != []
    ensures multiset(JobsOf(results[1..]))[j] + multiset(JobsOf(collected + [results[0]]))[j]
            == multiset(JobsOf(results))[j] + multiset(JobsOf(collected))[j]
  {
    JobsOfTail(results);
    JobsOfExtend(collected, results[0]);
    ExtendCount(JobsOf(collected), results[0].job, j);
    assert multiset(JobsOf(results)) == multiset([results[0].job]) + multiset(JobsOf(results[1..]));
  }

  lemma TakeKeepsBalance<J, V>(s: State<J, V>, i: nat, j: J)
    requires Balanced(s, j) && Enabled(s, Take(i)) && !Apply(s, Take(i)).core.panicked
    ensures Balanced(Apply(s, Take(i)), j)
  {
    TotalUpdate(Holds(j), s.workers, i, Apply(s, Take(i)).workers[i]);
    ExtendCount(s.core.taken, s.core.jobs[0], j);
  }

  lemma LeaveKeepsBalance<J, V>(s: State<J, V>, i: nat, j: J)
    requires Balanced(s, j) && Enabled(s, Leave(i)) && !Apply(s, Leave(i)).core.panicked
    ensures Balanced(Apply(s, Leave(i)), j)
  {
    var t := Apply(s, Leave(i));
    assert t.core == s.core.(wg := s.core.wg - 1);
    assert t.workers == s.workers[i := Exited];
    TotalUpdate(Holds(j), s.workers, i, Exited);
  }

  lemma {:induction false} NoticeKeepsBalance<J, V>(s: State<J, V>, i: nat, j: J)
    requires Balanced(s, j) && Enabled(s, NoticeCancel(i)) && !Apply(s, NoticeCancel(i)).core.panicked
    ensures Balanced(Apply(s, NoticeCancel(i)), j)
  {
    var t := Apply(s, NoticeCancel(i));
    assert t.core == s.core.(wg := s.core.wg - 1, dropped := s.core.dropped + [s.workers[i].job]);
    assert t.workers == s.workers[i := Exited];
    TotalUpdate(Holds(j), s.workers, i, Exited);
    ExtendCount(s.core.dropped, s.workers[i].job, j);
  }

  lemma PassKeepsBalance<J, V>(s: State<J, V>, i: nat, j: J)
    requires Balanced(s, j) && Enabled(s, PassCheck(i)) && !Apply(s, PassCheck(i)).core.panicked
    ensures Balanced(Apply(s, PassCheck(i)), j)
  {
    TotalUpdate(Holds(j), s.workers, i, Apply(s, PassCheck(i)).workers[i]);
  }

  lemma {:induction false} SendKeepsBalance<J, V>(s: State<J, V>, i: nat, v: V, j: J)
    requires Balanced(s, j) && Enabled(s, Send(i, v)) && !Apply(s, Send(i, v)).core.panicked
    ensures Balanced(Apply(s, Send(i, v)), j)
  {
    TotalUpdate(Holds(j), s.workers, i, Apply(s, Send(i, v)).workers[i]);
    JobsOfExtend(s.core.results, Item(s.workers[i].job, v));
    ExtendCount(JobsOf(s.core.results), s.workers[i].job, j);
  }

  lemma {:induction false} StepKeepsBalance<J, V>(s: State<J, V>, a: Label<V>, j: J)
    requires Balanced(s, j) && Enabled(s, a) && !Apply(s, a).core.panicked
    ensures Balanced(Apply(s, a), j)
  {
    match a
    case Main(l) => MainKeepsBalance(s, l, j);
    case Spawn => TotalExtend(Holds(j), s.workers, Ranging);
    case Take(i) => TakeKeepsBalance(s, i, j);
    case Leave(i) => LeaveKeepsBalance(s, i, j);
    case NoticeCancel(i) => NoticeKeepsBalance(s, i, j);
    case PassCheck(i) => PassKeepsBalance(s, i, j);
    case Send(i, v) => SendKeepsBalance(s, i, v, j);
  }

  /** The invariant holds in every state of every run. */
  lemma {:induction false} RunKeepsInv<J, V>(s: State<J, V>, labels: seq<Label<V>>, input: seq<J>, workers: nat)
    requires Inv(s, input, workers) && Runs(s, labels)
    ensures Inv(Exec(s, labels), input, workers)
    decreases |labels|
  {
    if labels != [] {
      StepKeepsInv(s, labels[0], input, workers);
      RunKeepsInv(Apply(s, labels[0]), labels[1..], input, workers);
    }
  }

  lemma {:induction false} RunKeepsBalance<J, V>(s: State<J, V>, labels: seq<Label<V>>, input: seq<J>, workers: nat, j: J)
    requires Inv(s, input, workers) && Balanced(s, j) && Runs(s, labels)
    ensures Balanced(Exec(s, labels), j)
    decreases |labels|
  {
    if labels != [] {
      StepKeepsInv(s, labels[0], input, workers);
      StepKeepsBalance(s, labels[0], j);
      RunKeepsBalance(Apply(s, labels[0]), labels[1..], input, workers, j);
    }
  }
}
