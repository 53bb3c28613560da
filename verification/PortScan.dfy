/**
  The TCP scans, `portscan.Scanner.Run` and `tcp.BatchCheck`: the worker pool with the checker inside its
  worker. The context is looked at twice, by the worker when it receives a port and by the checker before it
  dials, and a context that is done in between makes a result of its own. What a dial comes back with is
  open, so it is part of the label.
*/
module PortScan {
  import opened Folds
  import opened Wrappers
  import opened Pool
  import opened PoolTheorems
  import opened Summary
  import opened Tcp

  datatype Reply = Refused | Connected(latency: nat)

  datatype Dialled = Dialled(port: int, reply: Reply)

  datatype PortResult = PortResult(port: int, state: TcpState, latency: int)

  /** What a dial makes of its port. A connection that took no measurable time passes for a refusal. */
  function Verdict(d: Dialled): PortResult {
    if d.reply.Connected? && d.reply.latency > 0 then PortResult(d.port, OPEN, d.reply.latency)
    else PortResult(d.port, CLOSED, 0)
  }

  /** The result of a port whose check found the context done. */
  function Late(port: int): PortResult {
    PortResult(port, TIMEOUT, 0)
  }

  /** The checker run by the worker: one attempt, with the context looked at before it. */
  method CheckOnce(port: int, timeout: nat, done: bool, reply: Reply) returns (r: PortResult)
    ensures r.port == port && (r.state == TIMEOUT <==> done)
    ensures r.state == OPEN <==> !done && reply.Connected? && reply.latency > 0
    ensures r.latency == if r.state == OPEN then reply.latency else 0
    ensures r == if done then Late(port) else Verdict(Dialled(port, reply))
  {
    var dial: nat -> Option<nat> := _ => match reply case Refused => None case Connected(l) => Some(l);
    var cancelled: nat -> bool := _ => done;
    assert cancelled(0) == done;
    var result := Tcp.Run(1, timeout, cancelled, dial);
    var latency := if reply.Connected? then reply.latency else 0;
    assert Recorded(dial, 1) == [latency];
    assert NonZero([latency]) == if latency == 0 then [] else [latency];
    assert [] + [latency] == [latency];
    Extend([], latency);
    r := PortResult(port, result.state, result.latency);
  }

  // ---- The step system ----

  datatype PortWorker =
    | AtRange
    | Received(port: int)       // before the check of the context in the worker
    | Entering(port: int)       // before the check of the context in the checker
    | Dialing(port: int)
    | Sending(r: PortResult)
    | Gone

  /** `dials` (the dials made, in order) and `late` (the ports that were past the first check and not past the
      second) are histories. */
  datatype PState = PState(core: Core<int, PortResult>, workers: seq<PortWorker>, dials: seq<Dialled>, late: seq<int>)

  datatype PLabel =
    | OnMain(l: MainLabel)
    | Start
    | Receive(i: nat)
    | RangeEnds(i: nat)
    | SeeDone(i: nat)
    | SeeOpen(i: nat)
    | SeeDoneLate(i: nat)
    | SeeStillOpen(i: nat)
    | Dial(i: nat, reply: Reply)
    | Deliver(i: nat)

  function PInit(ports: seq<int>, workers: nat): PState {
    PState(InitCore(ports, workers), [], [], [])
  }

  predicate PEnabled(s: PState, a: PLabel) {
    var c, ws := s.core, s.workers;
    && !c.panicked
    && match a
       case OnMain(l) => MainEnabled(c, l)
       case Start => c.main == Spawning && c.unspawned > 0
       case Receive(i) => i < |ws| && ws[i].AtRange? && c.jobs != []
       case RangeEnds(i) => i < |ws| && ws[i].AtRange? && c.jobs == [] && c.jobsClosed
       case SeeDone(i) => i < |ws| && ws[i].Received? && c.cancelled
       case SeeOpen(i) => i < |ws| && ws[i].Received? && !c.cancelled
       case SeeDoneLate(i) => i < |ws| && ws[i].Entering? && c.cancelled
       case SeeStillOpen(i) => i < |ws| && ws[i].Entering? && !c.cancelled
       case Dial(i, _) => i < |ws| && ws[i].Dialing?
       case Deliver(i) => i < |ws| && ws[i].Sending? && MayPost(c)
  }

  function PApply(s: PState, a: PLabel): PState
    requires PEnabled(s, a)
  {
    var c, ws := s.core, s.workers;
    match a
    case OnMain(l) => s.(core := MainApply(c, l))
    case Start => s.(core := AddWorker(c), workers := ws + [AtRange])
    case Receive(i) => s.(core := TakeJob(c), workers := ws[i := Received(c.jobs[0])])
    case RangeEnds(i) => s.(core := Depart(c), workers := ws[i := Gone])
    case SeeDone(i) => s.(core := Abandon(c, ws[i].port), workers := ws[i := Gone])
    case SeeOpen(i) => s.(workers := ws[i := Entering(ws[i].port)])
    case SeeDoneLate(i) => s.(workers := ws[i := Sending(Late(ws[i].port))], late := s.late + [ws[i].port])
    case SeeStillOpen(i) => s.(workers := ws[i := Dialing(ws[i].port)])
    case Dial(i, reply) =>
      var d := Dialled(ws[i].port, reply);
      s.(workers := ws[i := Sending(Verdict(d))], dials := s.dials + [d])
    case Deliver(i) => s.(core := Post(c, Item(ws[i].r.port, ws[i].r)), workers := ws[i := AtRange])
  }

  predicate PRuns(s: PState, labels: seq<PLabel>)
    decreases |labels|
  {
    labels == [] || (PEnabled(s, labels[0]) && PRuns(PApply(s, labels[0]), labels[1..]))
  }

  function PExec(s: PState, labels: seq<PLabel>): PState
    requires PRuns(s, labels)
    decreases |labels|
  {
    if labels == [] then s else PExec(PApply(s, labels[0]), labels[1..])
  }

  lemma {:induction false} PRunsAppend(s: PState, a: seq<PLabel>, b: seq<PLabel>)
    requires PRuns(s, a) && PRuns(PExec(s, a), b)
    ensures PRuns(s, a + b) && PExec(s, a + b) == PExec(PExec(s, a), b)
    decreases |a|
  {
    if a == [] {
      assert a + b == b;
    } else {
      assert (a + b)[0] == a[0] && (a + b)[1..] == a[1..] + b;
      PRunsAppend(PApply(s, a[0]), a[1..], b);
    }
  }

  // ---- Refinement ----

  function AbsWorker(w: PortWorker): Worker<int> {
    match w
    case AtRange => Ranging
    case Received(port) => Holding(port)
    case Entering(port) => Probing(port)
    case Dialing(port) => Probing(port)
    case Sending(r) => Probing(r.port)
    case Gone => Exited
  }

  function Abs(s: PState): State<int, PortResult> {
    State(s.core, seq(|s.workers|, i requires 0 <= i < |s.workers| => AbsWorker(s.workers[i])))
  }

  /** The step of the plain pool that a step of the scan makes, if any. */
  function AbsLabels(s: PState, a: PLabel): seq<Label<PortResult>>
    requires PEnabled(s, a)
  {
    match a
    case OnMain(l) => [Main(l)]
    case Start => [Spawn]
    case Receive(i) => [Take(i)]
    case RangeEnds(i) => [Leave(i)]
    case SeeDone(i) => [NoticeCancel(i)]
    case SeeOpen(i) => [PassCheck(i)]
    case SeeDoneLate(_) => []
    case SeeStillOpen(_) => []
    case Dial(_, _) => []
    case Deliver(i) => [Send(i, s.workers[i].r)]
  }

  lemma AbsUpdate(s: PState, i: nat, w: PortWorker)
    requires i < |s.workers|
    ensures Abs(s.(workers := s.workers[i := w])).workers == Abs(s).workers[i := AbsWorker(w)]
  {
  }

  lemma {:induction false} PStepRefines(s: PState, a: PLabel)
    requires PEnabled(s, a)
    ensures Runs(Abs(s), AbsLabels(s, a)) && Exec(Abs(s), AbsLabels(s, a)) == Abs(PApply(s, a))
  {
    match a
    case OnMain(_) =>
    case Start => assert Abs(PApply(s, a)).workers == Abs(s).workers + [Ranging];
    case SeeDoneLate(i) => AbsUpdate(s, i, PApply(s, a).workers[i]);
    case SeeStillOpen(i) => AbsUpdate(s, i, PApply(s, a).workers[i]);
    case Dial(i, _) => AbsUpdate(s, i, PApply(s, a).workers[i]);
    case _ => SharedStepRefines(s, a, a.i);
  }

  predicate Own(a: PLabel) {
    a.SeeDoneLate? || a.SeeStillOpen? || a.Dial?
  }

  lemma {:induction false} SharedStepRefines(s: PState, a: PLabel, i: nat)
    requires PEnabled(s, a) && !a.OnMain? && !a.Start? && !Own(a) && a.i == i
    ensures var l := AbsLabels(s, a)[0];
      AbsLabels(s, a) == [l] && Enabled(Abs(s), l) && Apply(Abs(s), l) == Abs(PApply(s, a))
  {
    AbsUpdate(s, i, PApply(s, a).workers[i]);
  }

  /** Every run of the scan is a run of the plain pool, with the same results. */
  lemma {:induction false} PRunRefines(s: PState, labels: seq<PLabel>) returns (plain: seq<Label<PortResult>>)
    requires PRuns(s, labels)
    ensures Runs(Abs(s), plain) && Exec(Abs(s), plain) == Abs(PExec(s, labels))
    decreases |labels|
  {
    if labels == [] {
      plain := [];
    } else {
      PStepRefines(s, labels[0]);
      var rest := PRunRefines(PApply(s, labels[0]), labels[1..]);
      RunsAppend(Abs(s), AbsLabels(s, labels[0]), rest);
      plain := AbsLabels(s, labels[0]) + rest;
    }
  }

  lemma PStepKeepsInv(s: PState, a: PLabel, ports: seq<int>, workers: nat)
    requires Inv(Abs(s), ports, workers) && PEnabled(s, a)
    ensures Inv(Abs(PApply(s, a)), ports, workers)
  {
    PStepRefines(s, a);
    RunKeepsInv(Abs(s), AbsLabels(s, a), ports, workers);
  }

  lemma PInitInv(ports: seq<int>, workers: nat)
    ensures Abs(PInit(ports, workers)) == Init(ports, workers) && Inv(Abs(PInit(ports, workers)), ports, workers)
  {
    InitInv<int, PortResult>(ports, workers);
  }

  // ---- Where the results come from ----

  function Values(items: seq<Item<int, PortResult>>): (r: seq<PortResult>)
    ensures |r| == |items|
  {
    seq(|items|, i requires 0 <= i < |items| => items[i].value)
  }

  function Verdicts(dials: seq<Dialled>): (r: seq<PortResult>)
    ensures |r| == |dials|
  {
    seq(|dials|, i requires 0 <= i < |dials| => Verdict(dials[i]))
  }

  function Lates(late: seq<int>): (r: seq<PortResult>)
    ensures |r| == |late|
  {
    seq(|late|, i requires 0 <= i < |late| => Late(late[i]))
  }

  /** What has been made: the verdict of each dial, and a timeout for each port that was late. */
  function Made(s: PState): seq<PortResult> {
    Verdicts(s.dials) + Lates(s.late)
  }

  function Carries(v: PortResult): PortWorker -> int {
    (w: PortWorker) => if w.Sending? && w.r == v then 1 else 0
  }

  /** How many copies of `v` are about to be sent, in the channel or collected. */
  function Copies(s: PState, v: PortResult): int {
    Total(Carries(v), s.workers) + multiset(Values(s.core.results))[v] + multiset(Values(s.core.collected))[v]
  }

  /** Every result made is on its way or collected, as often as it was made, and there are no others. */
  ghost predicate Accounted(s: PState, v: PortResult) {
    Copies(s, v) == multiset(Made(s))[v]
  }

  lemma ValuesExtend(items: seq<Item<int, PortResult>>, x: Item<int, PortResult>)
    ensures Values(items + [x]) == Values(items) + [x.value]
  {
  }

  lemma {:induction false} CollectKeepsValues(results: seq<Item<int, PortResult>>, collected: seq<Item<int, PortResult>>, v: PortResult)
    requires results != []
    ensures multiset(Values(results[1..]))[v] + multiset(Values(collected + [results[0]]))[v]
            == multiset(Values(results))[v] + multiset(Values(collected))[v]
  {
    ValuesExtend(collected, results[0]);
    ExtendCount(Values(collected), results[0].value, v);
    assert Values(results) == [results[0].value] + Values(results[1..]);
    assert multiset(Values(results)) == multiset([results[0].value]) + multiset(Values(results[1..]));
  }

  lemma {:induction false} MainKeepsCopies(s: PState, l: MainLabel, v: PortResult)
    requires PEnabled(s, OnMain(l))
    ensures Copies(PApply(s, OnMain(l)), v) == Copies(s, v)
  {
    if l == Collect {
      CollectKeepsValues(s.core.results, s.core.collected, v);
    } else {
      var c := MainApply(s.core, l);
      assert c.results == s.core.results && c.collected == s.core.collected;
    }
  }

  lemma {:induction false} DeliverKeepsCopies(s: PState, i: nat, v: PortResult)
    requires PEnabled(s, Deliver(i)) && !PApply(s, Deliver(i)).core.panicked
    ensures Copies(PApply(s, Deliver(i)), v) == Copies(s, v)
  {
    var r := s.workers[i].r;
    TotalUpdate(Carries(v), s.workers, i, AtRange);
    ValuesExtend(s.core.results, Item(r.port, r));
    ExtendCount(Values(s.core.results), r, v);
  }

  /** The result that a step makes, if it makes one. */
  function MadeBy(s: PState, a: PLabel): seq<PortResult>
    requires PEnabled(s, a)
  {
    match a
    case OnMain(_) => []
    case Start => []
    case Receive(_) => []
    case RangeEnds(_) => []
    case SeeDone(_) => []
    case SeeOpen(_) => []
    case SeeDoneLate(i) => [Late(s.workers[i].port)]
    case SeeStillOpen(_) => []
    case Dial(i, reply) => [Verdict(Dialled(s.workers[i].port, reply))]
    case Deliver(_) => []
  }

  lemma {:induction false} StepMakes(s: PState, a: PLabel, v: PortResult)
    requires PEnabled(s, a) && !PApply(s, a).core.panicked
    ensures Copies(PApply(s, a), v) == Copies(s, v) + multiset(MadeBy(s, a))[v]
  {
    match a
    case OnMain(l) => MainKeepsCopies(s, l, v);
    case Start => TotalExtend(Carries(v), s.workers, AtRange);
    case Deliver(i) => DeliverKeepsCopies(s, i, v);
    case _ =>
      WorkerMakes(s, a, a.i, v);
      TotalUpdate(Carries(v), s.workers, a.i, PApply(s, a).workers[a.i]);
  }

  predicate Quiet(a: PLabel) {
    !a.OnMain? && !a.Start? && !a.Deliver?
  }

  /** A step of a worker that sends nothing: if it makes a result, the worker has it in hand. */
  lemma {:induction false} WorkerMakes(s: PState, a: PLabel, i: nat, v: PortResult)
    requires PEnabled(s, a) && Quiet(a) && a.i == i
    ensures var t := PApply(s, a);
      && t.core.results == s.core.results && t.core.collected == s.core.collected
      && |t.workers| == |s.workers| && i < |s.workers| && t.workers == s.workers[i := t.workers[i]]
      && Carries(v)(t.workers[i]) == Carries(v)(s.workers[i]) + multiset(MadeBy(s, a))[v]
  {
  }

  lemma {:induction false} HistoryGrows(s: PState, a: PLabel, v: PortResult)
    requires PEnabled(s, a)
    ensures multiset(Made(PApply(s, a)))[v] == multiset(Made(s))[v] + multiset(MadeBy(s, a))[v]
  {
    var t := PApply(s, a);
    if a.Dial? {
      assert Verdicts(t.dials) == Verdicts(s.dials) + MadeBy(s, a);
    } else if a.SeeDoneLate? {
      assert Lates(t.late) == Lates(s.late) + MadeBy(s, a);
    } else {
      assert t.dials == s.dials && t.late == s.late;
    }
  }

  // ---- The checks of the context ----

  function Between(w: PortWorker): int { if w.Entering? then 1 else 0 }

  ghost predicate Labelled(items: seq<Item<int, PortResult>>) {
    forall i :: 0 <= i < |items| ==> items[i].job == items[i].value.port
  }

  /** A port is late only after a cancellation, and then at most one for each worker: no worker gets between
      the two checks again. */
  ghost predicate Checked(s: PState) {
    |s.late| + Total(Between, s.workers) <= |s.workers| && (s.late != [] ==> s.core.cancelled)
  }

  ghost predicate WellLabelled(s: PState) {
    Labelled(s.core.results) && Labelled(s.core.collected)
  }

  lemma {:induction false} StepKeepsChecked(s: PState, a: PLabel)
    requires Checked(s) && PEnabled(s, a)
    ensures Checked(PApply(s, a))
  {
    var t := PApply(s, a);
    match a
    case OnMain(_) =>
    case Start => TotalExtend(Between, s.workers, AtRange);
    case SeeOpen(_) => TotalWithin(Between, t.workers, 0, 1);
    case _ => TotalUpdate(Between, s.workers, a.i, t.workers[a.i]);
  }

  lemma {:induction false} StepKeepsLabelled(s: PState, a: PLabel)
    requires WellLabelled(s) && PEnabled(s, a)
    ensures WellLabelled(PApply(s, a))
  {
    match a
    case OnMain(l) => MainKeepsLabelled(s.core, l);
    case Deliver(_) =>
    case _ =>
      var c := PApply(s, a).core;
      assert c.results == s.core.results && c.collected == s.core.collected;
  }

  lemma {:induction false} MainKeepsLabelled(c: Core<int, PortResult>, l: MainLabel)
    requires Labelled(c.results) && Labelled(c.collected) && MainEnabled(c, l)
    ensures Labelled(MainApply(c, l).results) && Labelled(MainApply(c, l).collected)
  {
  }

  lemma {:induction false} RunKeepsAll(s: PState, labels: seq<PLabel>, ports: seq<int>, workers: nat)
    requires Inv(Abs(s), ports, workers) && Checked(s) && WellLabelled(s) && PRuns(s, labels)
    ensures Inv(Abs(PExec(s, labels)), ports, workers) && Checked(PExec(s, labels)) && WellLabelled(PExec(s, labels))
    decreases |labels|
  {
    if labels != [] {
      PStepKeepsInv(s, labels[0], ports, workers);
      StepKeepsChecked(s, labels[0]);
      StepKeepsLabelled(s, labels[0]);
      RunKeepsAll(PApply(s, labels[0]), labels[1..], ports, workers);
    }
  }

  lemma {:induction false} RunKeepsAccount(s: PState, labels: seq<PLabel>, ports: seq<int>, workers: nat, v: PortResult)
    requires Inv(Abs(s), ports, workers) && Accounted(s, v) && PRuns(s, labels)
    ensures Accounted(PExec(s, labels), v)
    decreases |labels|
  {
    if labels != [] {
      PStepKeepsInv(s, labels[0], ports, workers);
      StepMakes(s, labels[0], v);
      HistoryGrows(s, labels[0], v);
      RunKeepsAccount(PApply(s, labels[0]), labels[1..], ports, workers, v);
    }
  }

  // ---- The report ----

  function Report(s: PState): seq<PortResult> {
    Values(s.core.collected)
  }

  function PortsOf(report: seq<PortResult>): (r: seq<int>)
    ensures |r| == |report|
  {
    seq(|report|, i requires 0 <= i < |report| => report[i].port)
  }

  ghost predicate Over(ports: seq<int>, workers: nat, labels: seq<PLabel>) {
    PRuns(PInit(ports, workers), labels) && PExec(PInit(ports, workers), labels).core.main == Returned
  }

  lemma {:induction false} AccountOfRun(ports: seq<int>, workers: nat, labels: seq<PLabel>, v: PortResult)
    requires PRuns(PInit(ports, workers), labels)
    ensures Accounted(PExec(PInit(ports, workers), labels), v)
  {
    PInitInv(ports, workers);
    assert Made(PInit(ports, workers)) == [];
    RunKeepsAccount(PInit(ports, workers), labels, ports, workers, v);
  }

  /** At any time, cancelled or not, each result collected so far was made by a dial of its port or by a check
      that came too late, and by no more results than that were made. */
  lemma PartialScan(ports: seq<int>, workers: nat, labels: seq<PLabel>)
    requires PRuns(PInit(ports, workers), labels)
    ensures var s := PExec(PInit(ports, workers), labels);
      && multiset(Report(s)) <= multiset(Made(s))
      && |s.late| <= workers && (s.late != [] ==> s.core.cancelled)
      && JobsOf(s.core.collected) == PortsOf(Report(s))
  {
    var s := PExec(PInit(ports, workers), labels);
    PInitInv(ports, workers);
    RunKeepsAll(PInit(ports, workers), labels, ports, workers);
    LateBound(s);
    forall v: PortResult
      ensures multiset(Report(s))[v] <= multiset(Made(s))[v]
    {
      AccountOfRun(ports, workers, labels, v);
      CollectedWasMade(s, v);
    }
  }

  lemma {:induction false} LateBound(s: PState)
    requires Checked(s)
    ensures |s.late| <= |s.workers|
  {
    TotalWithin(Between, s.workers, 0, 1);
  }

  lemma {:induction false} CollectedWasMade(s: PState, v: PortResult)
    requires Accounted(s, v)
    ensures multiset(Report(s))[v] <= multiset(Made(s))[v]
  {
    TotalWithin(Carries(v), s.workers, 0, 1);
  }

  lemma {:induction false} ReturnedReport(ports: seq<int>, workers: nat, labels: seq<PLabel>)
    requires Over(ports, workers, labels)
    ensures var s := PExec(PInit(ports, workers), labels); multiset(Report(s)) == multiset(Made(s))
  {
    var s := PExec(PInit(ports, workers), labels);
    PInitInv(ports, workers);
    RunKeepsAll(PInit(ports, workers), labels, ports, workers);
    ReturnedState(Abs(s), ports, workers);
    forall i | 0 <= i < |s.workers|
      ensures s.workers[i].Gone?
    {
      assert AbsWorker(s.workers[i]) == Abs(s).workers[i];
    }
    forall v: PortResult
      ensures multiset(Report(s))[v] == multiset(Made(s))[v]
    {
      AccountOfRun(ports, workers, labels, v);
      AllCollected(s, v);
    }
    SameCounts(multiset(Report(s)), multiset(Made(s)));
  }

  lemma {:induction false} AllCollected(s: PState, v: PortResult)
    requires Accounted(s, v) && s.core.results == [] && forall i :: 0 <= i < |s.workers| ==> s.workers[i].Gone?
    ensures multiset(Report(s))[v] == multiset(Made(s))[v]
  {
    TotalWithin(Carries(v), s.workers, 0, 0);
  }

  function HasPort(q: int): PortResult -> int {
    (r: PortResult) => if r.port == q then 1 else 0
  }

  lemma {:induction false} PortCount(report: seq<PortResult>, q: int)
    ensures Total(HasPort(q), report) == multiset(PortsOf(report))[q]
  {
    if report != [] {
      PortCount(report[1..], q);
      assert PortsOf(report) == [report[0].port] + PortsOf(report[1..]);
      assert multiset(PortsOf(report)) == multiset([report[0].port]) + multiset(PortsOf(report[1..]));
    }
  }

  lemma {:induction false} SamePorts(a: seq<PortResult>, b: seq<PortResult>)
    requires multiset(a) == multiset(b)
    ensures multiset(PortsOf(a)) == multiset(PortsOf(b))
  {
    forall q: int
      ensures multiset(PortsOf(a))[q] == multiset(PortsOf(b))[q]
    {
      PortCount(a, q);
      PortCount(b, q);
      TotalPermuted(HasPort(q), a, b);
    }
    SameCounts(multiset(PortsOf(a)), multiset(PortsOf(b)));
  }

  function DialledPorts(dials: seq<Dialled>): (r: seq<int>)
    ensures |r| == |dials|
  {
    seq(|dials|, i requires 0 <= i < |dials| => dials[i].port)
  }

  /** On return, cancelled or not: the report is the verdict of each dial and a timeout for each late port, as
      a multiset, so no dial goes unreported; and each requested port was dialled, was late, was dropped by a
      worker or is still in the channel. */
  lemma {:induction false} PortsAreAccountedFor(ports: seq<int>, workers: nat, labels: seq<PLabel>)
    requires Over(ports, workers, labels)
    ensures var s := PExec(PInit(ports, workers), labels);
      && multiset(Report(s)) == multiset(Verdicts(s.dials)) + multiset(Lates(s.late))
      && multiset(DialledPorts(s.dials)) + multiset(s.late) + multiset(s.core.dropped) + multiset(s.core.jobs) == multiset(ports)
      && |s.late| <= workers && |s.core.dropped| <= workers
      && (s.late != [] || s.core.dropped != [] ==> s.core.cancelled)
      && (s.core.jobs != [] ==> s.core.cancelled || workers == 0)
  {
    var s := PExec(PInit(ports, workers), labels);
    ReturnedReport(ports, workers, labels);
    PartialScan(ports, workers, labels);
    SamePorts(Report(s), Made(s));
    assert PortsOf(Made(s)) == DialledPorts(s.dials) + s.late;
    PInitInv(ports, workers);
    var plain := PRunRefines(PInit(ports, workers), labels);
    CancelledScan(ports, workers, plain);
    RunKeepsInv(Abs(PInit(ports, workers)), plain, ports, workers);
    ReturnedState(Abs(s), ports, workers);
  }

  /** Uncancelled, with at least one worker: each requested port is dialled as often as it was requested, and
      the report is what those dials said. */
  lemma {:induction false} EachPortByItsOwnDial(ports: seq<int>, workers: nat, labels: seq<PLabel>)
    requires Over(ports, workers, labels) && workers >= 1 && !PExec(PInit(ports, workers), labels).core.cancelled
    ensures var s := PExec(PInit(ports, workers), labels);
      && multiset(DialledPorts(s.dials)) == multiset(ports)
      && multiset(Report(s)) == multiset(Verdicts(s.dials))
      && forall i :: 0 <= i < |Report(s)| ==>
           (Report(s)[i].state == OPEN && Report(s)[i].latency > 0) || (Report(s)[i].state == CLOSED && Report(s)[i].latency == 0)
  {
    var s := PExec(PInit(ports, workers), labels);
    PortsAreAccountedFor(ports, workers, labels);
    forall i | 0 <= i < |Report(s)|
      ensures (Report(s)[i].state == OPEN && Report(s)[i].latency > 0) || (Report(s)[i].state == CLOSED && Report(s)[i].latency == 0)
    {
      assert Report(s)[i] in multiset(Report(s));
      assert Report(s)[i] in multiset(Verdicts(s.dials));
    }
  }

  // ---- The report by the replies ----

  /** The dials of a run, in order: the port in the worker's hands and the reply it got. */
  function DialsOf(s: PState, labels: seq<PLabel>): seq<Dialled>
    requires PRuns(s, labels)
    decreases |labels|
  {
    if labels == [] then []
    else
      var a := labels[0];
      (if a.Dial? then [Dialled(s.workers[a.i].port, a.reply)] else []) + DialsOf(PApply(s, a), labels[1..])
  }

  lemma {:induction false} RunDials(s: PState, labels: seq<PLabel>)
    requires PRuns(s, labels)
    ensures PExec(s, labels).dials == s.dials + DialsOf(s, labels)
    decreases |labels|
  {
    if labels != [] {
      StepDials(s, labels[0]);
      RunDials(PApply(s, labels[0]), labels[1..]);
    }
  }

  lemma {:induction false} StepDials(s: PState, a: PLabel)
    requires PEnabled(s, a)
    ensures PApply(s, a).dials == s.dials + if a.Dial? then [Dialled(s.workers[a.i].port, a.reply)] else []
  {
  }

  /** An open port is one that a dial connected to in measurable time. */
  lemma {:induction false} OpenVerdicts(dials: seq<Dialled>, q: int, l: nat)
    requires l > 0
    ensures multiset(Verdicts(dials))[PortResult(q, OPEN, l)] == multiset(dials)[Dialled(q, Connected(l))]
  {
    if dials != [] {
      OpenVerdicts(dials[1..], q, l);
      assert Verdicts(dials) == [Verdict(dials[0])] + Verdicts(dials[1..]);
      SplitCount(Verdict(dials[0]), Verdicts(dials[1..]), PortResult(q, OPEN, l));
      assert dials == [dials[0]] + dials[1..];
      SplitCount(dials[0], dials[1..], Dialled(q, Connected(l)));
    }
  }

  lemma SplitCount<T>(x: T, s: seq<T>, y: T)
    ensures multiset([x] + s)[y] == multiset(s)[y] + if x == y then 1 else 0
  {
  }

  /** A closed one is one that a dial did not. */
  lemma {:induction false} ClosedVerdicts(dials: seq<Dialled>, q: int)
    ensures multiset(Verdicts(dials))[PortResult(q, CLOSED, 0)]
            == Total((d: Dialled) => if d.port == q && !(d.reply.Connected? && d.reply.latency > 0) then 1 else 0, dials)
  {
    if dials != [] {
      ClosedVerdicts(dials[1..], q);
      assert Verdicts(dials) == [Verdict(dials[0])] + Verdicts(dials[1..]);
      SplitCount(Verdict(dials[0]), Verdicts(dials[1..]), PortResult(q, CLOSED, 0));
    }
  }

  lemma {:induction false} LateCount(late: seq<int>, r: PortResult)
    ensures multiset(Lates(late))[r] == if r.state == TIMEOUT && r.latency == 0 then multiset(late)[r.port] else 0
  {
    if late != [] {
      LateCount(late[1..], r);
      assert Lates(late) == [Late(late[0])] + Lates(late[1..]);
      SplitCount(Late(late[0]), Lates(late[1..]), r);
      assert late == [late[0]] + late[1..];
      SplitCount(late[0], late[1..], r.port);
    }
  }

  lemma {:induction false} NoLateVerdict(dials: seq<Dialled>, r: PortResult)
    requires r.state == TIMEOUT
    ensures multiset(Verdicts(dials))[r] == 0
  {
    assert r !in Verdicts(dials);
  }

  /** The report of a returned run, cancelled or not, port by port: as many open with a latency as dials of the
      port connected with it in measurable time, as many closed as its other dials, and as many timed out as
      checks of it came too late. */
  lemma {:induction false} ReportByPort(ports: seq<int>, workers: nat, labels: seq<PLabel>, q: int)
    requires Over(ports, workers, labels)
    ensures var s := PExec(PInit(ports, workers), labels);
      var dials := DialsOf(PInit(ports, workers), labels);
      && (forall l: nat :: l > 0 ==> multiset(Report(s))[PortResult(q, OPEN, l)] == multiset(dials)[Dialled(q, Connected(l))])
      && multiset(Report(s))[PortResult(q, CLOSED, 0)]
         == Total((d: Dialled) => if d.port == q && !(d.reply.Connected? && d.reply.latency > 0) then 1 else 0, dials)
      && multiset(Report(s))[PortResult(q, TIMEOUT, 0)] == multiset(s.late)[q]
  {
    var s := PExec(PInit(ports, workers), labels);
    PortsAreAccountedFor(ports, workers, labels);
    RunDials(PInit(ports, workers), labels);
    assert s.dials == DialsOf(PInit(ports, workers), labels);
    ClosedVerdicts(s.dials, q);
    LateCount(s.late, PortResult(q, CLOSED, 0));
    LateCount(s.late, PortResult(q, TIMEOUT, 0));
    NoLateVerdict(s.dials, PortResult(q, TIMEOUT, 0));
    forall l: nat | l > 0
      ensures multiset(Report(s))[PortResult(q, OPEN, l)] == multiset(s.dials)[Dialled(q, Connected(l))]
    {
      OpenVerdicts(s.dials, q, l);
      LateCount(s.late, PortResult(q, OPEN, l));
    }
  }

  // ---- Progress ----

  /** Steps a worker may still make on its own before it sends. */
  function LocalRank(w: PortWorker): int {
    match w
    case AtRange => 0
    case Received(_) => 0
    case Entering(_) => 2
    case Dialing(_) => 1
    case Sending(_) => 0
    case Gone => 0
  }

  function PRank(s: PState): (r: int)
    ensures r >= 0
  {
    TotalWithin(LocalRank, s.workers, 0, 2);
    3 * Rank(Abs(s)) + Total(LocalRank, s.workers)
  }

  lemma {:induction false} LocalRankChange(s: PState, a: PLabel)
    requires PEnabled(s, a)
    ensures Total(LocalRank, PApply(s, a).workers) <= Total(LocalRank, s.workers) + if Own(a) then -1 else 2
  {
    match a
    case OnMain(_) =>
    case Start => TotalExtend(LocalRank, s.workers, AtRange);
    case _ => TotalUpdate(LocalRank, s.workers, a.i, PApply(s, a).workers[a.i]);
  }

  lemma {:induction false} PStepLowersRank(s: PState, a: PLabel, ports: seq<int>, workers: nat)
    requires Inv(Abs(s), ports, workers) && PEnabled(s, a)
    ensures PRank(PApply(s, a)) < PRank(s)
  {
    PStepRefines(s, a);
    LocalRankChange(s, a);
    if Own(a) {
      assert Abs(PApply(s, a)) == Abs(s);
    } else {
      StepLowersRank(Abs(s), AbsLabels(s, a)[0], ports, workers);
      assert Abs(PApply(s, a)) == Apply(Abs(s), AbsLabels(s, a)[0]);
    }
  }

  /** A bound on the length of every run. */
  lemma {:induction false} PRunsAreBounded(ports: seq<int>, workers: nat, labels: seq<PLabel>)
    requires PRuns(PInit(ports, workers), labels)
    ensures |labels| <= 3 * (5 * |ports| + 2 * workers + 8)
  {
    PInitInv(ports, workers);
    InitRank<int, PortResult>(ports, workers);
    PRunLowersRank(PInit(ports, workers), labels, ports, workers);
  }

  lemma {:induction false} PRunLowersRank(s: PState, labels: seq<PLabel>, ports: seq<int>, workers: nat)
    requires Inv(Abs(s), ports, workers) && PRuns(s, labels)
    ensures |labels| + PRank(PExec(s, labels)) <= PRank(s)
    decreases |labels|
  {
    if labels != [] {
      PStepLowersRank(s, labels[0], ports, workers);
      PStepKeepsInv(s, labels[0], ports, workers);
      PRunLowersRank(PApply(s, labels[0]), labels[1..], ports, workers);
    }
  }

  /** A step that can be taken, other than cancelling; a dial is taken to be refused. */
  function PNextLabel(s: PState): PLabel {
    match NextLabel(Abs(s), Late)
    case Main(l) => OnMain(l)
    case Spawn => Start
    case Take(i) => Receive(i)
    case Leave(i) => RangeEnds(i)
    case NoticeCancel(i) => SeeDone(i)
    case PassCheck(i) => SeeOpen(i)
    case Send(i, _) =>
      if i < |s.workers| && s.workers[i].Entering? then (if s.core.cancelled then SeeDoneLate(i) else SeeStillOpen(i))
      else if i < |s.workers| && s.workers[i].Dialing? then Dial(i, Refused)
      else Deliver(i)
  }

  /** No deadlock in the scan either. */
  lemma {:induction false} PProgress(s: PState, ports: seq<int>, workers: nat)
    requires Inv(Abs(s), ports, workers) && s.core.main != Returned
    ensures PEnabled(s, PNextLabel(s)) && PNextLabel(s) != OnMain(Cancel)
  {
    Progress(Abs(s), Late, ports, workers);
  }

  /** From every state the scan can be completed. */
  lemma {:induction false} PCanFinish(s: PState, ports: seq<int>, workers: nat) returns (labels: seq<PLabel>)
    requires Inv(Abs(s), ports, workers)
    ensures PRuns(s, labels) && PExec(s, labels).core.main == Returned
    decreases PRank(s)
  {
    if s.core.main == Returned {
      labels := [];
    } else {
      var a := PNextLabel(s);
      PProgress(s, ports, workers);
      PStepLowersRank(s, a, ports, workers);
      PStepKeepsInv(s, a, ports, workers);
      var rest := PCanFinish(PApply(s, a), ports, workers);
      labels := [a] + rest;
      assert labels[0] == a && labels[1..] == rest;
    }
  }

  // ---- A port reported without a dial ----

  /** The goroutine that has spawned all its workers, none of which has moved. */
  lemma {:induction false} SpawnAll(s: PState) returns (labels: seq<PLabel>)
    requires s.core.main == Spawning && !s.core.panicked
    ensures PRuns(s, labels)
    ensures var t := PExec(s, labels);
      && t == s.(core := s.core.(unspawned := 0, wg := s.core.wg + s.core.unspawned), workers := t.workers)
      && |t.workers| == |s.workers| + s.core.unspawned
      && t.workers[..|s.workers|] == s.workers
      && forall i :: |s.workers| <= i < |t.workers| ==> t.workers[i] == AtRange
    decreases s.core.unspawned
  {
    if s.core.unspawned == 0 {
      labels := [];
    } else {
      var rest := SpawnAll(PApply(s, Start));
      labels := [Start] + rest;
      assert labels[0] == Start && labels[1..] == rest;
      var t := PExec(s, labels);
      assert t == PExec(PApply(s, Start), rest);
      assert t.workers[..|s.workers|] == t.workers[..|s.workers| + 1][..|s.workers|];
      assert t.workers[|s.workers|] == t.workers[..|s.workers| + 1][|s.workers|];
    }
  }

  /** The first worker gets the first port... */
  function Bait(): seq<PLabel> {
    [OnMain(BeginProducing), OnMain(Produce), Receive(0)]
  }

  /** ...and the context is done between its two checks. */
  function Trap(): seq<PLabel> {
    [SeeOpen(0), OnMain(Cancel), SeeDoneLate(0)]
  }

  lemma {:induction false} BaitIsTaken(s: PState)
    requires s.core.main == Spawning && s.core.unspawned == 0 && !s.core.panicked && !s.core.jobsClosed
    requires s.core.unsent != [] && s.core.jobs == [] && s.core.cap > 0 && !s.core.cancelled
    requires s.workers != [] && s.workers[0] == AtRange
    ensures PRuns(s, Bait())
    ensures var t := PExec(s, Bait());
      && !t.core.panicked && !t.core.cancelled
      && t.workers != [] && t.workers[0] == Received(s.core.unsent[0])
  {
  }

  lemma {:induction false} TrapWorks(s: PState, port: int)
    requires !s.core.panicked && !s.core.cancelled && s.workers != [] && s.workers[0] == Received(port)
    ensures PRuns(s, Trap()) && port in PExec(s, Trap()).late
  {
  }

  lemma {:induction false} LateStays(s: PState, labels: seq<PLabel>, port: int)
    requires PRuns(s, labels) && port in s.late
    ensures port in PExec(s, labels).late
    decreases |labels|
  {
    if labels != [] {
      LateStays(PApply(s, labels[0]), labels[1..], port);
    }
  }

  /** A run that reports its first port as timed out without ever dialling it. */
  lemma {:induction false} TimesOutUndialled(ports: seq<int>, workers: nat) returns (labels: seq<PLabel>)
    requires ports != [] && workers >= 1
    ensures Over(ports, workers, labels) && Late(ports[0]) in Report(PExec(PInit(ports, workers), labels))
  {
    var s := PInit(ports, workers);
    var spawn := SpawnAll(s);
    BaitIsTaken(PExec(s, spawn));
    PRunsAppend(s, spawn, Bait());
    TrapWorks(PExec(s, spawn + Bait()), ports[0]);
    var caught := spawn + Bait() + Trap();
    PRunsAppend(s, spawn + Bait(), Trap());
    PInitInv(ports, workers);
    RunKeepsAll(s, caught, ports, workers);
    var rest := PCanFinish(PExec(s, caught), ports, workers);
    LateStays(PExec(s, caught), rest, ports[0]);
    PRunsAppend(s, caught, rest);
    labels := caught + rest;
    LateIsReported(ports, workers, labels, ports[0]);
  }

  lemma {:induction false} LateIsReported(ports: seq<int>, workers: nat, labels: seq<PLabel>, port: int)
    requires Over(ports, workers, labels) && port in PExec(PInit(ports, workers), labels).late
    ensures Late(port) in Report(PExec(PInit(ports, workers), labels))
  {
    var s := PExec(PInit(ports, workers), labels);
    ReturnedReport(ports, workers, labels);
    var k :| 0 <= k < |s.late| && s.late[k] == port;
    assert Lates(s.late)[k] == Late(port);
    assert Late(port) in multiset(Lates(s.late));
    assert multiset(Made(s)) == multiset(Verdicts(s.dials)) + multiset(Lates(s.late));
    assert Late(port) in multiset(Report(s));
  }

  lemma {:induction false} NothingLate(ports: seq<int>, workers: nat, labels: seq<PLabel>, r: PortResult)
    requires ports == [] || workers == 0
    requires Over(ports, workers, labels) && r in Report(PExec(PInit(ports, workers), labels))
    ensures r.state != TIMEOUT
  {
    var s := PExec(PInit(ports, workers), labels);
    PortsAreAccountedFor(ports, workers, labels);
    assert s.late == [] by {
      assert |multiset(s.late)| == |s.late| && |multiset(ports)| == |ports|;
    }
    assert r in multiset(Report(s));
    assert r in multiset(Verdicts(s.dials));
  }

  /** No run, cancelled or not, reports a timeout if and only if there is nothing to scan or no one to scan it. */
  lemma {:induction false} NeverTimesOutIff(ports: seq<int>, workers: nat)
    ensures (forall labels, r :: Over(ports, workers, labels) && r in Report(PExec(PInit(ports, workers), labels)) ==> r.state != TIMEOUT)
            <==> ports == [] || workers == 0
  {
    if ports == [] || workers == 0 {
      forall labels, r | Over(ports, workers, labels) && r in Report(PExec(PInit(ports, workers), labels))
        ensures r.state != TIMEOUT
      {
        NothingLate(ports, workers, labels, r);
      }
    } else {
      var labels := TimesOutUndialled(ports, workers);
      assert Late(ports[0]).state == TIMEOUT;
    }
  }
}
