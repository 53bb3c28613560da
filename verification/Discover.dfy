/**
  `discover.Discoverer.Run`: the worker pool with the worker body spelt out. A worker looks up the host
  name, tries ICMP, dials the ports in turn and has three places from which it sends. Every run of this
  fine-grained system is shown to be a run of the plain pool, which is what makes its theorems available;
  the result queue then needs room for one result per address, and that is what it has.
*/
module Discover {
  import opened Arithmetic
  import opened Folds
  import opened Pool
  import opened PoolTheorems
  import opened Addresses
  import opened IpNet
  import opened Cidr

  /** `Unset` is the zero value of the state; nothing in the program ever assigns `Down`. */
  datatype HostState = Unset | Alive | Down | Unknown

  datatype Discovery = NoDiscovery | ByIcmp | ByTcp(port: int)

  datatype HostResult = HostResult(ip: Address, hostname: string, state: HostState, discovery: Discovery)

  datatype Config = Config(icmpEnabled: bool, tcpEnabled: bool, tcpPorts: seq<int>)

  /** The outside world: reverse lookup ("" when there is no name), echo reply, and whether dialling the
      k-th port of the list succeeds. */
  datatype World = World(hostname: Address -> string, echoes: Address -> bool, dials: (Address, nat) -> bool)

  // ---- What a result should say ----

  predicate Pings(cfg: Config, world: World, ip: Address) {
    cfg.icmpEnabled && world.echoes(ip)
  }

  predicate Answers(cfg: Config, world: World, ip: Address, k: nat) {
    cfg.tcpEnabled && k < |cfg.tcpPorts| && world.dials(ip, k)
  }

  /** Alive by ICMP if the host echoes; else alive by the first port of the list that answers; else unknown. */
  ghost predicate Correct(cfg: Config, world: World, r: HostResult) {
    && r.hostname == world.hostname(r.ip)
    && (r.state == Alive || r.state == Unknown)
    && (r.state == Alive <==> Pings(cfg, world, r.ip) || exists k: nat :: Answers(cfg, world, r.ip, k))
    && (r.discovery == ByIcmp <==> Pings(cfg, world, r.ip))
    && (r.discovery == NoDiscovery <==> r.state == Unknown)
    && (r.discovery.ByTcp? ==>
          exists k: nat ::
            && Answers(cfg, world, r.ip, k)
            && r.discovery.port == cfg.tcpPorts[k]
            && forall j: nat :: j < k ==> !Answers(cfg, world, r.ip, j))
  }

  /** What that comes to, case by case. */
  lemma CorrectMeans(cfg: Config, world: World, r: HostResult)
    requires Correct(cfg, world, r)
    ensures r.hostname == world.hostname(r.ip)
    ensures cfg.icmpEnabled && world.echoes(r.ip) ==> r.state == Alive && r.discovery == ByIcmp
    ensures !(cfg.icmpEnabled && world.echoes(r.ip)) && cfg.tcpEnabled ==>
              forall k: nat :: k < |cfg.tcpPorts| && world.dials(r.ip, k) && (forall j: nat :: j < k ==> !world.dials(r.ip, j)) ==>
                r.state == Alive && r.discovery == ByTcp(cfg.tcpPorts[k])
    ensures !(cfg.icmpEnabled && world.echoes(r.ip))
            && (cfg.tcpEnabled ==> forall k: nat :: k < |cfg.tcpPorts| ==> !world.dials(r.ip, k)) ==>
              r.state == Unknown && r.discovery == NoDiscovery
  {
    if !(cfg.icmpEnabled && world.echoes(r.ip)) && cfg.tcpEnabled {
      forall k: nat | k < |cfg.tcpPorts| && world.dials(r.ip, k) && forall j: nat :: j < k ==> !world.dials(r.ip, j)
        ensures r.state == Alive && r.discovery == ByTcp(cfg.tcpPorts[k])
      {
        assert Answers(cfg, world, r.ip, k);
        var m: nat :| Answers(cfg, world, r.ip, m) && r.discovery.port == cfg.tcpPorts[m]
          && forall j: nat :: j < m ==> !Answers(cfg, world, r.ip, j);
        assert !(m < k) && !(k < m);
      }
    }
  }

  /** The body of the worker's loop for one address that has passed the context check, run by itself. It
      sends exactly once, whichever of the three sends it reaches. */
  method ProbeHost(cfg: Config, world: World, ip: Address) returns (sent: seq<HostResult>)
    ensures |sent| == 1 && sent[0].ip == ip && Correct(cfg, world, sent[0])
  {
    sent := [];
    var result := HostResult(ip, world.hostname(ip), Unset, NoDiscovery);
    if cfg.icmpEnabled {
      if world.echoes(ip) {
        result := result.(state := Alive, discovery := ByIcmp);
        sent := sent + [result];
        return;
      }
    }
    if cfg.tcpEnabled && |cfg.tcpPorts| > 0 {
      for k := 0 to |cfg.tcpPorts|
        invariant sent == [] && result == HostResult(ip, world.hostname(ip), Unset, NoDiscovery)
        invariant forall j: nat :: j < k ==> !Answers(cfg, world, ip, j)
      {
        if world.dials(ip, k) {
          result := result.(state := Alive, discovery := ByTcp(cfg.tcpPorts[k]));
          sent := sent + [result];
          assert Answers(cfg, world, ip, k);
          break;
        }
      }
      if result.state == Alive {
        return;
      }
    }
    result := result.(state := Unknown);
    sent := sent + [result];
  }

  // ---- The step system ----

  datatype HostWorker =
    | AtRange                              // waiting for an address
    | Received(ip: Address)                // before the context check
    | LookingUp(ip: Address)
    | TryingIcmp(r: HostResult)
    | SendingIcmp(r: HostResult)
    | TryingTcp(r: HostResult)
    | Dialing(r: HostResult, k: nat)       // about to dial the k-th port, if there is one
    | SendingTcp(r: HostResult)
    | AfterPorts(r: HostResult)            // the loop over the ports is done, by `break` or otherwise
    | SendingUnknown(r: HostResult)
    | Gone

  datatype DState = DState(core: Core<Address, HostResult>, workers: seq<HostWorker>)

  datatype DLabel =
    | OnMain(l: MainLabel)
    | Start
    | Receive(i: nat)
    | RangeEnds(i: nat)
    | SeeDone(i: nat)
    | SeeOpen(i: nat)
    | Advance(i: nat)   // a step that touches nothing but the worker's own variables
    | Deliver(i: nat)

  function DInit(hosts: seq<Address>, workers: nat): DState {
    DState(InitCore(hosts, workers), [])
  }

  predicate Local(w: HostWorker) {
    w.LookingUp? || w.TryingIcmp? || w.TryingTcp? || w.Dialing? || w.AfterPorts?
  }

  predicate Sending(w: HostWorker) {
    w.SendingIcmp? || w.SendingTcp? || w.SendingUnknown?
  }

  function Blank(world: World, ip: Address): HostResult {
    HostResult(ip, world.hostname(ip), Unset, NoDiscovery)
  }

  function LocalStep(cfg: Config, world: World, w: HostWorker): HostWorker
    requires Local(w)
  {
    match w
    case LookingUp(ip) => TryingIcmp(Blank(world, ip))
    case TryingIcmp(r) =>
      if cfg.icmpEnabled && world.echoes(r.ip) then SendingIcmp(r.(state := Alive, discovery := ByIcmp))
      else TryingTcp(r)
    case TryingTcp(r) =>
      if cfg.tcpEnabled && |cfg.tcpPorts| > 0 then Dialing(r, 0)
      else SendingUnknown(r.(state := Unknown))
    case Dialing(r, k) =>
      if k >= |cfg.tcpPorts| then AfterPorts(r)
      else if world.dials(r.ip, k) then SendingTcp(r.(state := Alive, discovery := ByTcp(cfg.tcpPorts[k])))
      else Dialing(r, k + 1)
    case AfterPorts(r) =>
      if r.state == Alive then AtRange else SendingUnknown(r.(state := Unknown))
  }

  /** After a send: `continue`, `break` out of the port loop, or the end of the body. */
  function AfterSend(w: HostWorker): HostWorker
    requires Sending(w)
  {
    if w.SendingTcp? then AfterPorts(w.r) else AtRange
  }

  predicate DEnabled(s: DState, a: DLabel) {
    var c, ws := s.core, s.workers;
    && !c.panicked
    && match a
       case OnMain(l) => MainEnabled(c, l)
       case Start => c.main == Spawning && c.unspawned > 0
       case Receive(i) => i < |ws| && ws[i].AtRange? && c.jobs != []
       case RangeEnds(i) => i < |ws| && ws[i].AtRange? && c.jobs == [] && c.jobsClosed
       case SeeDone(i) => i < |ws| && ws[i].Received? && c.cancelled
       case SeeOpen(i) => i < |ws| && ws[i].Received? && !c.cancelled
       case Advance(i) => i < |ws| && Local(ws[i])
       case Deliver(i) => i < |ws| && Sending(ws[i]) && MayPost(c)
  }

  function DApply(cfg: Config, world: World, s: DState, a: DLabel): DState
    requires DEnabled(s, a)
  {
    var c, ws := s.core, s.workers;
    match a
    case OnMain(l) => DState(MainApply(c, l), ws)
    case Start => DState(AddWorker(c), ws + [AtRange])
    case Receive(i) => DState(TakeJob(c), ws[i := Received(c.jobs[0])])
    case RangeEnds(i) => DState(Depart(c), ws[i := Gone])
    case SeeDone(i) => DState(Abandon(c, ws[i].ip), ws[i := Gone])
    case SeeOpen(i) => DState(c, ws[i := LookingUp(ws[i].ip)])
    case Advance(i) => DState(c, ws[i := LocalStep(cfg, world, ws[i])])
    case Deliver(i) => DState(Post(c, Item(ws[i].r.ip, ws[i].r)), ws[i := AfterSend(ws[i])])
  }

  predicate DRuns(cfg: Config, world: World, s: DState, labels: seq<DLabel>)
    decreases |labels|
  {
    labels == [] || (DEnabled(s, labels[0]) && DRuns(cfg, world, DApply(cfg, world, s, labels[0]), labels[1..]))
  }

  function DExec(cfg: Config, world: World, s: DState, labels: seq<DLabel>): DState
    requires DRuns(cfg, world, s, labels)
    decreases |labels|
  {
    if labels == [] then s else DExec(cfg, world, DApply(cfg, world, s, labels[0]), labels[1..])
  }

  // ---- Refinement ----

  /** The plain worker behind a detailed one. A worker past the port loop with an alive host has already
      sent, so it counts as being back at the range. */
  function AbsWorker(w: HostWorker): Worker<Address> {
    match w
    case AtRange => Ranging
    case Received(ip) => Holding(ip)
    case LookingUp(ip) => Probing(ip)
    case TryingIcmp(r) => Probing(r.ip)
    case SendingIcmp(r) => Probing(r.ip)
    case TryingTcp(r) => Probing(r.ip)
    case Dialing(r, _) => Probing(r.ip)
    case SendingTcp(r) => Probing(r.ip)
    case AfterPorts(r) => if r.state == Alive then Ranging else Probing(r.ip)
    case SendingUnknown(r) => Probing(r.ip)
    case Gone => Exited
  }

  function Abs(s: DState): State<Address, HostResult> {
    State(s.core, seq(|s.workers|, i requires 0 <= i < |s.workers| => AbsWorker(s.workers[i])))
  }

  /** The step of the plain pool that a detailed step makes, if any. */
  function AbsLabels(s: DState, a: DLabel): seq<Label<HostResult>>
    requires DEnabled(s, a)
  {
    match a
    case OnMain(l) => [Main(l)]
    case Start => [Spawn]
    case Receive(i) => [Take(i)]
    case RangeEnds(i) => [Leave(i)]
    case SeeDone(i) => [NoticeCancel(i)]
    case SeeOpen(i) => [PassCheck(i)]
    case Advance(_) => []
    case Deliver(i) => [Send(i, s.workers[i].r)]
  }

  /** What a worker knows at each point of its body. */
  ghost predicate SoundWorker(cfg: Config, world: World, w: HostWorker) {
    match w
    case TryingIcmp(r) => r == Blank(world, r.ip)
    case TryingTcp(r) => r == Blank(world, r.ip) && !Pings(cfg, world, r.ip)
    case Dialing(r, k) =>
      && r == Blank(world, r.ip) && !Pings(cfg, world, r.ip)
      && cfg.tcpEnabled && k <= |cfg.tcpPorts|
      && forall j: nat :: j < k ==> !Answers(cfg, world, r.ip, j)
    case AfterPorts(r) =>
      r.state == Alive
      || (r == Blank(world, r.ip) && !Pings(cfg, world, r.ip) && forall j: nat :: !Answers(cfg, world, r.ip, j))
    case SendingIcmp(r) => r.state == Alive && Correct(cfg, world, r)
    case SendingTcp(r) => r.state == Alive && Correct(cfg, world, r)
    case SendingUnknown(r) => Correct(cfg, world, r)
    case _ => true
  }

  ghost predicate SoundItems(cfg: Config, world: World, items: seq<Item<Address, HostResult>>) {
    forall i :: 0 <= i < |items| ==> items[i].job == items[i].value.ip && Correct(cfg, world, items[i].value)
  }

  ghost predicate Sound(cfg: Config, world: World, s: DState) {
    && (forall i :: 0 <= i < |s.workers| ==> SoundWorker(cfg, world, s.workers[i]))
    && SoundItems(cfg, world, s.core.results)
    && SoundItems(cfg, world, s.core.collected)
  }

  lemma LocalStepIsSound(cfg: Config, world: World, w: HostWorker)
    requires SoundWorker(cfg, world, w) && Local(w)
    ensures SoundWorker(cfg, world, LocalStep(cfg, world, w))
    ensures AbsWorker(LocalStep(cfg, world, w)) == AbsWorker(w)
  {
    if w.Dialing? && w.k < |cfg.tcpPorts| && world.dials(w.r.ip, w.k) {
      assert Answers(cfg, world, w.r.ip, w.k);
    }
  }

  lemma AbsUpdate(s: DState, i: nat, w: HostWorker)
    requires i < |s.workers|
    ensures Abs(DState(s.core, s.workers[i := w])).workers == Abs(s).workers[i := AbsWorker(w)]
  {
  }

  lemma StepKeepsWorkersSound(cfg: Config, world: World, s: DState, a: DLabel)
    requires Sound(cfg, world, s) && DEnabled(s, a)
    ensures forall i :: 0 <= i < |DApply(cfg, world, s, a).workers| ==> SoundWorker(cfg, world, DApply(cfg, world, s, a).workers[i])
  {
    if a.Advance? {
      LocalStepIsSound(cfg, world, s.workers[a.i]);
    }
  }

  lemma MainKeepsItemsSound(cfg: Config, world: World, c: Core<Address, HostResult>, l: MainLabel)
    requires SoundItems(cfg, world, c.results) && SoundItems(cfg, world, c.collected) && MainEnabled(c, l)
    ensures SoundItems(cfg, world, MainApply(c, l).results) && SoundItems(cfg, world, MainApply(c, l).collected)
  {
  }

  lemma StepKeepsItemsSound(cfg: Config, world: World, s: DState, a: DLabel)
    requires Sound(cfg, world, s) && DEnabled(s, a)
    ensures SoundItems(cfg, world, DApply(cfg, world, s, a).core.results)
    ensures SoundItems(cfg, world, DApply(cfg, world, s, a).core.collected)
  {
    match a
    case OnMain(l) => MainKeepsItemsSound(cfg, world, s.core, l);
    case Deliver(i) => assert SoundWorker(cfg, world, s.workers[i]);
    case _ =>
      var c := DApply(cfg, world, s, a).core;
      assert c.results == s.core.results && c.collected == s.core.collected;
  }

  lemma StepIsSound(cfg: Config, world: World, s: DState, a: DLabel)
    requires Sound(cfg, world, s) && DEnabled(s, a)
    ensures Sound(cfg, world, DApply(cfg, world, s, a))
  {
    StepKeepsWorkersSound(cfg, world, s, a);
    StepKeepsItemsSound(cfg, world, s, a);
  }

  /** A detailed step is a step of the plain pool, or none. */
  lemma StepRefines(cfg: Config, world: World, s: DState, a: DLabel)
    requires Sound(cfg, world, s) && DEnabled(s, a)
    ensures Runs(Abs(s), AbsLabels(s, a))
    ensures Exec(Abs(s), AbsLabels(s, a)) == Abs(DApply(cfg, world, s, a))
  {
    var t, ws := DApply(cfg, world, s, a), s.workers;
    match a
    case OnMain(_) =>
    case Start => assert Abs(t).workers == Abs(s).workers + [Ranging];
    case Advance(i) =>
      LocalStepIsSound(cfg, world, ws[i]);
      AbsUpdate(s, i, t.workers[i]);
    case Deliver(i) => DeliverRefines(cfg, world, s, i);
    case _ =>
      AbsUpdate(s, a.i, t.workers[a.i]);
      assert Enabled(Abs(s), AbsLabels(s, a)[0]);
  }

  lemma DeliverRefines(cfg: Config, world: World, s: DState, i: nat)
    requires Sound(cfg, world, s) && DEnabled(s, Deliver(i))
    ensures Enabled(Abs(s), Send(i, s.workers[i].r))
    ensures Apply(Abs(s), Send(i, s.workers[i].r)) == Abs(DApply(cfg, world, s, Deliver(i)))
  {
    assert SoundWorker(cfg, world, s.workers[i]);
    AbsUpdate(s, i, AfterSend(s.workers[i]));
  }

  /** Every run of the detailed system is a run of the plain pool, with the same results. */
  lemma {:induction false} RunRefines(cfg: Config, world: World, s: DState, labels: seq<DLabel>)
    returns (plain: seq<Label<HostResult>>)
    requires Sound(cfg, world, s) && DRuns(cfg, world, s, labels)
    ensures Runs(Abs(s), plain) && Exec(Abs(s), plain) == Abs(DExec(cfg, world, s, labels))
    ensures Sound(cfg, world, DExec(cfg, world, s, labels))
    decreases |labels|
  {
    if labels == [] {
      plain := [];
    } else {
      var t := DApply(cfg, world, s, labels[0]);
      StepRefines(cfg, world, s, labels[0]);
      StepIsSound(cfg, world, s, labels[0]);
      var rest := RunRefines(cfg, world, t, labels[1..]);
      RunsAppend(Abs(s), AbsLabels(s, labels[0]), rest);
      plain := AbsLabels(s, labels[0]) + rest;
    }
  }

  // ---- Progress and termination ----

  /** Steps a worker may still make on its own before its next send or its next address. */
  function LocalRank(cfg: Config): HostWorker -> int {
    (w: HostWorker) => match w
         case LookingUp(_) => |cfg.tcpPorts| + 5
         case TryingIcmp(_) => |cfg.tcpPorts| + 4
         case TryingTcp(_) => |cfg.tcpPorts| + 3
         case Dialing(_, k) => if k <= |cfg.tcpPorts| then |cfg.tcpPorts| - k + 2 else 2
         case AfterPorts(_) => 1
         case _ => 0
  }

  function DRank(cfg: Config, s: DState): (r: int)
    ensures r >= 0
  {
    TotalWithin(LocalRank(cfg), s.workers, 0, |cfg.tcpPorts| + 5);
    (|cfg.tcpPorts| + 6) * Rank(Abs(s)) + Total(LocalRank(cfg), s.workers)
  }

  /** A step of the plain pool may give one worker a new body to run; any other step uses one up. */
  lemma LocalRankChange(cfg: Config, world: World, s: DState, a: DLabel)
    requires Sound(cfg, world, s) && DEnabled(s, a)
    ensures var before, after := Total(LocalRank(cfg), s.workers), Total(LocalRank(cfg), DApply(cfg, world, s, a).workers);
      after <= before + if a.Advance? then -1 else |cfg.tcpPorts| + 5
  {
    var t, f := DApply(cfg, world, s, a), LocalRank(cfg);
    match a
    case OnMain(_) =>
    case Start => TotalExtend(f, s.workers, AtRange);
    case Advance(i) =>
      AdvanceUsesUp(cfg, world, s.workers[i]);
      TotalUpdate(f, s.workers, i, t.workers[i]);
    case _ => TotalUpdate(f, s.workers, a.i, t.workers[a.i]);
  }

  lemma AdvanceUsesUp(cfg: Config, world: World, w: HostWorker)
    requires SoundWorker(cfg, world, w) && Local(w)
    ensures LocalRank(cfg)(LocalStep(cfg, world, w)) < LocalRank(cfg)(w)
  {
  }

  lemma DStepLowersRank(cfg: Config, world: World, s: DState, a: DLabel, input: seq<Address>, workers: nat)
    requires Sound(cfg, world, s) && Inv(Abs(s), input, workers) && DEnabled(s, a)
    ensures DRank(cfg, DApply(cfg, world, s, a)) < DRank(cfg, s)
  {
    var t := DApply(cfg, world, s, a);
    StepRefines(cfg, world, s, a);
    LocalRankChange(cfg, world, s, a);
    if !a.Advance? {
      StepLowersRank(Abs(s), AbsLabels(s, a)[0], input, workers);
      assert Abs(t) == Apply(Abs(s), AbsLabels(s, a)[0]);
      Scaled(|cfg.tcpPorts| + 6, Rank(Abs(t)), Rank(Abs(s)));
    }
  }

  lemma Scaled(l: nat, a: int, b: int)
    requires a < b
    ensures l * a + l <= l * b
  {
    TimesMonotonic(a + 1, b, l);
  }

  lemma DStepKeepsInv(cfg: Config, world: World, s: DState, a: DLabel, input: seq<Address>, workers: nat)
    requires Sound(cfg, world, s) && Inv(Abs(s), input, workers) && DEnabled(s, a)
    ensures Sound(cfg, world, DApply(cfg, world, s, a)) && Inv(Abs(DApply(cfg, world, s, a)), input, workers)
  {
    StepIsSound(cfg, world, s, a);
    StepRefines(cfg, world, s, a);
    RunKeepsInv(Abs(s), AbsLabels(s, a), input, workers);
  }

  lemma {:induction false} DRunLowersRank(cfg: Config, world: World, s: DState, labels: seq<DLabel>, input: seq<Address>, workers: nat)
    requires Sound(cfg, world, s) && Inv(Abs(s), input, workers) && DRuns(cfg, world, s, labels)
    ensures |labels| + DRank(cfg, DExec(cfg, world, s, labels)) <= DRank(cfg, s)
    decreases |labels|
  {
    if labels != [] {
      DStepLowersRank(cfg, world, s, labels[0], input, workers);
      DStepKeepsInv(cfg, world, s, labels[0], input, workers);
      DRunLowersRank(cfg, world, DApply(cfg, world, s, labels[0]), labels[1..], input, workers);
    }
  }

  lemma InitIsSound(cfg: Config, world: World, hosts: seq<Address>, workers: nat)
    ensures Sound(cfg, world, DInit(hosts, workers))
    ensures Abs(DInit(hosts, workers)) == Init(hosts, workers)
    ensures Inv(Abs(DInit(hosts, workers)), hosts, workers)
  {
    InitInv<Address, HostResult>(hosts, workers);
  }

  lemma DInitRank(cfg: Config, hosts: seq<Address>, workers: nat)
    ensures DRank(cfg, DInit(hosts, workers)) == (|cfg.tcpPorts| + 6) * (5 * |hosts| + 2 * workers + 8)
  {
    var s := DInit(hosts, workers);
    assert Abs(s) == Init(hosts, workers);
    InitRank<Address, HostResult>(hosts, workers);
    assert Total(LocalRank(cfg), s.workers) == 0;
  }

  /** A bound on the length of every run, in addresses, workers and ports. */
  lemma DRunsAreBounded(cfg: Config, world: World, hosts: seq<Address>, workers: nat, labels: seq<DLabel>)
    requires DRuns(cfg, world, DInit(hosts, workers), labels)
    ensures |labels| <= (|cfg.tcpPorts| + 6) * (5 * |hosts| + 2 * workers + 8)
  {
    InitIsSound(cfg, world, hosts, workers);
    DInitRank(cfg, hosts, workers);
    DRunLowersRank(cfg, world, DInit(hosts, workers), labels, hosts, workers);
  }

  function FirstLocal(ws: seq<HostWorker>): (i: nat)
    ensures i <= |ws|
    ensures i < |ws| ==> Local(ws[i])
    ensures i == |ws| ==> forall j :: 0 <= j < |ws| ==> !Local(ws[j])
  {
    if ws == [] then 0 else if Local(ws[0]) then 0 else 1 + FirstLocal(ws[1..])
  }

  /** A step that can be taken, other than cancelling: a worker's own if there is one, else what the plain
      pool would do next. */
  function DNextLabel(world: World, s: DState): DLabel {
    var i := FirstLocal(s.workers);
    if i < |s.workers| then Advance(i)
    else match NextLabel(Abs(s), ip => Blank(world, ip))
         case Main(l) => OnMain(l)
         case Spawn => Start
         case Take(j) => Receive(j)
         case Leave(j) => RangeEnds(j)
         case NoticeCancel(j) => SeeDone(j)
         case PassCheck(j) => SeeOpen(j)
         case Send(j, _) => Deliver(j)
  }

  /** No deadlock in the detailed system either. */
  lemma DProgress(cfg: Config, world: World, s: DState, input: seq<Address>, workers: nat)
    requires Sound(cfg, world, s) && Inv(Abs(s), input, workers) && s.core.main != Returned
    ensures DEnabled(s, DNextLabel(world, s)) && DNextLabel(world, s) != OnMain(Cancel)
  {
    if FirstLocal(s.workers) == |s.workers| {
      Progress(Abs(s), ip => Blank(world, ip), input, workers);
    }
  }

  /** From every reachable state the discovery can be completed without cancelling it. */
  lemma {:induction false} DCanFinish(cfg: Config, world: World, s: DState, input: seq<Address>, workers: nat)
    returns (labels: seq<DLabel>)
    requires Sound(cfg, world, s) && Inv(Abs(s), input, workers)
    ensures DRuns(cfg, world, s, labels)
    ensures DExec(cfg, world, s, labels).core.main == Returned
    ensures DExec(cfg, world, s, labels).core.cancelled == s.core.cancelled
    decreases DRank(cfg, s)
  {
    if s.core.main == Returned {
      labels := [];
    } else {
      DNextStep(cfg, world, s, input, workers);
      var a := DNextLabel(world, s);
      var rest := DCanFinish(cfg, world, DApply(cfg, world, s, a), input, workers);
      labels := [a] + rest;
      assert labels[0] == a && labels[1..] == rest;
    }
  }

  lemma DNextStep(cfg: Config, world: World, s: DState, input: seq<Address>, workers: nat)
    requires Sound(cfg, world, s) && Inv(Abs(s), input, workers) && s.core.main != Returned
    ensures var a := DNextLabel(world, s);
      DEnabled(s, a) && DRank(cfg, DApply(cfg, world, s, a)) < DRank(cfg, s)
      && Sound(cfg, world, DApply(cfg, world, s, a)) && Inv(Abs(DApply(cfg, world, s, a)), input, workers)
      && DApply(cfg, world, s, a).core.cancelled == s.core.cancelled
  {
    var a := DNextLabel(world, s);
    DProgress(cfg, world, s, input, workers);
    DStepLowersRank(cfg, world, s, a, input, workers);
    DStepKeepsInv(cfg, world, s, a, input, workers);
    OnlyCancelCancels(cfg, world, s, a);
  }

  lemma OnlyCancelCancels(cfg: Config, world: World, s: DState, a: DLabel)
    requires DEnabled(s, a) && a != OnMain(Cancel)
    ensures DApply(cfg, world, s, a).core.cancelled == s.core.cancelled
  {
  }

  lemma SafeState(s: DState, hosts: seq<Address>, workers: nat)
    requires Inv(Abs(s), hosts, workers)
    ensures forall i :: 0 <= i < |s.workers| && Sending(s.workers[i]) ==> !s.core.resultsClosed && |s.core.results| < |hosts|
    ensures s.core.resultsClosed ==> forall i :: 0 <= i < |s.workers| ==> s.workers[i].Gone?
  {
    forall i: nat | i < |s.workers| && Sending(s.workers[i])
      ensures !s.core.resultsClosed && |s.core.results| < |hosts|
    {
      SendIsSafe(Abs(s), i, hosts, workers);
    }
    forall i: nat | i < |s.workers| && s.core.resultsClosed
      ensures s.workers[i].Gone?
    {
      if !s.workers[i].Gone? {
        LiveCounts(Abs(s).workers, i);
      }
    }
  }

  /** Safety carries over: nothing faults, a send in progress finds an open channel with room, and the result
      channel is closed only when every worker is gone. */
  lemma DiscoveryIsSafe(cfg: Config, world: World, hosts: seq<Address>, workers: nat, labels: seq<DLabel>)
    requires DRuns(cfg, world, DInit(hosts, workers), labels)
    ensures var s := DExec(cfg, world, DInit(hosts, workers), labels);
      && !s.core.panicked
      && (forall i :: 0 <= i < |s.workers| && Sending(s.workers[i]) ==> !s.core.resultsClosed && |s.core.results| < |hosts|)
      && (s.core.resultsClosed ==> forall i :: 0 <= i < |s.workers| ==> s.workers[i].Gone?)
  {
    InitIsSound(cfg, world, hosts, workers);
    var plain := RunRefines(cfg, world, DInit(hosts, workers), labels);
    RunKeepsInv(Init(hosts, workers), plain, hosts, workers);
    SafeState(DExec(cfg, world, DInit(hosts, workers), labels), hosts, workers);
  }

  // ---- The report ----

  /** What `Run` returns: the collected results. */
  function Report(c: Core<Address, HostResult>): (r: seq<HostResult>)
    ensures |r| == |c.collected|
  {
    seq(|c.collected|, i requires 0 <= i < |c.collected| => c.collected[i].value)
  }

  function Ips(report: seq<HostResult>): (ips: seq<Address>)
    ensures |ips| == |report|
  {
    seq(|report|, i requires 0 <= i < |report| => report[i].ip)
  }

  lemma {:induction false} IpCount(report: seq<HostResult>, ip: Address)
    ensures multiset(Ips(report))[ip] == Total((r: HostResult) => if r.ip == ip then 1 else 0, report)
  {
    if report != [] {
      IpCount(report[1..], ip);
      assert Ips(report) == [report[0].ip] + Ips(report[1..]);
      assert multiset(Ips(report)) == multiset([report[0].ip]) + multiset(Ips(report[1..]));
    }
  }

  lemma ReportIsCorrect(cfg: Config, world: World, s: DState)
    requires Sound(cfg, world, s)
    ensures forall i :: 0 <= i < |Report(s.core)| ==> Correct(cfg, world, Report(s.core)[i])
    ensures Ips(Report(s.core)) == JobsOf(s.core.collected)
  {
  }

  /** At any time, cancelled or not: every result collected so far is right, is about a host of the block,
      and is the only one about it. */
  lemma PartialReport(cfg: Config, world: World, addr: Address, p: nat, hosts: seq<Address>, workers: nat, labels: seq<DLabel>)
    requires p <= 8 * |addr| && ListsBlock(hosts, addr, p)
    requires DRuns(cfg, world, DInit(hosts, workers), labels)
    ensures var report := Report(DExec(cfg, world, DInit(hosts, workers), labels).core);
      && (forall i :: 0 <= i < |report| ==> Correct(cfg, world, report[i]))
      && (forall ip: Address :: multiset(Ips(report))[ip] <= if IsListed(addr, p, ip) then 1 else 0)
  {
    InitIsSound(cfg, world, hosts, workers);
    var plain := RunRefines(cfg, world, DInit(hosts, workers), labels);
    var s := DExec(cfg, world, DInit(hosts, workers), labels);
    ReportIsCorrect(cfg, world, s);
    forall ip: Address
      ensures multiset(Ips(Report(s.core)))[ip] <= if IsListed(addr, p, ip) then 1 else 0
    {
      JobsAreConserved(hosts, workers, plain, ip);
      EachListedOnce(hosts, addr, p, ip);
    }
  }

  /** The whole discovery: for any block, any positive number of workers and any schedule without a
      cancellation, the report names each listed address exactly once, names nothing else, and says the right
      thing about each. Unless the block is cut off, the listed addresses are its hosts. */
  lemma EachHostReportedOnce(cfg: Config, world: World, addr: Address, p: nat, hosts: seq<Address>, workers: nat, labels: seq<DLabel>)
    requires p <= 8 * |addr| && ListsBlock(hosts, addr, p) && workers >= 1
    requires DRuns(cfg, world, DInit(hosts, workers), labels)
    requires DExec(cfg, world, DInit(hosts, workers), labels).core.main == Returned
    requires !DExec(cfg, world, DInit(hosts, workers), labels).core.cancelled
    ensures var report := Report(DExec(cfg, world, DInit(hosts, workers), labels).core);
      && (forall i :: 0 <= i < |report| ==> Correct(cfg, world, report[i]))
      && (forall ip: Address :: multiset(Ips(report))[ip] == if IsListed(addr, p, ip) then 1 else 0)
      && (!CutOff(addr, p) ==> forall ip: Address :: multiset(Ips(report))[ip] == if IsHost(addr, p, ip) then 1 else 0)
  {
    InitIsSound(cfg, world, hosts, workers);
    var plain := RunRefines(cfg, world, DInit(hosts, workers), labels);
    var s := DExec(cfg, world, DInit(hosts, workers), labels);
    ReportIsCorrect(cfg, world, s);
    ExactlyOnce(hosts, workers, plain);
    forall ip: Address
      ensures multiset(Ips(Report(s.core)))[ip] == if IsListed(addr, p, ip) then 1 else 0
      ensures !CutOff(addr, p) ==> multiset(Ips(Report(s.core)))[ip] == if IsHost(addr, p, ip) then 1 else 0
    {
      EachListedOnce(hosts, addr, p, ip);
    }
  }

  /** A run that is over, whether or not it was cancelled on the way. */
  ghost predicate Over(cfg: Config, world: World, hosts: seq<Address>, workers: nat, labels: seq<DLabel>) {
    && DRuns(cfg, world, DInit(hosts, workers), labels)
    && DExec(cfg, world, DInit(hosts, workers), labels).core.main == Returned
  }

  ghost predicate OverUncancelled(cfg: Config, world: World, hosts: seq<Address>, workers: nat, labels: seq<DLabel>) {
    Over(cfg, world, hosts, workers, labels) && !DExec(cfg, world, DInit(hosts, workers), labels).core.cancelled
  }

  /** The addresses in the report of a run. */
  function Found(cfg: Config, world: World, hosts: seq<Address>, workers: nat, labels: seq<DLabel>): seq<Address>
    requires DRuns(cfg, world, DInit(hosts, workers), labels)
  {
    Ips(Report(DExec(cfg, world, DInit(hosts, workers), labels).core))
  }

  lemma WholeListFound(cfg: Config, world: World, hosts: seq<Address>, workers: nat, labels: seq<DLabel>)
    requires OverUncancelled(cfg, world, hosts, workers, labels) && workers >= 1
    ensures multiset(Found(cfg, world, hosts, workers, labels)) == multiset(hosts)
  {
    InitIsSound(cfg, world, hosts, workers);
    var plain := RunRefines(cfg, world, DInit(hosts, workers), labels);
    ReportIsCorrect(cfg, world, DExec(cfg, world, DInit(hosts, workers), labels));
    ExactlyOnce(hosts, workers, plain);
  }

  /** An uncancelled run without workers that finds nothing. */
  lemma UnstaffedRun(cfg: Config, world: World, hosts: seq<Address>) returns (labels: seq<DLabel>)
    ensures OverUncancelled(cfg, world, hosts, 0, labels) && Found(cfg, world, hosts, 0, labels) == []
  {
    InitIsSound(cfg, world, hosts, 0);
    labels := DCanFinish(cfg, world, DInit(hosts, 0), hosts, 0);
    var plain := RunRefines(cfg, world, DInit(hosts, 0), labels);
    NoWorkersNoResults(hosts, plain);
  }

  /** A cancelled run that finds nothing: the context is done before any worker looks at it. */
  lemma CancelledRun(cfg: Config, world: World, hosts: seq<Address>, workers: nat) returns (labels: seq<DLabel>)
    ensures Over(cfg, world, hosts, workers, labels) && Found(cfg, world, hosts, workers, labels) == []
  {
    var s := DInit(hosts, workers);
    InitIsSound(cfg, world, hosts, workers);
    DStepKeepsInv(cfg, world, s, OnMain(Cancel), hosts, workers);
    var t := DApply(cfg, world, s, OnMain(Cancel));
    var rest := DCanFinish(cfg, world, t, hosts, workers);
    var plain := RunRefines(cfg, world, t, rest);
    NothingWillBeProbed(Abs(t), plain);
    labels := [OnMain(Cancel)] + rest;
    assert labels[0] == OnMain(Cancel) && labels[1..] == rest;
    assert DExec(cfg, world, s, labels) == DExec(cfg, world, t, rest);
  }

  /** The report covers the list in every uncancelled run if and only if there is a worker or nothing to do. */
  lemma DCompleteIff(cfg: Config, world: World, hosts: seq<Address>, workers: nat)
    ensures (forall labels :: OverUncancelled(cfg, world, hosts, workers, labels)
               ==> multiset(Found(cfg, world, hosts, workers, labels)) == multiset(hosts))
            <==> (workers >= 1 || hosts == [])
  {
    if workers >= 1 {
      forall labels | OverUncancelled(cfg, world, hosts, workers, labels)
        ensures multiset(Found(cfg, world, hosts, workers, labels)) == multiset(hosts)
      {
        WholeListFound(cfg, world, hosts, workers, labels);
      }
    } else if hosts == [] {
      forall labels | OverUncancelled(cfg, world, hosts, workers, labels)
        ensures multiset(Found(cfg, world, hosts, workers, labels)) == multiset(hosts)
      {
        NothingToFind(cfg, world, workers, labels);
      }
    } else {
      var labels := UnstaffedRun(cfg, world, hosts);
      assert |multiset(Found(cfg, world, hosts, 0, labels))| == 0 && |multiset(hosts)| == |hosts|;
    }
  }

  lemma NothingToFind(cfg: Config, world: World, workers: nat, labels: seq<DLabel>)
    requires Over(cfg, world, [], workers, labels)
    ensures Found(cfg, world, [], workers, labels) == []
  {
    InitIsSound(cfg, world, [], workers);
    var plain := RunRefines(cfg, world, DInit([], workers), labels);
    ReportIsCorrect(cfg, world, DExec(cfg, world, DInit([], workers), labels));
    CancelledScan<Address, HostResult>([], workers, plain);
    assert |multiset(Found(cfg, world, [], workers, labels))| == |Found(cfg, world, [], workers, labels)|;
  }

  /** With cancellation allowed, it covers the list in every run if and only if there is nothing to do. */
  lemma DCompleteDespiteCancelIff(cfg: Config, world: World, hosts: seq<Address>, workers: nat)
    ensures (forall labels :: Over(cfg, world, hosts, workers, labels)
               ==> multiset(Found(cfg, world, hosts, workers, labels)) == multiset(hosts))
            <==> hosts == []
  {
    if hosts == [] {
      forall labels | Over(cfg, world, hosts, workers, labels)
        ensures multiset(Found(cfg, world, hosts, workers, labels)) == multiset(hosts)
      {
        NothingToFind(cfg, world, workers, labels);
      }
    } else {
      var labels := CancelledRun(cfg, world, hosts, workers);
      assert |multiset(Found(cfg, world, hosts, workers, labels))| == 0 && |multiset(hosts)| == |hosts|;
    }
  }

  /** From the block to the report: every uncancelled run names each host address of the block once and
      nothing else if and only if there is a worker and the enumeration does not cut the block off. */
  lemma HostsReportedIff(cfg: Config, world: World, addr: Address, p: nat, hosts: seq<Address>, workers: nat)
    requires p <= 8 * |addr| && ListsBlock(hosts, addr, p)
    ensures (forall labels, ip: Address :: OverUncancelled(cfg, world, hosts, workers, labels)
               ==> multiset(Found(cfg, world, hosts, workers, labels))[ip] == if IsHost(addr, p, ip) then 1 else 0)
            <==> workers >= 1 && !CutOff(addr, p)
  {
    if workers >= 1 && !CutOff(addr, p) {
      forall labels, ip: Address | OverUncancelled(cfg, world, hosts, workers, labels)
        ensures multiset(Found(cfg, world, hosts, workers, labels))[ip] == if IsHost(addr, p, ip) then 1 else 0
      {
        EachHostReportedOnce(cfg, world, addr, p, hosts, workers, labels);
      }
    } else {
      var labels, ip := HostMissed(cfg, world, addr, p, hosts, workers);
    }
  }

  lemma HostMissed(cfg: Config, world: World, addr: Address, p: nat, hosts: seq<Address>, workers: nat)
    returns (labels: seq<DLabel>, ip: Address)
    requires p <= 8 * |addr| && ListsBlock(hosts, addr, p) && (workers == 0 || CutOff(addr, p))
    ensures OverUncancelled(cfg, world, hosts, workers, labels) && IsHost(addr, p, ip)
    ensures multiset(Found(cfg, world, hosts, workers, labels))[ip] == 0
  {
    if CutOff(addr, p) {
      InitIsSound(cfg, world, hosts, workers);
      labels := DCanFinish(cfg, world, DInit(hosts, workers), hosts, workers);
      PartialReport(cfg, world, addr, p, hosts, workers, labels);
      CutOffInside(addr, p);
      ip := FIRST;
    } else {
      labels := UnstaffedRun(cfg, world, hosts);
      CountInBlock(addr, p);
      ip := hosts[0];
      ListsExactly(hosts, addr, p, ip);
      ListedAreTheHostsIff(addr, p);
    }
  }

  /** With a single worker and no cancellation the report lists the hosts in ascending order of address. */
  lemma OneWorkerReportsInOrder(cfg: Config, world: World, addr: Address, p: nat, hosts: seq<Address>, labels: seq<DLabel>)
    requires p <= 8 * |addr| && ListsBlock(hosts, addr, p)
    requires DRuns(cfg, world, DInit(hosts, 1), labels)
    ensures var c := DExec(cfg, world, DInit(hosts, 1), labels).core;
      && Ips(Report(c)) <= hosts
      && (c.main == Returned && !c.cancelled ==> Ips(Report(c)) == hosts)
      && forall j, k :: 0 <= j < k < |Report(c)| ==> Value(Report(c)[j].ip) < Value(Report(c)[k].ip)
  {
    InitIsSound(cfg, world, hosts, 1);
    var plain := RunRefines(cfg, world, DInit(hosts, 1), labels);
    var s := DExec(cfg, world, DInit(hosts, 1), labels);
    ReportIsCorrect(cfg, world, s);
    OneWorkerKeepsOrder(hosts, plain);
    ListIsAscending(hosts, addr, p);
    AscendingPrefix(Report(s.core), hosts);
  }

  lemma AscendingPrefix(report: seq<HostResult>, hosts: seq<Address>)
    requires Ips(report) <= hosts
    requires forall j, k :: 0 <= j < k < |hosts| ==> Value(hosts[j]) < Value(hosts[k])
    ensures forall j, k :: 0 <= j < k < |report| ==> Value(report[j].ip) < Value(report[k].ip)
  {
    forall j, k | 0 <= j < k < |report|
      ensures Value(report[j].ip) < Value(report[k].ip)
    {
      assert report[j].ip == Ips(report)[j] == hosts[j];
      assert report[k].ip == Ips(report)[k] == hosts[k];
    }
  }

  lemma {:induction false} DRunExtend(cfg: Config, world: World, s: DState, labels: seq<DLabel>, a: DLabel)
    requires DRuns(cfg, world, s, labels) && DEnabled(DExec(cfg, world, s, labels), a)
    ensures DRuns(cfg, world, s, labels + [a])
    ensures DExec(cfg, world, s, labels + [a]) == DApply(cfg, world, DExec(cfg, world, s, labels), a)
    decreases |labels|
  {
    if labels == [] {
      assert ([] + [a])[1..] == [];
    } else {
      assert (labels + [a])[0] == labels[0] && (labels + [a])[1..] == labels[1..] + [a];
      DRunExtend(cfg, world, DApply(cfg, world, s, labels[0]), labels[1..], a);
    }
  }

  /** The run that a scheduler chooses: each step is the one that `pick` proposes, or some step other than
      cancelling if that cannot be taken. */
  ghost predicate Chosen(cfg: Config, world: World, s: DState, labels: seq<DLabel>, pick: DState -> DLabel)
    decreases |labels|
  {
    labels == []
    || (&& DEnabled(s, labels[0])
        && (if DEnabled(s, pick(s)) then labels[0] == pick(s) else labels[0] != OnMain(Cancel))
        && Chosen(cfg, world, DApply(cfg, world, s, labels[0]), labels[1..], pick))
  }

  lemma {:induction false} ChosenExtend(cfg: Config, world: World, s: DState, labels: seq<DLabel>, a: DLabel, pick: DState -> DLabel)
    requires Chosen(cfg, world, s, labels, pick) && DRuns(cfg, world, s, labels)
    requires var t := DExec(cfg, world, s, labels);
      DEnabled(t, a) && if DEnabled(t, pick(t)) then a == pick(t) else a != OnMain(Cancel)
    ensures Chosen(cfg, world, s, labels + [a], pick)
    decreases |labels|
  {
    if labels == [] {
      assert ([] + [a])[1..] == [];
    } else {
      assert (labels + [a])[0] == labels[0] && (labels + [a])[1..] == labels[1..] + [a];
      ChosenExtend(cfg, world, DApply(cfg, world, s, labels[0]), labels[1..], a, pick);
    }
  }

  /** A run is cancelled only if the scheduler proposes that in one of its states. */
  lemma {:induction false} CancelledByChoice(cfg: Config, world: World, s: DState, labels: seq<DLabel>, pick: DState -> DLabel)
    requires Chosen(cfg, world, s, labels, pick) && DRuns(cfg, world, s, labels) && !s.core.cancelled
    requires forall t :: pick(t) != OnMain(Cancel)
    ensures !DExec(cfg, world, s, labels).core.cancelled
    decreases |labels|
  {
    if labels != [] {
      OnlyCancelCancels(cfg, world, s, labels[0]);
      CancelledByChoice(cfg, world, DApply(cfg, world, s, labels[0]), labels[1..], pick);
    }
  }

  /** `Discoverer.Run` from the text of the block to the report, under any scheduler: `pick` proposes the
      next step, cancelling among them, and is overruled only when its proposal cannot be taken. The program
      returns the report only; whether the context was done is not something it reports. */
  method Run(text: Parsed, cfg: Config, world: World, workers: nat, pick: DState -> DLabel)
    returns (r: Cidr.Result<seq<HostResult>>, cancelled: bool, ghost hosts: seq<Address>, ghost labels: seq<DLabel>)
    requires text.Parsed? ==> Enumerable(text.addr, text.prefix)
    ensures r.InvalidCidr? <==> text.Malformed?
    ensures r.Ok? ==>
              && ListsBlock(hosts, text.addr, text.prefix)
              && Over(cfg, world, hosts, workers, labels) && Chosen(cfg, world, DInit(hosts, workers), labels, pick)
              && r.value == Report(DExec(cfg, world, DInit(hosts, workers), labels).core)
              && cancelled == DExec(cfg, world, DInit(hosts, workers), labels).core.cancelled
    ensures (forall s :: pick(s) != OnMain(Cancel)) ==> !cancelled
    ensures r.Ok? ==> forall i :: 0 <= i < |r.value| ==> Correct(cfg, world, r.value[i])
    ensures r.Ok? ==> forall ip: Address ::
              multiset(Ips(r.value))[ip] <= if IsListed(text.addr, text.prefix, ip) then 1 else 0
    ensures r.Ok? && workers >= 1 && (!cancelled || forall s :: pick(s) != OnMain(Cancel)) ==>
              forall ip: Address :: multiset(Ips(r.value))[ip] == if IsListed(text.addr, text.prefix, ip) then 1 else 0
    ensures r.Ok? && workers >= 1 && (!cancelled || forall s :: pick(s) != OnMain(Cancel)) ==>
              !CutOff(text.addr, text.prefix) ==>
                forall ip: Address :: multiset(Ips(r.value))[ip] == if IsHost(text.addr, text.prefix, ip) then 1 else 0
  {
    var parsed := ParseCIDR(text);
    if parsed.InvalidCidr? {
      return InvalidCidr, false, [], [];
    }
    var ips := parsed.value;
    var list: seq<Address> := [];
    for k := 0 to |ips|
      invariant |list| == k && forall i :: 0 <= i < k ==> list[i] == ips[i][..]
    {
      list := list + [ips[k][..]];
    }
    hosts := list;
    var report;
    report, cancelled, labels := Discover(text.addr, text.prefix, list, cfg, world, workers, pick);
    r := Ok(report);
  }

  /** The concurrent part of `Discoverer.Run`, and the run it takes. */
  method Discover(ghost addr: Address, ghost p: nat, hosts: seq<Address>, cfg: Config, world: World, workers: nat, pick: DState -> DLabel)
    returns (report: seq<HostResult>, cancelled: bool, ghost labels: seq<DLabel>)
    requires p <= 8 * |addr| && ListsBlock(hosts, addr, p)
    ensures Over(cfg, world, hosts, workers, labels) && Chosen(cfg, world, DInit(hosts, workers), labels, pick)
    ensures report == Report(DExec(cfg, world, DInit(hosts, workers), labels).core)
    ensures cancelled == DExec(cfg, world, DInit(hosts, workers), labels).core.cancelled
    ensures (forall s :: pick(s) != OnMain(Cancel)) ==> !cancelled
    ensures forall i :: 0 <= i < |report| ==> Correct(cfg, world, report[i])
    ensures forall ip: Address :: multiset(Ips(report))[ip] <= if IsListed(addr, p, ip) then 1 else 0
    ensures workers >= 1 && (!cancelled || forall s :: pick(s) != OnMain(Cancel)) ==>
              forall ip: Address :: multiset(Ips(report))[ip] == if IsListed(addr, p, ip) then 1 else 0
    ensures workers >= 1 && (!cancelled || forall s :: pick(s) != OnMain(Cancel)) && !CutOff(addr, p) ==>
              forall ip: Address :: multiset(Ips(report))[ip] == if IsHost(addr, p, ip) then 1 else 0
  {
    var s;
    s, labels := Drive(hosts, cfg, world, workers, pick);
    PartialReport(cfg, world, addr, p, hosts, workers, labels);
    if forall t :: pick(t) != OnMain(Cancel) {
      CancelledByChoice(cfg, world, DInit(hosts, workers), labels, pick);
    }
    if workers >= 1 && !s.core.cancelled {
      EachHostReportedOnce(cfg, world, addr, p, hosts, workers, labels);
    }
    report, cancelled := Report(s.core), s.core.cancelled;
  }

  method Drive(hosts: seq<Address>, cfg: Config, world: World, workers: nat, pick: DState -> DLabel)
    returns (s: DState, ghost labels: seq<DLabel>)
    ensures Over(cfg, world, hosts, workers, labels) && Chosen(cfg, world, DInit(hosts, workers), labels, pick)
    ensures s == DExec(cfg, world, DInit(hosts, workers), labels)
  {
    s, labels := DInit(hosts, workers), [];
    InitIsSound(cfg, world, hosts, workers);
    while s.core.main != Returned
      invariant Sound(cfg, world, s) && Inv(Abs(s), hosts, workers)
      invariant DRuns(cfg, world, DInit(hosts, workers), labels)
      invariant DExec(cfg, world, DInit(hosts, workers), labels) == s
      invariant Chosen(cfg, world, DInit(hosts, workers), labels, pick)
      decreases DRank(cfg, s)
    {
      var a := pick(s);
      if !DEnabled(s, a) {
        a := DNextLabel(world, s);
        DProgress(cfg, world, s, hosts, workers);
      }
      DStepLowersRank(cfg, world, s, a, hosts, workers);
      DStepKeepsInv(cfg, world, s, a, hosts, workers);
      DRunExtend(cfg, world, DInit(hosts, workers), labels, a);
      ChosenExtend(cfg, world, DInit(hosts, workers), labels, a, pick);
      labels := labels + [a];
      s := DApply(cfg, world, s, a);
    }
  }
}
