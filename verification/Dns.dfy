/**
  `dns.Resolver.Run`: one goroutine for each record type, all appending to one list under a mutex. Unlocking
  a mutex that is not locked and a negative WaitGroup counter lead to a state with `panicked` set, from which
  nothing moves; that it is never reached is proved.
*/
module Dns {
  import opened Folds

  /** What a lookup comes back with. It may succeed with no values. */
  datatype Outcome = Failed | Found(vals: seq<string>)

  datatype Lookup = Lookup(typ: string, outcome: Outcome)

  datatype Record = Record(typ: string, value: string)

  /** `Asking`: inside the lookup. `AtLock`: before `mu.Lock()`. `Writing(k)`: holding the mutex with `k`
      values appended. `Leaving`: before the deferred `wg.Done()`. */
  datatype Pc = Asking | AtLock | Writing(k: nat) | Leaving | Done

  datatype Goroutine = Goroutine(lookup: Lookup, pc: Pc)

  /** `order` is a history: the goroutines in the order in which they got the mutex. */
  datatype State = State(
    gs: seq<Goroutine>,
    owner: int,
    records: seq<Record>,
    wg: int,
    returned: bool,
    panicked: bool,
    order: seq<nat>)

  datatype Label = Launch | Answer(i: nat) | Lock(i: nat) | Append(i: nat) | Unlock(i: nat) | Finish(i: nat) | Return

  const FREE := -1

  function Init(): State {
    State([], FREE, [], 0, false, false, [])
  }

  /** How many values a lookup has to append. */
  function Size(l: Lookup): nat {
    if l.outcome.Found? then |l.outcome.vals| else 0
  }

  predicate Enabled(lookups: seq<Lookup>, s: State, a: Label) {
    var gs := s.gs;
    && !s.panicked
    && match a
       case Launch => |gs| < |lookups|
       case Answer(i) => i < |gs| && gs[i].pc == Asking
       case Lock(i) => i < |gs| && gs[i].pc == AtLock && s.owner == FREE
       case Append(i) => i < |gs| && gs[i].pc.Writing? && gs[i].pc.k < Size(gs[i].lookup)
       case Unlock(i) => i < |gs| && gs[i].pc.Writing? && gs[i].pc.k >= Size(gs[i].lookup)
       case Finish(i) => i < |gs| && gs[i].pc == Leaving
       case Return => |gs| == |lookups| && s.wg == 0 && !s.returned
  }

  function Move(s: State, i: nat, pc: Pc): State
    requires i < |s.gs|
  {
    s.(gs := s.gs[i := s.gs[i].(pc := pc)])
  }

  function Apply(lookups: seq<Lookup>, s: State, a: Label): State
    requires Enabled(lookups, s, a)
  {
    var gs := s.gs;
    match a
    case Launch => s.(gs := gs + [Goroutine(lookups[|gs|], Asking)], wg := s.wg + 1)
    case Answer(i) => Move(s, i, if gs[i].lookup.outcome.Failed? then Leaving else AtLock)
    case Lock(i) => Move(s, i, Writing(0)).(owner := i, order := s.order + [i])
    case Append(i) =>
      var k, l := gs[i].pc.k, gs[i].lookup;
      Move(s, i, Writing(k + 1)).(records := s.records + [Record(l.typ, l.outcome.vals[k])])
    case Unlock(i) => if s.owner == FREE then s.(panicked := true) else Move(s, i, Leaving).(owner := FREE)
    case Finish(i) => if s.wg <= 0 then s.(panicked := true) else Move(s, i, Done).(wg := s.wg - 1)
    case Return => s.(returned := true)
  }

  predicate Runs(lookups: seq<Lookup>, s: State, labels: seq<Label>)
    decreases |labels|
  {
    labels == [] || (Enabled(lookups, s, labels[0]) && Runs(lookups, Apply(lookups, s, labels[0]), labels[1..]))
  }

  function Exec(lookups: seq<Lookup>, s: State, labels: seq<Label>): State
    requires Runs(lookups, s, labels)
    decreases |labels|
  {
    if labels == [] then s else Exec(lookups, Apply(lookups, s, labels[0]), labels[1..])
  }

  // ---- The invariant ----

  /** The records of one lookup, contiguous and in its own order. */
  function Tagged(l: Lookup): (r: seq<Record>)
    ensures |r| == Size(l)
  {
    seq(Size(l), k requires 0 <= k < Size(l) => Record(l.typ, l.outcome.vals[k]))
  }

  /** The records of the lookups in `order`, one after the other. */
  function Flat(lookups: seq<Lookup>, order: seq<nat>): seq<Record>
    requires forall j :: 0 <= j < |order| ==> order[j] < |lookups|
  {
    if order == [] then []
    else Flat(lookups, order[..|order| - 1]) + Tagged(lookups[order[|order| - 1]])
  }

  function Live(g: Goroutine): int { if g.pc == Done then 0 else 1 }

  ghost predicate Distinct(order: seq<nat>) {
    forall j, k :: 0 <= j < k < |order| ==> order[j] != order[k]
  }

  /** The goroutine has been given the mutex. */
  predicate HasLocked(g: Goroutine) {
    g.lookup.outcome.Found? && (g.pc.Writing? || g.pc == Leaving || g.pc == Done)
  }

  /** What program counters a lookup allows. */
  predicate Allowed(l: Lookup, pc: Pc) {
    && (l.outcome.Failed? ==> pc in {Asking, Leaving, Done})
    && (pc.Writing? ==> pc.k <= Size(l))
  }

  ghost predicate Threads(lookups: seq<Lookup>, s: State) {
    && |s.gs| <= |lookups|
    && forall i :: 0 <= i < |s.gs| ==> s.gs[i].lookup == lookups[i] && Allowed(lookups[i], s.gs[i].pc)
  }

  /** The WaitGroup counts the goroutines that are not done. */
  ghost predicate Counted(lookups: seq<Lookup>, s: State) {
    s.wg == Total(Live, s.gs) && (s.returned ==> |s.gs| == |lookups| && s.wg == 0)
  }

  /** Mutual exclusion: the writer and no one else owns the mutex. */
  ghost predicate Exclusive(s: State) {
    && (s.owner == FREE || 0 <= s.owner < |s.gs|)
    && forall i :: 0 <= i < |s.gs| ==> (s.gs[i].pc.Writing? <==> s.owner == i)
  }

  ghost predicate Ordered(s: State) {
    && Distinct(s.order)
    && (forall j :: 0 <= j < |s.order| ==> s.order[j] < |s.gs|)
    && (forall i: nat :: i < |s.gs| ==> (i in s.order <==> HasLocked(s.gs[i])))
    && (s.owner != FREE ==> s.order != [] && s.order[|s.order| - 1] == s.owner)
  }

  /** The list is what the finished writers left, followed by what the present one has got round to. */
  ghost predicate Merged(lookups: seq<Lookup>, s: State)
    requires Threads(lookups, s) && Exclusive(s) && Ordered(s)
  {
    if s.owner == FREE then s.records == Flat(lookups, s.order)
    else s.records == Flat(lookups, s.order[..|s.order| - 1]) + Tagged(lookups[s.owner])[..s.gs[s.owner].pc.k]
  }

  ghost predicate Inv(lookups: seq<Lookup>, s: State) {
    !s.panicked && Threads(lookups, s) && Counted(lookups, s) && Exclusive(s) && Ordered(s) && Merged(lookups, s)
  }

  lemma LiveBounds(gs: seq<Goroutine>)
    ensures 0 <= Total(Live, gs) <= |gs|
  {
    TotalWithin(Live, gs, 0, 1);
  }

  /** A goroutine that is not done keeps the counter above zero. */
  lemma LiveCounts(gs: seq<Goroutine>, i: nat)
    requires i < |gs| && gs[i].pc != Done
    ensures Total(Live, gs) >= 1
  {
    TotalUpdate(Live, gs, i, gs[i].(pc := Done));
    LiveBounds(gs[i := gs[i].(pc := Done)]);
  }

  /** The mutex is locked when it is unlocked, and the counter never goes below zero. */
  lemma {:induction false} StepIsSafe(lookups: seq<Lookup>, s: State, a: Label)
    requires Inv(lookups, s) && Enabled(lookups, s, a)
    ensures !Apply(lookups, s, a).panicked
  {
    if a.Finish? {
      LiveCounts(s.gs, a.i);
    }
  }

  lemma {:induction false} MoveKeepsThreads(lookups: seq<Lookup>, s: State, i: nat, pc: Pc)
    requires Threads(lookups, s) && i < |s.gs| && Allowed(lookups[i], pc)
    ensures Threads(lookups, Move(s, i, pc))
  {
  }

  lemma {:induction false} StepKeepsThreads(lookups: seq<Lookup>, s: State, a: Label)
    requires Inv(lookups, s) && Enabled(lookups, s, a)
    ensures Threads(lookups, Apply(lookups, s, a))
  {
    match a
    case Launch =>
    case Return =>
    case Answer(i) => MoveKeepsThreads(lookups, s, i, if lookups[i].outcome.Failed? then Leaving else AtLock);
    case Lock(i) => MoveKeepsThreads(lookups, s, i, Writing(0));
    case Append(i) => MoveKeepsThreads(lookups, s, i, Writing(s.gs[i].pc.k + 1));
    case Unlock(i) => MoveKeepsThreads(lookups, s, i, Leaving);
    case Finish(i) => MoveKeepsThreads(lookups, s, i, Done);
  }

  lemma {:induction false} StepKeepsCounted(lookups: seq<Lookup>, s: State, a: Label)
    requires Inv(lookups, s) && Enabled(lookups, s, a) && !Apply(lookups, s, a).panicked
    ensures Counted(lookups, Apply(lookups, s, a))
  {
    var t := Apply(lookups, s, a);
    match a
    case Launch => TotalExtend(Live, s.gs, Goroutine(lookups[|s.gs|], Asking));
    case Return =>
    case _ =>
      LiveCounts(s.gs, a.i);
      TotalUpdate(Live, s.gs, a.i, t.gs[a.i]);
  }

  lemma {:induction false} StepKeepsInv(lookups: seq<Lookup>, s: State, a: Label)
    requires Inv(lookups, s) && Enabled(lookups, s, a)
    ensures Inv(lookups, Apply(lookups, s, a))
  {
    StepIsSafe(lookups, s, a);
    StepKeepsThreads(lookups, s, a);
    StepKeepsCounted(lookups, s, a);
    StepKeepsExclusive(lookups, s, a);
    StepKeepsOrdered(lookups, s, a);
    StepKeepsMerged(lookups, s, a);
  }

  lemma {:induction false} StepKeepsExclusive(lookups: seq<Lookup>, s: State, a: Label)
    requires Inv(lookups, s) && Enabled(lookups, s, a)
    ensures Exclusive(Apply(lookups, s, a))
  {
  }

  lemma {:induction false} StepKeepsOrdered(lookups: seq<Lookup>, s: State, a: Label)
    requires Inv(lookups, s) && Enabled(lookups, s, a)
    ensures Ordered(Apply(lookups, s, a))
  {
    if a.Lock? {
      LockKeepsOrdered(lookups, s, a.i);
    } else {
      OnlyLockLocks(lookups, s, a);
      SameOrder(s, Apply(lookups, s, a));
    }
  }

  lemma {:induction false} OnlyLockLocks(lookups: seq<Lookup>, s: State, a: Label)
    requires Inv(lookups, s) && Enabled(lookups, s, a) && !a.Lock?
    ensures var t := Apply(lookups, s, a);
      && t.order == s.order && |s.gs| <= |t.gs| && (t.owner == s.owner || t.owner == FREE)
      && forall i :: 0 <= i < |t.gs| ==> (HasLocked(t.gs[i]) <==> i < |s.gs| && HasLocked(s.gs[i]))
  {
    if !a.Launch? && !a.Return? {
      OthersLock(lookups, s, a, a.i);
    }
  }

  lemma {:induction false} OthersLock(lookups: seq<Lookup>, s: State, a: Label, i: nat)
    requires Inv(lookups, s) && Enabled(lookups, s, a) && a in {Answer(i), Append(i), Unlock(i), Finish(i)}
    ensures var t := Apply(lookups, s, a);
      && t.order == s.order && |t.gs| == |s.gs| && (t.owner == s.owner || t.owner == FREE)
      && t.gs == s.gs[i := t.gs[i]] && (HasLocked(t.gs[i]) <==> HasLocked(s.gs[i]))
  {
  }

  lemma {:induction false} SameOrder(s: State, t: State)
    requires Ordered(s) && t.order == s.order && |s.gs| <= |t.gs| && (t.owner == s.owner || t.owner == FREE)
    requires forall i :: 0 <= i < |t.gs| ==> (HasLocked(t.gs[i]) <==> i < |s.gs| && HasLocked(s.gs[i]))
    ensures Ordered(t)
  {
  }

  lemma {:induction false} LockKeepsOrdered(lookups: seq<Lookup>, s: State, i: nat)
    requires Inv(lookups, s) && Enabled(lookups, s, Lock(i))
    ensures Ordered(Apply(lookups, s, Lock(i)))
  {
    var t := Apply(lookups, s, Lock(i));
    assert i !in s.order;
    forall j: nat | j < |t.gs|
      ensures j in t.order <==> HasLocked(t.gs[j])
    {
      assert j in t.order <==> j in s.order || j == i;
    }
  }

  lemma {:induction false} StepKeepsMerged(lookups: seq<Lookup>, s: State, a: Label)
    requires Inv(lookups, s) && Enabled(lookups, s, a)
    requires Threads(lookups, Apply(lookups, s, a)) && Exclusive(Apply(lookups, s, a)) && Ordered(Apply(lookups, s, a))
    ensures Merged(lookups, Apply(lookups, s, a))
  {
    match a
    case Lock(i) => LockKeepsMerged(lookups, s, i);
    case Append(i) => AppendKeepsMerged(lookups, s, i);
    case Unlock(i) => UnlockKeepsMerged(lookups, s, i);
    case _ => OtherKeepsMerged(lookups, s, a);
  }

  lemma {:induction false} LockKeepsMerged(lookups: seq<Lookup>, s: State, i: nat)
    requires Inv(lookups, s) && Enabled(lookups, s, Lock(i))
    ensures var t := Apply(lookups, s, Lock(i));
      t.order != [] && t.order[..|t.order| - 1] == s.order && t.records == Flat(lookups, s.order) + Tagged(lookups[i])[..0]
  {
    assert (s.order + [i])[..|s.order|] == s.order;
  }

  lemma {:induction false} OtherKeepsMerged(lookups: seq<Lookup>, s: State, a: Label)
    requires Inv(lookups, s) && Enabled(lookups, s, a) && !a.Lock? && !a.Append? && !a.Unlock?
    ensures var t := Apply(lookups, s, a);
      && t.records == s.records && t.order == s.order && t.owner == s.owner
      && (s.owner != FREE ==> s.owner < |t.gs| && t.gs[s.owner] == s.gs[s.owner])
  {
  }

  lemma {:induction false} AppendKeepsMerged(lookups: seq<Lookup>, s: State, i: nat)
    requires Inv(lookups, s) && Enabled(lookups, s, Append(i))
    ensures var t := Apply(lookups, s, Append(i));
      t.records == Flat(lookups, s.order[..|s.order| - 1]) + Tagged(lookups[i])[..s.gs[i].pc.k + 1]
  {
    var k, all := s.gs[i].pc.k, Tagged(lookups[i]);
    assert s.owner == i;
    assert all[..k + 1] == all[..k] + [all[k]];
  }

  lemma {:induction false} UnlockKeepsMerged(lookups: seq<Lookup>, s: State, i: nat)
    requires Inv(lookups, s) && Enabled(lookups, s, Unlock(i))
    ensures s.records == Flat(lookups, s.order)
  {
    assert s.owner == i && s.order[|s.order| - 1] == i;
    assert Tagged(lookups[i])[..s.gs[i].pc.k] == Tagged(lookups[i]);
  }

  lemma {:induction false} RunKeepsInv(lookups: seq<Lookup>, s: State, labels: seq<Label>)
    requires Inv(lookups, s) && Runs(lookups, s, labels)
    ensures Inv(lookups, Exec(lookups, s, labels))
    decreases |labels|
  {
    if labels != [] {
      StepKeepsInv(lookups, s, labels[0]);
      RunKeepsInv(lookups, Apply(lookups, s, labels[0]), labels[1..]);
    }
  }

  // ---- What the result is ----

  lemma {:induction false} FlatEmpty(lookups: seq<Lookup>, order: seq<nat>)
    requires forall j :: 0 <= j < |order| ==> order[j] < |lookups|
    ensures Flat(lookups, order) == [] <==> forall j :: 0 <= j < |order| ==> Size(lookups[order[j]]) == 0
  {
    if order != [] {
      FlatEmpty(lookups, order[..|order| - 1]);
      assert forall j :: 0 <= j < |order| - 1 ==> order[..|order| - 1][j] == order[j];
    }
  }

  lemma AllDone(lookups: seq<Lookup>, s: State)
    requires Inv(lookups, s) && s.returned
    ensures |s.gs| == |lookups| && s.owner == FREE
    ensures forall i :: 0 <= i < |s.gs| ==> s.gs[i].pc == Done
  {
    forall i | 0 <= i < |s.gs|
      ensures s.gs[i].pc == Done
    {
      if s.gs[i].pc != Done {
        LiveCounts(s.gs, i);
      }
    }
  }

  /** However the lookups interleave, the records are the value lists of the successful lookups, each
      contiguous and in its own order, one after the other in the order in which they got the mutex; and
      the error is set exactly when none of them brought a value. */
  lemma MergeIsConcatenation(lookups: seq<Lookup>, labels: seq<Label>)
    requires Runs(lookups, Init(), labels) && Exec(lookups, Init(), labels).returned
    ensures var s := Exec(lookups, Init(), labels);
      && !s.panicked && Distinct(s.order)
      && (forall j :: 0 <= j < |s.order| ==> s.order[j] < |lookups|)
      && (forall i: nat :: i < |lookups| ==> (i in s.order <==> lookups[i].outcome.Found?))
      && s.records == Flat(lookups, s.order)
      && (s.records == [] <==> forall i :: 0 <= i < |lookups| && lookups[i].outcome.Found? ==> lookups[i].outcome.vals == [])
  {
    RunKeepsInv(lookups, Init(), labels);
    var s := Exec(lookups, Init(), labels);
    AllDone(lookups, s);
    forall i: nat | i < |lookups|
      ensures i in s.order <==> lookups[i].outcome.Found?
    {
      assert s.gs[i].lookup == lookups[i];
    }
    NoValuesIff(lookups, s.order);
  }

  lemma NoValuesIff(lookups: seq<Lookup>, order: seq<nat>)
    requires forall j :: 0 <= j < |order| ==> order[j] < |lookups|
    requires forall i: nat :: i < |lookups| && lookups[i].outcome.Found? ==> i in order
    ensures Flat(lookups, order) == [] <==> forall i :: 0 <= i < |lookups| ==> Size(lookups[i]) == 0
  {
    FlatEmpty(lookups, order);
    if Flat(lookups, order) == [] {
      forall i: nat | i < |lookups|
        ensures Size(lookups[i]) == 0
      {
        if lookups[i].outcome.Found? {
          var j :| 0 <= j < |order| && order[j] == i;
        }
      }
    }
  }

  /** The records of the `j`-th lookup in the order stand after those of the earlier ones. */
  lemma {:induction false} FlatPrefix(lookups: seq<Lookup>, order: seq<nat>, j: nat)
    requires j <= |order| && forall k :: 0 <= k < |order| ==> order[k] < |lookups|
    ensures Flat(lookups, order[..j]) <= Flat(lookups, order)
    decreases |order|
  {
    if j == |order| {
      assert order[..j] == order;
    } else {
      var init := order[..|order| - 1];
      FlatPrefix(lookups, init, j);
      assert init[..j] == order[..j];
    }
  }

  /** The values of a lookup stand in a row from `at` on, in their order and with its type. */
  ghost predicate HasRow(records: seq<Record>, l: Lookup, at: nat) {
    l.outcome.Found? ==>
      && at + |l.outcome.vals| <= |records|
      && forall k :: 0 <= k < |l.outcome.vals| ==> records[at + k] == Record(l.typ, l.outcome.vals[k])
  }

  lemma {:induction false} RowOf(lookups: seq<Lookup>, order: seq<nat>, j: nat)
    requires j < |order| && forall m :: 0 <= m < |order| ==> order[m] < |lookups|
    ensures var l, records, at := lookups[order[j]], Flat(lookups, order), |Flat(lookups, order[..j])|;
      at + Size(l) == |Flat(lookups, order[..j + 1])| <= |records| && HasRow(records, l, at)
  {
    FlatPrefix(lookups, order, j + 1);
    assert order[..j + 1][..j] == order[..j];
    assert Flat(lookups, order[..j + 1]) == Flat(lookups, order[..j]) + Tagged(lookups[order[j]]);
  }

  lemma {:induction false} RowsApart(lookups: seq<Lookup>, order: seq<nat>, j: nat, k: nat)
    requires j < k <= |order| && forall m :: 0 <= m < |order| ==> order[m] < |lookups|
    ensures |Flat(lookups, order[..j])| + Size(lookups[order[j]]) <= |Flat(lookups, order[..k])|
  {
    RowOf(lookups, order[..k], j);
    assert order[..k][..j] == order[..j];
  }

  lemma {:induction false} RowsCover(lookups: seq<Lookup>, order: seq<nat>, m: nat) returns (j: nat)
    requires (forall k :: 0 <= k < |order| ==> order[k] < |lookups|) && m < |Flat(lookups, order)|
    ensures j < |order|
    ensures |Flat(lookups, order[..j])| <= m < |Flat(lookups, order[..j])| + Size(lookups[order[j]])
  {
    var init := order[..|order| - 1];
    if m < |Flat(lookups, init)| {
      j := RowsCover(lookups, init, m);
      assert init[..j] == order[..j];
    } else {
      j := |order| - 1;
    }
  }

  function PositionOf(order: seq<nat>, i: nat): (j: nat)
    requires i in order
    ensures j < |order| && order[j] == i
  {
    if order[0] == i then 0 else 1 + PositionOf(order[1..], i)
  }

  /** Where the row of a lookup begins. */
  function Begin(lookups: seq<Lookup>, order: seq<nat>, i: nat): nat
    requires forall m :: 0 <= m < |order| ==> order[m] < |lookups|
  {
    if i in order then |Flat(lookups, order[..PositionOf(order, i)])| else 0
  }

  lemma {:induction false} RowsDisjoint(lookups: seq<Lookup>, order: seq<nat>, i: nat, j: nat)
    requires (forall m :: 0 <= m < |order| ==> order[m] < |lookups|) && i in order && j in order && i != j
    ensures var x, y := Begin(lookups, order, i), Begin(lookups, order, j);
      x + Size(lookups[i]) <= y || y + Size(lookups[j]) <= x
  {
    var p, q := PositionOf(order, i), PositionOf(order, j);
    if p < q {
      RowsApart(lookups, order, p, q);
    } else {
      RowsApart(lookups, order, q, p);
    }
  }

  lemma {:induction false} RowAround(lookups: seq<Lookup>, order: seq<nat>, m: nat) returns (i: nat)
    requires (forall k :: 0 <= k < |order| ==> order[k] < |lookups|) && Distinct(order) && m < |Flat(lookups, order)|
    ensures i in order && Begin(lookups, order, i) <= m < Begin(lookups, order, i) + Size(lookups[i])
    ensures Flat(lookups, order)[m].typ == lookups[i].typ
  {
    var j := RowsCover(lookups, order, m);
    i := order[j];
    assert PositionOf(order, i) == j;
    RowOf(lookups, order, j);
    assert lookups[i].outcome.vals[m - |Flat(lookups, order[..j])|] == Flat(lookups, order)[m].value;
  }

  /** In the result each value of each successful lookup has a place of its own: the values of one lookup stand
      in a row, in their order and with its type, the rows do not overlap, and every record belongs to one. */
  lemma EveryValueOnce(lookups: seq<Lookup>, labels: seq<Label>) returns (at: seq<nat>)
    requires Runs(lookups, Init(), labels) && Exec(lookups, Init(), labels).returned
    ensures |at| == |lookups|
    ensures var records := Exec(lookups, Init(), labels).records;
      forall i, k :: 0 <= i < |lookups| && lookups[i].outcome.Found? && 0 <= k < |lookups[i].outcome.vals| ==>
        at[i] + k < |records| && records[at[i] + k] == Record(lookups[i].typ, lookups[i].outcome.vals[k])
    ensures forall i, j :: 0 <= i < j < |lookups| && lookups[i].outcome.Found? && lookups[j].outcome.Found? ==>
              at[i] + |lookups[i].outcome.vals| <= at[j] || at[j] + |lookups[j].outcome.vals| <= at[i]
    ensures var records := Exec(lookups, Init(), labels).records;
      forall m :: 0 <= m < |records| ==>
        exists i :: 0 <= i < |lookups| && lookups[i].outcome.Found? && records[m].typ == lookups[i].typ
          && at[i] <= m < at[i] + |lookups[i].outcome.vals|
  {
    MergeIsConcatenation(lookups, labels);
    var s := Exec(lookups, Init(), labels);
    at := Rows(lookups, s.order, s.records);
    forall i, k | 0 <= i < |lookups| && lookups[i].outcome.Found? && 0 <= k < |lookups[i].outcome.vals|
      ensures at[i] + k < |s.records| && s.records[at[i] + k] == Record(lookups[i].typ, lookups[i].outcome.vals[k])
    {
      assert HasRow(s.records, lookups[i], at[i]);
    }
    forall m: nat | m < |s.records|
      ensures exists i :: 0 <= i < |lookups| && lookups[i].outcome.Found? && s.records[m].typ == lookups[i].typ
                && at[i] <= m < at[i] + |lookups[i].outcome.vals|
    {
      var r := s.records[m];
      var i :| 0 <= i < |lookups| && lookups[i].outcome.Found? && r.typ == lookups[i].typ
        && at[i] <= m < at[i] + |lookups[i].outcome.vals|;
    }
  }

  lemma {:induction false} Rows(lookups: seq<Lookup>, order: seq<nat>, records: seq<Record>) returns (at: seq<nat>)
    requires Distinct(order) && forall j :: 0 <= j < |order| ==> order[j] < |lookups|
    requires forall i: nat :: i < |lookups| ==> (i in order <==> lookups[i].outcome.Found?)
    requires records == Flat(lookups, order)
    ensures |at| == |lookups|
    ensures forall i :: 0 <= i < |lookups| ==> HasRow(records, lookups[i], at[i])
    ensures forall i, j :: 0 <= i < j < |lookups| && lookups[i].outcome.Found? && lookups[j].outcome.Found? ==>
              at[i] + |lookups[i].outcome.vals| <= at[j] || at[j] + |lookups[j].outcome.vals| <= at[i]
    ensures forall m :: 0 <= m < |records| ==>
              exists i :: 0 <= i < |lookups| && lookups[i].outcome.Found? && records[m].typ == lookups[i].typ
                && at[i] <= m < at[i] + |lookups[i].outcome.vals|
  {
    at := seq(|lookups|, i requires 0 <= i < |lookups| => Begin(lookups, order, i));
    forall i: nat | i < |lookups|
      ensures HasRow(records, lookups[i], at[i])
    {
      if lookups[i].outcome.Found? {
        RowOf(lookups, order, PositionOf(order, i));
      }
    }
    forall i: nat, j: nat | i < j < |lookups| && lookups[i].outcome.Found? && lookups[j].outcome.Found?
      ensures at[i] + |lookups[i].outcome.vals| <= at[j] || at[j] + |lookups[j].outcome.vals| <= at[i]
    {
      RowsDisjoint(lookups, order, i, j);
    }
    forall m: nat | m < |records|
      ensures exists i :: 0 <= i < |lookups| && lookups[i].outcome.Found? && records[m].typ == lookups[i].typ
                && at[i] <= m < at[i] + |lookups[i].outcome.vals|
    {
      var i := RowAround(lookups, order, m);
      assert records[m].typ == lookups[i].typ && at[i] <= m < at[i] + |lookups[i].outcome.vals|;
    }
  }

  // ---- Progress and termination ----

  function GoroutineRank(g: Goroutine): int {
    match g.pc
    case Asking => Size(g.lookup) + 4
    case AtLock => Size(g.lookup) + 3
    case Writing(k) => if k <= Size(g.lookup) then Size(g.lookup) - k + 2 else 2
    case Leaving => 1
    case Done => 0
  }

  function LookupRank(l: Lookup): int {
    Size(l) + 5
  }

  ghost function Rank(lookups: seq<Lookup>, s: State): int
    requires |s.gs| <= |lookups|
  {
    Total(LookupRank, lookups[|s.gs|..]) + Total(GoroutineRank, s.gs) + if s.returned then 0 else 1
  }

  lemma {:induction false} StepLowersRank(lookups: seq<Lookup>, s: State, a: Label)
    requires Inv(lookups, s) && Enabled(lookups, s, a)
    ensures |Apply(lookups, s, a).gs| <= |lookups|
    ensures Rank(lookups, Apply(lookups, s, a)) < Rank(lookups, s)
  {
    match a
    case Launch =>
      var g := Goroutine(lookups[|s.gs|], Asking);
      assert lookups[|s.gs|..][1..] == lookups[|s.gs + [g]|..];
      TotalExtend(GoroutineRank, s.gs, g);
    case Return =>
    case _ =>
      StepIsSafe(lookups, s, a);
      PcAdvances(lookups, s, a, a.i);
      TotalUpdate(GoroutineRank, s.gs, a.i, Apply(lookups, s, a).gs[a.i]);
  }

  /** A step of a goroutine changes that goroutine only, and brings it nearer to its end. */
  lemma {:induction false} PcAdvances(lookups: seq<Lookup>, s: State, a: Label, i: nat)
    requires Inv(lookups, s) && Enabled(lookups, s, a) && !Apply(lookups, s, a).panicked
    requires a in {Answer(i), Lock(i), Append(i), Unlock(i), Finish(i)}
    ensures var t := Apply(lookups, s, a);
      i < |s.gs| && |t.gs| == |s.gs| && t.gs == s.gs[i := t.gs[i]] && t.returned == s.returned
      && GoroutineRank(t.gs[i]) < GoroutineRank(s.gs[i])
  {
  }

  /** No deadlock: until `Run` returns, some goroutine or the main one can move. */
  lemma Progress(lookups: seq<Lookup>, s: State) returns (a: Label)
    requires Inv(lookups, s) && !s.returned
    ensures Enabled(lookups, s, a)
  {
    if |s.gs| < |lookups| {
      a := Launch;
    } else if s.owner != FREE {
      a := if s.gs[s.owner].pc.k < Size(s.gs[s.owner].lookup) then Append(s.owner) else Unlock(s.owner);
    } else if i: nat :| i < |s.gs| && s.gs[i].pc != Done {
      a := if s.gs[i].pc == Asking then Answer(i) else if s.gs[i].pc == AtLock then Lock(i) else Finish(i);
    } else {
      forall i | 0 <= i < |s.gs|
        ensures 0 <= Live(s.gs[i]) <= 0
      {
      }
      TotalWithin(Live, s.gs, 0, 0);
      a := Return;
    }
  }

  /** Every run is finite, however it is scheduled. */
  lemma {:induction false} RunsAreBounded(lookups: seq<Lookup>, s: State, labels: seq<Label>)
    requires Inv(lookups, s) && Runs(lookups, s, labels)
    ensures |labels| <= Rank(lookups, s)
    decreases |labels|
  {
    if labels == [] {
      RankNonNegative(lookups, s);
    } else {
      StepKeepsInv(lookups, s, labels[0]);
      StepLowersRank(lookups, s, labels[0]);
      RunsAreBounded(lookups, Apply(lookups, s, labels[0]), labels[1..]);
    }
  }

  lemma {:induction false} RankNonNegative(lookups: seq<Lookup>, s: State)
    requires |s.gs| <= |lookups|
    ensures Rank(lookups, s) >= 0
  {
    NonNegativeTotal(LookupRank, lookups[|s.gs|..]);
    NonNegativeTotal(GoroutineRank, s.gs);
  }

  lemma {:induction false} NonNegativeTotal<T>(f: T -> int, s: seq<T>)
    requires forall i :: 0 <= i < |s| ==> f(s[i]) >= 0
    ensures Total(f, s) >= 0
  {
    if s != [] {
      assert forall i :: 0 <= i < |s[1..]| ==> s[1..][i] == s[i + 1];
      NonNegativeTotal(f, s[1..]);
    }
  }
}
