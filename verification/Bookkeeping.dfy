/** Facts about every reachable state: priorities in Q0, arrival order, and the core counters. */
module Bookkeeping {
  import opened KernelTypes
  import opened KernelSpec
  import opened Agreement
  import opened Scheduling
  import opened Sums

  // ---------- Q0 holds priority 0 only ----------

  predicate SystemAtZero(table: seq<Process>) {
    forall i :: 0 <= i < |table| && table[i].level.System? ==> table[i].priority == 0
  }

  predicate NoSetPriority(steps: seq<Step>) {
    forall i :: 0 <= i < |steps| ==> !steps[i].SetPriority?
  }

  lemma AgingKeepsSystemAtZero(table: seq<Process>)
    requires SystemAtZero(table)
    ensures SystemAtZero(AgeTable(table))
  {
  }

  lemma EditKeepsSystemAtZero(k: KernelState, s: Step)
    requires SystemAtZero(k.table)
    requires IsEdit(s) && !s.SetPriority?
    ensures SystemAtZero(Next(k, s).table)
  {
    EditShape(k, s);
  }

  lemma StepKeepsSystemAtZero(k: KernelState, s: Step)
    requires Enabled(k, s) && !s.SetPriority? && SystemAtZero(k.table)
    ensures SystemAtZero(Next(k, s).table)
  {
    match s
    case AgingTick => AgingKeepsSystemAtZero(k.table);
    case SchedulerTick => TickPicksLeast(k);
    case Create(_, _, _, _, _, _, _) =>
    case Remove(_) =>
    case _ => EditKeepsSystemAtZero(k, s);
  }

  lemma {:induction false} RunKeepsSystemAtZero(k: KernelState, steps: seq<Step>)
    requires Inv(k) && ValidRun(k, steps) && NoSetPriority(steps) && SystemAtZero(k.table)
    ensures Inv(Run(k, steps)) && SystemAtZero(Run(k, steps).table)
    decreases |steps|
  {
    if |steps| != 0 {
      StepKeepsInv(k, steps[0]);
      StepKeepsSystemAtZero(k, steps[0]);
      RunKeepsSystemAtZero(Next(k, steps[0]), steps[1..]);
    }
  }

  /** The comparison of two Q0 entries that the priority sort makes. */
  predicate SortWouldSwap(k: KernelState, i: nat, j: nat) {
    && i < |k.q0| && k.q0[i] < |k.table|
    && j < |k.q0| && k.q0[j] < |k.table|
    && k.table[k.q0[i]].priority > k.table[k.q0[j]].priority
  }

  /** Unless priorities are set by hand, the comparison guarding the empty swap of the Q0 sort is
      never true, and the slot picked from Q0 has the least priority number in Q0 and is its first
      READY slot in table order. */
  lemma Q0PickIsBest(capacity: nat, cores: int, steps: seq<Step>)
    requires ValidRun(Boot(capacity, cores), steps) && NoSetPriority(steps)
    ensures var k := Run(Boot(capacity, cores), steps);
            && Inv(k)
            && (forall i, j :: 0 <= i < |k.q0| && 0 <= j < |k.q0| ==> !SortWouldSwap(k, i, j))
            && (FirstReady(k.table, k.q0) < |k.q0| ==>
                  Picked(k).Some?
                  && forall s: nat :: ReadySlot(k.table, s) && k.table[s].level.System? ==>
                       Picked(k).value <= s && k.table[Picked(k).value].priority <= k.table[s].priority)
  {
    var k := Run(Boot(capacity, cores), steps);
    RunKeepsSystemAtZero(Boot(capacity, cores), steps);
    forall i | 0 <= i < |k.q0|
      ensures k.q0[i] < |k.table| && k.table[k.q0[i]].priority == 0
    {
      QueueInTable(k, System, i);
    }
    if FirstReady(k.table, k.q0) < |k.q0| {
      FirstReadyIsLeastSlot(k, System);
    }
  }

  /** In Q0 and Q2 the first READY entry is the READY slot of the level that comes first in the table. */
  lemma FirstReadyIsLeastSlot(k: KernelState, l: Level)
    requires Agree(k) && !l.Interactive? && FirstReady(k.table, k.Queue(l)) < |k.Queue(l)|
    ensures var f := k.Queue(l)[FirstReady(k.table, k.Queue(l))];
            f < |k.table| && k.table[f].level == l
            && forall s: nat :: ReadySlot(k.table, s) && k.table[s].level == l ==> f <= s
  {
    var q := k.Queue(l);
    var i := FirstReady(k.table, q);
    SlotsAtExact(k.table, l);
    QueueInTable(k, l, i);
    forall s: nat | ReadySlot(k.table, s) && k.table[s].level == l
      ensures q[i] <= s
    {
      var j :| 0 <= j < |q| && q[j] == s;
      assert i <= j;
    }
  }

  // ---------- table order is arrival order ----------

  predicate ArrivalSorted(table: seq<Process>) {
    forall i, j :: 0 <= i < j < |table| ==> table[i].arriveTime <= table[j].arriveTime
  }

  lemma SameArrivals(t: seq<Process>, t': seq<Process>)
    requires ArrivalSorted(t) && |t| == |t'|
    requires forall i :: 0 <= i < |t| ==> t'[i].arriveTime == t[i].arriveTime
    ensures ArrivalSorted(t')
  {
  }

  lemma RemovalKeepsSorted(t: seq<Process>, i: nat)
    requires ArrivalSorted(t) && i < |t|
    ensures ArrivalSorted(t[..i] + t[i + 1..])
  {
  }

  lemma EditKeepsSorted(k: KernelState, s: Step)
    requires ArrivalSorted(k.table)
    requires IsEdit(s)
    ensures ArrivalSorted(Next(k, s).table)
  {
    EditShape(k, s);
    SameArrivals(k.table, Next(k, s).table);
  }

  lemma TickKeepsSorted(k: KernelState)
    requires ArrivalSorted(k.table)
    ensures ArrivalSorted(SchedulerStep(k).table)
  {
    TickPicksLeast(k);
    SameArrivals(k.table, SchedulerStep(k).table);
  }

  lemma CreateKeepsSorted(k: KernelState, s: Step)
    requires ArrivalSorted(k.table) && s.Create? && Enabled(k, s)
    ensures ArrivalSorted(Next(k, s).table)
  {
  }

  lemma RemoveKeepsSorted(k: KernelState, pid: int)
    requires ArrivalSorted(k.table)
    ensures ArrivalSorted(RemoveStep(k, pid).table)
  {
    var i := FindPid(k.table, pid);
    if i == |k.table| {
      assert RemoveStep(k, pid) == k;
    } else {
      RemovalKeepsSorted(k.table, i);
    }
  }

  lemma AgingKeepsSorted(k: KernelState)
    requires ArrivalSorted(k.table)
    ensures ArrivalSorted(AgingStep(k).table)
  {
    SameArrivals(k.table, AgeTable(k.table));
  }

  lemma StepKeepsArrivalSorted(k: KernelState, s: Step)
    requires Enabled(k, s) && ArrivalSorted(k.table)
    ensures ArrivalSorted(Next(k, s).table)
  {
    match s
    case Remove(pid) => RemoveKeepsSorted(k, pid);
    case Create(_, _, _, _, _, _, _) => CreateKeepsSorted(k, s);
    case SchedulerTick => TickKeepsSorted(k);
    case AgingTick => AgingKeepsSorted(k);
    case _ => EditKeepsSorted(k, s);
  }

  lemma {:induction false} RunKeepsArrivalSorted(k: KernelState, steps: seq<Step>)
    requires ValidRun(k, steps) && ArrivalSorted(k.table)
    ensures ArrivalSorted(Run(k, steps).table)
    decreases |steps|
  {
    if |steps| != 0 {
      StepKeepsArrivalSorted(k, steps[0]);
      RunKeepsArrivalSorted(Next(k, steps[0]), steps[1..]);
    }
  }

  lemma LevelPicked(k: KernelState)
    requires Agree(k) && Picked(k).Some?
    ensures var s := Picked(k).value;
            s < |k.table| && (k.table[s].level.Background? ==>
              && FirstReady(k.table, k.q0) == |k.q0|
              && FirstReady(k.table, k.q1) == |k.q1|
              && FirstReady(k.table, k.q2) < |k.q2|
              && s == k.q2[FirstReady(k.table, k.q2)])
  {
    var i0 := FirstReady(k.table, k.q0);
    var i1 := FirstReady(k.table, k.q1);
    if i0 < |k.q0| {
      QueueInTable(k, System, i0);
    } else if i1 < |k.q1| {
      QueueInTable(k, Interactive, i1);
    } else {
      QueueInTable(k, Background, FirstReady(k.table, k.q2));
    }
  }

  // ---------- cores ----------

  function Holds(p: Process): int {
    if p.core >= 0 then 1 else 0
  }

  function Holders(k: KernelState): int {
    Sum(k.table, Holds)
  }

  predicate CoreSane(p: Process) {
    p.core >= 0 ==> p.state.Running? && p.core == 0
  }

  predicate CoresSane(t: seq<Process>) {
    forall i :: 0 <= i < |t| ==> CoreSane(t[i])
  }

  predicate CoreInv(k: KernelState) {
    1 <= k.totalCores <= k.freeCores && CoresSane(k.table)
  }

  /** Core releases a step performs. */
  function Releases(k: KernelState, s: Step): nat {
    var i := if s.Minimize? then FindPid(k.table, s.pid)
             else if s.Interrupt? then FindRunning(k.table, s.pid)
             else |k.table|;
    if i < |k.table| && k.table[i].core >= 0 then 1 else 0
  }

  /** Dispatches a step performs. */
  function Dispatches(k: KernelState, s: Step): nat {
    if s.SchedulerTick? && Picked(k).Some? then 1 else 0
  }

  /** PCBs a step removes while they hold a core. */
  function Evictions(k: KernelState, s: Step): nat {
    if s.Remove? && FindPid(k.table, s.pid) < |k.table| && k.table[FindPid(k.table, s.pid)].core >= 0
    then 1 else 0
  }

  predicate CoreStepLaw(k: KernelState, s: Step) {
    && CoreInv(Next(k, s))
    && Next(k, s).totalCores == k.totalCores
    && Next(k, s).freeCores == k.freeCores + Releases(k, s)
    && Holders(Next(k, s)) == Holders(k) + Dispatches(k, s) - Releases(k, s) - Evictions(k, s)
  }

  /** An edit that takes the state off a PCB with a core takes the core too. */
  lemma EditedCore(p: Process, s: Step)
    requires IsEdit(s) && CoreSane(p) && (s.Unblock? ==> p.state.Blocked?)
    ensures CoreSane(Edited(p, s))
    ensures Holds(Edited(p, s)) == Holds(p) - if s.Minimize? || s.Interrupt? then Holds(p) else 0
  {
  }

  lemma EditReleases(k: KernelState, s: Step)
    requires IsEdit(s)
    ensures Next(k, s).freeCores == k.freeCores + Releases(k, s)
    ensures var i := Target(k, s);
            Releases(k, s) == if (s.Minimize? || s.Interrupt?) && i < |k.table| then Holds(k.table[i]) else 0
  {
  }

  lemma CoreEdit(k: KernelState, s: Step)
    requires CoreInv(k)
    requires IsEdit(s)
    ensures CoreStepLaw(k, s)
  {
    EditShape(k, s);
    EditReleases(k, s);
    var i := Target(k, s);
    if i < |k.table| {
      SumUpdate(k.table, i, Edited(k.table[i], s), Holds);
      EditedCore(k.table[i], s);
    }
  }

  lemma CoreTick(k: KernelState)
    requires CoreInv(k)
    ensures CoreStepLaw(k, SchedulerTick)
  {
    TickPicksLeast(k);
    if Picked(k).Some? {
      var s := Picked(k).value;
      SumUpdate(k.table, s, SchedulerStep(k).table[s], Holds);
      assert CoreSane(k.table[s]);
    }
  }

  lemma NewPcbHoldsNothing(t: seq<Process>, p: Process)
    requires CoresSane(t) && p.core == -1
    ensures CoresSane(t + [p]) && Sum(t + [p], Holds) == Sum(t, Holds)
  {
    SumAppend(t, p, Holds);
  }

  lemma CoreCreate(k: KernelState, s: Step)
    requires CoreInv(k) && s.Create?
    ensures CoreStepLaw(k, s)
  {
    if |k.table| < k.capacity {
      NewPcbHoldsNothing(k.table, Process(s.pid, s.name, Ready, s.priority, s.level, s.ram, s.hdd, s.now, 0, 0, -1));
    }
  }

  lemma CoresRemoved(t: seq<Process>, i: nat)
    requires CoresSane(t) && i < |t|
    ensures CoresSane(t[..i] + t[i + 1..])
  {
    var t' := t[..i] + t[i + 1..];
    forall j | 0 <= j < |t'|
      ensures CoreSane(t'[j])
    {
      assert t'[j] == t[if j < i then j else j + 1];
    }
  }

  lemma CoreRemove(k: KernelState, s: Step)
    requires CoreInv(k) && s.Remove?
    ensures CoreStepLaw(k, s)
  {
    var i := FindPid(k.table, s.pid);
    if i == |k.table| {
      assert Next(k, s) == k;
    } else {
      CoresRemoved(k.table, i);
      SumRemove(k.table, i, Holds);
    }
  }

  lemma CoreAging(k: KernelState)
    requires CoreInv(k)
    ensures CoreStepLaw(k, AgingTick)
  {
    var t := AgeTable(k.table);
    forall i | 0 <= i < |k.table|
      ensures CoreSane(t[i]) && Holds(t[i]) == Holds(k.table[i])
    {
      assert CoreSane(k.table[i]);
    }
    SumSame(k.table, t, Holds);
  }

  lemma CoreStep(k: KernelState, s: Step)
    requires CoreInv(k)
    ensures CoreStepLaw(k, s)
  {
    match s
    case Create(_, _, _, _, _, _, _) => CoreCreate(k, s);
    case Remove(_) => CoreRemove(k, s);
    case SchedulerTick => CoreTick(k);
    case AgingTick => CoreAging(k);
    case _ => CoreEdit(k, s);
  }

  function CountSteps(k: KernelState, steps: seq<Step>, f: (KernelState, Step) -> nat): nat
    decreases |steps|
  {
    if |steps| == 0 then 0 else f(k, steps[0]) + CountSteps(Next(k, steps[0]), steps[1..], f)
  }

  lemma {:induction false} CountStepsConcat(k: KernelState, a: seq<Step>, b: seq<Step>, f: (KernelState, Step) -> nat)
    ensures CountSteps(k, a + b, f) == CountSteps(k, a, f) + CountSteps(Run(k, a), b, f)
    decreases |a|
  {
    if |a| == 0 {
      assert a + b == b;
    } else {
      assert (a + b)[1..] == a[1..] + b;
      CountStepsConcat(Next(k, a[0]), a[1..], b, f);
    }
  }

  /** Over every run: only RUNNING processes carry a core number, and it is 0; the free-core
      counter is the total plus every release, since no dispatch takes a core; and the carriers
      are the dispatches not yet undone by a release or a removal. */
  lemma {:induction false} RunCores(k: KernelState, steps: seq<Step>)
    requires CoreInv(k)
    ensures var k' := Run(k, steps);
            && CoreInv(k')
            && k'.totalCores == k.totalCores
            && k'.freeCores == k.freeCores + CountSteps(k, steps, Releases)
            && Holders(k') == Holders(k) + CountSteps(k, steps, Dispatches)
                              - CountSteps(k, steps, Releases) - CountSteps(k, steps, Evictions)
    decreases |steps|
  {
    if |steps| != 0 {
      CoreStep(k, steps[0]);
      RunCores(Next(k, steps[0]), steps[1..]);
    }
  }

  /** From boot, the counter stays within the machine's cores exactly as long as nothing released
      a core. */
  lemma FreeCoresWithinTotalIff(capacity: nat, cores: int, steps: seq<Step>)
    requires 1 <= cores
    ensures var k := Run(Boot(capacity, cores), steps);
            k.freeCores <= cores <==> CountSteps(Boot(capacity, cores), steps, Releases) == 0
  {
    RunCores(Boot(capacity, cores), steps);
  }

  const SURPLUS_RUN: seq<Step> := [Create(1, "Notepad", 3, Interactive, 0, 0, 0), SchedulerTick, Minimize(1)]

  /** The states it passes through. */
  function SurplusStates(capacity: nat, cores: int): seq<KernelState> {
    var p := Process(1, "Notepad", Ready, 3, Interactive, 0, 0, 0, 0, 0, -1);
    var k := Boot(capacity, cores);
    [k,
     k.(table := [p], q1 := [0]),
     k.(table := [p.(state := Running, core := 0)], q1 := [0]),
     k.(table := [p.(state := Minimized)], q1 := [0], freeCores := cores + 1)]
  }

  predicate SurplusStepHolds(capacity: nat, cores: int, i: nat)
    requires i < 3
  {
    var k := SurplusStates(capacity, cores);
    Enabled(k[i], SURPLUS_RUN[i]) && Next(k[i], SURPLUS_RUN[i]) == k[i + 1]
  }

  lemma SurplusDispatch(capacity: nat, cores: int)
    requires 1 <= cores
    ensures SurplusStepHolds(capacity, cores, 1)
  {
    var k := SurplusStates(capacity, cores)[1];
    assert ReadySlot(k.table, k.q1[0]);
    assert FirstReady(k.table, k.q1) == 0;
    assert k.q1[1..] + [0] == [0];
  }

  lemma SurplusMinimize(capacity: nat, cores: int)
    ensures SurplusStepHolds(capacity, cores, 2)
  {
    assert FindPid(SurplusStates(capacity, cores)[2].table, 1) == 0;
  }

  /** A process created, dispatched and minimized: one more core is free than there are. */
  lemma MinimizeMakesACore(capacity: nat, cores: int)
    requires 1 <= capacity && 1 <= cores
    ensures ValidRun(Boot(capacity, cores), SURPLUS_RUN)
    ensures Run(Boot(capacity, cores), SURPLUS_RUN).freeCores == cores + 1
  {
    assert SurplusStepHolds(capacity, cores, 0);
    SurplusDispatch(capacity, cores);
    SurplusMinimize(capacity, cores);
    TraceIsRun(SurplusStates(capacity, cores), SURPLUS_RUN);
  }
}
