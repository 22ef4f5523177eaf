/** What a scheduler tick picks, what the Q1 rotation keeps and loses, and how long a batch of
    READY processes takes to be dispatched. */
module Scheduling {
  import opened KernelTypes
  import opened KernelSpec
  import opened Agreement
  import opened Sums

  // ---------- the pick ----------

  /** The slot a tick dispatches. */
  function Picked(k: KernelState): Option<nat> {
    var i0 := FirstReady(k.table, k.q0);
    var i1 := FirstReady(k.table, k.q1);
    var i2 := FirstReady(k.table, k.q2);
    if i0 < |k.q0| then Some(k.q0[i0])
    else if i1 < |k.q1| then Some(k.q1[i1])
    else if i2 < |k.q2| then Some(k.q2[i2])
    else None
  }

  /** Entry i of level l's queue, READY, with no READY entry in an earlier queue or place. */
  ghost predicate LeastReady(k: KernelState, l: Level, i: nat) {
    && i < |k.Queue(l)|
    && ReadySlot(k.table, k.Queue(l)[i])
    && (forall l': Level, j: nat :: j < |k.Queue(l')| && ReadySlot(k.table, k.Queue(l')[j]) ==>
          l.Rank() < l'.Rank() || (l == l' && i <= j))
  }

  ghost predicate NoneReady(k: KernelState) {
    forall l: Level, j: nat :: j < |k.Queue(l)| ==> !ReadySlot(k.table, k.Queue(l)[j])
  }

  /** A tick changes nothing exactly when no queue holds a READY entry. Otherwise the READY entry
      least in (level, position) becomes RUNNING, and no other PCB changes. */
  lemma TickPicksLeast(k: KernelState)
    ensures Picked(k).None? <==> NoneReady(k)
    ensures Picked(k).None? ==> SchedulerStep(k) == k
    ensures Picked(k).Some? ==>
              var s := Picked(k).value;
              && (exists l: Level, i: nat :: LeastReady(k, l, i) && k.Queue(l)[i] == s)
              && SchedulerStep(k).table ==
                 k.table[s := k.table[s].(state := Running, core := AssignedCore(k))]
              && k.table[s].state.Ready?
  {
    var i0 := FirstReady(k.table, k.q0);
    var i1 := FirstReady(k.table, k.q1);
    var i2 := FirstReady(k.table, k.q2);
    assert k.Queue(System) == k.q0 && k.Queue(Interactive) == k.q1 && k.Queue(Background) == k.q2;
    if i0 < |k.q0| {
      assert LeastReady(k, System, i0);
    } else if i1 < |k.q1| {
      assert LeastReady(k, Interactive, i1);
    } else if i2 < |k.q2| {
      assert LeastReady(k, Background, i2);
    }
  }

  lemma IdleIff(k: KernelState)
    ensures NoneReady(k) <==> FirstReady(k.table, k.q0) == |k.q0|
                              && FirstReady(k.table, k.q1) == |k.q1|
                              && FirstReady(k.table, k.q2) == |k.q2|
  {
    TickPicksLeast(k);
  }

  // ---------- the rotation ----------

  /** Every READY slot stands exactly once in the queue of its level. */
  ghost predicate ReadyOnce(k: KernelState) {
    forall s: nat :: ReadySlot(k.table, s) ==> multiset(k.Queue(k.table[s].level))[s] == 1
  }

  lemma {:induction false} IncreasingCountsOnce(q: seq<nat>, s: nat)
    requires forall i, j :: 0 <= i < j < |q| ==> q[i] < q[j]
    ensures multiset(q)[s] == if s in q then 1 else 0
  {
    if |q| != 0 {
      var last := q[|q| - 1];
      assert q == q[..|q| - 1] + [last];
      IncreasingCountsOnce(q[..|q| - 1], s);
    }
  }

  lemma SlotsAtCountsOnce(t: seq<Process>, s: nat, l: Level)
    ensures multiset(SlotsAt(t, l))[s] == if s < |t| && t[s].level == l then 1 else 0
  {
    SlotsAtExact(t, l);
    IncreasingCountsOnce(SlotsAt(t, l), s);
  }

  lemma RotateCount(q: seq<nat>, x: nat, s: nat)
    requires 0 < |q|
    ensures multiset(q[1..] + [x])[s] ==
            multiset(q)[s] - (if q[0] == s then 1 else 0) + (if x == s then 1 else 0)
  {
    assert q == [q[0]] + q[1..];
  }

  lemma AppendCount(q: seq<nat>, x: nat, s: nat)
    ensures multiset(q + [x])[s] == multiset(q)[s] + (if x == s then 1 else 0)
  {
  }

  /** Every rebuild puts each slot, READY or not, exactly once in its level's queue. */
  lemma RebuildRestoresPartition(k: KernelState, s: nat, l: Level)
    ensures multiset(Rebuild(k).Queue(l))[s] == if s < |k.table| && k.table[s].level == l then 1 else 0
  {
    SlotsAtCountsOnce(k.table, s, l);
  }

  lemma RebuildReadyOnce(k: KernelState)
    ensures ReadyOnce(Rebuild(k))
  {
    forall s: nat | ReadySlot(k.table, s)
      ensures multiset(Rebuild(k).Queue(k.table[s].level))[s] == 1
    {
      RebuildRestoresPartition(k, s, k.table[s].level);
    }
  }

  lemma RotationKeepsReadyOnce(k: KernelState, i: nat)
    requires Inv(k) && ReadyOnce(k) && i < |k.q1| && i == FirstReady(k.table, k.q1)
    ensures ReadyOnce(Dispatch(k, k.q1[i]).(q1 := k.q1[1..] + [k.q1[i]]))
  {
    var k' := Dispatch(k, k.q1[i]).(q1 := k.q1[1..] + [k.q1[i]]);
    forall s: nat | ReadySlot(k'.table, s)
      ensures multiset(k'.Queue(k'.table[s].level))[s] == 1
    {
      assert ReadySlot(k.table, s) && s != k.q1[i];
      RotateCount(k.q1, k.q1[i], s);
      if i > 0 {
        assert !ReadySlot(k.table, k.q1[0]);
      }
    }
  }

  /** A step that leaves the queues alone and makes no slot READY keeps ReadyOnce. */
  lemma NoNewReady(k: KernelState, k': KernelState)
    requires ReadyOnce(k) && k'.q0 == k.q0 && k'.q1 == k.q1 && k'.q2 == k.q2
    requires forall x: nat :: ReadySlot(k'.table, x) ==>
               ReadySlot(k.table, x) && k'.table[x].level == k.table[x].level
    ensures ReadyOnce(k')
  {
    forall x: nat | ReadySlot(k'.table, x)
      ensures multiset(k'.Queue(k'.table[x].level))[x] == 1
    {
      assert k'.Queue(k'.table[x].level) == k.Queue(k.table[x].level);
    }
  }

  lemma CreateQueue(k: KernelState, s: Step, l: Level)
    requires s.Create? && |k.table| < k.capacity
    ensures Next(k, s).Queue(l) == k.Queue(l) + if s.level == l then [|k.table|] else []
  {
    match l
    case System =>
    case Interactive =>
    case Background =>
  }

  lemma QueueInTable(k: KernelState, l: Level, i: nat)
    requires Agree(k) && i < |k.Queue(l)|
    ensures k.Queue(l)[i] < |k.table| && k.table[k.Queue(l)[i]].level == l
  {
    match l
    case System => SlotsAtExact(k.table, l); assert k.q0[i] in SlotsAt(k.table, l);
    case Interactive =>
    case Background => SlotsAtExact(k.table, l); assert k.q2[i] in SlotsAt(k.table, l);
  }

  lemma NewSlotIsNew(k: KernelState, l: Level)
    requires Agree(k)
    ensures |k.table| !in k.Queue(l)
  {
    forall i | 0 <= i < |k.Queue(l)|
      ensures k.Queue(l)[i] != |k.table|
    {
      QueueInTable(k, l, i);
    }
  }

  lemma CreatedSlotOnce(k: KernelState, s: Step, x: nat)
    requires Inv(k) && ReadyOnce(k) && s.Create? && |k.table| < k.capacity && x <= |k.table|
    requires ReadySlot(Next(k, s).table, x)
    ensures var k' := Next(k, s); multiset(k'.Queue(k'.table[x].level))[x] == 1
  {
    var l := Next(k, s).table[x].level;
    CreateQueue(k, s, l);
    AppendCount(k.Queue(l), |k.table|, x);
    if x == |k.table| {
      NewSlotIsNew(k, l);
    } else {
      assert ReadySlot(k.table, x);
    }
  }

  lemma CreatedOnce(k: KernelState, s: Step)
    requires Inv(k) && ReadyOnce(k) && s.Create? && |k.table| < k.capacity
    ensures ReadyOnce(Next(k, s))
  {
    forall x: nat | ReadySlot(Next(k, s).table, x)
      ensures var k' := Next(k, s); multiset(k'.Queue(k'.table[x].level))[x] == 1
    {
      CreatedSlotOnce(k, s, x);
    }
  }

  lemma SchedulerKeepsReadyOnce(k: KernelState)
    requires Inv(k) && ReadyOnce(k)
    ensures ReadyOnce(SchedulerStep(k))
  {
    var i1 := FirstReady(k.table, k.q1);
    if FirstReady(k.table, k.q0) == |k.q0| && i1 < |k.q1| {
      RotationKeepsReadyOnce(k, i1);
    } else {
      NoNewReady(k, SchedulerStep(k));
    }
  }

  lemma RemoveKeepsReadyOnce(k: KernelState, pid: int)
    requires ReadyOnce(k)
    ensures ReadyOnce(RemoveStep(k, pid))
  {
    var i := FindPid(k.table, pid);
    if i == |k.table| {
      assert RemoveStep(k, pid) == k;
    } else {
      var k' := k.(table := k.table[..i] + k.table[i + 1..]);
      assert RemoveStep(k, pid) == Rebuild(k');
      RebuildReadyOnce(k');
    }
  }

  lemma AgingKeepsReadyOnce(k: KernelState)
    requires ReadyOnce(k)
    ensures ReadyOnce(AgingStep(k))
  {
    if Promotes(k.table) {
      RebuildReadyOnce(k.(table := AgeTable(k.table)));
    } else {
      NoNewReady(k, AgingStep(k));
    }
  }

  lemma EditKeepsReadyOnce(k: KernelState, s: Step)
    requires ReadyOnce(k)
    requires s.Minimize? || s.Resume? || s.Interrupt? || s.SetPriority?
    ensures ReadyOnce(Next(k, s))
  {
    var k' := Next(k, s);
    assert k'.q0 == k.q0 && k'.q1 == k.q1 && k'.q2 == k.q2;
    assert forall x: nat :: ReadySlot(k'.table, x) ==>
             ReadySlot(k.table, x) && k'.table[x].level == k.table[x].level;
    NoNewReady(k, k');
  }

  /** Only unblocking turns a PCB already in the table READY, so every other step keeps every
      READY slot exactly once in its queue: the rotation drops non-READY entries only. */
  lemma StepKeepsReadyOnce(k: KernelState, s: Step)
    requires Inv(k) && ReadyOnce(k) && Enabled(k, s) && !s.Unblock?
    ensures ReadyOnce(Next(k, s))
  {
    match s
    case Create(_, _, _, _, _, _, _) =>
      if |k.table| < k.capacity { CreatedOnce(k, s); }
    case Remove(pid) => RemoveKeepsReadyOnce(k, pid);
    case SchedulerTick => SchedulerKeepsReadyOnce(k);
    case AgingTick => AgingKeepsReadyOnce(k);
    case _ => EditKeepsReadyOnce(k, s);
  }

  predicate NoUnblock(steps: seq<Step>) {
    forall i :: 0 <= i < |steps| ==> !steps[i].Unblock?
  }

  /** In every run without an unblock step, each READY slot stays exactly once in its queue. */
  lemma {:induction false} RunKeepsReadyOnce(k: KernelState, steps: seq<Step>)
    requires Inv(k) && ReadyOnce(k) && ValidRun(k, steps) && NoUnblock(steps)
    ensures Inv(Run(k, steps)) && ReadyOnce(Run(k, steps))
    decreases |steps|
  {
    if |steps| != 0 {
      StepKeepsInv(k, steps[0]);
      StepKeepsReadyOnce(k, steps[0]);
      RunKeepsReadyOnce(Next(k, steps[0]), steps[1..]);
    }
  }

  lemma ReachableReadyOnce(capacity: nat, cores: int, steps: seq<Step>)
    requires ValidRun(Boot(capacity, cores), steps) && NoUnblock(steps)
    ensures ReadyOnce(Run(Boot(capacity, cores), steps))
  {
    RunKeepsReadyOnce(Boot(capacity, cores), steps);
  }

  /** An unblock step keeps ReadyOnce exactly when the slot it makes READY is not at level 1 or
      still stands exactly once in Q1. */
  lemma UnblockKeepsReadyOnceIff(k: KernelState, pid: int)
    requires Inv(k) && ReadyOnce(k) && FindBlocked(k.table, pid) < |k.table|
    ensures var i := FindBlocked(k.table, pid);
            ReadyOnce(UnblockStep(k, pid)) <==>
            (k.table[i].level.Interactive? ==> multiset(k.q1)[i] == 1)
  {
    var i := FindBlocked(k.table, pid);
    var k' := UnblockStep(k, pid);
    var l := k.table[i].level;
    assert ReadySlot(k'.table, i) && k'.table[i].level == l && k'.Queue(l) == k.Queue(l);
    SlotsAtCountsOnce(k.table, i, l);
    if multiset(k.Queue(l))[i] == 1 {
      forall s: nat | ReadySlot(k'.table, s)
        ensures multiset(k'.Queue(k'.table[s].level))[s] == 1
      {
        assert s != i ==> ReadySlot(k.table, s);
        assert k'.Queue(k'.table[s].level) == k.Queue(k.table[s].level);
      }
    }
  }

  /** Q1 lists each slot of its level exactly once. */
  predicate Q1Partition(k: KernelState) {
    multiset(k.q1) == multiset(SlotsAt(k.table, Interactive))
  }

  /** The round robin of a partitioned Q1 is a rotation exactly when the READY entry it dispatches
      stands at the front; otherwise the front entry is lost and the dispatched one doubled. */
  lemma RotationKeepsPartitionIff(k: KernelState)
    requires Inv(k) && Q1Partition(k)
    requires FirstReady(k.table, k.q0) == |k.q0| && FirstReady(k.table, k.q1) < |k.q1|
    ensures Q1Partition(SchedulerStep(k)) <==> FirstReady(k.table, k.q1) == 0
  {
    var i := FirstReady(k.table, k.q1);
    var k' := SchedulerStep(k);
    SlotsAtSameLevels(k.table, k'.table, Interactive);
    if i == 0 {
      assert k.q1 == [k.q1[0]] + k.q1[1..];
    } else {
      var lost := k.q1[0];
      SlotsAtCountsOnce(k.table, lost, Interactive);
      RotateCount(k.q1, k.q1[i], lost);
      assert lost != k.q1[i];
      assert multiset(k'.q1)[lost] == 0 && multiset(SlotsAt(k'.table, Interactive))[lost] == 1;
    }
  }

  // ---------- a READY process the scheduler cannot see ----------

  function Demo(pid: int, s: RunState, core: int): Process {
    Process(pid, "Notepad", s, 3, Interactive, 0, 0, 0, 0, 0, core)
  }

  function DemoKernel(capacity: nat, table: seq<Process>, q1: seq<nat>, free: int): KernelState {
    KernelState(capacity, table, [], q1, [], 1, free)
  }

  const LOSING_RUN: seq<Step> := [
    Create(1, "Notepad", 3, Interactive, 0, 0, 0), SchedulerTick,
    Create(2, "Notepad", 3, Interactive, 0, 0, 0), SchedulerTick,
    Interrupt(1), Unblock(1)]

  lemma DemoIdles(k: KernelState)
    requires k.q0 == [] && k.q2 == [] && k.q1 == [1, 1] && !ReadySlot(k.table, 1)
    ensures SchedulerStep(k) == k
  {
    assert forall j :: 0 <= j < 2 ==> k.q1[j] == 1;
  }

  predicate IsTrace(states: seq<KernelState>, steps: seq<Step>) {
    && |states| == |steps| + 1
    && forall i :: 0 <= i < |steps| ==> Enabled(states[i], steps[i]) && Next(states[i], steps[i]) == states[i + 1]
  }

  /** A run is the last state of its trace. */
  lemma {:induction false} TraceIsRun(states: seq<KernelState>, steps: seq<Step>)
    requires IsTrace(states, steps)
    ensures Run(states[0], steps) == states[|steps|] && ValidRun(states[0], steps)
    decreases |steps|
  {
    if |steps| != 0 {
      assert Enabled(states[0], steps[0]) && Next(states[0], steps[0]) == states[1];
      TraceIsRun(states[1..], steps[1..]);
    }
  }

  /** The states LOSING_RUN passes through. */
  function LosingState(capacity: nat, i: nat): KernelState {
    if i == 0 then Boot(capacity, 1)
    else if i == 1 then DemoKernel(capacity, [Demo(1, Ready, -1)], [0], 1)
    else if i == 2 then DemoKernel(capacity, [Demo(1, Running, 0)], [0], 1)
    else if i == 3 then DemoKernel(capacity, [Demo(1, Running, 0), Demo(2, Ready, -1)], [0, 1], 1)
    else if i == 4 then DemoKernel(capacity, [Demo(1, Running, 0), Demo(2, Running, 0)], [1, 1], 1)
    else if i == 5 then DemoKernel(capacity, [Demo(1, Blocked, -1), Demo(2, Running, 0)], [1, 1], 2)
    else DemoKernel(capacity, [Demo(1, Ready, -1), Demo(2, Running, 0)], [1, 1], 2)
  }

  predicate LosingStepHolds(capacity: nat, i: nat)
    requires i < 6
  {
    && Enabled(LosingState(capacity, i), LOSING_RUN[i])
    && Next(LosingState(capacity, i), LOSING_RUN[i]) == LosingState(capacity, i + 1)
  }

  lemma DemoCreations(capacity: nat)
    requires 2 <= capacity
    ensures LosingStepHolds(capacity, 0) && LosingStepHolds(capacity, 2)
  {
  }

  lemma DemoFirstDispatch(capacity: nat)
    ensures LosingStepHolds(capacity, 1)
  {
    var k := LosingState(capacity, 1);
    assert ReadySlot(k.table, k.q1[0]);
    assert FirstReady(k.table, k.q1) == 0;
    assert k.q1[1..] + [0] == [0];
  }

  /** Process 2 is dispatched from behind process 1, whose entry is dropped. */
  lemma DemoSecondDispatch(capacity: nat)
    ensures LosingStepHolds(capacity, 3)
  {
    var k := LosingState(capacity, 3);
    assert !ReadySlot(k.table, k.q1[0]) && ReadySlot(k.table, k.q1[1]);
    assert FirstReady(k.table, k.q1) == 1;
    assert k.q1[1..] + [1] == [1, 1];
  }

  lemma DemoInterrupt(capacity: nat)
    ensures LosingStepHolds(capacity, 4)
  {
    var t := LosingState(capacity, 4).table;
    assert t[0].pid == 1 && t[0].state.Running?;
    assert FindRunning(t, 1) == 0;
  }

  lemma DemoUnblock(capacity: nat)
    ensures LosingStepHolds(capacity, 5)
  {
    var t := LosingState(capacity, 5).table;
    assert t[0].pid == 1 && t[0].state.Blocked?;
    assert FindBlocked(t, 1) == 0;
  }

  function LosingStates(capacity: nat): seq<KernelState> {
    seq(7, i requires 0 <= i < 7 => LosingState(capacity, i))
  }

  lemma LosingTrace(capacity: nat)
    requires 2 <= capacity
    ensures IsTrace(LosingStates(capacity), LOSING_RUN)
  {
    DemoCreations(capacity);
    DemoFirstDispatch(capacity);
    DemoSecondDispatch(capacity);
    DemoInterrupt(capacity);
    DemoUnblock(capacity);
    forall i | 0 <= i < 6
      ensures LosingStepHolds(capacity, i)
    {
      assert i == 0 || i == 1 || i == 2 || i == 3 || i == 4 || i == 5;
    }
    forall i | 0 <= i < 6
      ensures var states := LosingStates(capacity);
              Enabled(states[i], LOSING_RUN[i]) && Next(states[i], LOSING_RUN[i]) == states[i + 1]
    {
      assert LosingStepHolds(capacity, i);
    }
  }

  /** With an unblock step the property fails: process 1 is READY at level 1, Q1 holds process 2
      twice and process 1 not at all, and the next tick dispatches nobody. */
  lemma UnblockedProcessIsInvisible(capacity: nat)
    requires 2 <= capacity
    ensures ValidRun(Boot(capacity, 1), LOSING_RUN)
    ensures var k := Run(Boot(capacity, 1), LOSING_RUN);
            k.q1 == [1, 1] && ReadySlot(k.table, 0) && k.table[0].pid == 1 && SchedulerStep(k) == k
  {
    LosingTrace(capacity);
    TraceIsRun(LosingStates(capacity), LOSING_RUN);
    DemoIdles(LosingStates(capacity)[6]);
  }

  // ---------- n READY processes take n ticks ----------

  function IsReady(p: Process): int {
    if p.state.Ready? then 1 else 0
  }

  function ReadyCount(table: seq<Process>): (n: int)
    ensures 0 <= n <= |table|
  {
    SumNonNegative(table, IsReady);
    SumAtMostLength(table, IsReady);
    Sum(table, IsReady)
  }

  ghost predicate ReadyPresent(k: KernelState) {
    forall s: nat :: ReadySlot(k.table, s) ==> s in k.Queue(k.table[s].level)
  }

  lemma ReadyOncePresent(k: KernelState)
    requires ReadyOnce(k)
    ensures ReadyPresent(k)
  {
    forall s: nat | ReadySlot(k.table, s)
      ensures s in k.Queue(k.table[s].level)
    {
      assert multiset(k.Queue(k.table[s].level))[s] == 1;
      assert s in multiset(k.Queue(k.table[s].level));
    }
  }

  lemma {:induction false} SomeReady(table: seq<Process>)
    ensures ReadyCount(table) > 0 ==> exists s: nat :: ReadySlot(table, s)
  {
    if ReadyCount(table) == 0 {
    } else if table[|table| - 1].state.Ready? {
      assert ReadySlot(table, |table| - 1);
    } else {
      SomeReady(table[..|table| - 1]);
      var s: nat :| ReadySlot(table[..|table| - 1], s);
      assert ReadySlot(table, s);
    }
  }

  lemma IdleMeansNoneReady(k: KernelState)
    requires ReadyPresent(k) && Picked(k).None?
    ensures ReadyCount(k.table) == 0
  {
    TickPicksLeast(k);
    forall s: nat | s < |k.table|
      ensures !ReadySlot(k.table, s)
    {
      var q := k.Queue(k.table[s].level);
      if s in q {
        var j :| 0 <= j < |q| && q[j] == s;
        assert !ReadySlot(k.table, q[j]);
      }
    }
    SomeReady(k.table);
  }

  /** The rotation keeps every entry but the front one. */
  lemma RotationKeepsOthers(q: seq<nat>, last: nat, x: nat)
    requires |q| > 0 && x in q && x != q[0]
    ensures x in q[1..] + [last]
  {
    var j :| 0 <= j < |q| && q[j] == x;
    assert (q[1..] + [last])[j - 1] == x;
  }

  /** A READY slot the tick leaves READY stays in its queue: the front entry of Q1 is dropped only
      when it is not READY or dispatched. */
  lemma TickKeepsEntry(k: KernelState, x: nat)
    requires ReadyPresent(k) && ReadySlot(SchedulerStep(k).table, x)
    ensures var k' := SchedulerStep(k); x in k'.Queue(k'.table[x].level)
  {
    TickPicksLeast(k);
    var k' := SchedulerStep(k);
    assert ReadySlot(k.table, x) && k'.table[x].level == k.table[x].level;
    if k'.q1 != k.q1 && x in k.q1 {
      RotationKeepsOthers(k.q1, Picked(k).value, x);
    }
  }

  lemma TickKeepsPresent(k: KernelState)
    requires ReadyPresent(k)
    ensures ReadyPresent(SchedulerStep(k))
  {
    var k' := SchedulerStep(k);
    forall x: nat | ReadySlot(k'.table, x)
      ensures x in k'.Queue(k'.table[x].level)
    {
      TickKeepsEntry(k, x);
    }
  }

  /** A tick makes at most READY entries RUNNING and touches nothing else. */
  lemma TickOnlyDispatches(k: KernelState)
    ensures OnlyDispatched(k.table, SchedulerStep(k).table)
  {
    TickPicksLeast(k);
  }

  /** A tick dispatches exactly one of the READY processes, if there is one. */
  lemma TickDispatchesOne(k: KernelState)
    requires ReadyPresent(k)
    ensures ReadyCount(SchedulerStep(k).table) ==
            if ReadyCount(k.table) > 0 then ReadyCount(k.table) - 1 else 0
  {
    TickPicksLeast(k);
    if Picked(k).None? {
      IdleMeansNoneReady(k);
    } else {
      var s := Picked(k).value;
      SumUpdate(k.table, s, SchedulerStep(k).table[s], IsReady);
    }
  }

  function Ticks(k: KernelState, n: nat): KernelState
    decreases n
  {
    if n == 0 then k else Ticks(SchedulerStep(k), n - 1)
  }

  /** READY entries may become RUNNING on the assigned core; everything else is untouched. */
  predicate OnlyDispatched(t: seq<Process>, t': seq<Process>) {
    && |t| == |t'|
    && forall i :: 0 <= i < |t| ==>
         t'[i] == t[i] || (t[i].state.Ready? && t'[i] == t[i].(state := Running, core := t'[i].core))
  }

  lemma OnlyDispatchedChains(t: seq<Process>, u: seq<Process>, v: seq<Process>)
    requires OnlyDispatched(t, u) && OnlyDispatched(u, v)
    ensures OnlyDispatched(t, v)
  {
  }

  /** With no other steps, each scheduler tick takes one off the READY count until none is left. */
  lemma {:induction false} TicksDispatchAll(k: KernelState, n: nat)
    requires ReadyPresent(k)
    ensures ReadyCount(Ticks(k, n).table) ==
            if n <= ReadyCount(k.table) then ReadyCount(k.table) - n else 0
    decreases n
  {
    if n != 0 {
      TickDispatchesOne(k);
      TickKeepsPresent(k);
      TicksDispatchAll(SchedulerStep(k), n - 1);
    }
  }

  lemma {:induction false} TicksOnlyDispatch(k: KernelState, n: nat)
    ensures OnlyDispatched(k.table, Ticks(k, n).table)
    decreases n
  {
    if n != 0 {
      TickOnlyDispatches(k);
      TicksOnlyDispatch(SchedulerStep(k), n - 1);
      OnlyDispatchedChains(k.table, SchedulerStep(k).table, Ticks(k, n).table);
    }
  }

  lemma {:induction false} NoneLeft(table: seq<Process>, i: nat)
    requires ReadyCount(table) == 0 && i < |table|
    ensures !table[i].state.Ready?
  {
    SumSplit(table, i, IsReady);
    SumNonNegative(table[..i], IsReady);
    SumNonNegative(table[i + 1..], IsReady);
  }

  predicate AllDispatchedAfter(k: KernelState, n: nat) {
    forall i :: 0 <= i < |k.table| && k.table[i].state.Ready? ==>
      i < |Ticks(k, n).table| && Ticks(k, n).table[i].state.Running?
  }

  /** The dispatch time of a batch, exactly. */
  lemma BatchTakesExactly(k: KernelState, n: nat)
    requires ReadyPresent(k)
    ensures OnlyDispatched(k.table, Ticks(k, n).table)
    ensures AllDispatchedAfter(k, n) <==> n >= ReadyCount(k.table)
  {
    TicksDispatchAll(k, n);
    TicksOnlyDispatch(k, n);
    var t := Ticks(k, n).table;
    if n >= ReadyCount(k.table) {
      forall i | 0 <= i < |k.table| && k.table[i].state.Ready?
        ensures t[i].state.Running?
      {
        NoneLeft(t, i);
      }
    } else {
      SomeReady(t);
      var s: nat :| ReadySlot(t, s);
      assert k.table[s].state.Ready? && !t[s].state.Running?;
    }
  }

  /** So it is wherever a run without unblocking can lead. */
  lemma ReachableBatchTakesExactly(capacity: nat, cores: int, steps: seq<Step>, n: nat)
    requires ValidRun(Boot(capacity, cores), steps) && NoUnblock(steps)
    ensures var k := Run(Boot(capacity, cores), steps);
            AllDispatchedAfter(k, n) <==> n >= ReadyCount(k.table)
  {
    ReachableReadyOnce(capacity, cores, steps);
    ReadyOncePresent(Run(Boot(capacity, cores), steps));
    BatchTakesExactly(Run(Boot(capacity, cores), steps), n);
  }
}
