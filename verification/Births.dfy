/** Where the PCBs of a table come from: each is what some creation of the run asked for, table order is
    the order of these creations, and the background queue is served in it. */
module Births {
  import opened KernelTypes
  import opened KernelSpec
  import opened Agreement
  import opened Scheduling
  import opened Lifecycle
  import opened Effects
  import opened Bookkeeping

  /** The step asks for a PCB of the PID and finds room. */
  predicate Bears(k: KernelState, s: Step, pid: int) {
    s.Create? && s.pid == pid && |k.table| < k.capacity
  }

  /** The index of the last step of the run that bears the PID; -1 when there is none. */
  function Birth(k: KernelState, steps: seq<Step>, pid: int): (b: int)
    ensures -1 <= b < |steps|
    ensures b >= 0 ==> steps[b].Create? && steps[b].pid == pid
  {
    if |steps| == 0 then -1
    else
      var n := |steps| - 1;
      if Bears(Run(k, steps[..n]), steps[n], pid) then n else Birth(k, steps[..n], pid)
  }

  /** The PCB is for life what the creation asked for. */
  predicate BornOf(p: Process, s: Step) {
    s.Create? && p.pid == s.pid && p.name == s.name && p.ram == s.ram && p.hdd == s.hdd
    && p.arriveTime == s.now && p.turnaround == 0
  }

  predicate Registered(table: seq<Process>, births: int -> int, steps: seq<Step>) {
    && (forall x :: 0 <= x < |table| ==>
          0 <= births(table[x].pid) < |steps| && BornOf(table[x], steps[births(table[x].pid)]))
    && (forall x, y :: 0 <= x < y < |table| ==> births(table[x].pid) < births(table[y].pid))
  }

  function BirthsOf(k: KernelState, steps: seq<Step>): int -> int {
    (pid: int) => Birth(k, steps, pid)
  }

  /** Every slot of a table stays what it is for life. */
  predicate SameSlots(t: seq<Process>, t': seq<Process>) {
    |t| == |t'| && forall x :: 0 <= x < |t| ==> SameIdentity(t[x], t'[x])
  }

  lemma SlotsStay(k: KernelState, s: Step)
    requires !s.Create? && !s.Remove?
    ensures SameSlots(k.table, Next(k, s).table)
  {
    match s
    case SchedulerTick => TickPicksLeast(k);
    case AgingTick => assert Next(k, s).table == AgeTable(k.table);
    case _ => EditShape(k, s);
  }

  lemma RegisteredStays(t: seq<Process>, t': seq<Process>, births: int -> int, steps: seq<Step>)
    requires Registered(t, births, steps) && SameSlots(t, t')
    ensures Registered(t', births, steps)
  {
    forall x | 0 <= x < |t'|
      ensures t'[x].pid == t[x].pid && BornOf(t'[x], steps[births(t'[x].pid)])
    {
      assert SameIdentity(t[x], t'[x]);
    }
  }

  lemma RegisteredShrinks(t: seq<Process>, i: nat, births: int -> int, steps: seq<Step>)
    requires Registered(t, births, steps) && i < |t|
    ensures Registered(t[..i] + t[i + 1..], births, steps)
  {
    var t' := t[..i] + t[i + 1..];
    forall x | 0 <= x < |t'|
      ensures t'[x] == t[if x < i then x else x + 1]
    {
    }
  }

  lemma RegisteredGrows(t: seq<Process>, p: Process, s: Step, births: int -> int, births': int -> int, steps: seq<Step>)
    requires Registered(t, births, steps) && BornOf(p, s)
    requires forall x :: 0 <= x < |t| ==> births'(t[x].pid) == births(t[x].pid)
    requires births'(p.pid) == |steps|
    ensures Registered(t + [p], births', steps + [s])
  {
  }

  lemma RegisteredLonger(t: seq<Process>, births: int -> int, births': int -> int, steps: seq<Step>, s: Step)
    requires Registered(t, births, steps)
    requires forall x :: 0 <= x < |t| ==> births'(t[x].pid) == births(t[x].pid)
    ensures Registered(t, births', steps + [s])
  {
  }

  /** The births after one more step. */
  lemma BirthStep(k: KernelState, steps: seq<Step>, s: Step, pid: int)
    ensures Birth(k, steps + [s], pid) ==
            if Bears(Run(k, steps), s, pid) then |steps| else Birth(k, steps, pid)
  {
    assert (steps + [s])[..|steps|] == steps;
  }

  /** The table after a step that bears nobody. */
  lemma SurvivorsRegistered(k: KernelState, s: Step, births: int -> int, steps: seq<Step>)
    requires Registered(k.table, births, steps) && !(s.Create? && |k.table| < k.capacity)
    ensures Registered(Next(k, s).table, births, steps)
  {
    if s.Create? {
      CreateEffect(k, s);
    } else if s.Remove? {
      RemovalRegistered(k, s.pid, births, steps);
    } else {
      SlotsStay(k, s);
      RegisteredStays(k.table, Next(k, s).table, births, steps);
    }
  }

  lemma RemovalRegistered(k: KernelState, pid: int, births: int -> int, steps: seq<Step>)
    requires Registered(k.table, births, steps)
    ensures Registered(RemoveStep(k, pid).table, births, steps)
  {
    var i := FindPid(k.table, pid);
    if i == |k.table| {
      assert RemoveStep(k, pid) == k;
    } else {
      RemoveEffect(k, pid, i);
      RegisteredShrinks(k.table, i, births, steps);
    }
  }

  lemma BirthRegistered(k: KernelState, s: Step, births: int -> int, births': int -> int, steps: seq<Step>)
    requires Registered(k.table, births, steps) && s.Create? && |k.table| < k.capacity
    requires forall x :: 0 <= x < |k.table| ==> births'(k.table[x].pid) == births(k.table[x].pid)
    requires births'(s.pid) == |steps|
    ensures Registered(Next(k, s).table, births', steps + [s])
  {
    CreateEffect(k, s);
    var t' := Next(k, s).table;
    assert t' == k.table + [t'[|k.table|]];
    RegisteredGrows(k.table, t'[|k.table|], s, births, births', steps);
  }

  lemma StepRegisters(k0: KernelState, steps: seq<Step>, k: KernelState, s: Step)
    requires k == Run(k0, steps) && Enabled(k, s) && Registered(k.table, BirthsOf(k0, steps), steps)
    ensures Registered(Next(k, s).table, BirthsOf(k0, steps + [s]), steps + [s])
  {
    var b, b' := BirthsOf(k0, steps), BirthsOf(k0, steps + [s]);
    forall pid: int
      ensures b'(pid) == if Bears(k, s, pid) then |steps| else b(pid)
    {
      BirthStep(k0, steps, s, pid);
    }
    if s.Create? && |k.table| < k.capacity {
      BirthRegistered(k, s, b, b', steps);
    } else {
      SurvivorsRegistered(k, s, b, steps);
      RegisteredLonger(Next(k, s).table, b, b', steps, s);
    }
  }

  /** After every run from an empty table, each PCB is what its creation in the run asked for, stamped
      with the time of that creation, and the table lists its PCBs in the order of their creations. */
  lemma {:induction false} RunRegisters(k0: KernelState, steps: seq<Step>)
    requires k0.table == [] && ValidRun(k0, steps)
    ensures Registered(Run(k0, steps).table, BirthsOf(k0, steps), steps)
    decreases |steps|
  {
    if |steps| != 0 {
      var n := |steps| - 1;
      var init, s := steps[..n], steps[n];
      assert steps == init + [s];
      ValidRunConcat(k0, init, [s]);
      RunConcat(k0, init, [s]);
      RunRegisters(k0, init);
      OneStep(Run(k0, init), s);
      StepRegisters(k0, init, Run(k0, init), s);
    }
  }

  /** A process keeps its identity through any run that does not remove it. */
  lemma {:induction false} IdentityStays(k: KernelState, steps: seq<Step>, pid: int)
    requires Inv(k) && ValidRun(k, steps) && Has(k, pid)
    requires forall i :: 0 <= i < |steps| ==> steps[i] != Remove(pid)
    ensures Has(Run(k, steps), pid) && SameIdentity(Proc(k, pid), Proc(Run(k, steps), pid))
    decreases |steps|
  {
    if |steps| != 0 {
      StepArrows(k, steps[0], pid);
      IdentityStays(Next(k, steps[0]), steps[1..], pid);
    }
  }

  /** A process created at a time carries that time, its name and its amounts until it is removed. */
  lemma CreatedUntilRemoved(k: KernelState, s: Step, steps: seq<Step>)
    requires Inv(k) && s.Create? && Enabled(k, s) && |k.table| < k.capacity && ValidRun(Next(k, s), steps)
    requires forall i :: 0 <= i < |steps| ==> steps[i] != Remove(s.pid)
    ensures var k' := Run(Next(k, s), steps);
            Has(k', s.pid) && BornOf(Proc(k', s.pid), s)
  {
    var k1 := Next(k, s);
    CreateEffect(k, s);
    StepKeepsInv(k, s);
    SlotIs(k1, s.pid, |k.table|);
    IdentityStays(k1, steps, s.pid);
  }

  /** The process was created no later than the other, in the order of the run and by the clock. */
  predicate BornNoLater(k0: KernelState, steps: seq<Step>, pid: int, other: int) {
    var b, c := Birth(k0, steps, pid), Birth(k0, steps, other);
    0 <= b <= c < |steps| && steps[b].Create? && steps[c].Create? && steps[b].now <= steps[c].now
  }

  lemma TableOrderIsBirthOrder(k0: KernelState, steps: seq<Step>, t: seq<Process>, x: nat, y: nat)
    requires Registered(t, BirthsOf(k0, steps), steps) && ArrivalSorted(t) && x <= y < |t|
    ensures BornNoLater(k0, steps, t[x].pid, t[y].pid)
  {
    assert BirthsOf(k0, steps)(t[x].pid) == Birth(k0, steps, t[x].pid);
    assert BirthsOf(k0, steps)(t[y].pid) == Birth(k0, steps, t[y].pid);
  }

  lemma BackgroundPickIsFirst(k: KernelState)
    requires Agree(k) && Picked(k).Some? && Picked(k).value < |k.table|
    requires k.table[Picked(k).value].level.Background?
    ensures forall x: nat :: ReadySlot(k.table, x) && k.table[x].level.Background? ==> Picked(k).value <= x
    ensures forall i :: 0 <= i < |k.q0| ==> !ReadySlot(k.table, k.q0[i])
    ensures forall i :: 0 <= i < |k.q1| ==> !ReadySlot(k.table, k.q1[i])
  {
    LevelPicked(k);
    assert k.Queue(Background) == k.q2;
    FirstReadyIsLeastSlot(k, Background);
  }

  /** First come, first served, by the run itself: what a tick takes from Q2 was created no later than any
      READY process of that level, and by then Q0 and Q1 hold no READY entry. */
  lemma BackgroundIsFirstCome(capacity: nat, cores: int, steps: seq<Step>)
    requires ValidRun(Boot(capacity, cores), steps)
    ensures var k0 := Boot(capacity, cores); var k := Run(k0, steps);
            Picked(k).Some? && Picked(k).value < |k.table| && k.table[Picked(k).value].level.Background? ==>
              && (forall x: nat :: ReadySlot(k.table, x) && k.table[x].level.Background? ==>
                    && BornNoLater(k0, steps, k.table[Picked(k).value].pid, k.table[x].pid)
                    && k.table[Picked(k).value].arriveTime <= k.table[x].arriveTime)
              && (forall i :: 0 <= i < |k.q0| ==> !ReadySlot(k.table, k.q0[i]))
              && (forall i :: 0 <= i < |k.q1| ==> !ReadySlot(k.table, k.q1[i]))
  {
    var k0 := Boot(capacity, cores);
    var k := Run(k0, steps);
    RunRegisters(k0, steps);
    ReachableAgrees(capacity, cores, steps);
    RunKeepsArrivalSorted(k0, steps);
    if Picked(k).Some? && Picked(k).value < |k.table| && k.table[Picked(k).value].level.Background? {
      BackgroundPickIsFirst(k);
      forall x: nat | ReadySlot(k.table, x) && k.table[x].level.Background?
        ensures BornNoLater(k0, steps, k.table[Picked(k).value].pid, k.table[x].pid)
        ensures k.table[Picked(k).value].arriveTime <= k.table[x].arriveTime
      {
        TableOrderIsBirthOrder(k0, steps, k.table, Picked(k).value, x);
      }
    }
  }
}
