/** No process stays READY for ever: aging brings it to Q0, which lists its slots in table order,
    and each tick from there on dispatches it or a READY slot before it. */
module Starvation {
  import opened KernelTypes
  import opened KernelSpec
  import opened Agreement
  import opened Scheduling
  import opened Lifecycle
  import opened Aging
  import opened Bookkeeping
  import opened Sums

  predicate Waiting(k: KernelState, pid: int) {
    Has(k, pid) && Proc(k, pid).state.Ready?
  }

  /** The process is in the table and READY before, during and after the run. */
  predicate StaysReady(k: KernelState, steps: seq<Step>, pid: int)
    decreases |steps|
  {
    Waiting(k, pid) && (|steps| == 0 || StaysReady(Next(k, steps[0]), steps[1..], pid))
  }

  /** A scheduler tick of the run dispatches the process. */
  predicate DispatchedIn(k: KernelState, steps: seq<Step>, pid: int)
    decreases |steps|
  {
    |steps| != 0 &&
    (|| (steps[0].SchedulerTick? && Waiting(k, pid) && Picked(k) == Some(Slot(k, pid)))
     || DispatchedIn(Next(k, steps[0]), steps[1..], pid))
  }

  function IsAgingTick(s: Step): int { if s.AgingTick? then 1 else 0 }

  function IsSchedulerTick(s: Step): int { if s.SchedulerTick? then 1 else 0 }

  function Count(steps: seq<Step>, f: Step -> int): int
    decreases |steps|
  {
    if |steps| == 0 then 0 else f(steps[0]) + Count(steps[1..], f)
  }

  /** This step makes a BLOCKED process in an earlier slot READY. */
  predicate UnblocksEarlier(k: KernelState, s: Step, pid: int) {
    s.Unblock? && Has(k, pid) && FindBlocked(k.table, s.pid) < Slot(k, pid)
  }

  function EarlierUnblocks(k: KernelState, steps: seq<Step>, pid: int): nat
    decreases |steps|
  {
    if |steps| == 0 then 0
    else (if UnblocksEarlier(k, steps[0], pid) then 1 else 0)
         + EarlierUnblocks(Next(k, steps[0]), steps[1..], pid)
  }

  predicate Raises(k: KernelState, s: Step, pid: int) {
    && s.SetPriority? && s.pid == pid
    && Has(k, pid) && !Proc(k, pid).level.System? && Clamp(s.priority) > Proc(k, pid).priority
  }

  /** No step on the way to Q0 sets the process's priority to a larger number than it has at that moment. */
  predicate NoRaise(k: KernelState, steps: seq<Step>, pid: int)
    decreases |steps|
  {
    |steps| == 0 || (!Raises(k, steps[0], pid) && NoRaise(Next(k, steps[0]), steps[1..], pid))
  }

  // ---------- on the way to Q0 ----------

  /** No step that leaves it READY takes a process out of Q0, and, a raise apart, none takes it further
      from Q0. */
  lemma WaitingProcAfter(k: KernelState, s: Step, pid: int)
    requires Waiting(k, pid) && SaneProcess(Proc(k, pid))
    ensures Proc(k, pid).level.System? ==> ProcAfter(k, s, pid).level.System?
    ensures !Raises(k, s, pid) ==>
              TicksToSystem(ProcAfter(k, s, pid)) <=
              Minus(TicksToSystem(Proc(k, pid)), IsAgingTick(s))
  {
    AgeCountsDown(Proc(k, pid));
    if !(s.SetPriority? && s.pid == pid) {
      ProcAfterCountsDown(k, s, pid);
    }
  }

  lemma StayingStep(k: KernelState, s: Step, pid: int)
    requires Inv(k) && Enabled(k, s) && Waiting(k, pid) && Waiting(Next(k, s), pid)
    ensures s != Remove(pid) && Inv(Next(k, s))
    ensures Slot(Next(k, s), pid) <= Slot(k, pid)
    ensures Proc(k, pid).level.System? ==> Proc(Next(k, s), pid).level.System?
    ensures !Raises(k, s, pid) ==>
              TicksToSystem(Proc(Next(k, s), pid)) <=
              Minus(TicksToSystem(Proc(k, pid)), IsAgingTick(s))
  {
    RemoveRemoves(k, pid);
    StepTracks(k, s, pid);
    WaitingProcAfter(k, s, pid);
  }

  lemma {:induction false} AgingPhase(k: KernelState, steps: seq<Step>, pid: int)
    requires Inv(k) && ValidRun(k, steps) && StaysReady(k, steps, pid) && NoRaise(k, steps, pid)
    ensures var k' := Run(k, steps);
            Inv(k') && Waiting(k', pid) && Slot(k', pid) <= Slot(k, pid)
            && TicksToSystem(Proc(k', pid)) <= Minus(TicksToSystem(Proc(k, pid)), Count(steps, IsAgingTick))
    decreases |steps|
  {
    if |steps| == 0 {
      AgeCountsDown(Proc(k, pid));
    } else {
      var k1 := Next(k, steps[0]);
      assert Waiting(k1, pid) by {
        assert StaysReady(k1, steps[1..], pid);
      }
      StayingStep(k, steps[0], pid);
      AgingPhase(k1, steps[1..], pid);
      CountNonNegative(steps[1..]);
    }
  }

  lemma {:induction false} CountNonNegative(steps: seq<Step>)
    ensures Count(steps, IsAgingTick) >= 0
    decreases |steps|
  {
    if |steps| != 0 {
      CountNonNegative(steps[1..]);
    }
  }

  // ---------- in Q0 ----------

  /** READY slots up to and including the process's own: the measure of its wait in Q0. */
  function Ahead(k: KernelState, pid: int): (n: int)
    requires Has(k, pid)
    ensures n <= Slot(k, pid) + 1
  {
    ReadyCount(k.table[..Slot(k, pid) + 1])
  }

  lemma AheadPositive(k: KernelState, pid: int)
    requires Waiting(k, pid)
    ensures Ahead(k, pid) >= 1
  {
    var t := k.table[..Slot(k, pid) + 1];
    SumSplit(t, Slot(k, pid), IsReady);
    SumNonNegative(t[..Slot(k, pid)], IsReady);
    assert t[Slot(k, pid) + 1..] == [];
  }

  /** From Q0 a tick never picks a slot beyond a READY slot of level 0. */
  lemma TickPicksNoLater(k: KernelState, pid: int)
    requires Inv(k) && Waiting(k, pid) && Proc(k, pid).level.System?
    ensures Picked(k).Some? && Picked(k).value <= Slot(k, pid)
  {
    SlotsAtExact(k.table, System);
    var j :| 0 <= j < |k.q0| && k.q0[j] == Slot(k, pid);
    assert FirstReady(k.table, k.q0) <= j;
  }

  /** Removing another slot never adds READY slots at or before slot i. */
  lemma RemovalPrefix(t: seq<Process>, j: nat, i: nat)
    requires j < |t| && i < |t| && i != j
    ensures ReadyCount((t[..j] + t[j + 1..])[..if j < i then i else i + 1]) <= ReadyCount(t[..i + 1])
  {
    var t' := t[..j] + t[j + 1..];
    if j < i {
      var p := t[..i + 1];
      assert t'[..i] == p[..j] + p[j + 1..];
      SumRemove(p, j, IsReady);
    } else {
      assert t'[..i + 1] == t[..i + 1];
    }
  }

  /** The entry of a PID after another was removed. */
  lemma FindAfterRemoval(t: seq<Process>, j: nat, i: nat)
    requires UniquePids(t) && j < |t| && i < |t| && i != j
    ensures FindPid(t[..j] + t[j + 1..], t[i].pid) == if j < i then i - 1 else i
  {
    var t', x := t[..j] + t[j + 1..], if j < i then i - 1 else i;
    assert t'[x] == t[i];
    forall y | 0 <= y < x
      ensures t'[y].pid != t[i].pid
    {
      assert t'[y] == if y < j then t[y] else t[y + 1];
    }
  }

  lemma AheadAt(k: KernelState, t: seq<Process>, pid: int, i: nat)
    requires k.table == t && FindPid(t, pid) == i && i < |t|
    ensures Has(k, pid) && Ahead(k, pid) == ReadyCount(t[..i + 1])
  {
  }

  lemma AheadShifted(k: KernelState, k': KernelState, j: nat, pid: int)
    requires UniquePids(k.table) && Has(k, pid) && j < |k.table| && j != Slot(k, pid)
    requires k'.table == k.table[..j] + k.table[j + 1..]
    ensures Has(k', pid) && Ahead(k', pid) <= Ahead(k, pid)
  {
    var i := Slot(k, pid);
    FindAfterRemoval(k.table, j, i);
    RemovalPrefix(k.table, j, i);
    AheadAt(k', k.table[..j] + k.table[j + 1..], pid, if j < i then i - 1 else i);
  }

  lemma AheadRemove(k: KernelState, q: int, pid: int)
    requires UniquePids(k.table) && Has(k, pid) && q != pid
    ensures Has(RemoveStep(k, q), pid) && Ahead(RemoveStep(k, q), pid) <= Ahead(k, pid)
  {
    var j := FindPid(k.table, q);
    if j < |k.table| {
      AheadShifted(k, RemoveStep(k, q), j, pid);
    }
  }

  /** A step that rewrites at most the PCB at slot j changes the measure by that PCB's change. */
  lemma AheadEdit(k: KernelState, k': KernelState, j: nat, p: Process, pid: int)
    requires Has(k, pid) && Has(k', pid) && Slot(k', pid) == Slot(k, pid) && j < |k.table|
    requires k'.table == k.table[j := p]
    ensures Ahead(k', pid) ==
            Ahead(k, pid) + if j <= Slot(k, pid) then IsReady(p) - IsReady(k.table[j]) else 0
  {
    var t := k.table[..Slot(k, pid) + 1];
    if j <= Slot(k, pid) {
      assert k'.table[..Slot(k, pid) + 1] == t[j := p];
      SumUpdate(t, j, p, IsReady);
    } else {
      assert k'.table[..Slot(k, pid) + 1] == t;
    }
  }

  lemma AheadTick(k: KernelState, pid: int)
    requires Inv(k) && Waiting(k, pid) && Waiting(SchedulerStep(k), pid)
    ensures Ahead(SchedulerStep(k), pid) <=
            Ahead(k, pid) - if Proc(k, pid).level.System? then 1 else 0
  {
    TickTracks(k, pid);
    TickPicksLeast(k);
    if Proc(k, pid).level.System? {
      TickPicksNoLater(k, pid);
    }
    if Picked(k).Some? {
      var s := Picked(k).value;
      AheadEdit(k, SchedulerStep(k), s, SchedulerStep(k).table[s], pid);
    }
  }

  lemma AheadEditStep(k: KernelState, s: Step, pid: int)
    requires Inv(k) && Waiting(k, pid) && Waiting(Next(k, s), pid)
    requires IsEdit(s)
    ensures Ahead(Next(k, s), pid) <= Ahead(k, pid) + if UnblocksEarlier(k, s, pid) then 1 else 0
  {
    EditShape(k, s);
    EditStepTracks(k, s, pid);
    var i := Target(k, s);
    if i < |k.table| {
      AheadEdit(k, Next(k, s), i, Edited(k.table[i], s), pid);
    }
  }

  lemma AheadCreate(k: KernelState, s: Step, pid: int)
    requires Inv(k) && Enabled(k, s) && s.Create? && Waiting(k, pid)
    ensures Has(Next(k, s), pid) && Ahead(Next(k, s), pid) == Ahead(k, pid)
  {
    StepTracks(k, s, pid);
    assert Next(k, s).table[..Slot(k, pid) + 1] == k.table[..Slot(k, pid) + 1];
  }

  lemma AheadAged(k: KernelState, k': KernelState, pid: int)
    requires Has(k, pid) && Has(k', pid) && Slot(k', pid) == Slot(k, pid)
    requires k'.table == AgeTable(k.table)
    ensures Ahead(k', pid) == Ahead(k, pid)
  {
    var n := Slot(k, pid) + 1;
    SumSame(k.table[..n], AgeTable(k.table)[..n], IsReady);
  }

  lemma AheadAging(k: KernelState, pid: int)
    requires Inv(k) && Waiting(k, pid)
    ensures Has(AgingStep(k), pid) && Ahead(AgingStep(k), pid) == Ahead(k, pid)
  {
    AgingKeepsInv(k);
    AgingTracks(k, pid);
    AheadAged(k, AgingStep(k), pid);
  }

  lemma AheadStep(k: KernelState, s: Step, pid: int)
    requires Inv(k) && Enabled(k, s) && Waiting(k, pid) && Waiting(Next(k, s), pid)
    ensures Ahead(Next(k, s), pid) <= Ahead(k, pid)
            + (if UnblocksEarlier(k, s, pid) then 1 else 0)
            - (if Proc(k, pid).level.System? then IsSchedulerTick(s) else 0)
  {
    RemoveRemoves(k, pid);
    match s
    case Create(_, _, _, _, _, _, _) => AheadCreate(k, s, pid);
    case Remove(q) => AheadRemove(k, q, pid);
    case SchedulerTick => AheadTick(k, pid);
    case AgingTick => AheadAging(k, pid);
    case _ => AheadEditStep(k, s, pid);
  }

  /** While it stays READY in Q0, ticks are paid for by READY slots ahead and by unblocks there. */
  lemma {:induction false} SystemPhase(k: KernelState, steps: seq<Step>, pid: int)
    requires Inv(k) && ValidRun(k, steps) && StaysReady(k, steps, pid)
    requires Proc(k, pid).level.System?
    ensures Count(steps, IsSchedulerTick) + 1 <= Ahead(k, pid) + EarlierUnblocks(k, steps, pid)
    decreases |steps|
  {
    if |steps| == 0 {
      AheadPositive(k, pid);
    } else {
      var k1 := Next(k, steps[0]);
      assert Waiting(k1, pid) by {
        assert StaysReady(k1, steps[1..], pid);
      }
      StayingStep(k, steps[0], pid);
      AheadStep(k, steps[0], pid);
      SystemPhase(k1, steps[1..], pid);
    }
  }

  // ---------- whole runs ----------

  lemma {:induction false} StaysReadySplit(k: KernelState, a: seq<Step>, b: seq<Step>, pid: int)
    ensures StaysReady(k, a + b, pid) <==> StaysReady(k, a, pid) && StaysReady(Run(k, a), b, pid)
    decreases |a|
  {
    if |a| == 0 {
      assert a + b == b;
      assert StaysReady(k, b, pid) ==> Waiting(k, pid);
    } else {
      assert (a + b)[1..] == a[1..] + b;
      StaysReadySplit(Next(k, a[0]), a[1..], b, pid);
    }
  }

  predicate Touches(s: Step, pid: int) {
    s == Remove(pid) || s == Minimize(pid) || s == Resume(pid)
  }

  /** A READY process left alone by removal, minimize and resume stops being READY only by being
      dispatched. */
  lemma {:induction false} LeavesByDispatch(k: KernelState, steps: seq<Step>, pid: int)
    requires Inv(k) && ValidRun(k, steps) && Waiting(k, pid) && !StaysReady(k, steps, pid)
    requires forall i :: 0 <= i < |steps| ==> !Touches(steps[i], pid)
    ensures DispatchedIn(k, steps, pid)
    decreases |steps|
  {
    assert |steps| != 0;
    StepTracks(k, steps[0], pid);
    if Waiting(Next(k, steps[0]), pid) {
      LeavesByDispatch(Next(k, steps[0]), steps[1..], pid);
    }
  }

  /** No starvation. Take a READY process at slot i of any reachable state, and any run, whatever
      it creates, removes or blocks, that first contains TicksToSystem aging ticks and then i + 1
      scheduler ticks plus one for each unblock of an earlier slot. The process does not stay
      READY through it; unless removed, minimized or resumed it has been dispatched. */
  lemma NoStarvation(k: KernelState, pre: seq<Step>, post: seq<Step>, pid: int)
    requires Inv(k) && ValidRun(k, pre + post) && Waiting(k, pid)
    requires NoRaise(k, pre, pid)
    requires Count(pre, IsAgingTick) >= TicksToSystem(Proc(k, pid))
    requires Count(post, IsSchedulerTick) >= Slot(k, pid) + 1 + EarlierUnblocks(Run(k, pre), post, pid)
    ensures !StaysReady(k, pre + post, pid)
    ensures (forall i :: 0 <= i < |pre + post| ==> !Touches((pre + post)[i], pid)) ==>
              DispatchedIn(k, pre + post, pid)
  {
    if StaysReady(k, pre + post, pid) {
      ValidRunConcat(k, pre, post);
      StaysReadySplit(k, pre, post, pid);
      AgingPhase(k, pre, pid);
      var k1 := Run(k, pre);
      AgeCountsDown(Proc(k1, pid));
      SystemPhase(k1, post, pid);
      assert false;
    }
    if forall i :: 0 <= i < |pre + post| ==> !Touches((pre + post)[i], pid) {
      LeavesByDispatch(k, pre + post, pid);
    }
  }

  // ---------- aging is what prevents it ----------

  function Victim(): Process {
    Process(1, "Stopwatch", Ready, 6, Background, 0, 0, 0, 0, 0, -1)
  }

  /** One READY background process, alone. */
  function Lonely(capacity: nat, cores: int): KernelState {
    KernelState(capacity, [Victim()], [], [], [0], cores, cores)
  }

  /** A system task comes, is dispatched and goes. */
  const PASSER_BY: seq<Step> := [Create(2, "Clock", 0, System, 0, 0, 0), SchedulerTick, Remove(2)]

  function Repeat(steps: seq<Step>, n: nat): seq<Step> {
    if n == 0 then [] else steps + Repeat(steps, n - 1)
  }

  /** Where the passer-by has come, and where it has been dispatched. */
  function PasserByIn(capacity: nat, cores: int): KernelState {
    Next(Lonely(capacity, cores), PASSER_BY[0])
  }

  function PasserByRuns(capacity: nat, cores: int): KernelState {
    SchedulerStep(PasserByIn(capacity, cores))
  }

  lemma PasserByCreated(capacity: nat, cores: int)
    requires 2 <= capacity
    ensures var k := PasserByIn(capacity, cores);
            && k.table[..1] == [Victim()] && |k.table| == 2 && k.q0 == [1] && k.q1 == [] && k.q2 == [0]
            && k.table[1].pid == 2 && k.table[1].state.Ready?
            && k == Lonely(capacity, cores).(table := k.table, q0 := [1])
  {
  }

  lemma PasserByDispatched(capacity: nat, cores: int)
    requires 2 <= capacity
    ensures Picked(PasserByIn(capacity, cores)) == Some(1)
    ensures var k := PasserByRuns(capacity, cores);
            && |k.table| == 2 && k.table[0] == Victim() && k.table[1].pid == 2
            && Lonely(capacity, cores) == k.(table := [Victim()], q0 := [], q1 := [], q2 := [0])
  {
    var k1 := PasserByIn(capacity, cores);
    PasserByCreated(capacity, cores);
    assert ReadySlot(k1.table, k1.q0[0]);
    assert FirstReady(k1.table, k1.q0) == 0;
    assert k1.table[0] == k1.table[..1][0];
  }

  lemma PasserByRemoved(k: KernelState, base: KernelState)
    requires |k.table| == 2 && k.table[0] == Victim() && k.table[1].pid == 2
    requires base == k.(table := [Victim()], q0 := [], q1 := [], q2 := [0])
    ensures RemoveStep(k, 2) == base
  {
    assert FindPid(k.table, 2) == 1;
    assert k.table[..1] + k.table[2..] == [Victim()];
    assert forall l: Level :: SlotsAt([Victim()][..0], l) == [];
  }

  lemma VictimWaits(k: KernelState)
    requires |k.table| > 0 && k.table[0] == Victim()
    ensures Waiting(k, 1)
  {
    assert FindPid(k.table, 1) == 0;
  }

  /** A run whose trace shows the process READY throughout. */
  lemma {:induction false} StaysReadyTrace(states: seq<KernelState>, steps: seq<Step>, pid: int)
    requires IsTrace(states, steps) && forall i :: 0 <= i < |states| ==> Waiting(states[i], pid)
    ensures StaysReady(states[0], steps, pid)
    decreases |steps|
  {
    assert Waiting(states[0], pid);
    if |steps| != 0 {
      assert Next(states[0], steps[0]) == states[1];
      StaysReadyTrace(states[1..], steps[1..], pid);
    }
  }

  lemma CountThree(states: seq<KernelState>, steps: seq<Step>, f: (KernelState, Step) -> nat)
    requires IsTrace(states, steps) && |steps| == 3
    ensures CountSteps(states[0], steps, f) ==
            f(states[0], steps[0]) + f(states[1], steps[1]) + f(states[2], steps[2])
  {
    var k1, k2, k3 := states[1], states[2], states[3];
    assert Next(states[0], steps[0]) == k1 && Next(k1, steps[1]) == k2 && Next(k2, steps[2]) == k3;
    assert CountSteps(k3, steps[1..][1..][1..], f) == 0;
    assert CountSteps(k2, steps[1..][1..], f) == f(k2, steps[2]);
    assert CountSteps(k1, steps[1..], f) == f(k1, steps[1]) + f(k2, steps[2]);
  }

  function Visit(capacity: nat, cores: int): seq<KernelState> {
    [Lonely(capacity, cores), PasserByIn(capacity, cores), PasserByRuns(capacity, cores), Lonely(capacity, cores)]
  }

  lemma VisitIsTrace(capacity: nat, cores: int)
    requires 2 <= capacity
    ensures IsTrace(Visit(capacity, cores), PASSER_BY)
    ensures forall i :: 0 <= i < 4 ==> Waiting(Visit(capacity, cores)[i], 1)
  {
    var k0, k1, k2 := Lonely(capacity, cores), PasserByIn(capacity, cores), PasserByRuns(capacity, cores);
    PasserByCreated(capacity, cores);
    PasserByDispatched(capacity, cores);
    PasserByRemoved(k2, k0);
    assert k1.table[0] == k1.table[..1][0];
    VictimWaits(k0);
    VictimWaits(k1);
    VictimWaits(k2);
  }

  /** The run comes back to where it began, the process waits through it, and others are dispatched
      this often. */
  predicate Returns(k: KernelState, steps: seq<Step>, pid: int, dispatches: nat) {
    && ValidRun(k, steps) && Run(k, steps) == k && StaysReady(k, steps, pid)
    && CountSteps(k, steps, Dispatches) == dispatches
  }

  lemma PasserByReturns(capacity: nat, cores: int)
    requires 2 <= capacity
    ensures Returns(Lonely(capacity, cores), PASSER_BY, 1, 1)
  {
    var states := Visit(capacity, cores);
    VisitIsTrace(capacity, cores);
    PasserByDispatched(capacity, cores);
    TraceIsRun(states, PASSER_BY);
    StaysReadyTrace(states, PASSER_BY, 1);
    CountThree(states, PASSER_BY, Dispatches);
  }

  lemma CountCons(s: seq<Step>)
    requires |s| > 0
    ensures Count(s, IsSchedulerTick) == IsSchedulerTick(s[0]) + Count(s[1..], IsSchedulerTick)
    ensures Count(s, IsAgingTick) == IsAgingTick(s[0]) + Count(s[1..], IsAgingTick)
  {
  }

  lemma CountPasserBy(rest: seq<Step>)
    ensures Count(PASSER_BY + rest, IsSchedulerTick) == 1 + Count(rest, IsSchedulerTick)
    ensures Count(PASSER_BY + rest, IsAgingTick) == Count(rest, IsAgingTick)
  {
    var s := PASSER_BY + rest;
    assert s[1..][1..] == s[2..] && s[2..][1..] == rest;
    CountCons(s);
    CountCons(s[1..]);
    CountCons(s[2..]);
  }

  lemma {:induction false} RepeatedCounts(n: nat)
    ensures Count(Repeat(PASSER_BY, n), IsSchedulerTick) == n && Count(Repeat(PASSER_BY, n), IsAgingTick) == 0
  {
    if n != 0 {
      RepeatedCounts(n - 1);
      CountPasserBy(Repeat(PASSER_BY, n - 1));
    }
  }

  lemma ReturnsTwice(k: KernelState, a: seq<Step>, b: seq<Step>, pid: int, m: nat, n: nat)
    requires Returns(k, a, pid, m) && Returns(k, b, pid, n)
    ensures Returns(k, a + b, pid, m + n)
  {
    RunConcat(k, a, b);
    ValidRunConcat(k, a, b);
    StaysReadySplit(k, a, b, pid);
    CountStepsConcat(k, a, b, Dispatches);
  }

  lemma {:induction false} RepeatedReturns(k: KernelState, steps: seq<Step>, pid: int, n: nat)
    requires Waiting(k, pid) && Returns(k, steps, pid, 1)
    ensures Returns(k, Repeat(steps, n), pid, n)
  {
    if n != 0 {
      RepeatedReturns(k, steps, pid, n - 1);
      ReturnsTwice(k, steps, Repeat(steps, n - 1), pid, 1, n - 1);
    }
  }

  lemma LonelyIsReachable(capacity: nat, cores: int)
    requires 2 <= capacity
    ensures Next(Boot(capacity, cores), Create(1, "Stopwatch", 6, Background, 0, 0, 0)) == Lonely(capacity, cores)
  {
  }

  /** Without aging ticks there is no bound: for every n some run from a reachable state has n scheduler
      ticks and n dispatches, all of others, while a READY process waits from its first step to its
      last. */
  lemma WithoutAgingStarves(capacity: nat, cores: int, n: nat)
    requires 2 <= capacity
    ensures Next(Boot(capacity, cores), Create(1, "Stopwatch", 6, Background, 0, 0, 0)) == Lonely(capacity, cores)
    ensures var k, steps := Lonely(capacity, cores), Repeat(PASSER_BY, n);
            && ValidRun(k, steps)
            && StaysReady(k, steps, 1)
            && Count(steps, IsSchedulerTick) == n
            && CountSteps(k, steps, Dispatches) == n
            && Count(steps, IsAgingTick) == 0
  {
    LonelyIsReachable(capacity, cores);
    PasserByReturns(capacity, cores);
    VictimWaits(Lonely(capacity, cores));
    RepeatedReturns(Lonely(capacity, cores), PASSER_BY, 1, n);
    RepeatedCounts(n);
  }
}
