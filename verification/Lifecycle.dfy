/** One process followed by its PID through a run, whatever slot it is shifted to. */
module Lifecycle {
  import opened KernelTypes
  import opened KernelSpec
  import opened Agreement
  import opened Scheduling

  predicate Has(k: KernelState, pid: int) {
    FindPid(k.table, pid) < |k.table|
  }

  function Slot(k: KernelState, pid: int): (i: nat)
    requires Has(k, pid)
    ensures i < |k.table| && k.table[i].pid == pid
  {
    FindPid(k.table, pid)
  }

  function Proc(k: KernelState, pid: int): (p: Process)
    requires Has(k, pid)
    ensures p.pid == pid
  {
    k.table[Slot(k, pid)]
  }

  lemma SlotIs(k: KernelState, pid: int, i: nat)
    requires UniquePids(k.table) && i < |k.table| && k.table[i].pid == pid
    ensures Has(k, pid) && Slot(k, pid) == i
  {
    var f := FindPid(k.table, pid);
    assert f <= i;
    assert f == i;
  }

  /** What a step does to the process, said without its slot. */
  function ProcAfter(k: KernelState, s: Step, pid: int): Process
    requires Has(k, pid)
  {
    var p := Proc(k, pid);
    match s
    case SchedulerTick =>
      if Picked(k) == Some(Slot(k, pid)) then p.(state := Running, core := AssignedCore(k)) else p
    case AgingTick => Age(p)
    case Minimize(q) => if q == pid then Parked(p, Minimized) else p
    case Resume(q) => if q == pid then p.(state := Running) else p
    case Interrupt(q) => if q == pid && p.state.Running? then Parked(p, Blocked) else p
    case Unblock(q) => if q == pid && p.state.Blocked? then p.(state := Ready) else p
    case SetPriority(q, priority) => if q == pid then p.(priority := Clamp(priority)) else p
    case _ => p
  }

  function SlotAfter(k: KernelState, s: Step, pid: int): int
    requires Has(k, pid)
  {
    if s.Remove? && FindPid(k.table, s.pid) < Slot(k, pid) then Slot(k, pid) - 1 else Slot(k, pid)
  }

  /** Rewriting one PCB, its PID kept, moves nobody and changes nobody else. */
  lemma EditTracks(k: KernelState, k': KernelState, i: nat, p: Process, pid: int)
    requires UniquePids(k.table) && Has(k, pid) && i < |k.table|
    requires k'.table == k.table[i := p] && p.pid == k.table[i].pid
    ensures Has(k', pid) && Slot(k', pid) == Slot(k, pid)
    ensures Proc(k', pid) == if i == Slot(k, pid) then p else Proc(k, pid)
  {
    SlotIs(k', pid, Slot(k, pid));
  }

  /** The step hits the process exactly when it names its PID and finds it in the state it wants. */
  lemma TargetIs(k: KernelState, s: Step, pid: int)
    requires UniquePids(k.table) && Has(k, pid) && IsEdit(s)
    ensures var p := Proc(k, pid);
            ProcAfter(k, s, pid) == if Target(k, s) == Slot(k, pid) then Edited(p, s) else p
  {
    var i := Target(k, s);
    if i < |k.table| {
      SlotIs(k, s.pid, i);
    }
  }

  lemma EditStepTracks(k: KernelState, s: Step, pid: int)
    requires UniquePids(k.table) && Has(k, pid)
    requires IsEdit(s)
    ensures Has(Next(k, s), pid) && Slot(Next(k, s), pid) == Slot(k, pid)
    ensures Proc(Next(k, s), pid) == ProcAfter(k, s, pid)
  {
    EditShape(k, s);
    TargetIs(k, s, pid);
    var i := Target(k, s);
    if i < |k.table| {
      EditTracks(k, Next(k, s), i, Edited(k.table[i], s), pid);
    }
  }

  lemma RemoveTracks(k: KernelState, s: Step, pid: int)
    requires UniquePids(k.table) && UniquePids(Next(k, s).table) && Has(k, pid)
    requires s.Remove? && s.pid != pid
    ensures Has(Next(k, s), pid) && Slot(Next(k, s), pid) == SlotAfter(k, s, pid)
    ensures Proc(Next(k, s), pid) == Proc(k, pid)
  {
    var i := SlotAfter(k, s, pid);
    assert Next(k, s).table[i] == Proc(k, pid);
    SlotIs(Next(k, s), pid, i);
  }

  lemma TickTracks(k: KernelState, pid: int)
    requires UniquePids(k.table) && Has(k, pid)
    ensures Has(SchedulerStep(k), pid) && Slot(SchedulerStep(k), pid) == Slot(k, pid)
    ensures Proc(SchedulerStep(k), pid) == ProcAfter(k, SchedulerTick, pid)
  {
    TickPicksLeast(k);
    if Picked(k).Some? {
      var s := Picked(k).value;
      EditTracks(k, SchedulerStep(k), s, SchedulerStep(k).table[s], pid);
    }
  }

  lemma CreateTracks(k: KernelState, s: Step, pid: int)
    requires UniquePids(Next(k, s).table) && Has(k, pid) && s.Create?
    ensures Has(Next(k, s), pid) && Slot(Next(k, s), pid) == Slot(k, pid)
    ensures Proc(Next(k, s), pid) == Proc(k, pid)
  {
    SlotIs(Next(k, s), pid, Slot(k, pid));
  }

  lemma AgingTracks(k: KernelState, pid: int)
    requires UniquePids(AgingStep(k).table) && Has(k, pid)
    ensures Has(AgingStep(k), pid) && Slot(AgingStep(k), pid) == Slot(k, pid)
    ensures Proc(AgingStep(k), pid) == Age(Proc(k, pid))
  {
    SlotIs(AgingStep(k), pid, Slot(k, pid));
  }

  /** Only its own removal takes a process out of the table; any other step does to the process
      what ProcAfter says and moves it, if at all, one slot down. */
  lemma StepTracks(k: KernelState, s: Step, pid: int)
    requires Inv(k) && Enabled(k, s) && Has(k, pid) && s != Remove(pid)
    ensures Inv(Next(k, s)) && Has(Next(k, s), pid)
    ensures Slot(Next(k, s), pid) == SlotAfter(k, s, pid)
    ensures Proc(Next(k, s), pid) == ProcAfter(k, s, pid)
  {
    StepKeepsInv(k, s);
    match s
    case Create(_, _, _, _, _, _, _) => CreateTracks(k, s, pid);
    case Remove(_) => RemoveTracks(k, s, pid);
    case SchedulerTick => TickTracks(k, pid);
    case AgingTick => AgingTracks(k, pid);
    case _ => EditStepTracks(k, s, pid);
  }

  lemma RemoveRemoves(k: KernelState, pid: int)
    requires Inv(k)
    ensures !Has(RemoveStep(k, pid), pid)
  {
    var i := FindPid(k.table, pid);
    var t := RemoveStep(k, pid).table;
    if i < |k.table| {
      forall j | 0 <= j < |t|
        ensures t[j].pid != pid
      {
        assert t[j] == if j < i then k.table[j] else k.table[j + 1];
      }
    }
  }

  /** The step is aimed at the process by name: resumed, minimized again, removed or re-prioritized. */
  predicate Addresses(s: Step, pid: int) {
    s == Resume(pid) || s == Minimize(pid) || s == Remove(pid) || (s.SetPriority? && s.pid == pid)
  }

  lemma {:induction false} MinimizedStays(k: KernelState, steps: seq<Step>, pid: int)
    requires Inv(k) && ValidRun(k, steps) && Has(k, pid) && Proc(k, pid).state.Minimized?
    requires forall i :: 0 <= i < |steps| ==> !Addresses(steps[i], pid)
    ensures Has(Run(k, steps), pid) && Proc(Run(k, steps), pid) == Proc(k, pid)
    decreases |steps|
  {
    if |steps| != 0 {
      StepTracks(k, steps[0], pid);
      MinimizedNotPicked(k, pid);
      MinimizedStays(Next(k, steps[0]), steps[1..], pid);
    }
  }

  lemma MinimizedNotPicked(k: KernelState, pid: int)
    requires Has(k, pid) && !Proc(k, pid).state.Ready?
    ensures Picked(k) != Some(Slot(k, pid))
  {
    TickPicksLeast(k);
  }

  /** A minimized process is frozen: through any run it is neither dispatched nor aged nor unblocked,
      and its PCB stays as minimizing left it, until it is addressed again. */
  lemma MinimizedUntilResumed(k: KernelState, steps: seq<Step>, pid: int)
    requires Inv(k) && Has(k, pid) && ValidRun(MinimizeStep(k, pid), steps)
    requires forall i :: 0 <= i < |steps| ==> !Addresses(steps[i], pid)
    ensures var k' := Run(MinimizeStep(k, pid), steps);
            Has(k', pid) && Proc(k', pid) == Parked(Proc(k, pid), Minimized)
  {
    var k1 := MinimizeStep(k, pid);
    assert k1 == Next(k, Minimize(pid));
    assert ProcAfter(k, Minimize(pid), pid) == Parked(Proc(k, pid), Minimized);
    StepTracks(k, Minimize(pid), pid);
    MinimizedStays(k1, steps, pid);
  }

  /** Resuming makes it RUNNING and changes nothing else: it gets no core back. */
  lemma Resumed(k: KernelState, pid: int)
    requires UniquePids(k.table) && Has(k, pid)
    ensures Has(ResumeStep(k, pid), pid)
    ensures Proc(ResumeStep(k, pid), pid) == Proc(k, pid).(state := Running)
  {
    EditStepTracks(k, Resume(pid), pid);
  }
}
