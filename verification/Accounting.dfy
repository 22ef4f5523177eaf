/** RAM and HDD across kernel threads. Granting, storing the PCB, removing it and giving the amounts
    back are separate critical sections, and each log line is written after its section; the steps
    of any number of threads interleave freely. */
module Accounting {
  import opened KernelTypes
  import opened KernelSpec
  import opened Agreement
  import opened Scheduling
  import opened Sums

  datatype Amount = Amount(ram: int, hdd: int) {
    function Plus(b: Amount): Amount { Amount(ram + b.ram, hdd + b.hdd) }
    function Minus(b: Amount): Amount { Amount(ram - b.ram, hdd - b.hdd) }
    predicate AtMost(b: Amount) { ram <= b.ram && hdd <= b.hdd }
  }

  const NOTHING := Amount(0, 0)

  /** A line of the system log. */
  datatype Event =
    | Booted(total: Amount, cores: int)
    | Allocated(amount: Amount)
    | Reclaimed(amount: Amount)
    | Created(pid: int, name: string)
    | Terminated(pid: int)
    | Switched(pid: int, name: string, core: int)
    | Unblocked(pid: int)
    | ChildExited(pid: int)

  /** How far a thread is: a request after its grant, or a removal after taking the PCB out. */
  datatype Task =
    | Granted(pid: int, name: string, need: Amount)
    | Announced(pid: int, name: string, need: Amount)
    | Stored(pid: int, name: string)
    | Taken(pid: int, held: Amount)
    | Returned(pid: int, held: Amount)
    | Reported(pid: int)
    | Finished

  /** leaked, dropped, stored and taken record history: amounts granted to requests whose PCB found the
      table full, their number, and how often a PCB of each PID was stored and removed. */
  datatype Machine = Machine(
    kernel: KernelState,
    total: Amount,
    free: Amount,
    tasks: seq<Task>,
    leaked: Amount,
    dropped: nat,
    stored: multiset<int>,
    taken: multiset<int>,
    log: seq<Event>)

  datatype Action =
    | Request(pid: int, name: string, need: Amount)
    | Advance(i: nat, now: int)
    | Terminate(pid: int)
    | Internal(step: Step)
    | ChildExit(pid: int)

  function Start(capacity: nat, total: Amount, cores: int): Machine {
    Machine(Boot(capacity, cores), total, total, [], NOTHING, 0, multiset{}, multiset{},
           [Booted(total, cores)])
  }

  function RequestAction(s: Machine, pid: int, name: string, need: Amount): Machine {
    if need.AtMost(s.free)
    then s.(free := s.free.Minus(need), tasks := s.tasks + [Granted(pid, name, need)])
    else s
  }

  function StoreAction(s: Machine, i: nat, now: int): Machine
    requires i < |s.tasks| && s.tasks[i].Announced?
  {
    var Announced(pid, name, need) := s.tasks[i];
    var level := QueueLevel(name);
    var full := |s.kernel.table| >= s.kernel.capacity;
    s.(kernel := CreateStep(s.kernel, pid, name, level.DefaultPriority(), level, need.ram, need.hdd, now),
       tasks := s.tasks[i := Stored(pid, name)],
       leaked := if full then s.leaked.Plus(need) else s.leaked,
       dropped := if full then s.dropped + 1 else s.dropped,
       stored := if full then s.stored else s.stored + multiset{pid})
  }

  function Logged(s: Machine, i: nat, t: Task, e: Event): Machine
    requires i < |s.tasks|
  {
    s.(tasks := s.tasks[i := t], log := s.log + [e])
  }

  function AdvanceAction(s: Machine, i: nat, now: int): Machine
    requires i < |s.tasks|
  {
    match s.tasks[i]
    case Granted(pid, name, need) => Logged(s, i, Announced(pid, name, need), Allocated(need))
    case Announced(_, _, _) => StoreAction(s, i, now)
    case Stored(pid, name) => Logged(s, i, Finished, Created(pid, name))
    case Taken(pid, held) =>
      s.(free := s.free.Plus(held), tasks := s.tasks[i := Returned(pid, held)])
    case Returned(pid, held) => Logged(s, i, Reported(pid), Reclaimed(held))
    case Reported(pid) => Logged(s, i, Finished, Terminated(pid))
    case Finished => s
  }

  function TerminateAction(s: Machine, pid: int): Machine {
    var i := FindPid(s.kernel.table, pid);
    if i == |s.kernel.table| then s
    else
      var p := s.kernel.table[i];
      s.(kernel := RemoveStep(s.kernel, pid),
         tasks := s.tasks + [Taken(pid, Amount(p.ram, p.hdd))],
         taken := s.taken + multiset{pid})
  }

  /** The line a kernel step writes while it holds the table lock. */
  function StepLog(k: KernelState, step: Step): seq<Event> {
    if step.SchedulerTick? && Picked(k).Some? && Picked(k).value < |k.table| then
      var p := k.table[Picked(k).value];
      [Switched(p.pid, p.name, AssignedCore(k))]
    else if step.Unblock? && FindBlocked(k.table, step.pid) < |k.table| then [Unblocked(step.pid)]
    else []
  }

  function Act(s: Machine, a: Action): Machine
    requires ActEnabled(s, a)
  {
    match a
    case Request(pid, name, need) => RequestAction(s, pid, name, need)
    case Advance(i, now) => AdvanceAction(s, i, now)
    case Terminate(pid) => TerminateAction(s, pid)
    case Internal(step) => s.(kernel := Next(s.kernel, step), log := s.log + StepLog(s.kernel, step))
    case ChildExit(pid) => s.(log := s.log + [ChildExited(pid)])
  }

  /** The clock does not run backwards, and the table grows and shrinks only through the actions above.
      Any PID may make any request. */
  predicate ActEnabled(s: Machine, a: Action) {
    match a
    case Request(_, _, _) => true
    case Advance(i, now) =>
      i < |s.tasks| &&
      (s.tasks[i].Announced? ==>
        forall j :: 0 <= j < |s.kernel.table| ==> s.kernel.table[j].arriveTime <= now)
    case Terminate(_) => true
    case Internal(step) => !step.Create? && !step.Remove?
    case ChildExit(_) => true
  }

  predicate ValidActions(s: Machine, acts: seq<Action>)
    decreases |acts|
  {
    |acts| == 0 || (ActEnabled(s, acts[0]) && ValidActions(Act(s, acts[0]), acts[1..]))
  }

  function Perform(s: Machine, acts: seq<Action>): Machine
    requires ValidActions(s, acts)
    decreases |acts|
  {
    if |acts| == 0 then s else Perform(Act(s, acts[0]), acts[1..])
  }

  // ---------- kernel steps hold amounts still ----------

  predicate SameHoldings(t: seq<Process>, t': seq<Process>) {
    && |t'| == |t|
    && forall i :: 0 <= i < |t| ==> t'[i].pid == t[i].pid && t'[i].ram == t[i].ram && t'[i].hdd == t[i].hdd
  }

  lemma InternalKeepsHoldings(k: KernelState, step: Step)
    requires !step.Create? && !step.Remove?
    ensures SameHoldings(k.table, Next(k, step).table)
  {
    if step.SchedulerTick? {
      TickPicksLeast(k);
    } else if step.AgingTick? {
      assert Next(k, step).table == AgeTable(k.table);
    } else {
      EditKeepsHoldings(k, step);
    }
  }

  lemma SetKeepsHoldings(t: seq<Process>, i: nat, p: Process)
    requires i < |t| && p.pid == t[i].pid && p.ram == t[i].ram && p.hdd == t[i].hdd
    ensures SameHoldings(t, t[i := p])
  {
  }

  lemma EditKeepsHoldings(k: KernelState, step: Step)
    requires IsEdit(step)
    ensures SameHoldings(k.table, Next(k, step).table)
  {
    EditShape(k, step);
    var i := Target(k, step);
    if i < |k.table| {
      SetKeepsHoldings(k.table, i, Edited(k.table[i], step));
    }
  }

  // ---------- conservation ----------

  function RamOf(p: Process): int { p.ram }

  function HddOf(p: Process): int { p.hdd }

  function RamInFlight(t: Task): int {
    match t
    case Granted(_, _, need) => need.ram
    case Announced(_, _, need) => need.ram
    case Taken(_, held) => held.ram
    case _ => 0
  }

  function HddInFlight(t: Task): int {
    match t
    case Granted(_, _, need) => need.hdd
    case Announced(_, _, need) => need.hdd
    case Taken(_, held) => held.hdd
    case _ => 0
  }

  /** Free, held by PCBs, granted but not stored or removed but not reclaimed, and leaked on a full
      table make up the total. */
  predicate Conserved(s: Machine) {
    && s.free.ram + Sum(s.kernel.table, RamOf) + Sum(s.tasks, RamInFlight) + s.leaked.ram == s.total.ram
    && s.free.hdd + Sum(s.kernel.table, HddOf) + Sum(s.tasks, HddInFlight) + s.leaked.hdd == s.total.hdd
  }

  lemma TableAppend(t: seq<Process>, p: Process)
    ensures Sum(t + [p], RamOf) == Sum(t, RamOf) + p.ram
    ensures Sum(t + [p], HddOf) == Sum(t, HddOf) + p.hdd
  {
    SumAppend(t, p, RamOf);
    SumAppend(t, p, HddOf);
  }

  lemma TasksUpdate(ts: seq<Task>, i: nat, t: Task)
    requires i < |ts|
    ensures Sum(ts[i := t], RamInFlight) == Sum(ts, RamInFlight) - RamInFlight(ts[i]) + RamInFlight(t)
    ensures Sum(ts[i := t], HddInFlight) == Sum(ts, HddInFlight) - HddInFlight(ts[i]) + HddInFlight(t)
  {
    SumUpdate(ts, i, t, RamInFlight);
    SumUpdate(ts, i, t, HddInFlight);
  }

  lemma TasksAppend(ts: seq<Task>, t: Task)
    ensures Sum(ts + [t], RamInFlight) == Sum(ts, RamInFlight) + RamInFlight(t)
    ensures Sum(ts + [t], HddInFlight) == Sum(ts, HddInFlight) + HddInFlight(t)
  {
    SumAppend(ts, t, RamInFlight);
    SumAppend(ts, t, HddInFlight);
  }

  lemma StoreConserves(s: Machine, i: nat, now: int)
    requires i < |s.tasks| && s.tasks[i].Announced? && Conserved(s)
    ensures Conserved(StoreAction(s, i, now))
  {
    var s' := StoreAction(s, i, now);
    TasksUpdate(s.tasks, i, s'.tasks[i]);
    if |s.kernel.table| < s.kernel.capacity {
      TableAppend(s.kernel.table, s'.kernel.table[|s.kernel.table|]);
    }
  }

  /** A step of a thread that leaves the table alone: what it moves between free and in flight. */
  lemma MoveConserves(s: Machine, i: nat, t: Task, free: Amount, log: seq<Event>)
    requires i < |s.tasks| && Conserved(s)
    requires free.ram + RamInFlight(t) == s.free.ram + RamInFlight(s.tasks[i])
    requires free.hdd + HddInFlight(t) == s.free.hdd + HddInFlight(s.tasks[i])
    ensures Conserved(s.(free := free, tasks := s.tasks[i := t], log := log))
  {
    TasksUpdate(s.tasks, i, t);
  }

  lemma AdvanceConserves(s: Machine, i: nat, now: int)
    requires i < |s.tasks| && Conserved(s)
    ensures Conserved(AdvanceAction(s, i, now))
  {
    match s.tasks[i]
    case Announced(_, _, _) => StoreConserves(s, i, now);
    case Finished =>
    case Granted(pid, name, need) =>
      MoveConserves(s, i, Announced(pid, name, need), s.free, s.log + [Allocated(need)]);
    case Stored(pid, name) => MoveConserves(s, i, Finished, s.free, s.log + [Created(pid, name)]);
    case Taken(pid, held) => MoveConserves(s, i, Returned(pid, held), s.free.Plus(held), s.log);
    case Returned(pid, held) => MoveConserves(s, i, Reported(pid), s.free, s.log + [Reclaimed(held)]);
    case Reported(pid) => MoveConserves(s, i, Finished, s.free, s.log + [Terminated(pid)]);
  }

  /** A PCB taken out of the table puts what it held in flight. */
  lemma TakingConserves(s: Machine, s': Machine, i: nat)
    requires Conserved(s) && i < |s.kernel.table|
    requires var t, p := s.kernel.table, s.kernel.table[i];
             s'.kernel.table == t[..i] + t[i + 1..]
             && s'.tasks == s.tasks + [Taken(p.pid, Amount(p.ram, p.hdd))]
    requires s'.free == s.free && s'.leaked == s.leaked && s'.total == s.total
    ensures Conserved(s')
  {
    var p := s.kernel.table[i];
    SumRemove(s.kernel.table, i, RamOf);
    SumRemove(s.kernel.table, i, HddOf);
    TasksAppend(s.tasks, Taken(p.pid, Amount(p.ram, p.hdd)));
  }

  lemma TerminateConserves(s: Machine, pid: int)
    requires Conserved(s)
    ensures Conserved(TerminateAction(s, pid))
  {
    var i := FindPid(s.kernel.table, pid);
    if i == |s.kernel.table| {
      assert TerminateAction(s, pid) == s;
    } else {
      TakingConserves(s, TerminateAction(s, pid), i);
    }
  }

  lemma ActConserves(s: Machine, a: Action)
    requires ActEnabled(s, a) && Conserved(s)
    ensures Conserved(Act(s, a))
  {
    match a
    case Request(pid, name, need) => TasksAppend(s.tasks, Granted(pid, name, need));
    case Advance(i, now) => AdvanceConserves(s, i, now);
    case Terminate(pid) => TerminateConserves(s, pid);
    case Internal(step) =>
      InternalKeepsHoldings(s.kernel, step);
      SumSame(s.kernel.table, Next(s.kernel, step).table, RamOf);
      SumSame(s.kernel.table, Next(s.kernel, step).table, HddOf);
    case ChildExit(_) =>
  }

  lemma {:induction false} RunConserves(s: Machine, acts: seq<Action>)
    requires ValidActions(s, acts) && Conserved(s)
    ensures Conserved(Perform(s, acts))
    ensures Perform(s, acts).total == s.total
    decreases |acts|
  {
    if |acts| != 0 {
      ActConserves(s, acts[0]);
      RunConserves(Act(s, acts[0]), acts[1..]);
    }
  }

  // ---------- bounds ----------

  predicate NonNegative(s: Machine) {
    && NOTHING.AtMost(s.free) && NOTHING.AtMost(s.leaked)
    && (forall i :: 0 <= i < |s.kernel.table| ==> 0 <= s.kernel.table[i].ram && 0 <= s.kernel.table[i].hdd)
    && (forall i :: 0 <= i < |s.tasks| ==> NonNegativeTask(s.tasks[i]))
  }

  predicate NonNegativeTask(t: Task) {
    match t
    case Granted(_, _, need) => NOTHING.AtMost(need)
    case Announced(_, _, need) => NOTHING.AtMost(need)
    case Taken(_, held) => NOTHING.AtMost(held)
    case Returned(_, held) => NOTHING.AtMost(held)
    case _ => true
  }

  predicate NonNegativeRequests(acts: seq<Action>) {
    forall i :: 0 <= i < |acts| ==> acts[i].Request? ==> NOTHING.AtMost(acts[i].need)
  }

  lemma AdvanceKeepsNonNegative(s: Machine, i: nat, now: int)
    requires i < |s.tasks| && NonNegative(s)
    ensures NonNegative(AdvanceAction(s, i, now))
  {
    assert NonNegativeTask(s.tasks[i]);
  }

  lemma TerminateKeepsNonNegative(s: Machine, pid: int)
    requires NonNegative(s)
    ensures NonNegative(TerminateAction(s, pid))
  {
  }

  lemma ActKeepsNonNegative(s: Machine, a: Action)
    requires ActEnabled(s, a) && NonNegative(s) && (a.Request? ==> NOTHING.AtMost(a.need))
    ensures NonNegative(Act(s, a))
  {
    match a
    case Request(_, _, _) =>
    case Advance(i, now) => AdvanceKeepsNonNegative(s, i, now);
    case Terminate(pid) => TerminateKeepsNonNegative(s, pid);
    case Internal(step) => InternalKeepsHoldings(s.kernel, step);
    case ChildExit(_) =>
  }

  lemma {:induction false} RunKeepsNonNegative(s: Machine, acts: seq<Action>)
    requires ValidActions(s, acts) && NonNegative(s) && NonNegativeRequests(acts)
    ensures NonNegative(Perform(s, acts))
    decreases |acts|
  {
    if |acts| != 0 {
      ActKeepsNonNegative(s, acts[0]);
      RunKeepsNonNegative(Act(s, acts[0]), acts[1..]);
    }
  }

  lemma BoundsFromConservation(s: Machine)
    requires Conserved(s) && NonNegative(s)
    ensures NOTHING.AtMost(s.free) && s.free.AtMost(s.total)
  {
    SumNonNegative(s.kernel.table, RamOf);
    SumNonNegative(s.kernel.table, HddOf);
    forall i | 0 <= i < |s.tasks|
      ensures RamInFlight(s.tasks[i]) >= 0 && HddInFlight(s.tasks[i]) >= 0
    {
      assert NonNegativeTask(s.tasks[i]);
    }
    SumNonNegative(s.tasks, RamInFlight);
    SumNonNegative(s.tasks, HddInFlight);
  }

  /** In every interleaving of requests for non-negative amounts, what is free lies between nothing
      and the total. */
  lemma FreeStaysWithinTotal(capacity: nat, total: Amount, cores: int, acts: seq<Action>)
    requires NOTHING.AtMost(total)
    requires ValidActions(Start(capacity, total, cores), acts) && NonNegativeRequests(acts)
    ensures var s := Perform(Start(capacity, total, cores), acts);
            Conserved(s) && NOTHING.AtMost(s.free) && s.free.AtMost(total)
  {
    RunConserves(Start(capacity, total, cores), acts);
    RunKeepsNonNegative(Start(capacity, total, cores), acts);
    BoundsFromConservation(Perform(Start(capacity, total, cores), acts));
  }

  // ---------- the log replayed ----------

  /** What the resource dashboard has counted after reading some lines. */
  datatype View = View(total: Amount, free: Amount, active: int)

  function ReadEvent(v: View, e: Event): View {
    match e
    case Booted(total, _) => v.(total := total, free := total)
    case Allocated(a) => v.(free := v.free.Minus(a))
    case Reclaimed(a) => v.(free := v.free.Plus(a))
    case Created(_, _) => v.(active := v.active + 1)
    case Terminated(_) => v.(active := v.active - 1)
    case _ => v
  }

  /** The dashboard's figures before the first line. */
  const INITIAL_VIEW := View(Amount(1024, 1024), Amount(1024, 1024), 0)

  function Replay(log: seq<Event>): View {
    if |log| == 0 then INITIAL_VIEW else ReadEvent(Replay(log[..|log| - 1]), log[|log| - 1])
  }

  /** Free RAM in the log above the real figure, thread by thread: granted but not yet written, less
      reclaimed but not yet written. */
  function RamLag(t: Task): int {
    match t case Granted(_, _, need) => need.ram case Returned(_, held) => -held.ram case _ => 0
  }

  function HddLag(t: Task): int {
    match t case Granted(_, _, need) => need.hdd case Returned(_, held) => -held.hdd case _ => 0
  }

  /** Processes in the log above the real figure: removed but not yet written, less stored but not
      yet written. */
  function CountLag(t: Task): int {
    match t
    case Stored(_, _) => -1
    case Taken(_, _) => 1
    case Returned(_, _) => 1
    case Reported(_) => 1
    case _ => 0
  }

  predicate ReplayLaw(s: Machine) {
    var v := Replay(s.log);
    && v.total == s.total
    && v.free.ram == s.free.ram + Sum(s.tasks, RamLag)
    && v.free.hdd == s.free.hdd + Sum(s.tasks, HddLag)
    && v.active == |s.kernel.table| + s.dropped + Sum(s.tasks, CountLag)
  }

  lemma LagUpdate(ts: seq<Task>, i: nat, t: Task)
    requires i < |ts|
    ensures Sum(ts[i := t], RamLag) == Sum(ts, RamLag) - RamLag(ts[i]) + RamLag(t)
    ensures Sum(ts[i := t], HddLag) == Sum(ts, HddLag) - HddLag(ts[i]) + HddLag(t)
    ensures Sum(ts[i := t], CountLag) == Sum(ts, CountLag) - CountLag(ts[i]) + CountLag(t)
  {
    SumUpdate(ts, i, t, RamLag);
    SumUpdate(ts, i, t, HddLag);
    SumUpdate(ts, i, t, CountLag);
  }

  lemma LagAppend(ts: seq<Task>, t: Task)
    ensures Sum(ts + [t], RamLag) == Sum(ts, RamLag) + RamLag(t)
    ensures Sum(ts + [t], HddLag) == Sum(ts, HddLag) + HddLag(t)
    ensures Sum(ts + [t], CountLag) == Sum(ts, CountLag) + CountLag(t)
  {
    SumAppend(ts, t, RamLag);
    SumAppend(ts, t, HddLag);
    SumAppend(ts, t, CountLag);
  }

  lemma ReplayAppend(log: seq<Event>, e: Event)
    ensures Replay(log + [e]) == ReadEvent(Replay(log), e)
  {
    assert (log + [e])[..|log|] == log;
  }

  /** A thread that writes a line moves the view by as much as its own lag. */
  lemma WriteKeepsReplayLaw(s: Machine, i: nat, t: Task, e: Event)
    requires i < |s.tasks| && ReplayLaw(s)
    requires var v, v' := Replay(s.log), ReadEvent(Replay(s.log), e);
             && v'.total == v.total
             && v'.free.ram - v.free.ram == RamLag(t) - RamLag(s.tasks[i])
             && v'.free.hdd - v.free.hdd == HddLag(t) - HddLag(s.tasks[i])
             && v'.active - v.active == CountLag(t) - CountLag(s.tasks[i])
    ensures ReplayLaw(Logged(s, i, t, e))
  {
    LagUpdate(s.tasks, i, t);
    ReplayAppend(s.log, e);
  }

  lemma StoreKeepsReplayLaw(s: Machine, i: nat, now: int)
    requires i < |s.tasks| && s.tasks[i].Announced? && ReplayLaw(s)
    ensures ReplayLaw(StoreAction(s, i, now))
  {
    LagUpdate(s.tasks, i, StoreAction(s, i, now).tasks[i]);
  }

  lemma ReclaimKeepsReplayLaw(s: Machine, i: nat, now: int)
    requires i < |s.tasks| && s.tasks[i].Taken? && ReplayLaw(s)
    ensures ReplayLaw(AdvanceAction(s, i, now))
  {
    LagUpdate(s.tasks, i, AdvanceAction(s, i, now).tasks[i]);
  }

  lemma AdvanceKeepsReplayLaw(s: Machine, i: nat, now: int)
    requires i < |s.tasks| && ReplayLaw(s)
    ensures ReplayLaw(AdvanceAction(s, i, now))
  {
    match s.tasks[i]
    case Granted(pid, name, need) => WriteKeepsReplayLaw(s, i, Announced(pid, name, need), Allocated(need));
    case Announced(_, _, _) => StoreKeepsReplayLaw(s, i, now);
    case Stored(pid, name) => WriteKeepsReplayLaw(s, i, Finished, Created(pid, name));
    case Taken(_, _) => ReclaimKeepsReplayLaw(s, i, now);
    case Returned(pid, held) => WriteKeepsReplayLaw(s, i, Reported(pid), Reclaimed(held));
    case Reported(pid) => WriteKeepsReplayLaw(s, i, Finished, Terminated(pid));
    case Finished =>
  }

  lemma TerminateKeepsReplayLaw(s: Machine, pid: int)
    requires ReplayLaw(s)
    ensures ReplayLaw(TerminateAction(s, pid))
  {
    var i := FindPid(s.kernel.table, pid);
    if i < |s.kernel.table| {
      LagAppend(s.tasks, Taken(pid, Amount(s.kernel.table[i].ram, s.kernel.table[i].hdd)));
    }
  }

  /** The dashboard ignores what kernel steps write. */
  lemma StepLogIgnored(log: seq<Event>, k: KernelState, step: Step)
    ensures Replay(log + StepLog(k, step)) == Replay(log)
  {
    var l := StepLog(k, step);
    if l == [] {
      assert log + l == log;
    } else {
      assert l == [l[0]];
      ReplayAppend(log, l[0]);
    }
  }

  lemma InternalKeepsReplayLaw(s: Machine, step: Step)
    requires ReplayLaw(s) && !step.Create? && !step.Remove?
    ensures ReplayLaw(Act(s, Internal(step)))
  {
    assert |Next(s.kernel, step).table| == |s.kernel.table| by {
      InternalKeepsHoldings(s.kernel, step);
    }
    StepLogIgnored(s.log, s.kernel, step);
  }

  lemma ActKeepsReplayLaw(s: Machine, a: Action)
    requires ActEnabled(s, a) && ReplayLaw(s)
    ensures ReplayLaw(Act(s, a))
  {
    match a
    case Request(pid, name, need) => LagAppend(s.tasks, Granted(pid, name, need));
    case Advance(i, now) => AdvanceKeepsReplayLaw(s, i, now);
    case Terminate(pid) => TerminateKeepsReplayLaw(s, pid);
    case Internal(step) => InternalKeepsReplayLaw(s, step);
    case ChildExit(pid) => ReplayAppend(s.log, ChildExited(pid));
  }

  lemma {:induction false} RunKeepsReplayLaw(s: Machine, acts: seq<Action>)
    requires ValidActions(s, acts) && ReplayLaw(s)
    ensures ReplayLaw(Perform(s, acts))
    decreases |acts|
  {
    if |acts| != 0 {
      ActKeepsReplayLaw(s, acts[0]);
      RunKeepsReplayLaw(Act(s, acts[0]), acts[1..]);
    }
  }

  lemma ReachableReplayLaw(capacity: nat, total: Amount, cores: int, acts: seq<Action>)
    requires ValidActions(Start(capacity, total, cores), acts)
    ensures ReplayLaw(Perform(Start(capacity, total, cores), acts))
  {
    var s := Start(capacity, total, cores);
    ReplayAppend([], Booted(total, cores));
    assert [] + s.log == s.log;
    RunKeepsReplayLaw(s, acts);
  }

  predicate Quiescent(s: Machine) {
    forall i :: 0 <= i < |s.tasks| ==> s.tasks[i].Finished?
  }

  lemma {:induction false} QuiescentLags(ts: seq<Task>)
    requires forall i :: 0 <= i < |ts| ==> ts[i].Finished?
    ensures Sum(ts, RamLag) == Sum(ts, HddLag) == Sum(ts, CountLag) == 0
    ensures Sum(ts, RamInFlight) == Sum(ts, HddInFlight) == 0
  {
    if |ts| != 0 {
      QuiescentLags(ts[..|ts| - 1]);
    }
  }

  /** The final clamps of the dashboard. */
  function Clamped(v: View): View {
    v.(free := Amount(if v.free.ram < 0 then 0 else v.free.ram, if v.free.hdd < 0 then 0 else v.free.hdd),
       active := if v.active < 0 then 0 else v.active)
  }

  /** When every thread has written its lines, the dashboard shows the kernel's own figures, in
      whatever order the lines of different threads were written; its process count is the table's
      plus the creations a full table dropped, and no clamp changes anything. */
  lemma DashboardAgreesAtQuiescence(capacity: nat, total: Amount, cores: int, acts: seq<Action>)
    requires NOTHING.AtMost(total)
    requires ValidActions(Start(capacity, total, cores), acts) && NonNegativeRequests(acts)
    requires Quiescent(Perform(Start(capacity, total, cores), acts))
    ensures var s := Perform(Start(capacity, total, cores), acts);
            Replay(s.log) == View(total, s.free, |s.kernel.table| + s.dropped)
            && Clamped(Replay(s.log)) == Replay(s.log)
  {
    var s := Perform(Start(capacity, total, cores), acts);
    ReachableReplayLaw(capacity, total, cores, acts);
    RunConserves(Start(capacity, total, cores), acts);
    FreeStaysWithinTotal(capacity, total, cores, acts);
    QuiescentLags(s.tasks);
  }

  // ---------- everything is given back ----------

  lemma {:induction false} NoDropNoLeak(s: Machine, acts: seq<Action>)
    requires ValidActions(s, acts) && (s.dropped == 0 ==> s.leaked == NOTHING)
    ensures Perform(s, acts).dropped == 0 ==> Perform(s, acts).leaked == NOTHING
    decreases |acts|
  {
    if |acts| != 0 {
      NoDropNoLeak(Act(s, acts[0]), acts[1..]);
    }
  }

  /** Once all threads are done and the table is empty, everything is free again, short of exactly
      what was granted to requests that found the table full. */
  lemma AllReturned(capacity: nat, total: Amount, cores: int, acts: seq<Action>)
    requires ValidActions(Start(capacity, total, cores), acts)
    requires Quiescent(Perform(Start(capacity, total, cores), acts))
    requires Perform(Start(capacity, total, cores), acts).kernel.table == []
    ensures var s := Perform(Start(capacity, total, cores), acts);
            s.free == total.Minus(s.leaked) && (s.dropped == 0 ==> s.free == total)
  {
    RunConserves(Start(capacity, total, cores), acts);
    NoDropNoLeak(Start(capacity, total, cores), acts);
    QuiescentLags(Perform(Start(capacity, total, cores), acts).tasks);
  }

  // ---------- the counters in memory ----------

  class MemoryManager {
    var totalRam: int
    var freeRam: int
    var totalHdd: int
    var freeHdd: int

    function Free(): Amount
      reads this
    {
      Amount(freeRam, freeHdd)
    }

    constructor (ram: int, hdd: int)
      ensures Free() == Amount(ram, hdd) && totalRam == ram && totalHdd == hdd
    {
      totalRam, freeRam := ram, ram;
      totalHdd, freeHdd := hdd, hdd;
    }

    /** All or nothing: either both amounts are taken or neither is. */
    method AllocateResources(ram: int, hdd: int) returns (success: bool)
      modifies this`freeRam, this`freeHdd
      ensures success <==> Amount(ram, hdd).AtMost(old(Free()))
      ensures Free() == if success then old(Free()).Minus(Amount(ram, hdd)) else old(Free())
    {
      success := false;
      if freeRam >= ram && freeHdd >= hdd {
        freeRam := freeRam - ram;
        freeHdd := freeHdd - hdd;
        success := true;
      }
    }

    method ReclaimResources(ram: int, hdd: int)
      modifies this`freeRam, this`freeHdd
      ensures Free() == old(Free()).Plus(Amount(ram, hdd))
    {
      freeRam := freeRam + ram;
      freeHdd := freeHdd + hdd;
    }
  }
}
