/** What each step does, field by field and queue by queue, said without the functions that define
    the steps. */
module Effects {
  import opened KernelTypes
  import opened KernelSpec
  import opened Agreement
  import opened Scheduling
  import opened Lifecycle

  // ---------- creation ----------

  /** A creation adds exactly one PCB, behind the others and with the fields it was asked for, and one
      entry behind the queue of its level; on a full table it does nothing. */
  lemma CreateEffect(k: KernelState, s: Step)
    requires s.Create?
    ensures |k.table| >= k.capacity ==> Next(k, s) == k
    ensures |k.table| < k.capacity ==>
              var k', n := Next(k, s), |k.table|;
              && |k'.table| == n + 1 && k'.table[..n] == k.table
              && k'.table[n] == Process(s.pid, s.name, Ready, s.priority, s.level, s.ram, s.hdd, s.now, 0, 0, -1)
              && (forall l: Level :: k'.Queue(l) == if l == s.level then k.Queue(l) + [n] else k.Queue(l))
              && k'.capacity == k.capacity && k'.totalCores == k.totalCores && k'.freeCores == k.freeCores
  {
  }

  // ---------- from a task's name to its queue ----------

  /** A new PCB, its fields written out but for level and priority. */
  predicate IsNewPcb(p: Process, pid: int, name: string, ram: int, hdd: int, now: int) {
    && p.pid == pid && p.name == name && p.state == Ready && p.ram == ram && p.hdd == hdd
    && p.arriveTime == now && p.waitTime == 0 && p.turnaround == 0 && p.core == -1
  }

  /** The level a task's name stands for. */
  predicate LevelIs(l: Level, name: string) {
    && (l == System <==> IsSystemTask(name))
    && (l == Interactive <==> IsInteractiveTask(name))
    && (l == Background <==> !IsSystemTask(name) && !IsInteractiveTask(name))
  }

  /** One new PCB stands behind the others, with the priority of the level its name stands for and in the
      queue of that level only. */
  predicate PlacedByName(k: KernelState, k': KernelState, pid: int, name: string, ram: int, hdd: int, now: int) {
    && |k'.table| == |k.table| + 1 && k'.table[..|k.table|] == k.table
    && var n, p := |k.table|, k'.table[|k.table|];
       && IsNewPcb(p, pid, name, ram, hdd, now) && LevelIs(p.level, name)
       && p.priority == (if p.level == System then 0 else if p.level == Interactive then 3 else 6)
       && k'.q0 == (if p.level == System then k.q0 + [n] else k.q0)
       && k'.q1 == (if p.level == Interactive then k.q1 + [n] else k.q1)
       && k'.q2 == (if p.level == Background then k.q2 + [n] else k.q2)
  }

  lemma CreatedByName(k: KernelState, pid: int, name: string, ram: int, hdd: int, now: int)
    requires |k.table| < k.capacity
    ensures var l := QueueLevel(name);
            PlacedByName(k, CreateStep(k, pid, name, l.DefaultPriority(), l, ram, hdd, now), pid, name, ram, hdd, now)
  {
    var l := QueueLevel(name);
    TaskLevels(name);
    var s := Create(pid, name, l.DefaultPriority(), l, ram, hdd, now);
    CreateEffect(k, s);
    var k' := Next(k, s);
    assert k'.q0 == k'.Queue(System) && k'.q1 == k'.Queue(Interactive) && k'.q2 == k'.Queue(Background);
  }

  // ---------- removal and aging ----------

  /** Removing a PID that no PCB has changes nothing, not even the order of Q1. */
  lemma RemoveNobody(k: KernelState, pid: int)
    requires forall i :: 0 <= i < |k.table| ==> k.table[i].pid != pid
    ensures RemoveStep(k, pid) == k
  {
  }

  /** Removing the first PCB of a PID deletes that slot and refills the queues by level, in table order. */
  lemma RemoveEffect(k: KernelState, pid: int, i: nat)
    requires i < |k.table| && k.table[i].pid == pid
    requires forall j :: 0 <= j < i ==> k.table[j].pid != pid
    ensures var k' := RemoveStep(k, pid);
            && k'.table == k.table[..i] + k.table[i + 1..]
            && (forall l: Level :: k'.Queue(l) == SlotsAt(k'.table, l))
            && k'.capacity == k.capacity && k'.totalCores == k.totalCores && k'.freeCores == k.freeCores
  {
    var f := FindPid(k.table, pid);
    assert f <= i;
    assert f == i;
  }

  /** Aging leaves the queues as they are, rotated or not, exactly as long as no PCB changes level;
      otherwise each becomes the slots of its level in table order. */
  lemma AgingEffect(k: KernelState)
    ensures var k' := AgingStep(k);
            && |k'.table| == |k.table|
            && ((forall i :: 0 <= i < |k.table| ==> k'.table[i].level == k.table[i].level) ==>
                  k'.q0 == k.q0 && k'.q1 == k.q1 && k'.q2 == k.q2)
            && ((exists i :: 0 <= i < |k.table| && k'.table[i].level != k.table[i].level) ==>
                  forall l: Level :: k'.Queue(l) == SlotsAt(k'.table, l))
            && k'.capacity == k.capacity && k'.totalCores == k.totalCores && k'.freeCores == k.freeCores
  {
    var k' := AgingStep(k);
    assert k'.table == AgeTable(k.table);
    if Promotes(k.table) {
      var i :| 0 <= i < |k.table| && Age(k.table[i]).level != k.table[i].level;
      assert k'.table[i].level != k.table[i].level;
    } else {
      assert forall i :: 0 <= i < |k.table| ==> k'.table[i].level == k.table[i].level;
    }
  }

  const QUIET_RUN: seq<Step> := LOSING_RUN[..4] + [AgingTick]

  lemma TwoInteractive(t: seq<Process>)
    requires |t| == 2 && t[0].level.Interactive? && t[1].level.Interactive?
    ensures SlotsAt(t, Interactive) == [0, 1]
  {
    var t1 := t[..1];
    assert t1[..0] == [];
    assert SlotsAt(t1[..0], Interactive) == [];
    assert SlotsAt(t1, Interactive) == [0];
  }

  lemma QuietTick(capacity: nat)
    ensures var k := AgingStep(LosingState(capacity, 4));
            k.q1 == [1, 1] && SlotsAt(k.table, Interactive) == [0, 1]
  {
    var k := LosingState(capacity, 4);
    AgingEffect(k);
    var t := AgingStep(k).table;
    assert t == AgeTable(k.table);
    assert |t| == 2 && t[0].level == Interactive && t[1].level == Interactive;
    TwoInteractive(t);
  }

  /** A run whose last tick promotes nobody: the doubled entry that the rotation left in Q1 stays, where
      a refill would have made it [0, 1]. */
  lemma QuietAgingKeepsRotation(capacity: nat)
    requires 2 <= capacity
    ensures ValidRun(Boot(capacity, 1), QUIET_RUN)
    ensures var k := Run(Boot(capacity, 1), QUIET_RUN);
            k.q1 == [1, 1] && SlotsAt(k.table, Interactive) == [0, 1]
  {
    var states := LosingStates(capacity)[..5];
    LosingTrace(capacity);
    assert IsTrace(states, LOSING_RUN[..4]) by {
      forall i | 0 <= i < 4
        ensures Enabled(states[i], LOSING_RUN[..4][i]) && Next(states[i], LOSING_RUN[..4][i]) == states[i + 1]
      {
        assert states[i] == LosingStates(capacity)[i] && states[i + 1] == LosingStates(capacity)[i + 1];
        assert LOSING_RUN[..4][i] == LOSING_RUN[i];
      }
    }
    TraceIsRun(states, LOSING_RUN[..4]);
    RunConcat(Boot(capacity, 1), LOSING_RUN[..4], [AgingTick]);
    ValidRunConcat(Boot(capacity, 1), LOSING_RUN[..4], [AgingTick]);
    OneStep(LosingState(capacity, 4), AgingTick);
    QuietTick(capacity);
  }

  // ---------- ticks and the steps that rewrite a PCB ----------

  /** A tick leaves Q0 and Q2 alone, and Q1 too unless it dispatches from it: then every other entry
      moves one place to the front and the dispatched one goes to the end. */
  lemma TickQueues(k: KernelState)
    requires Agree(k)
    ensures var k' := SchedulerStep(k);
            && k'.q0 == k.q0 && k'.q2 == k.q2
            && (Picked(k).Some? ==> Picked(k).value < |k.table|)
            && (if Picked(k).Some? && k.table[Picked(k).value].level.Interactive?
                then |k'.q1| == |k.q1| > 0 && k'.q1[|k.q1| - 1] == Picked(k).value
                     && forall j :: 0 <= j < |k.q1| - 1 ==> k'.q1[j] == k.q1[j + 1]
                else k'.q1 == k.q1)
  {
    var i0 := FirstReady(k.table, k.q0);
    var i1 := FirstReady(k.table, k.q1);
    var i2 := FirstReady(k.table, k.q2);
    if i0 < |k.q0| {
      QueueInTable(k, System, i0);
    } else if i1 < |k.q1| {
      QueueInTable(k, Interactive, i1);
    } else if i2 < |k.q2| {
      QueueInTable(k, Background, i2);
    }
  }

  function Distance(a: int, b: int): int {
    if a < b then b - a else a - b
  }

  /** The core a dispatch writes down is the number of cores in use, or the nearest there is. */
  lemma AssignedCoreIsNearest(k: KernelState)
    requires 1 <= k.totalCores
    ensures 0 <= AssignedCore(k) < k.totalCores
    ensures var used := k.totalCores - k.freeCores;
            forall c :: 0 <= c < k.totalCores ==> Distance(AssignedCore(k), used) <= Distance(c, used)
  {
  }

  /** What a process is for life. */
  predicate SameIdentity(p: Process, q: Process) {
    && q.pid == p.pid && q.name == p.name && q.ram == p.ram && q.hdd == p.hdd
    && q.arriveTime == p.arriveTime && q.turnaround == p.turnaround
  }

  /** The states a step leads to. */
  predicate StateArrow(k: KernelState, s: Step, pid: int, before: RunState, after: RunState)
    requires Has(k, pid)
  {
    match s
    case SchedulerTick => after == if Picked(k) == Some(Slot(k, pid)) then Running else before
    case Minimize(q) => after == if q == pid then Minimized else before
    case Resume(q) => after == if q == pid then Running else before
    case Interrupt(q) => after == if q == pid && before.Running? then Blocked else before
    case Unblock(q) => after == if q == pid && before.Blocked? then Ready else before
    case _ => after == before
  }

  /** A core number is written by a dispatch and given up, as -1, by the step that minimizes or blocks. */
  predicate CoreArrow(k: KernelState, s: Step, p: Process, q: Process) {
    if p.state.Ready? && q.state.Running? && s.SchedulerTick? then q.core == AssignedCore(k)
    else if p.core >= 0 && (s == Minimize(p.pid) || (s == Interrupt(p.pid) && p.state.Running?)) then q.core == -1
    else q.core == p.core
  }

  /** Every fifth second waited takes one off the priority number, and from 1 and 0 on the level too. */
  predicate AgingArrow(p: Process, q: Process) {
    if p.level.System? || !(p.state.Ready? || p.state.Running?)
    then q.waitTime == p.waitTime && q.priority == p.priority && q.level == p.level
    else
      && q.waitTime == p.waitTime + 1
      && q.priority == (if (p.waitTime + 1) % 5 == 0 && p.priority >= 1 then p.priority - 1 else p.priority)
      && q.level == (if (p.waitTime + 1) % 5 != 0 then p.level
                     else if p.level.Background? then (if q.priority <= 1 then Interactive else Background)
                     else if q.priority == 0 then System else Interactive)
  }

  predicate PriorityArrow(s: Step, p: Process, q: Process) {
    && (s.AgingTick? ==> AgingArrow(p, q))
    && (!s.AgingTick? ==> q.waitTime == p.waitTime && q.level == p.level)
    && (s.SetPriority? && s.pid == p.pid ==>
          && 0 <= q.priority <= 10
          && forall c :: 0 <= c <= 10 ==> Distance(q.priority, s.priority) <= Distance(c, s.priority))
    && (!s.AgingTick? && !(s.SetPriority? && s.pid == p.pid) ==> q.priority == p.priority)
  }

  lemma ProcAfterArrows(k: KernelState, s: Step, pid: int)
    requires Has(k, pid) && (Picked(k) == Some(Slot(k, pid)) ==> Proc(k, pid).state.Ready?)
    ensures var p, q := Proc(k, pid), ProcAfter(k, s, pid);
            && SameIdentity(p, q) && StateArrow(k, s, pid, p.state, q.state)
            && CoreArrow(k, s, p, q) && PriorityArrow(s, p, q)
  {
  }

  /** Whatever the step, whatever slot the process is shifted to: identity, state, core, priority, level
      and waiting time after it. */
  lemma StepArrows(k: KernelState, s: Step, pid: int)
    requires Inv(k) && Enabled(k, s) && Has(k, pid) && s != Remove(pid)
    ensures Inv(Next(k, s)) && Has(Next(k, s), pid)
    ensures var p, q := Proc(k, pid), Proc(Next(k, s), pid);
            && SameIdentity(p, q) && StateArrow(k, s, pid, p.state, q.state)
            && CoreArrow(k, s, p, q) && PriorityArrow(s, p, q)
  {
    StepTracks(k, s, pid);
    TickPicksLeast(k);
    ProcAfterArrows(k, s, pid);
  }
}
