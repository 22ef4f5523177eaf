/** Interleaved threads drive the kernel through runs of its own steps, so what holds of those runs holds
    under any interleaving. */
module ThreadRuns {
  import opened KernelTypes
  import opened KernelSpec
  import opened Agreement
  import opened Scheduling
  import opened Bookkeeping
  import opened Accounting
  import opened PidLaws
  import S = Starvation
  import L = Lifecycle
  import A = Aging
  import E = Effects

  /** The kernel steps an action performs: none or one. */
  function StepsOf(s: Machine, a: Action): seq<Step>
    requires ActEnabled(s, a)
  {
    match a
    case Advance(i, now) => if s.tasks[i].Announced? then [CreationOf(s.tasks[i], now)] else []
    case Terminate(pid) => [Remove(pid)]
    case Internal(step) => [step]
    case _ => []
  }

  function KernelRun(s: Machine, acts: seq<Action>): seq<Step>
    requires ValidActions(s, acts)
    decreases |acts|
  {
    if |acts| == 0 then [] else StepsOf(s, acts[0]) + KernelRun(Act(s, acts[0]), acts[1..])
  }

  lemma ActIsRun(s: Machine, a: Action)
    requires PidLaw(s) && ActEnabled(s, a)
    ensures ValidRun(s.kernel, StepsOf(s, a))
    ensures Run(s.kernel, StepsOf(s, a)) == Act(s, a).kernel
  {
    match a
    case Advance(i, now) =>
      if s.tasks[i].Announced? {
        StoreKeepsPidLaw(s, i, now);
        OneStep(s.kernel, CreationOf(s.tasks[i], now));
      }
    case Terminate(pid) => OneStep(s.kernel, Remove(pid));
    case Internal(step) => OneStep(s.kernel, step);
    case Request(_, _, _) =>
    case ChildExit(_) =>
  }

  /** Every interleaving is a valid run of kernel steps, and ends in the same table and queues. */
  lemma {:induction false} ThreadsAreRuns(s: Machine, acts: seq<Action>)
    requires PidLaw(s) && ValidActions(s, acts) && FreshActions(s, acts)
    ensures ValidRun(s.kernel, KernelRun(s, acts))
    ensures Run(s.kernel, KernelRun(s, acts)) == Perform(s, acts).kernel
    decreases |acts|
  {
    if |acts| != 0 {
      var s', rest := Act(s, acts[0]), acts[1..];
      ActIsRun(s, acts[0]);
      ActKeepsPidLaw(s, acts[0]);
      ThreadsAreRuns(s', rest);
      RunConcat(s.kernel, StepsOf(s, acts[0]), KernelRun(s', rest));
      ValidRunConcat(s.kernel, StepsOf(s, acts[0]), KernelRun(s', rest));
    }
  }

  /** A waiting grant that finds room is stored as its task's name says. */
  lemma StoredByName(s: Machine, i: nat, now: int)
    requires i < |s.tasks| && s.tasks[i].Announced? && |s.kernel.table| < s.kernel.capacity
    ensures var t := s.tasks[i];
            E.PlacedByName(s.kernel, Act(s, Advance(i, now)).kernel, t.pid, t.name, t.need.ram, t.need.hdd, now)
    requires ActEnabled(s, Advance(i, now))
  {
    var t := s.tasks[i];
    E.CreatedByName(s.kernel, t.pid, t.name, t.need.ram, t.need.hdd, now);
  }

  /** A context switch logged for a process: it was READY, and now it is RUNNING on the core named. */
  predicate SwitchHappened(k: KernelState, k': KernelState, pid: int, name: string, core: int) {
    && L.Has(k, pid) && L.Proc(k, pid).state == Ready && L.Proc(k, pid).name == name
    && L.Has(k', pid) && L.Proc(k', pid).state == Running && L.Proc(k', pid).core == core
  }

  /** A resolved interrupt logged for a process: it was BLOCKED, and now it is READY. */
  predicate UnblockHappened(k: KernelState, k': KernelState, pid: int) {
    && L.Has(k, pid) && L.Proc(k, pid).state == Blocked
    && L.Has(k', pid) && L.Proc(k', pid).state == Ready
  }

  /** What a kernel step writes is true, and it writes whenever it dispatches or unblocks. */
  lemma KernelLinesAreTrue(s: Machine, step: Step)
    requires Inv(s.kernel) && !step.Create? && !step.Remove?
    ensures var k, s' := s.kernel, Act(s, Internal(step));
            && s.log <= s'.log && |s'.log| <= |s.log| + 1
            && (|s'.log| == |s.log| <==> !(step.SchedulerTick? || step.Unblock?) || s'.kernel == k)
            && (|s'.log| > |s.log| ==>
                  match s'.log[|s.log|]
                  case Switched(pid, name, core) => SwitchHappened(k, s'.kernel, pid, name, core)
                  case Unblocked(pid) => UnblockHappened(k, s'.kernel, pid)
                  case _ => false)
  {
    var k := s.kernel;
    if step.SchedulerTick? {
      SwitchLineIsTrue(k);
    } else if step.Unblock? {
      UnblockLineIsTrue(k, step.pid);
    }
  }

  lemma SwitchLineIsTrue(k: KernelState)
    requires Inv(k)
    ensures (Picked(k).Some? && Picked(k).value < |k.table|) <==> SchedulerStep(k) != k
    ensures Picked(k).Some? && Picked(k).value < |k.table| ==>
              var p := k.table[Picked(k).value];
              SwitchHappened(k, SchedulerStep(k), p.pid, p.name, AssignedCore(k))
  {
    TickPicksLeast(k);
    E.TickQueues(k);
    if Picked(k).Some? {
      var i := Picked(k).value;
      L.SlotIs(k, k.table[i].pid, i);
      L.TickTracks(k, k.table[i].pid);
    }
  }

  lemma UnblockLineIsTrue(k: KernelState, pid: int)
    requires Inv(k)
    ensures FindBlocked(k.table, pid) < |k.table| <==> UnblockStep(k, pid) != k
    ensures FindBlocked(k.table, pid) < |k.table| ==> UnblockHappened(k, UnblockStep(k, pid), pid)
  {
    var i := FindBlocked(k.table, pid);
    if i < |k.table| {
      L.SlotIs(k, pid, i);
      L.EditStepTracks(k, Unblock(pid), pid);
      assert UnblockStep(k, pid).table[i] != k.table[i];
    }
  }

  /** No action is an unblock. */
  predicate NoUnblockAction(acts: seq<Action>) {
    forall i :: 0 <= i < |acts| ==> acts[i].Internal? ==> !acts[i].step.Unblock?
  }

  lemma {:induction false} NoUnblockRun(s: Machine, acts: seq<Action>)
    requires ValidActions(s, acts) && NoUnblockAction(acts)
    ensures NoUnblock(KernelRun(s, acts))
    decreases |acts|
  {
    if |acts| != 0 {
      NoUnblockRun(Act(s, acts[0]), acts[1..]);
    }
  }

  /** Under any interleaving from boot: table and queues agree, table order is arrival order, the
      free-core counter has not fallen below the cores, and without unblocking every READY slot stands
      exactly once in its queue. */
  lemma ThreadsKeepKernelLaws(capacity: nat, total: Amount, cores: int, acts: seq<Action>)
    requires 1 <= cores
    requires ValidActions(Start(capacity, total, cores), acts) && FreshActions(Start(capacity, total, cores), acts)
    ensures var k := Perform(Start(capacity, total, cores), acts).kernel;
            Inv(k) && ArrivalSorted(k.table) && CoreInv(k) && (NoUnblockAction(acts) ==> ReadyOnce(k))
  {
    var s := Start(capacity, total, cores);
    var steps := KernelRun(s, acts);
    ThreadsAreRuns(s, acts);
    RunKeepsInv(s.kernel, steps);
    RunKeepsArrivalSorted(s.kernel, steps);
    RunCores(s.kernel, steps);
    if NoUnblockAction(acts) {
      NoUnblockRun(s, acts);
      ReachableReadyOnce(capacity, cores, steps);
    }
  }

  /** No starvation among threads: the bound of NoStarvation, on the kernel steps the threads perform. */
  lemma ThreadsDoNotStarve(s: Machine, pre: seq<Action>, s': Machine, post: seq<Action>, pid: int)
    requires PidLaw(s) && ValidActions(s, pre) && FreshActions(s, pre) && s' == Perform(s, pre)
    requires ValidActions(s', post) && FreshActions(s', post)
    requires S.Waiting(s.kernel, pid) && S.NoRaise(s.kernel, KernelRun(s, pre), pid)
    requires S.Count(KernelRun(s, pre), S.IsAgingTick) >= A.TicksToSystem(L.Proc(s.kernel, pid))
    requires S.Count(KernelRun(s', post), S.IsSchedulerTick) >=
             L.Slot(s.kernel, pid) + 1 + S.EarlierUnblocks(s'.kernel, KernelRun(s', post), pid)
    ensures var steps := KernelRun(s, pre) + KernelRun(s', post);
            && !S.StaysReady(s.kernel, steps, pid)
            && ((forall i :: 0 <= i < |steps| ==> !S.Touches(steps[i], pid)) ==>
                  S.DispatchedIn(s.kernel, steps, pid))
  {
    ThreadsAreRuns(s, pre);
    RunKeepsPidLaw(s, pre);
    ThreadsAreRuns(s', post);
    ValidRunConcat(s.kernel, KernelRun(s, pre), KernelRun(s', post));
    S.NoStarvation(s.kernel, KernelRun(s, pre), KernelRun(s', post), pid);
  }
}
