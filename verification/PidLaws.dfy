/** What happens to PIDs when threads interleave: how often a PCB of one can be taken, and what keeps
    the PIDs of a table apart. */
module PidLaws {
  import opened KernelTypes
  import opened KernelSpec
  import opened Agreement
  import opened Accounting
  import opened Sums

  predicate Pending(t: Task) {
    t.Granted? || t.Announced?
  }

  function HasPid(pid: int): Process -> int {
    (p: Process) => if p.pid == pid then 1 else 0
  }

  function PendingPid(pid: int): Task -> int {
    (t: Task) => if Pending(t) && t.pid == pid then 1 else 0
  }

  function RequestPid(pid: int): Action -> int {
    (a: Action) => if a.Request? && a.pid == pid then 1 else 0
  }

  // ---------- each PCB is taken at most once ----------

  /** PCBs of the PID stored so far are the ones taken and the ones in the table. */
  ghost predicate TokenLaw(s: Machine, pid: int) {
    s.taken[pid] + Sum(s.kernel.table, HasPid(pid)) == s.stored[pid]
  }

  lemma StoreKeepsTokens(s: Machine, i: nat, now: int, pid: int)
    requires TokenLaw(s, pid) && i < |s.tasks| && s.tasks[i].Announced?
    ensures TokenLaw(StoreAction(s, i, now), pid)
  {
    if |s.kernel.table| < s.kernel.capacity {
      SumAppend(s.kernel.table, StoreAction(s, i, now).kernel.table[|s.kernel.table|], HasPid(pid));
    }
  }

  lemma TerminateKeepsTokens(s: Machine, q: int, pid: int)
    requires TokenLaw(s, pid)
    ensures TokenLaw(TerminateAction(s, q), pid)
  {
    var i := FindPid(s.kernel.table, q);
    if i < |s.kernel.table| {
      SumRemove(s.kernel.table, i, HasPid(pid));
    }
  }

  lemma ActKeepsTokens(s: Machine, a: Action, pid: int)
    requires ActEnabled(s, a) && TokenLaw(s, pid)
    ensures TokenLaw(Act(s, a), pid)
  {
    match a
    case Request(_, _, _) =>
    case Advance(i, now) => if s.tasks[i].Announced? { StoreKeepsTokens(s, i, now, pid); }
    case Terminate(q) => TerminateKeepsTokens(s, q, pid);
    case Internal(step) =>
      InternalKeepsHoldings(s.kernel, step);
      SumSame(s.kernel.table, Next(s.kernel, step).table, HasPid(pid));
    case ChildExit(_) =>
  }

  /** PCBs of the PID stored so far and grants still on their way to the table. */
  function Admitted(s: Machine, pid: int): int {
    s.stored[pid] + Sum(s.tasks, PendingPid(pid))
  }

  /** Storing turns a pending grant into a PCB, or on a full table drops it. */
  lemma StoreAdmits(s: Machine, i: nat, now: int, pid: int)
    requires i < |s.tasks| && s.tasks[i].Announced?
    ensures Admitted(StoreAction(s, i, now), pid) <= Admitted(s, pid)
  {
    SumUpdate(s.tasks, i, StoreAction(s, i, now).tasks[i], PendingPid(pid));
  }

  lemma ProgressAdmits(s: Machine, i: nat, t: Task, free: Amount, log: seq<Event>, pid: int)
    requires i < |s.tasks|
    requires Pending(t) ==> Pending(s.tasks[i]) && t.pid == s.tasks[i].pid
    ensures Admitted(s.(tasks := s.tasks[i := t], free := free, log := log), pid) <= Admitted(s, pid)
  {
    SumUpdate(s.tasks, i, t, PendingPid(pid));
  }

  lemma AdvanceAdmits(s: Machine, i: nat, now: int, pid: int)
    requires i < |s.tasks|
    ensures Admitted(AdvanceAction(s, i, now), pid) <= Admitted(s, pid)
  {
    var s' := AdvanceAction(s, i, now);
    if s.tasks[i].Announced? {
      StoreAdmits(s, i, now, pid);
    } else if !s.tasks[i].Finished? {
      ProgressAdmits(s, i, s'.tasks[i], s'.free, s'.log, pid);
    }
  }

  lemma TerminateAdmits(s: Machine, q: int, pid: int)
    ensures Admitted(TerminateAction(s, q), pid) == Admitted(s, pid)
  {
    var t := s.kernel.table;
    var i := FindPid(t, q);
    if i < |t| {
      SumAppend(s.tasks, Taken(q, Amount(t[i].ram, t[i].hdd)), PendingPid(pid));
    }
  }

  /** Only a request of the PID admits it. */
  lemma ActAdmits(s: Machine, a: Action, pid: int)
    requires ActEnabled(s, a)
    ensures Admitted(Act(s, a), pid) <= Admitted(s, pid) + RequestPid(pid)(a)
  {
    match a
    case Request(q, name, need) => SumAppend(s.tasks, Granted(q, name, need), PendingPid(pid));
    case Advance(i, now) => AdvanceAdmits(s, i, now, pid);
    case Terminate(q) => TerminateAdmits(s, q, pid);
    case Internal(_) =>
    case ChildExit(_) =>
  }

  lemma {:induction false} RunTokens(s: Machine, acts: seq<Action>, pid: int)
    requires ValidActions(s, acts) && TokenLaw(s, pid)
    ensures TokenLaw(Perform(s, acts), pid)
    ensures Admitted(Perform(s, acts), pid) <= Admitted(s, pid) + Sum(acts, RequestPid(pid))
    decreases |acts|
  {
    if |acts| != 0 {
      ActKeepsTokens(s, acts[0], pid);
      ActAdmits(s, acts[0], pid);
      RunTokens(Act(s, acts[0]), acts[1..], pid);
      SumSplit(acts, 0, RequestPid(pid));
      assert acts[..0] == [];
    }
  }

  /** However many threads race to remove a PID, its PCBs are taken no more often than they were
      stored, and stored no more often than the PID made a request; as often as stored exactly when
      none is left in the table. So a PID that makes one request is reclaimed at most once. */
  lemma ReclaimedAtMostOnce(capacity: nat, total: Amount, cores: int, acts: seq<Action>, pid: int)
    requires ValidActions(Start(capacity, total, cores), acts)
    ensures var s := Perform(Start(capacity, total, cores), acts);
            && s.taken[pid] <= s.stored[pid] <= Sum(acts, RequestPid(pid))
            && (s.taken[pid] == s.stored[pid] <==> FindPid(s.kernel.table, pid) == |s.kernel.table|)
  {
    RunTokens(Start(capacity, total, cores), acts, pid);
    var s := Perform(Start(capacity, total, cores), acts);
    SumNonNegative(s.tasks, PendingPid(pid));
    var t := s.kernel.table;
    SumNonNegative(t, HasPid(pid));
    var i := FindPid(t, pid);
    if i < |t| {
      SumSplit(t, i, HasPid(pid));
      SumNonNegative(t[..i], HasPid(pid));
      SumNonNegative(t[i + 1..], HasPid(pid));
    } else {
      SumOfZeros(t, HasPid(pid));
    }
  }

  // ---------- live PIDs stay apart ----------

  /** Nobody alive has the PID: no PCB and no request on its way to one. */
  predicate PidFree(s: Machine, pid: int) {
    && (forall i :: 0 <= i < |s.kernel.table| ==> s.kernel.table[i].pid != pid)
    && (forall i :: 0 <= i < |s.tasks| && Pending(s.tasks[i]) ==> s.tasks[i].pid != pid)
  }

  predicate FreshAction(s: Machine, a: Action) {
    a.Request? ==> PidFree(s, a.pid)
  }

  /** Each request comes from a PID that nobody alive has; PIDs of processes gone may come again. */
  predicate FreshActions(s: Machine, acts: seq<Action>)
    requires ValidActions(s, acts)
    decreases |acts|
  {
    |acts| == 0 || (FreshAction(s, acts[0]) && FreshActions(Act(s, acts[0]), acts[1..]))
  }

  predicate PendingApart(s: Machine) {
    && (forall i, j :: 0 <= i < |s.tasks| && 0 <= j < |s.kernel.table| && Pending(s.tasks[i]) ==>
          s.kernel.table[j].pid != s.tasks[i].pid)
    && (forall i, j :: 0 <= i < j < |s.tasks| && Pending(s.tasks[i]) && Pending(s.tasks[j]) ==>
          s.tasks[i].pid != s.tasks[j].pid)
  }

  predicate PidLaw(s: Machine) {
    Inv(s.kernel) && PendingApart(s)
  }

  /** The creation a waiting grant leads to. */
  function CreationOf(t: Task, now: int): Step
    requires t.Announced?
  {
    var level := QueueLevel(t.name);
    Create(t.pid, t.name, level.DefaultPriority(), level, t.need.ram, t.need.hdd, now)
  }

  lemma StoreKeepsPidLaw(s: Machine, i: nat, now: int)
    requires PidLaw(s) && ActEnabled(s, Advance(i, now)) && s.tasks[i].Announced?
    ensures PidLaw(StoreAction(s, i, now))
    ensures Enabled(s.kernel, CreationOf(s.tasks[i], now))
    ensures StoreAction(s, i, now).kernel == Next(s.kernel, CreationOf(s.tasks[i], now))
  {
    CreateKeepsInv(s.kernel, CreationOf(s.tasks[i], now));
    StoreKeepsApart(s, i, now);
  }

  lemma StoreKeepsApart(s: Machine, i: nat, now: int)
    requires PendingApart(s) && i < |s.tasks| && s.tasks[i].Announced?
    ensures PendingApart(StoreAction(s, i, now))
  {
    var s' := StoreAction(s, i, now);
    assert forall x :: 0 <= x < |s'.tasks| && Pending(s'.tasks[x]) ==> x != i && s'.tasks[x] == s.tasks[x];
  }

  lemma RemovalKeepsApart(s: Machine, pid: int)
    requires PendingApart(s)
    ensures PendingApart(TerminateAction(s, pid))
  {
    var s' := TerminateAction(s, pid);
    var i := FindPid(s.kernel.table, pid);
    forall x | 0 <= x < |s'.kernel.table|
      ensures exists y :: 0 <= y < |s.kernel.table| && s'.kernel.table[x] == s.kernel.table[y]
    {
      assert s'.kernel.table[x] == s.kernel.table[if x < i then x else x + 1];
    }
  }

  /** A thread that writes a line or gives its amounts back changes no PID's standing. */
  lemma ProgressKeepsApart(s: Machine, i: nat, t: Task, free: Amount, log: seq<Event>)
    requires PendingApart(s) && i < |s.tasks|
    requires Pending(t) ==> Pending(s.tasks[i]) && t.pid == s.tasks[i].pid
    ensures PendingApart(s.(tasks := s.tasks[i := t], free := free, log := log))
  {
  }

  lemma AdvanceKeepsPidLaw(s: Machine, i: nat, now: int)
    requires PidLaw(s) && ActEnabled(s, Advance(i, now))
    ensures PidLaw(AdvanceAction(s, i, now))
  {
    var s' := AdvanceAction(s, i, now);
    if s.tasks[i].Announced? {
      StoreKeepsPidLaw(s, i, now);
    } else {
      ProgressKeepsApart(s, i, s'.tasks[i], s'.free, s'.log);
      assert s.tasks[i].Finished? ==> s.tasks[i := s'.tasks[i]] == s.tasks;
    }
  }

  lemma InternalKeepsPidLaw(s: Machine, step: Step)
    requires PidLaw(s) && !step.Create? && !step.Remove?
    ensures PidLaw(Act(s, Internal(step)))
  {
    StepKeepsInv(s.kernel, step);
    InternalKeepsHoldings(s.kernel, step);
  }

  lemma ActKeepsPidLaw(s: Machine, a: Action)
    requires ActEnabled(s, a) && FreshAction(s, a) && PidLaw(s)
    ensures PidLaw(Act(s, a))
  {
    match a
    case Request(pid, name, need) =>
    case Advance(i, now) => AdvanceKeepsPidLaw(s, i, now);
    case Terminate(pid) => RemoveKeepsInv(s.kernel, pid); RemovalKeepsApart(s, pid);
    case Internal(step) => InternalKeepsPidLaw(s, step);
    case ChildExit(_) =>
  }

  lemma {:induction false} RunKeepsPidLaw(s: Machine, acts: seq<Action>)
    requires ValidActions(s, acts) && FreshActions(s, acts) && PidLaw(s)
    ensures PidLaw(Perform(s, acts))
    decreases |acts|
  {
    if |acts| != 0 {
      ActKeepsPidLaw(s, acts[0]);
      RunKeepsPidLaw(Act(s, acts[0]), acts[1..]);
    }
  }
}
