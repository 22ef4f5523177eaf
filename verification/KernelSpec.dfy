/** The kernel's critical sections as functions on a snapshot of the process table, the three
    scheduling queues and the core counters; runs are sequences of such steps in any order. */
module KernelSpec {
  import opened KernelTypes

  datatype KernelState = KernelState(
    capacity: nat,
    table: seq<Process>,
    q0: seq<nat>,
    q1: seq<nat>,
    q2: seq<nat>,
    totalCores: int,
    freeCores: int)
  {
    function Queue(l: Level): seq<nat> {
      match l case System => q0 case Interactive => q1 case Background => q2
    }
  }

  datatype Step =
    | Create(pid: int, name: string, priority: int, level: Level, ram: int, hdd: int, now: int)
    | Remove(pid: int)
    | SchedulerTick
    | AgingTick
    | Minimize(pid: int)
    | Resume(pid: int)
    | Interrupt(pid: int)
    | Unblock(pid: int)
    | SetPriority(pid: int, priority: int)

  /** The first index whose entry satisfies p; the length when none does. */
  function First<T>(s: seq<T>, p: T -> bool): (i: nat)
    ensures i <= |s|
    ensures i < |s| ==> p(s[i])
    ensures forall j :: 0 <= j < i ==> !p(s[j])
  {
    if |s| == 0 || p(s[0]) then 0 else 1 + First(s[1..], p)
  }

  function FindPid(table: seq<Process>, pid: int): (i: nat)
    ensures i <= |table|
    ensures i < |table| ==> table[i].pid == pid
    ensures forall j :: 0 <= j < i ==> table[j].pid != pid
  {
    First(table, (p: Process) => p.pid == pid)
  }

  predicate ReadySlot(table: seq<Process>, slot: nat) {
    slot < |table| && table[slot].state.Ready?
  }

  /** Position in queue q of its first READY entry; the length when there is none. */
  function FirstReady(table: seq<Process>, q: seq<nat>): (i: nat)
    ensures i <= |q|
    ensures i < |q| ==> ReadySlot(table, q[i])
    ensures forall j :: 0 <= j < i ==> !ReadySlot(table, q[j])
  {
    First(q, (s: nat) => ReadySlot(table, s))
  }

  /** The slots of a level, in table order: what a rebuild pushes into that level's queue. */
  function SlotsAt(table: seq<Process>, l: Level): seq<nat> {
    if |table| == 0 then []
    else
      var last := |table| - 1;
      SlotsAt(table[..last], l) + if table[last].level == l then [last] else []
  }

  function Rebuild(k: KernelState): KernelState {
    k.(q0 := SlotsAt(k.table, System),
       q1 := SlotsAt(k.table, Interactive),
       q2 := SlotsAt(k.table, Background))
  }

  function Enqueue(k: KernelState, l: Level, slot: nat): KernelState {
    match l
    case System => k.(q0 := k.q0 + [slot])
    case Interactive => k.(q1 := k.q1 + [slot])
    case Background => k.(q2 := k.q2 + [slot])
  }

  function CreateStep(k: KernelState, pid: int, name: string, priority: int, level: Level,
                      ram: int, hdd: int, now: int): KernelState {
    if |k.table| >= k.capacity then k
    else
      var p := Process(pid, name, Ready, priority, level, ram, hdd, now, 0, 0, -1);
      Enqueue(k.(table := k.table + [p]), level, |k.table|)
  }

  function RemoveStep(k: KernelState, pid: int): KernelState {
    var i := FindPid(k.table, pid);
    if i == |k.table| then k
    else Rebuild(k.(table := k.table[..i] + k.table[i + 1..]))
  }

  /** The core a dispatch writes into the PCB. No dispatch changes freeCores. */
  function AssignedCore(k: KernelState): int {
    var used := k.totalCores - k.freeCores;
    var core := if used < 0 then 0 else used;
    if core >= k.totalCores then k.totalCores - 1 else core
  }

  function Dispatch(k: KernelState, slot: nat): KernelState
    requires slot < |k.table|
  {
    k.(table := k.table[slot := k.table[slot].(state := Running, core := AssignedCore(k))])
  }

  /** Q1's rotation drops the front entry and appends the dispatched one. */
  function SchedulerStep(k: KernelState): KernelState {
    var i0 := FirstReady(k.table, k.q0);
    var i1 := FirstReady(k.table, k.q1);
    var i2 := FirstReady(k.table, k.q2);
    if i0 < |k.q0| then Dispatch(k, k.q0[i0])
    else if i1 < |k.q1| then Dispatch(k, k.q1[i1]).(q1 := k.q1[1..] + [k.q1[i1]])
    else if i2 < |k.q2| then Dispatch(k, k.q2[i2])
    else k
  }

  /** One aging tick on one PCB: every state whose text begins with R counts, RUNNING included. */
  function Age(p: Process): Process {
    if !(p.state.Ready? || p.state.Running?) || p.level.System? then p
    else
      var q := p.(waitTime := p.waitTime + 1);
      if q.waitTime % AGING_INTERVAL != 0 then q
      else
        var r := if q.priority > 0 then q.(priority := q.priority - 1) else q;
        if r.priority <= PROMOTE_THRESHOLD && r.level.Background? then r.(level := Interactive)
        else if r.priority == 0 && r.level.Interactive? then r.(level := System)
        else r
  }

  function AgeTable(table: seq<Process>): (r: seq<Process>)
    ensures |r| == |table|
    ensures forall i :: 0 <= i < |table| ==> r[i] == Age(table[i])
  {
    seq(|table|, i requires 0 <= i < |table| => Age(table[i]))
  }

  predicate Promotes(table: seq<Process>) {
    exists i | 0 <= i < |table| :: Age(table[i]).level != table[i].level
  }

  function AgingStep(k: KernelState): KernelState {
    var k' := k.(table := AgeTable(k.table));
    if Promotes(k.table) then Rebuild(k') else k'
  }

  /** A PCB that stops running and gives its core up. */
  function Parked(p: Process, s: RunState): Process {
    p.(state := s, core := if p.core >= 0 then -1 else p.core)
  }

  function ParkStep(k: KernelState, i: nat, s: RunState): KernelState
    requires i < |k.table|
  {
    k.(table := k.table[i := Parked(k.table[i], s)],
       freeCores := if k.table[i].core >= 0 then k.freeCores + 1 else k.freeCores)
  }

  function MinimizeStep(k: KernelState, pid: int): KernelState {
    var i := FindPid(k.table, pid);
    if i == |k.table| then k else ParkStep(k, i, Minimized)
  }

  function ResumeStep(k: KernelState, pid: int): KernelState {
    var i := FindPid(k.table, pid);
    if i == |k.table| then k
    else k.(table := k.table[i := k.table[i].(state := Running)])
  }

  function FindRunning(table: seq<Process>, pid: int): (i: nat)
    ensures i <= |table|
    ensures i < |table| ==> table[i].pid == pid && table[i].state.Running?
    ensures forall j :: 0 <= j < i ==> !(table[j].pid == pid && table[j].state.Running?)
  {
    First(table, (p: Process) => p.pid == pid && p.state.Running?)
  }

  function FindBlocked(table: seq<Process>, pid: int): (i: nat)
    ensures i <= |table|
    ensures i < |table| ==> table[i].pid == pid && table[i].state.Blocked?
    ensures forall j :: 0 <= j < i ==> !(table[j].pid == pid && table[j].state.Blocked?)
  {
    First(table, (p: Process) => p.pid == pid && p.state.Blocked?)
  }

  function InterruptStep(k: KernelState, pid: int): KernelState {
    var i := FindRunning(k.table, pid);
    if i == |k.table| then k else ParkStep(k, i, Blocked)
  }

  function UnblockStep(k: KernelState, pid: int): KernelState {
    var i := FindBlocked(k.table, pid);
    if i == |k.table| then k
    else k.(table := k.table[i := k.table[i].(state := Ready)])
  }

  function Clamp(priority: int): int {
    if priority < 0 then 0 else if priority > 10 then 10 else priority
  }

  function SetPriorityStep(k: KernelState, pid: int, priority: int): KernelState {
    var i := FindPid(k.table, pid);
    if i == |k.table| then k
    else k.(table := k.table[i := k.table[i].(priority := Clamp(priority))])
  }

  function Next(k: KernelState, s: Step): KernelState {
    match s
    case Create(pid, name, priority, level, ram, hdd, now) =>
      CreateStep(k, pid, name, priority, level, ram, hdd, now)
    case Remove(pid) => RemoveStep(k, pid)
    case SchedulerTick => SchedulerStep(k)
    case AgingTick => AgingStep(k)
    case Minimize(pid) => MinimizeStep(k, pid)
    case Resume(pid) => ResumeStep(k, pid)
    case Interrupt(pid) => InterruptStep(k, pid)
    case Unblock(pid) => UnblockStep(k, pid)
    case SetPriority(pid, priority) => SetPriorityStep(k, pid, priority)
  }

  /** Steps that rewrite one PCB where it stands, if they find it. */
  predicate IsEdit(s: Step) {
    s.Minimize? || s.Resume? || s.Interrupt? || s.Unblock? || s.SetPriority?
  }

  /** The slot such a step rewrites; the length of the table when it finds none. */
  function Target(k: KernelState, s: Step): nat
    requires IsEdit(s)
  {
    if s.Interrupt? then FindRunning(k.table, s.pid)
    else if s.Unblock? then FindBlocked(k.table, s.pid)
    else FindPid(k.table, s.pid)
  }

  function Edited(p: Process, s: Step): Process
    requires IsEdit(s)
  {
    match s
    case Minimize(_) => Parked(p, Minimized)
    case Resume(_) => p.(state := Running)
    case Interrupt(_) => Parked(p, Blocked)
    case Unblock(_) => p.(state := Ready)
    case SetPriority(_, priority) => p.(priority := Clamp(priority))
  }

  /** Such a step rewrites its target and, the free-core counter apart, nothing else. */
  lemma EditShape(k: KernelState, s: Step)
    requires IsEdit(s)
    ensures var i, k' := Target(k, s), Next(k, s);
            && i <= |k.table|
            && (i < |k.table| ==> k.table[i].pid == s.pid)
            && k'.table == (if i < |k.table| then k.table[i := Edited(k.table[i], s)] else k.table)
            && k' == k.(table := k'.table, freeCores := k'.freeCores)
  {
  }

  /** What the environment guarantees: the operating system hands out a PID no live PCB has, the
      clock does not run backwards, and the request handler passes the level's own priority. */
  predicate Enabled(k: KernelState, s: Step) {
    s.Create? ==>
      && s.priority == s.level.DefaultPriority()
      && forall i :: 0 <= i < |k.table| ==> k.table[i].pid != s.pid && k.table[i].arriveTime <= s.now
  }

  function Boot(capacity: nat, cores: int): KernelState {
    KernelState(capacity, [], [], [], [], cores, cores)
  }

  function Run(k: KernelState, steps: seq<Step>): KernelState
    decreases |steps|
  {
    if |steps| == 0 then k else Run(Next(k, steps[0]), steps[1..])
  }

  predicate ValidRun(k: KernelState, steps: seq<Step>)
    decreases |steps|
  {
    |steps| == 0 || (Enabled(k, steps[0]) && ValidRun(Next(k, steps[0]), steps[1..]))
  }

  lemma OneStep(k: KernelState, s: Step)
    ensures Run(k, [s]) == Next(k, s) && (ValidRun(k, [s]) <==> Enabled(k, s))
  {
    assert [s][1..] == [];
  }

  /** A run taken in two parts. */
  lemma {:induction false} RunConcat(k: KernelState, a: seq<Step>, b: seq<Step>)
    ensures Run(k, a + b) == Run(Run(k, a), b)
    decreases |a|
  {
    if |a| == 0 {
      assert a + b == b;
    } else {
      assert (a + b)[1..] == a[1..] + b;
      RunConcat(Next(k, a[0]), a[1..], b);
    }
  }

  lemma {:induction false} ValidRunConcat(k: KernelState, a: seq<Step>, b: seq<Step>)
    ensures ValidRun(k, a + b) <==> ValidRun(k, a) && ValidRun(Run(k, a), b)
    decreases |a|
  {
    if |a| == 0 {
      assert a + b == b;
    } else {
      assert (a + b)[1..] == a[1..] + b;
      ValidRunConcat(Next(k, a[0]), a[1..], b);
    }
  }
}
