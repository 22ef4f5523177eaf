/** Aging in closed form: how many ticks bring a process to the system queue. */
module Aging {
  import opened KernelTypes
  import opened KernelSpec
  import opened Agreement
  import opened Lifecycle

  function Max(a: int, b: int): int {
    if a < b then b else a
  }

  function Counted(p: Process): bool {
    p.state.Ready? || p.state.Running?
  }

  /** Ticks in a counted state until the process is at level 0. */
  function TicksToSystem(p: Process): int {
    match p.level
    case System => 0
    case Interactive => 5 * Max(1, p.priority) - p.waitTime % 5
    case Background => 5 * Max(2, p.priority) - p.waitTime % 5
  }

  function Minus(a: int, n: int): int {
    Max(0, a - n)
  }

  /** A counted tick takes exactly one off the remaining ticks; no tick raises a level. */
  lemma AgeCountsDown(p: Process)
    requires SaneProcess(p)
    ensures SaneProcess(Age(p))
    ensures TicksToSystem(p) >= 0
    ensures TicksToSystem(p) == 0 <==> p.level.System?
    ensures TicksToSystem(Age(p)) == Minus(TicksToSystem(p), if Counted(p) then 1 else 0)
    ensures Age(p).level.Rank() <= p.level.Rank()
    ensures Age(p).state == p.state && Age(p).pid == p.pid
  {
    var w := p.waitTime;
    assert (w + 1) % 5 == if w % 5 == 4 then 0 else w % 5 + 1;
  }

  /** Aging ticks of a run that find the process READY or RUNNING. */
  function CountedTicks(k: KernelState, steps: seq<Step>, pid: int): nat
    decreases |steps|
  {
    if |steps| == 0 then 0
    else
      (if steps[0].AgingTick? && Has(k, pid) && Counted(Proc(k, pid)) then 1 else 0)
      + CountedTicks(Next(k, steps[0]), steps[1..], pid)
  }

  /** The run neither removes the process nor sets its priority by hand. */
  predicate LeavesAlone(steps: seq<Step>, pid: int) {
    forall i :: 0 <= i < |steps| ==>
      steps[i] != Remove(pid) && !(steps[i].SetPriority? && steps[i].pid == pid)
  }

  lemma ProcAfterCountsDown(k: KernelState, s: Step, pid: int)
    requires Has(k, pid) && SaneProcess(Proc(k, pid)) && !(s.SetPriority? && s.pid == pid)
    ensures var p, p' := Proc(k, pid), ProcAfter(k, s, pid);
            && TicksToSystem(p') == Minus(TicksToSystem(p), if s.AgingTick? && Counted(p) then 1 else 0)
            && p'.level.Rank() <= p.level.Rank()
  {
    AgeCountsDown(Proc(k, pid));
    if !s.AgingTick? {
      SameClock(Proc(k, pid), ProcAfter(k, s, pid));
    }
  }

  lemma SameClock(p: Process, q: Process)
    requires p.level == q.level && p.priority == q.priority && p.waitTime == q.waitTime
    ensures TicksToSystem(p) == TicksToSystem(q)
  {
  }

  lemma StepCountsDown(k: KernelState, s: Step, pid: int)
    requires Inv(k) && Enabled(k, s) && Has(k, pid)
    requires s != Remove(pid) && !(s.SetPriority? && s.pid == pid)
    ensures Inv(Next(k, s)) && Has(Next(k, s), pid)
    ensures TicksToSystem(Proc(Next(k, s), pid)) ==
            Minus(TicksToSystem(Proc(k, pid)),
                  if s.AgingTick? && Counted(Proc(k, pid)) then 1 else 0)
    ensures Proc(Next(k, s), pid).level.Rank() <= Proc(k, pid).level.Rank()
  {
    StepTracks(k, s, pid);
    ProcAfterCountsDown(k, s, pid);
  }

  /** Over any run, with any other steps in between and through any shift of the table, the
      remaining ticks drop by exactly the counted ticks. */
  lemma {:induction false} RunCountsDown(k: KernelState, steps: seq<Step>, pid: int)
    requires Inv(k) && ValidRun(k, steps) && Has(k, pid) && LeavesAlone(steps, pid)
    ensures Inv(Run(k, steps)) && Has(Run(k, steps), pid)
    ensures TicksToSystem(Proc(Run(k, steps), pid)) ==
            Minus(TicksToSystem(Proc(k, pid)), CountedTicks(k, steps, pid))
    ensures Proc(Run(k, steps), pid).level.Rank() <= Proc(k, pid).level.Rank()
    decreases |steps|
  {
    if |steps| == 0 {
      AgeCountsDown(Proc(k, pid));
    } else {
      StepCountsDown(k, steps[0], pid);
      RunCountsDown(Next(k, steps[0]), steps[1..], pid);
    }
  }

  /** The closed form: the process is in the system queue exactly when it has been through
      5 * max(2, p) - w % 5 counted ticks from Q2, or 5 * max(1, p) - w % 5 from Q1. */
  lemma SystemExactlyAfter(k: KernelState, steps: seq<Step>, pid: int)
    requires Inv(k) && ValidRun(k, steps) && Has(k, pid) && LeavesAlone(steps, pid)
    ensures Has(Run(k, steps), pid)
    ensures Proc(Run(k, steps), pid).level.System? <==>
            CountedTicks(k, steps, pid) >= TicksToSystem(Proc(k, pid))
  {
    RunCountsDown(k, steps, pid);
    AgeCountsDown(Proc(k, pid));
    AgeCountsDown(Proc(Run(k, steps), pid));
  }
}
