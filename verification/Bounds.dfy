/** When what is free stays between nothing and the total: exactly when no negative request is granted. */
module Bounds {
  import opened KernelTypes
  import opened KernelSpec
  import opened Agreement
  import opened Accounting
  import opened PidLaws

  predicate Within(s: Machine) {
    NOTHING.AtMost(s.free) && s.free.AtMost(s.total)
  }

  /** A run that may follow: live PIDs are not handed out twice, and nobody asks for less than nothing. */
  predicate Continuation(s: Machine, acts: seq<Action>) {
    ValidActions(s, acts) && FreshActions(s, acts) && NonNegativeRequests(acts)
  }

  /** The bounds hold now and whatever follows. */
  ghost predicate Safe(s: Machine) {
    forall acts: seq<Action> :: Continuation(s, acts) ==> Within(Perform(s, acts))
  }

  // ---------- safe without negative amounts ----------

  lemma NonNegativeIsSafe(s: Machine)
    requires Conserved(s) && NonNegative(s)
    ensures Safe(s)
  {
    forall acts: seq<Action> | Continuation(s, acts)
      ensures Within(Perform(s, acts))
    {
      RunConserves(s, acts);
      RunKeepsNonNegative(s, acts);
      BoundsFromConservation(Perform(s, acts));
    }
  }

  // ---------- a negative grant can always be brought down ----------

  /** A continuation that ends out of bounds. */
  predicate Breaks(s: Machine, acts: seq<Action>) {
    Continuation(s, acts) && !Within(Perform(s, acts))
  }

  /** An action put in front of a breaking continuation. */
  lemma BreaksBehind(s: Machine, a: Action, acts: seq<Action>)
    requires ActEnabled(s, a) && FreshAction(s, a) && (a.Request? ==> NOTHING.AtMost(a.need))
    requires Breaks(Act(s, a), acts)
    ensures Breaks(s, [a] + acts)
  {
    assert ([a] + acts)[1..] == acts;
    forall i | 0 <= i < |[a] + acts| && ([a] + acts)[i].Request?
      ensures NOTHING.AtMost(([a] + acts)[i].need)
    {
      assert i > 0 ==> ([a] + acts)[i] == acts[i - 1];
    }
  }

  predicate Negative(a: Amount) {
    a.ram < 0 || a.hdd < 0
  }

  /** With nothing free, giving a negative amount back leaves less than nothing. */
  lemma BreakByReclaim(s: Machine, i: nat) returns (acts: seq<Action>)
    requires i < |s.tasks| && s.tasks[i].Taken? && Negative(s.tasks[i].held) && s.free == NOTHING
    ensures Breaks(s, acts)
  {
    acts := [];
    assert Breaks(Act(s, Advance(i, 0)), []);
    BreaksBehind(s, Advance(i, 0), []);
    acts := [Advance(i, 0)];
    assert [Advance(i, 0)] + [] == acts;
  }

  /** A PCB in the table holds a negative amount. */
  predicate HoldsNegative(s: Machine, pid: int) {
    var i := FindPid(s.kernel.table, pid);
    i < |s.kernel.table| && Negative(Amount(s.kernel.table[i].ram, s.kernel.table[i].hdd))
  }

  lemma BreakByTermination(s: Machine, pid: int) returns (acts: seq<Action>)
    requires HoldsNegative(s, pid) && s.free == NOTHING
    ensures Breaks(s, acts)
  {
    var s' := TerminateAction(s, pid);
    acts := BreakByReclaim(s', |s.tasks|);
    BreaksBehind(s, Terminate(pid), acts);
    acts := [Terminate(pid)] + acts;
  }

  /** Someone asks for all there is; then the negative PCB goes. */
  lemma BreakFromStored(s: Machine, pid: int) returns (acts: seq<Action>)
    requires HoldsNegative(s, pid) && NOTHING.AtMost(s.free)
    ensures Breaks(s, acts)
  {
    var other := FreePid(s);
    var ask := Action.Request(other, "", s.free);
    acts := BreakByTermination(Act(s, ask), pid);
    BreaksBehind(s, ask, acts);
    acts := [ask] + acts;
  }

  /** The waiting negative grant is stored first. */
  lemma BreakFromRoom(s: Machine, i: nat) returns (acts: seq<Action>)
    requires PidLaw(s) && NOTHING.AtMost(s.free) && |s.kernel.table| < s.kernel.capacity
    requires i < |s.tasks| && s.tasks[i].Announced? && Negative(s.tasks[i].need)
    ensures Breaks(s, acts)
  {
    var now := LatestArrival(s.kernel.table);
    var s' := StoreAction(s, i, now);
    var t := s'.kernel.table;
    assert t[|s.kernel.table|].pid == s.tasks[i].pid;
    assert FindPid(t, s.tasks[i].pid) == |s.kernel.table|;
    acts := BreakFromStored(s', s.tasks[i].pid);
    BreaksBehind(s, Advance(i, now), acts);
    acts := [Advance(i, now)] + acts;
  }

  /** On a full table another PCB goes before that. */
  lemma BreakFromAnnounced(s: Machine, i: nat) returns (acts: seq<Action>)
    requires PidLaw(s) && NOTHING.AtMost(s.free) && 1 <= s.kernel.capacity
    requires i < |s.tasks| && s.tasks[i].Announced? && Negative(s.tasks[i].need)
    ensures Breaks(s, acts)
  {
    if |s.kernel.table| < s.kernel.capacity {
      acts := BreakFromRoom(s, i);
    } else {
      var q := s.kernel.table[0].pid;
      ActKeepsPidLaw(s, Terminate(q));
      acts := BreakFromRoom(TerminateAction(s, q), i);
      BreaksBehind(s, Terminate(q), acts);
      acts := [Terminate(q)] + acts;
    }
  }

  lemma BreakFromGranted(s: Machine, i: nat) returns (acts: seq<Action>)
    requires PidLaw(s) && NOTHING.AtMost(s.free) && 1 <= s.kernel.capacity
    requires i < |s.tasks| && s.tasks[i].Granted? && Negative(s.tasks[i].need)
    ensures Breaks(s, acts)
  {
    ActKeepsPidLaw(s, Advance(i, 0));
    acts := BreakFromAnnounced(AdvanceAction(s, i, 0), i);
    BreaksBehind(s, Advance(i, 0), acts);
    acts := [Advance(i, 0)] + acts;
  }

  /** A moment no arrival is later than. */
  function LatestArrival(t: seq<Process>): (now: int)
    ensures forall i :: 0 <= i < |t| ==> t[i].arriveTime <= now
  {
    if |t| == 0 then 0
    else
      var rest := LatestArrival(t[..|t| - 1]);
      if t[|t| - 1].arriveTime > rest then t[|t| - 1].arriveTime else rest
  }

  function LargestPid(t: seq<Process>): (p: int)
    ensures forall i :: 0 <= i < |t| ==> t[i].pid <= p
  {
    if |t| == 0 then 0
    else
      var rest := LargestPid(t[..|t| - 1]);
      if t[|t| - 1].pid > rest then t[|t| - 1].pid else rest
  }

  function LargestPending(ts: seq<Task>): (p: int)
    ensures forall i :: 0 <= i < |ts| && Pending(ts[i]) ==> ts[i].pid <= p
  {
    if |ts| == 0 then 0
    else
      var rest, last := LargestPending(ts[..|ts| - 1]), ts[|ts| - 1];
      if Pending(last) && last.pid > rest then last.pid else rest
  }

  function FreePid(s: Machine): (p: int)
    ensures PidFree(s, p)
  {
    var a, b := LargestPid(s.kernel.table), LargestPending(s.tasks);
    if a < b then b + 1 else a + 1
  }

  // ---------- exactly ----------

  predicate Affordable(s: Machine, need: Amount) {
    need.AtMost(s.free)
  }

  /** In every state in which the PID law, conservation and no negative holding is in force: after a
      request the bounds hold whatever follows if and only if it was denied or asked for nothing
      negative. */
  lemma RequestSafeIff(s: Machine, pid: int, name: string, need: Amount)
    requires PidLaw(s) && Conserved(s) && NonNegative(s) && 1 <= s.kernel.capacity && PidFree(s, pid)
    ensures Safe(RequestAction(s, pid, name, need)) <==> !Affordable(s, need) || NOTHING.AtMost(need)
  {
    var a := Action.Request(pid, name, need);
    var s' := RequestAction(s, pid, name, need);
    ActConserves(s, a);
    if !Affordable(s, need) || NOTHING.AtMost(need) {
      assert NonNegative(s') by {
        if Affordable(s, need) {
          ActKeepsNonNegative(s, a);
        }
      }
      NonNegativeIsSafe(s');
    } else {
      ActKeepsPidLaw(s, a);
      var acts := BreakFromGranted(s', |s.tasks|);
    }
  }

  /** No request of the run is granted a negative amount. */
  predicate GrantsNonNegative(s: Machine, acts: seq<Action>)
    requires ValidActions(s, acts)
    decreases |acts|
  {
    |acts| == 0 ||
    (&& (acts[0].Request? && Affordable(s, acts[0].need) ==> NOTHING.AtMost(acts[0].need))
     && GrantsNonNegative(Act(s, acts[0]), acts[1..]))
  }

  /** Every state the run passes through is safe. */
  ghost predicate SafeThroughout(s: Machine, acts: seq<Action>)
    requires ValidActions(s, acts)
    decreases |acts|
  {
    Safe(s) && (|acts| == 0 || SafeThroughout(Act(s, acts[0]), acts[1..]))
  }

  lemma {:induction false} RunSafeIff(s: Machine, acts: seq<Action>)
    requires PidLaw(s) && Conserved(s) && NonNegative(s) && 1 <= s.kernel.capacity
    requires ValidActions(s, acts) && FreshActions(s, acts)
    ensures SafeThroughout(s, acts) <==> GrantsNonNegative(s, acts)
    decreases |acts|
  {
    NonNegativeIsSafe(s);
    if |acts| != 0 {
      var a, s' := acts[0], Act(s, acts[0]);
      ActConserves(s, a);
      ActKeepsPidLaw(s, a);
      if a.Request? {
        RequestSafeIff(s, a.pid, a.name, a.need);
      }
      if a.Request? && Affordable(s, a.need) && !NOTHING.AtMost(a.need) {
        assert !Safe(s');
      } else {
        HarmlessKeepsNonNegative(s, a);
        CapacityStays(s, a);
        RunSafeIff(s', acts[1..]);
      }
    }
  }

  lemma HarmlessKeepsNonNegative(s: Machine, a: Action)
    requires ActEnabled(s, a) && NonNegative(s)
    requires a.Request? && Affordable(s, a.need) ==> NOTHING.AtMost(a.need)
    ensures NonNegative(Act(s, a))
  {
    if !a.Request? || Affordable(s, a.need) {
      ActKeepsNonNegative(s, a);
    }
  }

  lemma CapacityStays(s: Machine, a: Action)
    requires ActEnabled(s, a)
    ensures Act(s, a).kernel.capacity == s.kernel.capacity
  {
  }

  /** From boot: a run keeps what is free within bounds at every moment and in whatever may follow, if
      and only if no negative request in it is granted. */
  lemma WithinTotalIff(capacity: nat, total: Amount, cores: int, acts: seq<Action>)
    requires 1 <= capacity && NOTHING.AtMost(total)
    requires ValidActions(Start(capacity, total, cores), acts) && FreshActions(Start(capacity, total, cores), acts)
    ensures SafeThroughout(Start(capacity, total, cores), acts) <==>
            GrantsNonNegative(Start(capacity, total, cores), acts)
  {
    RunSafeIff(Start(capacity, total, cores), acts);
  }
}
