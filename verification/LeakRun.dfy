/** A run in which resources are lost: two requests are granted, the table has room for one of the PCBs,
    and when everything is over the other request's amounts are still missing. */
module LeakRun {
  import opened KernelTypes
  import opened KernelSpec
  import opened Accounting

  /** The actions are enabled one after the other and lead from s to s'. */
  predicate Leads(s: Machine, acts: seq<Action>, s': Machine) {
    ValidActions(s, acts) && Perform(s, acts) == s'
  }

  lemma LeadsOne(s: Machine, a: Action)
    requires ActEnabled(s, a)
    ensures Leads(s, [a], Act(s, a))
  {
    assert [a][1..] == [];
  }

  lemma {:induction false} LeadsOn(s: Machine, a: seq<Action>, t: Machine, b: seq<Action>, u: Machine)
    requires Leads(s, a, t) && Leads(t, b, u)
    ensures Leads(s, a + b, u)
    decreases |a|
  {
    if |a| == 0 {
      assert a + b == b;
    } else {
      assert (a + b)[1..] == a[1..] + b;
      LeadsOn(Act(s, a[0]), a[1..], t, b, u);
    }
  }

  /** Three turns of one thread. */
  function ThreeTurns(i: nat): seq<Action> {
    [Advance(i, 0)] + [Advance(i, 0)] + [Advance(i, 0)]
  }

  lemma ThreeSteps(s: Machine, i: nat) returns (s': Machine)
    requires i < |s.tasks| && forall j :: 0 <= j < |s.kernel.table| ==> s.kernel.table[j].arriveTime <= 0
    ensures s' == AdvanceAction(AdvanceAction(AdvanceAction(s, i, 0), i, 0), i, 0)
    requires s.tasks[i].Granted? || s.tasks[i].Taken?
    ensures Leads(s, ThreeTurns(i), s')
  {
    var a := Advance(i, 0);
    var s1 := Act(s, a);
    var s2 := Act(s1, a);
    s' := Act(s2, a);
    LeadsOne(s, a);
    LeadsOne(s1, a);
    LeadsOne(s2, a);
    LeadsOn(s, [a], s1, [a], s2);
    LeadsOn(s, [a] + [a], s2, [a], s');
  }

  /** A grant run to its end adds a PCB; on a full table it adds nothing and the amounts stay away. */
  lemma GrantRuns(s: Machine, i: nat) returns (s': Machine)
    requires i < |s.tasks| && s.tasks[i].Granted?
    requires forall j :: 0 <= j < |s.kernel.table| ==> s.kernel.table[j].arriveTime <= 0
    ensures Leads(s, ThreeTurns(i), s')
    ensures s'.tasks == s.tasks[i := Finished] && s'.free == s.free && s'.total == s.total
    ensures var t, level := s.tasks[i], QueueLevel(s.tasks[i].name);
            s'.kernel == CreateStep(s.kernel, t.pid, t.name, level.DefaultPriority(), level, t.need.ram, t.need.hdd, 0)
    ensures s'.leaked == if |s.kernel.table| < s.kernel.capacity then s.leaked else s.leaked.Plus(s.tasks[i].need)
    ensures s'.log == s.log + [Allocated(s.tasks[i].need), Created(s.tasks[i].pid, s.tasks[i].name)]
  {
    s' := ThreeSteps(s, i);
    var s1 := AdvanceAction(s, i, 0);
    assert s1.tasks == s.tasks[i := s1.tasks[i]];
    var s2 := AdvanceAction(s1, i, 0);
    assert s2.tasks == s.tasks[i := s2.tasks[i]];
    assert s'.tasks == s.tasks[i := Finished];
  }

  /** A removal run to its end gives the amounts back. */
  lemma RemovalRuns(s: Machine, i: nat) returns (s': Machine)
    requires i < |s.tasks| && s.tasks[i].Taken?
    requires forall j :: 0 <= j < |s.kernel.table| ==> s.kernel.table[j].arriveTime <= 0
    ensures Leads(s, ThreeTurns(i), s')
    ensures s'.tasks == s.tasks[i := Finished] && s'.free == s.free.Plus(s.tasks[i].held) && s'.total == s.total
    ensures s'.kernel == s.kernel && s'.leaked == s.leaked
    ensures s'.log == s.log + [Reclaimed(s.tasks[i].held), Terminated(s.tasks[i].pid)]
  {
    s' := ThreeSteps(s, i);
    var s1 := AdvanceAction(s, i, 0);
    assert s1.tasks == s.tasks[i := s1.tasks[i]];
    var s2 := AdvanceAction(s1, i, 0);
    assert s2.tasks == s.tasks[i := s2.tasks[i]];
    assert s'.tasks == s.tasks[i := Finished];
  }

  const NEED := Amount(40, 3)

  const BOTH_STORED: seq<Action> :=
    [Request(1, "Calendar", NEED)] + [Request(2, "Notepad", NEED)] + ThreeTurns(0) + ThreeTurns(1)

  /** Both requests granted, each thread run to its end, the one PCB removed and reclaimed. */
  const LEAK_RUN: seq<Action> := BOTH_STORED + ([Terminate(1)] + ThreeTurns(2))

  lemma BothGranted(total: Amount) returns (s: Machine)
    requires NEED.Plus(NEED).AtMost(total)
    ensures Leads(Start(1, total, 1), [Request(1, "Calendar", NEED)] + [Request(2, "Notepad", NEED)], s)
    ensures s.tasks == [Granted(1, "Calendar", NEED), Granted(2, "Notepad", NEED)]
    ensures s.kernel == Boot(1, 1) && s.leaked == NOTHING
    ensures s.free == total.Minus(NEED).Minus(NEED) && s.total == total
  {
    var s0 := Start(1, total, 1);
    var s1 := Act(s0, Request(1, "Calendar", NEED));
    s := Act(s1, Request(2, "Notepad", NEED));
    LeadsOne(s0, Request(1, "Calendar", NEED));
    LeadsOne(s1, Request(2, "Notepad", NEED));
    LeadsOn(s0, [Request(1, "Calendar", NEED)], s1, [Request(2, "Notepad", NEED)], s);
  }

  /** Only the first finds a slot. */
  lemma OneStored(total: Amount) returns (s: Machine)
    requires NEED.Plus(NEED).AtMost(total)
    ensures Leads(Start(1, total, 1), BOTH_STORED, s)
    ensures s.tasks == [Finished, Finished] && |s.kernel.table| == 1
    ensures var p := s.kernel.table[0]; p.pid == 1 && p.arriveTime == 0 && Amount(p.ram, p.hdd) == NEED
    ensures s.leaked == NEED && s.free == total.Minus(NEED).Minus(NEED) && s.total == total
  {
    var s0 := Start(1, total, 1);
    var s1 := BothGranted(total);
    var s2 := GrantRuns(s1, 0);
    s := GrantRuns(s2, 1);
    var a := [Request(1, "Calendar", NEED)] + [Request(2, "Notepad", NEED)];
    LeadsOn(s0, a, s1, ThreeTurns(0), s2);
    LeadsOn(s0, a + ThreeTurns(0), s2, ThreeTurns(1), s);
  }

  /** The only PCB goes again. */
  lemma OneRemoved(s: Machine) returns (s': Machine)
    requires |s.kernel.table| == 1 && s.kernel.table[0].pid == 1
    requires Amount(s.kernel.table[0].ram, s.kernel.table[0].hdd) == NEED
    ensures Leads(s, [Terminate(1)], s')
    ensures s'.kernel.table == [] && s'.tasks == s.tasks + [Taken(1, NEED)]
    ensures s'.free == s.free && s'.leaked == s.leaked && s'.total == s.total
  {
    assert FindPid(s.kernel.table, 1) == 0;
    s' := Act(s, Terminate(1));
    LeadsOne(s, Terminate(1));
  }

  /** On a machine with room for one process and memory for two: at the end of the run every thread is
      done and the table empty, and the second request's amounts are gone for good. */
  lemma FullTableLosesAGrant(total: Amount)
    requires NEED.Plus(NEED).AtMost(total)
    ensures ValidActions(Start(1, total, 1), LEAK_RUN)
    ensures var s := Perform(Start(1, total, 1), LEAK_RUN);
            && Quiescent(s) && s.kernel.table == []
            && s.leaked == NEED && s.free == total.Minus(NEED) != total
  {
    var s0 := Start(1, total, 1);
    var s1 := OneStored(total);
    var s2 := OneRemoved(s1);
    var s3 := RemovalRuns(s2, 2);
    LeadsOn(s1, [Terminate(1)], s2, ThreeTurns(2), s3);
    LeadsOn(s0, BOTH_STORED, s1, [Terminate(1)] + ThreeTurns(2), s3);
  }
}
