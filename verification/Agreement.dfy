/** Table and queues agree in every reachable state. */
module Agreement {
  import opened KernelTypes
  import opened KernelSpec

  predicate UniquePids(table: seq<Process>) {
    forall i, j :: 0 <= i < j < |table| ==> table[i].pid != table[j].pid
  }

  /** Q0 and Q2 are exactly their level's slots in table order; every Q1 entry is a live slot of
      level 1, and Q1 has as many entries as there are such slots. */
  predicate Agree(k: KernelState) {
    && |k.table| <= k.capacity
    && k.q0 == SlotsAt(k.table, System)
    && k.q2 == SlotsAt(k.table, Background)
    && |k.q1| == |SlotsAt(k.table, Interactive)|
    && (forall i :: 0 <= i < |k.q1| ==>
          k.q1[i] < |k.table| && k.table[k.q1[i]].level.Interactive?)
  }

  predicate SaneProcess(p: Process) {
    0 <= p.priority <= 10 && 0 <= p.waitTime
  }

  predicate Inv(k: KernelState) {
    && Agree(k)
    && UniquePids(k.table)
    && forall i :: 0 <= i < |k.table| ==> SaneProcess(k.table[i])
  }

  // ---------- slots of a level ----------

  /** SlotsAt lists exactly the slots of the level, each once, in increasing order. */
  lemma {:induction false} SlotsAtExact(t: seq<Process>, l: Level)
    ensures forall s: nat :: s in SlotsAt(t, l) <==> s < |t| && t[s].level == l
    ensures forall i, j :: 0 <= i < j < |SlotsAt(t, l)| ==> SlotsAt(t, l)[i] < SlotsAt(t, l)[j]
    ensures |SlotsAt(t, l)| <= |t|
  {
    if |t| != 0 {
      var init := t[..|t| - 1];
      SlotsAtExact(init, l);
      forall i | 0 <= i < |SlotsAt(init, l)|
        ensures SlotsAt(init, l)[i] < |init|
      {
        assert SlotsAt(init, l)[i] in SlotsAt(init, l);
      }
    }
  }

  /** Only levels matter to SlotsAt. */
  lemma {:induction false} SlotsAtSameLevels(t: seq<Process>, t': seq<Process>, l: Level)
    requires |t| == |t'|
    requires forall i :: 0 <= i < |t| ==> t[i].level == t'[i].level
    ensures SlotsAt(t, l) == SlotsAt(t', l)
  {
    if |t| != 0 {
      SlotsAtSameLevels(t[..|t| - 1], t'[..|t| - 1], l);
    }
  }

  lemma SlotsAtAppend(t: seq<Process>, p: Process, l: Level)
    ensures SlotsAt(t + [p], l) == SlotsAt(t, l) + if p.level == l then [|t|] else []
  {
    assert (t + [p])[..|t|] == t;
  }

  /** A rebuild makes every queue exactly the slots of its level. */
  lemma RebuildAgrees(k: KernelState)
    requires |k.table| <= k.capacity
    ensures Agree(Rebuild(k)) && Rebuild(k).q1 == SlotsAt(k.table, Interactive)
  {
    var q1 := SlotsAt(k.table, Interactive);
    SlotsAtExact(k.table, Interactive);
    forall i | 0 <= i < |q1|
      ensures q1[i] < |k.table| && k.table[q1[i]].level.Interactive?
    {
      assert q1[i] in q1;
    }
  }

  /** A rebuild that has pushed the first i slots. */
  function RebuiltUpTo(k: KernelState, i: nat): KernelState
    requires i <= |k.table|
  {
    Rebuild(k.(table := k.table[..i])).(table := k.table)
  }

  /** Pushing slot i takes a rebuild from i slots to i + 1, and there is room for it. */
  lemma RebuildPrefix(k: KernelState, i: nat)
    requires i < |k.table|
    ensures RebuiltUpTo(k, i + 1) == Enqueue(RebuiltUpTo(k, i), k.table[i].level, i)
    ensures |RebuiltUpTo(k, i).Queue(k.table[i].level)| <= i
  {
    var t := k.table[..i];
    assert k.table[..i + 1] == t + [k.table[i]];
    SlotsAtAppend(t, k.table[i], System);
    SlotsAtAppend(t, k.table[i], Interactive);
    SlotsAtAppend(t, k.table[i], Background);
    SlotsAtExact(t, k.table[i].level);
  }

  /** Rewriting one PCB without touching its level keeps the agreement. */
  lemma SetKeepsAgree(k: KernelState, i: nat, p: Process)
    requires Agree(k) && i < |k.table| && p.level == k.table[i].level
    ensures Agree(k.(table := k.table[i := p]))
  {
    forall l: Level
      ensures SlotsAt(k.table, l) == SlotsAt(k.table[i := p], l)
    {
      SlotsAtSameLevels(k.table, k.table[i := p], l);
    }
  }

  lemma SetKeepsInv(k: KernelState, i: nat, p: Process)
    requires Inv(k) && i < |k.table|
    requires p.level == k.table[i].level && p.pid == k.table[i].pid && SaneProcess(p)
    ensures Inv(k.(table := k.table[i := p]))
  {
    SetKeepsAgree(k, i, p);
  }

  // ---------- each step ----------

  /** A PCB appended to the table and its slot to the queue of its level keep the agreement, and that
      queue has room for it. */
  lemma AppendAgrees(k: KernelState, p: Process)
    requires Agree(k) && |k.table| < k.capacity
    ensures Agree(Enqueue(k.(table := k.table + [p]), p.level, |k.table|))
    ensures |k.Queue(p.level)| < k.capacity
  {
    SlotsAtAppend(k.table, p, System);
    SlotsAtAppend(k.table, p, Interactive);
    SlotsAtAppend(k.table, p, Background);
    SlotsAtExact(k.table, p.level);
  }

  lemma CreateKeepsInv(k: KernelState, s: Step)
    requires Inv(k) && s.Create? && Enabled(k, s)
    ensures Inv(Next(k, s))
  {
    if |k.table| < k.capacity {
      var p := Process(s.pid, s.name, Ready, s.priority, s.level, s.ram, s.hdd, s.now, 0, 0, -1);
      assert SaneProcess(p);
      assert Next(k, s) == Enqueue(k.(table := k.table + [p]), p.level, |k.table|);
      AppendAgrees(k, p);
    }
  }

  lemma RemoveKeepsInv(k: KernelState, pid: int)
    requires Inv(k)
    ensures Inv(RemoveStep(k, pid))
  {
    var i := FindPid(k.table, pid);
    if i == |k.table| {
      assert RemoveStep(k, pid) == k;
    } else {
      RebuildAgrees(k.(table := k.table[..i] + k.table[i + 1..]));
    }
  }

  lemma DispatchKeepsInv(k: KernelState, slot: nat)
    requires Inv(k) && slot < |k.table|
    ensures Inv(Dispatch(k, slot))
  {
    SetKeepsInv(k, slot, Dispatch(k, slot).table[slot]);
  }

  /** Popping Q1's front and pushing one of its own entries keeps the agreement. */
  lemma RotationAgrees(k: KernelState, i: nat)
    requires Agree(k) && i < |k.q1|
    ensures Agree(k.(q1 := k.q1[1..] + [k.q1[i]]))
  {
    var q := k.q1[1..] + [k.q1[i]];
    forall j | 0 <= j < |q|
      ensures q[j] < |k.table| && k.table[q[j]].level.Interactive?
    {
      assert q[j] == if j < |k.q1| - 1 then k.q1[j + 1] else k.q1[i];
    }
  }

  lemma SchedulerKeepsInv(k: KernelState)
    requires Inv(k)
    ensures Inv(SchedulerStep(k))
  {
    var i0 := FirstReady(k.table, k.q0);
    var i1 := FirstReady(k.table, k.q1);
    var i2 := FirstReady(k.table, k.q2);
    if i0 < |k.q0| {
      DispatchKeepsInv(k, k.q0[i0]);
    } else if i1 < |k.q1| {
      DispatchKeepsInv(k, k.q1[i1]);
      RotationAgrees(Dispatch(k, k.q1[i1]), i1);
    } else if i2 < |k.q2| {
      DispatchKeepsInv(k, k.q2[i2]);
    }
  }

  lemma AgingAgrees(k: KernelState)
    requires Agree(k)
    ensures Agree(AgingStep(k))
  {
    var k' := k.(table := AgeTable(k.table));
    if Promotes(k.table) {
      RebuildAgrees(k');
    } else {
      SlotsAtSameLevels(k.table, k'.table, System);
      SlotsAtSameLevels(k.table, k'.table, Interactive);
      SlotsAtSameLevels(k.table, k'.table, Background);
    }
  }

  lemma AgeSane(p: Process)
    requires SaneProcess(p)
    ensures SaneProcess(Age(p)) && Age(p).pid == p.pid
  {
  }

  lemma AgingKeepsInv(k: KernelState)
    requires Inv(k)
    ensures Inv(AgingStep(k))
  {
    AgingAgrees(k);
    forall i | 0 <= i < |k.table|
      ensures SaneProcess(AgeTable(k.table)[i]) && AgeTable(k.table)[i].pid == k.table[i].pid
    {
      AgeSane(k.table[i]);
    }
  }

  lemma CountersKeepInv(k: KernelState, freeCores: int)
    requires Inv(k)
    ensures Inv(k.(freeCores := freeCores))
  {
  }

  lemma EditKeepsInv(k: KernelState, s: Step)
    requires Inv(k) && IsEdit(s)
    ensures Inv(Next(k, s))
  {
    EditShape(k, s);
    var i := Target(k, s);
    if i < |k.table| {
      SetKeepsInv(k, i, Edited(k.table[i], s));
      CountersKeepInv(k.(table := Next(k, s).table), Next(k, s).freeCores);
    }
  }

  lemma StepKeepsInv(k: KernelState, s: Step)
    requires Inv(k) && Enabled(k, s)
    ensures Inv(Next(k, s))
  {
    match s
    case Create(_, _, _, _, _, _, _) => CreateKeepsInv(k, s);
    case Remove(pid) => RemoveKeepsInv(k, pid);
    case SchedulerTick => SchedulerKeepsInv(k);
    case AgingTick => AgingKeepsInv(k);
    case _ => EditKeepsInv(k, s);
  }

  /** Agreement, unique PIDs and priorities in 0..10 hold after every run. */
  lemma {:induction false} RunKeepsInv(k: KernelState, steps: seq<Step>)
    requires Inv(k) && ValidRun(k, steps)
    ensures Inv(Run(k, steps))
    decreases |steps|
  {
    if |steps| != 0 {
      StepKeepsInv(k, steps[0]);
      RunKeepsInv(Next(k, steps[0]), steps[1..]);
    }
  }

  lemma ReachableAgrees(capacity: nat, cores: int, steps: seq<Step>)
    requires ValidRun(Boot(capacity, cores), steps)
    ensures Inv(Run(Boot(capacity, cores), steps))
  {
    RunKeepsInv(Boot(capacity, cores), steps);
  }
}
