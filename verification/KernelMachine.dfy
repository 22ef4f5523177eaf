/** The kernel's mutable state and its critical sections, each proved to do what the corresponding
    step of KernelSpec does. */
module KernelMachine {
  import opened KernelTypes
  import opened RingQueue
  import opened KernelSpec
  import opened Agreement
  import opened Scheduling

  /** What the default constructor leaves in an unused table slot. */
  const BLANK := Process(-1, "", NoState, 10, Background, 0, 0, 0, 0, 0, -1)

  /** The RAM and HDD recorded in the PCB of a PID, if there is one. */
  function HeldBy(k: KernelState, pid: int): Option<(int, int)> {
    var i := FindPid(k.table, pid);
    if i == |k.table| then None else Some((k.table[i].ram, k.table[i].hdd))
  }

  predicate HasReady(table: seq<Process>, q: seq<nat>) {
    FirstReady(table, q) < |q|
  }

  /** The first READY entry of a queue dispatched, if there is one. */
  function DispatchFirst(k: KernelState, q: seq<nat>): KernelState {
    var i := FirstReady(k.table, q);
    if i < |q| then Dispatch(k, q[i]) else k
  }

  function DispatchAndRotate(k: KernelState): KernelState {
    var i := FirstReady(k.table, k.q1);
    if i < |k.q1| then Dispatch(k, k.q1[i]).(q1 := k.q1[1..] + [k.q1[i]]) else k
  }

  /** The scheduler tries its queues one after the other. */
  lemma SchedulerByQueues(k: KernelState)
    ensures SchedulerStep(k) ==
            if HasReady(k.table, k.q0) then DispatchFirst(k, k.q0)
            else if HasReady(k.table, k.q1) then DispatchAndRotate(k)
            else DispatchFirst(k, k.q2)
    ensures NoneReady(k) <==>
            !HasReady(k.table, k.q0) && !HasReady(k.table, k.q1) && !HasReady(k.table, k.q2)
    ensures !HasReady(k.table, k.q0) ==> DispatchFirst(k, k.q0) == k
    ensures !HasReady(k.table, k.q1) ==> DispatchAndRotate(k) == k
  {
    IdleIff(k);
  }

  lemma EntriesInTable(k: KernelState)
    requires Agree(k)
    ensures InTable(k.q0, |k.table|) && InTable(k.q1, |k.table|) && InTable(k.q2, |k.table|)
  {
    forall l: Level, i: nat | i < |k.Queue(l)|
      ensures k.Queue(l)[i] < |k.table|
    {
      QueueInTable(k, l, i);
    }
    assert k.Queue(System) == k.q0 && k.Queue(Interactive) == k.q1 && k.Queue(Background) == k.q2;
  }

  class Kernel {
    const pcbTable: array<Process>
    var pcbCount: nat
    const queueQ0: KernelQueue
    const queueQ1: KernelQueue
    const queueQ2: KernelQueue
    const totalCores: int
    var freeCores: int

    /** The objects are apart and the three queues have room for the whole table. */
    ghost predicate Shape()
      reads this, pcbTable, queueQ0, queueQ0.data, queueQ1, queueQ1.data, queueQ2, queueQ2.data
    {
      && queueQ0 != queueQ1 && queueQ0 != queueQ2 && queueQ1 != queueQ2
      && queueQ0.data != queueQ1.data && queueQ0.data != queueQ2.data && queueQ1.data != queueQ2.data
      && queueQ0.Valid() && queueQ1.Valid() && queueQ2.Valid()
      && queueQ0.data.Length == queueQ1.data.Length == queueQ2.data.Length == pcbTable.Length
      && pcbCount <= pcbTable.Length
    }

    ghost function Snapshot(): KernelState
      requires Shape()
      reads this, pcbTable, queueQ0, queueQ0.data, queueQ1, queueQ1.data, queueQ2, queueQ2.data
    {
      KernelState(pcbTable.Length, pcbTable[..pcbCount], queueQ0.Contents(), queueQ1.Contents(),
                  queueQ2.Contents(), totalCores, freeCores)
    }

    ghost predicate Valid()
      reads this, pcbTable, queueQ0, queueQ0.data, queueQ1, queueQ1.data, queueQ2, queueQ2.data
    {
      Shape() && Agree(Snapshot())
    }

    constructor (capacity: nat, cores: int)
      requires 0 < capacity
      ensures Valid() && fresh(pcbTable)
      ensures fresh(queueQ0) && fresh(queueQ1) && fresh(queueQ2)
      ensures fresh(queueQ0.data) && fresh(queueQ1.data) && fresh(queueQ2.data)
      ensures Snapshot() == Boot(capacity, cores)
    {
      pcbTable := new Process[capacity](_ => BLANK);
      pcbCount := 0;
      queueQ0 := new KernelQueue(capacity);
      queueQ1 := new KernelQueue(capacity);
      queueQ2 := new KernelQueue(capacity);
      totalCores, freeCores := cores, cores;
    }

    // ---------- process manager ----------

    /** Stores a PCB in the first free slot of the table. */
    method AppendPcb(p: Process)
      requires Shape() && pcbCount < pcbTable.Length
      modifies pcbTable, this`pcbCount
      ensures Shape()
      ensures var k := old(Snapshot()); Snapshot() == k.(table := k.table + [p])
    {
      ghost var t := pcbTable[..pcbCount];
      pcbTable[pcbCount] := p;
      pcbCount := pcbCount + 1;
      assert pcbTable[..pcbCount] == t + [p];
    }

    /** Pushes a slot on the queue of its level. The room is the callers' to show. */
    method PushAt(level: Level, slot: nat)
      requires Shape() && |Snapshot().Queue(level)| < pcbTable.Length
      modifies queueQ0, queueQ0.data, queueQ1, queueQ1.data, queueQ2, queueQ2.data
      ensures Shape()
      ensures Snapshot() == Enqueue(old(Snapshot()), level, slot)
    {
      var stored;
      if level == System {
        stored := queueQ0.Push(slot);
      } else if level == Interactive {
        stored := queueQ1.Push(slot);
      } else {
        stored := queueQ2.Push(slot);
      }
      assert stored;
    }

    method CreatePcb(pid: int, name: string, priority: int, level: Level, ram: int, hdd: int, now: int)
      requires Valid()
      modifies this, pcbTable, queueQ0, queueQ0.data, queueQ1, queueQ1.data, queueQ2, queueQ2.data
      ensures Valid()
      ensures Snapshot() == CreateStep(old(Snapshot()), pid, name, priority, level, ram, hdd, now)
    {
      if pcbCount < pcbTable.Length {
        StoreNew(Process(pid, name, Ready, priority, level, ram, hdd, now, 0, 0, -1));
      }
    }

    /** Stores a PCB behind the others and pushes its slot on the queue of its level. */
    method StoreNew(p: Process)
      requires Valid() && pcbCount < pcbTable.Length
      modifies this, pcbTable, queueQ0, queueQ0.data, queueQ1, queueQ1.data, queueQ2, queueQ2.data
      ensures Valid()
      ensures var k := old(Snapshot()); Snapshot() == Enqueue(k.(table := k.table + [p]), p.level, |k.table|)
    {
      AppendAgrees(Snapshot(), p);
      AppendPcb(p);
      PushAt(p.level, pcbCount - 1);
    }

    method FindSlot(pid: int) returns (i: nat)
      requires Shape()
      ensures i == FindPid(pcbTable[..pcbCount], pid)
    {
      i := 0;
      while i < pcbCount && pcbTable[i].pid != pid
        invariant i <= pcbCount
        invariant forall j :: 0 <= j < i ==> pcbTable[j].pid != pid
      {
        i := i + 1;
      }
    }

    method DrainQueues()
      requires Shape()
      modifies queueQ0, queueQ1, queueQ2
      ensures Shape()
      ensures Snapshot() == old(Snapshot()).(q0 := [], q1 := [], q2 := [])
    {
      queueQ0.Drain();
      queueQ1.Drain();
      queueQ2.Drain();
    }

    /** Empties the three queues and pushes every slot of the table again. */
    method RebuildQueues()
      requires Shape()
      modifies queueQ0, queueQ0.data, queueQ1, queueQ1.data, queueQ2, queueQ2.data
      ensures Shape()
      ensures Snapshot() == Rebuild(old(Snapshot()))
    {
      ghost var k := Snapshot();
      DrainQueues();
      for i := 0 to pcbCount
        invariant Shape()
        invariant Snapshot() == RebuiltUpTo(k, i)
      {
        RebuildPrefix(k, i);
        PushAt(pcbTable[i].level, i);
      }
      assert k.table[..pcbCount] == k.table;
    }

    /** Copies every PCB behind slot i one slot down. */
    method ShiftDown(i: nat)
      requires Shape() && i < pcbCount
      modifies pcbTable, this`pcbCount
      ensures Shape()
      ensures var k := old(Snapshot()); Snapshot() == k.(table := k.table[..i] + k.table[i + 1..])
    {
      ghost var t := pcbTable[..pcbCount];
      for j := i to pcbCount - 1
        invariant pcbCount == |t|
        invariant forall x :: 0 <= x < i || j <= x < |t| ==> pcbTable[x] == t[x]
        invariant forall x :: i <= x < j ==> pcbTable[x] == t[x + 1]
      {
        pcbTable[j] := pcbTable[j + 1];
      }
      pcbCount := pcbCount - 1;
      assert pcbTable[..pcbCount] == t[..i] + t[i + 1..];
    }

    /** Returns the removed PCB's RAM and HDD, which the caller reclaims outside this section. */
    method RemovePcb(pid: int) returns (held: Option<(int, int)>)
      requires Valid()
      modifies this, pcbTable, queueQ0, queueQ0.data, queueQ1, queueQ1.data, queueQ2, queueQ2.data
      ensures Valid()
      ensures Snapshot() == RemoveStep(old(Snapshot()), pid)
      ensures held == HeldBy(old(Snapshot()), pid)
    {
      held := None;
      var i := FindSlot(pid);
      if i == pcbCount {
        assert RemoveStep(Snapshot(), pid) == Snapshot();
      } else {
        held := Some((pcbTable[i].ram, pcbTable[i].hdd));
        ShiftDown(i);
        RebuildQueues();
        RebuildAgrees(Snapshot());
      }
    }

    method SetProcessPriority(pid: int, priority: int) returns (success: bool)
      requires Valid()
      modifies this, pcbTable, queueQ0, queueQ0.data, queueQ1, queueQ1.data, queueQ2, queueQ2.data
      ensures Valid()
      ensures Snapshot() == SetPriorityStep(old(Snapshot()), pid, priority)
      ensures success <==> exists p :: p in old(pcbTable[..pcbCount]) && p.pid == pid
    {
      success := false;
      var i := FindSlot(pid);
      if i < pcbCount {
        var p := if priority < 0 then 0 else priority;
        p := if p > 10 then 10 else p;
        assert pcbTable[i] in pcbTable[..pcbCount];
        StorePcb(i, pcbTable[i].(priority := p));
        success := true;
      }
    }

    /** Overwrites one PCB without touching its level. */
    method StorePcb(i: nat, p: Process)
      requires Valid() && i < pcbCount && p.level == pcbTable[i].level
      modifies pcbTable
      ensures Valid()
      ensures var k := old(Snapshot()); Snapshot() == k.(table := k.table[i := p])
    {
      SetKeepsAgree(Snapshot(), i, p);
      ghost var t := pcbTable[..pcbCount];
      pcbTable[i] := p;
      assert pcbTable[..pcbCount] == t[i := p];
    }

    // ---------- scheduler ----------

    method DispatchProcess(slot: nat)
      requires Valid() && slot < pcbCount
      modifies pcbTable
      ensures Valid()
      ensures Snapshot() == Dispatch(old(Snapshot()), slot)
    {
      var target := totalCores - freeCores;
      if target < 0 { target := 0; }
      if target >= totalCores { target := totalCores - 1; }
      StorePcb(slot, pcbTable[slot].(state := Running, core := target));
    }

    ghost predicate InUse(q: KernelQueue)
      reads this, pcbTable, queueQ0, queueQ0.data, queueQ1, queueQ1.data, queueQ2, queueQ2.data
    {
      && q in {queueQ0, queueQ1, queueQ2}
      && Valid()
      && InTable(q.Contents(), pcbCount)
    }

    lemma QueuesInUse()
      requires Valid()
      ensures InUse(queueQ0) && InUse(queueQ1) && InUse(queueQ2)
    {
      EntriesInTable(Snapshot());
    }

    method FindReady(q: KernelQueue) returns (i: nat)
      requires q.Valid() && pcbCount <= pcbTable.Length && InTable(q.Contents(), pcbCount)
      ensures i == FirstReady(pcbTable[..pcbCount], q.Contents())
    {
      ghost var t, entries := pcbTable[..pcbCount], q.Contents();
      var n := q.Size();
      i := 0;
      while i < n
        invariant i <= n
        invariant forall j :: 0 <= j < i ==> !ReadySlot(t, entries[j])
      {
        var s := q.Get(i);
        LettersDecide(pcbTable[s.value].state);
        if pcbTable[s.value].state.Letter(0) == 'R' && pcbTable[s.value].state.Letter(1) == 'E' {
          assert ReadySlot(t, entries[i]);
          return;
        }
        i := i + 1;
      }
    }

    /** The sort of Q0 by priority: it compares neighbours and never swaps them. */
    method SortQ0()
      requires Valid()
    {
      QueuesInUse();
      var n: int := queueQ0.Size();
      var i := 0;
      while i < n - 1 {
        var j := 0;
        while j < n - i - 1
          invariant 0 <= j && 0 <= i
        {
          var a := queueQ0.Get(j);
          var b := queueQ0.Get(j + 1);
          if pcbTable[a.value].priority > pcbTable[b.value].priority {
          }
          j := j + 1;
        }
        i := i + 1;
      }
    }

    /** Dispatches the first READY entry of a queue, if there is one. */
    method DispatchFrom(q: KernelQueue) returns (dispatched: bool)
      requires Valid() && (q == queueQ0 || q == queueQ2)
      modifies pcbTable
      ensures Valid()
      ensures dispatched <==> HasReady(old(Snapshot()).table, old(q.Contents()))
      ensures Snapshot() == DispatchFirst(old(Snapshot()), old(q.Contents()))
    {
      QueuesInUse();
      var n := q.Size();
      var i := FindReady(q);
      dispatched := i < n;
      if dispatched {
        var p := q.Get(i);
        DispatchProcess(p.value);
      }
    }

    /** The same for Q1, which then pops whatever is at the front and pushes the entry. */
    method DispatchFromQ1() returns (dispatched: bool)
      requires Valid()
      modifies pcbTable, queueQ1, queueQ1.data
      ensures Valid()
      ensures dispatched <==> HasReady(old(Snapshot()).table, old(Snapshot()).q1)
      ensures Snapshot() == DispatchAndRotate(old(Snapshot()))
    {
      QueuesInUse();
      var n := queueQ1.Size();
      var i := FindReady(queueQ1);
      dispatched := i < n;
      if dispatched {
        var p := queueQ1.Get(i);
        DispatchProcess(p.value);
        Rotate(i, p.value);
      }
    }

    method Rotate(ghost i: nat, slot: nat)
      requires Valid() && i < |queueQ1.Contents()| && queueQ1.Contents()[i] == slot
      modifies queueQ1, queueQ1.data
      ensures Valid()
      ensures var k := old(Snapshot()); Snapshot() == k.(q1 := k.q1[1..] + [slot])
    {
      ghost var k := Snapshot();
      var front := queueQ1.Pop();
      var stored := queueQ1.Push(slot);
      assert stored by {
        SlotsAtExact(k.table, Interactive);
      }
      RotationAgrees(k, i);
    }

    /** One turn of the scheduler loop under the table lock. */
    method SchedulerTick() returns (dispatched: bool)
      requires Valid()
      modifies pcbTable, queueQ1, queueQ1.data
      ensures Valid()
      ensures Snapshot() == SchedulerStep(old(Snapshot()))
      ensures dispatched <==> !NoneReady(old(Snapshot()))
    {
      ghost var k := Snapshot();
      SchedulerByQueues(k);
      SortQ0();
      dispatched := DispatchFrom(queueQ0);
      if !dispatched {
        dispatched := DispatchFromQ1();
      }
      if !dispatched {
        dispatched := DispatchFrom(queueQ2);
      }
    }

    /** One tick of the aging loop under the table lock. */
    method AgingTick()
      requires Valid()
      modifies this, pcbTable, queueQ0, queueQ0.data, queueQ1, queueQ1.data, queueQ2, queueQ2.data
      ensures Valid()
      ensures Snapshot() == AgingStep(old(Snapshot()))
    {
      QueuesInUse();
      AgingAgrees(Snapshot());
      var changed := AgePcbs();
      if changed {
        RemoveFrom(queueQ0, -1);
        RemoveFrom(queueQ1, -1);
        RemoveFrom(queueQ2, -1);
        RebuildQueues();
      }
    }

    /** The removal of a PID from one queue, before a rebuild that does not depend on it. */
    method RemoveFrom(q: KernelQueue, pid: int)
      requires Shape() && (q == queueQ0 || q == queueQ1 || q == queueQ2)
      requires InTable(q.Contents(), pcbTable.Length)
      modifies q, q.data
      ensures Shape()
    {
      q.Remove(pid, pcbTable);
    }

    /** Ages every PCB in place and reports whether any changed level. */
    method AgePcbs() returns (changed: bool)
      requires Shape()
      modifies pcbTable
      ensures Shape()
      ensures var k := old(Snapshot()); Snapshot() == k.(table := AgeTable(k.table))
      ensures changed <==> Promotes(old(Snapshot()).table)
    {
      ghost var t := pcbTable[..pcbCount];
      changed := false;
      for i := 0 to pcbCount
        invariant forall x :: 0 <= x < i ==> pcbTable[x] == Age(t[x])
        invariant forall x :: i <= x < pcbCount ==> pcbTable[x] == t[x]
        invariant changed <==> exists x :: 0 <= x < i && Age(t[x]).level != t[x].level
      {
        var moved := AgeSlot(i);
        changed := changed || moved;
      }
      assert pcbTable[..pcbCount] == AgeTable(t);
    }

    method AgeSlot(i: nat) returns (moved: bool)
      requires i < pcbTable.Length
      modifies pcbTable
      ensures pcbTable[i] == Age(old(pcbTable[i]))
      ensures forall x :: 0 <= x < pcbTable.Length && x != i ==> pcbTable[x] == old(pcbTable[x])
      ensures moved <==> pcbTable[i].level != old(pcbTable[i]).level
    {
      moved := false;
      LettersDecide(pcbTable[i].state);
      if pcbTable[i].state.Letter(0) == 'R' && pcbTable[i].level != System {
        pcbTable[i] := pcbTable[i].(waitTime := pcbTable[i].waitTime + 1);
        if pcbTable[i].waitTime % AGING_INTERVAL == 0 {
          if pcbTable[i].priority > 0 {
            pcbTable[i] := pcbTable[i].(priority := pcbTable[i].priority - 1);
          }
          if pcbTable[i].priority <= PROMOTE_THRESHOLD && pcbTable[i].level == Background {
            pcbTable[i] := pcbTable[i].(level := Interactive);
            moved := true;
          } else if pcbTable[i].priority == 0 && pcbTable[i].level == Interactive {
            pcbTable[i] := pcbTable[i].(level := System);
            moved := true;
          }
        }
      }
    }

    // ---------- interrupts and foreground control ----------

    method ReleaseCore()
      modifies this`freeCores
      ensures freeCores == old(freeCores) + 1
    {
      freeCores := freeCores + 1;
    }

    method Park(i: nat, s: RunState)
      requires Valid() && i < pcbCount
      modifies pcbTable, this`freeCores
      ensures Valid()
      ensures Snapshot() == ParkStep(old(Snapshot()), i, s)
    {
      var p := pcbTable[i].(state := s);
      if p.core >= 0 {
        StorePcb(i, p.(core := -1));
        ReleaseCore();
      } else {
        StorePcb(i, p);
      }
    }

    method FindRunningSlot(pid: int) returns (i: nat)
      requires Shape()
      ensures i == FindRunning(pcbTable[..pcbCount], pid)
    {
      i := 0;
      while i < pcbCount
        invariant i <= pcbCount
        invariant forall j :: 0 <= j < i ==> !(pcbTable[j].pid == pid && pcbTable[j].state.Running?)
      {
        LettersDecide(pcbTable[i].state);
        if pcbTable[i].pid == pid && pcbTable[i].state.Letter(0) == 'R' && pcbTable[i].state.Letter(1) == 'U' {
          return;
        }
        i := i + 1;
      }
    }

    method FindBlockedSlot(pid: int) returns (i: nat)
      requires Shape()
      ensures i == FindBlocked(pcbTable[..pcbCount], pid)
    {
      i := 0;
      while i < pcbCount
        invariant i <= pcbCount
        invariant forall j :: 0 <= j < i ==> !(pcbTable[j].pid == pid && pcbTable[j].state.Blocked?)
      {
        LettersDecide(pcbTable[i].state);
        if pcbTable[i].pid == pid && pcbTable[i].state.Letter(0) == 'B' {
          return;
        }
        i := i + 1;
      }
    }

    method SendInterrupt(pid: int)
      requires Valid()
      modifies pcbTable, this`freeCores
      ensures Valid()
      ensures Snapshot() == InterruptStep(old(Snapshot()), pid)
    {
      var i := FindRunningSlot(pid);
      if i < pcbCount {
        Park(i, Blocked);
      }
    }

    method UnblockAfterDelay(pid: int)
      requires Valid()
      modifies pcbTable
      ensures Valid()
      ensures Snapshot() == UnblockStep(old(Snapshot()), pid)
    {
      var i := FindBlockedSlot(pid);
      if i < pcbCount {
        StorePcb(i, pcbTable[i].(state := Ready));
      }
    }

    method SendMinimize(pid: int)
      requires Valid()
      modifies this, pcbTable, queueQ0, queueQ0.data, queueQ1, queueQ1.data, queueQ2, queueQ2.data
      ensures Valid()
      ensures Snapshot() == MinimizeStep(old(Snapshot()), pid)
    {
      var i := FindSlot(pid);
      if i < pcbCount {
        Park(i, Minimized);
      }
    }

    method SendResume(pid: int)
      requires Valid()
      modifies this, pcbTable, queueQ0, queueQ0.data, queueQ1, queueQ1.data, queueQ2, queueQ2.data
      ensures Valid()
      ensures Snapshot() == ResumeStep(old(Snapshot()), pid)
    {
      var i := FindSlot(pid);
      if i < pcbCount {
        StorePcb(i, pcbTable[i].(state := Running));
      }
    }
  }
}
