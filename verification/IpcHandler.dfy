/** One message handled from buffer to reply, without interference: the parse, the grant, the new PCB,
    the reply; or the removal and the reclaim. */
module IpcHandler {
  import opened KernelTypes
  import opened KernelSpec
  import opened KernelMachine
  import opened Agreement
  import opened Accounting
  import opened Sums
  import opened Effects
  import W = Wire
  import C = CText

  /** What a message does to the kernel, the free amounts and the sender. */
  datatype Outcome = Outcome(kernel: KernelState, free: Amount, reply: Option<string>)

  /** The free amounts once a removed PCB's RAM and HDD, if there was one, are back. */
  function GivenBack(free: Amount, held: Option<(int, int)>): Amount {
    match held case None => free case Some((ram, hdd)) => free.Plus(Amount(ram, hdd))
  }

  function Handled(k: KernelState, free: Amount, child: int, m: W.Message, now: int): Outcome {
    match m
    case Request(name, ram, hdd) =>
      var need, level := Amount(ram, hdd), QueueLevel(name);
      if need.AtMost(free) then
        Outcome(CreateStep(k, child, name, level.DefaultPriority(), level, ram, hdd, now),
                free.Minus(need), Some(W.FormatReply(true, child)))
      else Outcome(k, free, Some(W.FormatReply(false, child)))
    case Termination(pid) =>
      Outcome(RemoveStep(k, pid), GivenBack(free, HeldBy(k, pid)), None)
    case Ignored => Outcome(k, free, None)
  }

  /** Free plus what the PCBs hold. */
  function Accounted(k: KernelState, free: Amount): Amount {
    free.Plus(Amount(Sum(k.table, RamOf), Sum(k.table, HddOf)))
  }

  predicate GrantedOnFullTable(k: KernelState, free: Amount, m: W.Message) {
    m.Request? && Amount(m.ram, m.hdd).AtMost(free) && |k.table| >= k.capacity
  }

  lemma RequestConserves(k: KernelState, free: Amount, child: int, m: W.Message, now: int)
    requires |k.table| <= k.capacity && m.Request?
    ensures var o := Handled(k, free, child, m, now);
            Accounted(o.kernel, o.free) ==
            if GrantedOnFullTable(k, free, m) then Accounted(k, free).Minus(Amount(m.ram, m.hdd))
            else Accounted(k, free)
  {
    if Amount(m.ram, m.hdd).AtMost(free) && |k.table| < k.capacity {
      var o := Handled(k, free, child, m, now);
      var p := o.kernel.table[|k.table|];
      assert o.kernel.table == k.table + [p] && p.ram == m.ram && p.hdd == m.hdd;
      TableAppend(k.table, p);
    }
  }

  lemma TerminationConserves(k: KernelState, free: Amount, child: int, pid: int, now: int)
    ensures var o := Handled(k, free, child, W.Termination(pid), now);
            Accounted(o.kernel, o.free) == Accounted(k, free)
  {
    var i := FindPid(k.table, pid);
    if i < |k.table| {
      SumRemove(k.table, i, RamOf);
      SumRemove(k.table, i, HddOf);
    }
  }

  /** A message moves amounts between free and the PCBs and loses none, but for a grant that finds the
      table full: that loses exactly what was asked for. */
  lemma MessageConserves(k: KernelState, free: Amount, child: int, m: W.Message, now: int)
    requires |k.table| <= k.capacity
    ensures var o := Handled(k, free, child, m, now);
            Accounted(o.kernel, o.free) ==
            if GrantedOnFullTable(k, free, m) then Accounted(k, free).Minus(Amount(m.ram, m.hdd))
            else Accounted(k, free)
  {
    match m
    case Request(_, _, _) => RequestConserves(k, free, child, m, now);
    case Termination(pid) => TerminationConserves(k, free, child, pid, now);
    case Ignored =>
  }

  /** A granted request and the termination notice of its PID undo each other: the amounts are free
      again and the table is what it was. */
  lemma RequestThenTermination(k: KernelState, free: Amount, child: int, name: string, ram: int, hdd: int, now: int)
    requires Agree(k) && |k.table| < k.capacity && Amount(ram, hdd).AtMost(free)
    requires forall i :: 0 <= i < |k.table| ==> k.table[i].pid != child
    ensures var o := Handled(k, free, child, W.Request(name, ram, hdd), now);
            var p := Handled(o.kernel, o.free, child, W.Termination(child), now);
            o.reply == Some(W.FormatReply(true, child)) && p.free == free && p.kernel == Rebuild(k)
  {
    var o := Handled(k, free, child, W.Request(name, ram, hdd), now);
    var n := |k.table|;
    assert o.kernel.table[n].pid == child;
    assert FindPid(o.kernel.table, child) == n;
    assert o.kernel.table[..n] + o.kernel.table[n + 1..] == k.table;
  }

  // ---------- from a task's name to its queue ----------

  /** A granted request takes its amounts, answers with the PID, and puts one new PCB behind the others
      and into the queue that the task's name stands for. */
  lemma GrantedByName(k: KernelState, free: Amount, child: int, name: string, ram: int, hdd: int, now: int)
    requires |k.table| < k.capacity && ram <= free.ram && hdd <= free.hdd
    ensures var o := Handled(k, free, child, W.Request(name, ram, hdd), now);
            && o.free == Amount(free.ram - ram, free.hdd - hdd)
            && o.reply == Some("GRANT:" + C.PrintInt(child))
            && PlacedByName(k, o.kernel, child, name, ram, hdd, now)
  {
    CreatedByName(k, child, name, ram, hdd, now);
  }

  /** No listed name is as long as a name that is cut. */
  lemma CutNameIsUnlisted(name: string)
    ensures IsSystemTask(W.Truncated(name)) <==> IsSystemTask(name)
    ensures IsInteractiveTask(W.Truncated(name)) <==> IsInteractiveTask(name)
  {
  }

  /** From the text a task prints to the queue its process stands in: "Clock" and "Log Daemon" in Q0 with
      priority 0, the eleven interactive tasks in Q1 with 3, every other colon-free name in Q2 with 6. */
  lemma PrintedRequestIsPlaced(k: KernelState, free: Amount, child: int, name: string, ram: int, hdd: int, now: int)
    requires ':' !in name
    requires |k.table| < k.capacity && ram <= free.ram && hdd <= free.hdd
    ensures var o := Handled(k, free, child, W.ParseMessage(W.FormatRequest(name, ram, hdd)), now);
            && o.free == Amount(free.ram - ram, free.hdd - hdd)
            && o.reply == Some("GRANT:" + C.PrintInt(child))
            && PlacedByName(k, o.kernel, child, if |name| <= 63 then name else name[..63], ram, hdd, now)
            && LevelIs(o.kernel.table[|k.table|].level, name)
  {
    W.ParsedPlainName(name, ram, hdd);
    GrantedByName(k, free, child, W.Truncated(name), ram, hdd, now);
    CutNameIsUnlisted(name);
  }

  /** A request for more than is free changes nothing and is answered with a denial. */
  lemma PrintedRequestIsDenied(k: KernelState, free: Amount, child: int, name: string, ram: int, hdd: int, now: int)
    requires ':' !in name
    requires !(ram <= free.ram && hdd <= free.hdd)
    ensures Handled(k, free, child, W.ParseMessage(W.FormatRequest(name, ram, hdd)), now)
            == Outcome(k, free, Some("DENY"))
  {
    W.ParsedPlainName(name, ram, hdd);
  }

  lemma FirstOfPid(k: KernelState, pid: int, i: nat)
    requires i < |k.table| && k.table[i].pid == pid && forall j :: 0 <= j < i ==> k.table[j].pid != pid
    ensures HeldBy(k, pid) == Some((k.table[i].ram, k.table[i].hdd))
  {
    var f := FindPid(k.table, pid);
    assert f <= i;
    assert f == i;
  }

  /** A message that is neither request nor notice changes nothing and is not answered. */
  lemma NoMessageNoChange(k: KernelState, free: Amount, child: int, m: string, now: int)
    requires !C.StartsWith(m, "REQ:") && !C.StartsWith(m, "TERM:")
    ensures Handled(k, free, child, W.ParseMessage(m), now) == Outcome(k, free, None)
  {
    W.OtherMessages(m);
  }

  lemma PrintedTermination(k: KernelState, free: Amount, child: int, pid: int, now: int)
    ensures Handled(k, free, child, W.ParseMessage(W.FormatTermination(pid)), now)
            == Outcome(RemoveStep(k, pid), GivenBack(free, HeldBy(k, pid)), None)
  {
    W.TerminationRoundTrip(pid);
  }

  /** A printed termination notice of a PID that no PCB has changes nothing and is not answered. */
  lemma TerminationOfNobody(k: KernelState, free: Amount, child: int, pid: int, now: int)
    requires forall i :: 0 <= i < |k.table| ==> k.table[i].pid != pid
    ensures Handled(k, free, child, W.ParseMessage(W.FormatTermination(pid)), now) == Outcome(k, free, None)
  {
    PrintedTermination(k, free, child, pid, now);
    RemoveNobody(k, pid);
    assert HeldBy(k, pid) == None;
  }

  /** Otherwise the first PCB of the PID is deleted, the queues are refilled by level, and its amounts
      are free again. */
  lemma TerminationOfFirst(k: KernelState, free: Amount, child: int, pid: int, i: nat, now: int)
    requires i < |k.table| && k.table[i].pid == pid && forall j :: 0 <= j < i ==> k.table[j].pid != pid
    ensures var o := Handled(k, free, child, W.ParseMessage(W.FormatTermination(pid)), now);
            && o.reply == None
            && o.kernel.table == k.table[..i] + k.table[i + 1..]
            && (forall l: Level :: o.kernel.Queue(l) == SlotsAt(o.kernel.table, l))
            && o.free == Amount(free.ram + k.table[i].ram, free.hdd + k.table[i].hdd)
  {
    FirstOfPid(k, pid, i);
    assert GivenBack(free, HeldBy(k, pid)) == Amount(free.ram + k.table[i].ram, free.hdd + k.table[i].hdd);
    PrintedTermination(k, free, child, pid, now);
    RemoveEffect(k, pid, i);
  }

  method TerminateProcess(kernel: Kernel, memory: MemoryManager, pid: int)
    requires kernel.Valid()
    modifies kernel, kernel.pcbTable, kernel.queueQ0, kernel.queueQ0.data, kernel.queueQ1, kernel.queueQ1.data
    modifies kernel.queueQ2, kernel.queueQ2.data, memory
    ensures kernel.Valid()
    ensures kernel.Snapshot() == RemoveStep(old(kernel.Snapshot()), pid)
    ensures memory.Free() == GivenBack(old(memory.Free()), HeldBy(old(kernel.Snapshot()), pid))
  {
    var held := kernel.RemovePcb(pid);
    ghost var free := memory.Free();
    if held.Some? {
      memory.ReclaimResources(held.value.0, held.value.1);
    }
    assert memory.Free() == GivenBack(free, held);
  }

  method GrantRequest(kernel: Kernel, memory: MemoryManager, child: int, name: string, ram: int, hdd: int, now: int)
    returns (reply: string)
    requires kernel.Valid()
    modifies kernel, kernel.pcbTable, kernel.queueQ0, kernel.queueQ0.data, kernel.queueQ1, kernel.queueQ1.data
    modifies kernel.queueQ2, kernel.queueQ2.data, memory
    ensures kernel.Valid()
    ensures Outcome(kernel.Snapshot(), memory.Free(), Some(reply)) ==
            Handled(old(kernel.Snapshot()), old(memory.Free()), child, W.Request(name, ram, hdd), now)
  {
    var granted := memory.AllocateResources(ram, hdd);
    if granted {
      var level := QueueLevel(name);
      kernel.CreatePcb(child, name, level.DefaultPriority(), level, ram, hdd, now);
    }
    reply := W.FormatReply(granted, child);
  }

  /** The handler of one message, run alone. */
  method HandleIpcRequest(kernel: Kernel, memory: MemoryManager, buf: array<char>, child: int, now: int)
    returns (reply: Option<string>)
    requires kernel.Valid() && W.Terminated(buf[..])
    modifies kernel, kernel.pcbTable, kernel.queueQ0, kernel.queueQ0.data, kernel.queueQ1, kernel.queueQ1.data
    modifies kernel.queueQ2, kernel.queueQ2.data, memory, buf
    ensures kernel.Valid()
    ensures var m := W.ParseMessage(W.CString(old(buf[..]), 0));
            Outcome(kernel.Snapshot(), memory.Free(), reply) ==
            Handled(old(kernel.Snapshot()), old(memory.Free()), child, m, now)
  {
    reply := None;
    var m := W.HandleMessage(buf);
    match m {
      case Request(name, ram, hdd) =>
        var r := GrantRequest(kernel, memory, child, name, ram, hdd, now);
        reply := Some(r);
      case Termination(pid) => TerminateProcess(kernel, memory, pid);
      case Ignored =>
    }
  }
}
