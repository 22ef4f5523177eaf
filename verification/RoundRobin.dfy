/** Q1 as a round robin: with its entries READY it is served in order, and a full round leaves it as it
    was. */
module RoundRobin {
  import opened KernelTypes
  import opened KernelSpec
  import opened Scheduling

  predicate NoneReadyIn(k: KernelState, q: seq<nat>) {
    forall i :: 0 <= i < |q| ==> !ReadySlot(k.table, q[i])
  }

  predicate DistinctEntries(q: seq<nat>) {
    forall i, j :: 0 <= i < j < |q| ==> q[i] != q[j]
  }

  /** Q0 has nobody to dispatch, and the first n entries of Q1, all distinct, are READY. */
  predicate Served(k: KernelState, n: nat) {
    && NoneReadyIn(k, k.q0) && DistinctEntries(k.q1) && n <= |k.q1|
    && forall i :: 0 <= i < n ==> ReadySlot(k.table, k.q1[i])
  }

  /** The entry at the front of Q1 has been dispatched and stands at the end. */
  predicate Turned(k: KernelState, k': KernelState) {
    && |k.q1| > 0 && k.q1[0] < |k.table|
    && k'.q0 == k.q0 && k'.q1 == k.q1[1..] + [k.q1[0]] && k'.q2 == k.q2
    && |k'.table| == |k.table|
    && forall x :: 0 <= x < |k.table| ==>
         k'.table[x].state == if x == k.q1[0] then Running else k.table[x].state
  }

  lemma OneTurn(k: KernelState)
    requires NoneReadyIn(k, k.q0) && |k.q1| > 0 && ReadySlot(k.table, k.q1[0])
    ensures Picked(k) == Some(k.q1[0]) && Turned(k, SchedulerStep(k))
  {
    assert FirstReady(k.table, k.q0) == |k.q0|;
    assert FirstReady(k.table, k.q1) == 0;
  }

  lemma TurnKeepsServed(k: KernelState, k': KernelState, n: nat)
    requires Served(k, n) && n > 0 && Turned(k, k')
    ensures Served(k', n - 1)
  {
  }

  /** The first n entries of Q1 have been served: they stand behind the others in the order they had,
      and exactly their processes have become RUNNING. */
  predicate RoundDone(k: KernelState, k': KernelState, n: nat) {
    && n <= |k.q1|
    && k'.q0 == k.q0 && k'.q1 == k.q1[n..] + k.q1[..n] && k'.q2 == k.q2
    && |k'.table| == |k.table|
    && forall x :: 0 <= x < |k.table| ==>
         k'.table[x].state == if x in k.q1[..n] then Running else k.table[x].state
  }

  lemma TurnedPrefix(q: seq<nat>, n: nat)
    requires 0 < n <= |q|
    ensures var r := q[1..] + [q[0]];
            r[n - 1..] + r[..n - 1] == q[n..] + q[..n] && [q[0]] + r[..n - 1] == q[..n]
  {
  }

  lemma RoundCons(k: KernelState, k1: KernelState, k': KernelState, n: nat)
    requires 0 < n <= |k.q1| && Turned(k, k1) && RoundDone(k1, k', n - 1)
    ensures RoundDone(k, k', n)
  {
    TurnedPrefix(k.q1, n);
  }

  lemma {:induction false} RoundServes(k: KernelState, n: nat)
    requires Served(k, n)
    ensures RoundDone(k, Ticks(k, n), n)
    decreases n
  {
    if n != 0 {
      var k1 := SchedulerStep(k);
      OneTurn(k);
      TurnKeepsServed(k, k1, n);
      RoundServes(k1, n - 1);
      RoundCons(k, k1, Ticks(k1, n - 1), n);
    }
  }

  lemma SecondIsNext(k: KernelState, k': KernelState, i: nat)
    requires Turned(k, k') && 0 < i < |k.q1|
    ensures i - 1 < |k'.q1| && k'.q1[i - 1] == k.q1[i]
  {
  }

  lemma {:induction false} RoundPicks(k: KernelState, n: nat, i: nat)
    requires Served(k, n) && i < n
    ensures Picked(Ticks(k, i)) == Some(k.q1[i])
    decreases i
  {
    OneTurn(k);
    if i != 0 {
      var k1 := SchedulerStep(k);
      TurnKeepsServed(k, k1, n);
      SecondIsNext(k, k1, i);
      RoundPicks(k1, n - 1, i - 1);
    }
  }

  /** So n ticks do, and the i-th of them dispatches the i-th entry. */
  lemma RoundServesInOrder(k: KernelState, n: nat)
    requires Served(k, n)
    ensures RoundDone(k, Ticks(k, n), n)
    ensures forall i :: 0 <= i < n ==> Picked(Ticks(k, i)) == Some(k.q1[i])
  {
    RoundServes(k, n);
    forall i | 0 <= i < n
      ensures Picked(Ticks(k, i)) == Some(k.q1[i])
    {
      RoundPicks(k, n, i);
    }
  }

  /** A full round gives every process of Q1 its turn, in order, and leaves the queue as it was. */
  lemma FullRound(k: KernelState)
    requires Served(k, |k.q1|)
    ensures Ticks(k, |k.q1|).q1 == k.q1
    ensures forall i :: 0 <= i < |k.q1| ==> Picked(Ticks(k, i)) == Some(k.q1[i])
  {
    RoundServesInOrder(k, |k.q1|);
  }
}
