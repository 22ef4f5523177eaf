/** The fixed-capacity ring buffer behind each scheduling queue. Entries are slots of the process
    table: the slot number stands for the pointer to that table element. */
module RingQueue {
  import opened KernelTypes

  /** The buffer index of the entry i places behind the front. */
  function RingIndex(front: nat, i: nat, capacity: nat): (r: nat)
    requires front < capacity && i <= capacity
    ensures r < capacity
  {
    if front + i < capacity then front + i else front + i - capacity
  }

  lemma TimesAtLeast(q: int, k: int, c: nat)
    ensures q >= k ==> q * c >= k * c
  {
    assert q * c == k * c + (q - k) * c;
  }

  /** The remainder is what a quotient leaves. */
  lemma RemainderOf(q: int, c: nat, r: nat)
    requires r < c
    ensures (q * c + r) % c == r
  {
    var x := q * c + r;
    var q', r' := x / c, x % c;
    assert x == q' * c + r';
    assert (q + 1) * c == q * c + c && (q' + 1) * c == q' * c + c;
    TimesAtLeast(q', q + 1, c);
    TimesAtLeast(q, q' + 1, c);
    assert q' == q;
  }

  /** It is the index the code computes with the remainder operator. */
  lemma RingIndexIsRemainder(front: nat, i: nat, capacity: nat)
    requires front < capacity && i <= capacity
    ensures (front + i) % capacity == RingIndex(front, i, capacity)
  {
    var q := if front + i < capacity then 0 else 1;
    RemainderOf(q, capacity, RingIndex(front, i, capacity));
    assert q * capacity == if q == 0 then 0 else capacity;
  }

  /** The n entries of ring d that start at index front, wrapping at the end of the buffer. */
  function Ring(d: seq<nat>, front: nat, n: nat): (r: seq<nat>)
    requires front < |d| && n <= |d|
    ensures |r| == n
  {
    seq(n, i requires 0 <= i < n => d[RingIndex(front, i, |d|)])
  }

  /** Writing at the rear and growing by one appends, wherever the ring wraps. */
  lemma RingPush(d: seq<nat>, front: nat, n: nat, x: nat)
    requires front < |d| && n < |d|
    ensures Ring(d[RingIndex(front, n, |d|) := x], front, n + 1) == Ring(d, front, n) + [x]
  {
    forall i | 0 <= i < n
      ensures RingIndex(front, i, |d|) != RingIndex(front, n, |d|)
    {
    }
  }

  /** Advancing the front and shrinking by one drops the head. */
  lemma RingPop(d: seq<nat>, front: nat, n: nat)
    requires front < |d| && 0 < n <= |d|
    ensures Ring(d, front, n)[0] == d[front]
    ensures Ring(d, RingIndex(front, 1, |d|), n - 1) == Ring(d, front, n)[1..]
  {
    forall i | 0 <= i < n - 1
      ensures RingIndex(RingIndex(front, 1, |d|), i, |d|) == RingIndex(front, i + 1, |d|)
    {
    }
  }

  ghost predicate InTable(q: seq<nat>, size: nat) {
    forall i :: 0 <= i < |q| ==> q[i] < size
  }

  /** The entries of q whose process does not carry the given PID, in order. */
  function WithoutPid(q: seq<nat>, table: seq<Process>, pid: int): seq<nat>
    requires InTable(q, |table|)
  {
    if |q| == 0 then []
    else
      WithoutPid(q[..|q| - 1], table, pid) +
      if table[q[|q| - 1]].pid != pid then [q[|q| - 1]] else []
  }

  /** The filter keeps no entry with the PID, loses no other, and is no longer than its input. */
  lemma {:induction false} WithoutPidFilters(q: seq<nat>, table: seq<Process>, pid: int)
    requires InTable(q, |table|)
    ensures forall s :: s in WithoutPid(q, table, pid) <==> s in q && table[s].pid != pid
    ensures |WithoutPid(q, table, pid)| <= |q|
  {
    if |q| != 0 {
      WithoutPidFilters(q[..|q| - 1], table, pid);
      assert q == q[..|q| - 1] + [q[|q| - 1]];
    }
  }

  /** The filter goes through a queue entry by entry: it works on the two parts of a queue alone and
      keeps their order, keeps or drops a single entry by its PID, and gives a queue without the PID
      back unchanged. */
  lemma {:induction false} WithoutPidConcat(a: seq<nat>, b: seq<nat>, table: seq<Process>, pid: int)
    requires InTable(a, |table|) && InTable(b, |table|)
    ensures InTable(a + b, |table|)
    ensures WithoutPid(a + b, table, pid) == WithoutPid(a, table, pid) + WithoutPid(b, table, pid)
    decreases |b|
  {
    if |b| == 0 {
      assert a + b == a;
    } else {
      var c := b[..|b| - 1];
      assert (a + b)[..|a + b| - 1] == a + c;
      WithoutPidConcat(a, c, table, pid);
    }
  }

  lemma WithoutPidOne(x: nat, table: seq<Process>, pid: int)
    requires x < |table|
    ensures WithoutPid([x], table, pid) == if table[x].pid == pid then [] else [x]
  {
    assert [x][..0] == [];
  }

  lemma {:induction false} WithoutPidUnchanged(q: seq<nat>, table: seq<Process>, pid: int)
    requires InTable(q, |table|)
    requires forall i :: 0 <= i < |q| ==> table[q[i]].pid != pid
    ensures WithoutPid(q, table, pid) == q
  {
    if |q| != 0 {
      assert q == q[..|q| - 1] + [q[|q| - 1]];
      WithoutPidUnchanged(q[..|q| - 1], table, pid);
    }
  }

  class KernelQueue {
    const data: array<nat>
    var front: nat
    var rear: nat
    var count: nat

    ghost predicate Valid()
      reads this
    {
      && 0 < data.Length
      && front < data.Length
      && count <= data.Length
      && rear == RingIndex(front, count, data.Length)
    }

    /** The queue as a sequence, head first. */
    ghost function Contents(): (q: seq<nat>)
      requires Valid()
      reads this, data
      ensures |q| == count
    {
      Ring(data[..], front, count)
    }

    constructor (capacity: nat)
      requires 0 < capacity
      ensures Valid() && fresh(data) && data.Length == capacity && Contents() == []
    {
      data := new nat[capacity];
      front, rear, count := 0, 0, 0;
    }

    method Push(slot: nat) returns (ok: bool)
      requires Valid()
      modifies this, data
      ensures Valid()
      ensures ok == (|old(Contents())| < data.Length)
      ensures Contents() == if ok then old(Contents()) + [slot] else old(Contents())
    {
      if count >= data.Length {
        return false;
      }
      RingPush(data[..], front, count, slot);
      ghost var before := data[..];
      data[rear] := slot;
      assert data[..] == before[rear := slot];
      RingIndexIsRemainder(rear, 1, data.Length);
      rear := (rear + 1) % data.Length;
      count := count + 1;
      return true;
    }

    method Pop() returns (r: Option<nat>)
      requires Valid()
      modifies this
      ensures Valid()
      ensures old(Contents()) == [] ==> r == None && Contents() == []
      ensures old(Contents()) != [] ==>
                r == Some(old(Contents())[0]) && Contents() == old(Contents())[1..]
    {
      if count == 0 {
        return None;
      }
      RingPop(data[..], front, count);
      RingIndexIsRemainder(front, 1, data.Length);
      r := Some(data[front]);
      front := (front + 1) % data.Length;
      count := count - 1;
    }

    method Size() returns (n: nat)
      requires Valid()
      ensures n == |Contents()|
    {
      n := count;
    }

    method Get(index: int) returns (r: Option<nat>)
      requires Valid()
      ensures r == if 0 <= index < |Contents()| then Some(Contents()[index]) else None
    {
      if index < 0 || index >= count {
        return None;
      }
      RingIndexIsRemainder(front, index, data.Length);
      r := Some(data[(front + index) % data.Length]);
    }

    /** The idiom of popping until nothing comes back. */
    method Drain()
      requires Valid()
      modifies this
      ensures Valid() && Contents() == []
    {
      var r := Pop();
      while r.Some?
        invariant Valid()
        invariant r == None ==> Contents() == []
        decreases r.Some?, count
      {
        r := Pop();
      }
    }

    /** Pops every entry and keeps those of other processes, in order. */
    method PopOthers(pid: int, table: array<Process>, temp: array<nat>) returns (kept: nat)
      requires Valid() && temp.Length == data.Length && temp != data
      requires InTable(Contents(), table.Length)
      modifies this, temp
      ensures Valid() && Contents() == [] && kept <= temp.Length
      ensures temp[..kept] == WithoutPid(old(Contents()), table[..], pid)
    {
      ghost var q := Contents();
      var total := count;
      kept := 0;
      for i := 0 to total
        invariant Valid() && total == |q|
        invariant Contents() == q[i..]
        invariant kept <= i
        invariant temp[..kept] == WithoutPid(q[..i], table[..], pid)
      {
        assert q[i..][1..] == q[i + 1..];
        assert q[..i + 1][..i] == q[..i];
        var p := Pop();
        if table[p.value].pid != pid {
          temp[kept] := p.value;
          kept := kept + 1;
        }
      }
      assert q[..total] == q;
    }

    method PushAll(temp: array<nat>, n: nat)
      requires Valid() && Contents() == [] && n <= temp.Length == data.Length && temp != data
      modifies this, data
      ensures Valid() && Contents() == temp[..n]
    {
      for i := 0 to n
        invariant Valid() && Contents() == temp[..i]
      {
        var ok := Push(temp[i]);
        assert temp[..i + 1] == temp[..i] + [temp[i]];
      }
    }

    /** Drops every entry of a PID; the others keep their order. */
    method Remove(pid: int, table: array<Process>)
      requires Valid()
      requires InTable(Contents(), table.Length)
      modifies this, data
      ensures Valid()
      ensures Contents() == WithoutPid(old(Contents()), table[..], pid)
    {
      var temp := new nat[data.Length];
      var kept := PopOthers(pid, table, temp);
      PushAll(temp, kept);
    }
  }
}
