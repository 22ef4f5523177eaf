/** The deadlock detector: recursive depth-first search over an adjacency matrix with visited and
    on-stack marks, and the wait-for graph it builds from the process table. */
module DeadlockDetector {
  import opened KernelTypes
  import opened Graphs

  /** The edges detection draws. Node i below capacity is table slot i; the three nodes from
      capacity on stand for RAM, HDD and the cores. A BLOCKED process points at resources, a
      resource points at RUNNING processes. */
  predicate Waits(table: seq<Process>, capacity: nat, u: nat, v: nat) {
    && u < |table| && table[u].state.Blocked?
    && (|| (v == capacity && table[u].ram > 0)
        || (v == capacity + 1 && table[u].hdd > 0)
        || (v == capacity + 2 && table[u].core < 0))
  }

  predicate Serves(table: seq<Process>, capacity: nat, u: nat, v: nat) {
    && v < |table| && table[v].state.Running?
    && (|| (u == capacity && table[v].ram > 0)
        || (u == capacity + 1 && table[v].hdd > 0)
        || (u == capacity + 2 && table[v].core >= 0))
  }

  function AllocationGraph(table: seq<Process>, capacity: nat): (g: Graph)
    ensures forall u: nat, v: nat :: (u, v) in g <==>
              u < capacity + 3 && v < capacity + 3
              && (Waits(table, capacity, u, v) || Serves(table, capacity, u, v))
  {
    set u: nat, v: nat | u < capacity + 3 && v < capacity + 3
                         && (Waits(table, capacity, u, v) || Serves(table, capacity, u, v)) :: (u, v)
  }

  /** The graph, edge by edge: a resource node points at exactly the RUNNING slots that hold the
      resource, exactly the BLOCKED slots that hold some, or for cores hold none, point at the resource
      node, and nothing else is connected. */
  lemma GraphEdges(table: seq<Process>, capacity: nat)
    requires |table| <= capacity
    ensures var g := AllocationGraph(table, capacity);
            && (forall v: nat :: v < |table| ==>
                  && ((capacity, v) in g <==> table[v].state.Running? && table[v].ram > 0)
                  && ((capacity + 1, v) in g <==> table[v].state.Running? && table[v].hdd > 0)
                  && ((capacity + 2, v) in g <==> table[v].state.Running? && table[v].core >= 0))
            && (forall u: nat :: u < |table| ==>
                  && ((u, capacity) in g <==> table[u].state.Blocked? && table[u].ram > 0)
                  && ((u, capacity + 1) in g <==> table[u].state.Blocked? && table[u].hdd > 0)
                  && ((u, capacity + 2) in g <==> table[u].state.Blocked? && table[u].core < 0))
            && (forall u: nat, v: nat :: (u, v) in g ==>
                  || (capacity <= u < capacity + 3 && v < |table|)
                  || (u < |table| && capacity <= v < capacity + 3))
  {
  }

  predicate LeadsThrough(g: Graph, u: nat, r: nat, v: nat) {
    (u, r) in g && (r, v) in g
  }

  /** Two edges lead from one process to another exactly when the first is BLOCKED, the second is
      RUNNING, and they meet on RAM, on HDD, or on a core that the one has not and the other has. */
  lemma WaitsForIff(table: seq<Process>, capacity: nat, u: nat, v: nat)
    requires |table| <= capacity && u < |table| && v < |table|
    ensures var g, p, q := AllocationGraph(table, capacity), table[u], table[v];
            (exists r: nat :: LeadsThrough(g, u, r, v)) <==>
              && p.state.Blocked? && q.state.Running?
              && ((p.ram > 0 && q.ram > 0) || (p.hdd > 0 && q.hdd > 0) || (p.core < 0 && q.core >= 0))
  {
    var g, p, q := AllocationGraph(table, capacity), table[u], table[v];
    GraphEdges(table, capacity);
    if r: nat :| LeadsThrough(g, u, r, v) {
      assert r == capacity || r == capacity + 1 || r == capacity + 2;
    }
    if p.state.Blocked? && q.state.Running? {
      if p.ram > 0 && q.ram > 0 { assert LeadsThrough(g, u, capacity, v); }
      if p.hdd > 0 && q.hdd > 0 { assert LeadsThrough(g, u, capacity + 1, v); }
      if p.core < 0 && q.core >= 0 { assert LeadsThrough(g, u, capacity + 2, v); }
    }
  }

  /** BLOCKED process above resource above everything else. */
  function Layer(table: seq<Process>, capacity: nat): nat -> nat {
    (x: nat) => if x < |table| && table[x].state.Blocked? then 2 else if x >= capacity then 1 else 0
  }

  /** Whatever the table holds, the graph drawn from it is layered and so has no cycle. */
  lemma AllocationGraphHasNoCycle(table: seq<Process>, capacity: nat)
    requires |table| <= capacity
    ensures !HasCycle(AllocationGraph(table, capacity))
  {
    RankedHasNoCycle(AllocationGraph(table, capacity), Layer(table, capacity));
  }

  /** The record of a search from u, reached along path: read backwards it is a walk from u, and its
      first entry, where the walk ends, is on the path or in the record again. */
  ghost predicate LeadsBack(g: Graph, c: seq<nat>, u: nat, path: seq<nat>) {
    && |c| >= 2 && c[|c| - 1] == u
    && IsWalk(g, Reverse(c))
    && (c[0] in path || c[0] in c[1..])
  }

  /** One more node at the end of the record extends the backward walk by one edge. */
  lemma ExtendRecord(g: Graph, c: seq<nat>, u: nat, v: nat, path: seq<nat>)
    requires LeadsBack(g, c, v, path + [u]) && (u, v) in g
    ensures LeadsBack(g, c + [u], u, path)
  {
    var r, s := Reverse(c), Reverse(c + [u]);
    assert s == [u] + r;
    forall i {:trigger s[i]} | 0 <= i < |s| - 1
      ensures (s[i], s[i + 1]) in g
    {
      if i > 0 {
        assert (r[i - 1], r[i]) in g;
      }
    }
    assert (c + [u])[1..] == c[1..] + [u];
  }

  lemma FinishNode(g: Graph, order: seq<nat>, u: nat)
    requires FinishOrder(g, order)
    requires forall v: nat :: (u, v) in g ==> v in order
    ensures FinishOrder(g, order + [u])
  {
    var o := order + [u];
    forall i, v: nat | 0 <= i < |o| && (o[i], v) in g
      ensures v in o[..i]
    {
      assert o[..i] == order[..i];
    }
  }

  /** The marks say: path is the stack, a walk of distinct nodes; order holds the finished nodes,
      each after all its successors; a node is visited when it is in one of the two. */
  ghost predicate Marked(g: Graph, n: nat, visited: seq<bool>, stack: seq<bool>, path: seq<nat>, order: seq<nat>) {
    && |visited| == n && |stack| == n
    && (forall x :: 0 <= x < |path| ==> path[x] < n)
    && (forall x: nat :: x < n ==> (stack[x] <==> x in path))
    && (forall x: nat :: x < n ==> (visited[x] <==> x in path || x in order))
    && (forall x: nat :: x in path ==> x !in order)
    && Distinct(path)
    && IsWalk(g, path)
    && FinishOrder(g, order)
  }

  /** Marking a new node visited and on the stack lengthens the path by it. */
  lemma EnterNode(g: Graph, n: nat, visited: seq<bool>, stack: seq<bool>, path: seq<nat>, order: seq<nat>, u: nat)
    requires Marked(g, n, visited, stack, path, order) && u < n && !visited[u]
    requires IsWalk(g, path + [u])
    ensures Marked(g, n, visited[u := true], stack[u := true], path + [u], order)
    ensures |path| + 1 <= n
  {
    Pigeonhole(path + [u], n);
  }

  /** Taking a node whose successors are all finished off the stack finishes it. */
  lemma LeaveNode(g: Graph, n: nat, visited: seq<bool>, stack: seq<bool>, path: seq<nat>, order: seq<nat>, u: nat)
    requires Marked(g, n, visited, stack, path + [u], order) && u < n
    requires forall v: nat :: (u, v) in g ==> v in order
    ensures Marked(g, n, visited, stack[u := false], path, order + [u])
  {
    var here := path + [u];
    assert here[|path|] == u;
    assert forall x :: 0 <= x < |path| ==> here[x] == path[x];
    assert u !in path;
    forall i {:trigger path[i]} | 0 <= i < |path| - 1
      ensures (path[i], path[i + 1]) in g
    {
      assert (here[i], here[i + 1]) in g;
    }
    FinishNode(g, order, u);
  }

  class Detector {
    const size: nat
    const adj: array2<bool>
    const visited: array<bool>
    const stack: array<bool>
    const cycle: array<nat>
    var cycleLen: nat

    ghost predicate Valid()
      reads this
    {
      && adj.Length0 == size && adj.Length1 == size
      && visited.Length == size && stack.Length == size
      && visited != stack
      && cycle.Length == size + 1
      && cycleLen <= cycle.Length
    }

    /** The recorded nodes get one place more than there are nodes: a search can fill them all. */
    constructor (n: nat)
      ensures Valid() && size == n
      ensures fresh(adj) && fresh(visited) && fresh(stack) && fresh(cycle)
    {
      size := n;
      adj := new bool[n, n]((i, j) => false);
      visited := new bool[n](i => false);
      stack := new bool[n](i => false);
      cycle := new nat[n + 1];
      cycleLen := 0;
    }

    ghost function Edges(): (g: Graph)
      requires Valid()
      reads this, adj
      ensures forall u: nat, v: nat :: (u, v) in g <==> u < size && v < size && adj[u, v]
    {
      set u: nat, v: nat | u < size && v < size && adj[u, v] :: (u, v)
    }

    ghost function Unvisited(): set<nat>
      requires Valid()
      reads this, visited
    {
      set x: nat | x < size && !visited[x]
    }

    ghost predicate Marks(path: seq<nat>, order: seq<nat>)
      requires Valid()
      reads this, adj, visited, stack
    {
      Marked(Edges(), size, visited[..], stack[..], path, order)
    }

    ghost function Recorded(): (c: seq<nat>)
      requires Valid()
      reads this, cycle
    {
      cycle[..cycleLen]
    }

    method Enter(u: nat, ghost path: seq<nat>, ghost order: seq<nat>)
      requires Valid() && u < size && !visited[u]
      requires Marks(path, order) && IsWalk(Edges(), path + [u])
      modifies visited, stack
      ensures Marks(path + [u], order) && |path| + 1 <= size
      ensures Unvisited() < old(Unvisited())
    {
      ghost var vis, st, before := visited[..], stack[..], Unvisited();
      EnterNode(Edges(), size, vis, st, path, order, u);
      visited[u] := true;
      stack[u] := true;
      assert visited[..] == vis[u := true] && stack[..] == st[u := true];
      assert u in before && u !in Unvisited();
    }

    method Leave(u: nat, ghost path: seq<nat>, ghost done: seq<nat>)
      requires Valid() && u < size && Marks(path + [u], done)
      requires forall v: nat :: (u, v) in Edges() ==> v in done
      modifies stack
      ensures Marks(path, done + [u])
    {
      ghost var st := stack[..];
      LeaveNode(Edges(), size, visited[..], st, path, done, u);
      stack[u] := false;
      assert stack[..] == st[u := false];
    }

    /** Searches from node u, reached along path. Without a cycle u ends up finished; with one the
        recorded nodes lead from u to a node met before. */
    method Dfs(u: nat, ghost path: seq<nat>, ghost order: seq<nat>)
      returns (found: bool, ghost done: seq<nat>)
      requires Valid() && u < size && !visited[u] && cycleLen == 0
      requires Marks(path, order) && IsWalk(Edges(), path + [u])
      modifies visited, stack, cycle, this`cycleLen
      ensures Valid()
      ensures !found ==> cycleLen == 0 && Marks(path, done) && order <= done && u in done
      ensures found ==> |Recorded()| <= size + 1 - |path| && LeadsBack(Edges(), Recorded(), u, path)
      decreases Unvisited()
    {
      ghost var g := Edges();
      ghost var here := path + [u];
      ghost var before := Unvisited();
      Enter(u, path, order);
      done := order;
      for v := 0 to size
        invariant Valid() && cycleLen == 0
        invariant Edges() == g
        invariant Marks(here, done) && order <= done
        invariant forall w: nat :: w < v && (u, w) in g ==> w in done
        invariant Unvisited() < before
      {
        if adj[u, v] {
          if !visited[v] {
            found, done := Dfs(v, here, done);
            if found {
              RecordCaller(g, u, v, path);
              return;
            }
          } else if stack[v] {
            RecordBackEdge(u, v, path);
            found := true;
            return;
          }
        }
      }
      Leave(u, path, done);
      done := done + [u];
      found := false;
    }

    method RecordBackEdge(u: nat, v: nat, ghost path: seq<nat>)
      requires Valid() && cycleLen == 0 && size >= 1 && (u, v) in Edges() && v in path + [u]
      modifies cycle, this`cycleLen
      ensures Valid() && |Recorded()| == 2 && LeadsBack(Edges(), Recorded(), u, path)
    {
      cycle[cycleLen] := v;
      cycleLen := cycleLen + 1;
      cycle[cycleLen] := u;
      cycleLen := cycleLen + 1;
      assert Recorded() == [v, u];
    }

    method RecordCaller(ghost g: Graph, u: nat, ghost v: nat, ghost path: seq<nat>)
      requires Valid() && cycleLen < cycle.Length && (u, v) in g
      requires LeadsBack(g, Recorded(), v, path + [u])
      modifies cycle, this`cycleLen
      ensures Valid() && |Recorded()| == |old(Recorded())| + 1 && LeadsBack(g, Recorded(), u, path)
    {
      ghost var c := Recorded();
      ExtendRecord(g, c, u, v, path);
      cycle[cycleLen] := u;
      cycleLen := cycleLen + 1;
      assert Recorded() == c + [u];
    }

    /** The outer loop, on cleared marks: it reports a cycle exactly when the matrix has one, and
        then the record is a witness of it. */
    method Search() returns (found: bool)
      requires Valid() && cycleLen == 0
      requires forall x: nat :: x < size ==> !visited[x] && !stack[x]
      modifies visited, stack, cycle, this`cycleLen
      ensures Valid()
      ensures found <==> HasCycle(Edges())
      ensures found ==> IsWitness(Edges(), Recorded())
      ensures !found ==> cycleLen == 0
    {
      ghost var g := Edges();
      ghost var order: seq<nat> := [];
      for i := 0 to size
        invariant Valid() && cycleLen == 0
        invariant Edges() == g
        invariant Marks([], order)
        invariant forall x: nat :: x < i ==> x in order
      {
        if !visited[i] {
          found, order := Dfs(i, [], order);
          if found {
            assert Edges() == g;
            ghost var j := WitnessCloses(g, Recorded());
            return;
          }
        }
      }
      found := false;
      FinishOrderExcludesCycles(g, order);
    }

    method ClearAll()
      requires Valid()
      modifies adj, visited, stack, this`cycleLen
      ensures Valid() && cycleLen == 0
      ensures forall i: nat, j: nat :: i < size && j < size ==> !adj[i, j]
      ensures forall x: nat :: x < size ==> !visited[x] && !stack[x]
    {
      for i := 0 to size
        invariant forall x: nat, y: nat :: x < i && y < size ==> !adj[x, y]
        invariant forall x: nat :: x < i ==> !visited[x] && !stack[x]
      {
        for j := 0 to size
          invariant forall x: nat, y: nat :: x < i && y < size ==> !adj[x, y]
          invariant forall y: nat :: y < j ==> !adj[i, y]
          invariant forall x: nat :: x < i ==> !visited[x] && !stack[x]
        {
          adj[i, j] := false;
        }
        visited[i] := false;
        stack[i] := false;
      }
      cycleLen := 0;
    }

    /** Draws the edges of the first count PCBs into a cleared matrix. */
    method BuildGraph(table: array<Process>, count: nat)
      requires Valid() && count <= table.Length && size == table.Length + 3
      requires forall i: nat, j: nat :: i < size && j < size ==> !adj[i, j]
      modifies adj
      ensures Valid()
      ensures Edges() == AllocationGraph(table[..count], table.Length)
    {
      var cap := table.Length;
      for i := 0 to count
        invariant forall u: nat, v: nat :: u < size && v < size ==>
                    (adj[u, v] <==> Waits(table[..i], cap, u, v) || Serves(table[..i], cap, u, v))
      {
        LettersDecide(table[i].state);
        if table[i].state.Letter(0) == 'B' {
          if table[i].ram > 0 { adj[i, cap] := true; }
          if table[i].hdd > 0 { adj[i, cap + 1] := true; }
          if table[i].core < 0 { adj[i, cap + 2] := true; }
        }
        if table[i].state.Letter(0) == 'R' && table[i].state.Letter(1) == 'U' {
          if table[i].ram > 0 { adj[cap, i] := true; }
          if table[i].hdd > 0 { adj[cap + 1, i] := true; }
          if table[i].core >= 0 { adj[cap + 2, i] := true; }
        }
      }
    }

    /** One detection round never reports a deadlock, whatever the table holds, and so never writes
        to the record. */
    method RunDetection(table: array<Process>, count: nat) returns (reported: bool)
      requires Valid() && count <= table.Length && size == table.Length + 3
      modifies adj, visited, stack, cycle, this`cycleLen
      ensures Valid()
      ensures reported <==> HasCycle(AllocationGraph(table[..count], table.Length))
      ensures !reported && cycleLen == 0
    {
      ClearAll();
      BuildGraph(table, count);
      AllocationGraphHasNoCycle(table[..count], table.Length);
      reported := Search();
    }
  }
}
