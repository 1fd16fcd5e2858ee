/**
 The depends-on graph of one tenant, read from `capability_dependencies`
 (capmesh/dependency_graph.py).  A row says that `cap` depends on `dep`.
 The definitions of walks and cycles here mention neither algorithm; both
 algorithms are proved against them for every list of rows.
 */
module DependencyGraph {
  import opened Text

  datatype Edge = Edge(cap: string, dep: string)

  function Nodes(rows: seq<Edge>): set<string>
  {
    (set e | e in rows :: e.cap) + (set e | e in rows :: e.dep)
  }

  /** Step `i` of the path follows an edge. */
  ghost predicate Hop(rows: seq<Edge>, p: seq<string>, i: nat)
    requires i + 1 < |p|
  {
    Edge(p[i], p[i + 1]) in rows
  }

  ghost predicate Walk(rows: seq<Edge>, p: seq<string>)
  {
    |p| >= 1 && forall i :: 0 <= i < |p| - 1 ==> Hop(rows, p, i)
  }

  ghost predicate ClosedWalk(rows: seq<Edge>, p: seq<string>)
  {
    |p| >= 2 && Walk(rows, p) && p[0] == p[|p| - 1]
  }

  /** A closed walk in which only the two ends coincide. */
  ghost predicate SimpleCycle(rows: seq<Edge>, p: seq<string>)
  {
    ClosedWalk(rows, p) && NoDuplicates(p[..|p| - 1])
  }

  ghost predicate Acyclic(rows: seq<Edge>)
  {
    forall p :: !ClosedWalk(rows, p)
  }

  /** `n` transitively depends on a member of a cycle: some walk from `n` ends where a closed walk starts. */
  ghost predicate DependsOnCycle(rows: seq<Edge>, n: string)
  {
    exists p, c :: Walk(rows, p) && p[0] == n && ClosedWalk(rows, c) && p[|p| - 1] == c[0]
  }

  /** Every dependency of a listed capability is listed before it. */
  ghost predicate DependenciesFirst(rows: seq<Edge>, order: seq<string>)
  {
    forall i, d :: 0 <= i < |order| && Edge(order[i], d) in rows ==> d in order[..i]
  }

  // ---- what a dependencies-first order rules out ----

  lemma {:induction false} WalkDescends(rows: seq<Edge>, order: seq<string>, p: seq<string>, k: nat, j: nat)
    requires DependenciesFirst(rows, order) && Walk(rows, p)
    requires k < |order| && p[0] == order[k] && j < |p|
    ensures p[j] in order[..k + 1]
    ensures j > 0 ==> p[j] in order[..k]
  {
    if j > 0 {
      WalkDescends(rows, order, p, k, j - 1);
      var i :| 0 <= i < k + 1 && order[i] == p[j - 1];
      assert Hop(rows, p, j - 1);
      assert p[j] in order[..i];
    }
  }

  lemma {:induction false} OrderedNotOnCycle(rows: seq<Edge>, order: seq<string>, n: string)
    requires DependenciesFirst(rows, order) && NoDuplicates(order) && n in order
    ensures !DependsOnCycle(rows, n)
  {
    forall p, c | Walk(rows, p) && p[0] == n && ClosedWalk(rows, c)
      ensures p[|p| - 1] != c[0]
    {
      var k :| 0 <= k < |order| && order[k] == n;
      WalkDescends(rows, order, p, k, |p| - 1);
      if p[|p| - 1] == c[0] {
        var m :| 0 <= m < |order| && order[m] == c[0];
        WalkDescends(rows, order, c, m, |c| - 1);
      }
    }
  }

  /** No node depends on a cycle exactly when there is no cycle. */
  lemma {:induction false} AcyclicIffNoneDepends(rows: seq<Edge>)
    ensures Acyclic(rows) <==> forall n :: n in Nodes(rows) ==> !DependsOnCycle(rows, n)
  {
    if !Acyclic(rows) {
      var c :| ClosedWalk(rows, c);
      assert Hop(rows, c, 0);
      assert c[0] in Nodes(rows);
      assert Walk(rows, [c[0]]);
      assert DependsOnCycle(rows, c[0]);
    }
  }

  lemma {:induction false} AppendOrdered(rows: seq<Edge>, order: seq<string>, node: string)
    requires DependenciesFirst(rows, order)
    requires forall d :: Edge(node, d) in rows ==> d in order
    ensures DependenciesFirst(rows, order + [node])
  {
    var longer := order + [node];
    forall i, d | 0 <= i < |longer| && Edge(longer[i], d) in rows ensures d in longer[..i] {
      if i < |order| {
        assert longer[..i] == order[..i];
      } else {
        assert longer[..i] == order;
      }
    }
  }

  // ---- which cycles are reported ----

  /** The edge at which a cycle was noticed. */
  function LastHop(c: seq<string>): Edge
    requires |c| >= 2
  {
    Edge(c[|c| - 2], c[|c| - 1])
  }

  /** How many of the reported cycles close with edge `e`. */
  ghost function HopCount(cycles: seq<seq<string>>, e: Edge): nat
  {
    if cycles == [] then 0
    else
      var c := cycles[|cycles| - 1];
      HopCount(cycles[..|cycles| - 1], e) + if |c| >= 2 && LastHop(c) == e then 1 else 0
  }

  lemma HopCountAppend(cycles: seq<seq<string>>, c: seq<string>, e: Edge)
    requires |c| >= 2
    ensures HopCount(cycles + [c], e) == HopCount(cycles, e) + if LastHop(c) == e then 1 else 0
  {
    assert (cycles + [c])[..|cycles|] == cycles;
  }

  lemma {:induction false} HopReported(cycles: seq<seq<string>>, e: Edge) returns (k: nat)
    requires HopCount(cycles, e) > 0
    ensures k < |cycles| && |cycles[k]| >= 2 && LastHop(cycles[k]) == e
  {
    var front, c := cycles[..|cycles| - 1], cycles[|cycles| - 1];
    if |c| >= 2 && LastHop(c) == e {
      k := |cycles| - 1;
    } else {
      k := HopReported(front, e);
    }
  }

  /**
   In the order `order` of all dependents, an edge to something later or equal is
   reported once per row, an edge to something earlier never.
   */
  ghost predicate ReportsBackEdges(rows: seq<Edge>, order: seq<string>, cycles: seq<seq<string>>)
  {
    && NoDuplicates(order)
    && (forall e :: e in rows ==> e.cap in order)
    && Tallied(rows, order, cycles)
  }

  ghost predicate Tallied(rows: seq<Edge>, order: seq<string>, cycles: seq<seq<string>>)
  {
    forall i, d :: 0 <= i < |order| ==>
      HopCount(cycles, Edge(order[i], d)) == if d in order[..i] then 0 else multiset(rows)[Edge(order[i], d)]
  }

  /** The rows at whose edge no cycle was reported. */
  ghost function Unreported(rows: seq<Edge>, cycles: seq<seq<string>>): (r: seq<Edge>)
    ensures forall e :: e in r <==> e in rows && HopCount(cycles, e) == 0
  {
    if rows == [] then []
    else
      assert rows == [rows[0]] + rows[1..];
      (if HopCount(cycles, rows[0]) == 0 then [rows[0]] else []) + Unreported(rows[1..], cycles)
  }

  /** What is left when every reported edge is cut has no cycle. */
  lemma CutsAllCycles(rows: seq<Edge>, order: seq<string>, cycles: seq<seq<string>>)
    requires ReportsBackEdges(rows, order, cycles)
    ensures Acyclic(Unreported(rows, cycles))
  {
    var rest := Unreported(rows, cycles);
    forall i, d | 0 <= i < |order| && Edge(order[i], d) in rest ensures d in order[..i] {
      assert multiset(rows)[Edge(order[i], d)] > 0;
    }
    FinishedAcyclic(rest, order);
  }

  lemma UnreportedWalk(rows: seq<Edge>, cycles: seq<seq<string>>, p: seq<string>)
    requires ClosedWalk(rows, p) && forall j :: 0 <= j < |p| - 1 ==> HopCount(cycles, Edge(p[j], p[j + 1])) == 0
    ensures ClosedWalk(Unreported(rows, cycles), p)
  {
    forall j | 0 <= j < |p| - 1 ensures Hop(Unreported(rows, cycles), p, j) {
      assert Hop(rows, p, j);
    }
  }

  /** Every closed walk runs along the last edge of some reported cycle. */
  lemma EveryCycleReported(rows: seq<Edge>, cycles: seq<seq<string>>, p: seq<string>) returns (i: nat, k: nat)
    requires Acyclic(Unreported(rows, cycles)) && ClosedWalk(rows, p)
    ensures i + 1 < |p| && k < |cycles| && |cycles[k]| >= 2 && LastHop(cycles[k]) == Edge(p[i], p[i + 1])
  {
    if forall j :: 0 <= j < |p| - 1 ==> HopCount(cycles, Edge(p[j], p[j + 1])) == 0 {
      UnreportedWalk(rows, cycles, p);
    }
    i :| 0 <= i < |p| - 1 && HopCount(cycles, Edge(p[i], p[i + 1])) > 0;
    k := HopReported(cycles, Edge(p[i], p[i + 1]));
  }

  lemma {:induction false} FinishedAcyclic(rows: seq<Edge>, finished: seq<string>)
    requires DependenciesFirst(rows, finished) && NoDuplicates(finished) && forall e :: e in rows ==> e.cap in finished
    ensures Acyclic(rows)
  {
    forall p ensures !ClosedWalk(rows, p) {
      if ClosedWalk(rows, p) {
        assert Hop(rows, p, 0);
        var here := [p[0]];
        assert Walk(rows, here) && here[|here| - 1] == p[0];
        assert DependsOnCycle(rows, p[0]);
        OrderedNotOnCycle(rows, finished, p[0]);
      }
    }
  }

  // ---- detect_cycles ----

  function DependenciesOf(rows: seq<Edge>, c: string): (r: seq<string>)
    ensures forall d :: d in r <==> Edge(c, d) in rows
  {
    if rows == [] then []
    else
      var rest := DependenciesOf(rows[1..], c);
      assert rows == [rows[0]] + rows[1..];
      if rows[0].cap == c then [rows[0].dep] + rest else rest
  }

  lemma {:induction false} DependenciesOfAppend(rows: seq<Edge>, e: Edge, c: string)
    ensures DependenciesOf(rows + [e], c) == DependenciesOf(rows, c) + (if e.cap == c then [e.dep] else [])
  {
    if rows == [] {
      assert rows + [e] == [e];
    } else {
      assert (rows + [e])[1..] == rows[1..] + [e];
      DependenciesOfAppend(rows[1..], e, c);
    }
  }

  ghost predicate IsAdjacency(rows: seq<Edge>, graph: map<string, seq<string>>, keys: seq<string>)
  {
    && (forall c :: c in keys <==> c in graph)
    && (forall c :: c in graph <==> DependenciesOf(rows, c) != [])
    && NoDuplicates(keys)
    && forall c :: c in graph ==> graph[c] == DependenciesOf(rows, c)
  }

  lemma {:induction false} AdjacencyAppend(rows: seq<Edge>, e: Edge, graph: map<string, seq<string>>, keys: seq<string>)
    requires IsAdjacency(rows, graph, keys)
    ensures e.cap !in graph ==> IsAdjacency(rows + [e], graph[e.cap := [e.dep]], keys + [e.cap])
    ensures e.cap in graph ==> IsAdjacency(rows + [e], graph[e.cap := graph[e.cap] + [e.dep]], keys)
  {
    if e.cap in graph {
      AdjacencyKnown(rows, e, graph, keys);
    } else {
      AdjacencyNew(rows, e, graph, keys);
    }
  }

  lemma AdjacencyKnown(rows: seq<Edge>, e: Edge, graph: map<string, seq<string>>, keys: seq<string>)
    requires IsAdjacency(rows, graph, keys) && e.cap in graph
    ensures IsAdjacency(rows + [e], graph[e.cap := graph[e.cap] + [e.dep]], keys)
  {
    forall c ensures DependenciesOf(rows + [e], c) == DependenciesOf(rows, c) + (if e.cap == c then [e.dep] else []) {
      DependenciesOfAppend(rows, e, c);
    }
  }

  lemma AdjacencyNew(rows: seq<Edge>, e: Edge, graph: map<string, seq<string>>, keys: seq<string>)
    requires IsAdjacency(rows, graph, keys) && e.cap !in graph
    ensures IsAdjacency(rows + [e], graph[e.cap := [e.dep]], keys + [e.cap])
  {
    forall c ensures DependenciesOf(rows + [e], c) == DependenciesOf(rows, c) + (if e.cap == c then [e.dep] else []) {
      DependenciesOfAppend(rows, e, c);
    }
    assert e.cap !in keys;
  }

  function Dependents(rows: seq<Edge>): seq<string>
  {
    seq(|rows|, i requires 0 <= i < |rows| => rows[i].cap)
  }

  lemma DependentsAppended(rows: seq<Edge>, e: Edge)
    ensures FirstSeen(Dependents(rows + [e])) ==
      var seen := FirstSeen(Dependents(rows));
      if e.cap in seen then seen else seen + [e.cap]
  {
    assert Dependents(rows + [e]) == Dependents(rows) + [e.cap];
    FirstSeenAppend(Dependents(rows), e.cap);
  }

  /** The `defaultdict(list)` of `detect_cycles`: adjacency lists in row order, keys in insertion order. */
  method BuildAdjacency(rows: seq<Edge>) returns (graph: map<string, seq<string>>, keys: seq<string>)
    ensures IsAdjacency(rows, graph, keys) && keys == FirstSeen(Dependents(rows))
  {
    graph, keys := map[], [];
    var rest := rows;
    ghost var done: seq<Edge> := [];
    while rest != []
      invariant done + rest == rows
      invariant IsAdjacency(done, graph, keys)
      invariant keys == FirstSeen(Dependents(done))
      decreases |rest|
    {
      graph, keys := AddRow(done, rest[0], graph, keys);
      NextRow(done, rest);
      done, rest := done + [rest[0]], rest[1..];
    }
    assert done == rows;
  }

  /** `graph[cap].append(dep)` on a `defaultdict(list)`. */
  method AddRow(ghost done: seq<Edge>, e: Edge, graph: map<string, seq<string>>, keys: seq<string>)
    returns (graph': map<string, seq<string>>, keys': seq<string>)
    requires IsAdjacency(done, graph, keys) && keys == FirstSeen(Dependents(done))
    ensures IsAdjacency(done + [e], graph', keys')
    ensures keys' == FirstSeen(Dependents(done + [e]))
  {
    DependentsAppended(done, e);
    AdjacencyAppend(done, e, graph, keys);
    if e.cap !in graph {
      graph', keys' := graph[e.cap := [e.dep]], keys + [e.cap];
    } else {
      graph', keys' := graph[e.cap := graph[e.cap] + [e.dep]], keys;
    }
  }

  lemma NextRow(done: seq<Edge>, rest: seq<Edge>)
    requires rest != []
    ensures done + rest == (done + [rest[0]]) + rest[1..]
  {
  }

  /** `list.index`: the first position of `x`. */
  method IndexOf(s: seq<string>, x: string) returns (k: nat)
    requires x in s
    ensures k < |s| && s[k] == x && x !in s[..k]
  {
    k := 0;
    while s[k] != x
      invariant k < |s| && x !in s[..k]
      decreases |s| - k
    {
      k := k + 1;
    }
  }

  /** What the closure variables of the nested `dfs` satisfy; `finished` lists the calls in the order they returned. */
  ghost predicate DfsState(rows: seq<Edge>, visited: set<string>, recStack: set<string>, path: seq<string>,
                           cycles: seq<seq<string>>, finished: seq<string>)
  {
    OnPath(rows, recStack, path) && Returned(rows, visited, recStack, cycles, finished)
  }

  /** The calls under way: a walk without repetition. */
  ghost predicate OnPath(rows: seq<Edge>, recStack: set<string>, path: seq<string>)
  {
    NoDuplicates(path) && (path != [] ==> Walk(rows, path)) && (forall x :: x in recStack <==> x in path)
  }

  /** The calls that returned, and the cycles reported. */
  ghost predicate Returned(rows: seq<Edge>, visited: set<string>, recStack: set<string>, cycles: seq<seq<string>>, finished: seq<string>)
  {
    && recStack <= visited
    && NoDuplicates(finished)
    && (forall x :: x in finished <==> x in visited && x !in recStack)
    && (forall i :: 0 <= i < |cycles| ==> SimpleCycle(rows, cycles[i]))
  }

  lemma {:induction false} EnterNode(rows: seq<Edge>, visited: set<string>, recStack: set<string>, path: seq<string>,
                  cycles: seq<seq<string>>, finished: seq<string>, node: string)
    requires DfsState(rows, visited, recStack, path, cycles, finished)
    requires node !in visited
    requires path != [] ==> Edge(path[|path| - 1], node) in rows
    ensures DfsState(rows, visited + {node}, recStack + {node}, path + [node], cycles, finished)
  {
    var longer := path + [node];
    forall i | 0 <= i < |longer| - 1 ensures Hop(rows, longer, i) {
      if i + 1 < |path| {
        assert Hop(rows, path, i);
      }
    }
  }

  lemma {:induction false} CycleFromPath(rows: seq<Edge>, path: seq<string>, start: nat, neighbor: string)
    requires Walk(rows, path) && NoDuplicates(path)
    requires start < |path| && path[start] == neighbor && Edge(path[|path| - 1], neighbor) in rows
    ensures SimpleCycle(rows, path[start..] + [neighbor])
  {
    var c := path[start..] + [neighbor];
    forall i | 0 <= i < |c| - 1 ensures Hop(rows, c, i) {
      if i + 1 < |path| - start {
        assert Hop(rows, path, start + i);
      }
    }
    assert c[..|c| - 1] == path[start..];
  }

  lemma {:induction false} ReportCycle(rows: seq<Edge>, visited: set<string>, recStack: set<string>, path: seq<string>,
                    cycles: seq<seq<string>>, finished: seq<string>, start: nat, neighbor: string)
    requires DfsState(rows, visited, recStack, path, cycles, finished)
    requires start < |path| && path[start] == neighbor && Edge(path[|path| - 1], neighbor) in rows
    ensures DfsState(rows, visited, recStack, path, cycles + [path[start..] + [neighbor]], finished)
  {
    CycleFromPath(rows, path, start, neighbor);
  }

  lemma {:induction false} LeaveNode(rows: seq<Edge>, visited: set<string>, recStack: set<string>, path: seq<string>,
                  cycles: seq<seq<string>>, finished: seq<string>, node: string)
    requires node !in path && node !in recStack
    requires DfsState(rows, visited, recStack + {node}, path + [node], cycles, finished)
    ensures DfsState(rows, visited, recStack, path, cycles, finished + [node])
    ensures (path + [node])[..|path|] == path && recStack + {node} - {node} == recStack
  {
    var longer := path + [node];
    forall i, j | 0 <= i < j < |path| ensures path[i] != path[j] {
      assert longer[i] != longer[j];
    }
    forall i | 0 <= i < |path| - 1 ensures Hop(rows, path, i) {
      assert Hop(rows, longer, i);
    }
    assert node in longer;
  }

  // ---- counting the reports ----

  /** Nothing is reported yet at an edge of an unvisited node. */
  ghost predicate Untouched(visited: set<string>, cycles: seq<seq<string>>)
  {
    forall e: Edge :: e.cap !in visited ==> HopCount(cycles, e) == 0
  }

  /** The node under way has reported once for each neighbor so far that is on the stack. */
  ghost predicate NodeTally(cycles: seq<seq<string>>, node: string, done: seq<string>, recStack: set<string>)
  {
    forall d :: HopCount(cycles, Edge(node, d)) == if d in recStack then multiset(done)[d] else 0
  }

  ghost predicate SameCounts(before: seq<seq<string>>, after: seq<seq<string>>, nodes: set<string>)
  {
    forall e: Edge :: e.cap in nodes ==> HopCount(after, e) == HopCount(before, e)
  }

  lemma TallyUnchanged(cycles: seq<seq<string>>, cycles': seq<seq<string>>, node: string, done: seq<string>, d: string, recStack: set<string>)
    requires NodeTally(cycles, node, done, recStack) && SameCounts(cycles, cycles', {node}) && d !in recStack
    ensures NodeTally(cycles', node, done + [d], recStack)
  {
  }

  lemma TallyReported(cycles: seq<seq<string>>, c: seq<string>, node: string, done: seq<string>, d: string, recStack: set<string>)
    requires NodeTally(cycles, node, done, recStack) && d in recStack && |c| >= 2 && LastHop(c) == Edge(node, d)
    ensures NodeTally(cycles + [c], node, done + [d], recStack)
  {
    forall x ensures HopCount(cycles + [c], Edge(node, x)) == if x in recStack then multiset(done + [d])[x] else 0 {
      HopCountAppend(cycles, c, Edge(node, x));
    }
  }

  /** Reporting at an edge of `node` changes no other node's counts. */
  lemma ReportElsewhere(cycles: seq<seq<string>>, c: seq<string>, node: string, others: set<string>)
    requires |c| >= 2 && LastHop(c).cap == node && node !in others
    ensures SameCounts(cycles, cycles + [c], others)
  {
    forall e: Edge | e.cap in others ensures HopCount(cycles + [c], e) == HopCount(cycles, e) {
      HopCountAppend(cycles, c, e);
    }
  }

  lemma TalliedUnchanged(rows: seq<Edge>, order: seq<string>, cycles: seq<seq<string>>, cycles': seq<seq<string>>)
    requires Tallied(rows, order, cycles) && SameCounts(cycles, cycles', Elements(order))
    ensures Tallied(rows, order, cycles')
  {
    forall i, d | 0 <= i < |order|
      ensures HopCount(cycles', Edge(order[i], d)) == if d in order[..i] then 0 else multiset(rows)[Edge(order[i], d)]
    {
      assert order[i] in Elements(order);
    }
  }

  lemma UntouchedReported(visited: set<string>, cycles: seq<seq<string>>, c: seq<string>)
    requires Untouched(visited, cycles) && |c| >= 2 && LastHop(c).cap in visited
    ensures Untouched(visited, cycles + [c])
  {
    forall e: Edge | e.cap !in visited ensures HopCount(cycles + [c], e) == 0 {
      HopCountAppend(cycles, c, e);
    }
  }

  lemma {:induction false} DependencyCount(rows: seq<Edge>, c: string, d: string)
    ensures multiset(DependenciesOf(rows, c))[d] == multiset(rows)[Edge(c, d)]
  {
    if rows != [] {
      DependencyCount(rows[1..], c, d);
      assert rows == [rows[0]] + rows[1..];
    }
  }

  /** A node returns with its edges tallied: those to finished nodes never reported, the others once per row. */
  lemma LeaveTallied(rows: seq<Edge>, visited: set<string>, recStack: set<string>, cycles: seq<seq<string>>, finished: seq<string>, node: string)
    requires Tallied(rows, finished, cycles) && NodeTally(cycles, node, DependenciesOf(rows, node), recStack)
    requires forall x :: x in finished <==> x in visited && x !in recStack
    requires forall d :: d in DependenciesOf(rows, node) ==> d in visited
    ensures Tallied(rows, finished + [node], cycles)
  {
    var longer := finished + [node];
    forall i, d | 0 <= i < |longer|
      ensures HopCount(cycles, Edge(longer[i], d)) == if d in longer[..i] then 0 else multiset(rows)[Edge(longer[i], d)]
    {
      if i < |finished| {
        assert longer[..i] == finished[..i];
        assert HopCount(cycles, Edge(finished[i], d)) == if d in finished[..i] then 0 else multiset(rows)[Edge(finished[i], d)];
      } else {
        assert longer[..i] == finished;
        DependencyCount(rows, node, d);
      }
    }
  }

  ghost predicate Adjacent(rows: seq<Edge>, graph: map<string, seq<string>>)
  {
    && (forall e :: e in rows ==> e.cap in graph)
    && (forall c :: c in graph ==> graph[c] == DependenciesOf(rows, c))
  }

  lemma {:induction false} NeighborsAreDependencies(rows: seq<Edge>, graph: map<string, seq<string>>, node: string, neighbors: seq<string>)
    requires Adjacent(rows, graph)
    requires neighbors == if node in graph then graph[node] else []
    ensures neighbors == DependenciesOf(rows, node)
  {
    if node !in graph && DependenciesOf(rows, node) != [] {
      assert DependenciesOf(rows, node)[0] in DependenciesOf(rows, node);
    }
  }

  lemma EnterTally(visited: set<string>, recStack: set<string>, cycles: seq<seq<string>>, node: string)
    requires Untouched(visited, cycles) && node !in visited
    ensures NodeTally(cycles, node, [], recStack) && Untouched(visited + {node}, cycles)
  {
  }

  /** The nested `dfs` with its closure variables as fields. */
  class CycleFinder {
    const rows: seq<Edge>
    const graph: map<string, seq<string>>
    ghost const nodes: set<string>
    var visited: set<string>
    var recStack: set<string>
    var path: seq<string>
    var cycles: seq<seq<string>>
    ghost var finished: seq<string>

    ghost predicate Valid()
      reads this
    {
      && Adjacent(rows, graph)
      && (forall e :: e in rows ==> e.dep in nodes)
      && visited <= nodes
      && DfsState(rows, visited, recStack, path, cycles, finished)
      && Tallied(rows, finished, cycles) && Untouched(visited, cycles)
    }

    constructor (rows: seq<Edge>, graph: map<string, seq<string>>)
      requires Adjacent(rows, graph)
      ensures Valid() && this.rows == rows && this.graph == graph && nodes == Nodes(rows)
      ensures path == [] && cycles == [] && visited == {}
    {
      this.rows, this.graph, nodes := rows, graph, Nodes(rows);
      visited, recStack, path, cycles, finished := {}, {}, [], [], [];
    }

    method Dfs(node: string)
      requires Valid() && node in nodes && node !in visited
      requires path != [] ==> Edge(path[|path| - 1], node) in rows
      modifies this
      ensures Valid()
      ensures path == old(path) && recStack == old(recStack)
      ensures node in visited && old(visited) <= visited
      ensures old(cycles) <= cycles && SameCounts(old(cycles), cycles, old(visited))
      decreases nodes - visited, 0
    {
      EnterNode(rows, visited, recStack, path, cycles, finished, node);
      EnterTally(visited, recStack + {node}, cycles, node);
      visited := visited + {node};
      recStack := recStack + {node};
      path := path + [node];
      var neighbors := if node in graph then graph[node] else [];
      NeighborsAreDependencies(rows, graph, node, neighbors);
      Explore(node, neighbors);
      assert old(cycles) <= cycles;
      assert SameCounts(old(cycles), cycles, old(visited)) by {
        assert old(visited) + {node} - {node} == old(visited);
      }
      ghost var stack := recStack;
      path := path[..|path| - 1];
      recStack := recStack - {node};
      assert path == old(path) && recStack == old(recStack) && stack == recStack + {node};
      LeaveNode(rows, visited, recStack, path, cycles, finished, node);
      LeaveTallied(rows, visited, stack, cycles, finished, node);
      finished := finished + [node];
    }

    /** The loop of `dfs` over the neighbors of the node on top of `path`: a report for each one that is on the stack. */
    method Explore(node: string, neighbors: seq<string>)
      requires Valid() && path != [] && path[|path| - 1] == node
      requires forall d :: d in neighbors ==> Edge(node, d) in rows
      requires NodeTally(cycles, node, [], recStack)
      modifies this
      ensures Valid()
      ensures path == old(path) && recStack == old(recStack)
      ensures old(visited) <= visited && forall d :: d in neighbors ==> d in visited
      ensures old(cycles) <= cycles && SameCounts(old(cycles), cycles, old(visited) - {node})
      ensures NodeTally(cycles, node, neighbors, recStack)
      decreases nodes - visited, 2
    {
      for i := 0 to |neighbors|
        invariant Valid()
        invariant path == old(path) && recStack == old(recStack)
        invariant old(visited) <= visited && forall d :: d in neighbors[..i] ==> d in visited
        invariant old(cycles) <= cycles && SameCounts(old(cycles), cycles, old(visited) - {node})
        invariant NodeTally(cycles, node, neighbors[..i], recStack)
      {
        assert neighbors[..i + 1] == neighbors[..i] + [neighbors[i]];
        Visit(node, neighbors[i], neighbors[..i]);
      }
      assert neighbors[..|neighbors|] == neighbors;
    }

    /** One neighbor: recurse, report, or pass. */
    method Visit(node: string, neighbor: string, ghost done: seq<string>)
      requires Valid() && path != [] && path[|path| - 1] == node && Edge(node, neighbor) in rows
      requires NodeTally(cycles, node, done, recStack)
      modifies this
      ensures Valid()
      ensures path == old(path) && recStack == old(recStack)
      ensures old(visited) <= visited && neighbor in visited
      ensures old(cycles) <= cycles && SameCounts(old(cycles), cycles, old(visited) - {node})
      ensures NodeTally(cycles, node, done + [neighbor], recStack)
      decreases nodes - visited, 1
    {
      if neighbor !in visited {
        Dfs(neighbor);
        TallyUnchanged(old(cycles), cycles, node, done, neighbor, recStack);
      } else if neighbor in recStack {
        var start := IndexOf(path, neighbor);
        var c := path[start..] + [neighbor];
        ReportCycle(rows, visited, recStack, path, cycles, finished, start, neighbor);
        assert LastHop(c) == Edge(node, neighbor);
        TallyReported(cycles, c, node, done, neighbor, recStack);
        ReportElsewhere(cycles, c, node, Elements(finished));
        ReportElsewhere(cycles, c, node, visited - {node});
        TalliedUnchanged(rows, finished, cycles, cycles + [c]);
        UntouchedReported(visited, cycles, c);
        cycles := cycles + [c];
      } else {
        TallyUnchanged(cycles, cycles, node, done, neighbor, recStack);
      }
    }

    /** The loop of `detect_cycles` over the keys of the graph. */
    method VisitAll(keys: seq<string>)
      requires Valid() && path == [] && forall j :: 0 <= j < |keys| ==> keys[j] in nodes
      modifies this
      ensures Valid() && path == [] && recStack == old(recStack) && old(cycles) <= cycles
      ensures forall j :: 0 <= j < |keys| ==> keys[j] in visited
    {
      for k := 0 to |keys|
        invariant Valid() && path == [] && recStack == old(recStack) && old(cycles) <= cycles
        invariant forall j :: 0 <= j < k ==> keys[j] in visited
      {
        if keys[k] !in visited {
          Dfs(keys[k]);
        }
      }
    }
  }

  /**
   `detect_cycles`: each list is a cycle along edges that repeats no vertex but
   its ends; the lists close exactly at the back edges of one order of the nodes,
   once per row; cutting those edges leaves no cycle, so the result is empty
   exactly when there is none.
   */
  method DetectCycles(rows: seq<Edge>) returns (cycles: seq<seq<string>>)
    ensures cycles == [] <==> Acyclic(rows)
    ensures forall i :: 0 <= i < |cycles| ==> SimpleCycle(rows, cycles[i])
    ensures exists order :: ReportsBackEdges(rows, order, cycles)
    ensures Acyclic(Unreported(rows, cycles))
  {
    var graph, keys := BuildAdjacency(rows);
    KeysAreNodes(rows, graph, keys);
    var finder := new CycleFinder(rows, graph);
    finder.VisitAll(keys);
    cycles := finder.cycles;
    assert ReportsBackEdges(rows, finder.finished, cycles);
    CutsAllCycles(rows, finder.finished, cycles);
    if cycles == [] {
      NothingCut(rows);
    } else {
      assert ClosedWalk(rows, cycles[0]);
    }
  }

  lemma NothingCut(rows: seq<Edge>)
    requires Acyclic(Unreported(rows, []))
    ensures Acyclic(rows)
  {
    forall p | ClosedWalk(rows, p) ensures false {
      var i, k := EveryCycleReported(rows, [], p);
    }
  }

  lemma KeysAreNodes(rows: seq<Edge>, graph: map<string, seq<string>>, keys: seq<string>)
    requires IsAdjacency(rows, graph, keys)
    ensures Adjacent(rows, graph) && (forall e :: e in rows ==> e.cap in keys) && forall j :: 0 <= j < |keys| ==> keys[j] in Nodes(rows)
  {
    forall e | e in rows ensures e.cap in graph {
      assert e.dep in DependenciesOf(rows, e.cap);
    }
    forall j | 0 <= j < |keys| ensures keys[j] in Nodes(rows) {
      assert keys[j] in graph;
      var d := graph[keys[j]][0];
      assert Edge(keys[j], d) in rows;
    }
  }
}
