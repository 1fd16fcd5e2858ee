/**
 `topological_sort` (capmesh/dependency_graph.py): Kahn's algorithm over the
 rows of one tenant.  `KahnRun` is the algorithm as a function of the rows; the
 method below runs it with the source's dictionaries, queue and loops.
 */
module DeploymentOrder {
  import opened Text
  import opened DependencyGraph

  /** Capabilities that depend on `d`, in row order: the source's `graph[d]`. */
  function DependentsOf(rows: seq<Edge>, d: string): (r: seq<string>)
  {
    if rows == [] then []
    else if rows[0].dep == d then [rows[0].cap] + DependentsOf(rows[1..], d)
    else DependentsOf(rows[1..], d)
  }

  /** Number of rows in which `c` depends on something outside `done`. */
  function Pending(rows: seq<Edge>, c: string, done: set<string>): nat
  {
    if rows == [] then 0
    else (if rows[0].cap == c && rows[0].dep !in done then 1 else 0) + Pending(rows[1..], c, done)
  }

  lemma {:induction false} DependentsCount(rows: seq<Edge>, d: string, c: string)
    ensures multiset(DependentsOf(rows, d))[c] == multiset(rows)[Edge(c, d)]
  {
    if rows != [] {
      DependentsCount(rows[1..], d, c);
      assert rows == [rows[0]] + rows[1..];
    }
  }

  lemma {:induction false} DependentsAppend(rows: seq<Edge>, e: Edge, d: string)
    ensures DependentsOf(rows + [e], d) == DependentsOf(rows, d) + (if e.dep == d then [e.cap] else [])
  {
    if rows == [] {
      assert rows + [e] == [e];
    } else {
      assert (rows + [e])[1..] == rows[1..] + [e];
      DependentsAppend(rows[1..], e, d);
    }
  }

  lemma {:induction false} PendingAppend(rows: seq<Edge>, e: Edge, c: string, done: set<string>)
    ensures Pending(rows + [e], c, done) == Pending(rows, c, done) + (if e.cap == c && e.dep !in done then 1 else 0)
  {
    if rows == [] {
      assert rows + [e] == [e];
    } else {
      assert (rows + [e])[1..] == rows[1..] + [e];
      PendingAppend(rows[1..], e, c, done);
    }
  }

  lemma {:induction false} PendingZero(rows: seq<Edge>, c: string, done: set<string>)
    ensures Pending(rows, c, done) == 0 <==> forall d :: Edge(c, d) in rows ==> d in done
  {
    if rows != [] {
      PendingZero(rows[1..], c, done);
      assert rows == [rows[0]] + rows[1..];
    }
  }

  /** Taking `node` off the queue discharges exactly its occurrences as a dependency. */
  lemma {:induction false} PendingDone(rows: seq<Edge>, c: string, done: set<string>, node: string)
    requires node !in done
    ensures Pending(rows, c, done) == Pending(rows, c, done + {node}) + multiset(DependentsOf(rows, node))[c]
  {
    if rows != [] {
      PendingDone(rows[1..], c, done, node);
    }
  }

  // ---- the inner loop ----

  function Decrement(degree: map<string, int>, ns: seq<string>): map<string, int>
    requires forall n :: n in ns ==> n in degree
  {
    if ns == [] then degree else Decrement(degree[ns[0] := degree[ns[0]] - 1], ns[1..])
  }

  /** The nodes the inner loop appends to the queue, in the order it appends them. */
  function Freed(degree: map<string, int>, ns: seq<string>): seq<string>
    requires forall n :: n in ns ==> n in degree
  {
    if ns == [] then []
    else
      var d := degree[ns[0] := degree[ns[0]] - 1];
      (if d[ns[0]] == 0 then [ns[0]] else []) + Freed(d, ns[1..])
  }

  ghost predicate Affordable(degree: map<string, int>, ns: seq<string>)
  {
    && (forall n :: n in ns ==> n in degree)
    && forall c :: c in degree ==> multiset(ns)[c] <= degree[c]
  }

  lemma {:induction false} AffordableTail(degree: map<string, int>, ns: seq<string>)
    requires Affordable(degree, ns) && ns != []
    ensures Affordable(degree[ns[0] := degree[ns[0]] - 1], ns[1..])
    ensures multiset(ns) == multiset(ns[1..]) + multiset{ns[0]}
  {
    assert ns == [ns[0]] + ns[1..];
  }

  lemma {:induction false} DecrementCounts(degree: map<string, int>, ns: seq<string>)
    requires Affordable(degree, ns)
    ensures Decrement(degree, ns).Keys == degree.Keys
    ensures forall c :: c in degree ==> Decrement(degree, ns)[c] == degree[c] - multiset(ns)[c]
  {
    if ns != [] {
      AffordableTail(degree, ns);
      DecrementCounts(degree[ns[0] := degree[ns[0]] - 1], ns[1..]);
    }
  }

  lemma {:induction false} FreedExact(degree: map<string, int>, ns: seq<string>)
    requires Affordable(degree, ns)
    ensures NoDuplicates(Freed(degree, ns))
    ensures forall x :: x in Freed(degree, ns) <==> x in ns && degree[x] == multiset(ns)[x]
  {
    if ns != [] {
      AffordableTail(degree, ns);
      var head := ns[0];
      var d := degree[head := degree[head] - 1];
      FreedExact(d, ns[1..]);
      forall x ensures x in Freed(degree, ns) <==> x in ns && degree[x] == multiset(ns)[x] {
        assert x in ns <==> x == head || x in ns[1..];
        if x == head {
          assert x in ns[1..] <==> multiset(ns[1..])[x] > 0;
        }
      }
    }
  }

  // ---- the outer loop ----

  datatype Kahn = Kahn(degree: map<string, int>, queue: seq<string>, result: seq<string>)

  function Start(rows: seq<Edge>): Kahn
  {
    var degree := map n | n in Nodes(rows) :: Pending(rows, n, {});
    Kahn(degree, SortedSet(set n | n in Nodes(rows) && degree[n] == 0), [])
  }

  ghost predicate KahnState(rows: seq<Edge>, k: Kahn)
  {
    && k.degree.Keys == Nodes(rows)
    && (forall c :: c in k.degree ==> k.degree[c] == Pending(rows, c, Elements(k.result)))
    && NoDuplicates(k.result + k.queue)
    && (forall c :: c in k.result + k.queue <==> c in k.degree && k.degree[c] == 0)
    && DependenciesFirst(rows, k.result)
  }

  function Step(rows: seq<Edge>, k: Kahn): Kahn
    requires KahnState(rows, k) && k.queue != []
  {
    var node := k.queue[0];
    var ns := Sort(DependentsOf(rows, node));
    StepAffordable(rows, k);
    Kahn(Decrement(k.degree, ns), k.queue[1..] + Freed(k.degree, ns), k.result + [node])
  }

  lemma {:induction false} QueueHeadFresh(k: Kahn)
    requires NoDuplicates(k.result + k.queue) && k.queue != []
    ensures k.queue[0] !in k.result
  {
    var all := k.result + k.queue;
    assert k.queue[0] == all[|k.result|];
    forall i | 0 <= i < |k.result| ensures k.result[i] != k.queue[0] {
      assert all[i] != all[|k.result|];
    }
  }

  lemma {:induction false} StepAffordable(rows: seq<Edge>, k: Kahn)
    requires KahnState(rows, k) && k.queue != []
    ensures k.queue[0] !in k.result
    ensures Affordable(k.degree, Sort(DependentsOf(rows, k.queue[0])))
    ensures forall c :: c in k.degree ==>
      k.degree[c] - multiset(DependentsOf(rows, k.queue[0]))[c] == Pending(rows, c, Elements(k.result + [k.queue[0]]))
  {
    var node := k.queue[0];
    var ns := Sort(DependentsOf(rows, node));
    QueueHeadFresh(k);
    assert Elements(k.result + [node]) == Elements(k.result) + {node};
    forall c | c in k.degree
      ensures multiset(ns)[c] <= k.degree[c]
      ensures k.degree[c] - multiset(DependentsOf(rows, node))[c] == Pending(rows, c, Elements(k.result + [node]))
    {
      PendingDone(rows, c, Elements(k.result), node);
    }
    forall n | n in ns ensures n in k.degree {
      assert n in multiset(ns);
      DependentsCount(rows, node, n);
      assert Edge(n, node) in rows;
    }
  }

  /** Members of the result or the queue after a step: those there before, and those the step freed. */
  lemma {:induction false} StepMembers(k: Kahn, ns: seq<string>, c: string)
    requires Affordable(k.degree, ns) && k.queue != []
    requires forall x :: x in k.result + k.queue <==> x in k.degree && k.degree[x] == 0
    ensures c in Freed(k.degree, ns) ==> c !in k.result + k.queue
    ensures c in k.result + k.queue + Freed(k.degree, ns) <==>
      c in Decrement(k.degree, ns) && Decrement(k.degree, ns)[c] == 0
  {
    DecrementCounts(k.degree, ns);
    FreedExact(k.degree, ns);
    assert c in ns <==> multiset(ns)[c] > 0;
  }

  lemma {:induction false} StepParts(rows: seq<Edge>, k: Kahn)
    requires KahnState(rows, k) && k.queue != []
    ensures Affordable(k.degree, Sort(DependentsOf(rows, k.queue[0])))
    ensures Step(rows, k).result + Step(rows, k).queue ==
      k.result + k.queue + Freed(k.degree, Sort(DependentsOf(rows, k.queue[0])))
    ensures Step(rows, k).degree == Decrement(k.degree, Sort(DependentsOf(rows, k.queue[0])))
    ensures Step(rows, k).result == k.result + [k.queue[0]]
  {
    StepAffordable(rows, k);
    MoveHead(k.result, k.queue, Freed(k.degree, Sort(DependentsOf(rows, k.queue[0]))));
  }

  lemma MoveHead(result: seq<string>, queue: seq<string>, freed: seq<string>)
    requires queue != []
    ensures (result + [queue[0]]) + (queue[1..] + freed) == result + queue + freed
  {
  }

  lemma {:induction false} StepDegrees(rows: seq<Edge>, k: Kahn)
    requires KahnState(rows, k) && k.queue != []
    ensures Step(rows, k).degree.Keys == Nodes(rows)
    ensures forall c :: c in Step(rows, k).degree ==>
      Step(rows, k).degree[c] == Pending(rows, c, Elements(Step(rows, k).result))
  {
    StepParts(rows, k);
    StepAffordable(rows, k);
    DecrementCounts(k.degree, Sort(DependentsOf(rows, k.queue[0])));
  }

  lemma {:induction false} StepDistinct(rows: seq<Edge>, k: Kahn)
    requires KahnState(rows, k) && k.queue != []
    ensures NoDuplicates(Step(rows, k).result + Step(rows, k).queue)
  {
    StepParts(rows, k);
    var ns := Sort(DependentsOf(rows, k.queue[0]));
    FreedExact(k.degree, ns);
    forall c | c in Freed(k.degree, ns) ensures c !in k.result + k.queue {
      StepMembers(k, ns, c);
    }
    NoDuplicatesConcat(k.result + k.queue, Freed(k.degree, ns));
  }

  lemma {:induction false} StepZero(rows: seq<Edge>, k: Kahn, c: string)
    requires KahnState(rows, k) && k.queue != []
    ensures c in Step(rows, k).result + Step(rows, k).queue <==>
      c in Step(rows, k).degree && Step(rows, k).degree[c] == 0
  {
    StepParts(rows, k);
    StepMembers(k, Sort(DependentsOf(rows, k.queue[0])), c);
  }

  lemma {:induction false} StepKeepsState(rows: seq<Edge>, k: Kahn)
    requires KahnState(rows, k) && k.queue != []
    ensures KahnState(rows, Step(rows, k))
    ensures |Step(rows, k).result| == |k.result| + 1 <= |Nodes(rows)|
  {
    var k' := Step(rows, k);
    StepDegrees(rows, k);
    StepDistinct(rows, k);
    StepOrdered(rows, k);
    forall c ensures c in k'.result + k'.queue <==> c in k'.degree && k'.degree[c] == 0 {
      StepZero(rows, k, c);
    }
    ResultFits(rows, k');
  }

  lemma {:induction false} ResultFits(rows: seq<Edge>, k: Kahn)
    requires KahnState(rows, k)
    ensures |k.result| <= |Nodes(rows)|
  {
    NoDuplicatesSize(k.result + k.queue, Nodes(rows));
  }

  lemma {:induction false} StepOrdered(rows: seq<Edge>, k: Kahn)
    requires KahnState(rows, k) && k.queue != []
    ensures DependenciesFirst(rows, k.result + [k.queue[0]])
  {
    var node := k.queue[0];
    assert node in k.result + k.queue;
    PendingZero(rows, node, Elements(k.result));
    assert forall d :: d in Elements(k.result) ==> d in k.result;
    AppendOrdered(rows, k.result, node);
  }

  lemma {:induction false} NoDuplicatesConcat(a: seq<string>, b: seq<string>)
    requires NoDuplicates(a) && NoDuplicates(b) && forall x :: x in b ==> x !in a
    ensures NoDuplicates(a + b)
  {
    var s := a + b;
    forall i, j | 0 <= i < j < |s| ensures s[i] != s[j] {
      if i < |a| <= j {
        assert s[j] == b[j - |a|] && s[j] in b;
      }
    }
  }

  /** A list without duplicates is no longer than a set holding its elements. */
  lemma {:induction false} NoDuplicatesSize(s: seq<string>, u: set<string>)
    requires NoDuplicates(s) && forall x :: x in s ==> x in u
    ensures |s| <= |u|
  {
    if s != [] {
      NoDuplicatesSize(s[1..], u - {s[0]});
    }
  }

  lemma {:induction false} StartQueue(rows: seq<Edge>)
    ensures Start(rows).degree.Keys == Nodes(rows)
    ensures StrictlySorted(Start(rows).queue) && NoDuplicates(Start(rows).queue)
    ensures forall c :: c in Start(rows).queue <==> c in Start(rows).degree && Start(rows).degree[c] == 0
  {
    var k := Start(rows);
    SortedSetSorted(set n | n in Nodes(rows) && k.degree[n] == 0);
    assert forall c :: c in k.queue <==> c in Elements(k.queue);
  }

  lemma {:induction false} StartState(rows: seq<Edge>)
    ensures KahnState(rows, Start(rows))
  {
    StartQueue(rows);
    assert Start(rows).result + Start(rows).queue == Start(rows).queue;
    assert Elements<string>([]) == {};
  }

  function KahnRun(rows: seq<Edge>, k: Kahn): seq<string>
    requires KahnState(rows, k)
    decreases |Nodes(rows)| - |k.result|
  {
    if k.queue == [] then k.result
    else
      StepKeepsState(rows, k);
      KahnRun(rows, Step(rows, k))
  }

  function SortOrder(rows: seq<Edge>): seq<string>
  {
    StartState(rows);
    KahnRun(rows, Start(rows))
  }

  lemma {:induction false} RunEnds(rows: seq<Edge>, k: Kahn) returns (last: Kahn)
    requires KahnState(rows, k)
    ensures KahnState(rows, last) && last.queue == [] && last.result == KahnRun(rows, k)
    ensures k.result <= last.result
    decreases |Nodes(rows)| - |k.result|
  {
    if k.queue == [] {
      last := k;
    } else {
      StepKeepsState(rows, k);
      last := RunEnds(rows, Step(rows, k));
    }
  }

  // ---- what is left out lies above a cycle ----

  lemma {:induction false} BlockedWalk(rows: seq<Edge>, last: Kahn, n: string, steps: nat) returns (p: seq<string>)
    requires KahnState(rows, last) && last.queue == []
    requires n in Nodes(rows) && n !in last.result
    ensures Walk(rows, p) && p[0] == n && |p| == steps + 1
    ensures forall x :: x in p ==> x in Nodes(rows)
    decreases steps
  {
    if steps == 0 {
      p := [n];
    } else {
      assert last.result + last.queue == last.result;
      PendingZero(rows, n, Elements(last.result));
      var d :| Edge(n, d) in rows && d !in Elements(last.result);
      var rest := BlockedWalk(rows, last, d, steps - 1);
      p := [n] + rest;
      forall m | 0 <= m < |p| - 1 ensures Hop(rows, p, m) {
        assert m > 0 ==> Hop(rows, rest, m - 1);
      }
    }
  }

  lemma {:induction false} RepeatedVertex(p: seq<string>) returns (i: nat, j: nat)
    requires !NoDuplicates(p)
    ensures i < j < |p| && p[i] == p[j]
  {
    i, j :| 0 <= i < j < |p| && p[i] == p[j];
  }

  lemma {:induction false} BlockedDependsOnCycle(rows: seq<Edge>, last: Kahn, n: string)
    requires KahnState(rows, last) && last.queue == []
    requires n in Nodes(rows) && n !in last.result
    ensures DependsOnCycle(rows, n)
  {
    var p := BlockedWalk(rows, last, n, |Nodes(rows)|);
    if NoDuplicates(p) {
      NoDuplicatesSize(p, Nodes(rows));
    }
    var i, j := RepeatedVertex(p);
    CutAtRepeat(rows, p, i, j);
    assert p[..i + 1][0] == n;
  }

  lemma CutAtRepeat(rows: seq<Edge>, p: seq<string>, i: nat, j: nat)
    requires Walk(rows, p) && i < j < |p| && p[i] == p[j]
    ensures Walk(rows, p[..i + 1]) && ClosedWalk(rows, p[i..j + 1]) && p[..i + 1][i] == p[i..j + 1][0]
  {
    var cycle := p[i..j + 1];
    forall m | 0 <= m < |cycle| - 1 ensures Hop(rows, cycle, m) {
      assert Hop(rows, p, i + m);
    }
    var approach := p[..i + 1];
    forall m | 0 <= m < |approach| - 1 ensures Hop(rows, approach, m) {
      assert Hop(rows, p, m);
    }
  }

  /**
   The order lists no capability twice, puts every dependency before its
   dependents, and holds exactly the capabilities that do not transitively
   depend on a cycle.
   */
  lemma {:induction false} SortOrderExact(rows: seq<Edge>)
    ensures NoDuplicates(SortOrder(rows))
    ensures DependenciesFirst(rows, SortOrder(rows))
    ensures forall n :: n in SortOrder(rows) <==> n in Nodes(rows) && !DependsOnCycle(rows, n)
  {
    StartState(rows);
    var last := RunEnds(rows, Start(rows));
    assert last.result + last.queue == last.result;
    forall n ensures n in last.result <==> n in Nodes(rows) && !DependsOnCycle(rows, n) {
      if n in last.result {
        OrderedNotOnCycle(rows, last.result, n);
      } else if n in Nodes(rows) {
        BlockedDependsOnCycle(rows, last, n);
      }
    }
  }

  /** The two functions decide the same question: everything is ordered exactly when no cycle is reported. */
  lemma {:induction false} OrderedAllIffNoCycle(rows: seq<Edge>, cycles: seq<seq<string>>)
    requires cycles == [] <==> Acyclic(rows)
    ensures Elements(SortOrder(rows)) == Nodes(rows) <==> cycles == []
  {
    SortOrderExact(rows);
    AcyclicIffNoneDepends(rows);
    if Elements(SortOrder(rows)) == Nodes(rows) {
      forall n | n in Nodes(rows) ensures !DependsOnCycle(rows, n) {
        assert n in SortOrder(rows);
      }
    }
  }

  // ---- first ready, first listed ----

  /** With the first `m` of `order` deployed, every dependency of `n` is. */
  ghost predicate ReadyAfter(rows: seq<Edge>, order: seq<string>, m: nat, n: string)
    requires m <= |order|
  {
    forall d :: Edge(n, d) in rows ==> d in order[..m]
  }

  ghost predicate ReadyNoLater(rows: seq<Edge>, order: seq<string>, a: string, b: string)
  {
    forall m :: 0 <= m <= |order| && ReadyAfter(rows, order, m, b) ==> ReadyAfter(rows, order, m, a)
  }

  /** `a` is ready before `b`, or at the same moment and not after it by name. */
  ghost predicate Before(rows: seq<Edge>, order: seq<string>, a: string, b: string)
  {
    ReadyNoLater(rows, order, a, b) && (ReadyNoLater(rows, order, b, a) ==> Leq(a, b))
  }

  ghost predicate InReleaseOrder(rows: seq<Edge>, order: seq<string>, list: seq<string>)
  {
    forall i, j :: 0 <= i < j < |list| ==> Before(rows, order, list[i], list[j])
  }

  lemma {:induction false} FreedFrom(degree: map<string, int>, ns: seq<string>)
    requires forall n :: n in ns ==> n in degree
    ensures forall x :: x in Freed(degree, ns) ==> x in ns
  {
    if ns != [] {
      FreedFrom(degree[ns[0] := degree[ns[0]] - 1], ns[1..]);
    }
  }

  lemma {:induction false} FreedSorted(degree: map<string, int>, ns: seq<string>)
    requires Sorted(ns) && forall n :: n in ns ==> n in degree
    ensures Sorted(Freed(degree, ns))
  {
    if ns != [] {
      var d := degree[ns[0] := degree[ns[0]] - 1];
      FreedSorted(d, ns[1..]);
      FreedFrom(d, ns[1..]);
      var rest := Freed(d, ns[1..]);
      forall i | 0 <= i < |rest| ensures Leq(ns[0], rest[i]) {
        assert rest[i] in ns[1..];
      }
    }
  }

  /** What is in the result or the queue is ready now. */
  lemma ListedReady(rows: seq<Edge>, k: Kahn, n: string)
    requires KahnState(rows, k) && n in k.result + k.queue
    ensures ReadyAfter(rows, k.result, |k.result|, n)
  {
    PendingZero(rows, n, Elements(k.result));
    assert k.result[..|k.result|] == k.result;
  }

  /** What is not, is not ready at any earlier moment either. */
  lemma UnlistedNotReady(rows: seq<Edge>, k: Kahn, n: string, m: nat)
    requires KahnState(rows, k) && n in Nodes(rows) && n !in k.result + k.queue && m <= |k.result|
    ensures !ReadyAfter(rows, k.result, m, n)
  {
    PendingZero(rows, n, Elements(k.result));
    var d :| Edge(n, d) in rows && d !in Elements(k.result);
    assert d !in k.result[..m];
  }

  lemma ReadyGrows(rows: seq<Edge>, order: seq<string>, more: seq<string>, m: nat, n: string)
    requires m <= |order|
    ensures ReadyAfter(rows, order + more, m, n) <==> ReadyAfter(rows, order, m, n)
  {
    assert (order + more)[..m] == order[..m];
  }

  /** One more node in the result changes nothing between nodes that were ready already. */
  lemma BeforeKept(rows: seq<Edge>, order: seq<string>, node: string, a: string, b: string)
    requires Before(rows, order, a, b) && ReadyAfter(rows, order, |order|, a) && ReadyAfter(rows, order, |order|, b)
    ensures Before(rows, order + [node], a, b)
  {
    var longer := order + [node];
    forall m | 0 <= m <= |order|
      ensures ReadyAfter(rows, longer, m, a) <==> ReadyAfter(rows, order, m, a)
      ensures ReadyAfter(rows, longer, m, b) <==> ReadyAfter(rows, order, m, b)
    {
      ReadyGrows(rows, order, [node], m, a);
      ReadyGrows(rows, order, [node], m, b);
    }
    assert order[..|order|] == order && longer[..|longer|] == longer;
    assert ReadyAfter(rows, longer, |longer|, a) && ReadyAfter(rows, longer, |longer|, b);
  }

  /** A node freed by the step comes after what was listed. */
  lemma FreedAfterListed(rows: seq<Edge>, order: seq<string>, node: string, a: string, b: string)
    requires ReadyAfter(rows, order, |order|, a) && (forall m :: 0 <= m <= |order| ==> !ReadyAfter(rows, order, m, b))
    ensures Before(rows, order + [node], a, b)
  {
    var longer := order + [node];
    forall m | 0 <= m <= |order|
      ensures ReadyAfter(rows, longer, m, a) <==> ReadyAfter(rows, order, m, a)
      ensures ReadyAfter(rows, longer, m, b) <==> ReadyAfter(rows, order, m, b)
    {
      ReadyGrows(rows, order, [node], m, a);
      ReadyGrows(rows, order, [node], m, b);
    }
    assert order[..|order|] == order && longer[..|longer|] == longer;
    assert ReadyAfter(rows, longer, |longer|, a);
    assert ReadyAfter(rows, longer, |order|, a) && !ReadyAfter(rows, longer, |order|, b);
  }

  /** Nodes freed by the same step are in name order. */
  lemma FreedTogether(rows: seq<Edge>, order: seq<string>, node: string, a: string, b: string)
    requires forall m :: 0 <= m <= |order| ==> !ReadyAfter(rows, order, m, b)
    requires ReadyAfter(rows, order + [node], |order| + 1, a) && Leq(a, b)
    ensures Before(rows, order + [node], a, b)
  {
    forall m | 0 <= m <= |order| ensures !ReadyAfter(rows, order + [node], m, b) {
      ReadyGrows(rows, order, [node], m, b);
    }
  }

  lemma StepReleased(rows: seq<Edge>, k: Kahn)
    requires KahnState(rows, k) && k.queue != [] && InReleaseOrder(rows, k.result, k.result + k.queue)
    ensures KahnState(rows, Step(rows, k)) && InReleaseOrder(rows, Step(rows, k).result, Step(rows, k).result + Step(rows, k).queue)
  {
    var node, k' := k.queue[0], Step(rows, k);
    StepKeepsState(rows, k);
    StepParts(rows, k);
    var all, freed := k.result + k.queue, Freed(k.degree, Sort(DependentsOf(rows, node)));
    SortSorted(DependentsOf(rows, node));
    FreedSorted(k.degree, Sort(DependentsOf(rows, node)));
    var list := all + freed;
    forall i, j | 0 <= i < j < |list| ensures Before(rows, k'.result, list[i], list[j]) {
      StepPair(rows, k, list, i, j);
    }
  }

  lemma StepPair(rows: seq<Edge>, k: Kahn, list: seq<string>, i: nat, j: nat)
    requires KahnState(rows, k) && k.queue != [] && InReleaseOrder(rows, k.result, k.result + k.queue)
    requires Affordable(k.degree, Sort(DependentsOf(rows, k.queue[0]))) && Sorted(Freed(k.degree, Sort(DependentsOf(rows, k.queue[0]))))
    requires list == k.result + k.queue + Freed(k.degree, Sort(DependentsOf(rows, k.queue[0]))) && i < j < |list|
    requires KahnState(rows, Step(rows, k)) && Step(rows, k).result + Step(rows, k).queue == list && Step(rows, k).result == k.result + [k.queue[0]]
    ensures Before(rows, k.result + [k.queue[0]], list[i], list[j])
  {
    var node, all := k.queue[0], k.result + k.queue;
    var ns := Sort(DependentsOf(rows, node));
    assert i < |all| ==> list[i] == all[i] && list[i] in all;
    if j < |all| {
      assert list[j] == all[j] && list[j] in all;
      ListedReady(rows, k, list[i]);
      ListedReady(rows, k, list[j]);
      BeforeKept(rows, k.result, node, list[i], list[j]);
    } else {
      FreedNotReady(rows, k, list[j], j - |all|);
      if i < |all| {
        ListedReady(rows, k, list[i]);
        FreedAfterListed(rows, k.result, node, list[i], list[j]);
      } else {
        assert list[i] in list;
        ListedReady(rows, Step(rows, k), list[i]);
        FreedTogether(rows, k.result, node, list[i], list[j]);
      }
    }
  }

  lemma FreedNotReady(rows: seq<Edge>, k: Kahn, n: string, i: nat)
    requires KahnState(rows, k) && k.queue != [] && Affordable(k.degree, Sort(DependentsOf(rows, k.queue[0])))
    requires i < |Freed(k.degree, Sort(DependentsOf(rows, k.queue[0])))| && Freed(k.degree, Sort(DependentsOf(rows, k.queue[0])))[i] == n
    ensures forall m :: 0 <= m <= |k.result| ==> !ReadyAfter(rows, k.result, m, n)
  {
    var ns := Sort(DependentsOf(rows, k.queue[0]));
    StepMembers(k, ns, n);
    FreedFrom(k.degree, ns);
    assert n in Freed(k.degree, ns);
    forall m | 0 <= m <= |k.result| ensures !ReadyAfter(rows, k.result, m, n) {
      UnlistedNotReady(rows, k, n, m);
    }
  }

  lemma StartReleased(rows: seq<Edge>)
    ensures KahnState(rows, Start(rows)) && InReleaseOrder(rows, [], Start(rows).queue)
  {
    StartState(rows);
    StartQueue(rows);
    QueueReleased(rows, Start(rows));
  }

  lemma ReadyAtOnce(rows: seq<Edge>, k: Kahn, n: string)
    requires KahnState(rows, k) && k.result == [] && n in k.queue
    ensures ReadyAfter(rows, [], 0, n)
  {
    assert n in k.result + k.queue;
    ListedReady(rows, k, n);
  }

  lemma BothReadyAtOnce(rows: seq<Edge>, a: string, b: string)
    requires ReadyAfter(rows, [], 0, a) && ReadyAfter(rows, [], 0, b) && Leq(a, b)
    ensures Before(rows, [], a, b)
  {
  }

  lemma QueueReleased(rows: seq<Edge>, k: Kahn)
    requires KahnState(rows, k) && k.result == [] && StrictlySorted(k.queue)
    ensures InReleaseOrder(rows, [], k.queue)
  {
    forall i, j | 0 <= i < j < |k.queue| ensures Before(rows, [], k.queue[i], k.queue[j]) {
      ReadyAtOnce(rows, k, k.queue[i]);
      ReadyAtOnce(rows, k, k.queue[j]);
      BothReadyAtOnce(rows, k.queue[i], k.queue[j]);
    }
  }

  lemma {:induction false} RunReleased(rows: seq<Edge>, k: Kahn)
    requires KahnState(rows, k) && InReleaseOrder(rows, k.result, k.result + k.queue)
    ensures InReleaseOrder(rows, KahnRun(rows, k), KahnRun(rows, k))
    decreases |Nodes(rows)| - |k.result|
  {
    if k.queue == [] {
      assert k.result + k.queue == k.result;
    } else {
      StepKeepsState(rows, k);
      StepReleased(rows, k);
      RunReleased(rows, Step(rows, k));
    }
  }

  /** The order is by the moment a capability becomes deployable, and by name among those that become so together. */
  lemma SortOrderByRelease(rows: seq<Edge>)
    ensures InReleaseOrder(rows, SortOrder(rows), SortOrder(rows))
  {
    StartReleased(rows);
    assert Start(rows).result + Start(rows).queue == Start(rows).queue;
    RunReleased(rows, Start(rows));
  }

  // ---- the order in which SQLite returns the rows does not matter ----

  lemma {:induction false} PendingByCount(a: seq<Edge>, b: seq<Edge>, c: string, done: set<string>)
    requires multiset(a) == multiset(b)
    ensures Pending(a, c, done) == Pending(b, c, done)
    decreases |a|
  {
    if a == [] {
      assert |multiset(b)| == 0 && b == [];
    } else {
      var i := SameRow(a, b);
      WithoutRow(b, i, c, done);
      PendingByCount(a[1..], b[..i] + b[i + 1..], c, done);
    }
  }

  /** A row of `b` equal to the first of `a`; without them the lists still agree. */
  lemma SameRow(a: seq<Edge>, b: seq<Edge>) returns (i: nat)
    requires a != [] && multiset(a) == multiset(b)
    ensures i < |b| && b[i] == a[0] && multiset(a[1..]) == multiset(b[..i] + b[i + 1..])
  {
    assert a[0] in multiset(b);
    i :| 0 <= i < |b| && b[i] == a[0];
    CountWithoutRow(b, i);
    assert a == [a[0]] + a[1..];
  }

  lemma CountWithoutRow(b: seq<Edge>, i: nat)
    requires i < |b|
    ensures multiset(b[..i] + b[i + 1..]) == multiset(b) - multiset{b[i]}
  {
    assert b == b[..i] + ([b[i]] + b[i + 1..]);
  }

  lemma {:induction false} WithoutRow(b: seq<Edge>, i: nat, c: string, done: set<string>)
    requires i < |b|
    ensures Pending(b, c, done) == Pending(b[..i] + b[i + 1..], c, done) + Pending([b[i]], c, done)
  {
    assert b == b[..i] + ([b[i]] + b[i + 1..]);
    PendingConcat(b[..i], [b[i]] + b[i + 1..], c, done);
    PendingConcat([b[i]], b[i + 1..], c, done);
    PendingConcat(b[..i], b[i + 1..], c, done);
  }

  lemma {:induction false} PendingConcat(a: seq<Edge>, b: seq<Edge>, c: string, done: set<string>)
    ensures Pending(a + b, c, done) == Pending(a, c, done) + Pending(b, c, done)
  {
    if a == [] {
      assert a + b == b;
    } else {
      assert (a + b)[1..] == a[1..] + b;
      PendingConcat(a[1..], b, c, done);
    }
  }

  lemma {:induction false} SameDependents(a: seq<Edge>, b: seq<Edge>, d: string)
    requires multiset(a) == multiset(b)
    ensures Sort(DependentsOf(a, d)) == Sort(DependentsOf(b, d))
  {
    forall c ensures multiset(DependentsOf(a, d))[c] == multiset(DependentsOf(b, d))[c] {
      DependentsCount(a, d, c);
      DependentsCount(b, d, c);
    }
    assert multiset(DependentsOf(a, d)) == multiset(DependentsOf(b, d));
    SortPermutation(DependentsOf(a, d), DependentsOf(b, d));
  }

  lemma {:induction false} SameNodes(a: seq<Edge>, b: seq<Edge>)
    requires multiset(a) == multiset(b)
    ensures Nodes(a) == Nodes(b)
  {
    forall e ensures e in a <==> e in b {
      assert e in a <==> e in multiset(a);
      assert e in b <==> e in multiset(b);
    }
  }

  lemma {:induction false} SameRun(a: seq<Edge>, b: seq<Edge>, k: Kahn)
    requires multiset(a) == multiset(b) && KahnState(a, k) && KahnState(b, k)
    ensures KahnRun(a, k) == KahnRun(b, k)
    decreases |Nodes(a)| - |k.result|
  {
    if k.queue != [] {
      SameDependents(a, b, k.queue[0]);
      StepKeepsState(a, k);
      StepKeepsState(b, k);
      assert Step(a, k) == Step(b, k);
      SameNodes(a, b);
      SameRun(a, b, Step(a, k));
    }
  }

  /** `SELECT` without `ORDER BY`: every order of the same rows gives the same deployment order. */
  lemma {:induction false} RowOrderIrrelevant(a: seq<Edge>, b: seq<Edge>)
    requires multiset(a) == multiset(b)
    ensures SortOrder(a) == SortOrder(b)
  {
    SameNodes(a, b);
    forall n ensures Pending(a, n, {}) == Pending(b, n, {}) {
      PendingByCount(a, b, n, {});
    }
    assert Start(a).degree == Start(b).degree;
    StartState(a);
    StartState(b);
    SameRun(a, b, Start(a));
  }

  // ---- topological_sort ----

  function Get<V>(m: map<string, V>, k: string, default: V): V
  {
    if k in m then m[k] else default
  }

  ghost predicate Counted(rows: seq<Edge>, graph: map<string, seq<string>>, inDegree: map<string, int>, allNodes: set<string>)
  {
    && (forall d :: Get(graph, d, []) == DependentsOf(rows, d))
    && (forall c :: Get(inDegree, c, 0) == Pending(rows, c, {}))
    && inDegree.Keys <= allNodes
    && (forall x :: x in allNodes <==> exists e :: e in rows && (x == e.cap || x == e.dep))
  }

  lemma {:induction false} CountedAppend(rows: seq<Edge>, e: Edge, graph: map<string, seq<string>>, inDegree: map<string, int>, allNodes: set<string>)
    requires Counted(rows, graph, inDegree, allNodes)
    ensures Counted(rows + [e], graph[e.dep := Get(graph, e.dep, []) + [e.cap]],
                    inDegree[e.cap := Get(inDegree, e.cap, 0) + 1], allNodes + {e.cap, e.dep})
  {
    forall d ensures DependentsOf(rows + [e], d) == DependentsOf(rows, d) + (if e.dep == d then [e.cap] else []) {
      DependentsAppend(rows, e, d);
    }
    forall c ensures Pending(rows + [e], c, {}) == Pending(rows, c, {}) + (if e.cap == c then 1 else 0) {
      PendingAppend(rows, e, c, {});
    }
    assert forall f :: f in rows + [e] <==> f in rows || f == e;
  }

  /** The first loop of `topological_sort`: reverse adjacency lists, in-degrees and the node set. */
  method CountRows(rows: seq<Edge>) returns (graph: map<string, seq<string>>, inDegree: map<string, int>, allNodes: set<string>)
    ensures Counted(rows, graph, inDegree, allNodes)
  {
    graph, inDegree, allNodes := map[], map[], {};
    for i := 0 to |rows|
      invariant Counted(rows[..i], graph, inDegree, allNodes)
    {
      var e := rows[i];
      assert rows[..i + 1] == rows[..i] + [e];
      CountedAppend(rows[..i], e, graph, inDegree, allNodes);
      graph := graph[e.dep := Get(graph, e.dep, []) + [e.cap]];
      inDegree := inDegree[e.cap := Get(inDegree, e.cap, 0) + 1];
      allNodes := allNodes + {e.cap, e.dep};
    }
    assert rows[..|rows|] == rows;
  }

  /** The second loop: nodes nothing counted get in-degree 0. */
  method FillZero(inDegree: map<string, int>, allNodes: set<string>) returns (filled: map<string, int>)
    requires inDegree.Keys <= allNodes
    ensures filled.Keys == allNodes
    ensures forall n :: n in filled ==> filled[n] == Get(inDegree, n, 0)
  {
    filled := inDegree;
    var todo := allNodes;
    while todo != {}
      invariant todo <= allNodes
      invariant filled.Keys <= allNodes <= filled.Keys + todo
      invariant forall n :: n in filled ==> filled[n] == Get(inDegree, n, 0)
      invariant forall n :: n in inDegree ==> n in filled
    {
      var node :| node in todo;
      if node !in filled {
        filled := filled[node := 0];
      }
      todo := todo - {node};
    }
  }

  /** The inner loop: count the neighbors down, queueing each that reaches 0. */
  method RelaxNeighbors(degree: map<string, int>, queue: seq<string>, ns: seq<string>)
    returns (degree': map<string, int>, queue': seq<string>)
    requires forall n :: n in ns ==> n in degree
    ensures degree' == Decrement(degree, ns) && queue' == queue + Freed(degree, ns)
  {
    degree', queue' := degree, queue;
    for j := 0 to |ns|
      invariant degree'.Keys == degree.Keys
      invariant Decrement(degree', ns[j..]) == Decrement(degree, ns)
      invariant queue' + Freed(degree', ns[j..]) == queue + Freed(degree, ns)
    {
      var neighbor := ns[j];
      assert ns[j..][0] == neighbor && ns[j..][1..] == ns[j + 1..];
      ghost var before := queue';
      ghost var rest := Freed(degree'[neighbor := degree'[neighbor] - 1], ns[j + 1..]);
      degree' := degree'[neighbor := degree'[neighbor] - 1];
      if degree'[neighbor] == 0 {
        queue' := queue' + [neighbor];
        assert before + ([neighbor] + rest) == queue' + rest;
      } else {
        assert [] + rest == rest;
      }
    }
    assert queue' + [] == queue';
  }

  /** `topological_sort`: dependencies first, no repetition, and exactly the capabilities not above a cycle. */
  method TopologicalSort(rows: seq<Edge>) returns (result: seq<string>)
    ensures result == SortOrder(rows)
    ensures NoDuplicates(result) && DependenciesFirst(rows, result)
    ensures forall n :: n in result <==> n in Nodes(rows) && !DependsOnCycle(rows, n)
    ensures InReleaseOrder(rows, result, result)
  {
    SortOrderByRelease(rows);
    var graph, counts, allNodes := CountRows(rows);
    var inDegree := FillZero(counts, allNodes);
    CountedIsStart(rows, graph, counts, allNodes, inDegree);
    var queue := SortedSet(set n | n in allNodes && inDegree[n] == 0);
    result := [];
    StartState(rows);
    ghost var k := Start(rows);
    while queue != []
      invariant k == Kahn(inDegree, queue, result)
      invariant KahnState(rows, k)
      invariant KahnRun(rows, k) == SortOrder(rows)
      decreases |Nodes(rows)| - |result|
    {
      StepKeepsState(rows, k);
      StepParts(rows, k);
      var node := queue[0];
      queue := queue[1..];
      result := result + [node];
      assert Get(graph, node, []) == DependentsOf(rows, node);
      inDegree, queue := RelaxNeighbors(inDegree, queue, Sort(Get(graph, node, [])));
      k := Step(rows, k);
    }
    SortOrderExact(rows);
  }

  lemma {:induction false} CountedIsStart(rows: seq<Edge>, graph: map<string, seq<string>>, counts: map<string, int>,
                                          allNodes: set<string>, inDegree: map<string, int>)
    requires Counted(rows, graph, counts, allNodes)
    requires inDegree.Keys == allNodes && forall n :: n in inDegree ==> inDegree[n] == Get(counts, n, 0)
    ensures allNodes == Nodes(rows)
    ensures Start(rows) == Kahn(inDegree, SortedSet(set n | n in allNodes && inDegree[n] == 0), [])
  {
    assert allNodes == Nodes(rows);
    assert inDegree == Start(rows).degree;
  }
}
