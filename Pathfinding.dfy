/** `PathfindingComponent`'s graph search: the Manhattan heuristic, the
    closest graph node to a position, unit-cost A* over the neighbour
    graph, and the reconstruction of a path from the `cameFrom` links.
    Graph nodes are integer grid points; on them the engine's fuzzy vector
    equality (squared distance below 1) is exact equality. */
module Pathfinding {

  /** A graph node: a grid point. */
  datatype Node = Node(x: int, y: int, z: int)

  /** `glm::vec3()`. */
  const Origin := Node(0, 0, 0)

  /** `FLT_MAX`, the starting minimum of `closestPos`. */
  const FltMax: int := 0x1_0000_0000_0000_0000_0000_0000_0000_0000 - 0x1_0000_0000_0000_0000_0000_0000_00

  function Abs(v: int): nat
  {
    if v < 0 then -v else v
  }

  /** `heuristic`: the Manhattan distance. */
  function Heuristic(a: Node, b: Node): nat
  {
    Abs(a.x - b.x) + Abs(a.y - b.y) + Abs(a.z - b.z)
  }

  /** The heuristic is a metric: symmetric, zero exactly on equal nodes,
      and obeying the triangle inequality. */
  lemma HeuristicIsMetric(a: Node, b: Node, c: Node)
    ensures Heuristic(a, b) == Heuristic(b, a)
    ensures Heuristic(a, b) == 0 <==> a == b
    ensures Heuristic(a, c) <= Heuristic(a, b) + Heuristic(b, c)
  {
  }

  /** One unit step changes the heuristic by at most one, so A* with unit
      steps never overestimates. */
  lemma HeuristicStep(a: Node, b: Node, goal: Node)
    requires Heuristic(a, b) == 1
    ensures Heuristic(a, goal) <= Heuristic(b, goal) + 1
  {
    HeuristicIsMetric(a, b, goal);
  }

  /** `glm::distance2`. */
  function SqDist(a: Node, b: Node): nat
  {
    (a.x - b.x) * (a.x - b.x) + (a.y - b.y) * (a.y - b.y) + (a.z - b.z) * (a.z - b.z)
  }

  /** Half a flight of stairs: nodes this far above or below do not count
      as close. */
  const HalfStairs: int := 3

  /** The running (position, distance) minimum of `closestPos` after the
      keys `order`, visited in the map's iteration order. */
  function ClosestSoFar(order: seq<Node>, pos: Node): (Node, int)
  {
    if order == [] then (Origin, FltMax)
    else
      var (best, bestDist) := ClosestSoFar(order[..|order| - 1], pos);
      var n := order[|order| - 1];
      if SqDist(pos, n) < bestDist && Abs(pos.y - n.y) < HalfStairs then (n, SqDist(pos, n)) else (best, bestDist)
  }

  /** A key that `closestPos` may choose for pos. */
  predicate Eligible(pos: Node, n: Node)
  {
    SqDist(pos, n) < FltMax && Abs(pos.y - n.y) < HalfStairs
  }

  /** The node `closestPos` returns. */
  function Closest(order: seq<Node>, pos: Node): Node
  {
    ClosestSoFar(order, pos).0
  }

  /** With no eligible key, `closestPos` answers the origin. */
  lemma {:induction false} ClosestNoneEligible(order: seq<Node>, pos: Node)
    requires forall n :: n in order ==> !Eligible(pos, n)
    ensures ClosestSoFar(order, pos) == (Origin, FltMax)
  {
    if order != [] {
      var p := order[..|order| - 1];
      assert forall n :: n in p ==> n in order;
      ClosestNoneEligible(p, pos);
      assert order[|order| - 1] in order;
    }
  }

  /** With an eligible key, `closestPos` answers an eligible key at least
      squared distance from pos. */
  lemma {:induction false} ClosestIsNearest(order: seq<Node>, pos: Node)
    requires exists n :: n in order && Eligible(pos, n)
    ensures var (c, d) := ClosestSoFar(order, pos);
      c in order && Eligible(pos, c) && d == SqDist(pos, c) &&
      forall n :: n in order && Eligible(pos, n) ==> SqDist(pos, c) <= SqDist(pos, n)
  {
    var p := order[..|order| - 1];
    var last := order[|order| - 1];
    assert order == p + [last];
    if exists n :: n in p && Eligible(pos, n) {
      ClosestIsNearest(p, pos);
    } else {
      ClosestNoneEligible(p, pos);
      assert Eligible(pos, last);
    }
  }

  /** Ties go to the first key in iteration order: no earlier key is both
      eligible and as close. */
  lemma {:induction false} ClosestIsFirst(order: seq<Node>, pos: Node, i: nat)
    requires i < |order| && Eligible(pos, order[i])
    requires SqDist(pos, order[i]) == SqDist(pos, Closest(order, pos))
    ensures Closest(order, pos) in order[..i + 1]
  {
    var p := order[..|order| - 1];
    var last := order[|order| - 1];
    assert order == p + [last];
    ClosestIsNearest(order, pos);
    if i < |p| {
      assert order[i] == p[i];
      ClosestIsNearest(p, pos);
      assert ClosestSoFar(p, pos).1 <= SqDist(pos, order[i]);
      assert Closest(order, pos) == Closest(p, pos);
      ClosestIsFirst(p, pos, i);
      assert p[..i + 1] == order[..i + 1];
    }
  }

  /** `closestPos`: a scan of the graph's keys keeping a running minimum. */
  method ClosestPos(order: seq<Node>, pos: Node) returns (minPos: Node)
    ensures minPos == Closest(order, pos)
  {
    var minDist := FltMax;
    minPos := Origin;
    var i := 0;
    while i < |order|
      invariant i <= |order|
      invariant (minPos, minDist) == ClosestSoFar(order[..i], pos)
    {
      assert order[..i + 1][..i] == order[..i];
      var dist := SqDist(pos, order[i]);
      if dist < minDist && Abs(pos.y - order[i].y) < HalfStairs {
        minPos := order[i];
        minDist := dist;
      }
      i := i + 1;
    }
    assert order[..i] == order;
  }

  /** `graph[n]`: the neighbours of n, none for a node without an entry. */
  function Neighbours(graph: map<Node, seq<Node>>, n: Node): seq<Node>
  {
    if n in graph then graph[n] else []
  }

  /** A frontier entry. */
  datatype PathPair = PathPair(position: Node, priority: nat)

  /** The entry `priority_queue::top` yields: least priority, taken as the
      first such entry. */
  function MinIndex(frontier: seq<PathPair>): (k: nat)
    requires frontier != []
    ensures k < |frontier|
    ensures forall j :: 0 <= j < |frontier| ==> frontier[k].priority <= frontier[j].priority
  {
    if |frontier| == 1 then 0
    else
      var k := MinIndex(frontier[1..]);
      if frontier[0].priority <= frontier[k + 1].priority then 0 else k + 1
  }

  /** What the search has established: the start node costs 0 and is its
      own predecessor; every other costed node has a costed predecessor of
      smaller cost, of which it is a neighbour; every frontier entry is
      costed. */
  predicate SearchTree(s: Node, graph: map<Node, seq<Node>>, cost: map<Node, nat>, cameFrom: map<Node, Node>)
  {
    s in cost && cost[s] == 0 && s in cameFrom && cameFrom[s] == s &&
    (forall n :: n in cost ==> n in cameFrom) &&
    (forall n :: n in cost && n != s ==>
      cameFrom[n] in cost && cost[cameFrom[n]] < cost[n] && n in Neighbours(graph, cameFrom[n]))
  }

  /** The graph grows only by empty neighbour lists. */
  predicate GrownEmpty(graph: map<Node, seq<Node>>, graph': map<Node, seq<Node>>)
  {
    graph.Keys <= graph'.Keys &&
    (forall n :: n in graph ==> graph'[n] == graph[n]) &&
    (forall n :: n in graph' && n !in graph ==> graph'[n] == [])
  }

  /** The node reached by following `cameFrom` k times. */
  function Walk(cameFrom: map<Node, Node>, n: Node, k: nat): Node
    decreases k
  {
    if k == 0 || n !in cameFrom then n else Walk(cameFrom, cameFrom[n], k - 1)
  }

  /** From any costed node, following the predecessor links as many times
      as its cost, or more, leads to the start node. */
  lemma {:induction false} WalkReachesStart(s: Node, graph: map<Node, seq<Node>>, cost: map<Node, nat>, cameFrom: map<Node, Node>, n: Node, k: nat)
    requires SearchTree(s, graph, cost, cameFrom)
    requires n in cost && cost[n] <= k
    ensures Walk(cameFrom, n, k) == s
    decreases k
  {
    if k > 0 {
      if n == s {
        assert Walk(cameFrom, s, k) == Walk(cameFrom, s, k - 1);
        WalkReachesStart(s, graph, cost, cameFrom, s, k - 1);
      } else {
        var p := cameFrom[n];
        assert p in cost && cost[p] < cost[n];
        assert Walk(cameFrom, n, k) == Walk(cameFrom, p, k - 1);
        WalkReachesStart(s, graph, cost, cameFrom, p, k - 1);
      }
    }
  }

  /** How a search ends: the end node was popped, the frontier ran out, or
      the step bound was reached first. */
  datatype SearchResult = Found | Exhausted | OutOfFuel

  /** The inner loop of `aStarSearch`: each neighbour whose cost is absent
      or would strictly decrease gets cost cost[current] + 1, a frontier
      entry and current as predecessor. */
  method Relax(current: Node, nbrs: seq<Node>, goal: Node, cost0: map<Node, nat>, cameFrom0: map<Node, Node>, frontier0: seq<PathPair>)
    returns (cost: map<Node, nat>, cameFrom: map<Node, Node>, frontier: seq<PathPair>)
    requires current in cost0
    ensures cost0.Keys <= cost.Keys && cost.Keys <= cost0.Keys + (set n | n in nbrs)
    ensures current in cost && cost[current] == cost0[current]
    ensures forall n :: n in cost ==>
      (n in cost0 && cost[n] == cost0[n] && (n in cameFrom0 ==> n in cameFrom && cameFrom[n] == cameFrom0[n])) ||
      (n in nbrs && cost[n] == cost0[current] + 1 && (n !in cost0 || cost0[current] + 1 < cost0[n]) &&
       n in cameFrom && cameFrom[n] == current)
    ensures forall n :: n in cameFrom0 ==> n in cameFrom
    ensures forall n :: n in cameFrom && n !in cameFrom0 ==> n in cost
    ensures forall n :: n in cameFrom && n in cameFrom0 && cameFrom[n] != cameFrom0[n] ==> n in cost && cameFrom[n] == current
    ensures frontier0 <= frontier
    ensures forall j :: |frontier0| <= j < |frontier| ==> frontier[j].position in cost && frontier[j].position in nbrs
    ensures forall n :: n in nbrs ==> n in cost
    ensures forall n :: n in cost && n !in cost0 ==> n in Positions(frontier)
  {
    cost, cameFrom, frontier := cost0, cameFrom0, frontier0;
    var i := 0;
    while i < |nbrs|
      invariant i <= |nbrs|
      invariant cost0.Keys <= cost.Keys && cost.Keys <= cost0.Keys + (set n | n in nbrs[..i])
      invariant current in cost && cost[current] == cost0[current]
      invariant forall n :: n in cost ==>
        (n in cost0 && cost[n] == cost0[n] && (n in cameFrom0 ==> n in cameFrom && cameFrom[n] == cameFrom0[n])) ||
        (n in nbrs[..i] && cost[n] == cost0[current] + 1 && (n !in cost0 || cost0[current] + 1 < cost0[n]) &&
         n in cameFrom && cameFrom[n] == current)
      invariant forall n :: n in cameFrom0 ==> n in cameFrom
      invariant forall n :: n in cameFrom && n !in cameFrom0 ==> n in cost
      invariant forall n :: n in cameFrom && n in cameFrom0 && cameFrom[n] != cameFrom0[n] ==> n in cost && cameFrom[n] == current
      invariant frontier0 <= frontier
      invariant forall j :: |frontier0| <= j < |frontier| ==> frontier[j].position in cost && frontier[j].position in nbrs
      invariant forall n :: n in nbrs[..i] ==> n in cost
      invariant forall n :: n in cost && n !in cost0 ==> n in Positions(frontier)
    {
      var next := nbrs[i];
      assert nbrs[..i + 1] == nbrs[..i] + [next];
      var newCost := cost[current] + 1;
      if next !in cost || newCost < cost[next] {
        var entry := PathPair(next, newCost + Heuristic(next, goal));
        PositionsSnoc(frontier, entry);
        cost := cost[next := newCost];
        frontier := frontier + [entry];
        cameFrom := cameFrom[next := current];
      }
      i := i + 1;
    }
  }

  /** A relaxation step keeps the search tree: updated nodes hang off
      current, whose cost is smaller, and the start node is never
      updated. */
  lemma RelaxKeepsTree(s: Node, graph: map<Node, seq<Node>>, current: Node,
                       cost0: map<Node, nat>, cameFrom0: map<Node, Node>,
                       cost: map<Node, nat>, cameFrom: map<Node, Node>)
    requires SearchTree(s, graph, cost0, cameFrom0) && current in cost0
    requires cost0.Keys <= cost.Keys
    requires forall n :: n in cost ==>
      (n in cost0 && cost[n] == cost0[n] && (n in cameFrom0 ==> n in cameFrom && cameFrom[n] == cameFrom0[n])) ||
      (n in Neighbours(graph, current) && cost[n] == cost0[current] + 1 && (n !in cost0 || cost0[current] + 1 < cost0[n]) &&
       n in cameFrom && cameFrom[n] == current)
    ensures SearchTree(s, graph, cost, cameFrom)
  {
    forall n | n in cost && n != s
      ensures cameFrom[n] in cost && cost[cameFrom[n]] < cost[n] && n in Neighbours(graph, cameFrom[n])
    {
      if n in cost0 && cost[n] == cost0[n] && cameFrom[n] == cameFrom0[n] {
        var p := cameFrom0[n];
        assert p in cost0 && cost0[p] < cost0[n];
        assert cost[p] <= cost0[p];
      }
    }
  }

  /** Inserting empty neighbour lists changes no node's neighbours, so
      the search tree survives it. */
  lemma GrowKeepsTree(s: Node, graph: map<Node, seq<Node>>, graph': map<Node, seq<Node>>,
                      cost: map<Node, nat>, cameFrom: map<Node, Node>)
    requires GrownEmpty(graph, graph') && SearchTree(s, graph, cost, cameFrom)
    ensures SearchTree(s, graph', cost, cameFrom)
  {
    forall n | n in cost && n != s
      ensures n in Neighbours(graph', cameFrom[n])
    {
      assert Neighbours(graph', cameFrom[n]) == Neighbours(graph, cameFrom[n]);
    }
  }

  /** Growing is transitive. */
  lemma GrownTrans(a: map<Node, seq<Node>>, b: map<Node, seq<Node>>, c: map<Node, seq<Node>>)
    requires GrownEmpty(a, b) && GrownEmpty(b, c)
    ensures GrownEmpty(a, c)
  {
  }

  /** Every frontier entry has a cost. */
  predicate Costed(frontier: seq<PathPair>, cost: map<Node, nat>)
  {
    forall j :: 0 <= j < |frontier| ==> frontier[j].position in cost
  }

  /** Popping an entry keeps the rest costed. */
  lemma RemovedCosted(frontier: seq<PathPair>, k: nat, cost: map<Node, nat>)
    requires k < |frontier| && Costed(frontier, cost)
    ensures Costed(frontier[..k] + frontier[k + 1..], cost)
  {
    var f := frontier[..k] + frontier[k + 1..];
    forall j | 0 <= j < |f|
      ensures f[j].position in cost
    {
      if j < k { assert f[j] == frontier[j]; } else { assert f[j] == frontier[j + 1]; }
    }
  }

  /** Appending costed entries while costs only grow keeps the frontier
      costed. */
  lemma ExtendedCosted(f0: seq<PathPair>, f: seq<PathPair>, cost0: map<Node, nat>, cost: map<Node, nat>)
    requires Costed(f0, cost0) && f0 <= f && cost0.Keys <= cost.Keys
    requires forall j :: |f0| <= j < |f| ==> f[j].position in cost
    ensures Costed(f, cost)
  {
    forall j | 0 <= j < |f|
      ensures f[j].position in cost
    {
      if j < |f0| { assert f[j] == f0[j]; }
    }
  }

  /** The nodes the frontier holds entries for. */
  function Positions(frontier: seq<PathPair>): set<Node>
  {
    set j | 0 <= j < |frontier| :: frontier[j].position
  }

  lemma PositionsSnoc(frontier: seq<PathPair>, e: PathPair)
    ensures Positions(frontier + [e]) == Positions(frontier) + {e.position}
  {
    var f := frontier + [e];
    assert f[|frontier|].position == e.position;
    forall n | n in Positions(frontier)
      ensures n in Positions(f)
    {
      var j :| 0 <= j < |frontier| && frontier[j].position == n;
      assert f[j] == frontier[j];
    }
  }

  /** Every costed node has been expanded or still waits on the frontier. */
  ghost predicate Covered(cost: map<Node, nat>, frontier: seq<PathPair>, expanded: set<Node>)
  {
    forall n :: n in cost ==> n in expanded || n in Positions(frontier)
  }

  /** Every expanded node is costed, and so are all its neighbours. */
  ghost predicate Closed(cost: map<Node, nat>, graph: map<Node, seq<Node>>, expanded: set<Node>)
  {
    (forall n :: n in expanded ==> n in cost) &&
    (forall n, m :: n in expanded && m in Neighbours(graph, n) ==> m in cost)
  }

  /** Popping entry k moves its node from the frontier to the expanded
      nodes. */
  lemma PopCovered(cost: map<Node, nat>, frontier: seq<PathPair>, k: nat, expanded: set<Node>)
    requires k < |frontier| && Covered(cost, frontier, expanded)
    ensures Covered(cost, frontier[..k] + frontier[k + 1..], expanded + {frontier[k].position})
  {
    var f := frontier[..k] + frontier[k + 1..];
    forall n | n in cost && n !in expanded + {frontier[k].position}
      ensures n in Positions(f)
    {
      var j :| 0 <= j < |frontier| && frontier[j].position == n;
      if j < k {
        assert f[j] == frontier[j];
      } else {
        assert f[j - 1] == frontier[j];
      }
    }
  }

  /** Relaxation only adds costed nodes that it also puts on the frontier. */
  lemma RelaxCovered(cost: map<Node, nat>, cost': map<Node, nat>, f: seq<PathPair>, f': seq<PathPair>, expanded: set<Node>)
    requires Covered(cost, f, expanded) && f <= f' && cost.Keys <= cost'.Keys
    requires forall n :: n in cost' && n !in cost ==> n in Positions(f')
    ensures Covered(cost', f', expanded)
  {
    forall n | n in cost' && n !in expanded
      ensures n in Positions(f')
    {
      if n in cost {
        var j :| 0 <= j < |f| && f[j].position == n;
        assert f'[j] == f[j];
      }
    }
  }

  /** Inserting empty neighbour lists keeps the expanded nodes closed. */
  lemma GrowClosed(cost: map<Node, nat>, graph: map<Node, seq<Node>>, graph': map<Node, seq<Node>>, expanded: set<Node>)
    requires GrownEmpty(graph, graph') && Closed(cost, graph, expanded)
    ensures Closed(cost, graph', expanded)
  {
    forall n, m | n in expanded && m in Neighbours(graph', n)
      ensures m in cost
    {
      assert Neighbours(graph', n) == Neighbours(graph, n);
    }
  }

  /** Once all of current's neighbours are costed, current is closed too. */
  lemma RelaxClosed(cost: map<Node, nat>, cost': map<Node, nat>, graph: map<Node, seq<Node>>, expanded: set<Node>, current: Node)
    requires Closed(cost, graph, expanded) && current in cost && cost.Keys <= cost'.Keys
    requires forall n :: n in Neighbours(graph, current) ==> n in cost'
    ensures Closed(cost', graph, expanded + {current})
  {
  }

  /** `aStarSearch` on a graph whose keys are visited in the order `order`:
      both ends are first moved to their closest keys, the start is seeded
      with cost 0 as its own predecessor, and the frontier is popped least
      priority first until the end node is popped or the frontier runs out.
      `graph[current]` inserts an empty neighbour list for a node without
      one, so the graph is returned too. */
  method AStarSearch(graph0: map<Node, seq<Node>>, order: seq<Node>, start0: Node, end0: Node,
                     cameFrom0: map<Node, Node>, fuel: nat)
    returns (result: SearchResult, graph: map<Node, seq<Node>>, cameFrom: map<Node, Node>, cost: map<Node, nat>)
    ensures GrownEmpty(graph0, graph)
    ensures forall n :: n in cameFrom0 ==> n in cameFrom
    ensures forall n :: n in cameFrom && n !in cost ==> n in cameFrom0 && cameFrom[n] == cameFrom0[n]
    ensures SearchTree(Closest(order, start0), graph, cost, cameFrom)
    ensures result == Found ==> Closest(order, end0) in cost
    ensures result == Found ==>
      Walk(cameFrom, Closest(order, end0), cost[Closest(order, end0)]) == Closest(order, start0)
    ensures result == Exhausted ==> Closest(order, end0) !in cost
    ensures result == Exhausted ==> forall n, m :: n in cost && m in Neighbours(graph, n) ==> m in cost
  {
    var start := ClosestPos(order, start0);
    var end := ClosestPos(order, end0);
    graph := graph0;
    var frontier := [PathPair(start, 0)];
    cameFrom := cameFrom0[start := start];
    cost := map[start := 0];
    var steps := 0;
    ghost var expanded: set<Node> := {};
    assert frontier[0].position == start;
    while frontier != []
      invariant GrownEmpty(graph0, graph)
      invariant forall n :: n in cameFrom0 ==> n in cameFrom
      invariant forall n :: n in cameFrom && n !in cost ==> n in cameFrom0 && cameFrom[n] == cameFrom0[n]
      invariant SearchTree(start, graph, cost, cameFrom)
      invariant Costed(frontier, cost)
      invariant Covered(cost, frontier, expanded) && Closed(cost, graph, expanded) && end !in expanded
      invariant steps <= fuel
      decreases fuel - steps
    {
      if steps == fuel {
        return OutOfFuel, graph, cameFrom, cost;
      }
      steps := steps + 1;
      var k := MinIndex(frontier);
      var current := frontier[k].position;
      RemovedCosted(frontier, k, cost);
      PopCovered(cost, frontier, k, expanded);
      frontier := frontier[..k] + frontier[k + 1..];
      if current == end {
        WalkReachesStart(start, graph, cost, cameFrom, end, cost[end]);
        return Found, graph, cameFrom, cost;
      }
      ghost var graphBefore := graph;
      if current !in graph {
        graph := graph[current := []];
      }
      GrownTrans(graph0, graphBefore, graph);
      GrowKeepsTree(start, graphBefore, graph, cost, cameFrom);
      GrowClosed(cost, graphBefore, graph, expanded);
      var nbrs := graph[current];
      var cost', cameFrom', frontier' := Relax(current, nbrs, end, cost, cameFrom, frontier);
      RelaxKeepsTree(start, graph, current, cost, cameFrom, cost', cameFrom');
      ExtendedCosted(frontier, frontier', cost, cost');
      RelaxCovered(cost, cost', frontier, frontier', expanded + {current});
      RelaxClosed(cost, cost', graph, expanded, current);
      expanded := expanded + {current};
      cost, cameFrom := cost', cameFrom';
      frontier := frontier';
    }
    assert Positions(frontier) == {};
    return Exhausted, graph, cameFrom, cost;
  }

  /** Consecutive entries of xs are linked: each maps to the next. */
  predicate Linked(xs: seq<Node>, cameFrom: map<Node, Node>)
  {
    forall i :: 0 <= i < |xs| - 1 ==> xs[i] in cameFrom && cameFrom[xs[i]] == xs[i + 1]
  }

  /** Past its first node, each node of a path is reached from the next
      one through a `cameFrom` link. */
  predicate LinksBack(path: seq<Node>, cameFrom: map<Node, Node>)
  {
    forall j :: 2 <= j < |path| ==> path[j] in cameFrom && cameFrom[path[j]] == path[j - 1]
  }

  function Reverse(s: seq<Node>): (r: seq<Node>)
    ensures |r| == |s|
    ensures forall i :: 0 <= i < |s| ==> r[i] == s[|s| - 1 - i]
  {
    if s == [] then [] else Reverse(s[1..]) + [s[0]]
  }

  lemma CardSubset(a: set<Node>, b: set<Node>)
    requires a <= b
    ensures |a| <= |b|
  {
    assert b == a + (b - a);
  }

  /** `reconstructPath` over a graph whose keys are visited in the order
      `order`: from the end node, follow `cameFrom` until the start node or
      until as many steps as the map has entries, then put the start node in
      front and reverse. `cameFrom[current]` inserts the origin for a node
      without a predecessor, so the map is returned too. */
  method ReconstructPath(order: seq<Node>, start0: Node, end0: Node, cameFrom0: map<Node, Node>)
    returns (path: seq<Node>, cameFrom: map<Node, Node>)
    ensures path != [] && path[0] == Closest(order, start0)
    ensures Closest(order, end0) != Closest(order, start0) && cameFrom0 != map[] ==>
      |path| >= 2 && path[|path| - 1] == Closest(order, end0)
    ensures LinksBack(path, cameFrom)
    ensures |path| <= |cameFrom| + 1
    ensures forall n :: n in cameFrom0 ==> n in cameFrom && cameFrom[n] == cameFrom0[n]
    ensures forall n :: n in cameFrom && n !in cameFrom0 ==> cameFrom[n] == Origin
  {
    var start := ClosestPos(order, start0);
    var end := ClosestPos(order, end0);
    cameFrom := cameFrom0;
    ghost var universe := cameFrom0.Keys + cameFrom0.Values + {end, Origin};
    var visited: seq<Node> := [];
    var current := end;
    var count := 0;
    while current != start && count < |cameFrom|
      invariant count == |visited| <= |cameFrom|
      invariant cameFrom.Keys <= universe && current in universe
      invariant visited == [] ==> current == end
      invariant visited != [] ==> visited[0] == end
      invariant Linked(visited + [current], cameFrom)
      invariant forall n :: n in cameFrom0 ==> n in cameFrom && cameFrom[n] == cameFrom0[n]
      invariant forall n :: n in cameFrom && n !in cameFrom0 ==> cameFrom[n] == Origin
      decreases |universe| - count
    {
      CardSubset(cameFrom.Keys, universe);
      count := count + 1;
      ghost var links := cameFrom;
      if current !in cameFrom {
        cameFrom := cameFrom[current := Origin];
      }
      LinkedExtend(visited, current, links, cameFrom);
      visited := visited + [current];
      current := cameFrom[current];
    }
    if count > |cameFrom| {
      path := [end];
      return;
    }
    path := [start] + Reverse(visited);
    ReversedLinks(visited, current, cameFrom, start);
  }

  /** A chain of links stays one when the map gains the origin as the
      predecessor of its last node x, and grows by the node x links to. */
  lemma LinkedExtend(xs: seq<Node>, x: Node, links: map<Node, Node>, links': map<Node, Node>)
    requires Linked(xs + [x], links)
    requires links' == links || (x !in links && links' == links[x := Origin])
    requires x in links'
    ensures Linked(xs + [x] + [links'[x]], links')
  {
    var ys := xs + [x] + [links'[x]];
    forall i | 0 <= i < |ys| - 1
      ensures ys[i] in links' && links'[ys[i]] == ys[i + 1]
    {
      if i < |xs| {
        assert ys[i] == (xs + [x])[i] && ys[i + 1] == (xs + [x])[i + 1];
      }
    }
  }

  /** Reversing a chain of links and putting another node in front gives a
      path whose later steps each lead back through a link. */
  lemma ReversedLinks(visited: seq<Node>, current: Node, cameFrom: map<Node, Node>, start: Node)
    requires Linked(visited + [current], cameFrom)
    ensures LinksBack([start] + Reverse(visited), cameFrom)
  {
    var path := [start] + Reverse(visited);
    var v := visited + [current];
    forall j | 2 <= j < |path|
      ensures path[j] in cameFrom && cameFrom[path[j]] == path[j - 1]
    {
      var k := |visited| - j;
      assert path[j] == visited[k] == v[k];
      assert path[j - 1] == visited[k + 1] == v[k + 1];
    }
  }
}
