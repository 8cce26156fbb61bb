/** `MapExploreComponent`'s map building: the explored grid cells are
    pruned of outliers, then each remaining cell gets its neighbours among
    the cells one step away in the eight grid directions, and only well
    connected cells enter the graph. An `unordered_set` of cells becomes a
    sequence without duplicates in iteration order; cells lie on the
    integer grid with a real height. */
module MapExplore {
  import opened Seqs

  datatype Cell = Cell(x: int, y: real, z: int)

  function Abs(v: int): nat
  {
    if v < 0 then -v else v
  }

  function RAbs(v: real): real
  {
    if v < 0.0 then -v else v
  }

  function Members(s: seq<Cell>): set<Cell>
  {
    set c | c in s
  }

  /** `validNeighbor`: within a step (plus 0.2) on both grid axes and less
      than half a unit up or down. */
  predicate ValidNeighbor(cur: Cell, candidate: Cell, stepSize: int)
  {
    (Abs(cur.x - candidate.x) as real) < (stepSize as real) + 0.2 &&
    (Abs(cur.z - candidate.z) as real) < (stepSize as real) + 0.2 &&
    RAbs(candidate.y - cur.y) < 0.5
  }

  /** On the integer grid the 0.2 slack means: at most one step away on
      each axis. */
  lemma ValidNeighborOnGrid(cur: Cell, candidate: Cell, stepSize: int)
    ensures ValidNeighbor(cur, candidate, stepSize) <==>
      Abs(cur.x - candidate.x) <= stepSize && Abs(cur.z - candidate.z) <= stepSize &&
      RAbs(candidate.y - cur.y) < 0.5
  {
    var dx, dz := Abs(cur.x - candidate.x), Abs(cur.z - candidate.z);
    if (dx as real) < (stepSize as real) + 0.2 {
      assert ((dx - stepSize) as real) < 0.2;
      assert dx - stepSize < 1;
    }
    if (dz as real) < (stepSize as real) + 0.2 {
      assert ((dz - stepSize) as real) < 0.2;
      assert dz - stepSize < 1;
    }
  }

  /** The cells at grid column (x, z), in iteration order. */
  function GridCells(cells: seq<Cell>, x: int, z: int): (r: seq<Cell>)
    ensures forall c :: c in r <==> c in cells && c.x == x && c.z == z
    ensures |r| <= |cells|
  {
    if cells == [] then []
    else
      var p := cells[..|cells| - 1];
      var c := cells[|cells| - 1];
      assert cells == p + [c];
      if c.x == x && c.z == z then GridCells(p, x, z) + [c] else GridCells(p, x, z)
  }

  /** `gridFind`: the cells with the given x and z, by a scan. */
  method GridFind(cells: seq<Cell>, xPos: int, zPos: int) returns (found: seq<Cell>)
    ensures found == GridCells(cells, xPos, zPos)
  {
    found := [];
    var i := 0;
    while i < |cells|
      invariant i <= |cells|
      invariant found == GridCells(cells[..i], xPos, zPos)
    {
      assert cells[..i + 1][..i] == cells[..i];
      if cells[i].x == xPos && cells[i].z == zPos {
        found := found + [cells[i]];
      }
      i := i + 1;
    }
    assert cells[..i] == cells;
  }

  /** How far `removeOutliers` looks in each direction. */
  const TestRadius: nat := 5

  /** The four axis directions of `removeOutliers`. */
  const XDir4: seq<int> := [0, 1, 0, -1]
  const ZDir4: seq<int> := [1, 0, -1, 0]

  /** The number of consecutive cells of c's height present in S from
      offset i outwards in direction (dx, dz), up to the test radius. */
  function Run(S: set<Cell>, c: Cell, dx: int, dz: int, i: nat): (n: nat)
    requires i <= TestRadius
    ensures n <= TestRadius - i
    decreases TestRadius - i
  {
    if i == TestRadius || Cell(c.x + dx * i, c.y, c.z + dz * i) !in S then 0
    else 1 + Run(S, c, dx, dz, i + 1)
  }

  /** The runs of the first k directions added up. */
  function DirSum(S: set<Cell>, c: Cell, k: nat): nat
    requires k <= 4
  {
    if k == 0 then 0 else DirSum(S, c, k - 1) + Run(S, c, XDir4[k - 1], ZDir4[k - 1], 0)
  }

  /** The count `removeOutliers` compares with 6. */
  function Count(S: set<Cell>, c: Cell): nat
  {
    DirSum(S, c, 4)
  }

  /** Offset 0 is the cell itself, so a present cell counts at least 4 and
      at most 20. */
  lemma CountBounds(S: set<Cell>, c: Cell)
    requires c in S
    ensures 4 <= Count(S, c) <= 20
  {
    forall k | 0 <= k < 4 ensures Run(S, c, XDir4[k], ZDir4[k], 0) >= 1 {
      assert Cell(c.x + XDir4[k] * 0, c.y, c.z + ZDir4[k] * 0) == c;
    }
    CountIsSum(S, c);
  }

  lemma CountIsSum(S: set<Cell>, c: Cell)
    ensures Count(S, c) == Run(S, c, XDir4[0], ZDir4[0], 0) + Run(S, c, XDir4[1], ZDir4[1], 0)
                         + Run(S, c, XDir4[2], ZDir4[2], 0) + Run(S, c, XDir4[3], ZDir4[3], 0)
  {
    assert DirSum(S, c, 1) == Run(S, c, XDir4[0], ZDir4[0], 0);
    assert DirSum(S, c, 2) == DirSum(S, c, 1) + Run(S, c, XDir4[1], ZDir4[1], 0);
    assert DirSum(S, c, 3) == DirSum(S, c, 2) + Run(S, c, XDir4[2], ZDir4[2], 0);
  }

  /** A cell with none of its four axis neighbours present counts exactly
      4. */
  lemma IsolatedCount(S: set<Cell>, c: Cell)
    requires c in S
    requires forall k :: 0 <= k < 4 ==> Cell(c.x + XDir4[k], c.y, c.z + ZDir4[k]) !in S
    ensures Count(S, c) == 4
  {
    forall k | 0 <= k < 4 ensures Run(S, c, XDir4[k], ZDir4[k], 0) == 1 {
      assert Cell(c.x + XDir4[k] * 0, c.y, c.z + ZDir4[k] * 0) == c;
      assert Cell(c.x + XDir4[k] * 1, c.y, c.z + ZDir4[k] * 1) !in S;
      assert Run(S, c, XDir4[k], ZDir4[k], 1) == 0;
    }
    CountIsSum(S, c);
  }

  /** Counting can only grow with the set. */
  lemma {:induction false} RunMonotone(S: set<Cell>, T: set<Cell>, c: Cell, dx: int, dz: int, i: nat)
    requires S <= T && i <= TestRadius
    ensures Run(S, c, dx, dz, i) <= Run(T, c, dx, dz, i)
    decreases TestRadius - i
  {
    if i < TestRadius && Cell(c.x + dx * i, c.y, c.z + dz * i) in S {
      RunMonotone(S, T, c, dx, dz, i + 1);
    }
  }

  /** The inner loop of `removeOutliers` for one direction: it steps out
      from offset 0 and stops at the first missing cell. */
  method RunLength(S: set<Cell>, c: Cell, dx: int, dz: int) returns (count: nat)
    ensures count == Run(S, c, dx, dz, 0)
  {
    count := 0;
    var i := 0;
    while i < TestRadius
      invariant i <= TestRadius && count == i
      invariant count + Run(S, c, dx, dz, i) == Run(S, c, dx, dz, 0)
    {
      if Cell(c.x + dx * i, c.y, c.z + dz * i) !in S {
        break;
      }
      count := count + 1;
      i := i + 1;
    }
  }

  /** The count of one cell, over the four directions. */
  method CountNeighbours(S: set<Cell>, c: Cell) returns (count: nat)
    ensures count == Count(S, c)
  {
    count := 0;
    var dir := 0;
    while dir < 4
      invariant dir <= 4 && count == DirSum(S, c, dir)
    {
      var n := RunLength(S, c, XDir4[dir], ZDir4[dir]);
      count := count + n;
      dir := dir + 1;
    }
  }

  /** The cells `removeOutliers` keeps: each cell, in iteration order, is
      erased when its count among the cells not erased so far is below 6. */
  function Prune(kept: seq<Cell>, rest: seq<Cell>): seq<Cell>
    decreases |rest|
  {
    if rest == [] then kept
    else if Count(Members(kept + rest), rest[0]) < 6 then Prune(kept, rest[1..])
    else Prune(kept + [rest[0]], rest[1..])
  }

  /** Pruning only erases: the kept cells come first, everything in the
      result was there before, and a set without duplicates stays so. */
  lemma {:induction false} PruneOnlyErases(kept: seq<Cell>, rest: seq<Cell>)
    ensures kept <= Prune(kept, rest)
    ensures |Prune(kept, rest)| <= |kept| + |rest|
    ensures forall c :: c in Prune(kept, rest) ==> c in kept || c in rest
    ensures NoDup(kept + rest) ==> NoDup(Prune(kept, rest))
    decreases |rest|
  {
    if rest == [] {
      assert kept + rest == kept;
    } else {
      var c := rest[0];
      assert kept + rest == (kept + [c]) + rest[1..];
      assert forall d :: d in rest[1..] ==> d in rest;
      if Count(Members(kept + rest), c) < 6 {
        PruneOnlyErases(kept, rest[1..]);
        if NoDup(kept + rest) {
          assert NoDup(kept + rest[1..]) by {
            forall i, j | 0 <= i < j < |kept + rest[1..]|
              ensures (kept + rest[1..])[i] != (kept + rest[1..])[j]
            {
              var m := kept + rest;
              if i < |kept| {
                if j < |kept| { assert (kept + rest[1..])[j] == m[j]; }
                else { assert (kept + rest[1..])[j] == m[j + 1]; }
                assert (kept + rest[1..])[i] == m[i];
              } else {
                assert (kept + rest[1..])[i] == m[i + 1] && (kept + rest[1..])[j] == m[j + 1];
              }
            }
          }
        }
      } else {
        PruneOnlyErases(kept + [c], rest[1..]);
      }
    }
  }

  /** A cell none of whose four axis neighbours is present is always
      erased. */
  lemma {:induction false} IsolatedCellErased(kept: seq<Cell>, rest: seq<Cell>, c: Cell)
    requires NoDup(kept + rest) && c in rest
    requires forall k :: 0 <= k < 4 ==> Cell(c.x + XDir4[k], c.y, c.z + ZDir4[k]) !in Members(kept + rest)
    ensures c !in Prune(kept, rest)
    decreases |rest|
  {
    var m := kept + rest;
    assert m[|kept|] == rest[0];
    if rest[0] == c {
      IsolatedCount(Members(m), c);
      PruneOnlyErases(kept, rest[1..]);
      assert c !in kept by {
        forall i | 0 <= i < |kept| ensures kept[i] != c {
          assert m[i] == kept[i];
        }
      }
      assert c !in rest[1..] by {
        forall i | 0 <= i < |rest| - 1 ensures rest[1..][i] != c {
          assert m[|kept| + 1 + i] == rest[1..][i];
        }
      }
    } else {
      var next := if Count(Members(m), rest[0]) < 6 then kept else kept + [rest[0]];
      assert Members(next + rest[1..]) <= Members(m);
      assert c in rest[1..];
      assert NoDup(next + rest[1..]) by {
        forall i, j | 0 <= i < j < |next + rest[1..]|
          ensures (next + rest[1..])[i] != (next + rest[1..])[j]
        {
          var t := next + rest[1..];
          var off := if next == kept then 1 else 0;
          if i < |kept| {
            assert t[i] == m[i];
            if j < |kept| { assert t[j] == m[j]; } else { assert t[j] == m[j + off]; }
          } else {
            assert t[i] == m[i + off] && t[j] == m[j + off];
          }
        }
      }
      IsolatedCellErased(next, rest[1..], c);
    }
  }

  /** `removeOutliers`: erases, while iterating, every cell whose count
      among the cells still present is below 6. */
  method RemoveOutliers(graphSet: seq<Cell>) returns (kept: seq<Cell>)
    ensures kept == Prune([], graphSet)
  {
    kept := [];
    var i := 0;
    while i < |graphSet|
      invariant i <= |graphSet|
      invariant Prune(kept, graphSet[i..]) == Prune([], graphSet)
    {
      var rest := graphSet[i..];
      var count := CountNeighbours(Members(kept + rest), graphSet[i]);
      assert rest[1..] == graphSet[i + 1..];
      if count >= 6 {
        kept := kept + [graphSet[i]];
      }
      i := i + 1;
    }
  }

  /** The eight grid directions of the neighbour search. */
  const XDir8: seq<int> := [1, 1, 0, -1, -1, -1, 0, 1]
  const ZDir8: seq<int> := [0, 1, 1, 1, 0, -1, -1, -1]

  /** `dir * stepSize` for a direction component dir of -1, 0 or 1. */
  function Towards(dir: int, stepSize: int): int
  {
    if dir == 1 then stepSize else if dir == -1 then -stepSize else 0
  }

  /** The neighbour taken from the cells found in one direction: with two
      (a raised walkway), the first when it is level with cur, else the
      second; with one, that one; each only when it is a valid neighbour. */
  function Candidate(possible: seq<Cell>, cur: Cell, stepSize: int): (r: seq<Cell>)
    ensures |r| <= 1
    ensures forall n :: n in r ==> n in possible && ValidNeighbor(cur, n, stepSize)
    ensures |possible| == 2 && possible[0].y == cur.y ==>
      (r != [] <==> ValidNeighbor(cur, possible[0], stepSize)) && (r != [] ==> r[0] == possible[0])
    ensures |possible| == 2 && possible[0].y != cur.y ==>
      (r != [] <==> ValidNeighbor(cur, possible[1], stepSize)) && (r != [] ==> r[0] == possible[1])
    ensures |possible| == 1 ==> (r != [] <==> ValidNeighbor(cur, possible[0], stepSize))
    ensures |possible| == 0 || |possible| > 2 ==> r == []
  {
    if |possible| == 2 then
      var n := if possible[0].y == cur.y then possible[0] else possible[1];
      if ValidNeighbor(cur, n, stepSize) then [n] else []
    else if |possible| == 1 then
      if ValidNeighbor(cur, possible[0], stepSize) then [possible[0]] else []
    else []
  }

  /** The neighbour of cur found in direction d, if any. */
  function DirCandidate(cells: seq<Cell>, cur: Cell, stepSize: int, d: nat): (r: seq<Cell>)
    requires d < 8
    ensures |r| <= 1
    ensures forall n :: n in r ==> n in cells && ValidNeighbor(cur, n, stepSize)
  {
    Candidate(GridCells(cells, cur.x + Towards(XDir8[d], stepSize), cur.z + Towards(ZDir8[d], stepSize)), cur, stepSize)
  }

  /** The neighbours of cur found in the first d directions. */
  function NeighboursUpTo(cells: seq<Cell>, cur: Cell, stepSize: int, d: nat): (r: seq<Cell>)
    requires d <= 8
    ensures |r| <= d
    ensures forall n :: n in r ==> n in cells && ValidNeighbor(cur, n, stepSize)
  {
    if d == 0 then [] else NeighboursUpTo(cells, cur, stepSize, d - 1) + DirCandidate(cells, cur, stepSize, d - 1)
  }

  /** The branches of `findNeighbors` for one direction, written with the
      source's own nesting of conditions; `Candidate` is the definition
      it is proved against. */
  method ChooseNeighbor(possible: seq<Cell>, cur: Cell, stepSize: int) returns (found: seq<Cell>)
    ensures found == Candidate(possible, cur, stepSize)
  {
    found := [];
    if |possible| == 2 {
      if possible[0].y == cur.y {
        if ValidNeighbor(cur, possible[0], stepSize) {
          found := [possible[0]];
        }
      } else {
        if ValidNeighbor(cur, possible[1], stepSize) {
          found := [possible[1]];
        }
      }
    } else if |possible| == 1 {
      if ValidNeighbor(cur, possible[0], stepSize) {
        found := [possible[0]];
      }
    }
  }

  /** Direction d adds the candidate chosen among the cells found one
      step away in that direction. */
  lemma NeighboursStep(cells: seq<Cell>, cur: Cell, stepSize: int, d: nat, x: int, z: int, possible: seq<Cell>)
    requires d < 8
    requires x == cur.x + Towards(XDir8[d], stepSize) && z == cur.z + Towards(ZDir8[d], stepSize)
    requires possible == GridCells(cells, x, z)
    ensures NeighboursUpTo(cells, cur, stepSize, d + 1) ==
      NeighboursUpTo(cells, cur, stepSize, d) + Candidate(possible, cur, stepSize)
  {
    assert DirCandidate(cells, cur, stepSize, d) == Candidate(possible, cur, stepSize);
  }

  /** The neighbours of one cell, at most one per direction. */
  method FindNeighbours(cells: seq<Cell>, cur: Cell, stepSize: int) returns (neighbors: seq<Cell>)
    ensures neighbors == NeighboursUpTo(cells, cur, stepSize, 8)
  {
    neighbors := [];
    var dir := 0;
    while dir < 8
      invariant dir <= 8 && neighbors == NeighboursUpTo(cells, cur, stepSize, dir)
    {
      var x, z := cur.x + Towards(XDir8[dir], stepSize), cur.z + Towards(ZDir8[dir], stepSize);
      var possible := GridFind(cells, x, z);
      var found := ChooseNeighbor(possible, cur, stepSize);
      NeighboursStep(cells, cur, stepSize, dir, x, z, possible);
      neighbors := neighbors + found;
      dir := dir + 1;
    }
  }

  /** The neighbour-graph loop of `update`: every cell with more than four
      neighbours is emplaced with its neighbours (an existing key is kept). */
  method BuildGraph(graphSet: seq<Cell>, stepSize: int, graph0: map<Cell, seq<Cell>>)
    returns (graph: map<Cell, seq<Cell>>)
    ensures forall c :: c in graph0 ==> c in graph && graph[c] == graph0[c]
    ensures forall c :: c in graph && c !in graph0 ==> c in graphSet
    ensures forall c :: c in graphSet && c !in graph0 ==>
      (c in graph <==> |NeighboursUpTo(graphSet, c, stepSize, 8)| > 4) &&
      (c in graph ==> graph[c] == NeighboursUpTo(graphSet, c, stepSize, 8))
    ensures forall c :: c in graph && c !in graph0 ==>
      4 < |graph[c]| <= 8 && forall n :: n in graph[c] ==> n in graphSet && ValidNeighbor(c, n, stepSize)
  {
    graph := graph0;
    var i := 0;
    while i < |graphSet|
      invariant i <= |graphSet|
      invariant forall c :: c in graph0 ==> c in graph && graph[c] == graph0[c]
      invariant forall c :: c in graph && c !in graph0 ==> c in graphSet[..i]
      invariant forall c :: c in graphSet[..i] && c !in graph0 ==>
        (c in graph <==> |NeighboursUpTo(graphSet, c, stepSize, 8)| > 4) &&
        (c in graph ==> graph[c] == NeighboursUpTo(graphSet, c, stepSize, 8))
    {
      var curPos := graphSet[i];
      assert graphSet[..i + 1] == graphSet[..i] + [curPos];
      var neighbors := FindNeighbours(graphSet, curPos, stepSize);
      if |neighbors| > 4 && curPos !in graph {
        graph := graph[curPos := neighbors];
      }
      i := i + 1;
    }
    assert graphSet[..i] == graphSet;
  }
}
