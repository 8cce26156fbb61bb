/** The collision rules of `CollisionSystem`: how a contact between two
    bounders is routed by weight into the per-bounder lists of (weight,
    delta) pairs, how the deltas of one bounder are combined into a net
    delta, and the nearest-hit ray pick. The geometric tests
    (`BounderComponent::collide` and `intersect`) are oracles: their
    answers are parameters. */
module CollisionSystem {
  import opened Vectors
  import opened Util
  import opened Seqs

  const UIntMax: nat := 0xFFFF_FFFF

  /** An `unsigned int` weight. */
  type Weight = w: nat | w <= UIntMax

  /** A bounder; only its weight matters to the routing rules. */
  class Bounder {
    const weight: Weight

    constructor (weight: Weight)
      ensures this.weight == weight
    {
      this.weight := weight;
    }
  }

  /** One entry of a bounder's collision list: the weight of the other
      bounder and the adjustment delta. */
  datatype WeightDelta = WeightDelta(weight: Weight, delta: Vec3)

  /** What `collide` answers and the collision lists it leaves. */
  datatype Outcome = Outcome(hit: bool, entries: map<Bounder, seq<WeightDelta>>)

  /** `(*collisions)[&b]`: the list of b, created empty if absent. */
  function Touch(entries: map<Bounder, seq<WeightDelta>>, b: Bounder): map<Bounder, seq<WeightDelta>>
  {
    entries[b := Lookup(entries, b)]
  }

  /** `(*collisions)[&b].emplace_back(wd)`. */
  function Append(entries: map<Bounder, seq<WeightDelta>>, b: Bounder, wd: WeightDelta): map<Bounder, seq<WeightDelta>>
  {
    entries[b := Lookup(entries, b) + [wd]]
  }

  /** The pairs a bounder of weight `mine` receives from a contact with one
      of weight `other`, `d` being the delta as seen from it: the lighter
      side takes the whole delta tagged with the heavier weight, equal
      weights split it in half, the heavier side and anything touching a
      weight-0 bounder receive nothing. */
  function Received(mine: Weight, other: Weight, hit: bool, d: Vec3): (r: seq<WeightDelta>)
    ensures |r| <= 1
    ensures r != [] <==> hit && mine != 0 && other != 0 && mine <= other && mine != UIntMax
    ensures r != [] ==> r[0].weight == other
  {
    if !hit || mine == 0 || other == 0 || mine == UIntMax then []
    else if mine < other then [WeightDelta(other, d)]
    else if mine == other then [WeightDelta(other, Scale(0.5, d))]
    else []
  }

  /** The anonymous-namespace `collide` with a collision map, on values.
      Two immovable bounders never collide; a weight-0 side only records
      that a contact happened; otherwise the deltas are routed to the
      lighter side, or split between equal weights. */
  function Route(entries: map<Bounder, seq<WeightDelta>>, b1: Bounder, b2: Bounder, hit: bool, delta: Vec3): (r: Outcome)
    ensures b1.weight == UIntMax && b2.weight == UIntMax ==> r == Outcome(false, entries)
    ensures r.hit == (hit && !(b1.weight == UIntMax && b2.weight == UIntMax))
    ensures r.entries.Keys == entries.Keys +
      (if r.hit then (set b | b in {b1, b2} && b.weight != UIntMax) else {})
    ensures forall b :: b in entries && b != b1 && b != b2 ==> b in r.entries && r.entries[b] == entries[b]
    ensures b1 != b2 ==> Lookup(r.entries, b1) == Lookup(entries, b1) + Received(b1.weight, b2.weight, r.hit, delta)
    ensures b1 != b2 ==> Lookup(r.entries, b2) == Lookup(entries, b2) + Received(b2.weight, b1.weight, r.hit, Neg(delta))
  {
    var w1, w2 := b1.weight, b2.weight;
    if w1 == UIntMax && w2 == UIntMax then Outcome(false, entries)
    else if w1 == 0 || w2 == 0 then
      if !hit then Outcome(false, entries)
      else
        var e1 := if w1 != UIntMax then Touch(entries, b1) else entries;
        Outcome(true, if w2 != UIntMax then Touch(e1, b2) else e1)
    else if !hit then Outcome(false, entries)
    else if w1 < w2 then
      var e1 := Append(entries, b1, WeightDelta(w2, delta));
      Outcome(true, if w2 != UIntMax then Touch(e1, b2) else e1)
    else if w2 < w1 then
      var e1 := if w1 != UIntMax then Touch(entries, b1) else entries;
      Outcome(true, Append(e1, b2, WeightDelta(w1, Neg(delta))))
    else
      var half := Scale(0.5, delta);
      assert Neg(half) == Scale(0.5, Neg(delta));
      Outcome(true, Append(Append(entries, b1, WeightDelta(w2, half)), b2, WeightDelta(w1, Neg(half))))
  }

  /** Equal movable weights split a contact's delta exactly in half: each
      side receives one share, the shares are opposite, and together they
      make up the delta. */
  lemma EqualWeightsSplitEvenly(b1: Bounder, b2: Bounder, delta: Vec3)
    requires b1 != b2 && b1.weight == b2.weight && 0 < b1.weight < UIntMax
    ensures var r1 := Received(b1.weight, b2.weight, true, delta);
            var r2 := Received(b2.weight, b1.weight, true, Neg(delta));
            |r1| == 1 && |r2| == 1 && Sub(r1[0].delta, r2[0].delta) == delta && r1[0].delta == Neg(r2[0].delta)
  {
  }

  /** Only the lighter of two unequal movable bounders is ever adjusted. */
  lemma HeavierNeverReceives(mine: Weight, other: Weight, hit: bool, d: Vec3)
    requires other < mine
    ensures Received(mine, other, hit, d) == []
  {
  }

  /** The collision lists `CollisionSystem` keeps between `collide` calls
      and `update`. */
  class Collisions {
    var entries: map<Bounder, seq<WeightDelta>>

    constructor ()
      ensures entries == map[]
    {
      entries := map[];
    }
  }

  /** `collide(b1, b2, collisions)`: `hit` and `delta` are what
      `b1.collide(b2, ...)` answers. Without a map it only reports the
      contact. */
  method Collide(b1: Bounder, b2: Bounder, collisions: Collisions?, hit: bool, delta: Vec3) returns (res: bool)
    modifies collisions
    ensures collisions == null ==> res == (hit && !(b1.weight == UIntMax && b2.weight == UIntMax))
    ensures collisions != null ==>
      Outcome(res, collisions.entries) == Route(old(collisions.entries), b1, b2, hit, delta)
  {
    if b1.weight == UIntMax && b2.weight == UIntMax {
      return false;
    }
    if collisions == null {
      return hit;
    }
    if b1.weight == 0 || b2.weight == 0 {
      if hit {
        if b1.weight != UIntMax { collisions.entries := Touch(collisions.entries, b1); }
        if b2.weight != UIntMax { collisions.entries := Touch(collisions.entries, b2); }
      }
      return hit;
    }
    if !hit {
      return false;
    }
    if b1.weight < b2.weight {
      collisions.entries := collisions.entries[b1 := Lookup(collisions.entries, b1) + [WeightDelta(b2.weight, delta)]];
      if b2.weight != UIntMax { collisions.entries := Touch(collisions.entries, b2); }
    } else if b2.weight < b1.weight {
      if b1.weight != UIntMax { collisions.entries := Touch(collisions.entries, b1); }
      collisions.entries := collisions.entries[b2 := Lookup(collisions.entries, b2) + [WeightDelta(b1.weight, Neg(delta))]];
    } else {
      var half := Scale(0.5, delta);
      collisions.entries := collisions.entries[b1 := Lookup(collisions.entries, b1) + [WeightDelta(b2.weight, half)]];
      collisions.entries := collisions.entries[b2 := Lookup(collisions.entries, b2) + [WeightDelta(b1.weight, Neg(half))]];
    }
    return true;
  }

  /** One component of `compositeDeltas`: the larger of two pushes the same
      way, the sum otherwise. */
  function CompositeComponent(a: real, b: real): (c: real)
    ensures a > 0.0 && b > 0.0 ==> c == (if a < b then b else a)
    ensures a < 0.0 && b < 0.0 ==> c == (if a < b then a else b)
    ensures !(a > 0.0 && b > 0.0) && !(a < 0.0 && b < 0.0) ==> c == a + b
  {
    if a > 0.0 && b > 0.0 then (if a < b then b else a)
    else if a < 0.0 && b < 0.0 then (if a < b then a else b)
    else a + b
  }

  /** `compositeDeltas`: combines two adjustment deltas so that the
      largest push along each axis and direction is kept. */
  function CompositeDeltas(d1: Vec3, d2: Vec3): Vec3
  {
    Vec3(CompositeComponent(d1.x, d2.x), CompositeComponent(d1.y, d2.y), CompositeComponent(d1.z, d2.z))
  }

  /** Combining is commutative, has the zero vector as identity and is
      idempotent. */
  lemma CompositeDeltasLaws(d1: Vec3, d2: Vec3)
    ensures CompositeDeltas(d1, d2) == CompositeDeltas(d2, d1)
    ensures CompositeDeltas(Zero, d1) == d1 && CompositeDeltas(d1, Zero) == d1
    ensures CompositeDeltas(d1, d1) == d1
  {
  }

  /** Combining deltas is not associative, so the order in which the
      entries of one weight are combined matters. */
  lemma CompositeDeltasNotAssociative()
    ensures CompositeDeltas(CompositeDeltas(Vec3(1.0, 0.0, 0.0), Vec3(-1.0, 0.0, 0.0)), Vec3(2.0, 0.0, 0.0))
         != CompositeDeltas(Vec3(1.0, 0.0, 0.0), CompositeDeltas(Vec3(-1.0, 0.0, 0.0), Vec3(2.0, 0.0, 0.0)))
  {
  }

  /** The deltas of a run of entries combined in order, starting from the
      zero vector. */
  function CompositeAll(g: seq<WeightDelta>): Vec3
  {
    if g == [] then Zero else CompositeDeltas(CompositeAll(g[..|g| - 1]), g[|g| - 1].delta)
  }

  /** `net` clamped against the direction of each delta of a run in turn. */
  function ClampAll(net: Vec3, g: seq<WeightDelta>, normalize: Vec3 -> Vec3): Vec3
  {
    if g == [] then net
    else RemoveAllAgainst(ClampAll(net, g[..|g| - 1], normalize), SafeNorm(g[|g| - 1].delta, normalize))
  }

  /** Where the last run of equal weights starts. */
  function LastGroupStart(s: seq<WeightDelta>): (k: nat)
    requires s != []
    ensures k < |s|
    ensures forall i :: k <= i < |s| ==> s[i].weight == s[|s| - 1].weight
    ensures k > 0 ==> s[k - 1].weight != s[|s| - 1].weight
  {
    if |s| == 1 || s[|s| - 2].weight != s[|s| - 1].weight then |s| - 1
    else LastGroupStart(s[..|s| - 1])
  }

  /** A run that starts at k, reaches the end and is preceded by another
      weight is the last run. */
  lemma {:induction false} LastGroupStartIs(s: seq<WeightDelta>, k: nat)
    requires k < |s|
    requires forall i :: k <= i < |s| ==> s[i].weight == s[|s| - 1].weight
    requires k > 0 ==> s[k - 1].weight != s[|s| - 1].weight
    ensures LastGroupStart(s) == k
  {
    if k < |s| - 1 {
      var p := s[..|s| - 1];
      assert s[|s| - 2].weight == s[|s| - 1].weight;
      LastGroupStartIs(p, k);
    }
  }

  /** The net delta of a list already in weight order, run by run: the
      first run is combined from zero; each later run clamps the net so far
      against each of its deltas and then combines with the run's own
      combined delta. */
  function NetDelta(s: seq<WeightDelta>, normalize: Vec3 -> Vec3): Vec3
    decreases |s|
  {
    if s == [] then Zero
    else
      var k := LastGroupStart(s);
      if k == 0 then CompositeDeltas(Zero, CompositeAll(s))
      else CompositeDeltas(ClampAll(NetDelta(s[..k], normalize), s[k..], normalize), CompositeAll(s[k..]))
  }

  /** A list of one weight has as net delta its deltas combined in order. */
  lemma OneWeightNetDelta(s: seq<WeightDelta>, normalize: Vec3 -> Vec3)
    requires s != [] && forall i :: 0 <= i < |s| ==> s[i].weight == s[0].weight
    ensures NetDelta(s, normalize) == CompositeAll(s)
  {
    LastGroupStartIs(s, 0);
    CompositeDeltasLaws(CompositeAll(s), CompositeAll(s));
  }

  /** A list of one weight is left in place by the sort, whatever its
      key, and so has its deltas combined in order as net delta. */
  lemma OneWeightSorted(s: seq<WeightDelta>, key: Weight -> int, normalize: Vec3 -> Vec3)
    ensures s != [] && (forall i :: 0 <= i < |s| ==> s[i].weight == s[0].weight) ==>
      NetDelta(SortBy(s, key), normalize) == CompositeAll(s)
  {
    if s != [] && forall i :: 0 <= i < |s| ==> s[i].weight == s[0].weight {
      SortOneWeight(s, key);
      OneWeightNetDelta(s, normalize);
    }
  }

  /** The sort key of an entry. */
  function Key(e: WeightDelta, key: Weight -> int): int
  {
    key(e.weight)
  }

  predicate SortedBy(s: seq<WeightDelta>, key: Weight -> int)
  {
    forall i, j :: 0 <= i < j < |s| ==> Key(s[i], key) <= Key(s[j], key)
  }

  /** x placed after every entry of t whose key is not greater. */
  function InsertLast(t: seq<WeightDelta>, x: WeightDelta, key: Weight -> int): (r: seq<WeightDelta>)
    ensures multiset(r) == multiset(t) + multiset{x}
    ensures |r| == |t| + 1
  {
    if t == [] || Key(t[|t| - 1], key) <= Key(x, key) then t + [x]
    else
      var p := t[..|t| - 1];
      assert t == p + [t[|t| - 1]];
      InsertLast(p, x, key) + [t[|t| - 1]]
  }

  lemma {:induction false} InsertLastSorted(t: seq<WeightDelta>, x: WeightDelta, key: Weight -> int)
    requires SortedBy(t, key)
    ensures SortedBy(InsertLast(t, x, key), key)
    ensures forall e :: e in InsertLast(t, x, key) ==> e in t || e == x
  {
    if t != [] && Key(t[|t| - 1], key) > Key(x, key) {
      var p := t[..|t| - 1];
      var last := t[|t| - 1];
      assert SortedBy(p, key);
      InsertLastSorted(p, x, key);
      var r := InsertLast(p, x, key);
      assert multiset(r) == multiset(p) + multiset{x};
      forall e | e in r ensures Key(e, key) <= Key(last, key) {
        assert e in multiset(r);
        if e in p {
          var i :| 0 <= i < |p| && p[i] == e;
          assert t[i] == e;
        }
      }
      assert InsertLast(t, x, key) == r + [last];
      forall i, j | 0 <= i < j < |r| + 1
        ensures Key((r + [last])[i], key) <= Key((r + [last])[j], key)
      {
        if j == |r| {
          assert (r + [last])[i] == r[i] && r[i] in r;
        } else {
          assert (r + [last])[i] == r[i] && (r + [last])[j] == r[j];
        }
      }
    }
  }

  /** `std::sort` by the key of each entry, as a stable insertion sort:
      entries of equal key keep their order. */
  function SortBy(s: seq<WeightDelta>, key: Weight -> int): (r: seq<WeightDelta>)
    ensures multiset(r) == multiset(s)
    ensures |r| == |s|
  {
    if s == [] then []
    else
      assert s == s[..|s| - 1] + [s[|s| - 1]];
      InsertLast(SortBy(s[..|s| - 1], key), s[|s| - 1], key)
  }

  /** The sorted list is in key order. */
  lemma {:induction false} SortBySorted(s: seq<WeightDelta>, key: Weight -> int)
    ensures SortedBy(SortBy(s, key), key)
  {
    if s != [] {
      SortBySorted(s[..|s| - 1], key);
      InsertLastSorted(SortBy(s[..|s| - 1], key), s[|s| - 1], key);
    }
  }

  /** Sorting a list of one weight leaves it as it is. */
  lemma {:induction false} SortOneWeight(s: seq<WeightDelta>, key: Weight -> int)
    requires forall i :: 0 <= i < |s| ==> s[i].weight == s[0].weight
    ensures SortBy(s, key) == s
  {
    if s != [] {
      var p := s[..|s| - 1];
      SortOneWeight(p, key);
      assert s == p + [s[|s| - 1]];
    }
  }

  /** The key `compWeightDelta` compares as written: the weight is stored
      in the `int` half of a `std::pair<int, glm::vec3>`, so weights from
      2^31 up wrap to negative numbers. */
  function StoredKey(w: Weight): (k: int)
    ensures w < 0x8000_0000 ==> k == w
    ensures w >= 0x8000_0000 ==> k < 0
  {
    if w < 0x8000_0000 then w else w - 0x1_0000_0000
  }

  /** The unsigned key the weights are meant to be ordered by. */
  function WeightKey(w: Weight): (k: int)
    ensures k == w
  {
    w
  }

  /** As written, the delta from an immovable (UINT_MAX) bounder is stored
      as -1 and sorts before the delta from a bounder of weight 5, so it is
      combined first, with the lowest precedence. */
  lemma ImmovableSortsFirst(a: Vec3, b: Vec3)
    ensures SortBy([WeightDelta(5, a), WeightDelta(UIntMax, b)], StoredKey)
         == [WeightDelta(UIntMax, b), WeightDelta(5, a)]
  {
    var s := [WeightDelta(5, a), WeightDelta(UIntMax, b)];
    assert s[..1] == [WeightDelta(5, a)];
    assert s[..1][..0] == [];
  }

  /** Ordered by the unsigned weight, every delta from an immovable bounder
      comes after every delta from a movable one, so it is combined last
      and takes precedence. */
  lemma ImmovableSortsLast(s: seq<WeightDelta>, i: nat, j: nat)
    requires i < |s| && j < |s|
    requires SortBy(s, WeightKey)[i].weight == UIntMax && SortBy(s, WeightKey)[j].weight < UIntMax
    ensures j < i
  {
    SortBySorted(s, WeightKey);
    if i <= j {
      SortedWeightsAscend(SortBy(s, WeightKey), i, j);
    }
  }

  lemma SortedWeightsAscend(t: seq<WeightDelta>, i: nat, j: nat)
    requires SortedBy(t, WeightKey) && i <= j < |t|
    ensures t[i].weight <= t[j].weight
  {
    if i < j {
      assert Key(t[i], WeightKey) <= Key(t[j], WeightKey);
    }
  }

  /** `detNetDelta`: sort by the key, then walk the runs of equal weight in
      ascending key order. With `StoredKey` this is the code as written;
      with `WeightKey` it is the ordering by unsigned weight. */
  method DetNetDelta(weightDeltas: seq<WeightDelta>, key: Weight -> int, normalize: Vec3 -> Vec3) returns (net: Vec3)
    ensures net == NetDelta(SortBy(weightDeltas, key), normalize)
    ensures weightDeltas == [] ==> net == Zero
    ensures weightDeltas != [] && (forall i :: 0 <= i < |weightDeltas| ==> weightDeltas[i].weight == weightDeltas[0].weight)
      ==> net == CompositeAll(weightDeltas)
  {
    if |weightDeltas| == 0 {
      return Zero;
    }
    var s := SortBy(weightDeltas, key);
    OneWeightSorted(weightDeltas, key, normalize);
    net := Zero;
    var i, weightDelta := FirstRun(s, normalize);
    net := CompositeDeltas(net, weightDelta);
    FirstGroup(s, i, normalize);
    var weightI := i;
    while weightI < |s|
      invariant 0 < weightI == i <= |s|
      invariant weightI < |s| ==> s[weightI].weight != s[weightI - 1].weight
      invariant net == NetDelta(s[..weightI], normalize)
      decreases |s| - weightI
    {
      i, weightDelta, net := ClampRun(s, weightI, net, normalize);
      net := CompositeDeltas(net, weightDelta);
      GroupStep(s, weightI, i, normalize);
      weightI := i;
    }
    assert s[..weightI] == s;
  }

  /** The first loop of `detNetDelta`: the deltas of the leading run of
      equal weight composited from zero. */
  method FirstRun(s: seq<WeightDelta>, normalize: Vec3 -> Vec3) returns (i: nat, weightDelta: Vec3)
    requires s != []
    ensures 0 < i <= |s|
    ensures forall j :: 0 <= j < i ==> s[j].weight == s[0].weight
    ensures i < |s| ==> s[i].weight != s[0].weight
    ensures weightDelta == CompositeAll(s[0..i])
  {
    i := 0;
    var weight := s[0].weight;
    weightDelta := Zero;
    while i < |s| && s[i].weight == weight
      invariant i <= |s|
      invariant forall j :: 0 <= j < i ==> s[j].weight == weight
      invariant weightDelta == CompositeAll(s[0..i])
    {
      RunStep(s, 0, i, Zero, normalize);
      weightDelta := CompositeDeltas(weightDelta, s[i].delta);
      i := i + 1;
    }
  }

  /** The inner loop of `detNetDelta` over the run of one weight starting
      at `start`: it combines the run's deltas and clamps `net` against each
      of them, stopping where the weight changes. */
  method ClampRun(s: seq<WeightDelta>, start: nat, net0: Vec3, normalize: Vec3 -> Vec3)
    returns (i: nat, weightDelta: Vec3, net: Vec3)
    requires start < |s|
    ensures start < i <= |s|
    ensures forall j :: start <= j < i ==> s[j].weight == s[start].weight
    ensures i < |s| ==> s[i].weight != s[start].weight
    ensures weightDelta == CompositeAll(s[start..i])
    ensures net == ClampAll(net0, s[start..i], normalize)
  {
    var weight := s[start].weight;
    weightDelta := Zero;
    net := net0;
    i := start;
    assert s[start..i] == [];
    while i < |s| && s[i].weight == weight
      invariant start <= i <= |s|
      invariant forall j :: start <= j < i ==> s[j].weight == weight
      invariant weightDelta == CompositeAll(s[start..i])
      invariant net == ClampAll(net0, s[start..i], normalize)
    {
      RunStep(s, start, i, net0, normalize);
      weightDelta := CompositeDeltas(weightDelta, s[i].delta);
      net := RemoveAllAgainst(net, SafeNorm(s[i].delta, normalize));
      i := i + 1;
    }
  }

  /** Extending a run by one entry extends both folds by that entry. */
  lemma RunStep(s: seq<WeightDelta>, a: nat, b: nat, net: Vec3, normalize: Vec3 -> Vec3)
    requires a <= b < |s|
    ensures CompositeAll(s[a..b + 1]) == CompositeDeltas(CompositeAll(s[a..b]), s[b].delta)
    ensures ClampAll(net, s[a..b + 1], normalize) ==
      RemoveAllAgainst(ClampAll(net, s[a..b], normalize), SafeNorm(s[b].delta, normalize))
  {
    assert s[a..b + 1][..b - a] == s[a..b];
  }

  /** A leading run of one weight is combined from zero. */
  lemma FirstGroup(s: seq<WeightDelta>, i: nat, normalize: Vec3 -> Vec3)
    requires 0 < i <= |s|
    requires forall j :: 0 <= j < i ==> s[j].weight == s[0].weight
    ensures NetDelta(s[..i], normalize) == CompositeDeltas(Zero, CompositeAll(s[0..i]))
  {
    LastGroupStartIs(s[..i], 0);
  }

  /** The net delta of a prefix that ends a run: the run starting at k is
      the last one of that prefix. */
  lemma GroupStep(s: seq<WeightDelta>, k: nat, i: nat, normalize: Vec3 -> Vec3)
    requires 0 < k < i <= |s|
    requires s[k].weight != s[k - 1].weight
    requires forall j :: k <= j < i ==> s[j].weight == s[k].weight
    ensures NetDelta(s[..i], normalize) ==
      CompositeDeltas(ClampAll(NetDelta(s[..k], normalize), s[k..i], normalize), CompositeAll(s[k..i]))
  {
    var t := s[..i];
    LastGroupStartIs(t, k);
    assert t[..k] == s[..k] && t[k..] == s[k..i];
  }

  /** What a ray test reports: the distance to the hit, infinite for a
      miss, and the hit's surface data. */
  datatype Dist = Finite(d: real) | Infinite
  datatype Intersect = Intersect(dist: Dist, loc: Vec3, norm: Vec3, face: bool)

  /** `Intersect()`: no hit. */
  const NoIntersect := Intersect(Infinite, Zero, Zero, true)

  predicate Closer(a: Dist, b: Dist)
  {
    a.Finite? && (b.Infinite? || a.d < b.d)
  }

  /** The non-octree branch of `CollisionSystem::pick`: among the bounders
      passing `conditional`, the one whose intersection is strictly
      nearest, the earliest on ties; a null bounder and no hit when none
      is hit. */
  method Pick(bounders: seq<Bounder>, conditional: Bounder -> bool, intersect: Bounder -> Intersect)
    returns (bounder: Bounder?, inter: Intersect)
    ensures bounder == null <==>
      forall j :: 0 <= j < |bounders| && conditional(bounders[j]) ==> intersect(bounders[j]).dist.Infinite?
    ensures bounder == null ==> inter == NoIntersect
    ensures bounder != null ==> exists k :: (0 <= k < |bounders| && bounders[k] == bounder &&
              conditional(bounder) && inter == intersect(bounder) && inter.dist.Finite? &&
              (forall j :: 0 <= j < k && conditional(bounders[j]) ==> Closer(inter.dist, intersect(bounders[j]).dist)) &&
              (forall j :: k < j < |bounders| && conditional(bounders[j]) ==> !Closer(intersect(bounders[j]).dist, inter.dist)))
  {
    bounder := null;
    inter := NoIntersect;
    ghost var best := 0;
    var i := 0;
    while i < |bounders|
      invariant i <= |bounders|
      invariant bounder == null <==>
        forall j :: 0 <= j < i && conditional(bounders[j]) ==> intersect(bounders[j]).dist.Infinite?
      invariant bounder == null ==> inter == NoIntersect
      invariant bounder != null ==> (best < i && bounders[best] == bounder &&
                  conditional(bounder) && inter == intersect(bounder) && inter.dist.Finite? &&
                  (forall j :: 0 <= j < best && conditional(bounders[j]) ==> Closer(inter.dist, intersect(bounders[j]).dist)) &&
                  (forall j :: best < j < i && conditional(bounders[j]) ==> !Closer(intersect(bounders[j]).dist, inter.dist)))
      invariant bounder == null ==> forall j :: 0 <= j < i && conditional(bounders[j]) ==> Closer(inter.dist, intersect(bounders[j]).dist) || intersect(bounders[j]).dist.Infinite?
    {
      var b := bounders[i];
      if conditional(b) {
        var potential := intersect(b);
        if Closer(potential.dist, inter.dist) {
          bounder := b;
          inter := potential;
          best := i;
        }
      }
      i := i + 1;
    }
  }
}
