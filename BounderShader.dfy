/** The line-list index arrays `BounderShader` builds for its four
    wireframe meshes (box, sphere, capsule cap and capsule rod), and the
    index counts it keeps. Each array lists edges as pairs of vertex
    indices; the vertex positions and the OpenGL uploads are not part of
    this model. */
module BounderMeshes {
  /** Quarter-circle level of detail, and vertices per full circle. */
  const ArcLOD: nat := 16
  const CircleVerts: nat := ArcLOD * 4

  /** Entry t of an edge list chaining consecutive vertices: edge t / 2
      runs from vertex t / 2 to vertex t / 2 + 1. */
  function Chain(t: nat): (v: nat)
    ensures t % 2 == 0 ==> 2 * v == t
    ensures t % 2 == 1 ==> 2 * v == t + 1
  {
    (t + 1) / 2
  }

  // Box -----------------------------------------------------------------

  /** The box's 24 indices: four edges along z, four along y, four along x. */
  const AABIndices: seq<nat> := [
    0, 4,   1, 5,   2, 6,   3, 7,
    0, 2,   1, 3,   4, 6,   5, 7,
    0, 1,   2, 3,   4, 5,   6, 7]

  /** Coordinate `axis` (0 for x, 1 for y, 2 for z) of box corner v, as the
      sign bit: 0 for -1 and 1 for +1. */
  function CornerBit(v: nat, axis: nat): (b: nat)
    requires axis < 3
    ensures b < 2
  {
    if axis == 0 then v % 2 else if axis == 1 then (v / 2) % 2 else (v / 4) % 2
  }

  /** Corners u and w of the box differ in exactly one coordinate: they are
      the ends of one edge of the cube. */
  predicate CubeEdge(u: nat, w: nat)
  {
    Differs(u, w, 0) + Differs(u, w, 1) + Differs(u, w, 2) == 1
  }

  /** 1 when corners u and w differ in coordinate `axis`, else 0. */
  function Differs(u: nat, w: nat, axis: nat): nat
    requires axis < 3
  {
    if CornerBit(u, axis) != CornerBit(w, axis) then 1 else 0
  }

  /** The box array has 24 entries naming the 8 corners, and each of its
      12 edges runs from a corner to a higher one that differs from it in
      exactly one coordinate. */
  lemma AABEdgesOnCube()
    ensures |AABIndices| == 24
    ensures forall t :: 0 <= t < 24 ==> AABIndices[t] < 8
    ensures forall e :: 0 <= e < 12 ==>
      AABIndices[2 * e] < AABIndices[2 * e + 1] && CubeEdge(AABIndices[2 * e], AABIndices[2 * e + 1])
  {
    forall e | 0 <= e < 12
      ensures AABIndices[2 * e] < AABIndices[2 * e + 1] && CubeEdge(AABIndices[2 * e], AABIndices[2 * e + 1])
    {
      if e < 4 {
        assert e == 0 || e == 1 || e == 2 || e == 3;
      } else if e < 8 {
        assert e == 4 || e == 5 || e == 6 || e == 7;
      } else {
        assert e == 8 || e == 9 || e == 10 || e == 11;
      }
    }
  }

  /** No edge of the box array repeats another, so its 12 edges are all
      12 edges of the cube. */
  lemma AABEdgesDistinct()
    ensures forall e, f :: 0 <= e < f < 12 ==>
      AABIndices[2 * e] != AABIndices[2 * f] || AABIndices[2 * e + 1] != AABIndices[2 * f + 1]
  {
  }

  // Sphere --------------------------------------------------------------

  /** The sphere's three great circles of 64 vertices each: 192 vertices
      and 384 indices. */
  const SphereVerts: nat := 3 * CircleVerts
  const SphereIndexCount: nat := 2 * SphereVerts

  /** Entry t of the sphere array: the chain of consecutive vertices, with
      the last edge of each circle closed back to the circle's first
      vertex. */
  function SphereIndex(t: nat): (v: nat)
    requires t < SphereIndexCount
    ensures v < SphereVerts
  {
    if t == 2 * CircleVerts - 1 || t == 4 * CircleVerts - 1 || t == 6 * CircleVerts - 1
    then (t / (2 * CircleVerts)) * CircleVerts
    else Chain(t)
  }

  /** Each sphere edge joins two vertices of one circle, and within each
      circle the edges form one closed loop: edge e ends where the next edge
      of its circle starts, and the circle's last edge ends at its first
      vertex. */
  lemma SphereCirclesClose(e: nat)
    requires e < SphereVerts
    ensures SphereIndex(2 * e) == e
    ensures SphereIndex(2 * e) / CircleVerts == SphereIndex(2 * e + 1) / CircleVerts
    ensures (e + 1) % CircleVerts != 0 ==> SphereIndex(2 * e + 1) == SphereIndex(2 * (e + 1))
    ensures (e + 1) % CircleVerts == 0 ==> SphereIndex(2 * e + 1) == SphereIndex(2 * (e + 1 - CircleVerts))
  {
    var c := if e < CircleVerts then 0 else if e < 2 * CircleVerts then 1 else 2;
    SphereEdgeEnd(e, c);
    SphereEdgeLoops(e, c);
  }

  /** Edge e of circle c starts at vertex e and ends on circle c. */
  lemma SphereEdgeEnd(e: nat, c: nat)
    requires c < 3 && c * CircleVerts <= e < c * CircleVerts + CircleVerts
    ensures SphereIndex(2 * e) == e
    ensures SphereIndex(2 * e) / CircleVerts == SphereIndex(2 * e + 1) / CircleVerts
  {
    assert SphereIndex(2 * e) == e;
    assert e / CircleVerts == c;
    if e == c * CircleVerts + CircleVerts - 1 {
      assert SphereIndex(2 * e + 1) == c * CircleVerts;
    } else {
      assert SphereIndex(2 * e + 1) == e + 1;
      assert (e + 1) / CircleVerts == c;
    }
  }

  /** Edge e of circle c ends where the next edge of that circle starts. */
  lemma SphereEdgeLoops(e: nat, c: nat)
    requires c < 3 && c * CircleVerts <= e < c * CircleVerts + CircleVerts
    ensures (e + 1) % CircleVerts != 0 ==> SphereIndex(2 * e + 1) == SphereIndex(2 * (e + 1))
    ensures (e + 1) % CircleVerts == 0 ==> SphereIndex(2 * e + 1) == SphereIndex(2 * (e + 1 - CircleVerts))
  {
    assert (e + 1) % CircleVerts == 0 <==> e == c * CircleVerts + CircleVerts - 1;
  }

  // Cap -----------------------------------------------------------------

  /** The cap: a full circle of 64 vertices, then two half circles of 33
      vertices each; 130 vertices, 256 indices. */
  const CapVerts: nat := 2 * CircleVerts + 2
  const CapIndexCount: nat := 4 * CircleVerts
  const CapArc2: nat := CircleVerts
  const CapArc3: nat := CircleVerts + CircleVerts / 2 + 1

  /** Entry t of the cap array: the full circle closed back to vertex 0,
      then the chain along the first half circle, then the chain along the
      second. */
  function CapIndex(t: nat): (v: nat)
    requires t < CapIndexCount
    ensures v < CapVerts
  {
    if t < 2 * CircleVerts then (if t == 2 * CircleVerts - 1 then 0 else Chain(t))
    else if t < 3 * CircleVerts then CapArc2 + Chain(t - 2 * CircleVerts)
    else CapArc3 + Chain(t - 3 * CircleVerts)
  }

  /** Which of the cap's three arcs vertex v lies on. */
  function CapArc(v: nat): nat
  {
    if v < CapArc2 then 0 else if v < CapArc3 then 1 else 2
  }

  /** Every cap edge stays on one arc, the circle closes, and each half
      circle is an open chain from its first vertex to its last. */
  lemma CapArcs(e: nat)
    requires e < CapIndexCount / 2
    ensures CapArc(CapIndex(2 * e)) == CapArc(CapIndex(2 * e + 1))
    ensures CapIndex(2 * CircleVerts - 1) == 0
    ensures CapIndex(2 * CircleVerts) == CapArc2 && CapIndex(3 * CircleVerts - 1) == CapArc3 - 1
    ensures CapIndex(3 * CircleVerts) == CapArc3 && CapIndex(4 * CircleVerts - 1) == CapVerts - 1
  {
  }

  // Rod -----------------------------------------------------------------

  /** The rod: a circle of 64 vertices and eight vertices for its four
      vertical lines; 72 vertices, 136 indices. */
  const RodVerts: nat := CircleVerts + 8
  const RodIndexCount: nat := 2 * CircleVerts + 8

  /** Entry t of the rod array: the circle closed back to vertex 0, then
      the eight line vertices in order. */
  function RodIndex(t: nat): (v: nat)
    requires t < RodIndexCount
    ensures v < RodVerts
    ensures t >= 2 * CircleVerts ==> v == t - CircleVerts
  {
    if t < 2 * CircleVerts then (if t == 2 * CircleVerts - 1 then 0 else Chain(t))
    else CircleVerts + (t - 2 * CircleVerts)
  }

  /** The rod's circle edges stay on the circle and close it; its last
      eight entries are four edges joining a bottom vertex to the top
      vertex above it. */
  lemma RodLines(e: nat)
    requires e < RodIndexCount / 2
    ensures e < CircleVerts ==> RodIndex(2 * e) < CircleVerts && RodIndex(2 * e + 1) < CircleVerts
    ensures e >= CircleVerts ==> RodIndex(2 * e + 1) == RodIndex(2 * e) + 1 && RodIndex(2 * e) % 2 == 0
    ensures RodIndex(2 * CircleVerts - 1) == 0
  {
  }

  /** The two writes of `initSphereMesh` for edge e: entries 2e and
      2e + 1 become e and e + 1; nothing else changes. */
  method ChainEdge(indices: array<nat>, e: nat)
    requires 2 * e + 1 < indices.Length
    modifies indices
    ensures indices[2 * e] == Chain(2 * e) && indices[2 * e + 1] == Chain(2 * e + 1)
    ensures forall t :: 0 <= t < indices.Length && t != 2 * e && t != 2 * e + 1 ==> indices[t] == old(indices[t])
  {
    indices[e * 2 + 0] := e + 0;
    indices[e * 2 + 1] := e + 1;
  }

  /** The loop of `initSphereMesh`: iteration i writes edge i of each of
      the three circles, chaining vertex i to vertex i + 1 of that circle. */
  method SphereChains(indices: array<nat>)
    requires indices.Length == SphereIndexCount
    modifies indices
    ensures forall t :: 0 <= t < SphereIndexCount ==> indices[t] == Chain(t)
  {
      var nCircleVerts := CircleVerts;
      var i := 0;
      while i < nCircleVerts
        invariant 0 <= i <= nCircleVerts
        invariant forall t :: 0 <= t < 2 * i ==> indices[t] == Chain(t)
        invariant forall t :: 2 * CircleVerts <= t < 2 * CircleVerts + 2 * i ==> indices[t] == Chain(t)
        invariant forall t :: 4 * CircleVerts <= t < 4 * CircleVerts + 2 * i ==> indices[t] == Chain(t)
      {
        ChainEdge(indices, 0 * nCircleVerts + i);
        ChainEdge(indices, 1 * nCircleVerts + i);
        ChainEdge(indices, 2 * nCircleVerts + i);
        i := i + 1;
      }
  }

  /** The shader's stored index counts, set by the mesh initialisers. */
  class BounderShader {
    var nAABIndices: nat
    var nSphereIndices: nat
    var nCapIndices: nat
    var nRodIndices: nat

    constructor ()
      ensures nAABIndices == 0 && nSphereIndices == 0 && nCapIndices == 0 && nRodIndices == 0
    {
      nAABIndices, nSphereIndices, nCapIndices, nRodIndices := 0, 0, 0, 0;
    }

    /** `initAABMesh`: the box array, whose length is the stored count. */
    method InitAABMesh() returns (indices: array<nat>)
      modifies this
      ensures fresh(indices)
      ensures indices[..] == AABIndices && nAABIndices == indices.Length
      ensures nSphereIndices == old(nSphereIndices) && nCapIndices == old(nCapIndices) && nRodIndices == old(nRodIndices)
    {
      indices := new nat[24];
      var i := 0;
      while i < 24
        invariant unchanged(this)
        invariant 0 <= i <= 24 && forall t :: 0 <= t < i ==> indices[t] == AABIndices[t]
      {
        indices[i] := AABIndices[i];
        i := i + 1;
      }
      nAABIndices := indices.Length;
    }

    /** `initSphereMesh`: one loop writes the chains of all three circles,
        then the three closers overwrite each circle's last entry. */
    method InitSphereMesh() returns (indices: array<nat>)
      modifies this
      ensures fresh(indices)
      ensures indices.Length == nSphereIndices == SphereIndexCount
      ensures forall t :: 0 <= t < SphereIndexCount ==> indices[t] == SphereIndex(t)
      ensures nAABIndices == old(nAABIndices) && nCapIndices == old(nCapIndices) && nRodIndices == old(nRodIndices)
    {
      var nCircleVerts := CircleVerts;
      var nVerts := 3 * nCircleVerts;
      var nIndices := 2 * nVerts;
      indices := new nat[nIndices];
      SphereChains(indices);
      indices[nCircleVerts * 2 - 1] := 0 * nCircleVerts;
      indices[nCircleVerts * 4 - 1] := 1 * nCircleVerts;
      indices[nCircleVerts * 6 - 1] := 2 * nCircleVerts;
      nSphereIndices := nIndices;
    }

    /** `initCapMesh`: three loops with running counters `ii` (next entry)
        and `vi` (current vertex); the circle's last entry is overwritten
        with 0, and one vertex is skipped between the half circles. */
    method InitCapMesh() returns (indices: array<nat>)
      modifies this
      ensures fresh(indices)
      ensures indices.Length == nCapIndices == CapIndexCount
      ensures forall t :: 0 <= t < CapIndexCount ==> indices[t] == CapIndex(t)
      ensures nAABIndices == old(nAABIndices) && nSphereIndices == old(nSphereIndices) && nRodIndices == old(nRodIndices)
    {
      var nCircleVerts := CircleVerts;
      var nIndices := 4 * nCircleVerts;
      indices := new nat[nIndices];
      var ii, vi := 0, 0;
      var i := 0;
      while i < nCircleVerts
        invariant unchanged(this)
        invariant 0 <= i <= nCircleVerts && ii == 2 * i && vi == i
        invariant forall t :: 0 <= t < ii ==> indices[t] == Chain(t)
      {
        indices[ii] := vi;
        ii := ii + 1;
        indices[ii] := vi + 1;
        ii := ii + 1;
        vi := vi + 1;
      i := i + 1;
      }
      indices[ii - 1] := 0;
      i := 0;
      while i < nCircleVerts / 2
        invariant unchanged(this)
        invariant 0 <= i <= nCircleVerts / 2 && ii == 2 * CircleVerts + 2 * i && vi == CircleVerts + i
        invariant forall t :: 0 <= t < ii ==> indices[t] == CapIndex(t)
      {
        indices[ii] := vi;
        ii := ii + 1;
        indices[ii] := vi + 1;
        ii := ii + 1;
        vi := vi + 1;
        i := i + 1;
      }
      vi := vi + 1;
      i := 0;
      while i < nCircleVerts / 2
        invariant unchanged(this)
        invariant 0 <= i <= nCircleVerts / 2 && ii == 3 * CircleVerts + 2 * i && vi == CapArc3 + i
        invariant forall t :: 0 <= t < ii ==> indices[t] == CapIndex(t)
      {
        indices[ii] := vi;
        ii := ii + 1;
        indices[ii] := vi + 1;
        ii := ii + 1;
        vi := vi + 1;
        i := i + 1;
      }
      nCapIndices := nIndices;
    }

    /** `initRodMesh`: the circle's chain, its last entry overwritten with
        0, then the eight line vertices. */
    method InitRodMesh() returns (indices: array<nat>)
      modifies this
      ensures fresh(indices)
      ensures indices.Length == nRodIndices == RodIndexCount
      ensures forall t :: 0 <= t < RodIndexCount ==> indices[t] == RodIndex(t)
      ensures nAABIndices == old(nAABIndices) && nSphereIndices == old(nSphereIndices) && nCapIndices == old(nCapIndices)
    {
      var nCircleVerts := CircleVerts;
      var nIndices := 2 * nCircleVerts + 8;
      indices := new nat[nIndices];
      var i := 0;
      while i < nCircleVerts
        invariant unchanged(this)
        invariant 0 <= i <= nCircleVerts
        invariant forall t :: 0 <= t < 2 * i ==> indices[t] == Chain(t)
      {
        indices[2 * i + 0] := i + 0;
        indices[2 * i + 1] := i + 1;
        i := i + 1;
      }
      indices[2 * nCircleVerts - 1] := 0;
      i := 0;
      while i < 8
        invariant unchanged(this)
        invariant 0 <= i <= 8
        invariant forall t :: 0 <= t < 2 * CircleVerts + i ==> indices[t] == RodIndex(t)
      {
        indices[2 * nCircleVerts + i] := nCircleVerts + i;
        i := i + 1;
      }
      nRodIndices := nIndices;
    }
  }
}
