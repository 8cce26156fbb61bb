/** The toon-shading tables of `ParticleShader`: a number of cells (at
    most 16), and per cell an intensity and a scale. `setCells` spreads the
    scales evenly from 1 downwards; the two setters keep an entry from
    rising above the one before it. */
module ParticleCells {

  const MaxCells: nat := 16

  /** `std::vector::resize(n, fill)`: truncated to n, or padded with fill. */
  function Resize(s: seq<real>, n: nat, fill: real): (r: seq<real>)
    ensures |r| == n
    ensures forall i :: 0 <= i < n && i < |s| ==> r[i] == s[i]
    ensures forall i :: |s| <= i < n ==> r[i] == fill
  {
    if n <= |s| then s[..n] else s + seq(n - |s|, _ => fill)
  }

  /** The scale of cell i out of n: 1 - i/n. */
  function CellScale(i: nat, n: nat): real
    requires i < n
  {
    1.0 - (i as real) / (n as real)
  }

  /** The intensity of a cell with the given scale: the scale mapped from
      [0.5, 1] onto [0, 1]. */
  function CellIntensity(scale: real): real
  {
    (scale - 0.5) * 2.0
  }

  /** Cell scales fall strictly from 1 and stay positive; intensities fall
      strictly with them, from 1. */
  lemma CellsDecrease(i: nat, j: nat, n: nat)
    requires i < j < n
    ensures CellScale(0, n) == 1.0 && CellIntensity(CellScale(0, n)) == 1.0
    ensures 0.0 < CellScale(j, n) < CellScale(i, n) <= 1.0
    ensures CellIntensity(CellScale(j, n)) < CellIntensity(CellScale(i, n))
  {
    var nr := n as real;
    assert (i as real) / nr < (j as real) / nr by {
      assert (j as real) / nr - (i as real) / nr == ((j - i) as real) / nr;
    }
    assert (j as real) / nr < 1.0;
  }

  /** `glm::min`: the second argument when it is smaller, else the first. */
  function Min(a: real, b: real): (m: real)
    ensures m <= a && m <= b && (m == a || m == b)
  {
    if b < a then b else a
  }

  /** The rule of both setters: entry i becomes f for the first cell and
      otherwise the smaller of f and entry i - 1. */
  function SetCapped(s: seq<real>, i: nat, f: real): (r: seq<real>)
    requires i < |s|
    ensures |r| == |s|
    ensures forall j :: 0 <= j < |s| && j != i ==> r[j] == s[j]
    ensures i == 0 ==> r[0] == f
    ensures i > 0 ==> r[i] <= s[i - 1] && r[i] <= f && (r[i] == f || r[i] == s[i - 1])
  {
    s[i := if i == 0 then f else Min(s[i - 1], f)]
  }

  /** Non-increasing tables stay non-increasing under the setter as long
      as the value does not exceed the next entry; the new entry never
      exceeds the one before it. */
  lemma SetCappedKeepsOrder(s: seq<real>, i: nat, f: real)
    requires i < |s|
    requires forall j :: 0 < j < |s| ==> s[j] <= s[j - 1]
    requires i + 1 < |s| ==> s[i + 1] <= f
    ensures forall j :: 0 < j < |s| ==> SetCapped(s, i, f)[j] <= SetCapped(s, i, f)[j - 1]
  {
  }

  class ParticleShader {
    var numCells: nat
    var cellIntensities: seq<real>
    var cellScales: seq<real>

    /** One cell, of intensity 1 and scale 1. */
    constructor ()
      ensures numCells == 1 && cellIntensities == [1.0] && cellScales == [1.0]
    {
      numCells := 1;
      cellIntensities := Resize([], 1, 1.0);
      cellScales := Resize([], 1, 1.0);
    }

    /** `setCells(in)`: min(in, 16) cells, cell i of scale 1 - i/n and
        the matching intensity. */
    method SetCells(cells: nat)
      modifies this
      ensures numCells == if cells < MaxCells then cells else MaxCells
      ensures |cellIntensities| == numCells && |cellScales| == numCells
      ensures forall i :: 0 <= i < numCells ==>
        cellScales[i] == CellScale(i, numCells) && cellIntensities[i] == CellIntensity(CellScale(i, numCells))
    {
      numCells := if cells < MaxCells then cells else MaxCells;
      cellIntensities := Resize(cellIntensities, numCells, 0.0);
      cellScales := Resize(cellScales, numCells, 0.0);
      var i := 0;
      while i < numCells
        invariant i <= numCells && |cellIntensities| == numCells && |cellScales| == numCells
        invariant numCells == if cells < MaxCells then cells else MaxCells
        invariant forall j :: 0 <= j < i ==>
          cellScales[j] == CellScale(j, numCells) && cellIntensities[j] == CellIntensity(CellScale(j, numCells))
      {
        var scale := 1.0 - (i as real) / (numCells as real);
        cellIntensities := cellIntensities[i := (scale - 0.5) * 2.0];
        cellScales := cellScales[i := scale];
        i := i + 1;
      }
    }

    /** `setCellIntensity(i, f)`. */
    method SetCellIntensity(i: nat, f: real)
      requires i < |cellIntensities|
      modifies this
      ensures cellIntensities == SetCapped(old(cellIntensities), i, f)
      ensures cellScales == old(cellScales) && numCells == old(numCells)
    {
      cellIntensities := cellIntensities[i := if i == 0 then f else Min(cellIntensities[i - 1], f)];
    }

    /** `setCellScale(i, f)`. */
    method SetCellScale(i: nat, f: real)
      requires i < |cellScales|
      modifies this
      ensures cellScales == SetCapped(old(cellScales), i, f)
      ensures cellIntensities == old(cellIntensities) && numCells == old(numCells)
    {
      cellScales := cellScales[i := if i == 0 then f else Min(cellScales[i - 1], f)];
    }
  }
}
