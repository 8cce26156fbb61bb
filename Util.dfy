/** Integer bit utilities and small numeric helpers of the engine's `Util`
    struct. The integer templates are modelled at their 64-bit unsigned
    instantiation (`bv64`), so subtraction and shifts wrap exactly as
    `uint64_t` does; the floating point helpers are modelled over reals. */
module Util {
  import opened Vectors

  /** `pow2<T>(v)`: one shifted left by v. */
  function Pow2(v: nat): (r: bv64)
    requires v < 64
    ensures r != 0 && IsPow2(r)
  {
    IsPow2Shift(v as bv64);
    (1 as bv64) << v
  }

  /** `isPow2(v)`: `(v & (v - 1)) == 0`, which also holds for zero. */
  function IsPow2(v: bv64): bool
  {
    v & (v - 1) == 0
  }

  lemma IsPow2Shift(k: bv64)
    requires k < 64
    ensures IsPow2((1 as bv64) << k)
  {
  }

  /** The bit test accepts exactly zero and the single-bit values. */
  lemma IsPow2Exact(v: bv64)
    ensures IsPow2(v) <==> (v == 0 || v == (1 as bv64) << Log2Floor(v))
  {
    if v != 0 {
      Log2FloorBounds(v);
      SingleBitBetween(v, Log2Floor(v));
    }
  }

  /** Of the values in [2^k, 2^(k+1)), only 2^k has a single bit set. */
  lemma SingleBitBetween(v: bv64, k: bv64)
    requires k < 64 && v != 0
    requires (1 as bv64) << k <= v
    requires k < 63 ==> v < (1 as bv64) << (k + 1)
    ensures IsPow2(v) <==> v == (1 as bv64) << k
  {
    IsPow2Shift(k);
  }

  /** `log2Floor(v)`: the position of the highest set bit, found by halving
      the search window; zero for v == 0. */
  function Log2Floor(v: bv64): (r: bv64)
    ensures r < 64
  {
    var (v1, l1) := if v & 0xFFFF_FFFF_0000_0000 != 0 then (v >> 32, 32 as bv64) else (v, 0);
    var (v2, l2) := if v1 & 0x0000_0000_FFFF_0000 != 0 then (v1 >> 16, l1 + 16) else (v1, l1);
    var (v3, l3) := if v2 & 0x0000_0000_0000_FF00 != 0 then (v2 >> 8, l2 + 8) else (v2, l2);
    var (v4, l4) := if v3 & 0x0000_0000_0000_00F0 != 0 then (v3 >> 4, l3 + 4) else (v3, l3);
    var (v5, l5) := if v4 & 0x0000_0000_0000_000C != 0 then (v4 >> 2, l4 + 2) else (v4, l4);
    if v5 & 0x0000_0000_0000_0002 != 0 then l5 + 1 else l5
  }

  /** For nonzero v, 2^log2Floor(v) <= v < 2^(log2Floor(v) + 1). */
  lemma Log2FloorBounds(v: bv64)
    requires v != 0
    ensures (1 as bv64) << Log2Floor(v) <= v
    ensures Log2Floor(v) < 63 ==> v < (1 as bv64) << (Log2Floor(v) + 1)
  {
    Log2FloorLower(v);
    Log2FloorUpper(v);
  }

  lemma Log2FloorLower(v: bv64)
    requires v != 0
    ensures (1 as bv64) << Log2Floor(v) <= v
  {
    if v & 0xFFFF_FFFF_0000_0000 != 0 {
      Log2FloorLowerHigh(v);
    } else {
      Log2FloorLowerLow(v);
    }
  }

  lemma Log2FloorLowerHigh(v: bv64)
    requires v & 0xFFFF_FFFF_0000_0000 != 0
    ensures (1 as bv64) << Log2Floor(v) <= v
  {
  }

  lemma Log2FloorLowerLow(v: bv64)
    requires v != 0 && v & 0xFFFF_FFFF_0000_0000 == 0
    ensures (1 as bv64) << Log2Floor(v) <= v
  {
  }

  lemma Log2FloorUpper(v: bv64)
    ensures Log2Floor(v) < 63 ==> v < (1 as bv64) << (Log2Floor(v) + 1)
  {
  }

  lemma Log2FloorOfZero()
    ensures Log2Floor(0) == 0
  {
  }

  /** `log2Ceil(v)`: `log2Floor(2 * v - 1)`, with the unsigned wrap-around
      that makes log2Ceil(0) == 63. */
  function Log2Ceil(v: bv64): (r: bv64)
    ensures r < 64
    ensures v == 0 ==> r == 63
  {
    Log2Floor(2 * v - 1)
  }

  /** `floor2(v)`: the largest power of two not above v, for v >= 1. */
  function Floor2(v: bv64): (r: bv64)
    ensures r != 0 && IsPow2(r)
    ensures v != 0 ==> r <= v
    ensures v != 0 && r < 0x8000_0000_0000_0000 ==> v < r << 1
  {
    var k := Log2Floor(v);
    IsPow2Shift(k);
    ShiftNonzero(k);
    ShiftDoubles(k);
    if v != 0 then Log2FloorBounds(v); (1 as bv64) << k
    else (1 as bv64) << k
  }

  lemma ShiftNonzero(k: bv64)
    requires k < 64
    ensures (1 as bv64) << k != 0
  {
  }

  /** Below the top bit, doubling 2^k is shifting one further. */
  lemma ShiftDoubles(k: bv64)
    requires k < 64
    ensures (1 as bv64) << k < 0x8000_0000_0000_0000 <==> k < 63
    ensures k < 63 ==> ((1 as bv64) << k) << 1 == (1 as bv64) << (k + 1)
  {
  }

  /** `ceil2(v)`: one shifted left by log2Ceil(v). */
  function Ceil2(v: bv64): (r: bv64)
    ensures r != 0 && IsPow2(r)
  {
    IsPow2Shift(Log2Ceil(v));
    (1 as bv64) << Log2Ceil(v)
  }

  /** For 1 <= v <= 2^63, log2Ceil(v) is the k with 2^(k-1) < v <= 2^k,
      so ceil2(v) is the least power of two not below v. */
  lemma Ceil2Covers(v: bv64)
    requires 1 <= v <= 0x8000_0000_0000_0000
    ensures v <= Ceil2(v)
    ensures Log2Ceil(v) > 0 ==> (1 as bv64) << (Log2Ceil(v) - 1) < v
  {
    Ceil2Above(v);
    Ceil2Least(v);
  }

  lemma Ceil2Above(v: bv64)
    requires 1 <= v <= 0x8000_0000_0000_0000
    ensures v <= Ceil2(v)
  {
    var w := 2 * v - 1;
    assert w != 0;
    Log2FloorBounds(w);
    ShiftDoubles(Log2Floor(w));
  }

  lemma Ceil2Least(v: bv64)
    requires 1 <= v <= 0x8000_0000_0000_0000
    ensures Log2Ceil(v) > 0 ==> (1 as bv64) << (Log2Ceil(v) - 1) < v
  {
    var w := 2 * v - 1;
    assert w != 0;
    Log2FloorBounds(w);
    var k := Log2Floor(w);
    if k > 0 {
      ShiftDoubles(k - 1);
      LowerHalf(v, (1 as bv64) << (k - 1), (1 as bv64) << k);
    }
  }

  lemma LowerHalf(v: bv64, q: bv64, p: bv64)
    requires 1 <= v <= 0x8000_0000_0000_0000 && q < 0x8000_0000_0000_0000
    requires q << 1 == p && p <= 2 * v - 1
    ensures q < v
  {
  }

  /** `nat(v)`: conversion of a floating point value to an integer, which
      truncates toward zero. */
  function Truncate(v: real): (i: int)
    ensures v >= 0.0 ==> i as real <= v < i as real + 1.0
    ensures v < 0.0 ==> i as real - 1.0 < v <= i as real
  {
    if v >= 0.0 then v.Floor else -((-v).Floor)
  }

  /** Floating point `floor(v)`: truncate, then step down once when the
      truncation went up. */
  function Floor(v: real): (r: int)
    ensures r as real <= v < r as real + 1.0
  {
    var i := Truncate(v);
    i - (if v < i as real then 1 else 0)
  }

  /** Floating point `ceil(v)`: truncate, then step up once when the
      truncation went down. */
  function Ceil(v: real): (r: int)
    ensures r as real - 1.0 < v <= r as real
  {
    var i := Truncate(v);
    i + (if v > i as real then 1 else 0)
  }

  /** The integral overloads of `floor` and `ceil` return their argument. */
  function FloorIntegral(v: int): int { v }
  function CeilIntegral(v: int): int { v }

  /** On integral values the integral and floating overloads agree. */
  lemma IntegralOverloadsAgree(v: int)
    ensures FloorIntegral(v) == Floor(v as real) == v
    ensures CeilIntegral(v) == Ceil(v as real) == v
  {
  }

  /** The plain left-to-right sum, the reference for `pairwiseSum`. */
  function Sum(s: seq<real>): real
  {
    if s == [] then 0.0 else s[0] + Sum(s[1..])
  }

  lemma {:induction false} SumAppend(a: seq<real>, b: seq<real>)
    ensures Sum(a + b) == Sum(a) + Sum(b)
  {
    if a == [] {
      assert a + b == b;
    } else {
      assert (a + b)[1..] == a[1..] + b;
      SumAppend(a[1..], b);
    }
  }

  /** `pairwiseSum(n, vals)`: sums vals[0..n) as a binary tree, splitting at
      n / 2 and (n + 1) / 2. */
  function PairwiseSum(n: nat, vals: seq<real>): real
    requires n <= |vals|
    decreases n
  {
    if n == 0 then 0.0
    else if n == 1 then vals[0]
    else if n == 2 then vals[0] + vals[1]
    else PairwiseSum(n / 2, vals) + PairwiseSum((n + 1) / 2, vals[n / 2..])
  }

  /** Over exact reals the tree-shaped sum equals the linear sum of the
      first n values: the two halves cover vals[0..n) exactly once. */
  lemma {:induction false} PairwiseSumIsSum(n: nat, vals: seq<real>)
    requires n <= |vals|
    ensures PairwiseSum(n, vals) == Sum(vals[..n])
    decreases n
  {
    if n == 1 {
      assert vals[..1][1..] == [];
    } else if n == 2 {
      assert vals[..2][1..] == [vals[1]];
      assert [vals[1]][1..] == [];
      assert Sum([vals[1]]) == vals[1];
    } else if n > 2 {
      var h := n / 2;
      PairwiseSumIsSum(h, vals);
      PairwiseSumIsSum((n + 1) / 2, vals[h..]);
      assert vals[h..][..(n + 1) / 2] == vals[h..n];
      assert vals[..n] == vals[..h] + vals[h..n];
      SumAppend(vals[..h], vals[h..n]);
    }
  }

  /** `removeAllAgainst(v, norm)`: keeps v when it does not point against
      norm, otherwise removes its component along norm. */
  function RemoveAllAgainst(v: Vec3, norm: Vec3): (r: Vec3)
    ensures Dot(v, norm) >= 0.0 ==> r == v
  {
    var d := Dot(v, norm);
    if d >= 0.0 then v else Sub(v, Scale(d, norm))
  }

  /** For a unit norm, the result never points against norm: a vector that
      did is projected onto the plane of norm. */
  lemma RemoveAllAgainstClamps(v: Vec3, norm: Vec3)
    requires Dot(norm, norm) == 1.0
    ensures Dot(RemoveAllAgainst(v, norm), norm) >= 0.0
    ensures Dot(v, norm) < 0.0 ==> Dot(RemoveAllAgainst(v, norm), norm) == 0.0
  {
    var d := Dot(v, norm);
    if d < 0.0 {
      var r := Sub(v, Scale(d, norm));
      calc {
        Dot(r, norm);
        (v.x - d * norm.x) * norm.x + (v.y - d * norm.y) * norm.y + (v.z - d * norm.z) * norm.z;
        (v.x * norm.x - d * (norm.x * norm.x)) + (v.y * norm.y - d * (norm.y * norm.y)) +
          (v.z * norm.z - d * (norm.z * norm.z));
        (v.x * norm.x + v.y * norm.y + v.z * norm.z) - d * (norm.x * norm.x + norm.y * norm.y + norm.z * norm.z);
        d - d * Dot(norm, norm);
      }
    }
  }

  /** `safeNorm(v)`: the normalised vector, or the zero vector for zero.
      The square root of `glm::normalize` is passed in as `normalize`. */
  function SafeNorm(v: Vec3, normalize: Vec3 -> Vec3): (r: Vec3)
    ensures v == Zero ==> r == Zero
    ensures v != Zero ==> r == normalize(v)
  {
    if v != Zero then normalize(v) else Zero
  }
}
