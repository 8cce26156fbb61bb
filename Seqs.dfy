/** Searching and erasing in vectors, as the engine's registries do it:
    a forward scan that erases the first match, or a backward scan by index
    that erases the last match. */
module Seqs {

  /** The position of the first occurrence of x. */
  function FirstIndex<T(==)>(s: seq<T>, x: T): (i: nat)
    requires x in s
    ensures i < |s| && s[i] == x
    ensures forall j :: 0 <= j < i ==> s[j] != x
  {
    if s[0] == x then 0 else 1 + FirstIndex(s[1..], x)
  }

  /** The position of the last occurrence of x. */
  function LastIndex<T(==)>(s: seq<T>, x: T): (i: nat)
    requires x in s
    ensures i < |s| && s[i] == x
    ensures forall j :: i < j < |s| ==> s[j] != x
  {
    if s[|s| - 1] == x then |s| - 1 else LastIndex(s[..|s| - 1], x)
  }

  /** `v.erase(v.begin() + i)`. */
  function RemoveAt<T>(s: seq<T>, i: nat): (r: seq<T>)
    requires i < |s|
    ensures |r| == |s| - 1
    ensures forall j :: 0 <= j < i ==> r[j] == s[j]
    ensures forall j :: i <= j < |r| ==> r[j] == s[j + 1]
  {
    s[..i] + s[i + 1..]
  }

  /** Erasing the first occurrence of x, if there is one. */
  function RemoveFirst<T(==)>(s: seq<T>, x: T): seq<T>
  {
    if x in s then RemoveAt(s, FirstIndex(s, x)) else s
  }

  /** Erasing the last occurrence of x, if there is one. */
  function RemoveLast<T(==)>(s: seq<T>, x: T): seq<T>
  {
    if x in s then RemoveAt(s, LastIndex(s, x)) else s
  }

  lemma RemoveLastSubset<T>(s: seq<T>, x: T)
    ensures forall y :: y in RemoveLast(s, x) ==> y in s
  {
    if x in s {
      var r := RemoveLast(s, x);
      var i := LastIndex(s, x);
      forall y | y in r
        ensures y in s
      {
        var j :| 0 <= j < |r| && r[j] == y;
        if j < i { assert s[j] == y; } else { assert s[j + 1] == y; }
      }
    }
  }

  lemma RemoveAtMultiset<T>(s: seq<T>, i: nat)
    requires i < |s|
    ensures multiset(RemoveAt(s, i)) == multiset(s) - multiset{s[i]}
  {
    assert s == s[..i] + [s[i]] + s[i + 1..];
    assert multiset(s) == multiset(s[..i]) + multiset{s[i]} + multiset(s[i + 1..]);
  }

  /** Either erasure removes exactly one copy of x when there is one, and
      nothing otherwise; the remaining elements keep their order. */
  lemma RemoveOneCopy<T>(s: seq<T>, x: T)
    ensures multiset(RemoveFirst(s, x)) == multiset(s) - multiset{x}
    ensures multiset(RemoveLast(s, x)) == multiset(s) - multiset{x}
    ensures x !in s ==> RemoveFirst(s, x) == s && RemoveLast(s, x) == s
  {
    if x in s {
      RemoveAtMultiset(s, FirstIndex(s, x));
      RemoveAtMultiset(s, LastIndex(s, x));
    } else {
      assert multiset(s)[x] == 0;
      assert multiset(s) - multiset{x} == multiset(s);
    }
  }

  /** Appending x and then erasing its last occurrence gives the original
      sequence back; erasing the first occurrence does so when x was not
      there before. */
  lemma AppendThenRemove<T>(s: seq<T>, x: T)
    ensures RemoveLast(s + [x], x) == s
    ensures x !in s ==> RemoveFirst(s + [x], x) == s
  {
    var t := s + [x];
    assert t[..|t| - 1] == s;
    if x !in s {
      assert forall j :: 0 <= j < |s| ==> t[j] != x;
      FirstIndexIsUnique(t, x, |s|);
    }
  }

  lemma FirstIndexIsUnique<T>(s: seq<T>, x: T, i: nat)
    requires i < |s| && s[i] == x && forall j :: 0 <= j < i ==> s[j] != x
    ensures FirstIndex(s, x) == i
  {
  }

  /** The forward scan of an iterator loop: stops at the first match. */
  method FindFirst<T(==)>(s: seq<T>, x: T) returns (found: bool, i: nat)
    ensures found <==> x in s
    ensures found ==> i == FirstIndex(s, x)
  {
    i := 0;
    while i < |s|
      invariant i <= |s|
      invariant forall j :: 0 <= j < i ==> s[j] != x
    {
      if s[i] == x {
        FirstIndexIsUnique(s, x, i);
        return true, i;
      }
      i := i + 1;
    }
    return false, 0;
  }

  /** The backward scan `for (int i(size - 1); i >= 0; --i)`: stops at
      the last match. */
  method FindLast<T(==)>(s: seq<T>, x: T) returns (found: bool, i: nat)
    ensures found <==> x in s
    ensures found ==> i == LastIndex(s, x)
  {
    var k := |s|;
    while k > 0
      invariant 0 <= k <= |s|
      invariant forall j :: k <= j < |s| ==> s[j] != x
    {
      if s[k - 1] == x {
        LastIndexIsUnique(s, x, k - 1);
        return true, k - 1;
      }
      k := k - 1;
    }
    return false, 0;
  }

  lemma LastIndexIsUnique<T>(s: seq<T>, x: T, i: nat)
    requires i < |s| && s[i] == x && forall j :: i < j < |s| ==> s[j] != x
    ensures LastIndex(s, x) == i
  {
  }

  /** `m[k]` on a map of vectors: the vector stored under k, or the empty
      one that `operator[]` would insert. */
  function Lookup<K, V>(m: map<K, seq<V>>, k: K): seq<V>
  {
    if k in m then m[k] else []
  }

  /** `m[k].push_back(v)`. */
  function Push<K(!new), V>(m: map<K, seq<V>>, k: K, v: V): (r: map<K, seq<V>>)
    ensures r.Keys == m.Keys + {k}
    ensures Lookup(r, k) == Lookup(m, k) + [v]
    ensures forall j :: j != k ==> Lookup(r, j) == Lookup(m, j)
  {
    m[k := Lookup(m, k) + [v]]
  }

  /** Pushing v onto the list for k and erasing its last occurrence
      there leaves every list as it was, with an empty one for a key that
      had none. */
  lemma PushThenRemoveLast<K(!new), V>(m: map<K, seq<V>>, k: K, v: V)
    ensures var p := Push(m, k, v);
      k in p && p[k := RemoveLast(p[k], v)] == m[k := Lookup(m, k)]
  {
    AppendThenRemove(Lookup(m, k), v);
  }

  /** No element occurs twice. */
  predicate NoDup<T(==)>(s: seq<T>)
  {
    forall i, j :: 0 <= i < j < |s| ==> s[i] != s[j]
  }

  /** Erasing from a sequence without duplicates removes x entirely, keeps
      the sequence free of duplicates and adds nothing. */
  lemma RemoveLastNoDup<T>(s: seq<T>, x: T)
    requires NoDup(s)
    ensures NoDup(RemoveLast(s, x)) && x !in RemoveLast(s, x)
    ensures forall y :: y in RemoveLast(s, x) ==> y in s
  {
    if x in s {
      var i := LastIndex(s, x);
      var r := RemoveAt(s, i);
      forall y | y in r ensures y in s && y != x {
        var k :| 0 <= k < |r| && r[k] == y;
        if k < i { assert r[k] == s[k]; } else { assert r[k] == s[k + 1]; }
      }
    }
  }
}
