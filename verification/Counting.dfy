/**
 Sums over sequences, sizes of disjoint families, and the ascending
 enumeration of a set of naturals.
 */
module Counting {

  function Sum(s: seq<nat>): nat {
    if s == [] then 0 else Sum(s[..|s| - 1]) + s[|s| - 1]
  }

  lemma {:induction false} SumUpdate(s: seq<nat>, i: nat, v: nat)
    requires i < |s|
    ensures Sum(s[i := v]) + s[i] == Sum(s) + v
  {
    var k := |s| - 1;
    if i == k {
      assert s[i := v][..k] == s[..k];
    } else {
      assert s[i := v][..k] == s[..k][i := v];
      SumUpdate(s[..k], i, v);
    }
  }

  lemma {:induction false} SumMonotone(a: seq<nat>, b: seq<nat>)
    requires |a| == |b| && forall i :: 0 <= i < |a| ==> a[i] <= b[i]
    ensures Sum(a) <= Sum(b)
    ensures Sum(a) == Sum(b) ==> a == b
  {
    if a != [] {
      var k := |a| - 1;
      SumMonotone(a[..k], b[..k]);
      if Sum(a) == Sum(b) {
        assert a == a[..k] + [a[k]] && b == b[..k] + [b[k]];
      }
    }
  }

  lemma {:induction false} SumShift(a: seq<nat>, b: seq<nat>, c: nat)
    requires |a| == |b| && forall i :: 0 <= i < |a| ==> b[i] == c + a[i]
    ensures Sum(b) == |a| * c + Sum(a)
  {
    if a != [] {
      SumShift(a[..|a| - 1], b[..|a| - 1], c);
      assert |a| * c == (|a| - 1) * c + c;
    }
  }

  lemma {:induction false} SumZero(a: seq<nat>)
    requires forall i :: 0 <= i < |a| ==> a[i] == 0
    ensures Sum(a) == 0
  {
    if a != [] { SumZero(a[..|a| - 1]); }
  }

  /** The numbers below `n`. */
  function Range(n: nat): (r: set<nat>)
    ensures forall p: nat :: p in r <==> p < n
  {
    if n == 0 then {} else Range(n - 1) + {n - 1}
  }

  lemma {:induction false} RangeSize(n: nat)
    ensures |Range(n)| == n
  {
    if n > 0 {
      RangeSize(n - 1);
    }
  }

  /** A subset of the numbers below `n` with `n` elements is all of them. */
  lemma FullSubset(s: set<nat>, n: nat)
    requires s <= Range(n) && |s| == n
    ensures s == Range(n)
  {
    RangeSize(n);
    SubsetSize(s, Range(n));
  }

  lemma {:induction false} SubsetSize<T>(a: set<T>, b: set<T>)
    requires a <= b
    ensures |a| <= |b|
    ensures |a| == |b| ==> a == b
  {
    assert b == a + (b - a);
    assert |b| == |a| + |b - a|;
  }

  /** A bijection of 0..|rank| onto itself. */
  predicate IsPermutation(rank: seq<nat>) {
    && (forall i :: 0 <= i < |rank| ==> rank[i] < |rank|)
    && (forall i, j :: 0 <= i < j < |rank| ==> rank[i] != rank[j])
  }

  function Elems(s: seq<nat>): set<nat> { set x | x in s }

  lemma {:induction false} DistinctSetSize(s: seq<nat>)
    requires forall i, j :: 0 <= i < j < |s| ==> s[i] != s[j]
    ensures |Elems(s)| == |s|
  {
    if s != [] {
      var k := |s| - 1;
      DistinctSetSize(s[..k]);
      assert s == s[..k] + [s[k]];
      assert Elems(s) == Elems(s[..k]) + {s[k]};
    }
  }

  /** Every rank is taken by exactly one position. */
  lemma PermutationOnto(rank: seq<nat>, r: nat) returns (i: nat)
    requires IsPermutation(rank) && r < |rank|
    ensures i < |rank| && rank[i] == r
  {
    var s := Elems(rank);
    DistinctSetSize(rank);
    FullSubset(s, |rank|);
    assert r in s;
    i :| 0 <= i < |rank| && rank[i] == r;
  }

  /** The positions whose rank is below `k`, as 0/1 counts. */
  function RankBelow(rank: seq<nat>, k: nat): (r: seq<nat>)
    ensures |r| == |rank|
  {
    seq(|rank|, i requires 0 <= i < |rank| => if rank[i] < k then 1 else 0)
  }

  lemma {:induction false} RankBelowSum(rank: seq<nat>, k: nat)
    requires IsPermutation(rank) && k <= |rank|
    ensures Sum(RankBelow(rank, k)) == k
  {
    if k == 0 {
      SumZero(RankBelow(rank, 0));
    } else {
      RankBelowSum(rank, k - 1);
      var i := PermutationOnto(rank, k - 1);
      var low := RankBelow(rank, k - 1);
      assert RankBelow(rank, k) == low[i := 1];
      SumUpdate(low, i, 1);
    }
  }

  // ---------- families of sets ----------

  function Sizes(f: seq<set<nat>>): (r: seq<nat>)
    ensures |r| == |f|
  {
    seq(|f|, i requires 0 <= i < |f| => |f[i]|)
  }

  function Union(f: seq<set<nat>>): (u: set<nat>)
    ensures forall p :: p in u <==> exists i :: 0 <= i < |f| && p in f[i]
  {
    if f == [] then {}
    else
      var k := |f| - 1;
      assert forall i :: 0 <= i < k ==> f[..k][i] == f[i];
      Union(f[..k]) + f[k]
  }

  predicate PairwiseDisjoint(f: seq<set<nat>>) {
    forall i, j, p :: 0 <= i < |f| && 0 <= j < |f| && p in f[i] && p in f[j] ==> i == j
  }

  lemma {:induction false} UnionSize(f: seq<set<nat>>)
    requires PairwiseDisjoint(f)
    ensures |Union(f)| == Sum(Sizes(f))
  {
    if f != [] {
      var k := |f| - 1;
      var g := f[..k];
      assert forall i :: 0 <= i < k ==> g[i] == f[i];
      UnionSize(g);
      assert Sizes(f)[..k] == Sizes(g);
      assert Union(g) * f[k] == {};
    }
  }

  // ---------- ascending lists ----------

  /** The elements of `s` below `n`, in ascending order. */
  function Ascending(s: set<nat>, n: nat): seq<nat> {
    if n == 0 then []
    else Ascending(s, n - 1) + (if n - 1 in s then [n - 1] else [])
  }

  predicate Increasing(l: seq<nat>) {
    forall i, j :: 0 <= i < j < |l| ==> l[i] < l[j]
  }

  lemma {:induction false} AscendingFacts(s: set<nat>, n: nat)
    ensures Increasing(Ascending(s, n))
    ensures forall p :: p in Ascending(s, n) <==> p in s && p < n
  {
    if n > 0 {
      AscendingFacts(s, n - 1);
      var l := Ascending(s, n - 1);
      forall i | 0 <= i < |l| ensures l[i] < n - 1 { assert l[i] in l; }
    }
  }

  /** Dropping the last, and so largest, element of an increasing list. */
  lemma IncreasingLast(a: seq<nat>)
    requires Increasing(a) && a != []
    ensures var x := a[|a| - 1];
            && Elems(a[..|a| - 1]) == Elems(a) - {x}
            && x in Elems(a)
            && forall p :: p in Elems(a) ==> p <= x
  {
    var k := |a| - 1;
    assert a == a[..k] + [a[k]];
    assert a[k] !in a[..k];
  }

  /** An increasing list is determined by its elements. */
  lemma {:induction false} IncreasingUnique(a: seq<nat>, b: seq<nat>)
    requires Increasing(a) && Increasing(b)
    requires Elems(a) == Elems(b)
    ensures a == b
  {
    DistinctSetSize(a);
    DistinctSetSize(b);
    if a != [] {
      IncreasingLast(a);
      IncreasingLast(b);
      assert a[|a| - 1] == b[|b| - 1];
      IncreasingUnique(a[..|a| - 1], b[..|b| - 1]);
      assert a == a[..|a| - 1] + [a[|a| - 1]] && b == b[..|b| - 1] + [b[|b| - 1]];
    }
  }

  lemma IncreasingIsAscending(l: seq<nat>, s: set<nat>, n: nat)
    requires Increasing(l)
    requires forall p :: p in l <==> p in s && p < n
    ensures l == Ascending(s, n)
  {
    AscendingFacts(s, n);
    assert Elems(l) == Elems(Ascending(s, n));
    IncreasingUnique(l, Ascending(s, n));
  }
}
