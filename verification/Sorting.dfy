/**
 The library sorts the assignors call: a stable sort by a strict order, and
 removal of adjacent duplicates.
 */
module Sorting {
  import opened Ordering

  function Insert<T>(less: (T, T) -> bool, x: T, s: seq<T>): (r: seq<T>)
    ensures multiset(r) == multiset(s) + multiset{x}
  {
    if s == [] then [x]
    else if less(x, s[0]) then [x] + s
    else
      assert s == [s[0]] + s[1..];
      [s[0]] + Insert(less, x, s[1..])
  }

  /** Stable insertion sort. */
  function SortBy<T>(less: (T, T) -> bool, s: seq<T>): (r: seq<T>)
    ensures multiset(r) == multiset(s)
  {
    if s == [] then []
    else
      assert s == s[..|s| - 1] + [s[|s| - 1]];
      Insert(less, s[|s| - 1], SortBy(less, s[..|s| - 1]))
  }

  /** `less` is a strict weak order on the elements of `dom`. */
  ghost predicate OrdersOn<T(!new)>(less: (T, T) -> bool, dom: set<T>) {
    && (forall x :: x in dom ==> !less(x, x))
    && (forall x, y, z :: x in dom && y in dom && z in dom && !less(y, x) && !less(z, y) ==> !less(z, x))
    && (forall x, y :: x in dom && y in dom && less(x, y) ==> !less(y, x))
  }

  ghost predicate Sorted<T(!new)>(less: (T, T) -> bool, s: seq<T>) {
    forall i, j :: 0 <= i < j < |s| ==> !less(s[j], s[i])
  }

  lemma {:induction false} InsertSorted<T(!new)>(less: (T, T) -> bool, x: T, s: seq<T>, dom: set<T>)
    requires OrdersOn(less, dom) && x in dom && (forall y :: y in s ==> y in dom)
    requires Sorted(less, s)
    ensures Sorted(less, Insert(less, x, s))
  {
    if s != [] && !less(x, s[0]) {
      InsertSorted(less, x, s[1..], dom);
      var r := Insert(less, x, s[1..]);
      forall j | 0 <= j < |r| ensures !less(r[j], s[0]) {
        assert r[j] in multiset(r);
        assert r[j] == x || r[j] in s[1..];
      }
    } else if s != [] {
      forall j | 0 <= j < |s| ensures !less(s[j], x) {
        assert s[0] in s && s[j] in s;
        assert !less(s[0], x);
      }
    }
  }

  lemma {:induction false} SortedByOrder<T(!new)>(less: (T, T) -> bool, s: seq<T>, dom: set<T>)
    requires OrdersOn(less, dom) && (forall y :: y in s ==> y in dom)
    ensures Sorted(less, SortBy(less, s))
  {
    if s != [] {
      var t := s[..|s| - 1];
      SortedByOrder(less, t, dom);
      forall y | y in SortBy(less, t) ensures y in dom { assert y in multiset(t); }
      InsertSorted(less, s[|s| - 1], SortBy(less, t), dom);
    }
  }

  /** A list already in strict order is its own sort. */
  lemma {:induction false} SortKeepsSorted<T(!new)>(less: (T, T) -> bool, s: seq<T>)
    requires Sorted(less, s)
    ensures SortBy(less, s) == s
  {
    if s != [] {
      var k := |s| - 1;
      var t := s[..k];
      forall i | 0 <= i < k ensures !less(s[k], t[i]) { assert t[i] == s[i]; }
      SortKeepsSorted(less, t);
      InsertLast(less, s[k], t);
      assert s == t + [s[k]];
    }
  }

  lemma {:induction false} InsertLast<T(!new)>(less: (T, T) -> bool, x: T, s: seq<T>)
    requires forall i :: 0 <= i < |s| ==> !less(x, s[i])
    ensures Insert(less, x, s) == s + [x]
  {
    if s != [] {
      InsertLast(less, x, s[1..]);
      assert s + [x] == [s[0]] + (s[1..] + [x]);
    }
  }

  lemma SameElements<T>(a: seq<T>, b: seq<T>)
    requires multiset(a) == multiset(b)
    ensures |a| == |b| && forall x :: x in a <==> x in b
  {
    assert |multiset(a)| == |a| && |multiset(b)| == |b|;
    assert forall x :: x in a <==> x in multiset(a);
    assert forall x :: x in b <==> x in multiset(b);
  }

  /** No element twice. */
  ghost predicate Unique<T(!new)>(s: seq<T>) { forall i, j :: 0 <= i < j < |s| ==> s[i] != s[j] }

  lemma {:induction false} UniqueCounts<T(!new)>(s: seq<T>, x: T)
    requires Unique(s)
    ensures multiset(s)[x] <= 1
  {
    if s != [] {
      var k := |s| - 1;
      assert s == s[..k] + [s[k]];
      UniqueCounts(s[..k], x);
      if s[k] == x { assert x !in s[..k]; }
    }
  }

  lemma PermutedUnique<T(!new)>(s: seq<T>, r: seq<T>)
    requires multiset(s) == multiset(r) && Unique(s)
    ensures Unique(r)
  {
    forall i, j | 0 <= i < j < |r| ensures r[i] != r[j] {
      UniqueCounts(s, r[j]);
      assert r == r[..j] + [r[j]] + r[j + 1..];
      assert r[i] in r[..j];
    }
  }

  /** `Vec::dedup`: drop an element equal to the one before it. */
  function Dedup<T(==, !new)>(s: seq<T>): (r: seq<T>)
    ensures forall x :: x in r <==> x in s
  {
    if |s| <= 1 then s
    else
      assert s == [s[0]] + s[1..];
      if s[0] == s[1] then Dedup(s[1..]) else [s[0]] + Dedup(s[1..])
  }

  // ---------- numbers ----------

  function SortNats(s: seq<nat>): (r: seq<nat>)
    ensures multiset(r) == multiset(s)
  {
    SortBy((a: nat, b: nat) => a < b, s)
  }

  lemma SortNatsSorted(s: seq<nat>)
    ensures forall i, j :: 0 <= i < j < |s| ==> |SortNats(s)| == |s| && SortNats(s)[i] <= SortNats(s)[j]
  {
    var less := (a: nat, b: nat) => a < b;
    SortedByOrder(less, s, set x | x in s);
    SameElements(s, SortNats(s));
    assert Sorted(less, SortNats(s));
  }

  // ---------- strings ----------

  function SortStrings(s: seq<string>): (r: seq<string>)
    ensures multiset(r) == multiset(s)
  {
    SortBy(Less, s)
  }

  lemma LessOrders(dom: set<string>)
    ensures OrdersOn(Less, dom)
  {
    forall x ensures !Less(x, x) { LessIrreflexive(x); }
    forall x, y | Less(x, y) ensures !Less(y, x) { LessAsymmetric(x, y); }
    forall x, y, z | !Less(y, x) && !Less(z, y) ensures !Less(z, x) {
      LessTotal(x, y); LessTotal(y, z);
      if Less(z, x) && x != y && y != z { LessTransitive(x, y, z); LessAsymmetric(z, x); }
    }
  }

  /** Strictly increasing strings. */
  predicate StrictlySorted(s: seq<string>) {
    forall i, j :: 0 <= i < j < |s| ==> Less(s[i], s[j])
  }

  lemma {:induction false} DedupStrict(s: seq<string>)
    requires Sorted(Less, s)
    ensures StrictlySorted(Dedup(s))
  {
    if |s| > 1 {
      DedupStrict(s[1..]);
      var r := Dedup(s[1..]);
      if s[0] != s[1] {
        forall j | 0 <= j < |r| ensures Less(s[0], r[j]) {
          assert r[j] in s[1..];
          var k :| 1 <= k < |s| && s[k] == r[j];
          LessTotal(s[0], s[1]);
          assert Less(s[0], s[1]);
          if k > 1 {
            LessTotal(s[1], s[k]);
            if Less(s[1], s[k]) { LessTransitive(s[0], s[1], s[k]); }
          }
        }
      }
    }
  }

  /** Sorted union of names, each once. */
  function SortedDistinct(s: seq<string>): (r: seq<string>)
    ensures forall x :: x in r <==> x in s
  {
    SameElements(s, SortStrings(s));
    Dedup(SortStrings(s))
  }

  lemma SortedDistinctStrict(s: seq<string>)
    ensures StrictlySorted(SortedDistinct(s))
  {
    LessOrders(set x | x in s);
    SortedByOrder(Less, s, set x | x in s);
    DedupStrict(SortStrings(s));
  }

  // ---------- lists in strict order ----------

  ghost predicate StrictlyBy<T(!new)>(less: (T, T) -> bool, s: seq<T>) {
    forall i, j :: 0 <= i < j < |s| ==> less(s[i], s[j]) && !less(s[j], s[i]) && s[i] != s[j]
  }

  lemma StrictInit<T(!new)>(less: (T, T) -> bool, s: seq<T>)
    requires StrictlyBy(less, s) && s != []
    ensures var k := |s| - 1;
            && StrictlyBy(less, s[..k])
            && (forall x :: x in s[..k] <==> x in s && x != s[k])
            && (forall x :: x in s && x != s[k] ==> less(x, s[k]) && !less(s[k], x))
  {
    var k := |s| - 1;
    assert s == s[..k] + [s[k]];
  }

  /** A strictly ordered list is determined by its elements. */
  lemma {:induction false} StrictUnique<T(!new)>(less: (T, T) -> bool, a: seq<T>, b: seq<T>)
    requires StrictlyBy(less, a) && StrictlyBy(less, b)
    requires forall x :: x in a <==> x in b
    ensures a == b
  {
    if b != [] { assert b[0] in b; }
    if a != [] {
      assert a[0] in a;
      var x, y := a[|a| - 1], b[|b| - 1];
      StrictInit(less, a);
      StrictInit(less, b);
      assert x in a && y in b;
      assert x == y;
      StrictUnique(less, a[..|a| - 1], b[..|b| - 1]);
      assert a == a[..|a| - 1] + [x] && b == b[..|b| - 1] + [y];
    }
  }

  /** (topic, partition) pairs, by topic and then by partition. */
  predicate PairLess(a: (string, nat), b: (string, nat)) {
    Less(a.0, b.0) || (a.0 == b.0 && a.1 < b.1)
  }

  lemma PairLessStrict(a: (string, nat), b: (string, nat))
    requires PairLess(a, b)
    ensures !PairLess(b, a) && a != b
  {
    LessIrreflexive(a.0);
    if Less(a.0, b.0) { LessAsymmetric(a.0, b.0); }
  }
}
