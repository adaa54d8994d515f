/**
 The one-topic assignors as the broker runs them: lists updated in place by
 the keep, strip and fill loops, proved against `Assignor.Sticky`.
 */
module StickyAssignor {
  import opened Ordering
  import opened Counting
  import opened Sorting
  import opened Assignor

  /** Lists of partitions seen as sets. */
  function Views(owned: seq<seq<nat>>): (v: seq<set<nat>>)
    ensures |v| == |owned|
  {
    seq(|owned|, i requires 0 <= i < |owned| => Elems(owned[i]))
  }

  predicate Distinct(s: seq<nat>) {
    forall i, j :: 0 <= i < j < |s| ==> s[i] != s[j]
  }

  predicate AllDistinct(owned: seq<seq<nat>>) {
    forall i :: 0 <= i < |owned| ==> Distinct(owned[i])
  }

  /** Every list ascends without repetition. */
  ghost predicate AllIncreasing(owned: seq<seq<nat>>) {
    forall i :: 0 <= i < |owned| ==> Increasing(owned[i])
  }

  /** The lists hold exactly the sets `f`, ascending. */
  ghost predicate Lists(n: nat, owned: seq<seq<nat>>, f: seq<set<nat>>) {
    && |owned| == |f|
    && forall i :: 0 <= i < |f| ==> owned[i] == Ascending(f[i], n)
  }

  lemma ElemsAppend(s: seq<nat>, p: nat)
    ensures Elems(s + [p]) == Elems(s) + {p}
  { }

  // ---------- sorted-id order ----------

  lemma BeforeOrders(ids: seq<string>)
    ensures OrdersOn((i: nat, j: nat) => i < |ids| && j < |ids| && Before(ids, i, j), Range(|ids|))
  {
    var less := (i: nat, j: nat) => i < |ids| && j < |ids| && Before(ids, i, j);
    forall i | i in Range(|ids|) ensures !less(i, i) { LessIrreflexive(ids[i]); }
    forall i, j | i in Range(|ids|) && j in Range(|ids|) && less(i, j) ensures !less(j, i) {
      BeforeRaisesRank(ids, i, j);
      if less(j, i) { BeforeRaisesRank(ids, j, i); }
    }
    forall i, j, k | i in Range(|ids|) && j in Range(|ids|) && k in Range(|ids|) && !less(j, i) && !less(k, j)
      ensures !less(k, i)
    {
      NotBefore(ids, i, j);
      NotBefore(ids, j, k);
      if less(k, i) { BeforeRaisesRank(ids, k, i); }
    }
  }

  lemma NotBefore(ids: seq<string>, i: nat, j: nat)
    requires i < |ids| && j < |ids| && !Before(ids, j, i)
    ensures Ranks(ids)[i] <= Ranks(ids)[j]
    ensures i != j ==> Ranks(ids)[i] < Ranks(ids)[j]
  {
    LessTotal(ids[i], ids[j]);
    if i != j { BeforeRaisesRank(ids, i, j); }
  }

  /** Indices of `ids` in stable sorted order: the r-th has rank r. */
  method SortedIndices(ids: seq<string>) returns (order: seq<nat>)
    ensures IsPermutation(order) && |order| == |ids|
    ensures forall r :: 0 <= r < |order| ==> Ranks(ids)[order[r]] == r
  {
    var all: seq<nat> := seq(|ids|, i requires 0 <= i < |ids| => i);
    var less: (nat, nat) -> bool := (i: nat, j: nat) => i < |ids| && j < |ids| && Before(ids, i, j);
    order := SortBy<nat>(less, all);
    BeforeOrders(ids);
    SortedByOrder(less, all, Range(|ids|));
    SameElements(all, order);
    SortedIndicesRank(ids, order, all);
  }

  lemma SortedIndicesRank(ids: seq<string>, order: seq<nat>, all: seq<nat>)
    requires all == seq(|ids|, i requires 0 <= i < |ids| => i)
    requires multiset(order) == multiset(all) && |order| == |ids| && (forall x :: x in all <==> x in order)
    requires Sorted((i: nat, j: nat) => i < |ids| && j < |ids| && Before(ids, i, j), order)
    ensures IsPermutation(order)
    ensures forall r :: 0 <= r < |order| ==> Ranks(ids)[order[r]] == r
  {
    forall r | 0 <= r < |order| ensures order[r] < |order| { assert order[r] in order; }
    DistinctSetSize(all);
    assert Elems(all) == Elems(order);
    FullSizeDistinct(order);
    RanksArePermutation(ids);
    var ranks := seq(|order|, r requires 0 <= r < |order| => Ranks(ids)[order[r]]);
    forall r, s | 0 <= r < s < |order| ensures ranks[r] < ranks[s] {
      NotBefore(ids, order[r], order[s]);
    }
    IncreasingBelow(ranks, |order|);
    forall r | 0 <= r < |order| ensures Ranks(ids)[order[r]] == r { assert ranks[r] == r; }
  }

  lemma {:induction false} ElemsBound(s: seq<nat>)
    ensures |Elems(s)| <= |s|
  {
    if s != [] {
      var k := |s| - 1;
      ElemsBound(s[..k]);
      assert s == s[..k] + [s[k]];
      ElemsAppend(s[..k], s[k]);
    }
  }

  lemma {:induction false} FullSizeDistinct(s: seq<nat>)
    requires |Elems(s)| == |s|
    ensures Distinct(s)
  {
    if s != [] {
      var k := |s| - 1;
      assert s == s[..k] + [s[k]];
      ElemsAppend(s[..k], s[k]);
      ElemsBound(s[..k]);
      assert s[k] !in Elems(s[..k]);
      FullSizeDistinct(s[..k]);
    }
  }

  /** An increasing list of m numbers below m is 0, 1, ..., m - 1. */
  lemma IncreasingBelow(s: seq<nat>, m: nat)
    requires Increasing(s) && |s| == m && (forall i :: 0 <= i < m ==> s[i] < m)
    ensures forall i :: 0 <= i < m ==> s[i] == i
  {
    forall i | 0 <= i < m ensures s[i] == i {
      AtLeastIndex(s, i);
      AtMostIndex(s, m, i);
    }
  }

  lemma {:induction false} AtLeastIndex(s: seq<nat>, i: nat)
    requires Increasing(s) && i < |s|
    ensures s[i] >= i
  {
    if i > 0 { AtLeastIndex(s, i - 1); }
  }

  lemma {:induction false} AtMostIndex(s: seq<nat>, m: nat, i: nat)
    requires Increasing(s) && |s| == m && i < m && (forall k :: 0 <= k < m ==> s[k] < m)
    ensures s[i] <= i
    decreases m - i
  {
    if i + 1 < m { AtMostIndex(s, m, i + 1); }
  }

  // ---------- keep ----------

  /** In-range entries of the first `k` of list `i` that no earlier list named. */
  ghost function ClaimPrefix(n: nat, previous: seq<seq<nat>>, i: nat, k: nat): set<nat>
    requires i < |previous| && k <= |previous[i]|
  {
    set p | p in previous[i][..k] && p < n && forall j :: 0 <= j < i ==> p !in previous[j]
  }

  lemma ClaimPrefixStep(n: nat, previous: seq<seq<nat>>, i: nat, k: nat)
    requires i < |previous| && k < |previous[i]|
    ensures var p := previous[i][k];
            ClaimPrefix(n, previous, i, k + 1) ==
            if p < n && forall j :: 0 <= j < i ==> p !in previous[j]
            then ClaimPrefix(n, previous, i, k) + {p} else ClaimPrefix(n, previous, i, k)
  {
    assert previous[i][..k + 1] == previous[i][..k] + [previous[i][k]];
  }

  /** Keep each in-range prior partition with the first member that lists it. */
  method KeepPrevious(n: nat, previous: seq<seq<nat>>) returns (owned: seq<seq<nat>>, claimed: set<nat>)
    ensures |owned| == |previous| && AllDistinct(owned)
    ensures Views(owned) == Claims(n, previous)
    ensures claimed == Union(Claims(n, previous))
  {
    owned := seq(|previous|, i => []);
    claimed := {};
    var i := 0;
    while i < |previous|
      invariant 0 <= i <= |previous| && |owned| == |previous| && AllDistinct(owned)
      invariant forall j :: 0 <= j < i ==> Elems(owned[j]) == Claim(n, previous, j)
      invariant forall j :: i <= j < |previous| ==> owned[j] == []
      invariant forall p :: p in claimed <==> p < n && exists j :: 0 <= j < i && p in previous[j]
    {
      owned, claimed := KeepList(n, previous, i, owned, claimed);
      i := i + 1;
    }
    assert Views(owned) == Claims(n, previous);
    forall p ensures p in claimed <==> p in Union(Claims(n, previous)) {
      if p in claimed {
        var j := FirstLister(previous, p, |previous|);
        assert p in Claims(n, previous)[j];
      }
    }
  }

  lemma {:induction false} FirstLister(previous: seq<seq<nat>>, p: nat, k: nat) returns (j: nat)
    requires k <= |previous| && exists i :: 0 <= i < k && p in previous[i]
    ensures j < k && p in previous[j] && forall i :: 0 <= i < j ==> p !in previous[i]
  {
    if exists i :: 0 <= i < k - 1 && p in previous[i] {
      j := FirstLister(previous, p, k - 1);
    } else {
      j := k - 1;
    }
  }

  method KeepList(n: nat, previous: seq<seq<nat>>, i: nat, owned0: seq<seq<nat>>, claimed0: set<nat>)
    returns (owned: seq<seq<nat>>, claimed: set<nat>)
    requires i < |previous| == |owned0| && AllDistinct(owned0) && owned0[i] == []
    requires forall p :: p in claimed0 <==> p < n && exists j :: 0 <= j < i && p in previous[j]
    ensures |owned| == |owned0| && AllDistinct(owned)
    ensures Elems(owned[i]) == Claim(n, previous, i)
    ensures forall j :: 0 <= j < |owned| && j != i ==> owned[j] == owned0[j]
    ensures forall p :: p in claimed <==> p < n && exists j :: 0 <= j < i + 1 && p in previous[j]
  {
    owned, claimed := owned0, claimed0;
    var k := 0;
    while k < |previous[i]|
      invariant 0 <= k <= |previous[i]| && |owned| == |owned0| && AllDistinct(owned)
      invariant forall j :: 0 <= j < |owned| && j != i ==> owned[j] == owned0[j]
      invariant Elems(owned[i]) == ClaimPrefix(n, previous, i, k)
      invariant claimed == claimed0 + ClaimPrefix(n, previous, i, k)
    {
      var p := previous[i][k];
      ClaimPrefixStep(n, previous, i, k);
      if p < n && p !in claimed {
        assert p !in Elems(owned[i]);
        ElemsAppend(owned[i], p);
        owned := owned[i := owned[i] + [p]];
        claimed := claimed + {p};
      }
      k := k + 1;
    }
    assert previous[i][..k] == previous[i];
    assert ClaimPrefix(n, previous, i, k) == Claim(n, previous, i);
    forall p ensures p in claimed <==> p < n && exists j :: 0 <= j < i + 1 && p in previous[j] {
      if p < n && p in previous[i] && p !in claimed0 { assert p in Claim(n, previous, i); }
    }
  }

  // ---------- strip ----------

  lemma SortedDistinctIsAscending(s: seq<nat>)
    requires Distinct(s)
    ensures Increasing(SortNats(s)) && |SortNats(s)| == |s| && Elems(SortNats(s)) == Elems(s)
  {
    SortNatsSorted(s);
    SameElements(s, SortNats(s));
    DistinctSetSize(s);
    assert Elems(SortNats(s)) == Elems(s);
    FullSizeDistinct(SortNats(s));
  }

  lemma {:induction false} PrefixIsLowest(l: seq<nat>, t: nat)
    requires Increasing(l) && t <= |l|
    ensures Elems(l[..t]) == Lowest(Elems(l), t)
  {
    forall k | 0 <= k < |l| ensures |Smaller(Elems(l), l[k])| == k {
      assert Smaller(Elems(l), l[k]) == Elems(l[..k]);
      DistinctSetSize(l[..k]);
    }
    forall p | p in Elems(l[..t]) ensures p in Lowest(Elems(l), t) {
      var k :| 0 <= k < t && l[k] == p;
      assert p in Elems(l);
    }
    forall p | p in Lowest(Elems(l), t) ensures p in Elems(l[..t]) {
      var k :| 0 <= k < |l| && l[k] == p;
      assert l[..t][k] == p;
    }
  }

  /** Sort one over-full list and pop its highest partitions into `free`. */
  method StripOne(list: seq<nat>, target: nat, free0: seq<nat>) returns (kept: seq<nat>, free: seq<nat>)
    requires Distinct(list)
    ensures Distinct(kept) && Elems(kept) == Lowest(Elems(list), target)
    ensures Elems(free) == Elems(free0) + (Elems(list) - Elems(kept))
  {
    kept, free := list, free0;
    DistinctSetSize(list);
    if |list| > target {
      kept := SortNats(list);
      SortedDistinctIsAscending(list);
      ghost var sorted := kept;
      while |kept| > target
        invariant target <= |kept| <= |sorted| && kept == sorted[..|kept|]
        invariant Elems(free) == Elems(free0) + (Elems(sorted) - Elems(kept))
      {
        IncreasingLast(kept);
        ElemsAppend(free, kept[|kept| - 1]);
        assert Elems(kept) <= Elems(sorted);
        free := free + [kept[|kept| - 1]];
        kept := kept[..|kept| - 1];
      }
      PrefixIsLowest(sorted, target);
    } else {
      LowestSize(Elems(list), target);
    }
  }

  method StripExcess(owned0: seq<seq<nat>>, target: seq<nat>, free0: seq<nat>)
    returns (owned: seq<seq<nat>>, free: seq<nat>)
    requires |owned0| == |target| && AllDistinct(owned0)
    ensures |owned| == |owned0| && AllDistinct(owned)
    ensures forall i :: 0 <= i < |owned| ==> Elems(owned[i]) == Lowest(Elems(owned0[i]), target[i])
    ensures forall p :: p in free <==>
              p in free0 || exists i :: 0 <= i < |owned| && p in owned0[i] && p !in owned[i]
  {
    owned, free := owned0, free0;
    var i := 0;
    while i < |owned|
      invariant 0 <= i <= |owned| == |owned0| && AllDistinct(owned)
      invariant forall j :: 0 <= j < i ==> Elems(owned[j]) == Lowest(Elems(owned0[j]), target[j])
      invariant forall j :: i <= j < |owned| ==> owned[j] == owned0[j]
      invariant forall p :: p in free <==>
                p in free0 || exists j :: 0 <= j < i && p in owned0[j] && p !in owned[j]
    {
      var kept, free' := StripOne(owned[i], target[i], free);
      StripFree(owned0, owned, i, kept, free0, free, free');
      owned := owned[i := kept];
      free := free';
      i := i + 1;
    }
  }

  lemma StripFree(owned0: seq<seq<nat>>, owned: seq<seq<nat>>, i: nat, kept: seq<nat>,
                  free0: seq<nat>, free: seq<nat>, free': seq<nat>)
    requires i < |owned| == |owned0| && owned[i] == owned0[i]
    requires forall p :: p in free <==> p in free0 || exists j :: 0 <= j < i && p in owned0[j] && p !in owned[j]
    requires Elems(free') == Elems(free) + (Elems(owned[i]) - Elems(kept))
    ensures var owned' := owned[i := kept];
            forall p :: p in free' <==> p in free0 || exists j :: 0 <= j < i + 1 && p in owned0[j] && p !in owned'[j]
  {
    var owned' := owned[i := kept];
    forall p ensures p in free' <==> p in free0 || exists j :: 0 <= j < i + 1 && p in owned0[j] && p !in owned'[j] {
      assert p in free' <==> p in Elems(free');
      assert p in free <==> p in Elems(free);
      if p in free && p !in free0 {
        var j :| 0 <= j < i && p in owned0[j] && p !in owned[j];
        assert p !in owned'[j];
      } else if p in owned[i] && p !in kept {
        assert p in owned0[i] && p !in owned'[i];
      }
    }
  }

  // ---------- fill ----------

  lemma ViewSizes(owned: seq<seq<nat>>)
    requires AllDistinct(owned)
    ensures forall i :: 0 <= i < |owned| ==> |Views(owned)[i]| == |owned[i]|
  {
    forall i | 0 <= i < |owned| ensures |Views(owned)[i]| == |owned[i]| { DistinctSetSize(owned[i]); }
  }

  predicate Short(owned: seq<seq<nat>>, target: seq<nat>, i: nat)
    requires |owned| == |target|
  {
    i < |owned| && |owned[i]| < target[i]
  }

  /** `c` lists the positions under target, or all positions when there is none. */
  ghost predicate AreCandidates(owned: seq<seq<nat>>, target: seq<nat>, c: seq<nat>)
    requires |owned| == |target|
  {
    && Increasing(c)
    && forall i: nat :: i in c <==> i < |owned| && (Short(owned, target, i) || forall j: nat :: !Short(owned, target, j))
  }

  method Candidates(owned: seq<seq<nat>>, target: seq<nat>) returns (c: seq<nat>)
    requires |owned| == |target|
    ensures AreCandidates(owned, target, c)
  {
    c := [];
    var i: nat := 0;
    while i < |owned|
      invariant 0 <= i <= |owned| && Increasing(c)
      invariant forall j: nat :: j in c <==> j < i && Short(owned, target, j)
    {
      if |owned[i]| < target[i] {
        assert forall k :: 0 <= k < |c| ==> c[k] in c;
        c := c + [i];
      }
      i := i + 1;
    }
    if c == [] {
      assert forall j: nat :: !Short(owned, target, j) by {
        assert forall j: nat :: Short(owned, target, j) ==> j in c;
      }
      c := seq(|owned|, j requires 0 <= j < |owned| => j);
      forall j: nat ensures j in c <==> j < |owned| {
        if j < |owned| { assert c[j] == j; }
      }
    } else {
      assert c[0] in c;
      assert Short(owned, target, c[0]);
    }
  }

  lemma CandidatesMatch(n: nat, ids: seq<string>, owned: seq<seq<nat>>, target: seq<nat>, c: seq<nat>)
    requires |ids| == |owned| && AllDistinct(owned) && target == Targets(n, Ranks(ids))
    requires AreCandidates(owned, target, c)
    ensures forall i: nat :: i in c <==> i < |ids| && Candidate(n, Ranks(ids), Views(owned), i)
  {
    ViewSizes(owned);
    assert forall i: nat :: i < |ids| ==> (UnderTarget(n, Ranks(ids), Views(owned), i) <==> Short(owned, target, i));
  }

  /** First of the candidates sorted by (number owned, member id). */
  method Choose(n: nat, ids: seq<string>, owned: seq<seq<nat>>, target: seq<nat>, c: seq<nat>) returns (best: nat)
    requires |ids| == |owned| && ids != [] && AllDistinct(owned) && target == Targets(n, Ranks(ids))
    requires AreCandidates(owned, target, c)
    ensures best == Pick(n, Ranks(ids), Views(owned))
  {
    CandidatesMatch(n, ids, owned, target, c);
    assert Pick(n, Ranks(ids), Views(owned)) in c;
    assert c[0] in c;
    best := c[0];
    var k := 1;
    while k < |c|
      invariant 1 <= k <= |c| && best in c[..k] && best < |ids|
      invariant forall j :: 0 <= j < k ==> c[j] < |ids| && AtLeastAsGood(Ranks(ids), Views(owned), best, c[j])
    {
      assert c[k] in c;
      Compare(ids, owned, best, c[k]);
      if |owned[c[k]]| < |owned[best]| || (|owned[c[k]]| == |owned[best]| && Less(ids[c[k]], ids[best])) {
        best := c[k];
      }
      k := k + 1;
    }
    assert best in c;
    RanksArePermutation(ids);
    assert IsPick(n, Ranks(ids), Views(owned), best);
    PickUnique(n, Ranks(ids), Views(owned), best, Pick(n, Ranks(ids), Views(owned)));
  }

  /** Comparing (number owned, id) of an earlier and a later position compares them by rank. */
  lemma Compare(ids: seq<string>, owned: seq<seq<nat>>, i: nat, j: nat)
    requires |ids| == |owned| && AllDistinct(owned) && i < j < |ids|
    ensures var better := |owned[j]| < |owned[i]| || (|owned[j]| == |owned[i]| && Less(ids[j], ids[i]));
            if better then AtLeastAsGood(Ranks(ids), Views(owned), j, i)
            else AtLeastAsGood(Ranks(ids), Views(owned), i, j)
  {
    ViewSizes(owned);
    if Less(ids[j], ids[i]) { BeforeRaisesRank(ids, j, i); } else { NotBefore(ids, i, j); }
  }

  lemma FillListStep(n: nat, ids: seq<string>, owned: seq<seq<nat>>, free: seq<nat>, i: nat)
    requires |ids| == |owned| && ids != [] && AllDistinct(owned) && free != []
    requires FillState(n, Ranks(ids), Views(owned), free) && i == Pick(n, Ranks(ids), Views(owned))
    ensures var owned' := owned[i := owned[i] + [free[0]]];
            && AllDistinct(owned')
            && FillState(n, Ranks(ids), Views(owned'), free[1..])
            && Fill(n, Ranks(ids), Views(owned'), free[1..]) == Fill(n, Ranks(ids), Views(owned), free)
  {
    var p := free[0];
    FillStep(n, Ranks(ids), Views(owned), free);
    assert p in Elems(free);
    ViewsAppend(owned, i, p);
  }

  lemma ViewsAppend(owned: seq<seq<nat>>, i: nat, p: nat)
    requires i < |owned| && AllDistinct(owned) && p !in Union(Views(owned))
    ensures AllDistinct(owned[i := owned[i] + [p]])
    ensures Views(owned[i := owned[i] + [p]]) == Views(owned)[i := Views(owned)[i] + {p}]
  {
    assert p !in Views(owned)[i];
    assert p !in owned[i];
    ElemsAppend(owned[i], p);
  }

  /** Hand out the free partitions, lowest first. */
  method FillFree(n: nat, ids: seq<string>, target: seq<nat>, owned0: seq<seq<nat>>, free0: seq<nat>)
    returns (owned: seq<seq<nat>>)
    requires |ids| == |owned0| && ids != [] && AllDistinct(owned0) && target == Targets(n, Ranks(ids))
    requires FillState(n, Ranks(ids), Views(owned0), free0)
    ensures AllDistinct(owned) && Views(owned) == Fill(n, Ranks(ids), Views(owned0), free0)
  {
    owned := owned0;
    var free := free0;
    while free != []
      invariant |owned| == |ids| && AllDistinct(owned)
      invariant FillState(n, Ranks(ids), Views(owned), free)
      invariant Fill(n, Ranks(ids), Views(owned), free) == Fill(n, Ranks(ids), Views(owned0), free0)
      decreases |free|
    {
      var c := Candidates(owned, target);
      var i := Choose(n, ids, owned, target, c);
      FillListStep(n, ids, owned, free, i);
      owned := owned[i := owned[i] + [free[0]]];
      free := free[1..];
    }
  }

  // ---------- the assignors ----------

  method TargetSizes(n: nat, ids: seq<string>) returns (target: seq<nat>)
    requires ids != []
    ensures target == Targets(n, Ranks(ids))
  {
    var m := |ids|;
    var base, extra := n / m, n % m;
    var order := SortedIndices(ids);
    target := seq(m, i => base);
    var r := 0;
    while r < m
      invariant 0 <= r <= m && |target| == m
      invariant forall i :: 0 <= i < m ==> target[i] == base + if Ranks(ids)[i] < r && Ranks(ids)[i] < extra then 1 else 0
    {
      forall i | 0 <= i < m && Ranks(ids)[i] == r ensures i == order[r] {
        RanksArePermutation(ids);
      }
      if r < extra { target := target[order[r] := base + 1]; }
      r := r + 1;
    }
    RanksArePermutation(ids);
  }

  lemma StrippedIsUnowned(n: nat, claims: seq<set<nat>>, kept: seq<set<nat>>)
    requires ValidClaims(n, claims) && |kept| == |claims|
    requires forall i :: 0 <= i < |kept| ==> kept[i] <= claims[i]
    ensures forall p :: p in Unowned(n, kept) <==>
              (p in Range(n) && p !in Union(claims)) || exists i :: 0 <= i < |kept| && p in claims[i] && p !in kept[i]
  {
    forall p ensures p in Unowned(n, kept) <==>
              (p in Range(n) && p !in Union(claims)) || exists i :: 0 <= i < |kept| && p in claims[i] && p !in kept[i]
    {
      if p in Union(kept) {
        var k :| 0 <= k < |kept| && p in kept[k];
        assert p in claims[k];
      }
    }
  }

  lemma {:induction false} DedupIncreasing(s: seq<nat>)
    requires forall i, j :: 0 <= i < j < |s| ==> s[i] <= s[j]
    ensures Increasing(Dedup(s))
  {
    if |s| > 1 {
      DedupIncreasing(s[1..]);
      var r := Dedup(s[1..]);
      forall j | 0 <= j < |r| ensures s[1] <= r[j] { assert r[j] in s[1..]; }
    }
  }

  lemma DedupSortNats(s: seq<nat>)
    ensures Increasing(Dedup(SortNats(s))) && Elems(Dedup(SortNats(s))) == Elems(s)
  {
    SameElements(s, SortNats(s));
    SortNatsSorted(s);
    DedupIncreasing(SortNats(s));
  }

  method SortEach(owned0: seq<seq<nat>>) returns (owned: seq<seq<nat>>)
    requires AllDistinct(owned0)
    ensures |owned| == |owned0|
    ensures forall i :: 0 <= i < |owned| ==> Increasing(owned[i]) && Elems(owned[i]) == Elems(owned0[i])
  {
    owned := [];
    while |owned| < |owned0|
      invariant |owned| <= |owned0|
      invariant forall i :: 0 <= i < |owned| ==> Increasing(owned[i]) && Elems(owned[i]) == Elems(owned0[i])
    {
      SortedDistinctIsAscending(owned0[|owned|]);
      owned := owned + [SortNats(owned0[|owned|])];
    }
  }

  lemma EmptyCover(ids: seq<string>, owned: seq<seq<nat>>)
    requires |ids| == |owned| && ids != [] && forall i :: 0 <= i < |owned| ==> owned[i] == []
    ensures ExactCover(0, Ranks(ids), Views(owned))
  {
    assert forall i :: 0 <= i < |owned| ==> Views(owned)[i] == {};
    assert Union(Views(owned)) == {};
    assert Sizes(Views(owned)) == Targets(0, Ranks(ids));
  }

  lemma NothingToAssign(ids: seq<string>, previous: seq<seq<nat>>)
    requires |ids| == |previous| && ids != []
    ensures forall i :: 0 <= i < |ids| ==> Sticky(0, Ranks(ids), Claims(0, previous))[i] == {}
  {
    RanksArePermutation(ids);
    var f := Sticky(0, Ranks(ids), Claims(0, previous));
    StickyIsExactCover(0, Ranks(ids), Claims(0, previous));
    forall i | 0 <= i < |ids| ensures f[i] == {} {
      assert forall p :: p in f[i] ==> p in Union(f);
    }
  }

  /**
   `sticky_assign`: exact cover of 0..n at the exact targets, in ascending
   lists, equal to the reference assignment. Prior lists may overlap, repeat
   or name partitions out of range.
   */
  method StickyAssign(n: nat, ids: seq<string>, previous: seq<seq<nat>>) returns (owned: seq<seq<nat>>)
    requires ids == [] || n == 0 || |ids| == |previous|
    ensures |owned| == |ids|
    ensures |ids| == |previous| ==> Lists(n, owned, Sticky(n, Ranks(ids), Claims(n, previous)))
    ensures ids != [] ==> ExactCover(n, Ranks(ids), Views(owned))
    ensures AllIncreasing(owned)
  {
    if ids == [] || n == 0 {
      owned := seq(|ids|, i => []);
      if ids != [] {
        if |ids| == |previous| { NothingToAssign(ids, previous); }
        EmptyCover(ids, owned);
      }
      return;
    }
    var target := TargetSizes(n, ids);
    var free;
    owned, free := KeepAndStrip(n, ids, target, previous);
    owned := FillFree(n, ids, target, owned, free);
    RanksArePermutation(ids);
    StickyIsExactCover(n, Ranks(ids), Claims(n, previous));
    owned := SortLists(n, owned);
  }

  /** What `StickyAssign` returned for some prior lists, it returns again when these are its prior lists. */
  lemma StickyAssignIsIdempotent(n: nat, ids: seq<string>, first: seq<seq<nat>>, second: seq<seq<nat>>)
    requires ids != [] && ExactCover(n, Ranks(ids), Views(first)) && AllIncreasing(first)
    requires |first| == |ids| && Lists(n, second, Sticky(n, Ranks(ids), Claims(n, first)))
    ensures second == first
  {
    var f := Views(first);
    RanksArePermutation(ids);
    CoverIsItsClaims(n, first);
    StickyIsIdempotent(n, Ranks(ids), f);
    ListsOf(n, first, f);
    SameLists(n, first, second, f);
  }

  lemma SameLists(n: nat, a: seq<seq<nat>>, b: seq<seq<nat>>, f: seq<set<nat>>)
    requires Lists(n, a, f) && Lists(n, b, f)
    ensures a == b
  {
  }

  lemma CoverIsItsClaims(n: nat, first: seq<seq<nat>>)
    requires PairwiseDisjoint(Views(first)) && Union(Views(first)) == Range(n)
    ensures Claims(n, first) == Views(first)
  {
    var f := Views(first);
    forall i | 0 <= i < |first| ensures Claims(n, first)[i] == f[i] {
      assert DisjointLists(first) by {
        forall a, b, p | 0 <= a < |first| && 0 <= b < |first| && p in first[a] && p in first[b] ensures a == b {
          assert p in f[a] && p in f[b];
        }
      }
      DisjointClaim(n, first, i);
      forall p | p in f[i] ensures p < n { assert p in Union(f); }
    }
  }

  /** The keep and strip phases leave the trimmed claims, and the rest free in ascending order. */
  method KeepAndStrip(n: nat, ids: seq<string>, target: seq<nat>, previous: seq<seq<nat>>)
    returns (owned: seq<seq<nat>>, free: seq<nat>)
    requires ids != [] && |ids| == |previous| && target == Targets(n, Ranks(ids))
    ensures |owned| == |ids| && AllDistinct(owned)
    ensures Views(owned) == Trim(n, Ranks(ids), Claims(n, previous))
    ensures free == Ascending(Unowned(n, Views(owned)), n)
    ensures FillState(n, Ranks(ids), Views(owned), free)
  {
    var claimed;
    owned, claimed := KeepPrevious(n, previous);
    free := Ascending(Range(n) - claimed, n);
    ghost var claims, owned0 := Claims(n, previous), owned;
    owned, free := StripExcess(owned, target, free);
    ghost var kept := Trim(n, Ranks(ids), claims);
    assert Views(owned) == kept by {
      forall i | 0 <= i < |ids| ensures Views(owned)[i] == kept[i] { assert Views(owned0)[i] == claims[i]; }
    }
    StripLeaves(n, ids, owned0, owned, claims, kept, free, claimed);
    DedupSortNats(free);
    free := Dedup(SortNats(free));
    UnownedList(n, kept, free);
    RanksArePermutation(ids);
    TrimFacts(n, Ranks(ids), claims);
  }

  lemma UnownedList(n: nat, kept: seq<set<nat>>, free: seq<nat>)
    requires Increasing(free) && Elems(free) == Unowned(n, kept)
    ensures free == Ascending(Unowned(n, kept), n)
  {
    assert forall p :: p in free <==> p in Elems(free);
    IncreasingIsAscending(free, Unowned(n, kept), n);
  }

  method SortLists(n: nat, owned0: seq<seq<nat>>) returns (owned: seq<seq<nat>>)
    requires AllDistinct(owned0) && Union(Views(owned0)) == Range(n)
    ensures |owned| == |owned0| && Views(owned) == Views(owned0)
    ensures Lists(n, owned, Views(owned0)) && AllIncreasing(owned)
  {
    owned := SortEach(owned0);
    assert Views(owned) == Views(owned0);
    ListsOf(n, owned, Views(owned0));
  }

  lemma StripLeaves(n: nat, ids: seq<string>, owned0: seq<seq<nat>>, owned: seq<seq<nat>>,
                    claims: seq<set<nat>>, kept: seq<set<nat>>, free: seq<nat>, claimed: set<nat>)
    requires |owned0| == |owned| == |claims| && Views(owned0) == claims && Views(owned) == kept
    requires ValidClaims(n, claims) && claimed == Union(claims)
    requires forall i :: 0 <= i < |kept| ==> kept[i] <= claims[i]
    requires forall p :: p in free <==>
               p in Ascending(Range(n) - claimed, n) || exists i :: 0 <= i < |owned| && p in owned0[i] && p !in owned[i]
    ensures Elems(free) == Unowned(n, kept)
  {
    AscendingFacts(Range(n) - claimed, n);
    StrippedIsUnowned(n, claims, kept);
    assert forall i, p :: 0 <= i < |owned| ==> (p in owned0[i] <==> p in claims[i]) by {
      assert forall i :: 0 <= i < |owned| ==> Views(owned0)[i] == Elems(owned0[i]);
    }
    assert forall i, p :: 0 <= i < |owned| ==> (p in owned[i] <==> p in kept[i]) by {
      assert forall i :: 0 <= i < |owned| ==> Views(owned)[i] == Elems(owned[i]);
    }
    forall p ensures p in Elems(free) <==> p in Unowned(n, kept) {
      assert p in Elems(free) <==> p in free;
    }
  }

  lemma ListsOf(n: nat, owned: seq<seq<nat>>, f: seq<set<nat>>)
    requires Views(owned) == f && Union(f) == Range(n)
    requires forall i :: 0 <= i < |owned| ==> Increasing(owned[i])
    ensures Lists(n, owned, f)
  {
    forall i | 0 <= i < |f| ensures owned[i] == Ascending(f[i], n) {
      assert f[i] == Elems(owned[i]);
      forall p | p in f[i] ensures p < n { assert p in Union(f); }
      IncreasingIsAscending(owned[i], f[i], n);
    }
  }

  /** Consecutive numbers from `start`. */
  function Block(start: nat, count: nat): seq<nat> {
    seq(count, k requires 0 <= k < count => start + k)
  }

  /** Every list is a run of consecutive numbers. */
  ghost predicate AllBlocks(result: seq<seq<nat>>) {
    forall i :: 0 <= i < |result| ==> IsBlock(result[i])
  }

  ghost predicate IsBlock(s: seq<nat>) { forall k :: 0 <= k < |s| ==> s[k] == s[0] + k }

  lemma PlaceBlock(result: seq<seq<nat>>, i: nat, start: nat, count: nat)
    requires AllBlocks(result) && i < |result|
    ensures AllBlocks(result[i := Block(start, count)])
  {
    assert IsBlock(Block(start, count));
  }

  lemma BlocksIncrease(result: seq<seq<nat>>)
    requires AllBlocks(result)
    ensures AllIncreasing(result)
  {
    forall i | 0 <= i < |result| ensures Increasing(result[i]) { assert IsBlock(result[i]); }
  }

  ghost predicate AllBelow(a: seq<nat>, b: seq<nat>) {
    forall p, q :: p in a && q in b ==> p < q
  }

  /** A member of lower rank holds only lower numbers. */
  ghost predicate InRankOrder(rank: seq<nat>, result: seq<seq<nat>>)
    requires |rank| == |result|
  {
    forall i, j :: 0 <= i < |rank| && 0 <= j < |rank| && rank[i] < rank[j] ==> AllBelow(result[i], result[j])
  }

  /**
   `range_assign`: contiguous blocks in sorted-id order, an exact cover with
   the same per-member counts as the sticky assignor.
   */
  method RangeAssign(n: nat, ids: seq<string>) returns (result: seq<seq<nat>>)
    ensures |result| == |ids|
    ensures ids != [] ==> ExactCover(n, Ranks(ids), Views(result))
    ensures InRankOrder(Ranks(ids), result) && AllBlocks(result) && AllIncreasing(result)
  {
    var m := |ids|;
    result := seq(m, i => []);
    if m == 0 || n == 0 {
      if m > 0 { EmptyCover(ids, result); }
      return;
    }
    var order := SortedIndices(ids);
    RanksArePermutation(ids);
    var next;
    result, next := PlaceBlocks(n, order, Ranks(ids));
    BlocksIncrease(result);
    RangeEnd(n, Ranks(ids), result, next);
  }

  /** Walk the members in sorted order, handing each the next run of partitions. */
  method PlaceBlocks(n: nat, order: seq<nat>, ghost rank: seq<nat>) returns (result: seq<seq<nat>>, next: nat)
    requires order != [] && |order| == |rank| && IsPermutation(rank)
    requires forall r :: 0 <= r < |order| ==> order[r] < |rank| && rank[order[r]] == r
    ensures RangeState(n, rank, result, |rank|, next)
  {
    var m := |order|;
    result := seq(m, i => []);
    var base, extra := n / m, n % m;
    next := 0;
    var r: nat := 0;
    RangeStart(n, rank, result);
    while r < m
      invariant 0 <= r <= m && |result| == m
      invariant RangeState(n, rank, result, r, next)
    {
      var count := base + if r < extra then 1 else 0;
      assert count == Target(n, m, r);
      RangeStep(n, rank, result, r, next, order[r], count);
      result := result[order[r] := Block(next, count)];
      next := next + count;
      r := r + 1;
    }
  }

  ghost predicate BlockSizes(target: seq<nat>, rank: seq<nat>, result: seq<seq<nat>>, r: nat)
    requires |rank| == |result| == |target|
  {
    forall i :: 0 <= i < |rank| ==> if rank[i] < r then |Elems(result[i])| == target[i] else result[i] == []
  }

  /** Members of rank below `r` hold consecutive blocks that exhaust 0..next. */
  ghost predicate RangeState(n: nat, rank: seq<nat>, result: seq<seq<nat>>, r: nat, next: nat) {
    && |rank| == |result| && IsPermutation(rank)
    && BlockSizes(Targets(n, rank), rank, result, r)
    && PairwiseDisjoint(Views(result)) && Union(Views(result)) == Range(next)
    && InRankOrder(rank, result) && AllBlocks(result)
  }

  lemma RangeStart(n: nat, rank: seq<nat>, result: seq<seq<nat>>)
    requires |rank| == |result| && IsPermutation(rank)
    requires forall i :: 0 <= i < |result| ==> result[i] == []
    ensures RangeState(n, rank, result, 0, 0)
  {
    assert forall i :: 0 <= i < |result| ==> Views(result)[i] == {};
  }

  lemma RangeEnd(n: nat, rank: seq<nat>, result: seq<seq<nat>>, next: nat)
    requires rank != [] && RangeState(n, rank, result, |rank|, next)
    ensures ExactCover(n, rank, Views(result))
  {
    var f := Views(result);
    forall i | 0 <= i < |rank| ensures Sizes(f)[i] == Targets(n, rank)[i] { assert f[i] == Elems(result[i]); }
    assert Sizes(f) == Targets(n, rank);
    UnionSize(f);
    TargetsSum(n, rank);
    RangeSize(next);
  }

  lemma BlockElems(next: nat, count: nat)
    ensures forall p :: p in Block(next, count) <==> next <= p < next + count
    ensures |Elems(Block(next, count))| == count
    ensures Range(next) + Elems(Block(next, count)) == Range(next + count)
  {
    forall p ensures p in Block(next, count) <==> next <= p < next + count {
      if next <= p < next + count { assert Block(next, count)[p - next] == p; }
    }
    DistinctSetSize(Block(next, count));
  }

  lemma UnionReplaceEmpty(f: seq<set<nat>>, i: nat, s: set<nat>)
    requires i < |f| && f[i] == {} && PairwiseDisjoint(f) && s !! Union(f)
    ensures PairwiseDisjoint(f[i := s]) && Union(f[i := s]) == Union(f) + s
  {
    var g := f[i := s];
    forall p ensures p in Union(g) <==> p in Union(f) || p in s {
      if p in Union(f) {
        var k :| 0 <= k < |f| && p in f[k];
        assert p in g[k];
      }
      if p in s { assert p in g[i]; }
    }
    forall k, p | 0 <= k < |f| && p in f[k] ensures p !in s { assert p in Union(f); }
  }

  lemma BlockInOrder(n: nat, rank: seq<nat>, result: seq<seq<nat>>, r: nat, next: nat, i: nat)
    requires RangeState(n, rank, result, r, next) && i < |rank| && rank[i] == r
    ensures InRankOrder(rank, result[i := Block(next, Target(n, |rank|, r))])
  {
    var count := Target(n, |rank|, r);
    var result' := result[i := Block(next, count)];
    BlockElems(next, count);
    forall k, p | 0 <= k < |rank| && p in result[k] ensures p < next {
      assert p in Views(result)[k];
      assert p in Union(Views(result));
    }
    forall a, b | 0 <= a < |rank| && 0 <= b < |rank| && rank[a] < rank[b] ensures AllBelow(result'[a], result'[b]) {
      assert a != i && b != i ==> AllBelow(result[a], result[b]);
    }
  }

  lemma RangeStep(n: nat, rank: seq<nat>, result: seq<seq<nat>>, r: nat, next: nat, i: nat, count: nat)
    requires RangeState(n, rank, result, r, next) && i < |rank| && rank[i] == r && count == Target(n, |rank|, r)
    ensures RangeState(n, rank, result[i := Block(next, count)], r + 1, next + count)
  {
    BlockInOrder(n, rank, result, r, next, i);
    PlaceBlock(result, i, next, count);
    BlockCover(Views(result), i, next, count);
    ViewsReplace(result, i, Block(next, count));
    BlockSizesStep(Targets(n, rank), rank, result, r, i, Block(next, count));
  }

  lemma ViewsReplace(result: seq<seq<nat>>, i: nat, block: seq<nat>)
    requires i < |result|
    ensures Views(result[i := block]) == Views(result)[i := Elems(block)]
  { }

  lemma BlockCover(f: seq<set<nat>>, i: nat, next: nat, count: nat)
    requires i < |f| && f[i] == {} && PairwiseDisjoint(f) && Union(f) == Range(next)
    ensures var g := f[i := Elems(Block(next, count))];
            PairwiseDisjoint(g) && Union(g) == Range(next + count) && |Elems(Block(next, count))| == count
  {
    BlockElems(next, count);
    UnionReplaceEmpty(f, i, Elems(Block(next, count)));
  }

  lemma BlockSizesStep(target: seq<nat>, rank: seq<nat>, result: seq<seq<nat>>, r: nat, i: nat, block: seq<nat>)
    requires |rank| == |result| == |target| && IsPermutation(rank) && BlockSizes(target, rank, result, r)
    requires i < |rank| && rank[i] == r && |Elems(block)| == target[i]
    ensures BlockSizes(target, rank, result[i := block], r + 1)
  {
    assert forall k :: 0 <= k < |rank| && k != i ==> rank[k] != r;
  }

  /** The two assignors give every member lists of the same length. */
  lemma SameCountsAsRange(n: nat, ids: seq<string>, sticky: seq<seq<nat>>, range: seq<seq<nat>>)
    requires |ids| > 0 && ExactCover(n, Ranks(ids), Views(sticky)) && ExactCover(n, Ranks(ids), Views(range))
    requires AllIncreasing(sticky) && AllIncreasing(range)
    ensures forall i :: 0 <= i < |ids| ==> |sticky[i]| == |range[i]|
  {
    forall i | 0 <= i < |ids| ensures |sticky[i]| == |range[i]| {
      assert Sizes(Views(sticky))[i] == Sizes(Views(range))[i];
      DistinctSetSize(sticky[i]);
      DistinctSetSize(range[i]);
    }
  }
}
