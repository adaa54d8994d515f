/**
 One-topic sticky assignment as a mathematical object: who keeps what, who is
 stripped, who receives the free partitions, and what that guarantees.

 A run of the assignor is determined by the partition count `n`, the rank of
 every member in the sorted-id order, and the set of prior partitions each
 member validly claims. Members are positions in parallel sequences, as in the
 source.
 */
module Assignor {
  import opened Arithmetic
  import opened Ordering
  import opened Counting

  // ---------- ranks and targets ----------

  /** Position `i` comes before position `j` in the stable sort by member id. */
  predicate Before(ids: seq<string>, i: nat, j: nat)
    requires i < |ids| && j < |ids|
  {
    Less(ids[i], ids[j]) || (ids[i] == ids[j] && i < j)
  }

  ghost function Preceding(ids: seq<string>, i: nat): (s: set<nat>)
    requires i < |ids|
  {
    set j | j in Range(|ids|) && Before(ids, j, i)
  }

  ghost function Ranks(ids: seq<string>): (r: seq<nat>)
    ensures |r| == |ids|
  {
    seq(|ids|, i requires 0 <= i < |ids| => |Preceding(ids, i)|)
  }

  lemma BeforeRaisesRank(ids: seq<string>, i: nat, j: nat)
    requires i < |ids| && j < |ids| && Before(ids, i, j)
    ensures |Preceding(ids, i)| < |Preceding(ids, j)|
  {
    forall k | k in Preceding(ids, i) ensures k in Preceding(ids, j) && k != i {
      LessIrreflexive(ids[i]);
      if Less(ids[k], ids[i]) && Less(ids[i], ids[j]) { LessTransitive(ids[k], ids[i], ids[j]); }
    }
    SubsetSize(Preceding(ids, i) + {i}, Preceding(ids, j));
    LessIrreflexive(ids[i]);
    assert i !in Preceding(ids, i);
  }

  lemma RanksArePermutation(ids: seq<string>)
    ensures IsPermutation(Ranks(ids))
  {
    var m := |ids|;
    RangeSize(m);
    forall i | 0 <= i < m ensures Ranks(ids)[i] < m {
      LessIrreflexive(ids[i]);
      SubsetSize(Preceding(ids, i), Range(m) - {i});
    }
    forall i, j | 0 <= i < j < m ensures Ranks(ids)[i] != Ranks(ids)[j] {
      LessTotal(ids[i], ids[j]);
      if Before(ids, i, j) { BeforeRaisesRank(ids, i, j); } else { BeforeRaisesRank(ids, j, i); }
    }
  }

  /** Partitions owed to the member of rank `r` among `m`: base, or base + 1 for the first `extra`. */
  function Target(n: nat, m: nat, r: nat): nat
    requires m > 0
  {
    n / m + (if r < n % m then 1 else 0)
  }

  function Targets(n: nat, rank: seq<nat>): (t: seq<nat>)
    ensures |t| == |rank|
  {
    seq(|rank|, i requires 0 <= i < |rank| => Target(n, |rank|, rank[i]))
  }

  /** The targets hand out every partition. */
  lemma TargetsSum(n: nat, rank: seq<nat>)
    requires IsPermutation(rank) && rank != []
    ensures Sum(Targets(n, rank)) == n
  {
    var m := |rank|;
    BlocksSum(rank, n / m, n % m, Targets(n, rank));
    assert n == m * (n / m) + n % m;
  }

  lemma BlocksSum(rank: seq<nat>, base: nat, extra: nat, targets: seq<nat>)
    requires IsPermutation(rank) && |targets| == |rank| && extra <= |rank|
    requires forall i :: 0 <= i < |rank| ==> targets[i] == base + if rank[i] < extra then 1 else 0
    ensures Sum(targets) == |rank| * base + extra
  {
    RankBelowSum(rank, extra);
    SumShift(RankBelow(rank, extra), targets, base);
  }

  /** A target never grows when the group or the member's rank grows. */
  lemma TargetMonotone(n: nat, m: nat, r: nat, m': nat, r': nat)
    requires 0 < m <= m' && r <= r'
    ensures Target(n, m', r') <= Target(n, m, r)
  {
    var b, b' := n / m, n / m';
    assert n == m * b + n % m && n == m' * b' + n % m';
    MultiplyMonotone(m, m', b');
    AtMostQuotient(n, m, b');
    MultiplyMonotone(m, m', b);
  }

  lemma AtMostQuotient(n: nat, m: nat, c: nat)
    requires 0 < m && m * c <= n
    ensures c <= n / m
  {
    var b := n / m;
    assert n < m * (b + 1);
    if b < c { MultiplyMonotone(b + 1, c, m); }
  }

  // ---------- claims and trimming ----------

  /** Partitions listed by member `i`, in range, and not listed by an earlier member. */
  ghost function Claim(n: nat, previous: seq<seq<nat>>, i: nat): (s: set<nat>)
    requires i < |previous|
  {
    set p | p in previous[i] && p < n && forall j :: 0 <= j < i ==> p !in previous[j]
  }

  ghost function Claims(n: nat, previous: seq<seq<nat>>): (c: seq<set<nat>>)
    ensures |c| == |previous|
    ensures ValidClaims(n, c)
  {
    seq(|previous|, i requires 0 <= i < |previous| => Claim(n, previous, i))
  }

  ghost predicate ValidClaims(n: nat, claims: seq<set<nat>>) {
    PairwiseDisjoint(claims) && forall i, p :: 0 <= i < |claims| && p in claims[i] ==> p < n
  }

  function Smaller(s: set<nat>, p: nat): set<nat> { set q | q in s && q < p }

  /** The `t` lowest elements of `s` (all of `s` if it has no more than `t`). */
  function Lowest(s: set<nat>, t: nat): (r: set<nat>)
    ensures r <= s
  {
    set p | p in s && |Smaller(s, p)| < t
  }

  lemma {:induction false} MaxOf(s: set<nat>) returns (x: nat)
    requires s != {}
    ensures x in s && forall y :: y in s ==> y <= x
    decreases |s|
  {
    x :| x in s;
    if s != {x} {
      assert s == s - {x} + {x};
      var y := MaxOf(s - {x});
      if x < y { x := y; }
    }
  }

  lemma {:induction false} LowestSize(s: set<nat>, t: nat)
    ensures |Lowest(s, t)| == if |s| <= t then |s| else t
    ensures |s| <= t ==> Lowest(s, t) == s
    decreases |s|
  {
    if |s| <= t {
      forall p | p in s ensures |Smaller(s, p)| < t {
        SubsetSize(Smaller(s, p), s - {p});
      }
      assert Lowest(s, t) == s;
    } else {
      var x := MaxOf(s);
      var s' := s - {x};
      assert Smaller(s, x) == s';
      forall p | p in s' ensures Smaller(s, p) == Smaller(s', p) { }
      LowestSize(s', t);
      assert Lowest(s, t) == Lowest(s', t);
    }
  }

  ghost function Trim(n: nat, rank: seq<nat>, claims: seq<set<nat>>): (k: seq<set<nat>>)
    requires |rank| == |claims|
    ensures |k| == |claims|
    ensures forall i :: 0 <= i < |k| ==> k[i] <= claims[i]
  {
    seq(|rank|, i requires 0 <= i < |rank| => Lowest(claims[i], Targets(n, rank)[i]))
  }

  // ---------- filling ----------

  ghost predicate UnderTarget(n: nat, rank: seq<nat>, owned: seq<set<nat>>, i: nat)
    requires |rank| == |owned| && i < |rank|
  {
    |owned[i]| < Targets(n, rank)[i]
  }

  /** Candidates are the members under target; all members if there is none. */
  ghost predicate Candidate(n: nat, rank: seq<nat>, owned: seq<set<nat>>, i: nat)
    requires |rank| == |owned| && i < |rank|
  {
    UnderTarget(n, rank, owned, i)
    || forall j :: 0 <= j < |rank| ==> !UnderTarget(n, rank, owned, j)
  }

  /** Fewest partitions first, then sorted-id order. */
  predicate AtLeastAsGood(rank: seq<nat>, owned: seq<set<nat>>, i: nat, j: nat)
    requires |rank| == |owned| && i < |rank| && j < |rank|
  {
    |owned[i]| < |owned[j]| || (|owned[i]| == |owned[j]| && rank[i] <= rank[j])
  }

  ghost predicate IsPick(n: nat, rank: seq<nat>, owned: seq<set<nat>>, i: nat)
    requires |rank| == |owned|
  {
    && i < |rank|
    && Candidate(n, rank, owned, i)
    && forall j :: 0 <= j < |rank| && Candidate(n, rank, owned, j) ==> AtLeastAsGood(rank, owned, i, j)
  }

  lemma {:induction false} BestAmong(n: nat, rank: seq<nat>, owned: seq<set<nat>>, k: nat) returns (i: nat)
    requires |rank| == |owned| && k <= |rank|
    requires exists j :: 0 <= j < k && Candidate(n, rank, owned, j)
    ensures i < k && Candidate(n, rank, owned, i)
    ensures forall j :: 0 <= j < k && Candidate(n, rank, owned, j) ==> AtLeastAsGood(rank, owned, i, j)
  {
    if exists j :: 0 <= j < k - 1 && Candidate(n, rank, owned, j) {
      i := BestAmong(n, rank, owned, k - 1);
      if Candidate(n, rank, owned, k - 1) && !AtLeastAsGood(rank, owned, i, k - 1) { i := k - 1; }
    } else {
      i := k - 1;
    }
  }

  lemma PickExists(n: nat, rank: seq<nat>, owned: seq<set<nat>>)
    requires |rank| == |owned| && rank != []
    ensures exists i: nat :: IsPick(n, rank, owned, i)
  {
    if forall j :: 0 <= j < |rank| ==> !UnderTarget(n, rank, owned, j) {
      assert Candidate(n, rank, owned, 0);
    } else {
      var j: nat :| 0 <= j < |rank| && UnderTarget(n, rank, owned, j);
      assert Candidate(n, rank, owned, j);
    }
    var i := BestAmong(n, rank, owned, |rank|);
    assert IsPick(n, rank, owned, i);
  }

  lemma PickUnique(n: nat, rank: seq<nat>, owned: seq<set<nat>>, i: nat, j: nat)
    requires |rank| == |owned| && IsPermutation(rank)
    requires IsPick(n, rank, owned, i) && IsPick(n, rank, owned, j)
    ensures i == j
  {
    assert AtLeastAsGood(rank, owned, i, j) && AtLeastAsGood(rank, owned, j, i);
  }

  ghost function Pick(n: nat, rank: seq<nat>, owned: seq<set<nat>>): (i: nat)
    requires |rank| == |owned| && rank != []
    ensures IsPick(n, rank, owned, i)
  {
    PickExists(n, rank, owned);
    var i: nat :| IsPick(n, rank, owned, i);
    i
  }

  ghost function Fill(n: nat, rank: seq<nat>, owned: seq<set<nat>>, free: seq<nat>): (f: seq<set<nat>>)
    requires |rank| == |owned| && rank != []
    ensures |f| == |owned|
    decreases |free|
  {
    if free == [] then owned
    else
      var i := Pick(n, rank, owned);
      Fill(n, rank, owned[i := owned[i] + {free[0]}], free[1..])
  }

  ghost function Unowned(n: nat, owned: seq<set<nat>>): set<nat> { Range(n) - Union(owned) }

  /** The whole assignment, position by position. */
  ghost function Sticky(n: nat, rank: seq<nat>, claims: seq<set<nat>>): (f: seq<set<nat>>)
    requires |rank| == |claims|
    ensures |f| == |claims|
  {
    if rank == [] then []
    else
      var kept := Trim(n, rank, claims);
      Fill(n, rank, kept, Ascending(Unowned(n, kept), n))
  }

  // ---------- what filling guarantees ----------

  ghost predicate WithinTargets(n: nat, rank: seq<nat>, owned: seq<set<nat>>)
    requires |rank| == |owned|
  {
    forall i :: 0 <= i < |rank| ==> |owned[i]| <= Targets(n, rank)[i]
  }

  /** Owned and free partitions split 0..n, and nobody is above target. */
  ghost predicate FillState(n: nat, rank: seq<nat>, owned: seq<set<nat>>, free: seq<nat>) {
    && |rank| == |owned| && rank != [] && IsPermutation(rank)
    && PairwiseDisjoint(owned)
    && Increasing(free)
    && Elems(free) == Unowned(n, owned)
    && Union(owned) <= Range(n)
    && WithinTargets(n, rank, owned)
  }

  lemma FillStateCount(n: nat, rank: seq<nat>, owned: seq<set<nat>>, free: seq<nat>)
    requires FillState(n, rank, owned, free)
    ensures Sum(Sizes(owned)) + |free| == n
  {
    UnionSize(owned);
    DistinctSetSize(free);
    RangeSize(n);
  }

  /** While a partition is free somebody is under target: the fallback branch is dead. */
  lemma FallbackNeverTaken(n: nat, rank: seq<nat>, owned: seq<set<nat>>, free: seq<nat>)
    requires FillState(n, rank, owned, free) && free != []
    ensures exists i :: 0 <= i < |rank| && UnderTarget(n, rank, owned, i)
  {
    FillStateCount(n, rank, owned, free);
    TargetsSum(n, rank);
    EveryoneAtTarget(Targets(n, rank), Sizes(owned));
    var i :| 0 <= i < |rank| && Sizes(owned)[i] < Targets(n, rank)[i];
    assert UnderTarget(n, rank, owned, i);
  }

  lemma EveryoneAtTarget(targets: seq<nat>, sizes: seq<nat>)
    requires |targets| == |sizes| && Sum(sizes) < Sum(targets)
    ensures exists i :: 0 <= i < |sizes| && sizes[i] < targets[i]
  {
    if forall i :: 0 <= i < |sizes| ==> targets[i] <= sizes[i] { SumMonotone(targets, sizes); }
  }

  lemma UnionInsert(f: seq<set<nat>>, i: nat, p: nat)
    requires i < |f|
    ensures Union(f[i := f[i] + {p}]) == Union(f) + {p}
  {
    var g := f[i := f[i] + {p}];
    forall q ensures q in Union(g) <==> q in Union(f) || q == p {
      if q in Union(f) {
        var k :| 0 <= k < |f| && q in f[k];
        assert q in g[k];
      }
      if q == p { assert q in g[i]; }
    }
  }

  lemma DisjointInsert(f: seq<set<nat>>, i: nat, p: nat)
    requires i < |f| && PairwiseDisjoint(f) && p !in Union(f)
    ensures PairwiseDisjoint(f[i := f[i] + {p}])
  {
    assert forall k :: 0 <= k < |f| ==> p !in f[k];
  }

  lemma IncreasingTail(free: seq<nat>)
    requires Increasing(free) && free != []
    ensures Increasing(free[1..])
    ensures Elems(free[1..]) == Elems(free) - {free[0]}
  {
    assert free == [free[0]] + free[1..];
  }

  lemma FillStateInsert(n: nat, rank: seq<nat>, owned: seq<set<nat>>, free: seq<nat>, i: nat)
    requires FillState(n, rank, owned, free) && free != []
    requires i < |rank| && UnderTarget(n, rank, owned, i)
    ensures FillState(n, rank, owned[i := owned[i] + {free[0]}], free[1..])
  {
    var p := free[0];
    assert p in Elems(free);
    UnionInsert(owned, i, p);
    DisjointInsert(owned, i, p);
    IncreasingTail(free);
    var owned' := owned[i := owned[i] + {p}];
    assert WithinTargets(n, rank, owned');
  }

  lemma FillStep(n: nat, rank: seq<nat>, owned: seq<set<nat>>, free: seq<nat>)
    requires FillState(n, rank, owned, free) && free != []
    ensures var i := Pick(n, rank, owned);
            && UnderTarget(n, rank, owned, i)
            && FillState(n, rank, owned[i := owned[i] + {free[0]}], free[1..])
  {
    FallbackNeverTaken(n, rank, owned, free);
    var i := Pick(n, rank, owned);
    assert Candidate(n, rank, owned, i);
    FillStateInsert(n, rank, owned, free, i);
  }

  lemma {:induction false} FillFacts(n: nat, rank: seq<nat>, owned: seq<set<nat>>, free: seq<nat>)
    requires FillState(n, rank, owned, free)
    ensures FillState(n, rank, Fill(n, rank, owned, free), [])
    ensures forall i :: 0 <= i < |rank| ==> owned[i] <= Fill(n, rank, owned, free)[i]
    decreases |free|
  {
    if free != [] {
      FillStep(n, rank, owned, free);
      var i := Pick(n, rank, owned);
      FillFacts(n, rank, owned[i := owned[i] + {free[0]}], free[1..]);
    }
  }

  lemma TrimFacts(n: nat, rank: seq<nat>, claims: seq<set<nat>>)
    requires |rank| == |claims| && rank != [] && IsPermutation(rank) && ValidClaims(n, claims)
    ensures var kept := Trim(n, rank, claims);
            FillState(n, rank, kept, Ascending(Unowned(n, kept), n))
  {
    var kept := Trim(n, rank, claims);
    forall i | 0 <= i < |rank| ensures |kept[i]| <= Targets(n, rank)[i] {
      LowestSize(claims[i], Targets(n, rank)[i]);
    }
    AscendingFacts(Unowned(n, kept), n);
    forall p | p in Union(kept) ensures p < n {
      var i :| 0 <= i < |kept| && p in kept[i];
    }
    assert Elems(Ascending(Unowned(n, kept), n)) == Unowned(n, kept);
  }

  // ---------- main results ----------

  /** Every partition below `n` has exactly one owner and every member its target count. */
  ghost predicate ExactCover(n: nat, rank: seq<nat>, f: seq<set<nat>>) {
    && |f| == |rank|
    && PairwiseDisjoint(f)
    && Union(f) == Range(n)
    && Sizes(f) == Targets(n, rank)
  }

  /** Any prior claims at all end in an exact cover at the exact targets. */
  lemma StickyIsExactCover(n: nat, rank: seq<nat>, claims: seq<set<nat>>)
    requires |rank| == |claims| && rank != [] && IsPermutation(rank) && ValidClaims(n, claims)
    ensures ExactCover(n, rank, Sticky(n, rank, claims))
    ensures forall i :: 0 <= i < |rank| ==> Lowest(claims[i], Targets(n, rank)[i]) <= Sticky(n, rank, claims)[i]
  {
    TrimFacts(n, rank, claims);
    var kept := Trim(n, rank, claims);
    var free := Ascending(Unowned(n, kept), n);
    FillFacts(n, rank, kept, free);
    var f := Sticky(n, rank, claims);
    FillStateCount(n, rank, f, []);
    TargetsSum(n, rank);
    SumMonotone(Sizes(f), Targets(n, rank));
    UnionSize(f);
    FullSubset(Union(f), n);
  }

  /** A member with no more than its target keeps everything it validly claims. */
  lemma UnderTargetKeepsAll(n: nat, rank: seq<nat>, claims: seq<set<nat>>, i: nat)
    requires |rank| == |claims| && IsPermutation(rank) && ValidClaims(n, claims)
    requires i < |rank| && |claims[i]| <= Targets(n, rank)[i]
    ensures claims[i] <= Sticky(n, rank, claims)[i]
  {
    StickyIsExactCover(n, rank, claims);
    LowestSize(claims[i], Targets(n, rank)[i]);
  }

  /** A member with at least its target receives nothing it did not claim. */
  lemma OverTargetOnlyShrinks(n: nat, rank: seq<nat>, claims: seq<set<nat>>, i: nat)
    requires |rank| == |claims| && IsPermutation(rank) && ValidClaims(n, claims)
    requires i < |rank| && |claims[i]| >= Targets(n, rank)[i]
    ensures Sticky(n, rank, claims)[i] == Lowest(claims[i], Targets(n, rank)[i])
    ensures Sticky(n, rank, claims)[i] <= claims[i]
  {
    StickyIsExactCover(n, rank, claims);
    var t := Targets(n, rank)[i];
    LowestSize(claims[i], t);
    assert Sizes(Sticky(n, rank, claims))[i] == t;
    SubsetSize(Lowest(claims[i], t), Sticky(n, rank, claims)[i]);
  }

  /** Running the assignor on an exact cover, such as its own output, changes nothing. */
  lemma StickyIsIdempotent(n: nat, rank: seq<nat>, f: seq<set<nat>>)
    requires rank != [] && IsPermutation(rank) && ExactCover(n, rank, f)
    ensures ValidClaims(n, f)
    ensures Sticky(n, rank, f) == f
  {
    forall i, p | 0 <= i < |f| && p in f[i] ensures p < n { assert p in Union(f); }
    forall i | 0 <= i < |rank| ensures Sticky(n, rank, f)[i] == f[i] {
      assert Sizes(f)[i] == Targets(n, rank)[i];
      UnderTargetKeepsAll(n, rank, f, i);
      OverTargetOnlyShrinks(n, rank, f, i);
    }
  }

  /** How many partitions member `i` still holds of its claim under assignment `f`. */
  ghost function Retained(claims: seq<set<nat>>, f: seq<set<nat>>): (r: seq<nat>)
    requires |claims| == |f|
    ensures |r| == |f|
  {
    seq(|f|, i requires 0 <= i < |f| => |f[i] * claims[i]|)
  }

  /**
   Minimal movement: no exact cover with the same targets leaves any member,
   and so the group, more of its valid prior partitions.
   */
  lemma StickyRetainsMost(n: nat, rank: seq<nat>, claims: seq<set<nat>>, other: seq<set<nat>>)
    requires |rank| == |claims| && rank != [] && IsPermutation(rank) && ValidClaims(n, claims)
    requires ExactCover(n, rank, other)
    ensures forall i :: 0 <= i < |rank| ==>
              Retained(claims, other)[i] <= Retained(claims, Sticky(n, rank, claims))[i]
    ensures Sum(Retained(claims, other)) <= Sum(Retained(claims, Sticky(n, rank, claims)))
  {
    var f := Sticky(n, rank, claims);
    StickyIsExactCover(n, rank, claims);
    forall i | 0 <= i < |rank|
      ensures Retained(claims, other)[i] <= Retained(claims, f)[i]
    {
      var t := Targets(n, rank)[i];
      LowestSize(claims[i], t);
      SubsetSize(Lowest(claims[i], t), f[i] * claims[i]);
      SubsetSize(other[i] * claims[i], claims[i]);
      SubsetSize(other[i] * claims[i], other[i]);
      assert Sizes(other)[i] == t;
    }
    SumMonotone(Retained(claims, other), Retained(claims, f));
  }

  // ---------- independence from listing order ----------

  /** The same members in two listing orders: equal rank means equal holdings. */
  ghost predicate SameByRank(rank: seq<nat>, a: seq<set<nat>>, rank': seq<nat>, a': seq<set<nat>>) {
    && |rank| == |a| && |rank'| == |a'| && |rank| == |rank'|
    && IsPermutation(rank) && IsPermutation(rank')
    && forall i, j :: 0 <= i < |rank| && 0 <= j < |rank'| && rank[i] == rank'[j] ==> a[i] == a'[j]
  }

  lemma SameByRankCandidate(n: nat, rank: seq<nat>, a: seq<set<nat>>, rank': seq<nat>, a': seq<set<nat>>, i: nat, i': nat)
    requires SameByRank(rank, a, rank', a')
    requires i < |rank| && i' < |rank| && rank[i] == rank'[i']
    ensures Candidate(n, rank, a, i) ==> Candidate(n, rank', a', i')
  {
    assert UnderTarget(n, rank, a, i) <==> UnderTarget(n, rank', a', i');
    if !UnderTarget(n, rank, a, i) && Candidate(n, rank, a, i) {
      forall j' | 0 <= j' < |rank'| ensures !UnderTarget(n, rank', a', j') {
        var j := PermutationOnto(rank, rank'[j']);
        assert !UnderTarget(n, rank, a, j);
      }
    }
  }

  lemma SameByRankPick(n: nat, rank: seq<nat>, a: seq<set<nat>>, rank': seq<nat>, a': seq<set<nat>>)
    requires SameByRank(rank, a, rank', a') && rank != []
    ensures rank[Pick(n, rank, a)] == rank'[Pick(n, rank', a')]
  {
    var i, i' := Pick(n, rank, a), Pick(n, rank', a');
    var k := PermutationOnto(rank', rank[i]);
    var k' := PermutationOnto(rank, rank'[i']);
    SameByRankCandidate(n, rank, a, rank', a', i, k);
    SameByRankCandidate(n, rank', a', rank, a, i', k');
    assert AtLeastAsGood(rank, a, i, k');
    assert AtLeastAsGood(rank', a', i', k);
  }

  lemma {:induction false} FillSameByRank(n: nat, rank: seq<nat>, a: seq<set<nat>>, rank': seq<nat>, a': seq<set<nat>>, free: seq<nat>)
    requires SameByRank(rank, a, rank', a') && rank != []
    ensures SameByRank(rank, Fill(n, rank, a, free), rank', Fill(n, rank', a', free))
    decreases |free|
  {
    if free != [] {
      SameByRankPick(n, rank, a, rank', a');
      var i, i' := Pick(n, rank, a), Pick(n, rank', a');
      FillSameByRank(n, rank, a[i := a[i] + {free[0]}], rank', a'[i' := a'[i'] + {free[0]}], free[1..]);
    }
  }

  lemma SameByRankUnion(rank: seq<nat>, a: seq<set<nat>>, rank': seq<nat>, a': seq<set<nat>>)
    requires SameByRank(rank, a, rank', a')
    ensures Union(a) <= Union(a')
  {
    forall p | p in Union(a) ensures p in Union(a') {
      var i :| 0 <= i < |a| && p in a[i];
      var j := PermutationOnto(rank', rank[i]);
      assert p in a'[j];
    }
  }

  lemma TrimSameByRank(n: nat, rank: seq<nat>, claims: seq<set<nat>>, rank': seq<nat>, claims': seq<set<nat>>)
    requires SameByRank(rank, claims, rank', claims')
    ensures SameByRank(rank, Trim(n, rank, claims), rank', Trim(n, rank', claims'))
  {
    forall i, j | 0 <= i < |rank| && 0 <= j < |rank'| && rank[i] == rank'[j]
      ensures Trim(n, rank, claims)[i] == Trim(n, rank', claims')[j]
    {
      assert claims[i] == claims'[j];
      assert Targets(n, rank)[i] == Targets(n, rank')[j];
    }
  }

  /** The result per member depends on ranks and claims only, not on the listing order. */
  lemma StickyIgnoresListingOrder(n: nat, rank: seq<nat>, claims: seq<set<nat>>, rank': seq<nat>, claims': seq<set<nat>>)
    requires SameByRank(rank, claims, rank', claims')
    ensures SameByRank(rank, Sticky(n, rank, claims), rank', Sticky(n, rank', claims'))
  {
    if rank != [] {
      var kept, kept' := Trim(n, rank, claims), Trim(n, rank', claims');
      TrimSameByRank(n, rank, claims, rank', claims');
      SameByRankUnion(rank, kept, rank', kept');
      SameByRankUnion(rank', kept', rank, kept);
      assert Unowned(n, kept) == Unowned(n, kept');
      FillSameByRank(n, rank, kept, rank', kept', Ascending(Unowned(n, kept), n));
    }
  }

  // ---------- listings of the same members ----------

  predicate DistinctIds(ids: seq<string>) {
    forall i, j :: 0 <= i < j < |ids| ==> ids[i] != ids[j]
  }

  function IdSet(ids: seq<string>): set<string> { set x | x in ids }

  /** Members of `all` sorting before `x`: the rank of `x` when ids are distinct. */
  ghost function LowerIds(all: set<string>, x: string): set<string> {
    set y | y in all && Less(y, x)
  }

  lemma {:induction false} ImageSize(ids: seq<string>, a: set<nat>, b: set<string>)
    requires DistinctIds(ids) && a <= Range(|ids|)
    requires forall x :: x in b <==> exists i :: i in a && ids[i] == x
    ensures |a| == |b|
    decreases |a|
  {
    if a == {} {
      assert b == {};
    } else {
      var i :| i in a;
      assert ids[i] in b;
      forall x ensures x in b - {ids[i]} <==> exists j :: j in a - {i} && ids[j] == x {
        if x in b - {ids[i]} {
          var j :| j in a && ids[j] == x;
          assert j in a - {i};
        }
      }
      ImageSize(ids, a - {i}, b - {ids[i]});
    }
  }

  lemma RankIsLowerIds(ids: seq<string>, i: nat)
    requires DistinctIds(ids) && i < |ids|
    ensures Ranks(ids)[i] == |LowerIds(IdSet(ids), ids[i])|
  {
    LessIrreflexive(ids[i]);
    forall x ensures x in LowerIds(IdSet(ids), ids[i]) <==> exists j :: j in Preceding(ids, i) && ids[j] == x {
      if x in LowerIds(IdSet(ids), ids[i]) {
        var j :| 0 <= j < |ids| && ids[j] == x;
        assert j in Preceding(ids, i);
      }
    }
    ImageSize(ids, Preceding(ids, i), LowerIds(IdSet(ids), ids[i]));
  }

  /** More members in the group push a member's rank up, by at most their number. */
  lemma RankGrowsWithGroup(ids: seq<string>, i: nat, ids': seq<string>, i': nat)
    requires DistinctIds(ids) && DistinctIds(ids') && i < |ids| && i' < |ids'|
    requires ids[i] == ids'[i'] && IdSet(ids) <= IdSet(ids')
    ensures Ranks(ids)[i] <= Ranks(ids')[i'] && |ids| <= |ids'|
    ensures Ranks(ids')[i'] - Ranks(ids)[i] <= |ids'| - |ids|
    ensures IdSet(ids) == IdSet(ids') ==> Ranks(ids)[i] == Ranks(ids')[i'] && |ids| == |ids'|
  {
    RankIsLowerIds(ids, i);
    RankIsLowerIds(ids', i');
    NewcomersBelow(IdSet(ids), IdSet(ids'), ids[i]);
    SubsetSize(LowerIds(IdSet(ids), ids[i]), LowerIds(IdSet(ids'), ids[i]));
    IdSetSize(ids);
    IdSetSize(ids');
    SubsetSize(IdSet(ids), IdSet(ids'));
  }

  lemma NewcomersBelow(all: set<string>, all': set<string>, x: string)
    requires all <= all'
    ensures |LowerIds(all', x)| - |LowerIds(all, x)| <= |all'| - |all|
  {
    var new_ := all' - all;
    assert LowerIds(all', x) == LowerIds(all, x) + LowerIds(new_, x);
    assert all' == all + new_;
    SubsetSize(LowerIds(new_, x), new_);
  }

  lemma IdSetSize(ids: seq<string>)
    requires DistinctIds(ids)
    ensures |IdSet(ids)| == |ids|
  {
    RangeSize(|ids|);
    forall x ensures x in IdSet(ids) <==> exists i :: i in Range(|ids|) && ids[i] == x {
      if x in ids {
        var i :| 0 <= i < |ids| && ids[i] == x;
        assert i in Range(|ids|);
      }
    }
    ImageSize(ids, Range(|ids|), IdSet(ids));
  }

  ghost predicate DisjointLists(previous: seq<seq<nat>>) {
    forall i, j, p :: 0 <= i < |previous| && 0 <= j < |previous| && p in previous[i] && p in previous[j] ==> i == j
  }

  /** Two listings of the same members with the same prior partitions, in any order. */
  ghost predicate SameListing(ids: seq<string>, previous: seq<seq<nat>>, ids': seq<string>, previous': seq<seq<nat>>) {
    && |ids| == |previous| && |ids'| == |previous'|
    && DistinctIds(ids) && DistinctIds(ids') && IdSet(ids) == IdSet(ids')
    && forall i, j :: 0 <= i < |ids| && 0 <= j < |ids'| && ids[i] == ids'[j] ==> Elems(previous[i]) == Elems(previous'[j])
  }

  lemma DisjointClaim(n: nat, previous: seq<seq<nat>>, i: nat)
    requires DisjointLists(previous) && i < |previous|
    ensures Claims(n, previous)[i] == Elems(previous[i]) * Range(n)
  { }

  lemma SameListingDisjoint(ids: seq<string>, previous: seq<seq<nat>>, ids': seq<string>, previous': seq<seq<nat>>)
    requires SameListing(ids, previous, ids', previous') && DisjointLists(previous)
    ensures DisjointLists(previous')
  {
    forall j, k, p | 0 <= j < |ids'| && 0 <= k < |ids'| && p in previous'[j] && p in previous'[k] ensures j == k {
      assert ids'[j] in IdSet(ids) && ids'[k] in IdSet(ids);
      var a :| 0 <= a < |ids| && ids[a] == ids'[j];
      var b :| 0 <= b < |ids| && ids[b] == ids'[k];
      assert p in Elems(previous'[j]) && p in Elems(previous'[k]);
      assert p in previous[a] && p in previous[b];
    }
  }

  /**
   With distinct ids and disjoint prior lists, what a member receives does not
   depend on the order in which members or prior partitions are listed.
   */
  lemma ListingOrderIrrelevant(n: nat, ids: seq<string>, previous: seq<seq<nat>>,
                               ids': seq<string>, previous': seq<seq<nat>>, i: nat, j: nat)
    requires SameListing(ids, previous, ids', previous') && DisjointLists(previous)
    requires i < |ids| && j < |ids'| && ids[i] == ids'[j]
    ensures Sticky(n, Ranks(ids), Claims(n, previous))[i] == Sticky(n, Ranks(ids'), Claims(n, previous'))[j]
  {
    SameListingDisjoint(ids, previous, ids', previous');
    RanksArePermutation(ids);
    RanksArePermutation(ids');
    RankGrowsWithGroup(ids, i, ids', j);
    var r, r' := Ranks(ids), Ranks(ids');
    forall a, b | 0 <= a < |ids| && 0 <= b < |ids'| && r[a] == r'[b]
      ensures Claims(n, previous)[a] == Claims(n, previous')[b]
    {
      SameRankSameId(ids, a, ids', b);
      DisjointClaim(n, previous, a);
      DisjointClaim(n, previous', b);
    }
    StickyIgnoresListingOrder(n, r, Claims(n, previous), r', Claims(n, previous'));
  }

  lemma SameRankSameId(ids: seq<string>, a: nat, ids': seq<string>, b: nat)
    requires DistinctIds(ids) && DistinctIds(ids') && IdSet(ids) == IdSet(ids')
    requires a < |ids| && b < |ids'| && Ranks(ids)[a] == Ranks(ids')[b]
    ensures ids[a] == ids'[b]
  {
    assert ids[a] in IdSet(ids');
    var c :| 0 <= c < |ids'| && ids'[c] == ids[a];
    RankGrowsWithGroup(ids, a, ids', c);
    RanksArePermutation(ids');
  }
}
