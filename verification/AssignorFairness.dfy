/**
 Who receives which free partition, said of the result alone: the sticky
 assignment is the one cover in which everybody keeps the lowest claims its
 target allows and every other partition went to whoever then held fewest.
 */
module AssignorFairness {
  import opened Arithmetic
  import opened Ordering
  import opened Counting
  import opened Assignor

  /** What a member that ends with `share` holds when partition `p` is handed out: what it kept, and what it got before. */
  function HeldBefore(kept: set<nat>, share: set<nat>, p: nat): set<nat> { kept + set q | q in share && q < p }

  /**
   Partition `p`, kept by nobody, went to `i`: every `j` then below its target
   held more than `i`, or as many and follows `i` in the order of ids.
   */
  ghost predicate FairTo(n: nat, rank: seq<nat>, kept: seq<set<nat>>, f: seq<set<nat>>, p: nat, i: nat, j: nat)
    requires |rank| == |kept| == |f| && i < |rank| && j < |rank|
  {
    var held, other := |HeldBefore(kept[i], f[i], p)|, |HeldBefore(kept[j], f[j], p)|;
    p in f[i] && p !in kept[i] && other < n / |rank| + (if rank[j] < n % |rank| then 1 else 0) ==>
      held < other || (held == other && rank[i] <= rank[j])
  }

  ghost predicate Fair(n: nat, rank: seq<nat>, kept: seq<set<nat>>, f: seq<set<nat>>)
    requires |rank| == |kept| == |f|
  {
    forall p: nat, i: nat, j: nat | i < |rank| && j < |rank| :: FairTo(n, rank, kept, f, p, i, j)
  }

  ghost predicate Keeps(kept: seq<set<nat>>, f: seq<set<nat>>)
    requires |kept| == |f|
  {
    forall i :: 0 <= i < |f| ==> kept[i] <= f[i]
  }

  // ---------- the fill is fair ----------

  /** What was filled in beyond `owned` was free. */
  lemma FilledWasFree(n: nat, rank: seq<nat>, owned: seq<set<nat>>, free: seq<nat>, x: nat, q: nat)
    requires FillState(n, rank, owned, free) && x < |rank| && q in Fill(n, rank, owned, free)[x] && q !in owned[x]
    ensures q in free
  {
    FillFacts(n, rank, owned, free);
    var f := Fill(n, rank, owned, free);
    forall y | 0 <= y < |owned| ensures q !in owned[y] { assert owned[y] <= f[y]; }
    assert q in Union(f);
    assert q in Elems(free);
  }

  /** Before the first free partition is handed out everybody holds what it kept. */
  lemma HeldAtFirst(n: nat, rank: seq<nat>, owned: seq<set<nat>>, free: seq<nat>, x: nat)
    requires FillState(n, rank, owned, free) && free != [] && x < |rank|
    ensures HeldBefore(owned[x], Fill(n, rank, owned, free)[x], free[0]) == owned[x]
  {
    var f := Fill(n, rank, owned, free);
    forall q | q in f[x] && q < free[0] ensures q in owned[x] {
      if q !in owned[x] { FilledWasFree(n, rank, owned, free, x, q); }
    }
  }

  lemma FirstIsFair(n: nat, rank: seq<nat>, owned: seq<set<nat>>, free: seq<nat>, j: nat)
    requires FillState(n, rank, owned, free) && free != [] && j < |rank|
    ensures FairTo(n, rank, owned, Fill(n, rank, owned, free), free[0], Pick(n, rank, owned), j)
  {
    HeldAtFirst(n, rank, owned, free, Pick(n, rank, owned));
    HeldAtFirst(n, rank, owned, free, j);
    if UnderTarget(n, rank, owned, j) { assert Candidate(n, rank, owned, j); }
  }

  /** What a member got before `p` counts as held whether or not it is among what it kept. */
  lemma HeldEitherWay(kept: set<nat>, share: set<nat>, q: nat, p: nat)
    requires q in share && q < p
    ensures HeldBefore(kept + {q}, share, p) == HeldBefore(kept, share, p)
  { }

  /** The first free partition goes to the pick. */
  lemma FirstOwner(n: nat, rank: seq<nat>, owned: seq<set<nat>>, free: seq<nat>)
    requires FillState(n, rank, owned, free) && free != []
    ensures var x := Pick(n, rank, owned);
            && FillState(n, rank, owned[x := owned[x] + {free[0]}], free[1..])
            && forall i :: 0 <= i < |rank| ==> (free[0] in Fill(n, rank, owned, free)[i] <==> i == x)
  {
    FillStep(n, rank, owned, free);
    var x := Pick(n, rank, owned);
    FillFacts(n, rank, owned[x := owned[x] + {free[0]}], free[1..]);
  }

  lemma {:induction false} FillIsFair(n: nat, rank: seq<nat>, owned: seq<set<nat>>, free: seq<nat>, p: nat, i: nat, j: nat)
    requires FillState(n, rank, owned, free) && i < |rank| && j < |rank|
    ensures FairTo(n, rank, owned, Fill(n, rank, owned, free), p, i, j)
    decreases |free|
  {
    var f := Fill(n, rank, owned, free);
    if p in f[i] && p !in owned[i] {
      FilledWasFree(n, rank, owned, free, i, p);
      FirstOwner(n, rank, owned, free);
      if p == free[0] {
        FirstIsFair(n, rank, owned, free, j);
      } else {
        var x := Pick(n, rank, owned);
        FillIsFair(n, rank, owned[x := owned[x] + {free[0]}], free[1..], p, i, j);
        HeldEitherWay(owned[x], f[x], free[0], p);
      }
    }
  }

  // ---------- only one fair cover ----------

  /** The covers agree below `p`. */
  ghost predicate AgreeBelow(f: seq<set<nat>>, g: seq<set<nat>>, p: nat)
    requires |f| == |g|
  {
    forall i, q: nat :: 0 <= i < |f| && q < p ==> (q in f[i] <==> q in g[i])
  }

  lemma HeldBelowTarget(n: nat, rank: seq<nat>, kept: seq<set<nat>>, f: seq<set<nat>>, p: nat, i: nat)
    requires ExactCover(n, rank, f) && |kept| == |f| && Keeps(kept, f) && i < |f| && p in f[i] && p !in kept[i]
    ensures |HeldBefore(kept[i], f[i], p)| < n / |rank| + (if rank[i] < n % |rank| then 1 else 0)
  {
    SubsetSize(HeldBefore(kept[i], f[i], p), f[i] - {p});
    assert Sizes(f)[i] == Targets(n, rank)[i];
  }

  lemma SameOwner(n: nat, rank: seq<nat>, kept: seq<set<nat>>, f: seq<set<nat>>, g: seq<set<nat>>, p: nat, i: nat, j: nat)
    requires IsPermutation(rank) && ExactCover(n, rank, f) && ExactCover(n, rank, g) && |kept| == |f|
    requires Keeps(kept, f) && Keeps(kept, g) && Fair(n, rank, kept, f) && Fair(n, rank, kept, g)
    requires AgreeBelow(f, g, p) && i < |f| && j < |f| && p in f[i] && p in g[j]
    ensures i == j
  {
    assert kept[i] <= g[i] && kept[j] <= f[j];
    if p !in kept[i] && p !in kept[j] {
      HeldBelowTarget(n, rank, kept, f, p, i);
      HeldBelowTarget(n, rank, kept, g, p, j);
      assert HeldBefore(kept[i], f[i], p) == HeldBefore(kept[i], g[i], p);
      assert HeldBefore(kept[j], f[j], p) == HeldBefore(kept[j], g[j], p);
      assert FairTo(n, rank, kept, f, p, i, j) && FairTo(n, rank, kept, g, p, j, i);
    }
  }

  lemma {:induction false} FairCoversAgree(n: nat, rank: seq<nat>, kept: seq<set<nat>>, f: seq<set<nat>>, g: seq<set<nat>>, p: nat)
    requires IsPermutation(rank) && ExactCover(n, rank, f) && ExactCover(n, rank, g) && |kept| == |f|
    requires Keeps(kept, f) && Keeps(kept, g) && Fair(n, rank, kept, f) && Fair(n, rank, kept, g)
    ensures AgreeBelow(f, g, p)
  {
    if p > 0 {
      FairCoversAgree(n, rank, kept, f, g, p - 1);
      forall i | 0 <= i < |f| ensures p - 1 in f[i] <==> p - 1 in g[i] {
        if p - 1 in f[i] {
          assert p - 1 in Union(f) && p - 1 in Union(g);
          var j :| 0 <= j < |g| && p - 1 in g[j];
          SameOwner(n, rank, kept, f, g, p - 1, i, j);
        }
        if p - 1 in g[i] {
          assert p - 1 in Union(g) && p - 1 in Union(f);
          var j :| 0 <= j < |f| && p - 1 in f[j];
          SameOwner(n, rank, kept, f, g, p - 1, j, i);
        }
      }
    }
  }

  lemma OneFairCover(n: nat, rank: seq<nat>, kept: seq<set<nat>>, f: seq<set<nat>>, g: seq<set<nat>>)
    requires IsPermutation(rank) && ExactCover(n, rank, f) && ExactCover(n, rank, g) && |kept| == |f|
    requires Keeps(kept, f) && Keeps(kept, g) && Fair(n, rank, kept, f) && Fair(n, rank, kept, g)
    ensures f == g
  {
    FairCoversAgree(n, rank, kept, f, g, n);
    forall i | 0 <= i < |f| ensures f[i] == g[i] {
      forall q: nat | q in f[i] || q in g[i] ensures q < n { assert q in Union(f) || q in Union(g); }
    }
  }

  // ---------- what is kept ----------

  /** A member keeps its lowest claims: none is given up before a higher one. */
  lemma LowerClaimsStay(n: nat, rank: seq<nat>, claims: seq<set<nat>>, i: nat, p: nat, q: nat)
    requires |rank| == |claims| && IsPermutation(rank) && ValidClaims(n, claims) && i < |rank|
    requires p in claims[i] && q in claims[i] && q < p && p in Sticky(n, rank, claims)[i]
    ensures q in Sticky(n, rank, claims)[i]
  {
    if |claims[i]| <= Targets(n, rank)[i] {
      UnderTargetKeepsAll(n, rank, claims, i);
    } else {
      OverTargetOnlyShrinks(n, rank, claims, i);
      SubsetSize(Smaller(claims[i], q), Smaller(claims[i], p));
    }
  }

  /** Of all who list a partition the first keeps it, if its list is within its target. */
  lemma FirstListerKeeps(n: nat, rank: seq<nat>, previous: seq<seq<nat>>, i: nat, p: nat)
    requires |rank| == |previous| && IsPermutation(rank) && i < |rank| && p < n
    requires p in previous[i] && (forall j :: 0 <= j < i ==> p !in previous[j])
    requires |Elems(previous[i])| <= n / |rank| + (if rank[i] < n % |rank| then 1 else 0)
    ensures p in Sticky(n, rank, Claims(n, previous))[i]
  {
    SubsetSize(Claims(n, previous)[i], Elems(previous[i]));
    UnderTargetKeepsAll(n, rank, Claims(n, previous), i);
  }

  /** The sticky assignment is the only cover at the targets that keeps the lowest claims and is fair with the rest. */
  lemma StickyIsTheFairCover(n: nat, rank: seq<nat>, claims: seq<set<nat>>, f: seq<set<nat>>)
    requires |rank| == |claims| == |f| && rank != [] && IsPermutation(rank) && ValidClaims(n, claims)
    ensures f == Sticky(n, rank, claims) <==>
            ExactCover(n, rank, f) && Keeps(Trim(n, rank, claims), f) && Fair(n, rank, Trim(n, rank, claims), f)
  {
    var kept, s := Trim(n, rank, claims), Sticky(n, rank, claims);
    TrimFacts(n, rank, claims);
    StickyIsExactCover(n, rank, claims);
    FillFacts(n, rank, kept, Ascending(Unowned(n, kept), n));
    forall p: nat, i: nat, j: nat | i < |rank| && j < |rank| ensures FairTo(n, rank, kept, s, p, i, j) {
      FillIsFair(n, rank, kept, Ascending(Unowned(n, kept), n), p, i, j);
    }
    if ExactCover(n, rank, f) && Keeps(kept, f) && Fair(n, rank, kept, f) { OneFairCover(n, rank, kept, f, s); }
  }

  // ---------- nothing claimed ----------

  function Turn(n: nat, m: nat, r: nat): set<nat>
    requires m > 0
  {
    set p: nat | p < n && p % m == r
  }

  lemma NextRemainder(p: nat, m: nat)
    requires m > 0
    ensures if p % m == m - 1 then (p + 1) / m == p / m + 1 && (p + 1) % m == 0
            else (p + 1) / m == p / m && (p + 1) % m == p % m + 1
  {
    var b, r := p / m, p % m;
    assert p == m * b + r;
    if r == m - 1 {
      assert p + 1 == m * (b + 1);
      Quotient(p + 1, m, b + 1, 0);
    } else {
      Quotient(p + 1, m, b, r + 1);
    }
  }

  lemma {:induction false} TurnSize(n: nat, m: nat, r: nat)
    requires r < m
    ensures |Turn(n, m, r)| == Target(n, m, r)
  {
    if n == 0 {
      assert Turn(0, m, r) == {};
      Quotient(0, m, 0, 0);
    } else {
      TurnSize(n - 1, m, r);
      NextRemainder(n - 1, m);
      assert Turn(n, m, r) == Turn(n - 1, m, r) + if (n - 1) % m == r then {n - 1} else {};
    }
  }

  ghost function Turns(n: nat, rank: seq<nat>): (f: seq<set<nat>>)
    ensures |f| == |rank|
  {
    seq(|rank|, i requires 0 <= i < |rank| => Turn(n, |rank|, rank[i]))
  }

  lemma TurnsCover(n: nat, rank: seq<nat>)
    requires IsPermutation(rank) && rank != []
    ensures ExactCover(n, rank, Turns(n, rank))
  {
    var f := Turns(n, rank);
    forall p: nat ensures p in Union(f) <==> p in Range(n) {
      if p < n {
        var i := PermutationOnto(rank, p % |rank|);
        assert p in f[i];
      }
    }
    forall i | 0 <= i < |rank| ensures |f[i]| == Targets(n, rank)[i] { TurnSize(n, |rank|, rank[i]); }
    assert Sizes(f) == Targets(n, rank);
  }

  lemma TurnsFair(n: nat, rank: seq<nat>, p: nat, i: nat, j: nat)
    requires IsPermutation(rank) && i < |rank| && j < |rank|
    ensures FairTo(n, rank, Nothing(|rank|), Turns(n, rank), p, i, j)
  {
    var m, f := |rank|, Turns(n, rank);
    if p in f[i] {
      TurnSize(p, m, rank[i]);
      TurnSize(p, m, rank[j]);
      assert HeldBefore({}, f[i], p) == Turn(p, m, rank[i]);
      assert HeldBefore({}, f[j], p) == Turn(p, m, rank[j]);
    }
  }

  ghost function Nothing(m: nat): (k: seq<set<nat>>)
    ensures |k| == m && forall i :: 0 <= i < m ==> k[i] == {}
  {
    seq(m, _ => {})
  }

  lemma NothingKept(n: nat, rank: seq<nat>, claims: seq<set<nat>>)
    requires |rank| == |claims| && forall j :: 0 <= j < |claims| ==> claims[j] == {}
    ensures Trim(n, rank, claims) == Nothing(|rank|)
  {
    forall j | 0 <= j < |rank| ensures Trim(n, rank, claims)[j] == {} { assert Trim(n, rank, claims)[j] <= claims[j]; }
  }

  lemma TurnsAreFair(n: nat, rank: seq<nat>)
    requires IsPermutation(rank)
    ensures Fair(n, rank, Nothing(|rank|), Turns(n, rank)) && Keeps(Nothing(|rank|), Turns(n, rank))
  {
    forall p: nat, i: nat, j: nat | i < |rank| && j < |rank| ensures FairTo(n, rank, Nothing(|rank|), Turns(n, rank), p, i, j) {
      TurnsFair(n, rank, p, i, j);
    }
  }

  /** With nothing claimed, partitions are dealt in turn: rank `r` of `m` gets those that leave remainder `r`. */
  lemma DealtInTurn(n: nat, rank: seq<nat>, claims: seq<set<nat>>, i: nat)
    requires |rank| == |claims| && IsPermutation(rank) && i < |rank| && forall j :: 0 <= j < |claims| ==> claims[j] == {}
    ensures Sticky(n, rank, claims)[i] == set p: nat | p < n && p % |rank| == rank[i]
  {
    NothingKept(n, rank, claims);
    TurnsCover(n, rank);
    TurnsAreFair(n, rank);
    StickyIsTheFairCover(n, rank, claims, Turns(n, rank));
  }

  /** Among distinct ids a rank is the number of smaller ids. */
  lemma RankCountsSmaller(ids: seq<string>, i: nat)
    requires DistinctIds(ids) && i < |ids|
    ensures Ranks(ids)[i] == |set j: nat | j < |ids| && Less(ids[j], ids[i])|
  {
    LessIrreflexive(ids[i]);
    assert Preceding(ids, i) == set j: nat | j < |ids| && Less(ids[j], ids[i]);
  }

  /** The first assignment of distinct members with no prior partitions, in terms of their ids. */
  lemma FirstAssignment(n: nat, ids: seq<string>, previous: seq<seq<nat>>, i: nat)
    requires DistinctIds(ids) && |previous| == |ids| && i < |ids| && forall j :: 0 <= j < |ids| ==> previous[j] == []
    ensures Sticky(n, Ranks(ids), Claims(n, previous))[i] ==
            set p: nat | p < n && p % |ids| == |set j: nat | j < |ids| && Less(ids[j], ids[i])|
  {
    RanksArePermutation(ids);
    RankCountsSmaller(ids, i);
    DealtInTurn(n, Ranks(ids), Claims(n, previous), i);
  }
}
