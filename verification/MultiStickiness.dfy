/**
 How the multi-topic assignor behaves when only the listing order, or the
 membership by one member, changes.
 */
module MultiStickiness {
  import opened Counting
  import opened Sorting
  import opened Assignor
  import opened StickyAssignor
  import opened MultiAssignor

  function AsSet(list: seq<TopicPartition>): set<TopicPartition> { set x | x in list }

  /** Every member of `a` is in `b`, with the same subscription and the same prior partitions. */
  ghost predicate Within(a: Input, b: Input) {
    && a.Valid() && b.Valid() && DistinctIds(a.ids) && DistinctIds(b.ids)
    && IdSet(a.ids) <= IdSet(b.ids)
    && a.counts == b.counts
    && forall i, j :: 0 <= i < |a.ids| && 0 <= j < |b.ids| && a.ids[i] == b.ids[j] ==>
         a.topics[i] == b.topics[j] && AsSet(a.previous[i]) == AsSet(b.previous[j])
  }

  ghost predicate DisjointPrior(a: Input) {
    forall i, j, x :: 0 <= i < |a.previous| && 0 <= j < |a.previous| && x in a.previous[i] && x in a.previous[j] ==> i == j
  }

  lemma TopicIdsDistinct(a: Input, t: string)
    requires a.Valid() && DistinctIds(a.ids)
    ensures DistinctIds(TopicIds(a, t))
  {
    SubscribersFacts(a.topics, t);
    forall j, k | 0 <= j < k < |TopicIds(a, t)| ensures TopicIds(a, t)[j] != TopicIds(a, t)[k] {
      SubscriberFacts(a, t, j, Subscribers(a.topics, t)[j]);
      SubscriberFacts(a, t, k, Subscribers(a.topics, t)[k]);
    }
  }

  /** The position in `b` of a subscriber of `t` in `a`. */
  lemma SubscriberIn(a: Input, b: Input, t: string, j: nat) returns (j': nat)
    requires Within(a, b) && j < |TopicIds(a, t)|
    ensures j' < |TopicIds(b, t)| && TopicIds(b, t)[j'] == TopicIds(a, t)[j]
  {
    var i := Subscribers(a.topics, t)[j];
    SubscriberFacts(a, t, j, i);
    assert a.ids[i] in IdSet(b.ids);
    var i' :| 0 <= i' < |b.ids| && b.ids[i'] == a.ids[i];
    j' := SubscriberPosition(b, t, i');
    SubscriberFacts(b, t, j', i');
  }

  /** The same subscriber's prior partitions of `t`, in `a` and in `b`. */
  lemma SamePrevious(a: Input, b: Input, t: string, j: nat, j': nat)
    requires Within(a, b) && j < |TopicIds(a, t)| && j' < |TopicIds(b, t)| && TopicIds(a, t)[j] == TopicIds(b, t)[j']
    ensures Elems(TopicPrevious(a, t)[j]) == Elems(TopicPrevious(b, t)[j'])
  {
    var i, i' := Subscribers(a.topics, t)[j], Subscribers(b.topics, t)[j'];
    SubscriberFacts(a, t, j, i);
    SubscriberFacts(b, t, j', i');
    forall p ensures p in PartsOf(a.previous[i], t) <==> p in PartsOf(b.previous[i'], t) {
      assert (t, p) in a.previous[i] <==> (t, p) in AsSet(a.previous[i]);
      assert (t, p) in b.previous[i'] <==> (t, p) in AsSet(b.previous[i']);
    }
  }

  lemma TopicIdsWithin(a: Input, b: Input, t: string)
    requires Within(a, b)
    ensures DistinctIds(TopicIds(a, t)) && DistinctIds(TopicIds(b, t))
    ensures IdSet(TopicIds(a, t)) <= IdSet(TopicIds(b, t))
  {
    TopicIdsDistinct(a, t);
    TopicIdsDistinct(b, t);
    forall x | x in IdSet(TopicIds(a, t)) ensures x in IdSet(TopicIds(b, t)) {
      var j :| 0 <= j < |TopicIds(a, t)| && TopicIds(a, t)[j] == x;
      var j' := SubscriberIn(a, b, t, j);
    }
  }

  lemma PriorDisjointPerTopic(a: Input, t: string)
    requires a.Valid() && DisjointPrior(a)
    ensures DisjointLists(TopicPrevious(a, t))
  {
    var prev, subs := TopicPrevious(a, t), Subscribers(a.topics, t);
    SubscribersFacts(a.topics, t);
    forall j, k, p | 0 <= j < |prev| && 0 <= k < |prev| && p in prev[j] && p in prev[k] ensures j == k {
      SubscriberFacts(a, t, j, subs[j]);
      SubscriberFacts(a, t, k, subs[k]);
      assert (t, p) in a.previous[subs[j]] && (t, p) in a.previous[subs[k]];
    }
  }

  // ---------- listing order ----------

  lemma TopicListedTwice(a: Input, b: Input, t: string)
    requires Within(a, b) && Within(b, a)
    ensures SameListing(TopicIds(a, t), TopicPrevious(a, t), TopicIds(b, t), TopicPrevious(b, t))
  {
    TopicIdsWithin(a, b, t);
    TopicIdsWithin(b, a, t);
    forall j, k | 0 <= j < |TopicIds(a, t)| && 0 <= k < |TopicIds(b, t)| && TopicIds(a, t)[j] == TopicIds(b, t)[k]
      ensures Elems(TopicPrevious(a, t)[j]) == Elems(TopicPrevious(b, t)[k])
    {
      SamePrevious(a, b, t, j, k);
    }
  }

  lemma SharesInAnyOrder(a: Input, b: Input, t: string, j: nat, j': nat)
    requires Within(a, b) && Within(b, a) && DisjointPrior(a) && t in a.counts
    requires j < |TopicIds(a, t)| && j' < |TopicIds(b, t)| && TopicIds(a, t)[j] == TopicIds(b, t)[j']
    ensures Shares(a, t)[j] == Shares(b, t)[j']
  {
    TopicListedTwice(a, b, t);
    PriorDisjointPerTopic(a, t);
    ListingOrderIrrelevant(a.counts[t], TopicIds(a, t), TopicPrevious(a, t), TopicIds(b, t), TopicPrevious(b, t), j, j');
  }

  lemma GetsInAnyOrder(a: Input, b: Input, i: nat, i': nat, t: string, p: nat)
    requires Within(a, b) && Within(b, a) && DisjointPrior(a)
    requires i < |a.ids| && i' < |b.ids| && a.ids[i] == b.ids[i'] && Gets(a, i, t, p)
    ensures Gets(b, i', t, p)
  {
    var j := ShareOf(a, i, t, p);
    SameTopics(a, b, i, i');
    var j' := Counterpart(b, t, i');
    SharesInAnyOrder(a, b, t, j, j');
  }

  /** The subscriber position through which member `i` gets `p`. */
  lemma ShareOf(a: Input, i: nat, t: string, p: nat) returns (j: nat)
    requires a.Valid() && Gets(a, i, t, p)
    ensures i < |a.ids| && t in a.topics[i]
    ensures j < |TopicIds(a, t)| && TopicIds(a, t)[j] == a.ids[i] && p in Shares(a, t)[j]
    ensures TopicPrevious(a, t)[j] == PartsOf(a.previous[i], t)
  {
    j :| IsSubscriber(a, t, j, i) && p in Shares(a, t)[j];
    SubscriberFacts(a, t, j, i);
  }

  /** The subscriber position of member `i`, who subscribes to `t`. */
  lemma Counterpart(a: Input, t: string, i: nat) returns (j: nat)
    requires a.Valid() && i < |a.ids| && t in a.topics[i]
    ensures j < |TopicIds(a, t)| && TopicIds(a, t)[j] == a.ids[i]
    ensures TopicPrevious(a, t)[j] == PartsOf(a.previous[i], t)
    ensures t in a.counts ==> forall p: nat :: p in Shares(a, t)[j] ==> Gets(a, i, t, p)
  {
    j := SubscriberPosition(a, t, i);
    SubscriberFacts(a, t, j, i);
  }

  lemma DisjointPriorIn(a: Input, b: Input)
    requires Within(b, a) && DisjointPrior(a)
    ensures DisjointPrior(b)
  {
    forall i, j, x | 0 <= i < |b.previous| && 0 <= j < |b.previous| && x in b.previous[i] && x in b.previous[j] ensures i == j {
      assert b.ids[i] in IdSet(a.ids) && b.ids[j] in IdSet(a.ids);
      var k :| 0 <= k < |a.ids| && a.ids[k] == b.ids[i];
      var l :| 0 <= l < |a.ids| && a.ids[l] == b.ids[j];
      assert x in AsSet(b.previous[i]) && x in AsSet(b.previous[j]);
      assert x in a.previous[k] && x in a.previous[l];
    }
  }

  /** Whatever order the members and prior partitions are listed in, a member receives the same list. */
  lemma MultiIgnoresListingOrder(a: Input, b: Input, i: nat, i': nat)
    requires Within(a, b) && Within(b, a) && DisjointPrior(a)
    requires i < |a.ids| && i' < |b.ids| && a.ids[i] == b.ids[i']
    ensures Multi(a)[i] == Multi(b)[i']
  {
    DisjointPriorIn(a, b);
    MultiFacts(a, i);
    MultiFacts(b, i');
    forall x ensures x in Multi(a)[i] <==> x in Multi(b)[i'] {
      assert x == (x.0, x.1);
      if Gets(a, i, x.0, x.1) { GetsInAnyOrder(a, b, i, i', x.0, x.1); }
      if Gets(b, i', x.0, x.1) { GetsInAnyOrder(b, a, i', i, x.0, x.1); }
    }
    StrictUnique(PairLess, Multi(a)[i], Multi(b)[i']);
  }

  // ---------- one member more, one member fewer ----------

  /** The prior assignment of `t` is an exact cover at the exact targets of its subscribers. */
  ghost predicate Balanced(a: Input, t: string)
    requires a.Valid()
  {
    t in a.counts && ExactCover(a.counts[t], Ranks(TopicIds(a, t)), Views(TopicPrevious(a, t)))
  }

  lemma BalancedPrior(a: Input, t: string, j: nat)
    requires a.Valid() && Balanced(a, t) && j < |TopicIds(a, t)|
    ensures var s := Elems(TopicPrevious(a, t)[j]);
            s <= Range(a.counts[t]) && |s| == Target(a.counts[t], |TopicIds(a, t)|, Ranks(TopicIds(a, t))[j])
  {
    var f := Views(TopicPrevious(a, t));
    assert f[j] == Elems(TopicPrevious(a, t)[j]);
    forall p | p in f[j] ensures p in Range(a.counts[t]) { assert p in Union(f); }
    assert Sizes(f)[j] == Targets(a.counts[t], Ranks(TopicIds(a, t)))[j];
  }

  lemma BalancedDisjoint(a: Input, t: string)
    requires a.Valid() && Balanced(a, t)
    ensures DisjointLists(TopicPrevious(a, t))
  {
    var f, prev := Views(TopicPrevious(a, t)), TopicPrevious(a, t);
    forall i, j, p | 0 <= i < |prev| && 0 <= j < |prev| && p in prev[i] && p in prev[j] ensures i == j {
      assert p in f[i] && p in f[j];
    }
  }

  /** The same subscriber's target is no larger in the larger group. */
  lemma TargetShrinks(a: Input, b: Input, t: string, j: nat, j': nat)
    requires Within(a, b) && t in a.counts
    requires j < |TopicIds(a, t)| && j' < |TopicIds(b, t)| && TopicIds(a, t)[j] == TopicIds(b, t)[j']
    ensures Targets(b.counts[t], Ranks(TopicIds(b, t)))[j'] <= Targets(a.counts[t], Ranks(TopicIds(a, t)))[j]
  {
    TopicIdsWithin(a, b, t);
    RankGrowsWithGroup(TopicIds(a, t), j, TopicIds(b, t), j');
    TargetMonotone(a.counts[t], |TopicIds(a, t)|, Ranks(TopicIds(a, t))[j], |TopicIds(b, t)|, Ranks(TopicIds(b, t))[j']);
  }

  /** `b` is `a` plus the member `joiner`, who holds nothing. */
  ghost predicate JoinedBy(a: Input, b: Input, joiner: string) {
    && Within(a, b) && IdSet(b.ids) == IdSet(a.ids) + {joiner} && joiner !in IdSet(a.ids)
    && forall i :: 0 <= i < |b.ids| && b.ids[i] == joiner ==> b.previous[i] == []
  }

  lemma JoinerHasNothing(a: Input, b: Input, joiner: string, t: string)
    requires JoinedBy(a, b, joiner) && Balanced(a, t)
    ensures DisjointLists(TopicPrevious(b, t))
  {
    BalancedDisjoint(a, t);
    var prev := TopicPrevious(b, t);
    forall j, k, p | 0 <= j < |prev| && 0 <= k < |prev| && p in prev[j] && p in prev[k] ensures j == k {
      var j0 := OldSubscriber(a, b, joiner, t, j, p);
      var k0 := OldSubscriber(a, b, joiner, t, k, p);
      TopicIdsDistinct(b, t);
      assert TopicIds(b, t)[j] == TopicIds(b, t)[k];
    }
  }

  lemma OldSubscriber(a: Input, b: Input, joiner: string, t: string, j: nat, p: nat) returns (j0: nat)
    requires JoinedBy(a, b, joiner) && j < |TopicIds(b, t)| && p in TopicPrevious(b, t)[j]
    ensures j0 < |TopicIds(a, t)| && TopicIds(a, t)[j0] == TopicIds(b, t)[j] && p in TopicPrevious(a, t)[j0]
  {
    var i := Subscribers(b.topics, t)[j];
    SubscriberFacts(b, t, j, i);
    assert b.ids[i] in IdSet(b.ids);
    assert b.ids[i] in IdSet(a.ids);
    var i0 :| 0 <= i0 < |a.ids| && a.ids[i0] == b.ids[i];
    j0 := SubscriberPosition(a, t, i0);
    SubscriberFacts(a, t, j0, i0);
    SamePrevious(a, b, t, j0, j);
    assert p in Elems(TopicPrevious(b, t)[j]);
  }

  /**
   When one member joins a balanced topic, every old member's new share is a
   subset of its old one: partitions move to the newcomer and nowhere else.
   */
  lemma JoinMovesOnlyToNewcomer(a: Input, b: Input, joiner: string, t: string, i: nat, i': nat, p: nat)
    requires JoinedBy(a, b, joiner) && Balanced(a, t)
    requires i < |a.ids| && i' < |b.ids| && a.ids[i] == b.ids[i'] && Gets(b, i', t, p)
    ensures (t, p) in a.previous[i]
  {
    var j' := ShareOf(b, i', t, p);
    SameTopics(a, b, i, i');
    var j := Counterpart(a, t, i);
    ShareShrinks(a, b, joiner, t, j, j');
    assert p in PartsOf(a.previous[i], t);
  }

  lemma SameTopics(a: Input, b: Input, i: nat, i': nat)
    requires Within(a, b) && i < |a.ids| && i' < |b.ids| && a.ids[i] == b.ids[i']
    ensures a.topics[i] == b.topics[i']
  { }

  lemma ShareShrinks(a: Input, b: Input, joiner: string, t: string, j: nat, j': nat)
    requires JoinedBy(a, b, joiner) && Balanced(a, t)
    requires j < |TopicIds(a, t)| && j' < |TopicIds(b, t)| && TopicIds(a, t)[j] == TopicIds(b, t)[j']
    ensures Shares(b, t)[j'] <= Elems(TopicPrevious(a, t)[j])
  {
    JoinerHasNothing(a, b, joiner, t);
    SamePrevious(a, b, t, j, j');
    BalancedPrior(a, t, j);
    DisjointClaim(b.counts[t], TopicPrevious(b, t), j');
    var claims := Claims(b.counts[t], TopicPrevious(b, t));
    assert claims[j'] == Elems(TopicPrevious(a, t)[j]);
    TargetShrinks(a, b, t, j, j');
    RanksArePermutation(TopicIds(b, t));
    OverTargetOnlyShrinks(b.counts[t], Ranks(TopicIds(b, t)), claims, j');
  }

  /**
   When members leave a balanced topic, every survivor keeps all it had.
   `b` is the group before, `a` the survivors.
   */
  lemma LeaveKeepsSurvivors(a: Input, b: Input, t: string, i: nat, i': nat, p: nat)
    requires Within(a, b) && Balanced(b, t)
    requires i < |a.ids| && i' < |b.ids| && a.ids[i] == b.ids[i'] && t in a.topics[i] && (t, p) in b.previous[i']
    ensures Gets(a, i, t, p)
  {
    var j := SubscriberPosition(a, t, i);
    SubscriberFacts(a, t, j, i);
    var j' := SubscriberPosition(b, t, i');
    SubscriberFacts(b, t, j', i');
    BalancedDisjoint(b, t);
    SurvivorsDisjoint(a, b, t);
    SamePrevious(a, b, t, j, j');
    BalancedPrior(b, t, j');
    DisjointClaim(a.counts[t], TopicPrevious(a, t), j);
    var claims := Claims(a.counts[t], TopicPrevious(a, t));
    assert claims[j] == Elems(TopicPrevious(b, t)[j']);
    TargetShrinks(a, b, t, j, j');
    RanksArePermutation(TopicIds(a, t));
    UnderTargetKeepsAll(a.counts[t], Ranks(TopicIds(a, t)), claims, j);
    assert p in Elems(TopicPrevious(b, t)[j']);
  }

  lemma SurvivorsDisjoint(a: Input, b: Input, t: string)
    requires Within(a, b) && DisjointLists(TopicPrevious(b, t))
    ensures DisjointLists(TopicPrevious(a, t))
  {
    TopicIdsDistinct(a, t);
    var prev := TopicPrevious(a, t);
    forall j, k, p | 0 <= j < |prev| && 0 <= k < |prev| && p in prev[j] && p in prev[k] ensures j == k {
      var j' := SubscriberIn(a, b, t, j);
      var k' := SubscriberIn(a, b, t, k);
      SamePrevious(a, b, t, j, j');
      SamePrevious(a, b, t, k, k');
      assert p in Elems(prev[j]) && p in Elems(prev[k]);
      assert p in TopicPrevious(b, t)[j'] && p in TopicPrevious(b, t)[k'];
    }
  }

  // ---------- the assignor applied to its own result ----------

  /** The result of the assignor as the next prior assignment. */
  ghost function Again(a: Input): Input
    requires a.Valid()
  {
    a.(previous := Multi(a))
  }

  lemma ResultViews(a: Input, t: string)
    requires a.Valid() && t in a.counts
    ensures TopicIds(Again(a), t) == TopicIds(a, t)
    ensures Views(TopicPrevious(Again(a), t)) == Shares(a, t)
  {
    var b := Again(a);
    var f := Views(TopicPrevious(b, t));
    forall j | 0 <= j < |f| ensures f[j] == Shares(a, t)[j] {
      var i := Subscribers(a.topics, t)[j];
      assert IsSubscriber(a, t, j, i);
      SubscriberFacts(a, t, j, i);
      SubscriberFacts(b, t, j, i);
      MultiFacts(a, i);
      forall p: nat ensures p in f[j] <==> p in Shares(a, t)[j] {
        assert p in f[j] <==> (t, p) in Multi(a)[i];
        if Gets(a, i, t, p) {
          var k: nat :| IsSubscriber(a, t, k, i) && p in Shares(a, t)[k];
          assert k == j;
        }
      }
    }
  }

  /** The assignor's own result is balanced, so both laws apply to it. */
  lemma ResultIsBalanced(a: Input, t: string)
    requires a.Valid() && t in a.counts && Subscribers(a.topics, t) != []
    ensures Balanced(Again(a), t)
  {
    SharesCover(a, t);
    ResultViews(a, t);
  }

  lemma SharesAgain(a: Input, t: string)
    requires a.Valid() && t in a.counts
    ensures Shares(Again(a), t) == Shares(a, t)
  {
    ResultViews(a, t);
    if Subscribers(a.topics, t) != [] {
      SharesCover(a, t);
      CoverIsItsClaims(a.counts[t], TopicPrevious(Again(a), t));
      RanksArePermutation(TopicIds(a, t));
      StickyIsIdempotent(a.counts[t], Ranks(TopicIds(a, t)), Shares(a, t));
    }
  }

  /** Assigning again from one's own result changes nothing, whatever the ids and the first prior assignment. */
  lemma MultiIsIdempotent(a: Input)
    requires a.Valid()
    ensures Multi(Again(a)) == Multi(a)
  {
    var b := Again(a);
    forall i: nat | i < |a.ids| ensures Multi(b)[i] == Multi(a)[i] {
      MultiFacts(a, i);
      MultiFacts(b, i);
      forall x ensures x in Multi(a)[i] <==> x in Multi(b)[i] {
        assert x == (x.0, x.1);
        GetsAgain(a, i, x.0, x.1);
      }
      StrictUnique(PairLess, Multi(b)[i], Multi(a)[i]);
    }
  }

  lemma GetsAgain(a: Input, i: nat, t: string, p: nat)
    requires a.Valid()
    ensures Gets(Again(a), i, t, p) <==> Gets(a, i, t, p)
  {
    if t in a.counts {
      SharesAgain(a, t);
      assert forall j: nat :: IsSubscriber(Again(a), t, j, i) <==> IsSubscriber(a, t, j, i);
    }
  }
}
