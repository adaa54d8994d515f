/**
 `sticky_assign_multi`: every topic assigned on its own to its subscribers,
 the shares collected per member in (topic, partition) order.
 */
module MultiAssignor {
  import opened Ordering
  import opened Counting
  import opened Sorting
  import opened Assignor
  import opened StickyAssignor

  type TopicPartition = (string, nat)

  /** Parallel lists: member ids, their subscriptions and their prior assignments. */
  datatype Input = Input(ids: seq<string>, topics: seq<seq<string>>,
                         counts: map<string, nat>, previous: seq<seq<TopicPartition>>)
  {
    predicate Valid() { |ids| == |topics| == |previous| }
  }

  // ---------- one topic seen from the group ----------

  /** Positions subscribed to `t`, ascending. */
  function Subscribers(topics: seq<seq<string>>, t: string): seq<nat> {
    if topics == [] then []
    else
      var k := |topics| - 1;
      Subscribers(topics[..k], t) + (if t in topics[k] then [k] else [])
  }

  lemma {:induction false} SubscribersFacts(topics: seq<seq<string>>, t: string)
    ensures Increasing(Subscribers(topics, t))
    ensures forall i: nat :: i in Subscribers(topics, t) <==> i < |topics| && t in topics[i]
  {
    if topics != [] {
      var k := |topics| - 1;
      SubscribersFacts(topics[..k], t);
      var s := Subscribers(topics[..k], t);
      forall j | 0 <= j < |s| ensures s[j] < k { assert s[j] in s; }
    }
  }

  /** The partitions of topic `t` in an assignment, in listing order. */
  function PartsOf(list: seq<TopicPartition>, t: string): (r: seq<nat>)
    ensures forall p :: p in r <==> (t, p) in list
  {
    if list == [] then []
    else
      var k := |list| - 1;
      assert list == list[..k] + [list[k]];
      PartsOf(list[..k], t) + (if list[k].0 == t then [list[k].1] else [])
  }

  function TopicIds(inp: Input, t: string): (r: seq<string>)
    requires inp.Valid()
    ensures |r| == |Subscribers(inp.topics, t)|
  {
    SubscribersFacts(inp.topics, t);
    var subs := Subscribers(inp.topics, t);
    seq(|subs|, j requires 0 <= j < |subs| => assert subs[j] in subs; inp.ids[subs[j]])
  }

  function TopicPrevious(inp: Input, t: string): (r: seq<seq<nat>>)
    requires inp.Valid()
    ensures |r| == |Subscribers(inp.topics, t)|
  {
    SubscribersFacts(inp.topics, t);
    var subs := Subscribers(inp.topics, t);
    seq(|subs|, j requires 0 <= j < |subs| => assert subs[j] in subs; PartsOf(inp.previous[subs[j]], t))
  }

  /** Shares of topic `t`, parallel to its subscribers. */
  ghost function Shares(inp: Input, t: string): (f: seq<set<nat>>)
    requires inp.Valid() && t in inp.counts
    ensures |f| == |Subscribers(inp.topics, t)|
  {
    Sticky(inp.counts[t], Ranks(TopicIds(inp, t)), Claims(inp.counts[t], TopicPrevious(inp, t)))
  }

  /** Member `i` is the j-th subscriber of `t`. */
  predicate IsSubscriber(inp: Input, t: string, j: nat, i: nat)
    requires inp.Valid()
  {
    j < |Subscribers(inp.topics, t)| && Subscribers(inp.topics, t)[j] == i
  }

  /** Member `i` is given partition `p` of topic `t`. */
  ghost predicate Gets(inp: Input, i: nat, t: string, p: nat)
    requires inp.Valid()
  {
    t in inp.counts && exists j: nat :: IsSubscriber(inp, t, j, i) && p in Shares(inp, t)[j]
  }

  lemma SubscriberFacts(inp: Input, t: string, j: nat, i: nat)
    requires inp.Valid() && IsSubscriber(inp, t, j, i)
    ensures i < |inp.ids| && t in inp.topics[i]
    ensures TopicIds(inp, t)[j] == inp.ids[i]
    ensures TopicPrevious(inp, t)[j] == PartsOf(inp.previous[i], t)
    ensures forall j' :: IsSubscriber(inp, t, j', i) ==> j' == j
  {
    SubscribersFacts(inp.topics, t);
    assert i in Subscribers(inp.topics, t);
  }

  lemma SubscriberPosition(inp: Input, t: string, i: nat) returns (j: nat)
    requires inp.Valid() && i < |inp.ids| && t in inp.topics[i]
    ensures IsSubscriber(inp, t, j, i)
  {
    SubscribersFacts(inp.topics, t);
    var k :| 0 <= k < |Subscribers(inp.topics, t)| && Subscribers(inp.topics, t)[k] == i;
    j := k;
  }

  // ---------- what the group gets ----------

  lemma SharesCover(inp: Input, t: string)
    requires inp.Valid() && t in inp.counts && Subscribers(inp.topics, t) != []
    ensures ExactCover(inp.counts[t], Ranks(TopicIds(inp, t)), Shares(inp, t))
  {
    RanksArePermutation(TopicIds(inp, t));
    StickyIsExactCover(inp.counts[t], Ranks(TopicIds(inp, t)), Claims(inp.counts[t], TopicPrevious(inp, t)));
  }

  /** No partition goes to two members. */
  lemma GetsUnique(inp: Input, i: nat, i': nat, t: string, p: nat)
    requires inp.Valid() && Gets(inp, i, t, p) && Gets(inp, i', t, p)
    ensures i == i'
  {
    SharesCover(inp, t);
    var j: nat :| IsSubscriber(inp, t, j, i) && p in Shares(inp, t)[j];
    var j': nat :| IsSubscriber(inp, t, j', i') && p in Shares(inp, t)[j'];
    assert j == j';
  }

  /** Only known topics, only to subscribers, only existing partitions. */
  lemma GetsValid(inp: Input, i: nat, t: string, p: nat)
    requires inp.Valid() && Gets(inp, i, t, p)
    ensures i < |inp.ids| && t in inp.counts && t in inp.topics[i] && p < inp.counts[t]
  {
    var j: nat :| IsSubscriber(inp, t, j, i) && p in Shares(inp, t)[j];
    SubscriberFacts(inp, t, j, i);
    SharesCover(inp, t);
    assert p in Union(Shares(inp, t));
  }

  /** Every partition of a known topic with a subscriber has an owner. */
  lemma GetsCover(inp: Input, t: string, p: nat) returns (i: nat)
    requires inp.Valid() && t in inp.counts && Subscribers(inp.topics, t) != [] && p < inp.counts[t]
    ensures i < |inp.ids| && Gets(inp, i, t, p)
  {
    SharesCover(inp, t);
    assert p in Union(Shares(inp, t));
    var j: nat :| 0 <= j < |Shares(inp, t)| && p in Shares(inp, t)[j];
    i := Subscribers(inp.topics, t)[j];
    assert IsSubscriber(inp, t, j, i);
    SubscriberFacts(inp, t, j, i);
  }

  // ---------- collected lists ----------

  function Pairs(t: string, ps: seq<nat>): (r: seq<TopicPartition>)
    ensures |r| == |ps|
  {
    seq(|ps|, k requires 0 <= k < |ps| => (t, ps[k]))
  }

  /** Member `i`'s part of topic `t`. */
  ghost function TopicPart(inp: Input, t: string, i: nat): seq<TopicPartition>
    requires inp.Valid()
  {
    if t in inp.counts && exists j: nat :: IsSubscriber(inp, t, j, i) then
      var j: nat :| IsSubscriber(inp, t, j, i);
      Pairs(t, Ascending(Shares(inp, t)[j], inp.counts[t]))
    else []
  }

  lemma TopicPartFacts(inp: Input, t: string, i: nat)
    requires inp.Valid()
    ensures forall x :: x in TopicPart(inp, t, i) <==> x.0 == t && Gets(inp, i, t, x.1)
    ensures StrictlyBy(PairLess, TopicPart(inp, t, i))
  {
    if t in inp.counts && exists j: nat :: IsSubscriber(inp, t, j, i) {
      var j: nat :| IsSubscriber(inp, t, j, i) && TopicPart(inp, t, i) == Pairs(t, Ascending(Shares(inp, t)[j], inp.counts[t]));
      SubscriberFacts(inp, t, j, i);
      var l := Ascending(Shares(inp, t)[j], inp.counts[t]);
      AscendingFacts(Shares(inp, t)[j], inp.counts[t]);
      forall x ensures x in TopicPart(inp, t, i) <==> x.0 == t && Gets(inp, i, t, x.1) {
        if x.0 == t && Gets(inp, i, t, x.1) {
          GetsValid(inp, i, t, x.1);
          assert x.1 in l;
          var k :| 0 <= k < |l| && l[k] == x.1;
          assert Pairs(t, l)[k] == x;
        }
      }
      LessIrreflexive(t);
    }
  }

  ghost function Collected(inp: Input, ts: seq<string>, i: nat): seq<TopicPartition>
    requires inp.Valid()
  {
    if ts == [] then []
    else Collected(inp, ts[..|ts| - 1], i) + TopicPart(inp, ts[|ts| - 1], i)
  }

  lemma {:induction false} CollectedFacts(inp: Input, ts: seq<string>, i: nat)
    requires inp.Valid() && StrictlySorted(ts)
    ensures forall x :: x in Collected(inp, ts, i) <==> x.0 in ts && Gets(inp, i, x.0, x.1)
    ensures StrictlyBy(PairLess, Collected(inp, ts, i))
  {
    if ts != [] {
      var k := |ts| - 1;
      var ts', t := ts[..k], ts[k];
      assert ts == ts' + [t];
      CollectedFacts(inp, ts', i);
      TopicPartFacts(inp, t, i);
      var a, b := Collected(inp, ts', i), TopicPart(inp, t, i);
      forall x, y | x in a && y in b ensures PairLess(x, y) && !PairLess(y, x) && x != y {
        var h :| 0 <= h < k && ts[h] == x.0;
        assert PairLess(x, y);
        PairLessStrict(x, y);
      }
      var s := a + b;
      assert s == Collected(inp, ts, i);
      forall m, n | 0 <= m < n < |s| ensures PairLess(s[m], s[n]) && !PairLess(s[n], s[m]) && s[m] != s[n] {
        if m < |a| <= n { assert s[m] in a && s[n] in b; }
      }
    }
  }

  function Flatten(topics: seq<seq<string>>): (r: seq<string>)
    ensures forall t :: t in r <==> exists i :: 0 <= i < |topics| && t in topics[i]
  {
    if topics == [] then []
    else
      var k := |topics| - 1;
      assert forall i :: 0 <= i < k ==> topics[..k][i] == topics[i];
      Flatten(topics[..k]) + topics[k]
  }

  function AllTopics(inp: Input): seq<string> { SortedDistinct(Flatten(inp.topics)) }

  /** The reference result: one list per member. */
  ghost function Multi(inp: Input): (out: seq<seq<TopicPartition>>)
    requires inp.Valid()
    ensures |out| == |inp.ids|
  {
    seq(|inp.ids|, i requires 0 <= i < |inp.ids| => Collected(inp, AllTopics(inp), i))
  }

  /** A member's list is exactly what it gets, in strict (topic, partition) order. */
  lemma MultiFacts(inp: Input, i: nat)
    requires inp.Valid() && i < |inp.ids|
    ensures forall t, p: nat :: (t, p) in Multi(inp)[i] <==> Gets(inp, i, t, p)
    ensures StrictlyBy(PairLess, Multi(inp)[i])
  {
    SortedDistinctStrict(Flatten(inp.topics));
    CollectedFacts(inp, AllTopics(inp), i);
    forall t, p: nat ensures (t, p) in Multi(inp)[i] <==> Gets(inp, i, t, p) {
      if Gets(inp, i, t, p) {
        GetsValid(inp, i, t, p);
        assert t in Flatten(inp.topics);
      }
      assert (t, p).0 == t && (t, p).1 == p;
    }
  }

  // ---------- the method ----------

  /** Collect the subscribers of one topic with their ids and prior partitions. */
  method GatherTopic(inp: Input, t: string) returns (orig: seq<nat>, ids: seq<string>, prev: seq<seq<nat>>)
    requires inp.Valid()
    ensures orig == Subscribers(inp.topics, t) && ids == TopicIds(inp, t) && prev == TopicPrevious(inp, t)
  {
    orig, ids, prev := [], [], [];
    var i := 0;
    while i < |inp.ids|
      invariant 0 <= i <= |inp.ids|
      invariant orig == Subscribers(inp.topics[..i], t) && |ids| == |prev| == |orig|
      invariant forall j :: 0 <= j < |orig| ==> orig[j] < i && ids[j] == inp.ids[orig[j]]
      invariant forall j :: 0 <= j < |orig| ==> orig[j] < i && prev[j] == PartsOf(inp.previous[orig[j]], t)
    {
      assert inp.topics[..i + 1][..i] == inp.topics[..i];
      if t in inp.topics[i] {
        orig, ids, prev := orig + [i], ids + [inp.ids[i]], prev + [PartsOf(inp.previous[i], t)];
      }
      i := i + 1;
    }
    assert inp.topics[..i] == inp.topics;
    SubscribersFacts(inp.topics, t);
  }

  /** Append each subscriber's share of one topic to its list. */
  method Distribute(inp: Input, t: string, orig: seq<nat>, parts: seq<seq<nat>>, out0: seq<seq<TopicPartition>>)
    returns (out: seq<seq<TopicPartition>>)
    requires inp.Valid() && t in inp.counts && |out0| == |inp.ids|
    requires orig == Subscribers(inp.topics, t) && Lists(inp.counts[t], parts, Shares(inp, t))
    ensures |out| == |out0|
    ensures forall i :: 0 <= i < |out| ==> out[i] == out0[i] + TopicPart(inp, t, i)
  {
    SubscribersFacts(inp.topics, t);
    assert forall j :: 0 <= j < |orig| ==> orig[j] in orig;
    out := AppendParts(t, orig, parts, out0);
    forall i: nat | i < |out| ensures out[i] == out0[i] + TopicPart(inp, t, i) {
      if i in orig {
        var j :| 0 <= j < |orig| && orig[j] == i;
        TopicPartOf(inp, t, j, parts);
      } else {
        NoPart(inp, t);
      }
    }
  }

  method AppendParts(t: string, orig: seq<nat>, parts: seq<seq<nat>>, out0: seq<seq<TopicPartition>>)
    returns (out: seq<seq<TopicPartition>>)
    requires |orig| == |parts| && Increasing(orig) && forall j :: 0 <= j < |orig| ==> orig[j] < |out0|
    ensures |out| == |out0|
    ensures forall j :: 0 <= j < |orig| ==> out[orig[j]] == out0[orig[j]] + Pairs(t, parts[j])
    ensures forall i: nat :: i < |out| && i !in orig ==> out[i] == out0[i]
  {
    out := out0;
    var j := 0;
    while j < |parts|
      invariant 0 <= j <= |parts| && |out| == |out0|
      invariant forall k :: 0 <= k < j ==> out[orig[k]] == out0[orig[k]] + Pairs(t, parts[k])
      invariant forall k :: j <= k < |orig| ==> out[orig[k]] == out0[orig[k]]
      invariant forall i: nat :: i < |out| && i !in orig ==> out[i] == out0[i]
    {
      out := out[orig[j] := out[orig[j]] + Pairs(t, parts[j])];
      j := j + 1;
    }
  }

  lemma TopicPartOf(inp: Input, t: string, j: nat, parts: seq<seq<nat>>)
    requires inp.Valid() && t in inp.counts
    requires Lists(inp.counts[t], parts, Shares(inp, t)) && j < |parts|
    ensures TopicPart(inp, t, Subscribers(inp.topics, t)[j]) == Pairs(t, parts[j])
  {
    var i := Subscribers(inp.topics, t)[j];
    assert IsSubscriber(inp, t, j, i);
    SubscriberFacts(inp, t, j, i);
  }

  lemma NoPart(inp: Input, t: string)
    requires inp.Valid()
    ensures forall i: nat :: i !in Subscribers(inp.topics, t) ==> TopicPart(inp, t, i) == []
  {
    forall i: nat, k: nat | IsSubscriber(inp, t, k, i) ensures i in Subscribers(inp.topics, t) {
      assert Subscribers(inp.topics, t)[k] in Subscribers(inp.topics, t);
    }
  }

  /** One topic: gather its subscribers, assign, distribute; unknown topics are skipped. */
  method AssignTopic(inp: Input, t: string, out0: seq<seq<TopicPartition>>) returns (out: seq<seq<TopicPartition>>)
    requires inp.Valid() && |out0| == |inp.ids|
    ensures |out| == |out0|
    ensures forall i :: 0 <= i < |out| ==> out[i] == out0[i] + TopicPart(inp, t, i)
  {
    out := out0;
    var orig, ids, prev := GatherTopic(inp, t);
    if t in inp.counts && ids != [] {
      var parts := StickyAssign(inp.counts[t], ids, prev);
      out := Distribute(inp, t, orig, parts, out);
    } else {
      NoPart(inp, t);
    }
  }

  method StickyAssignMulti(inp: Input) returns (out: seq<seq<TopicPartition>>)
    requires inp.Valid()
    ensures out == Multi(inp)
  {
    out := seq(|inp.ids|, i => []);
    var ts := AllTopics(inp);
    var k := 0;
    while k < |ts|
      invariant 0 <= k <= |ts| && |out| == |inp.ids|
      invariant forall i :: 0 <= i < |out| ==> out[i] == Collected(inp, ts[..k], i)
    {
      assert ts[..k + 1][..k] == ts[..k];
      out := AssignTopic(inp, ts[k], out);
      k := k + 1;
    }
    assert ts[..k] == ts;
    assert out == Multi(inp);
    forall list | list in out ensures IsSorted(list) {
      var i :| 0 <= i < |out| && out[i] == list;
      AlreadySorted(inp, i);
    }
    out := SortAll(out);
  }

  ghost predicate IsSorted(list: seq<TopicPartition>) { SortBy(PairLess, list) == list }

  lemma AlreadySorted(inp: Input, i: nat)
    requires inp.Valid() && i < |Multi(inp)|
    ensures IsSorted(Multi(inp)[i])
  {
    MultiFacts(inp, i);
    SortKeepsSorted(PairLess, Multi(inp)[i]);
  }

  /** The final per-member sort; it finds the lists already in order. */
  method SortAll(lists: seq<seq<TopicPartition>>) returns (out: seq<seq<TopicPartition>>)
    requires forall list <- lists :: IsSorted(list)
    ensures out == lists
  {
    out := [];
    while |out| < |lists|
      invariant |out| <= |lists| && out == lists[..|out|]
    {
      assert IsSorted(lists[|out|]);
      out := out + [SortBy(PairLess, lists[|out|])];
    }
  }
}
