/**
 The coordinator object: each method is one segment under the `groups` mutex,
 and makes exactly one step of the state machine in module Group.
 */
module GroupCoordinator {
  import opened Options
  import opened Ordering
  import opened Sorting
  import opened Assignor
  import opened MultiAssignor
  import opened Group

  datatype JoinResult = JoinResult(error: nat, generation: nat, memberId: string,
                                   assignment: seq<TopicPartition>, revoked: seq<TopicPartition>, members: seq<string>)

  datatype JoinOutcome = Done(result: JoinResult) | Waiting

  /** Entries of `was` missing from `now`, in order. */
  function PartitionDiff(was: seq<TopicPartition>, now: seq<TopicPartition>): (r: seq<TopicPartition>)
    ensures forall x :: x in r <==> x in was && x !in now
  {
    if was == [] then []
    else
      var k := |was| - 1;
      assert was == was[..k] + [was[k]];
      PartitionDiff(was[..k], now) + (if was[k] in now then [] else [was[k]])
  }

  lemma GroupsAre(s: State, l: Label, gs: Groups)
    requires Enabled(s, l) && forall g :: Lookup(gs, g) == After(s, l, g)
    ensures gs == GroupsAfter(s, l)
  {
    var r := GroupsAfter(s, l);
    forall g ensures (g in gs <==> g in r) && (g in gs ==> gs[g] == r[g]) {
      assert Lookup(gs, g) == Lookup(r, g);
    }
  }

  lemma CompletedGroups(s: State, l: Label)
    requires Enabled(s, l) && Completes(s, l)
    ensures var r := RequestOf(s, l).value;
            GroupsAfter(s, l) == s.groups[r.group := CompleteJoin(r, Lookup(s.groups, r.group), l.uuid, l.counts, l.order)]
  {
    var r := RequestOf(s, l).value;
    var gs := s.groups[r.group := CompleteJoin(r, Lookup(s.groups, r.group), l.uuid, l.counts, l.order)];
    GroupsAre(s, l, gs);
  }

  lemma FencedGroups(s: State, l: Label)
    requires Enabled(s, l) && (l.JoinStart? || l.JoinWake?) && !Completes(s, l)
    ensures GroupsAfter(s, l) == s.groups
  {
    GroupsAre(s, l, s.groups);
  }

  lemma LeftGroups(s: State, g: string, m: string, counts: map<string, nat>, order: seq<string>, gs: Groups)
    requires IsMember(Lookup(s.groups, g), m) && IsOrder(order, Without(s.groups[g].members, {m}))
    requires Lookup(gs, g) == Leave(Lookup(s.groups, g), m, counts, order)
    requires forall h :: h != g ==> Lookup(gs, h) == Lookup(s.groups, h)
    ensures gs == GroupsAfter(s, LeaveGroup(g, m, counts, order))
  {
    GroupsAre(s, LeaveGroup(g, m, counts, order), gs);
  }

  /** Group `g` has been through its expiry under the recorded order. */
  ghost predicate Expired(group: Group, dead: set<string>, counts: map<string, nat>,
                          orders: map<string, seq<string>>, g: string, og: Option<Group>)
  {
    && (Loses(group, dead) ==> IsOrder(OrderIn(orders, g), Without(group.members, dead)))
    && og == Expire(Some(group), dead, counts, OrderIn(orders, g))
  }

  lemma ExpiredGroups(s: State, dead: map<string, set<string>>, counts: map<string, nat>, orders: map<string, seq<string>>, gs: Groups)
    requires forall g :: g in s.groups ==> Expired(s.groups[g], DeadIn(dead, g), counts, orders, g, Lookup(gs, g))
    requires forall g :: g !in s.groups ==> g !in gs
    ensures Enabled(s, ExpireSessions(dead, counts, orders)) && gs == GroupsAfter(s, ExpireSessions(dead, counts, orders))
  {
    GroupsAre(s, ExpireSessions(dead, counts, orders), gs);
  }

  lemma NobodyLeft(s: State, g: string, m: string, counts: map<string, nat>, order: seq<string>)
    requires !IsMember(Lookup(s.groups, g), m)
    ensures s.groups == GroupsAfter(s, LeaveGroup(g, m, counts, order))
  {
    GroupsAre(s, LeaveGroup(g, m, counts, order), s.groups);
  }

  // ---------- reassign ----------

  /** Read the member map in some iteration order. */
  method ListMembers(members: Members) returns (order: seq<string>, topics: seq<seq<string>>, previous: seq<seq<TopicPartition>>)
    ensures IsOrder(order, members) && |order| == |topics| == |previous|
    ensures forall i :: 0 <= i < |order| ==> order[i] in members
    ensures forall i :: 0 <= i < |order| ==> topics[i] == members[order[i]].topics && previous[i] == members[order[i]].assignment
  {
    order, topics, previous := [], [], [];
    var todo := members.Keys;
    while todo != {}
      invariant todo <= members.Keys && |order| == |topics| == |previous|
      invariant DistinctIds(order) && IdSet(order) == members.Keys - todo
      invariant forall i :: 0 <= i < |order| ==> order[i] in members
      invariant forall i :: 0 <= i < |order| ==> topics[i] == members[order[i]].topics && previous[i] == members[order[i]].assignment
      decreases todo
    {
      var m :| m in todo;
      assert m !in IdSet(order);
      assert IdSet(order + [m]) == IdSet(order) + {m};
      order, topics, previous := order + [m], topics + [members[m].topics], previous + [members[m].assignment];
      todo := todo - {m};
    }
  }

  method GatherCounts(members: Members, order: seq<string>, topics: seq<seq<string>>, counts: map<string, nat>) returns (known: map<string, nat>)
    requires IsOrder(order, members) && |order| == |topics|
    requires forall i :: 0 <= i < |order| ==> order[i] in members && topics[i] == members[order[i]].topics
    ensures known == KnownCounts(members, counts)
  {
    known := map[];
    var i := 0;
    while i < |topics|
      invariant 0 <= i <= |topics|
      invariant forall t :: t in known <==> t in counts && exists j :: 0 <= j < i && t in topics[j]
      invariant forall t :: t in known ==> known[t] == counts[t]
    {
      known := GatherTopicCounts(topics[i], counts, known);
      i := i + 1;
    }
    SubscribedTopics(members, order, topics);
  }

  lemma SubscribedTopics(members: Members, order: seq<string>, topics: seq<seq<string>>)
    requires IsOrder(order, members) && |order| == |topics|
    requires forall i :: 0 <= i < |order| ==> order[i] in members && topics[i] == members[order[i]].topics
    ensures forall t :: t in Subscribed(members) <==> exists j :: 0 <= j < |topics| && t in topics[j]
  {
    OrderedMembers(members, order);
    forall t | t in Subscribed(members) ensures exists j :: 0 <= j < |topics| && t in topics[j] {
      var m :| m in members && t in members[m].topics;
      var j :| 0 <= j < |order| && order[j] == m;
      assert t in topics[j];
    }
  }

  method GatherTopicCounts(topics: seq<string>, counts: map<string, nat>, known0: map<string, nat>) returns (known: map<string, nat>)
    requires forall t :: t in known0 ==> t in counts && known0[t] == counts[t]
    ensures forall t :: t in known <==> t in known0 || (t in counts && t in topics)
    ensures forall t :: t in known ==> known[t] == counts[t]
  {
    known := known0;
    for k := 0 to |topics|
      invariant forall t :: t in known <==> t in known0 || (t in counts && t in topics[..k])
      invariant forall t :: t in known ==> known[t] == counts[t]
    {
      assert topics[..k + 1] == topics[..k] + [topics[k]];
      if topics[k] !in known && topics[k] in counts {
        known := known[topics[k] := counts[topics[k]]];
      }
    }
    assert topics[..|topics|] == topics;
  }

  /** `reassign`: run the sticky assignor over the whole group. */
  method ReassignMembers(members: Members, counts: map<string, nat>) returns (r: Members, ghost order: seq<string>)
    ensures IsOrder(order, members) && r == Reassign(members, counts, order)
  {
    var ids, topics, previous := ListMembers(members);
    order := ids;
    if members == map[] {
      r := members;
      return;
    }
    var known := GatherCounts(members, ids, topics, counts);
    var inp := Input(ids, topics, known, previous);
    assert inp == AssignorInput(members, counts, ids);
    var assigns := StickyAssignMulti(inp);
    r := WriteBack(members, ids, assigns);
    WrittenBack(members, counts, ids, assigns, r);
  }

  method WriteBack(members: Members, ids: seq<string>, assigns: seq<seq<TopicPartition>>) returns (r: Members)
    requires |ids| == |assigns| && DistinctIds(ids) && forall i :: 0 <= i < |ids| ==> ids[i] in members
    ensures r.Keys == members.Keys
    ensures forall j :: 0 <= j < |ids| ==> r[ids[j]] == members[ids[j]].(assignment := assigns[j])
  {
    r := members;
    var i := 0;
    while i < |ids|
      invariant 0 <= i <= |ids| && r.Keys == members.Keys
      invariant forall j :: 0 <= j < i ==> r[ids[j]] == members[ids[j]].(assignment := assigns[j])
      invariant forall j :: i <= j < |ids| ==> r[ids[j]] == members[ids[j]]
    {
      r := r[ids[i] := r[ids[i]].(assignment := assigns[i])];
      i := i + 1;
    }
  }

  lemma WrittenBack(members: Members, counts: map<string, nat>, ids: seq<string>, assigns: seq<seq<TopicPartition>>, r: Members)
    requires IsOrder(ids, members) && assigns == Multi(AssignorInput(members, counts, ids)) && r.Keys == members.Keys
    requires forall j :: 0 <= j < |ids| ==> ids[j] in members && r[ids[j]] == members[ids[j]].(assignment := assigns[j])
    ensures r == Reassign(members, counts, ids)
  {
    forall m | m in members ensures r[m] == Reassign(members, counts, ids)[m] {
      assert m in IdSet(ids);
      var j := IndexOf(ids, m);
      assert r[ids[j]] == members[ids[j]].(assignment := assigns[j]);
    }
  }

  /** `live_member_ids`: all ids, sorted. */
  method LiveMemberIds(members: Members) returns (ids: seq<string>)
    ensures ListsIds(ids, members)
  {
    var order, _, _ := ListMembers(members);
    ids := SortStrings(order);
    SameElements(order, ids);
    assert IdSet(ids) == IdSet(order);
    IdSetSize(order);
    LessOrders(IdSet(order));
    SortedByOrder(Less, order, IdSet(order));
  }

  // ---------- answers to a Join ----------

  /** The live ids of a group, each once, in order. */
  ghost predicate ListsIds(ids: seq<string>, members: Members) {
    IdSet(ids) == members.Keys && |ids| == |members| && Sorted(Less, ids)
  }

  /** Error 9 with the current generation and live ids, nothing assigned and nothing revoked. */
  ghost predicate AnswersFenced(result: JoinResult, r: Request, groups: Groups) {
    var g := Base(Lookup(groups, r.group));
    && result.error == REBALANCE_IN_PROGRESS && result.memberId == r.id
    && result.assignment == [] && result.revoked == []
    && result.generation == g.generation && ListsIds(result.members, g.members)
  }

  /** The joiner's new list, what it lost since its last delivery, and the new generation and ids. */
  ghost predicate AnswersJoined(result: JoinResult, r: Request, uuid: string, was: Groups, groups: Groups) {
    var og := Lookup(was, r.group);
    && r.group in groups && result.error == OK && result.generation == groups[r.group].generation
    && result.memberId == (if Rejoins(r, og) then r.id else Joiner(r, uuid))
    && result.memberId in groups[r.group].members
    && result.assignment == groups[r.group].members[result.memberId].assignment
    && result.revoked == (if Rejoins(r, og) then PartitionDiff(og.value.members[r.id].delivered, result.assignment) else [])
    && ListsIds(result.members, groups[r.group].members)
  }

  /** The answer that goes with a step of a Join which does not wait. */
  ghost predicate Answers(result: JoinResult, s: State, l: Label, uuid: string, groups: Groups) {
    var r := RequestOf(s, l);
    r.Some? && if Completes(s, l) then AnswersJoined(result, r.value, uuid, s.groups, groups) else AnswersFenced(result, r.value, s.groups)
  }

  /** What becomes of a request and of the groups: completed, given up, or left waiting. */
  ghost predicate Settles(r: Request, timedOut: bool, uuid: string, counts: map<string, nat>, order: seq<string>,
                          was: Groups, groups: Groups, outcome: JoinOutcome) {
    var og := Lookup(was, r.group);
    if Fenced(r, og) then
      && groups == was && (outcome.Waiting? <==> !timedOut)
      && (outcome.Done? ==> AnswersFenced(outcome.result, r, was))
    else
      && outcome.Done? && JoinOrder(r, og, uuid, order)
      && groups == was[r.group := CompleteJoin(r, og, uuid, counts, order)]
      && AnswersJoined(outcome.result, r, uuid, was, groups)
  }

  predicate IsJoin(l: Label) { l.JoinStart? || l.JoinWake? }

  /** Settling its request is all a Join step does to the groups. */
  lemma JoinSettles(s: State, l: Label, r: Request, groups: Groups, outcome: JoinOutcome)
    requires IsJoin(l) && RequestOf(s, l) == Some(r) && Settles(r, l.timedOut, l.uuid, l.counts, l.order, s.groups, groups, outcome)
    requires if l.JoinStart? then l.tid !in s.parked else l.timedOut || !s.parked[l.tid].asleep
    ensures Enabled(s, l) && GroupsAfter(s, l) == groups
    ensures outcome.Waiting? <==> !Completes(s, l) && !l.timedOut
    ensures outcome.Done? ==> Answers(outcome.result, s, l, l.uuid, groups)
  {
    if Completes(s, l) { CompletedGroups(s, l); } else { FencedGroups(s, l); }
  }

  /** `l` is a step from `s` to `after` that ends with `outcome` for its caller. */
  ghost predicate Joins(s: State, l: Label, after: State, outcome: JoinOutcome) {
    && IsJoin(l) && Enabled(s, l) && after == Next(s, l)
    && (outcome.Waiting? <==> !Completes(s, l) && !l.timedOut)
    && (outcome.Done? ==> Answers(outcome.result, s, l, l.uuid, after.groups))
  }

  function WaitersOnArrival(waiters: map<string, nat>, g: string, fenced: bool, timedOut: bool): map<string, nat> {
    if !fenced then waiters else if timedOut then DecWaiters(IncWaiters(waiters, g), g) else IncWaiters(waiters, g)
  }

  lemma JoinStarts(s: State, l: Label, r: Request, fenced: bool, after: State, outcome: JoinOutcome)
    requires l.JoinStart? && l.tid !in s.parked && r == MakeRequest(s.groups, l.group, l.id, l.topics)
    requires fenced == Fenced(r, Lookup(s.groups, r.group))
    requires Settles(r, l.timedOut, l.uuid, l.counts, l.order, s.groups, after.groups, outcome)
    requires after.waiters == WaitersOnArrival(s.waiters, l.group, fenced, l.timedOut)
    requires after.parked == if fenced && !l.timedOut then s.parked[l.tid := Parked(r, true)] else s.parked
    ensures Joins(s, l, after, outcome)
  {
    JoinSettles(s, l, r, after.groups, outcome);
  }

  lemma JoinWakes(s: State, l: Label, r: Request, fenced: bool, after: State, outcome: JoinOutcome)
    requires l.JoinWake? && l.tid in s.parked && r == s.parked[l.tid].request && (l.timedOut || !s.parked[l.tid].asleep)
    requires fenced == Fenced(r, Lookup(s.groups, r.group))
    requires Settles(r, l.timedOut, l.uuid, l.counts, l.order, s.groups, after.groups, outcome)
    requires after.waiters == if fenced && !l.timedOut then s.waiters else DecWaiters(s.waiters, r.group)
    requires after.parked == if fenced && !l.timedOut then s.parked[l.tid := s.parked[l.tid].(asleep := true)] else s.parked - {l.tid}
    ensures Joins(s, l, after, outcome)
  {
    JoinSettles(s, l, r, after.groups, outcome);
  }

  // ---------- the object ----------

  class Coordinator {
    var groups: Groups
    var waiters: map<string, nat>
    /** The condvar queue. */
    var parked: map<nat, Parked>

    ghost function Now(): State
      reads this
    {
      State(groups, waiters, parked)
    }

    constructor ()
      ensures Now() == INITIAL
    {
      groups, waiters, parked := map[], map[], map[];
    }

    method NotifyAll()
      modifies this`parked
      ensures parked == WakeAll(old(parked))
    {
      parked := WakeAll(parked);
    }

    method Heartbeat(g: string, m: string, generation: nat) returns (error: nat)
      ensures error == if g !in groups || m !in groups[g].members then UNKNOWN_MEMBER_ID
                       else if generation != groups[g].generation then REBALANCE_IN_PROGRESS else OK
    {
      if g !in groups || m !in groups[g].members { return UNKNOWN_MEMBER_ID; }
      if generation != groups[g].generation { return REBALANCE_IN_PROGRESS; }
      error := OK;
    }

    /** `sync_group_with_assignments`; an empty list only confirms. */
    method Sync(g: string, m: string, generation: nat, lists: seq<(string, seq<TopicPartition>)>)
      returns (error: nat, assignment: seq<TopicPartition>)
      modifies this
      ensures Now() == Next(old(Now()), SyncGroup(g, m, generation, lists))
      ensures error == if !IsMember(Lookup(old(groups), g), m) then UNKNOWN_MEMBER_ID
                       else if generation != old(groups)[g].generation then REBALANCE_IN_PROGRESS else OK
      ensures assignment == if error == OK then groups[g].members[m].assignment else []
    {
      ghost var s, l := Now(), SyncGroup(g, m, generation, lists);
      if g !in groups || m !in groups[g].members {
        error, assignment := UNKNOWN_MEMBER_ID, [];
        GroupsAre(s, l, groups);
        return;
      }
      if generation != groups[g].generation {
        error, assignment := REBALANCE_IN_PROGRESS, [];
        GroupsAre(s, l, groups);
        return;
      }
      var ms := groups[g].members;
      for i := 0 to |lists|
        invariant ms == ApplyLists(groups[g].members, lists[..i])
        invariant groups == old(groups) && waiters == old(waiters) && parked == old(parked)
      {
        assert lists[..i + 1][..i] == lists[..i];
        var (mid, parts) := lists[i];
        if mid in ms { ms := ms[mid := ms[mid].(assignment := parts)]; }
      }
      assert lists[..|lists|] == lists;
      ms := ms[m := ms[m].(synced := generation)];
      groups := groups[g := groups[g].(members := ms)];
      error, assignment := OK, ms[m].assignment;
      NotifyAll();
      GroupsAre(s, l, groups);
    }

    method Leave(g: string, m: string, counts: map<string, nat>) returns (error: nat, ghost order: seq<string>)
      modifies this
      ensures Enabled(old(Now()), LeaveGroup(g, m, counts, order))
      ensures Now() == Next(old(Now()), LeaveGroup(g, m, counts, order))
      ensures error == if g in old(groups) && m !in old(groups)[g].members then UNKNOWN_MEMBER_ID else OK
    {
      order := [];
      ghost var s := Now();
      if g !in groups || m !in groups[g].members {
        error := if g in groups then UNKNOWN_MEMBER_ID else OK;
        NobodyLeft(s, g, m, counts, order);
        return;
      }
      var og;
      og, order := WithoutMember(groups[g], m, counts);
      groups := if og.None? then groups - {g} else groups[g := og.value];
      NotifyAll();
      error := OK;
      LeftGroups(s, g, m, counts, order, groups);
    }

    static method WithoutMember(g: Group, m: string, counts: map<string, nat>) returns (og: Option<Group>, ghost order: seq<string>)
      ensures IsOrder(order, Without(g.members, {m}))
      ensures og == Rebalance(g.(members := Without(g.members, {m})), counts, order)
    {
      var ms;
      ms, order := ReassignMembers(Without(g.members, {m}), counts);
      og := Present(Group(Bump(g.generation), ms));
    }

    /** `expire_sessions_inner`; `dead` are the members whose sessions have timed out. */
    method DropExpired(dead: map<string, set<string>>)
      modifies this
      ensures Now() == Next(old(Now()), ExpireInner(dead))
    {
      ghost var s := Now();
      var dropped;
      groups, dropped := DropGroups(groups, dead);
      if dropped { NotifyAll(); }
      GroupsAre(s, ExpireInner(dead), groups);
    }

    static method DropGroups(groups: Groups, dead: map<string, set<string>>) returns (result: Groups, dropped: bool)
      ensures forall g :: Lookup(result, g) == Drop(Lookup(groups, g), DeadIn(dead, g))
      ensures dropped <==> exists g :: g in groups && Loses(groups[g], DeadIn(dead, g))
    {
      var todo := groups.Keys;
      result, dropped := map[], false;
      while todo != {}
        invariant todo <= groups.Keys
        invariant forall g :: g in groups && g !in todo ==> Lookup(result, g) == Drop(Some(groups[g]), DeadIn(dead, g))
        invariant forall g :: g !in groups || g in todo ==> g !in result
        invariant dropped <==> exists g :: g in groups && g !in todo && Loses(groups[g], DeadIn(dead, g))
        decreases todo
      {
        var g :| g in todo;
        var og := Drop(Some(groups[g]), DeadIn(dead, g));
        if Loses(groups[g], DeadIn(dead, g)) { dropped := true; }
        if og.Some? { result := result[g := og.value]; }
        todo := todo - {g};
      }
    }

    /** `expire_sessions`: bump and reassign every group that lost a member. */
    method ExpireAll(dead: map<string, set<string>>, counts: map<string, nat>) returns (ghost orders: map<string, seq<string>>)
      modifies this
      ensures Enabled(old(Now()), ExpireSessions(dead, counts, orders))
      ensures Now() == Next(old(Now()), ExpireSessions(dead, counts, orders))
    {
      ghost var s := Now();
      var bumped;
      groups, bumped, orders := ExpireGroups(groups, dead, counts);
      if bumped { NotifyAll(); }
      ExpiredGroups(s, dead, counts, orders, groups);
    }

    static method ExpireGroups(groups: Groups, dead: map<string, set<string>>, counts: map<string, nat>)
      returns (result: Groups, bumped: bool, ghost orders: map<string, seq<string>>)
      ensures forall g :: g in groups ==> Expired(groups[g], DeadIn(dead, g), counts, orders, g, Lookup(result, g))
      ensures forall g :: g !in groups ==> g !in result
      ensures bumped <==> exists g :: g in groups && Loses(groups[g], DeadIn(dead, g))
    {
      var todo := groups.Keys;
      result, bumped, orders := groups, false, map[];
      while todo != {}
        invariant todo <= groups.Keys
        invariant forall g :: g in groups && g !in todo ==> Expired(groups[g], DeadIn(dead, g), counts, orders, g, Lookup(result, g))
        invariant forall g :: g !in groups ==> g !in result
        invariant bumped <==> exists g :: g in groups && g !in todo && Loses(groups[g], DeadIn(dead, g))
        decreases todo
      {
        var g :| g in todo;
        var og, order := ExpireOne(groups[g], DeadIn(dead, g), counts);
        ghost var orders0, result0 := orders, result;
        orders := orders[g := order];
        if Loses(groups[g], DeadIn(dead, g)) { bumped := true; }
        result := if og.None? then result - {g} else result[g := og.value];
        todo := todo - {g};
        forall h | h in groups && h !in todo ensures Expired(groups[h], DeadIn(dead, h), counts, orders, h, Lookup(result, h)) {
          if h != g { assert Expired(groups[h], DeadIn(dead, h), counts, orders0, h, Lookup(result0, h)); }
        }
      }
    }

    static method ExpireOne(group: Group, dead: set<string>, counts: map<string, nat>)
      returns (og: Option<Group>, ghost order: seq<string>)
      ensures Loses(group, dead) ==> IsOrder(order, Without(group.members, dead))
      ensures og == Expire(Some(group), dead, counts, order)
    {
      order := [];
      var after := group;
      if Loses(group, dead) {
        var ms;
        ms, order := ReassignMembers(Without(group.members, dead), counts);
        after := Group(Bump(group.generation), ms);
      }
      og := Present(after);
    }

    /** The checking half of `delete_group`; the lock is released before the removing half. */
    method CheckDelete(g: string) returns (error: nat)
      ensures error == DeleteCheck(groups, g)
      ensures Now() == Next(Now(), Label.CheckDelete(g))
    {
      GroupsAre(Now(), Label.CheckDelete(g), groups);
      if g in groups {
        if groups[g].members != map[] { return NON_EMPTY_GROUP; }
      }
      error := OK;
    }

    /** The removing half of `delete_group`. */
    method Delete(g: string)
      modifies this
      ensures Now() == Next(old(Now()), DeleteGroup(g))
    {
      ghost var s := Now();
      groups := groups - {g};
      GroupsAre(s, DeleteGroup(g), groups);
    }

    // ---------- joins ----------

    /** Whether the fence lets the request through now. */
    method IsFenced(r: Request) returns (b: bool)
      ensures b == Fenced(r, Lookup(groups, r.group))
    {
      b := (!Rejoins(r, Lookup(groups, r.group)) || r.changed) && !Open(Lookup(groups, r.group));
    }

    /** The answer to a fenced Join: error 9, nothing assigned. */
    method FencedResult(r: Request) returns (result: JoinResult)
      ensures AnswersFenced(result, r, groups)
    {
      var g := Base(Lookup(groups, r.group));
      var ids := LiveMemberIds(g.members);
      result := JoinResult(REBALANCE_IN_PROGRESS, g.generation, r.id, [], [], ids);
    }

    /** Refresh a live member or insert a new one. */
    method Complete(r: Request, uuid: string, counts: map<string, nat>) returns (result: JoinResult, ghost order: seq<string>)
      modifies this`groups
      ensures JoinOrder(r, Lookup(old(groups), r.group), uuid, order)
      ensures groups == old(groups)[r.group := CompleteJoin(r, Lookup(old(groups), r.group), uuid, counts, order)]
      ensures AnswersJoined(result, r, uuid, old(groups), groups)
    {
      ghost var og := Lookup(groups, r.group);
      var group, m, was;
      if Rejoins(r, Lookup(groups, r.group)) {
        m, was := r.id, groups[r.group].members[r.id].delivered;
        group, order := RefreshMember(groups[r.group], m, r.topics, r.changed, counts);
      } else {
        m, was := Joiner(r, uuid), [];
        group, order := InsertMember(Base(Lookup(groups, r.group)), m, r.topics, counts);
      }
      assert group == CompleteJoin(r, og, uuid, counts, order);
      groups := groups[r.group := group];
      var ids := LiveMemberIds(group.members);
      var assignment := group.members[m].assignment;
      result := JoinResult(OK, group.generation, m, assignment, PartitionDiff(was, assignment), ids);
    }

    static method RefreshMember(g: Group, m: string, topics: seq<string>, changed: bool, counts: map<string, nat>)
      returns (group: Group, ghost order: seq<string>)
      requires m in g.members
      ensures (changed ==> IsOrder(order, g.members)) && group == Rejoin(g, m, topics, changed, counts, order)
      ensures m in group.members
    {
      order := [];
      var ms := g.members[m := g.members[m].(topics := topics)];
      assert ms.Keys == g.members.Keys;
      var generation := g.generation;
      if changed {
        generation := Bump(generation);
        ms, order := ReassignMembers(ms, counts);
      }
      group := Group(generation, Deliver(ms, m));
    }

    static method InsertMember(g: Group, m: string, topics: seq<string>, counts: map<string, nat>)
      returns (group: Group, ghost order: seq<string>)
      ensures IsOrder(order, g.members[m := Fresh(topics)])
      ensures group == Group(Bump(g.generation), Deliver(Reassign(g.members[m := Fresh(topics)], counts, order), m))
      ensures m in group.members
    {
      var ms;
      ms, order := ReassignMembers(g.members[m := Fresh(topics)], counts);
      group := Group(Bump(g.generation), Deliver(ms, m));
    }

    /** Completes a Join the fence lets through, answers one that gave up, leaves the others waiting. */
    method Answer(r: Request, timedOut: bool, uuid: string, counts: map<string, nat>)
      returns (outcome: JoinOutcome, ghost order: seq<string>)
      modifies this`groups
      ensures Settles(r, timedOut, uuid, counts, order, old(groups), groups, outcome)
    {
      order, outcome := [], Waiting;
      var fenced := IsFenced(r);
      if !fenced {
        var result;
        result, order := Complete(r, uuid, counts);
        outcome := Done(result);
      } else if timedOut {
        var result := FencedResult(r);
        outcome := Done(result);
      }
    }

    /** The waiter counter and the queue when a Join arrives: a fenced one is counted, and parked unless its time is up. */
    method Arrive(tid: nat, r: Request, fenced: bool, timedOut: bool)
      modifies this`waiters, this`parked
      ensures waiters == WaitersOnArrival(old(waiters), r.group, fenced, timedOut)
      ensures parked == if fenced && !timedOut then old(parked)[tid := Parked(r, true)] else old(parked)
    {
      if fenced {
        waiters := IncWaiters(waiters, r.group);
        if timedOut { waiters := DecWaiters(waiters, r.group); } else { parked := parked[tid := Parked(r, true)]; }
      }
    }

    /** The same when a parked Join wakes: back to sleep, or off the queue. */
    method Depart(tid: nat, sleepsOn: bool)
      requires tid in parked
      modifies this`waiters, this`parked
      ensures waiters == if sleepsOn then old(waiters) else DecWaiters(old(waiters), old(parked)[tid].request.group)
      ensures parked == if sleepsOn then old(parked)[tid := old(parked)[tid].(asleep := true)] else old(parked) - {tid}
    {
      if sleepsOn {
        parked := parked[tid := parked[tid].(asleep := true)];
      } else {
        waiters := DecWaiters(waiters, parked[tid].request.group);
        parked := parked - {tid};
      }
    }

    /** A JoinGroup call up to its answer or its first wait. */
    method Join(tid: nat, g: string, memberId: string, instanceId: string, topics: seq<string>,
                timedOut: bool, uuid: string, counts: map<string, nat>)
      returns (outcome: JoinOutcome, ghost order: seq<string>)
      requires tid !in parked
      modifies this
      ensures Joins(old(Now()), JoinStart(tid, g, ResolveId(memberId, instanceId), topics, timedOut, uuid, counts, order), Now(), outcome)
    {
      ghost var s, id := Now(), ResolveId(memberId, instanceId);
      var r := MakeRequest(groups, g, ResolveId(memberId, instanceId), topics);
      var fenced := IsFenced(r);
      Arrive(tid, r, fenced, timedOut);
      outcome, order := Answer(r, timedOut, uuid, counts);
      JoinStarts(s, JoinStart(tid, g, id, topics, timedOut, uuid, counts, order), r, fenced, Now(), outcome);
    }

    /** A parked Join that was notified, or whose deadline passed, looks at the fence again. */
    method Wake(tid: nat, timedOut: bool, uuid: string, counts: map<string, nat>)
      returns (outcome: JoinOutcome, ghost order: seq<string>)
      requires tid in parked && (timedOut || !parked[tid].asleep)
      modifies this
      ensures Joins(old(Now()), JoinWake(tid, timedOut, uuid, counts, order), Now(), outcome)
    {
      ghost var s := Now();
      var r := parked[tid].request;
      var fenced := IsFenced(r);
      Depart(tid, fenced && !timedOut);
      outcome, order := Answer(r, timedOut, uuid, counts);
      JoinWakes(s, JoinWake(tid, timedOut, uuid, counts, order), r, fenced, Now(), outcome);
    }

    // ---------- queries ----------

    method CheckCommitFence(g: string, m: string, generation: nat) returns (error: nat)
      ensures error == CommitFence(groups, g, m, generation)
    {
      if g !in groups { return UNKNOWN_MEMBER_ID; }
      var group := groups[g];
      if m != "" && m !in group.members { return UNKNOWN_MEMBER_ID; }
      if generation != group.generation { return ILLEGAL_GENERATION; }
      if m != "" && group.members[m].synced != generation { return REBALANCE_IN_PROGRESS; }
      error := OK;
    }

    method Owns(g: string, m: string, t: string, p: nat) returns (o: Ownership)
      ensures o == MemberOwns(groups, g, m, t, p)
    {
      if g !in groups { return UnknownMember; }
      if m !in groups[g].members { return UnknownMember; }
      var list := groups[g].members[m].assignment;
      for i := 0 to |list|
        invariant (t, p) !in list[..i]
      {
        if list[i] == (t, p) { return Allow; }
      }
      o := NotAssigned;
    }
  }
}
