/**
 At most one member of a group owns a partition, over every run of the
 coordinator, and how list-installing SyncGroups are healed.
 */
module GroupOwnership {
  import opened Options
  import opened Assignor
  import opened StickyAssignor
  import opened MultiAssignor
  import opened MultiStickiness
  import opened Group

  /** No partition in two members' assignments. */
  ghost predicate DisjointMembers(members: Members) {
    forall a, b, x :: a in members && b in members && x in members[a].assignment && x in members[b].assignment ==> a == b
  }

  ghost predicate Disjoint(og: Option<Group>) { og.Some? ==> DisjointMembers(og.value.members) }

  lemma ReassignDisjoint(members: Members, counts: map<string, nat>, order: seq<string>)
    requires IsOrder(order, members)
    ensures DisjointMembers(Reassign(members, counts, order))
  {
    var inp := AssignorInput(members, counts, order);
    var r := Reassign(members, counts, order);
    forall a, b, x | a in r && b in r && x in r[a].assignment && x in r[b].assignment ensures a == b {
      assert a in IdSet(order) && b in IdSet(order);
      var i, j := IndexOf(order, a), IndexOf(order, b);
      MultiFacts(inp, i);
      MultiFacts(inp, j);
      assert x == (x.0, x.1);
      GetsUnique(inp, i, j, x.0, x.1);
    }
  }

  lemma SameAssignmentsDisjoint(a: Members, b: Members)
    requires DisjointMembers(a) && b.Keys <= a.Keys && forall m :: m in b ==> b[m].assignment == a[m].assignment
    ensures DisjointMembers(b)
  { }

  lemma RebalanceDisjoint(g: Group, counts: map<string, nat>, order: seq<string>)
    requires IsOrder(order, g.members)
    ensures Disjoint(Rebalance(g, counts, order))
  {
    ReassignDisjoint(g.members, counts, order);
  }

  lemma DeliverDisjoint(members: Members, m: string)
    requires m in members && DisjointMembers(members)
    ensures DisjointMembers(Deliver(members, m))
  {
    SameAssignmentsDisjoint(members, Deliver(members, m));
  }

  lemma RejoinDisjoint(g: Group, m: string, topics: seq<string>, changed: bool, counts: map<string, nat>, order: seq<string>)
    requires m in g.members && (changed ==> IsOrder(order, g.members))
    requires DisjointMembers(g.members) || changed
    ensures DisjointMembers(Rejoin(g, m, topics, changed, counts, order).members)
  {
    var ms := g.members[m := g.members[m].(topics := topics)];
    assert ms.Keys == g.members.Keys;
    if changed {
      ReassignDisjoint(ms, counts, order);
      DeliverDisjoint(Reassign(ms, counts, order), m);
    } else {
      SameAssignmentsDisjoint(g.members, ms);
      DeliverDisjoint(ms, m);
    }
  }

  lemma CompleteJoinDisjoint(r: Request, og: Option<Group>, uuid: string, counts: map<string, nat>, order: seq<string>)
    requires JoinOrder(r, og, uuid, order)
    requires Disjoint(og) || CompleteJoin(r, og, uuid, counts, order).generation != Base(og).generation
    ensures DisjointMembers(CompleteJoin(r, og, uuid, counts, order).members)
  {
    if Rejoins(r, og) {
      RejoinDisjoint(og.value, r.id, r.topics, r.changed, counts, order);
    } else {
      var ms := Base(og).members[Joiner(r, uuid) := Fresh(r.topics)];
      ReassignDisjoint(ms, counts, order);
      DeliverDisjoint(Reassign(ms, counts, order), Joiner(r, uuid));
    }
  }

  /** The only step that may write assignments the assignor did not compute. */
  predicate InstallsLists(l: Label, g: string) {
    l.SyncGroup? && l.group == g && l.lists != []
  }

  /** Group `g` exists after the step, under a generation it did not have before. */
  ghost predicate NewGeneration(s: State, l: Label, g: string)
    requires Enabled(s, l)
  {
    var og, og' := Lookup(s.groups, g), After(s, l, g);
    og'.Some? && (og.None? || og'.value.generation != og.value.generation)
  }

  lemma SyncKeepsAssignments(og: Option<Group>, m: string, generation: nat)
    requires Disjoint(og)
    ensures Disjoint(Sync(og, m, generation, []))
  {
    if SyncAccepted(og, m, generation) {
      SameAssignmentsDisjoint(og.value.members, Sync(og, m, generation, []).value.members);
    }
  }

  /** One step: disjointness survives everything but installed lists, and any new generation restores it. */
  lemma StepDisjoint(s: State, l: Label, g: string)
    requires Enabled(s, l)
    requires (Disjoint(Lookup(s.groups, g)) && !InstallsLists(l, g)) || NewGeneration(s, l, g)
    ensures Disjoint(After(s, l, g))
  {
    var og := Lookup(s.groups, g);
    match l {
      case JoinStart(_, _, _, _, _, uuid, counts, order) =>
        if Completes(s, l) && RequestOf(s, l).value.group == g {
          CompleteJoinDisjoint(RequestOf(s, l).value, og, uuid, counts, order);
        }
      case JoinWake(_, _, uuid, counts, order) =>
        if Completes(s, l) && RequestOf(s, l).value.group == g {
          CompleteJoinDisjoint(RequestOf(s, l).value, og, uuid, counts, order);
        }
      case Heartbeat(_, _, _) =>
      case SyncGroup(g', m, generation, lists) =>
        if g == g' && lists == [] { SyncKeepsAssignments(og, m, generation); }
      case LeaveGroup(g', m, counts, order) =>
        if g == g' && IsMember(og, m) {
          RebalanceDisjoint(og.value.(members := Without(og.value.members, {m})), counts, order);
        }
      case ExpireSessions(dead, counts, orders) =>
        if og.Some? && Loses(og.value, DeadIn(dead, g)) {
          RebalanceDisjoint(og.value.(members := Without(og.value.members, DeadIn(dead, g))), counts, OrderIn(orders, g));
        }
      case ExpireInner(dead) =>
        if og.Some? { SameAssignmentsDisjoint(og.value.members, Without(og.value.members, DeadIn(dead, g))); }
      case CheckDelete(_) =>
      case DeleteGroup(_) =>
    }
  }

  // ---------- installed lists ----------

  /** What `m` holds once `lists` are installed: the last list that names it, else what it had. */
  function Installed(lists: seq<(string, seq<TopicPartition>)>, m: string, was: seq<TopicPartition>): seq<TopicPartition> {
    if lists == [] then was
    else if lists[|lists| - 1].0 == m then lists[|lists| - 1].1
    else Installed(lists[..|lists| - 1], m, was)
  }

  /** No partition ends up with two members once `lists` are installed. */
  ghost predicate KeepApart(members: Members, lists: seq<(string, seq<TopicPartition>)>) {
    forall a, b, x | a in members && b in members ::
      x in Installed(lists, a, members[a].assignment) && x in Installed(lists, b, members[b].assignment) ==> a == b
  }

  lemma {:induction false} ApplyListsInstalls(members: Members, lists: seq<(string, seq<TopicPartition>)>, m: string)
    requires m in members
    ensures ApplyLists(members, lists)[m].assignment == Installed(lists, m, members[m].assignment)
  {
    if lists != [] { ApplyListsInstalls(members, lists[..|lists| - 1], m); }
  }

  /** An accepted SyncGroup leaves the assignments disjoint if and only if its lists keep them apart. */
  lemma SyncDisjointIff(og: Option<Group>, m: string, generation: nat, lists: seq<(string, seq<TopicPartition>)>)
    requires SyncAccepted(og, m, generation)
    ensures Disjoint(Sync(og, m, generation, lists)) <==> KeepApart(og.value.members, lists)
  {
    var was, now := og.value.members, Sync(og, m, generation, lists).value.members;
    assert now.Keys == was.Keys;
    forall a | a in was ensures now[a].assignment == Installed(lists, a, was[a].assignment) {
      ApplyListsInstalls(was, lists, a);
    }
  }

  /** Step `l` is not an accepted SyncGroup on `g` whose lists give a partition to two members. */
  ghost predicate InstallsApart(s: State, l: Label, g: string) {
    l.SyncGroup? && l.group == g && SyncAccepted(Lookup(s.groups, g), l.member, l.generation)
    ==> KeepApart(s.groups[g].members, l.lists)
  }

  /** From disjoint assignments a step leads to disjoint ones if and only if it is no such SyncGroup. */
  lemma StepDisjointIff(s: State, l: Label, g: string)
    requires Enabled(s, l) && Disjoint(Lookup(s.groups, g))
    ensures Disjoint(After(s, l, g)) <==> InstallsApart(s, l, g)
  {
    if l.SyncGroup? && l.group == g {
      if SyncAccepted(Lookup(s.groups, g), l.member, l.generation) {
        SyncDisjointIff(Lookup(s.groups, g), l.member, l.generation, l.lists);
      }
    } else {
      StepDisjoint(s, l, g);
    }
  }

  /** Lists that give one partition to two members make both pass the ownership check for it. */
  lemma OverlappingListsShareOwnership(s: State, g: string, a: string, b: string, x: TopicPartition)
    requires g in s.groups && a in s.groups[g].members && b in s.groups[g].members && a != b
    ensures var l := SyncGroup(g, a, s.groups[g].generation, [(a, [x]), (b, [x])]);
            && Enabled(s, l) && !InstallsApart(s, l, g)
            && MemberOwns(Next(s, l).groups, g, a, x.0, x.1) == Allow && MemberOwns(Next(s, l).groups, g, b, x.0, x.1) == Allow
  {
    var lists := [(a, [x]), (b, [x])];
    var l := SyncGroup(g, a, s.groups[g].generation, lists);
    assert Lookup(Next(s, l).groups, g) == After(s, l, g);
    ApplyListsInstalls(s.groups[g].members, lists, a);
    ApplyListsInstalls(s.groups[g].members, lists, b);
    assert lists[..1] == [(a, [x])];
    assert Installed(lists, a, s.groups[g].members[a].assignment) == [x];
    assert Installed(lists, b, s.groups[g].members[b].assignment) == [x];
    assert x == (x.0, x.1) && x in [x];
  }

  // ---------- runs ----------

  /** State `i + 1` is the result of step `i`. */
  ghost predicate StepAt(ss: seq<State>, ls: seq<Label>, i: nat)
    requires i < |ls| < |ss|
  {
    Enabled(ss[i], ls[i]) && ss[i + 1] == Next(ss[i], ls[i])
  }

  /** `ss` is the sequence of states of a run from the empty coordinator under the steps `ls`. */
  ghost predicate Run(ss: seq<State>, ls: seq<Label>) {
    && |ss| == |ls| + 1 && ss[0] == INITIAL
    && forall i :: 0 <= i < |ls| ==> StepAt(ss, ls, i)
  }

  /** Step `i` of a run, seen from group `g`. */
  lemma RunStep(ss: seq<State>, ls: seq<Label>, i: nat, g: string)
    requires Run(ss, ls) && i < |ls|
    ensures Enabled(ss[i], ls[i]) && Lookup(ss[i + 1].groups, g) == After(ss[i], ls[i], g)
  {
    assert StepAt(ss, ls, i);
  }

  /** Between states `i` and `i + 1`, group `g` came to a generation it did not have. */
  ghost predicate NewGenerationAt(ss: seq<State>, i: nat, g: string)
    requires i + 1 < |ss|
  {
    var og, og' := Lookup(ss[i].groups, g), Lookup(ss[i + 1].groups, g);
    og'.Some? && (og.None? || og'.value.generation != og.value.generation)
  }

  ghost predicate ApartAt(ss: seq<State>, ls: seq<Label>, j: nat, g: string)
    requires j < |ls| < |ss|
  {
    InstallsApart(ss[j], ls[j], g)
  }

  ghost predicate DisjointAt(ss: seq<State>, j: nat, g: string)
    requires j < |ss|
  {
    Disjoint(Lookup(ss[j].groups, g))
  }

  lemma {:induction false} DisjointFrom(ss: seq<State>, ls: seq<Label>, g: string, i: nat, k: nat)
    requires Run(ss, ls) && i <= k < |ss| && DisjointAt(ss, i, g)
    ensures (forall j :: i <= j <= k ==> DisjointAt(ss, j, g)) <==> (forall j :: i <= j < k ==> ApartAt(ss, ls, j, g))
    decreases k
  {
    if i < k {
      DisjointFrom(ss, ls, g, i, k - 1);
      if DisjointAt(ss, k - 1, g) { DisjointNext(ss, ls, g, k - 1); }
    }
  }

  lemma DisjointNext(ss: seq<State>, ls: seq<Label>, g: string, j: nat)
    requires Run(ss, ls) && j < |ls| && DisjointAt(ss, j, g)
    ensures DisjointAt(ss, j + 1, g) <==> ApartAt(ss, ls, j, g)
  {
    RunStep(ss, ls, j, g);
    StepDisjointIff(ss[j], ls[j], g);
  }

  /** At most one member of `g` passes the ownership check for any partition. */
  ghost predicate OneOwnerEach(groups: Groups, g: string) {
    forall a, b, t, p :: MemberOwns(groups, g, a, t, p) == Allow && MemberOwns(groups, g, b, t, p) == Allow ==> a == b
  }

  lemma OneOwnerIff(groups: Groups, g: string)
    ensures OneOwnerEach(groups, g) <==> Disjoint(Lookup(groups, g))
  {
    if OneOwnerEach(groups, g) && g in groups {
      var ms := groups[g].members;
      forall a, b, x | a in ms && b in ms && x in ms[a].assignment && x in ms[b].assignment ensures a == b {
        assert x == (x.0, x.1);
        assert MemberOwns(groups, g, a, x.0, x.1) == Allow && MemberOwns(groups, g, b, x.0, x.1) == Allow;
      }
    }
  }

  /**
   Over every run: ownership is unique in every state up to `k` if and only if
   no accepted SyncGroup before `k` installed lists that overlap.
   */
  lemma OwnershipUniqueIff(ss: seq<State>, ls: seq<Label>, k: nat, g: string)
    requires Run(ss, ls) && k < |ss|
    ensures (forall j :: 0 <= j <= k ==> OneOwnerEach(ss[j].groups, g)) <==> (forall j :: 0 <= j < k ==> ApartAt(ss, ls, j, g))
  {
    DisjointFrom(ss, ls, g, 0, k);
    forall j | 0 <= j <= k ensures OneOwnerEach(ss[j].groups, g) <==> DisjointAt(ss, j, g) {
      OneOwnerIff(ss[j].groups, g);
    }
  }

  /** In every state of a run whose installed lists keep members apart, at most one member passes the check for a partition. */
  lemma AtMostOneOwner(ss: seq<State>, ls: seq<Label>, k: nat, g: string, a: string, b: string, t: string, p: nat)
    requires Run(ss, ls) && k < |ss|
    requires forall j :: 0 <= j < k ==> ApartAt(ss, ls, j, g)
    requires MemberOwns(ss[k].groups, g, a, t, p) == Allow && MemberOwns(ss[k].groups, g, b, t, p) == Allow
    ensures a == b
  {
    OwnershipUniqueIff(ss, ls, k, g);
    assert OneOwnerEach(ss[k].groups, g);
  }

  lemma NewGenerationIsDisjoint(ss: seq<State>, ls: seq<Label>, i: nat, g: string)
    requires Run(ss, ls) && i < |ls| && NewGenerationAt(ss, i, g)
    ensures Disjoint(Lookup(ss[i + 1].groups, g))
  {
    RunStep(ss, ls, i, g);
    StepDisjoint(ss[i], ls[i], g);
  }

  /**
   Whatever lists were installed before, from a new generation on ownership is
   unique if and only if no lists installed since overlap.
   */
  lemma NewGenerationHeals(ss: seq<State>, ls: seq<Label>, i: nat, k: nat, g: string)
    requires Run(ss, ls) && i < k < |ss|
    requires NewGenerationAt(ss, i, g)
    ensures (forall j :: i < j <= k ==> OneOwnerEach(ss[j].groups, g)) <==> (forall j :: i < j < k ==> ApartAt(ss, ls, j, g))
  {
    NewGenerationIsDisjoint(ss, ls, i, g);
    DisjointFrom(ss, ls, g, i + 1, k);
    forall j | i < j <= k ensures OneOwnerEach(ss[j].groups, g) <==> DisjointAt(ss, j, g) {
      OneOwnerIff(ss[j].groups, g);
    }
  }

  // ---------- the assignor's laws seen from the group ----------

  lemma InputWithin(ma: Members, mb: Members, counts: map<string, nat>, oa: seq<string>, ob: seq<string>)
    requires IsOrder(oa, ma) && IsOrder(ob, mb) && ma.Keys <= mb.Keys
    requires forall m :: m in ma ==> ma[m].topics == mb[m].topics && AsSet(ma[m].assignment) == AsSet(mb[m].assignment)
    requires KnownCounts(ma, counts) == KnownCounts(mb, counts)
    ensures Within(AssignorInput(ma, counts, oa), AssignorInput(mb, counts, ob))
  {
    OrderedMembers(ma, oa);
    OrderedMembers(mb, ob);
  }

  /** With disjoint assignments a reassignment does not depend on HashMap iteration order. */
  lemma ReassignIgnoresIterationOrder(members: Members, counts: map<string, nat>, order: seq<string>, order': seq<string>)
    requires IsOrder(order, members) && IsOrder(order', members) && DisjointMembers(members)
    ensures Reassign(members, counts, order) == Reassign(members, counts, order')
  {
    var r, r' := Reassign(members, counts, order), Reassign(members, counts, order');
    forall m | m in members ensures r[m].assignment == r'[m].assignment {
      AssignedInAnyOrder(members, counts, order, order', m);
    }
    SameButAssignments(members, r, r');
  }

  lemma SameButAssignments(members: Members, r: Members, r': Members)
    requires r.Keys == r'.Keys == members.Keys
    requires forall m :: m in members ==> r[m] == members[m].(assignment := r[m].assignment)
    requires forall m :: m in members ==> r'[m] == members[m].(assignment := r'[m].assignment)
    requires forall m :: m in members ==> r[m].assignment == r'[m].assignment
    ensures r == r'
  { }

  lemma AssignedInAnyOrder(members: Members, counts: map<string, nat>, order: seq<string>, order': seq<string>, m: string)
    requires IsOrder(order, members) && IsOrder(order', members) && DisjointMembers(members) && m in members
    ensures Assigned(members, counts, order, m) == Assigned(members, counts, order', m)
  {
    InputWithin(members, members, counts, order, order');
    InputWithin(members, members, counts, order', order);
    DisjointInput(members, counts, order);
    assert m in IdSet(order) && m in IdSet(order');
    MultiIgnoresListingOrder(AssignorInput(members, counts, order), AssignorInput(members, counts, order'),
                             IndexOf(order, m), IndexOf(order', m));
  }

  lemma DisjointInput(members: Members, counts: map<string, nat>, order: seq<string>)
    requires IsOrder(order, members) && DisjointMembers(members)
    ensures DisjointPrior(AssignorInput(members, counts, order))
  {
    var a := AssignorInput(members, counts, order);
    OrderedMembers(members, order);
    forall i, j, x | 0 <= i < |a.previous| && 0 <= j < |a.previous| && x in a.previous[i] && x in a.previous[j] ensures i == j {
      assert a.ids[i] == a.ids[j];
    }
  }

  /** Topic `t` is held as an exact cover at the exact targets of its subscribers. */
  ghost predicate BalancedIn(members: Members, counts: map<string, nat>, order: seq<string>, t: string) {
    && IsOrder(order, members) && t in counts
    && var inp := AssignorInput(members, counts, order);
       ExactCover(counts[t], Ranks(TopicIds(inp, t)), Views(TopicPrevious(inp, t)))
  }

  /** Every reassignment leaves every known subscribed topic balanced. */
  lemma ReassignBalances(members: Members, counts: map<string, nat>, order: seq<string>, t: string)
    requires IsOrder(order, members) && t in counts && t in Subscribed(members)
    ensures BalancedIn(Reassign(members, counts, order), counts, order, t)
  {
    var inp := AssignorInput(members, counts, order);
    SubscriberListed(members, counts, order, t);
    ResultIsBalanced(inp, t);
    ReassignedInput(members, counts, order);
  }

  lemma SubscriberListed(members: Members, counts: map<string, nat>, order: seq<string>, t: string)
    requires IsOrder(order, members) && t in Subscribed(members)
    ensures Subscribers(AssignorInput(members, counts, order).topics, t) != []
  {
    var inp := AssignorInput(members, counts, order);
    OrderedMembers(members, order);
    var m :| m in members && t in members[m].topics;
    var i :| 0 <= i < |order| && order[i] == m;
    SubscribersFacts(inp.topics, t);
    assert i in Subscribers(inp.topics, t);
  }

  lemma ReassignedInput(members: Members, counts: map<string, nat>, order: seq<string>)
    requires IsOrder(order, members)
    ensures var inp := AssignorInput(members, counts, order);
            AssignorInput(Reassign(members, counts, order), counts, order) == inp.(previous := Multi(inp))
  {
    var r, previous := Reassign(members, counts, order), Multi(AssignorInput(members, counts, order));
    forall k | 0 <= k < |order| ensures order[k] in members && r[order[k]].assignment == previous[k] {
      ReassignedAt(members, counts, order, k);
    }
    InputWithLists(members, r, counts, order, previous);
  }

  lemma InputWithLists(members: Members, r: Members, counts: map<string, nat>, order: seq<string>, previous: seq<seq<TopicPartition>>)
    requires IsOrder(order, members) && r.Keys == members.Keys && |previous| == |order|
    requires forall m :: m in members ==> r[m].topics == members[m].topics
    requires forall k :: 0 <= k < |order| ==> order[k] in members && r[order[k]].assignment == previous[k]
    ensures AssignorInput(r, counts, order) == AssignorInput(members, counts, order).(previous := previous)
  {
    assert Subscribed(r) == Subscribed(members);
  }

  lemma ReassignedAt(members: Members, counts: map<string, nat>, order: seq<string>, k: nat)
    requires IsOrder(order, members) && k < |order|
    ensures order[k] in members
    ensures Reassign(members, counts, order)[order[k]].assignment == Multi(AssignorInput(members, counts, order))[k]
  {
    OrderedMembers(members, order);
    assert IndexOf(order, order[k]) == k;
  }

  /**
   A new member joins a group holding topic `t` balanced: whatever any old
   member has of `t` afterwards, it had before.
   */
  lemma JoinTakesOnlyForTheJoiner(members: Members, joiner: string, topics: seq<string>, counts: map<string, nat>,
                                  order: seq<string>, order': seq<string>, t: string, m: string, p: nat)
    requires joiner !in members && m in members && BalancedIn(members, counts, order, t)
    requires IsOrder(order', members[joiner := Fresh(topics)])
    requires (t, p) in Reassign(members[joiner := Fresh(topics)], counts, order')[m].assignment
    ensures (t, p) in members[m].assignment
  {
    var ms := members[joiner := Fresh(topics)];
    var b := AssignorInput(ms, counts, order');
    var a := AssignorInput(members, counts, order).(counts := b.counts);
    assert m in IdSet(order) && m in IdSet(order');
    var i, i' := IndexOf(order, m), IndexOf(order', m);
    MultiFacts(b, i');
    GetsValid(b, i', t, p);
    SameTopicLists(AssignorInput(members, counts, order), a, t);
    JoinedInputs(members, joiner, topics, counts, order, order');
    JoinMovesOnlyToNewcomer(a, b, joiner, t, i, i', p);
  }

  lemma JoinedInputs(members: Members, joiner: string, topics: seq<string>, counts: map<string, nat>,
                     order: seq<string>, order': seq<string>)
    requires joiner !in members && IsOrder(order, members) && IsOrder(order', members[joiner := Fresh(topics)])
    ensures var b := AssignorInput(members[joiner := Fresh(topics)], counts, order');
            JoinedBy(AssignorInput(members, counts, order).(counts := b.counts), b, joiner)
  {
    OrderedMembers(members, order);
    OrderedMembers(members[joiner := Fresh(topics)], order');
  }

  lemma SameTopicLists(a: Input, b: Input, t: string)
    requires a.Valid() && b.Valid() && a.ids == b.ids && a.topics == b.topics && a.previous == b.previous
    ensures TopicIds(a, t) == TopicIds(b, t) && TopicPrevious(a, t) == TopicPrevious(b, t)
  { }

  /** When members leave or expire, a surviving subscriber of a balanced topic keeps all it had of it. */
  lemma SurvivorsKeepTheirs(members: Members, gone: set<string>, counts: map<string, nat>,
                            order: seq<string>, order': seq<string>, t: string, m: string, p: nat)
    requires m in members && m !in gone && t in members[m].topics && BalancedIn(members, counts, order, t)
    requires IsOrder(order', Without(members, gone)) && (t, p) in members[m].assignment
    ensures (t, p) in Reassign(Without(members, gone), counts, order')[m].assignment
  {
    var rest := Without(members, gone);
    var a := AssignorInput(rest, counts, order');
    var b := AssignorInput(members, counts, order).(counts := a.counts);
    OrderedMembers(members, order);
    OrderedMembers(rest, order');
    assert m in IdSet(order) && m in IdSet(order');
    var i, i' := IndexOf(order', m), IndexOf(order, m);
    assert t in Subscribed(rest);
    SameTopicLists(AssignorInput(members, counts, order), b, t);
    LeaveKeepsSurvivors(a, b, t, i, i', p);
    MultiFacts(a, i);
  }
}
