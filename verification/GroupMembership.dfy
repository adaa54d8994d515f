/**
 What each step does to a group, said of the groups before and after it: who
 is in, who is out, who subscribes to what, who owns what, and what the caller
 of a Join is told.
 */
module GroupMembership {
  import opened Options
  import opened MultiAssignor
  import opened Group
  import opened GroupOwnership
  import opened GroupFence
  import opened GroupStability
  import opened GroupCoordinator

  ghost function MembersOf(og: Option<Group>): Members { if og.Some? then og.value.members else map[] }

  /** Everybody but `m` has the subscription, the delivered list and the confirmation it had. */
  ghost predicate OthersKept(was: Members, now: Members, m: string) {
    forall x :: x in now && x != m ==>
      x in was && now[x].topics == was[x].topics && now[x].delivered == was[x].delivered && now[x].synced == was[x].synced
  }

  /** The ownership check after a step. */
  lemma OwnsAfter(s: State, l: Label, g: string, m: string, t: string, p: nat)
    requires Enabled(s, l)
    ensures var og, owns := After(s, l, g), MemberOwns(Next(s, l).groups, g, m, t, p);
            && (owns == Allow <==> IsMember(og, m) && (t, p) in og.value.members[m].assignment)
            && (owns == UnknownMember <==> !IsMember(og, m))
  {
    assert Lookup(Next(s, l).groups, g) == After(s, l, g);
  }

  // ---------- coverage ----------

  lemma SameSubscriptions(a: Members, b: Members)
    requires SameShares(a, b)
    ensures Subscribed(a) == Subscribed(b)
  { }

  lemma ReassignCovers(members: Members, counts: map<string, nat>, order: seq<string>, t: string, p: nat) returns (m: string)
    requires IsOrder(order, members) && t in counts && t in Subscribed(members) && p < counts[t]
    ensures m in members && t in members[m].topics && (t, p) in Reassign(members, counts, order)[m].assignment
  {
    var inp := AssignorInput(members, counts, order);
    SubscriberListed(members, counts, order, t);
    var i := GetsCover(inp, t, p);
    GetsValid(inp, i, t, p);
    MultiFacts(inp, i);
    ReassignedAt(members, counts, order, i);
    m := order[i];
  }

  lemma ReassignKeepsSubscriptions(members: Members, counts: map<string, nat>, order: seq<string>)
    requires IsOrder(order, members)
    ensures Subscribed(Reassign(members, counts, order)) == Subscribed(members)
  { }

  /** A step to a new generation leaves every partition of every known subscribed topic with a subscriber. */
  lemma StepCovers(s: State, l: Label, g: string, t: string, p: nat) returns (m: string)
    requires Enabled(s, l) && NewGeneration(s, l, g)
    requires t in Subscribed(After(s, l, g).value.members) && t in CountsOf(l) && p < CountsOf(l)[t]
    ensures IsMember(After(s, l, g), m) && t in After(s, l, g).value.members[m].topics
    ensures MemberOwns(Next(s, l).groups, g, m, t, p) == Allow
  {
    var members, order := StepReassigns(s, l, g);
    var r := Reassign(members, CountsOf(l), order);
    SameSubscriptions(r, After(s, l, g).value.members);
    ReassignKeepsSubscriptions(members, CountsOf(l), order);
    m := ReassignCovers(members, CountsOf(l), order, t, p);
    OwnsAfter(s, l, g, m, t, p);
  }

  /** Over every run: from a new generation until the next step, every partition of a known subscribed topic has exactly one owner. */
  lemma NewGenerationCovers(ss: seq<State>, ls: seq<Label>, i: nat, g: string, t: string, p: nat) returns (m: string)
    requires Run(ss, ls) && i < |ls| && NewGenerationAt(ss, i, g)
    requires t in Subscribed(ss[i + 1].groups[g].members) && t in CountsOf(ls[i]) && p < CountsOf(ls[i])[t]
    ensures MemberOwns(ss[i + 1].groups, g, m, t, p) == Allow
    ensures OneOwnerEach(ss[i + 1].groups, g)
    ensures IsMember(Lookup(ss[i + 1].groups, g), m) && t in ss[i + 1].groups[g].members[m].topics
  {
    RunStep(ss, ls, i, g);
    assert StepAt(ss, ls, i);
    m := StepCovers(ss[i], ls[i], g, t, p);
    NewGenerationIsDisjoint(ss, ls, i, g);
    OneOwnerIff(ss[i + 1].groups, g);
  }

  // ---------- joins ----------

  /** Group `og` became `now` by the completed Join of `m`, who asked for `topics`. */
  ghost predicate Joined(og: Option<Group>, now: Group, m: string, topics: seq<string>) {
    && now.members.Keys == MembersOf(og).Keys + {m} && now.members[m].topics == topics
    && now.members[m].delivered == now.members[m].assignment && OthersKept(MembersOf(og), now.members, m)
  }

  lemma RejoinTakesEffect(g: Group, m: string, topics: seq<string>, changed: bool, counts: map<string, nat>, order: seq<string>)
    requires m in g.members && (changed ==> IsOrder(order, g.members))
    ensures Joined(Some(g), Rejoin(g, m, topics, changed, counts, order), m, topics)
  { }

  lemma InsertTakesEffect(og: Option<Group>, m: string, topics: seq<string>, counts: map<string, nat>, order: seq<string>)
    requires IsOrder(order, Base(og).members[m := Fresh(topics)])
    ensures Joined(og, Insert(og, m, topics, counts, order), m, topics)
  { }

  lemma CompletedJoin(r: Request, og: Option<Group>, uuid: string, counts: map<string, nat>, order: seq<string>)
    requires JoinOrder(r, og, uuid, order) && (r.live ==> r.id != "")
    ensures Joined(og, CompleteJoin(r, og, uuid, counts, order), if r.id == "" then uuid else r.id, r.topics)
  {
    if Rejoins(r, og) {
      RejoinTakesEffect(og.value, r.id, r.topics, r.changed, counts, order);
    } else {
      InsertTakesEffect(og, Joiner(r, uuid), r.topics, counts, order);
    }
  }

  /** The generation a completed Join leads to. */
  function JoinedGeneration(og: Option<Group>, stays: bool): nat {
    if og.Some? && stays then og.value.generation else Bump(Base(og).generation)
  }

  lemma RejoinGeneration(g: Group, m: string, topics: seq<string>, changed: bool, counts: map<string, nat>, order: seq<string>)
    requires m in g.members && (changed ==> IsOrder(order, g.members))
    ensures Rejoin(g, m, topics, changed, counts, order).generation == if changed then Bump(g.generation) else g.generation
  { }

  lemma InsertGeneration(og: Option<Group>, m: string, topics: seq<string>, counts: map<string, nat>, order: seq<string>)
    requires IsOrder(order, Base(og).members[m := Fresh(topics)])
    ensures Insert(og, m, topics, counts, order).generation == Bump(Base(og).generation)
  { }

  lemma CompletedGeneration(r: Request, og: Option<Group>, uuid: string, counts: map<string, nat>, order: seq<string>)
    requires JoinOrder(r, og, uuid, order)
    ensures CompleteJoin(r, og, uuid, counts, order).generation == JoinedGeneration(og, IsMember(og, r.id) && r.live && !r.changed)
  {
    if Rejoins(r, og) {
      RejoinGeneration(og.value, r.id, r.topics, r.changed, counts, order);
    } else {
      InsertGeneration(og, Joiner(r, uuid), r.topics, counts, order);
    }
  }

  lemma CompletesAs(s: State, l: Label)
    requires Enabled(s, l) && l.JoinStart? && Completes(s, l)
    ensures var og, r := Lookup(s.groups, l.group), MakeRequest(s.groups, l.group, l.id, l.topics);
            && JoinOrder(r, og, l.uuid, l.order) && After(s, l, l.group) == Some(CompleteJoin(r, og, l.uuid, l.counts, l.order))
            && (r.live ==> r.id != "") && r.topics == l.topics && r.id == l.id
  { }

  /** A Join that completes at once makes the caller a member for the topics it named, and touches nobody else's. */
  lemma JoinTakesEffect(s: State, l: Label)
    requires Enabled(s, l) && l.JoinStart? && Completes(s, l)
    ensures After(s, l, l.group).Some?
    ensures Joined(Lookup(s.groups, l.group), After(s, l, l.group).value, if l.id == "" then l.uuid else l.id, l.topics)
  {
    CompletesAs(s, l);
    CompletedJoin(MakeRequest(s.groups, l.group, l.id, l.topics), Lookup(s.groups, l.group), l.uuid, l.counts, l.order);
  }

  /** It leads to a new generation unless the caller was a member already and asked for what it had. */
  lemma JoinAdvances(s: State, l: Label)
    requires Enabled(s, l) && l.JoinStart? && Completes(s, l)
    ensures After(s, l, l.group).Some?
    ensures var og := Lookup(s.groups, l.group);
            After(s, l, l.group).value.generation ==
            JoinedGeneration(og, l.id != "" && IsMember(og, l.id) && og.value.members[l.id].topics == l.topics)
  {
    CompletesAs(s, l);
    CompletedGeneration(MakeRequest(s.groups, l.group, l.id, l.topics), Lookup(s.groups, l.group), l.uuid, l.counts, l.order);
  }

  /** A Join completes at once exactly for a live member with its old topics, a group nobody is in, or a fully confirmed group. */
  lemma JoinCompletesIff(s: State, l: Label)
    requires l.JoinStart?
    ensures Completes(s, l) <==>
            || l.group !in s.groups
            || (l.id != "" && l.id in s.groups[l.group].members && s.groups[l.group].members[l.id].topics == l.topics)
            || forall m :: m in s.groups[l.group].members ==> s.groups[l.group].members[m].synced == s.groups[l.group].generation
  { }

  /** The Join parked under `tid` was started at step `i`, asking for the same, and was fenced. */
  ghost predicate ParkedAt(ss: seq<State>, ls: seq<Label>, i: nat, k: nat, tid: nat)
    requires k < |ss| && tid in ss[k].parked && |ls| < |ss|
  {
    && i < k && i < |ls| && ls[i].JoinStart? && ls[i].tid == tid && !Completes(ss[i], ls[i])
    && ss[k].parked[tid].request == MakeRequest(ss[i].groups, ls[i].group, ls[i].id, ls[i].topics)
  }

  lemma {:induction false} ParkedAsAsked(ss: seq<State>, ls: seq<Label>, k: nat, tid: nat) returns (i: nat)
    requires Run(ss, ls) && k < |ss| && tid in ss[k].parked
    ensures ParkedAt(ss, ls, i, k, tid)
  {
    assert StepAt(ss, ls, k - 1);
    if ls[k - 1].JoinStart? && ls[k - 1].tid == tid {
      i := k - 1;
    } else {
      i := ParkedAsAsked(ss, ls, k - 1, tid);
    }
  }

  /**
   Over every run: the caller of a Join completed at step `k`, now or after
   being parked, is then a member for exactly the topics it named when it
   called, and nobody else's subscription changed.
   */
  lemma CompletedJoinTakesEffect(ss: seq<State>, ls: seq<Label>, k: nat) returns (i: nat)
    requires Run(ss, ls) && k < |ls| && IsJoin(ls[k]) && Completes(ss[k], ls[k])
    ensures i <= k && ls[i].JoinStart? && ls[i].tid == ls[k].tid && ls[i].group in ss[k + 1].groups
    ensures var r := RequestOf(ss[k], ls[k]).value; r.group == ls[i].group && r.id == ls[i].id && (r.live ==> r.id != "")
    ensures var g, id := ls[i].group, ls[i].id;
            Joined(Lookup(ss[k].groups, g), ss[k + 1].groups[g], if id == "" then ls[k].uuid else id, ls[i].topics)
  {
    assert StepAt(ss, ls, k);
    var r := RequestOf(ss[k], ls[k]).value;
    if ls[k].JoinStart? { i := k; } else { i := ParkedAsAsked(ss, ls, k, ls[k].tid); }
    RunStep(ss, ls, k, r.group);
    CompletedJoin(r, Lookup(ss[k].groups, r.group), ls[k].uuid, ls[k].counts, ls[k].order);
  }

  /** The first member of a group owns every partition of every known topic it asked for. */
  lemma FirstMemberOwnsAll(s: State, l: Label, t: string, p: nat)
    requires Enabled(s, l) && l.JoinStart? && l.group !in s.groups && t in l.topics && t in l.counts && p < l.counts[t]
    ensures MemberOwns(Next(s, l).groups, l.group, if l.id == "" then l.uuid else l.id, t, p) == Allow
  {
    JoinCompletesIff(s, l);
    JoinTakesEffect(s, l);
    var members := After(s, l, l.group).value.members;
    assert t in members[if l.id == "" then l.uuid else l.id].topics;
    var m := StepCovers(s, l, l.group, t, p);
    assert m in members.Keys;
  }

  /** A live caller has an id. */
  ghost predicate Named(s: State, l: Label) { RequestOf(s, l).Some? && RequestOf(s, l).value.live ==> RequestOf(s, l).value.id != "" }

  /** What a completed Join answers: the member's id, the group's generation and ids, and exactly what the member now owns. */
  lemma AnswerListsOwnership(s: State, l: Label, after: State, outcome: JoinOutcome, t: string, p: nat)
    requires Joins(s, l, after, outcome) && Completes(s, l) && Named(s, l)
    ensures outcome.Done? && outcome.result.error == 0
    ensures var r, result := RequestOf(s, l).value, outcome.result;
            && result.memberId == (if r.id == "" then l.uuid else r.id) && r.group in after.groups
            && result.generation == after.groups[r.group].generation
            && ((t, p) in result.assignment <==> MemberOwns(after.groups, r.group, result.memberId, t, p) == Allow)
  { }

  // ---------- what a re-join is told it lost ----------

  /** No Join of `m` in `g` completes at step `j`. */
  ghost predicate NoJoinOf(s: State, l: Label, g: string, m: string) {
    IsJoin(l) && Completes(s, l) && RequestOf(s, l).value.group == g ==>
      m != if RequestOf(s, l).value.id == "" then l.uuid else RequestOf(s, l).value.id
  }

  lemma {:induction false} ListsKeepDelivered(members: Members, lists: seq<(string, seq<TopicPartition>)>, m: string)
    requires m in members
    ensures ApplyLists(members, lists)[m].delivered == members[m].delivered
  {
    if lists != [] { ListsKeepDelivered(members, lists[..|lists| - 1], m); }
  }

  lemma RunNamed(ss: seq<State>, ls: seq<Label>, k: nat)
    requires Run(ss, ls) && k < |ls|
    ensures Named(ss[k], ls[k])
  {
    assert StepAt(ss, ls, k);
    if ls[k].JoinWake? { var i := ParkedAsAsked(ss, ls, k, ls[k].tid); }
  }

  lemma StepKeepsDelivered(s: State, l: Label, g: string, m: string)
    requires Enabled(s, l) && Named(s, l) && NoJoinOf(s, l, g, m) && IsMember(Lookup(s.groups, g), m) && IsMember(After(s, l, g), m)
    ensures After(s, l, g).value.members[m].delivered == s.groups[g].members[m].delivered
  {
    if IsJoin(l) {
      if Completes(s, l) && RequestOf(s, l).value.group == g {
        CompletedJoin(RequestOf(s, l).value, Lookup(s.groups, g), l.uuid, l.counts, l.order);
      }
    } else if l.SyncGroup? {
      ListsKeepDelivered(s.groups[g].members, l.lists, m);
    }
  }

  /** From state `i` to state `k`, `m` is in `g` and no Join of `m` completes. */
  ghost predicate NoJoinBetween(ss: seq<State>, ls: seq<Label>, i: nat, k: nat, g: string, m: string)
    requires |ss| == |ls| + 1 && k < |ss|
  {
    && (forall j :: i <= j <= k ==> IsMember(Lookup(ss[j].groups, g), m))
    && (forall j :: i <= j < k ==> NoJoinOf(ss[j], ls[j], g, m))
  }

  lemma {:induction false} DeliveredStays(ss: seq<State>, ls: seq<Label>, i: nat, k: nat, g: string, m: string)
    requires Run(ss, ls) && i <= k < |ss| && NoJoinBetween(ss, ls, i, k, g, m)
    ensures IsMember(Lookup(ss[i].groups, g), m) && IsMember(Lookup(ss[k].groups, g), m)
    ensures ss[k].groups[g].members[m].delivered == ss[i].groups[g].members[m].delivered
    decreases k
  {
    assert IsMember(Lookup(ss[i].groups, g), m) && IsMember(Lookup(ss[k].groups, g), m);
    if i < k {
      DeliveredStays(ss, ls, i, k - 1, g, m);
      RunStep(ss, ls, k - 1, g);
      RunNamed(ss, ls, k - 1);
      StepKeepsDelivered(ss[k - 1], ls[k - 1], g, m);
    }
  }

  /** A re-join is told to give up what was delivered last and is not assigned now. */
  lemma RevokedFrom(s: State, l: Label, after: State, outcome: JoinOutcome, g: string, m: string, x: TopicPartition)
    requires Joins(s, l, after, outcome) && Completes(s, l) && RequestOf(s, l).value.group == g
    requires Rejoins(RequestOf(s, l).value, Lookup(s.groups, g)) && RequestOf(s, l).value.id == m
    ensures outcome.Done? && m in s.groups[g].members
    ensures x in outcome.result.revoked <==> x in s.groups[g].members[m].delivered && x !in outcome.result.assignment
  { }

  /** What a completed Join assigns counts as delivered. */
  lemma DeliveredAt(ss: seq<State>, ls: seq<Label>, i: nat, g: string, m: string)
    requires Run(ss, ls) && i < |ls| && IsJoin(ls[i]) && Completes(ss[i], ls[i])
    requires RequestOf(ss[i], ls[i]).value.group == g && !NoJoinOf(ss[i], ls[i], g, m)
    ensures IsMember(Lookup(ss[i + 1].groups, g), m)
    ensures ss[i + 1].groups[g].members[m].delivered == ss[i + 1].groups[g].members[m].assignment
  {
    var a := CompletedJoinTakesEffect(ss, ls, i);
  }

  /**
   Over every run: a member that joined at step `i` and stayed is told, at its
   next completed Join, at step `k`, to give up exactly what it was assigned
   then and is not assigned now.
   */
  lemma RevokedIsWhatWasLost(ss: seq<State>, ls: seq<Label>, i: nat, k: nat, g: string, m: string, outcome: JoinOutcome, x: TopicPartition)
    requires Run(ss, ls) && i < k < |ls|
    requires IsJoin(ls[i]) && Completes(ss[i], ls[i]) && RequestOf(ss[i], ls[i]).value.group == g && !NoJoinOf(ss[i], ls[i], g, m)
    requires NoJoinBetween(ss, ls, i + 1, k, g, m)
    requires Joins(ss[k], ls[k], ss[k + 1], outcome) && Completes(ss[k], ls[k]) && RequestOf(ss[k], ls[k]).value.group == g
    requires Rejoins(RequestOf(ss[k], ls[k]).value, Lookup(ss[k].groups, g)) && RequestOf(ss[k], ls[k]).value.id == m
    ensures m in ss[i + 1].groups[g].members
    ensures x in outcome.result.revoked <==> x in ss[i + 1].groups[g].members[m].assignment && x !in outcome.result.assignment
  {
    DeliveredAt(ss, ls, i, g, m);
    DeliveredStays(ss, ls, i + 1, k, g, m);
    RevokedFrom(ss[k], ls[k], ss[k + 1], outcome, g, m, x);
  }

  // ---------- confirming ----------

  lemma {:induction false} ListsKeepTopics(members: Members, lists: seq<(string, seq<TopicPartition>)>, m: string)
    requires m in members
    ensures ApplyLists(members, lists)[m].topics == members[m].topics
  {
    if lists != [] { ListsKeepTopics(members, lists[..|lists| - 1], m); }
  }

  /** An accepted SyncGroup confirms for its caller alone, installs the last list that names a member, and changes nothing else. */
  lemma SyncTakesEffect(s: State, l: Label, x: string)
    requires l.SyncGroup? && SyncAccepted(Lookup(s.groups, l.group), l.member, l.generation) && x in s.groups[l.group].members
    ensures var was, now := s.groups[l.group], After(s, l, l.group);
            && now.Some? && now.value.generation == was.generation && now.value.members.Keys == was.members.Keys
            && now.value.members[x] == Member(was.members[x].topics, Installed(l.lists, x, was.members[x].assignment), was.members[x].delivered,
                                              if x == l.member then was.generation else was.members[x].synced)
  {
    ListsKeepTopics(s.groups[l.group].members, l.lists, x);
    ListsKeepDelivered(s.groups[l.group].members, l.lists, x);
    ApplyListsKeepsSynced(s.groups[l.group].members, l.lists, x);
    ApplyListsInstalls(s.groups[l.group].members, l.lists, x);
  }

  // ---------- leaving and expiring ----------

  /** The generation after `generation`. */
  lemma BumpIsNew(generation: nat)
    ensures Bump(generation) == (generation + 1) % 0x1_0000_0000 && Bump(generation) != generation
  { }

  /** `now` is `was` without the members in `gone`, who were some. */
  ghost predicate Left(was: Group, now: Option<Group>, gone: set<string>) {
    && (now.None? <==> was.members.Keys <= gone)
    && (now.Some? ==>
          && now.value.members.Keys == was.members.Keys - gone
          && (forall x :: x in now.value.members ==> now.value.members[x] == was.members[x].(assignment := now.value.members[x].assignment)))
  }

  /** The same, under a new generation. */
  ghost predicate Renewed(was: Group, now: Option<Group>, gone: set<string>) {
    Left(was, now, gone) && (now.Some? ==> now.value.generation == (was.generation + 1) % 0x1_0000_0000 != was.generation)
  }

  lemma RebalancedRest(g: Group, gone: set<string>, counts: map<string, nat>, order: seq<string>)
    requires IsOrder(order, Without(g.members, gone))
    ensures Renewed(g, Rebalance(g.(members := Without(g.members, gone)), counts, order), gone)
  {
    BumpIsNew(g.generation);
    var rest := Without(g.members, gone);
    AllGone(g.members, gone, Reassign(rest, counts, order));
  }

  lemma AllGone(members: Members, gone: set<string>, rest: Members)
    requires rest.Keys == members.Keys - gone
    ensures rest == map[] <==> members.Keys <= gone
  {
    if members.Keys <= gone { assert rest.Keys == {}; } else {
      var m :| m in members.Keys && m !in gone;
      assert m in rest.Keys;
    }
  }

  /** An accepted leave: the member is out and owns nothing; the last one takes the group along; otherwise a new generation. */
  lemma LeaveTakesEffect(s: State, l: Label, t: string, p: nat)
    requires Enabled(s, l) && l.LeaveGroup? && IsMember(Lookup(s.groups, l.group), l.member)
    ensures Renewed(s.groups[l.group], After(s, l, l.group), {l.member})
    ensures MemberOwns(Next(s, l).groups, l.group, l.member, t, p) == UnknownMember
  {
    RebalancedRest(s.groups[l.group], {l.member}, l.counts, l.order);
    OwnsAfter(s, l, l.group, l.member, t, p);
  }

  /** What the leaver owned of a known topic somebody else subscribes to goes to a member that stays. */
  lemma LeaverIsReplaced(s: State, l: Label, x: string, t: string, p: nat) returns (m: string)
    requires Enabled(s, l) && l.LeaveGroup? && IsMember(Lookup(s.groups, l.group), l.member)
    requires x in s.groups[l.group].members && x != l.member && t in s.groups[l.group].members[x].topics
    requires t in l.counts && p < l.counts[t]
    ensures m in s.groups[l.group].members && m != l.member && t in s.groups[l.group].members[m].topics
    ensures MemberOwns(Next(s, l).groups, l.group, m, t, p) == Allow
  {
    LeaveTakesEffect(s, l, t, p);
    var now := After(s, l, l.group);
    assert x in now.value.members && now.value.members[x].topics == s.groups[l.group].members[x].topics;
    assert t in Subscribed(now.value.members);
    m := StepCovers(s, l, l.group, t, p);
    assert m in now.value.members.Keys;
  }

  /** What expiry makes of a group: the dead are out; if there were any the rest is renewed, if not it is as it was. */
  ghost predicate LostTo(was: Group, now: Option<Group>, dead: set<string>) {
    Left(was, now, dead) && if was.members.Keys * dead != {} then Renewed(was, now, dead) else now.Some? ==> now == Some(was)
  }

  lemma ExpiredGroup(g: Group, dead: set<string>, counts: map<string, nat>, order: seq<string>)
    requires Loses(g, dead) ==> IsOrder(order, Without(g.members, dead))
    ensures LostTo(g, Expire(Some(g), dead, counts, order), dead)
  {
    if Loses(g, dead) {
      RebalancedRest(g, dead, counts, order);
    } else {
      NobodyOf(g.members.Keys, dead);
      AllGone(g.members, dead, g.members);
    }
  }

  lemma NobodyOf(keys: set<string>, dead: set<string>)
    requires keys * dead == {}
    ensures keys - dead == keys
  {
    forall m | m in keys ensures m !in dead { assert m !in keys * dead; }
  }

  lemma ExpireTakesEffect(s: State, l: Label, g: string)
    requires Enabled(s, l) && l.ExpireSessions? && g in s.groups
    ensures LostTo(s.groups[g], After(s, l, g), if g in l.dead then l.dead[g] else {})
  {
    ExpiredGroup(s.groups[g], DeadIn(l.dead, g), l.counts, OrderIn(l.orders, g));
  }

  /** The inner expiry: the dead are out, and nothing else about the group changes. */
  lemma DropTakesEffect(s: State, l: Label, g: string)
    requires l.ExpireInner? && g in s.groups
    ensures var dead := if g in l.dead then l.dead[g] else {};
            && (After(s, l, g).None? <==> s.groups[g].members.Keys <= dead)
            && (After(s, l, g).Some? ==>
                  && After(s, l, g).value.generation == s.groups[g].generation
                  && After(s, l, g).value.members == s.groups[g].members - dead)
  {
    var dead := DeadIn(l.dead, g);
    var rest := Without(s.groups[g].members, dead);
    assert rest == s.groups[g].members - dead;
    AllGone(s.groups[g].members, dead, rest);
  }

  /** A step on one group leaves the others alone. */
  lemma OtherGroupsUntouched(s: State, l: Label, g: string)
    requires Enabled(s, l) && !l.ExpireSessions? && !l.ExpireInner?
    requires if IsJoin(l) then RequestOf(s, l).Some? && RequestOf(s, l).value.group != g else l.group != g
    ensures Lookup(Next(s, l).groups, g) == Lookup(s.groups, g)
  { }

  // ---------- ids and commits ----------

  /** An explicit id is taken as it is; without one, members with different instance ids get different ids. */
  lemma ResolvedIds(memberId: string, a: string, b: string)
    ensures memberId != "" ==> ResolveId(memberId, a) == memberId
    ensures ResolveId("", a) == ResolveId("", b) <==> a == b
    ensures ResolveId("", a) == "" <==> a == ""
    ensures a != "" ==> "static:" <= ResolveId("", a)
  {
    if ResolveId("", a) == ResolveId("", b) {
      assert a == "" <==> ResolveId("", a) == "";
      if a != "" && b != "" { assert a == (STATIC_PREFIX + a)[|STATIC_PREFIX|..] == (STATIC_PREFIX + b)[|STATIC_PREFIX|..] == b; }
    }
  }

  /** Which code a commit gets. */
  lemma CommitCodes(groups: Groups, g: string, m: string, generation: nat)
    ensures var code := CommitFence(groups, g, m, generation);
            var known := g in groups && (m == "" || m in groups[g].members);
            && (code == 0 || code == 9 || code == 10 || code == 11)
            && (code == 10 <==> !known)
            && (code == 11 <==> known && groups[g].generation != generation)
            && (code == 0 <==> known && groups[g].generation == generation && (m == "" || groups[g].members[m].synced == generation))
  { }

  lemma StepKeepsConfirmation(s: State, l: Label, g: string, m: string, v: nat)
    requires Enabled(s, l) && IsMember(Lookup(s.groups, g), m) && IsMember(After(s, l, g), m) && !Inserts(s, l, g, m)
    requires s.groups[g].generation == v && s.groups[g].members[m].synced == v
    ensures After(s, l, g).value.members[m].synced == v
  {
    StepMember(s, l, g, m);
  }

  lemma SyncConfirms(s: State, l: Label, g: string, m: string, v: nat)
    requires Enabled(s, l) && Syncs(s, l, g, m, v)
    ensures IsMember(After(s, l, g), m) && After(s, l, g).value.members[m].synced == v && After(s, l, g).value.generation == v
  { }

  /** While the generation confirmed stays current, so does the confirmation. */
  lemma {:induction false} ConfirmationStays(ss: seq<State>, ls: seq<Label>, j: nat, k: nat, g: string, m: string, v: nat)
    requires Run(ss, ls) && k < |ss| && NeverWraps(ss, g, k) && SyncedSince(ss, ls, j, k, g, m, v)
    requires g in ss[k].groups && ss[k].groups[g].generation == v
    ensures m in ss[k].groups[g].members && ss[k].groups[g].members[m].synced == v
    decreases k
  {
    RunStep(ss, ls, k - 1, g);
    if j + 1 == k {
      SyncConfirms(ss[j], ls[j], g, m, v);
    } else {
      StillCurrent(ss, ls, j, k, g, m, v);
      ConfirmationStays(ss, ls, j, k - 1, g, m, v);
      StepKeepsConfirmation(ss[k - 1], ls[k - 1], g, m, v);
    }
  }

  lemma StillCurrent(ss: seq<State>, ls: seq<Label>, j: nat, k: nat, g: string, m: string, v: nat)
    requires Run(ss, ls) && j + 1 < k < |ss| && NeverWraps(ss, g, k) && SyncedSince(ss, ls, j, k, g, m, v)
    requires g in ss[k].groups && ss[k].groups[g].generation == v
    ensures IsMember(Lookup(ss[k].groups, g), m) && IsMember(Lookup(ss[k - 1].groups, g), m) && !Inserts(ss[k - 1], ls[k - 1], g, m)
    ensures ss[k - 1].groups[g].generation == v && NeverWraps(ss, g, k - 1) && SyncedSince(ss, ls, j, k - 1, g, m, v)
  {
    assert IsMember(Lookup(ss[k].groups, g), m) && IsMember(Lookup(ss[k - 1].groups, g), m) && IsMember(Lookup(ss[j + 1].groups, g), m);
    RunStep(ss, ls, j, g);
    SyncConfirms(ss[j], ls[j], g, m, v);
    assert Stays(ss, ls, j + 1, k - 1, g, m) && Stays(ss, ls, k - 1, k, g, m);
    StayingGroupGrows(ss, ls, j + 1, k - 1, g, m);
    StayingGroupGrows(ss, ls, k - 1, k, g, m);
  }

  /**
   Over every run: a named member's commit at a non-zero generation passes if
   and only if that is the group's generation and the member confirmed it and
   has been in the group since.
   */
  lemma CommitPassesIff(ss: seq<State>, ls: seq<Label>, k: nat, g: string, m: string, generation: nat)
    requires Run(ss, ls) && k < |ss| && NeverWraps(ss, g, k) && m != "" && generation != 0
    ensures CommitFence(ss[k].groups, g, m, generation) == OK <==>
            && g in ss[k].groups && ss[k].groups[g].generation == generation
            && exists j: nat :: SyncedSince(ss, ls, j, k, g, m, generation)
  {
    if CommitFence(ss[k].groups, g, m, generation) == OK { var j := CommitWasConfirmed(ss, ls, k, g, m, generation); }
    if g in ss[k].groups && ss[k].groups[g].generation == generation && exists j: nat :: SyncedSince(ss, ls, j, k, g, m, generation) {
      var j: nat :| SyncedSince(ss, ls, j, k, g, m, generation);
      assert IsMember(Lookup(ss[k].groups, g), m);
      ConfirmationStays(ss, ls, j, k, g, m, generation);
    }
  }

  // ---------- the queue ----------

  /** Over every run: a parked Join that looks again completes exactly if nobody is in the group or everybody confirmed. */
  lemma WakeCompletesIff(ss: seq<State>, ls: seq<Label>, k: nat)
    requires Run(ss, ls) && k < |ls| && ls[k].JoinWake?
    ensures ls[k].tid in ss[k].parked
    ensures var og := Lookup(ss[k].groups, ss[k].parked[ls[k].tid].request.group);
            Completes(ss[k], ls[k]) <==>
            og.None? || forall m :: m in og.value.members ==> og.value.members[m].synced == og.value.generation
  {
    assert StepAt(ss, ls, k);
    RunParkedForCause(ss, ls, k);
  }

  /** Steps other than Joins leave the queue as it is, but for waking everybody: on an accepted SyncGroup, a leave, and an expiry that costs a group a member. */
  lemma QueueTakesEffect(s: State, l: Label, t: nat)
    requires Enabled(s, l) && !IsJoin(l) && t in s.parked
    ensures t in Next(s, l).parked && Next(s, l).parked[t].request == s.parked[t].request
    ensures var wakes := match l
                         case SyncGroup(g, m, v, _) => g in s.groups && m in s.groups[g].members && s.groups[g].generation == v
                         case LeaveGroup(g, m, _, _) => g in s.groups && m in s.groups[g].members
                         case ExpireSessions(dead, _, _) => exists g :: g in s.groups && g in dead && s.groups[g].members.Keys * dead[g] != {}
                         case ExpireInner(dead) => exists g :: g in s.groups && g in dead && s.groups[g].members.Keys * dead[g] != {}
                         case _ => false;
            Next(s, l).parked[t].asleep <==> s.parked[t].asleep && !wakes
  {
    match l {
      case ExpireSessions(dead, _, _) => LosesSome(s, dead);
      case ExpireInner(dead) => LosesSome(s, dead);
      case _ =>
    }
  }

  lemma LosesSome(s: State, dead: map<string, set<string>>)
    ensures (exists g :: g in s.groups && Loses(s.groups[g], DeadIn(dead, g))) <==>
            exists g :: g in s.groups && g in dead && s.groups[g].members.Keys * dead[g] != {}
  {
    if exists g :: g in s.groups && Loses(s.groups[g], DeadIn(dead, g)) {
      var g :| g in s.groups && Loses(s.groups[g], DeadIn(dead, g));
      assert g in dead;
    }
    if exists g :: g in s.groups && g in dead && s.groups[g].members.Keys * dead[g] != {} {
      var g :| g in s.groups && g in dead && s.groups[g].members.Keys * dead[g] != {};
      assert Loses(s.groups[g], DeadIn(dead, g));
    }
  }

  /** A Join that is fenced and has time left waits, asleep, with what it asked for; any other is not, or no longer, in the queue. */
  lemma JoinQueues(s: State, l: Label)
    requires Enabled(s, l) && IsJoin(l)
    ensures l.tid in Next(s, l).parked <==> !Completes(s, l) && !l.timedOut
    ensures l.tid in Next(s, l).parked ==> Next(s, l).parked[l.tid] == Parked(RequestOf(s, l).value, true)
    ensures forall t :: t != l.tid ==> (t in Next(s, l).parked <==> t in s.parked)
    ensures forall t :: t != l.tid && t in s.parked ==> Next(s, l).parked[t] == s.parked[t]
  { }
}
