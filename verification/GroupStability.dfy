/**
 Stickiness over whole runs: between one rebalance and the next nothing moves,
 a join then takes partitions for the newcomer only, and a leave takes none
 from those who stay.
 */
module GroupStability {
  import opened Options
  import opened MultiAssignor
  import opened Group
  import opened GroupOwnership
  import opened GroupFence
  import opened GroupParking

  /** The partition counts a step reads. */
  function CountsOf(l: Label): map<string, nat> {
    match l
    case JoinStart(_, _, _, _, _, _, counts, _) => counts
    case JoinWake(_, _, _, counts, _) => counts
    case LeaveGroup(_, _, counts, _) => counts
    case ExpireSessions(_, counts, _) => counts
    case _ => map[]
  }

  /** Both steps find the same number of partitions of `t`, or both find none. */
  predicate SameCount(l: Label, l': Label, t: string) {
    var (c, c') := (CountsOf(l), CountsOf(l'));
    if t in c then t in c' && c[t] == c'[t] else t !in c'
  }

  /** The same members with the same subscriptions and assignments. */
  ghost predicate SameShares(a: Members, b: Members) {
    a.Keys == b.Keys && forall m :: m in a ==> a[m].topics == b[m].topics && a[m].assignment == b[m].assignment
  }

  ghost predicate HeldBalanced(members: Members, counts: map<string, nat>, t: string) {
    exists order :: BalancedIn(members, counts, order, t)
  }

  lemma SharesBalanced(a: Members, b: Members, counts: map<string, nat>, counts': map<string, nat>, t: string)
    requires HeldBalanced(a, counts, t) && SameShares(a, b) && t in counts && t in counts' && counts[t] == counts'[t]
    ensures HeldBalanced(b, counts', t)
  {
    var order :| BalancedIn(a, counts, order, t);
    OrderedMembers(a, order);
    var x, y := AssignorInput(a, counts, order), AssignorInput(b, counts', order);
    assert x.topics == y.topics && x.previous == y.previous;
    SameTopicLists(x, y, t);
    assert BalancedIn(b, counts', order, t);
  }

  lemma DeliverKeepsShares(members: Members, m: string)
    requires m in members
    ensures SameShares(members, Deliver(members, m))
  { }

  // ---------- a rebalance ----------

  /** A step to a new generation reassigns: the members hold what the assignor gave them. */
  lemma StepReassigns(s: State, l: Label, g: string) returns (members: Members, order: seq<string>)
    requires Enabled(s, l) && NewGeneration(s, l, g)
    ensures IsOrder(order, members) && SameShares(Reassign(members, CountsOf(l), order), After(s, l, g).value.members)
  {
    var og := Lookup(s.groups, g);
    match l {
      case JoinStart(_, _, _, _, _, uuid, _, o) => members, order := JoinReassigns(RequestOf(s, l).value, og, uuid, CountsOf(l), o);
      case JoinWake(_, _, uuid, _, o) => members, order := JoinReassigns(RequestOf(s, l).value, og, uuid, CountsOf(l), o);
      case LeaveGroup(_, m, _, o) => members, order := Without(og.value.members, {m}), o;
      case ExpireSessions(dead, _, orders) => members, order := Without(og.value.members, DeadIn(dead, g)), OrderIn(orders, g);
    }
  }

  lemma JoinReassigns(r: Request, og: Option<Group>, uuid: string, counts: map<string, nat>, order: seq<string>)
    returns (members: Members, o: seq<string>)
    requires JoinOrder(r, og, uuid, order)
    requires og.None? || CompleteJoin(r, og, uuid, counts, order).generation != og.value.generation
    ensures IsOrder(o, members) && SameShares(Reassign(members, counts, o), CompleteJoin(r, og, uuid, counts, order).members)
  {
    o := order;
    if Rejoins(r, og) {
      members := og.value.members[r.id := og.value.members[r.id].(topics := r.topics)];
      assert members.Keys == og.value.members.Keys;
      DeliverKeepsShares(Reassign(members, counts, o), r.id);
    } else {
      members := Base(og).members[Joiner(r, uuid) := Fresh(r.topics)];
      DeliverKeepsShares(Reassign(members, counts, o), Joiner(r, uuid));
    }
  }

  /** What a member holds after a reassignment is of a known topic it subscribes to. */
  lemma ReassignedIsKnown(members: Members, counts: map<string, nat>, order: seq<string>, m: string, t: string, p: nat)
    requires IsOrder(order, members) && m in members && (t, p) in Reassign(members, counts, order)[m].assignment
    ensures t in members[m].topics && t in counts
  {
    var inp := AssignorInput(members, counts, order);
    OrderedMembers(members, order);
    var i := IndexOf(order, m);
    MultiFacts(inp, i);
    GetsValid(inp, i, t, p);
  }

  /** After a step to a new generation, what a member holds is of a known topic it subscribes to. */
  lemma HoldingIsKnown(s: State, l: Label, g: string, m: string, t: string, p: nat)
    requires Enabled(s, l) && NewGeneration(s, l, g)
    requires IsMember(After(s, l, g), m) && (t, p) in After(s, l, g).value.members[m].assignment
    ensures t in After(s, l, g).value.members[m].topics && t in CountsOf(l)
  {
    var members, order := StepReassigns(s, l, g);
    ReassignedIsKnown(members, CountsOf(l), order, m, t, p);
  }

  lemma StepBalances(s: State, l: Label, g: string, t: string)
    requires Enabled(s, l) && NewGeneration(s, l, g)
    requires t in CountsOf(l) && t in Subscribed(After(s, l, g).value.members)
    ensures HeldBalanced(After(s, l, g).value.members, CountsOf(l), t)
  {
    var members, order := StepReassigns(s, l, g);
    var r := Reassign(members, CountsOf(l), order);
    var m :| m in r && t in r[m].topics;
    assert t in Subscribed(members);
    ReassignBalances(members, CountsOf(l), order, t);
    SharesBalanced(r, After(s, l, g).value.members, CountsOf(l), CountsOf(l), t);
  }

  // ---------- quiet steps ----------

  /** Only Joins that insert a member or change a subscription are parked. */
  ghost predicate ParkedForCause(s: State) {
    forall t :: t in s.parked ==> !s.parked[t].request.live || s.parked[t].request.changed
  }

  lemma {:induction false} RunParkedForCause(ss: seq<State>, ls: seq<Label>, k: nat)
    requires Run(ss, ls) && k < |ss|
    ensures ParkedForCause(ss[k])
  {
    if k > 0 {
      RunParkedForCause(ss, ls, k - 1);
      assert StepAt(ss, ls, k - 1);
    }
  }

  /**
   Group `g` is there before and after the step, under the same generation; no
   lists were installed, and nobody dropped without a rebalance.
   */
  ghost predicate Quiet(s: State, l: Label, g: string)
    requires Enabled(s, l)
  {
    var og, og' := Lookup(s.groups, g), After(s, l, g);
    && og.Some? && og'.Some? && og'.value.generation == og.value.generation
    && (InstallsLists(l, g) ==> !SyncAccepted(og, l.member, l.generation))
    && (l.ExpireInner? ==> !Loses(og.value, DeadIn(l.dead, g)))
  }

  lemma BumpChanges(generation: nat)
    ensures Bump(generation) != generation
  { }

  /** A Join that leaves the generation alone is a re-join with an unchanged subscription. */
  lemma QuietJoinRejoins(r: Request, og: Option<Group>, uuid: string, counts: map<string, nat>, order: seq<string>)
    requires JoinOrder(r, og, uuid, order) && CompleteJoin(r, og, uuid, counts, order).generation == Base(og).generation
    ensures Rejoins(r, og) && !r.changed
  {
    BumpChanges(Base(og).generation);
  }

  lemma RejoinKeepsShares(g: Group, m: string, topics: seq<string>, counts: map<string, nat>, order: seq<string>)
    requires m in g.members && g.members[m].topics == topics
    ensures SameShares(g.members, Rejoin(g, m, topics, false, counts, order).members)
  {
    assert g.members[m := g.members[m].(topics := topics)] == g.members;
    DeliverKeepsShares(g.members, m);
  }

  lemma QuietJoin(s: State, l: Label, g: string)
    requires Enabled(s, l) && ParkedForCause(s) && Quiet(s, l, g) && (l.JoinStart? || l.JoinWake?)
    ensures SameShares(s.groups[g].members, After(s, l, g).value.members)
  {
    var og := Lookup(s.groups, g);
    if Completes(s, l) && RequestOf(s, l).value.group == g {
      var r := RequestOf(s, l).value;
      QuietJoinRejoins(r, og, l.uuid, CountsOf(l), l.order);
      RejoinKeepsShares(og.value, r.id, r.topics, CountsOf(l), l.order);
    }
  }

  lemma QuietRemoval(s: State, l: Label, g: string)
    requires Enabled(s, l) && Quiet(s, l, g) && (l.LeaveGroup? || l.ExpireSessions?)
    ensures After(s, l, g) == Lookup(s.groups, g)
  {
    BumpChanges(s.groups[g].generation);
  }

  lemma ConfirmKeepsShares(og: Option<Group>, m: string, generation: nat)
    requires og.Some?
    ensures SameShares(og.value.members, Sync(og, m, generation, []).value.members)
  { }

  /** A quiet step moves nothing. */
  lemma QuietKeepsShares(s: State, l: Label, g: string)
    requires Enabled(s, l) && ParkedForCause(s) && Quiet(s, l, g)
    ensures SameShares(s.groups[g].members, After(s, l, g).value.members)
  {
    match l {
      case JoinStart(_, _, _, _, _, _, _, _) => QuietJoin(s, l, g);
      case JoinWake(_, _, _, _, _) => QuietJoin(s, l, g);
      case LeaveGroup(_, _, _, _) => QuietRemoval(s, l, g);
      case ExpireSessions(_, _, _) => QuietRemoval(s, l, g);
      case ExpireInner(dead) => NobodyDead(s, dead, g);
      case SyncGroup(_, m, generation, lists) =>
        if lists == [] { ConfirmKeepsShares(Lookup(s.groups, g), m, generation); }
      case _ =>
    }
  }

  // ---------- runs ----------

  ghost predicate QuietAt(ss: seq<State>, ls: seq<Label>, j: nat, g: string)
    requires j < |ls| < |ss|
  {
    Enabled(ss[j], ls[j]) && Quiet(ss[j], ls[j], g)
  }

  /** Step `i` brought `g` to a new generation and every step from then until `k` was quiet. */
  ghost predicate QuietSince(ss: seq<State>, ls: seq<Label>, i: nat, k: nat, g: string) {
    && i < k <= |ls| < |ss| && NewGenerationAt(ss, i, g)
    && forall j :: i < j < k ==> QuietAt(ss, ls, j, g)
  }

  lemma {:induction false} NothingMoves(ss: seq<State>, ls: seq<Label>, i: nat, k: nat, g: string)
    requires Run(ss, ls) && QuietSince(ss, ls, i, k, g)
    ensures g in ss[i + 1].groups && g in ss[k].groups
    ensures SameShares(ss[i + 1].groups[g].members, ss[k].groups[g].members)
    decreases k
  {
    if i + 1 < k {
      NothingMoves(ss, ls, i, k - 1, g);
      assert QuietAt(ss, ls, k - 1, g);
      RunStep(ss, ls, k - 1, g);
      RunParkedForCause(ss, ls, k - 1);
      QuietKeepsShares(ss[k - 1], ls[k - 1], g);
    }
  }

  lemma BalancedAt(ss: seq<State>, ls: seq<Label>, i: nat, k: nat, g: string, t: string, counts: map<string, nat>)
    requires Run(ss, ls) && QuietSince(ss, ls, i, k, g)
    requires g in ss[k].groups && t in Subscribed(ss[k].groups[g].members)
    requires t in CountsOf(ls[i]) && t in counts && counts[t] == CountsOf(ls[i])[t]
    ensures HeldBalanced(ss[k].groups[g].members, counts, t)
  {
    NothingMoves(ss, ls, i, k, g);
    RunStep(ss, ls, i, g);
    var m :| m in ss[k].groups[g].members && t in ss[k].groups[g].members[m].topics;
    assert t in Subscribed(ss[i + 1].groups[g].members);
    StepBalances(ss[i], ls[i], g, t);
    SharesBalanced(ss[i + 1].groups[g].members, ss[k].groups[g].members, CountsOf(ls[i]), counts, t);
  }

  /** Quiet since a rebalance, a Join inserts a new member: whatever an old member owns afterwards, it owned since the rebalance. */
  lemma JoinerAloneGains(ss: seq<State>, ls: seq<Label>, i: nat, k: nat, g: string, joiner: string, m: string, t: string, p: nat)
    requires Run(ss, ls) && QuietSince(ss, ls, i, k, g) && k < |ls| && SameCount(ls[i], ls[k], t)
    requires Inserts(ss[k], ls[k], g, joiner) && !IsMember(Lookup(ss[k].groups, g), joiner)
    requires IsMember(Lookup(ss[k].groups, g), m) && MemberOwns(ss[k + 1].groups, g, m, t, p) == Allow
    ensures MemberOwns(ss[i + 1].groups, g, m, t, p) == Allow
  {
    NothingMoves(ss, ls, i, k, g);
    RunStep(ss, ls, k, g);
    var members, r, counts, order := ss[k].groups[g].members, RequestOf(ss[k], ls[k]).value, CountsOf(ls[k]), ls[k].order;
    var ms := members[joiner := Fresh(r.topics)];
    ReassignedIsKnown(ms, counts, order, m, t, p);
    assert t in Subscribed(members);
    BalancedAt(ss, ls, i, k, g, t, counts);
    var o :| BalancedIn(members, counts, o, t);
    JoinTakesOnlyForTheJoiner(members, joiner, r.topics, counts, o, order, t, m, p);
  }

  /** Step `l` removes members of `g`, if it changes `g` at all, and rebalances the rest. */
  predicate Removes(l: Label, g: string) { (l.LeaveGroup? && l.group == g) || l.ExpireSessions? }

  /** A removal takes nothing of a balanced topic from a subscriber who stays. */
  lemma RemovalKeeps(s: State, l: Label, g: string, m: string, t: string, p: nat)
    requires Enabled(s, l) && Removes(l, g) && IsMember(After(s, l, g), m)
    requires IsMember(Lookup(s.groups, g), m) && t in s.groups[g].members[m].topics && (t, p) in s.groups[g].members[m].assignment
    requires HeldBalanced(s.groups[g].members, CountsOf(l), t)
    ensures (t, p) in After(s, l, g).value.members[m].assignment
  {
    var members := s.groups[g].members;
    var o :| BalancedIn(members, CountsOf(l), o, t);
    match l {
      case LeaveGroup(_, x, counts, order) =>
        if x in members { SurvivorsKeepTheirs(members, {x}, counts, o, order, t, m, p); }
      case ExpireSessions(dead, counts, orders) =>
        if Loses(s.groups[g], DeadIn(dead, g)) {
          SurvivorsKeepTheirs(members, DeadIn(dead, g), counts, o, OrderIn(orders, g), t, m, p);
        }
    }
  }

  lemma SurvivorWasThere(s: State, l: Label, g: string, m: string)
    requires Enabled(s, l) && Removes(l, g) && IsMember(After(s, l, g), m)
    ensures IsMember(Lookup(s.groups, g), m)
  { }

  /** Quiet since a rebalance, members leave or expire: whatever a remaining member owned since the rebalance, it still owns. */
  lemma SurvivorsLoseNothing(ss: seq<State>, ls: seq<Label>, i: nat, k: nat, g: string, m: string, t: string, p: nat)
    requires Run(ss, ls) && QuietSince(ss, ls, i, k, g) && k < |ls| && SameCount(ls[i], ls[k], t) && Removes(ls[k], g)
    requires IsMember(Lookup(ss[k + 1].groups, g), m) && MemberOwns(ss[i + 1].groups, g, m, t, p) == Allow
    ensures MemberOwns(ss[k + 1].groups, g, m, t, p) == Allow
  {
    NothingMoves(ss, ls, i, k, g);
    RunStep(ss, ls, i, g);
    RunStep(ss, ls, k, g);
    HoldingIsKnown(ss[i], ls[i], g, m, t, p);
    SurvivorWasThere(ss[k], ls[k], g, m);
    assert t in Subscribed(ss[k].groups[g].members);
    BalancedAt(ss, ls, i, k, g, t, CountsOf(ls[k]));
    RemovalKeeps(ss[k], ls[k], g, m, t, p);
  }
}
