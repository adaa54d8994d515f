/**
 The SyncGroup fence over whole runs: what a raised generation demands of the
 members, and what a passing commit proves.
 */
module GroupFence {
  import opened Options
  import opened MultiAssignor
  import opened Group
  import opened GroupOwnership

  // ---------- well-formed groups ----------

  /** A group in the map has members, and none confirmed a generation not yet reached. */
  ghost predicate WellFormed(og: Option<Group>) {
    og.Some? ==>
      && og.value.members != map[]
      && forall m :: m in og.value.members ==> og.value.members[m].synced <= og.value.generation
  }

  /** The generation counter of `g` has not reached the end of u32. */
  ghost predicate NoWrap(s: State, g: string) { g in s.groups ==> s.groups[g].generation + 1 < GENERATIONS }

  /** Nobody has confirmed the current generation. */
  ghost predicate NobodySynced(g: Group) {
    forall m :: m in g.members ==> g.members[m].synced < g.generation
  }

  /** Step `l` is a Join that inserts `m` into `g`, with nothing confirmed. */
  predicate Inserts(s: State, l: Label, g: string, m: string) {
    && Completes(s, l) && RequestOf(s, l).value.group == g
    && !Rejoins(RequestOf(s, l).value, Lookup(s.groups, g))
    && (l.JoinStart? || l.JoinWake?) && Joiner(RequestOf(s, l).value, l.uuid) == m
  }

  /** Step `l` is a successful SyncGroup of `m` at generation `v`. */
  predicate Syncs(s: State, l: Label, g: string, m: string, v: nat) {
    l.SyncGroup? && l.group == g && l.member == m && l.generation == v && SyncAccepted(Lookup(s.groups, g), m, v)
  }

  // ---------- one step ----------

  lemma {:induction false} ApplyListsKeepsSynced(members: Members, lists: seq<(string, seq<TopicPartition>)>, m: string)
    requires m in members
    ensures ApplyLists(members, lists)[m].synced == members[m].synced
  {
    if lists != [] { ApplyListsKeepsSynced(members, lists[..|lists| - 1], m); }
  }

  /** A join leaves every other member's confirmation alone and the joiner's at most untouched. */
  lemma JoinMember(r: Request, og: Option<Group>, uuid: string, counts: map<string, nat>, order: seq<string>, m: string)
    requires JoinOrder(r, og, uuid, order) && m in CompleteJoin(r, og, uuid, counts, order).members
    ensures var v := CompleteJoin(r, og, uuid, counts, order).members[m].synced;
            if !Rejoins(r, og) && Joiner(r, uuid) == m then v == 0
            else IsMember(og, m) && og.value.members[m].synced == v
  { }

  /** Where a member's confirmation comes from: this step's sync, a fresh insert, or the state before. */
  lemma StepMember(s: State, l: Label, g: string, m: string)
    requires Enabled(s, l) && IsMember(After(s, l, g), m)
    ensures var v := After(s, l, g).value.members[m].synced;
            || Syncs(s, l, g, m, v)
            || (Inserts(s, l, g, m) && v == 0)
            || (!Inserts(s, l, g, m) && IsMember(Lookup(s.groups, g), m) && s.groups[g].members[m].synced == v)
  {
    var og := Lookup(s.groups, g);
    match l {
      case JoinStart(_, _, _, _, _, uuid, counts, order) =>
        if Completes(s, l) && RequestOf(s, l).value.group == g {
          JoinMember(RequestOf(s, l).value, og, uuid, counts, order, m);
        }
      case JoinWake(_, _, uuid, counts, order) =>
        if Completes(s, l) && RequestOf(s, l).value.group == g {
          JoinMember(RequestOf(s, l).value, og, uuid, counts, order, m);
        }
      case SyncGroup(g', m', generation, lists) =>
        if g == g' && SyncAccepted(og, m', generation) { ApplyListsKeepsSynced(og.value.members, lists, m); }
      case _ =>
    }
  }

  lemma JoinGeneration(r: Request, og: Option<Group>, uuid: string, counts: map<string, nat>, order: seq<string>)
    requires JoinOrder(r, og, uuid, order) && WellFormed(og) && Base(og).generation + 1 < GENERATIONS
    ensures var g := CompleteJoin(r, og, uuid, counts, order);
            && WellFormed(Some(g))
            && Base(og).generation <= g.generation <= Base(og).generation + 1
            && (g.generation != Base(og).generation ==> NobodySynced(g))
            && (og.None? ==> g.generation == 1)
  {
    JoinSyncedBound(r, og, uuid, counts, order);
    BumpBelowWrap(Base(og).generation);
    var g := CompleteJoin(r, og, uuid, counts, order);
    assert (if Rejoins(r, og) then r.id else Joiner(r, uuid)) in g.members;
  }

  lemma JoinSyncedBound(r: Request, og: Option<Group>, uuid: string, counts: map<string, nat>, order: seq<string>)
    requires JoinOrder(r, og, uuid, order) && WellFormed(og)
    ensures var g := CompleteJoin(r, og, uuid, counts, order);
            forall m :: m in g.members ==> g.members[m].synced <= Base(og).generation
  {
    var g := CompleteJoin(r, og, uuid, counts, order);
    forall m | m in g.members ensures g.members[m].synced <= Base(og).generation {
      JoinMember(r, og, uuid, counts, order, m);
    }
  }

  lemma RebalanceGeneration(g: Group, counts: map<string, nat>, order: seq<string>)
    requires IsOrder(order, g.members) && g.generation + 1 < GENERATIONS
    requires forall m :: m in g.members ==> g.members[m].synced <= g.generation
    ensures var og' := Rebalance(g, counts, order);
            && WellFormed(og')
            && (og'.Some? ==> og'.value.generation == g.generation + 1 && NobodySynced(og'.value))
  {
    BumpBelowWrap(g.generation);
    RenumberedFacts(g.generation, g.members, Reassign(g.members, counts, order));
  }

  lemma RenumberedFacts(generation: nat, members: Members, r: Members)
    requires r.Keys == members.Keys && forall m :: m in members ==> r[m].synced == members[m].synced <= generation
    ensures var og := Present(Group(generation + 1, r));
            WellFormed(og) && (og.Some? ==> og.value.generation == generation + 1 && NobodySynced(og.value))
  { }

  lemma BumpBelowWrap(generation: nat)
    requires generation + 1 < GENERATIONS
    ensures Bump(generation) == generation + 1
  { }

  /** Below the wrap, generations only grow, by one, and growing un-confirms everybody. */
  lemma StepGeneration(s: State, l: Label, g: string)
    requires Enabled(s, l) && WellFormed(Lookup(s.groups, g)) && NoWrap(s, g)
    ensures WellFormed(After(s, l, g))
    ensures GenerationGrows(Lookup(s.groups, g), After(s, l, g))
    ensures NewGeneration(s, l, g) ==> NobodySynced(After(s, l, g).value)
  {
    var og := Lookup(s.groups, g);
    match l {
      case JoinStart(_, _, _, _, _, uuid, counts, order) =>
        if Completes(s, l) && RequestOf(s, l).value.group == g {
          JoinGeneration(RequestOf(s, l).value, og, uuid, counts, order);
        }
      case JoinWake(_, _, uuid, counts, order) =>
        if Completes(s, l) && RequestOf(s, l).value.group == g {
          JoinGeneration(RequestOf(s, l).value, og, uuid, counts, order);
        }
      case SyncGroup(g', m', generation, lists) =>
        if g == g' && SyncAccepted(og, m', generation) {
          forall m | m in og.value.members ensures ApplyLists(og.value.members, lists)[m].synced == og.value.members[m].synced {
            ApplyListsKeepsSynced(og.value.members, lists, m);
          }
        }
      case LeaveGroup(g', m, counts, order) =>
        if g == g' && IsMember(og, m) {
          RebalanceGeneration(og.value.(members := Without(og.value.members, {m})), counts, order);
        }
      case ExpireSessions(dead, counts, orders) =>
        if og.Some? && Loses(og.value, DeadIn(dead, g)) {
          RebalanceGeneration(og.value.(members := Without(og.value.members, DeadIn(dead, g))), counts, OrderIn(orders, g));
        }
      case _ =>
    }
  }

  /** While a group lives its generation does not go down. */
  predicate GenerationGrows(og: Option<Group>, og': Option<Group>) {
    og.Some? && og'.Some? ==> og.value.generation <= og'.value.generation
  }

  /** A living group's new generation is the old one plus one, modulo 2^32. */
  lemma NewGenerationIsBump(s: State, l: Label, g: string)
    requires Enabled(s, l) && g in s.groups && NewGeneration(s, l, g)
    ensures After(s, l, g).value.generation == Bump(s.groups[g].generation)
  {
  }

  /** So it is larger exactly until the counter is at the end of u32. */
  lemma NewGenerationLargerIff(s: State, l: Label, g: string)
    requires Enabled(s, l) && g in s.groups && NewGeneration(s, l, g) && s.groups[g].generation < GENERATIONS
    ensures After(s, l, g).value.generation > s.groups[g].generation <==> s.groups[g].generation + 1 < GENERATIONS
  {
    NewGenerationIsBump(s, l, g);
    BumpLargerIff(s.groups[g].generation);
  }

  lemma BumpLargerIff(generation: nat)
    requires generation < GENERATIONS
    ensures Bump(generation) > generation <==> generation + 1 < GENERATIONS
  { }

  /** A Join raises a generation only through an open fence. */
  lemma JoinRaisesThroughOpenFence(s: State, l: Label, g: string)
    requires Enabled(s, l) && (l.JoinStart? || l.JoinWake?) && NewGeneration(s, l, g)
    ensures Open(Lookup(s.groups, g)) && Completes(s, l)
  {
  }

  /** A fenced Join neither inserts, bumps nor reassigns, in any group. */
  lemma FencedJoinChangesNoGroup(s: State, l: Label)
    requires Enabled(s, l) && (l.JoinStart? || l.JoinWake?) && !Completes(s, l)
    ensures Next(s, l).groups == s.groups
  {
    forall g ensures Lookup(GroupsAfter(s, l), g) == Lookup(s.groups, g) { }
    assert forall g :: g in GroupsAfter(s, l) <==> g in s.groups;
    assert forall g :: g in s.groups ==> GroupsAfter(s, l)[g] == s.groups[g];
  }

  // ---------- runs ----------

  /** `m` is in `g` in every state from `i` to `k`, never re-inserted on the way. */
  ghost predicate Stays(ss: seq<State>, ls: seq<Label>, i: nat, k: nat, g: string, m: string)
    requires Run(ss, ls) && i <= k < |ss|
  {
    && (forall j :: i <= j <= k ==> IsMember(Lookup(ss[j].groups, g), m))
    && (forall j :: i <= j < k ==> !Inserts(ss[j], ls[j], g, m))
  }

  /** The generation of `g` does not wrap before state `k`. */
  ghost predicate NeverWraps(ss: seq<State>, g: string, k: nat)
    requires k <= |ss|
  {
    forall i :: 0 <= i < k ==> NoWrap(ss[i], g)
  }

  lemma {:induction false} RunWellFormed(ss: seq<State>, ls: seq<Label>, k: nat, g: string)
    requires Run(ss, ls) && k < |ss| && NeverWraps(ss, g, k)
    ensures WellFormed(Lookup(ss[k].groups, g))
  {
    if k > 0 {
      RunWellFormed(ss, ls, k - 1, g);
      RunStep(ss, ls, k - 1, g);
      StepGeneration(ss[k - 1], ls[k - 1], g);
    }
  }

  lemma {:induction false} StayingGroupGrows(ss: seq<State>, ls: seq<Label>, i: nat, k: nat, g: string, m: string)
    requires Run(ss, ls) && i <= k < |ss| && NeverWraps(ss, g, k) && Stays(ss, ls, i, k, g, m)
    ensures ss[i].groups[g].generation <= ss[k].groups[g].generation
    decreases k
  {
    if i < k {
      assert IsMember(Lookup(ss[k].groups, g), m) && IsMember(Lookup(ss[k - 1].groups, g), m);
      StayingGroupGrows(ss, ls, i, k - 1, g, m);
      RunWellFormed(ss, ls, k - 1, g);
      RunStep(ss, ls, k - 1, g);
      StepGeneration(ss[k - 1], ls[k - 1], g);
    }
  }

  /** `m` synced `g` at generation `v` at step `j`, and has been in the group since. */
  ghost predicate SyncedSince(ss: seq<State>, ls: seq<Label>, j: nat, k: nat, g: string, m: string, v: nat)
    requires Run(ss, ls) && k < |ss|
  {
    j < k && Syncs(ss[j], ls[j], g, m, v) && Stays(ss, ls, j + 1, k, g, m)
  }

  /** A confirmation held at `k` was made by a sync after `i`, or is 0 since an insert, or was held all along since `i`. */
  lemma {:induction false} ConfirmationHistory(ss: seq<State>, ls: seq<Label>, i: nat, k: nat, g: string, m: string) returns (j: nat)
    requires Run(ss, ls) && i <= k < |ss| && IsMember(Lookup(ss[k].groups, g), m)
    ensures var v := ss[k].groups[g].members[m].synced;
            || v == 0
            || (i <= j && SyncedSince(ss, ls, j, k, g, m, v))
            || (Stays(ss, ls, i, k, g, m) && ss[i].groups[g].members[m].synced == v)
    decreases k
  {
    j := 0;
    if i < k {
      RunStep(ss, ls, k - 1, g);
      StepMember(ss[k - 1], ls[k - 1], g, m);
      var v := ss[k].groups[g].members[m].synced;
      if Syncs(ss[k - 1], ls[k - 1], g, m, v) {
        j := k - 1;
      } else if !Inserts(ss[k - 1], ls[k - 1], g, m) {
        j := ConfirmationHistory(ss, ls, i, k - 1, g, m);
      }
    }
  }

  /**
   A commit that passes the fence for a named member at a non-zero generation
   was preceded by that member's SyncGroup at that generation, with the member
   in the group ever since.
   */
  lemma CommitWasConfirmed(ss: seq<State>, ls: seq<Label>, k: nat, g: string, m: string, generation: nat) returns (j: nat)
    requires Run(ss, ls) && k < |ss| && m != "" && generation != 0
    requires CommitFence(ss[k].groups, g, m, generation) == OK
    ensures SyncedSince(ss, ls, j, k, g, m, generation)
  {
    j := ConfirmationHistory(ss, ls, 0, k, g, m);
  }

  lemma AfterNewGeneration(ss: seq<State>, ls: seq<Label>, i: nat, g: string)
    requires Run(ss, ls) && i < |ls| && NeverWraps(ss, g, i + 1) && NewGenerationAt(ss, i, g)
    ensures g in ss[i + 1].groups && NobodySynced(ss[i + 1].groups[g])
  {
    RunWellFormed(ss, ls, i, g);
    RunStep(ss, ls, i, g);
    StepGeneration(ss[i], ls[i], g);
  }

  /** Nobody had confirmed at `i`: whoever holds the current generation's confirmation at `k` synced since. */
  lemma ConfirmedSince(ss: seq<State>, ls: seq<Label>, i: nat, k: nat, g: string, m: string) returns (j: nat)
    requires Run(ss, ls) && i <= k < |ss| && NeverWraps(ss, g, k) && g in ss[i].groups && NobodySynced(ss[i].groups[g])
    requires IsMember(Lookup(ss[k].groups, g), m)
    requires ss[k].groups[g].members[m].synced == ss[k].groups[g].generation != 0
    ensures i <= j && SyncedSince(ss, ls, j, k, g, m, ss[k].groups[g].generation)
  {
    j := ConfirmationHistory(ss, ls, i, k, g, m);
    if Stays(ss, ls, i, k, g, m) {
      assert IsMember(Lookup(ss[i].groups, g), m);
      StayingGroupGrows(ss, ls, i, k, g, m);
    }
  }

  /** After a new generation no named commit passes until that member has synced it. */
  lemma NoCommitBeforeConfirming(ss: seq<State>, ls: seq<Label>, i: nat, k: nat, g: string, m: string, generation: nat) returns (j: nat)
    requires Run(ss, ls) && i < k < |ss| && NeverWraps(ss, g, k) && NewGenerationAt(ss, i, g)
    requires m != "" && generation != 0 && CommitFence(ss[k].groups, g, m, generation) == OK
    ensures i < j && SyncedSince(ss, ls, j, k, g, m, generation)
  {
    AfterNewGeneration(ss, ls, i, g);
    j := ConfirmedSince(ss, ls, i + 1, k, g, m);
  }

  lemma {:induction false} LiveGenerationPositive(ss: seq<State>, ls: seq<Label>, k: nat, g: string)
    requires Run(ss, ls) && k < |ss| && NeverWraps(ss, g, k) && g in ss[k].groups
    ensures ss[k].groups[g].generation > 0
  {
    if k > 0 {
      RunWellFormed(ss, ls, k - 1, g);
      RunStep(ss, ls, k - 1, g);
      StepGeneration(ss[k - 1], ls[k - 1], g);
      if g in ss[k - 1].groups {
        LiveGenerationPositive(ss, ls, k - 1, g);
      } else {
        var m :| m in ss[k].groups[g].members;
      }
    }
  }

  lemma JoinFoundFenceOpen(ss: seq<State>, ls: seq<Label>, k: nat, g: string)
    requires Run(ss, ls) && k < |ls| && (ls[k].JoinStart? || ls[k].JoinWake?) && NewGenerationAt(ss, k, g)
    ensures Open(Lookup(ss[k].groups, g))
  {
    RunStep(ss, ls, k, g);
    JoinRaisesThroughOpenFence(ss[k], ls[k], g);
  }

  /**
   Two Joins that raise the generation of `g`, at steps `i` and `k`, enclose a
   full SyncGroup round: every member live at `k` synced the generation being
   replaced, after `i`, and has been in the group since.
   */
  lemma JoinsEncloseFullSyncRound(ss: seq<State>, ls: seq<Label>, i: nat, k: nat, g: string, m: string) returns (j: nat)
    requires Run(ss, ls) && i < k < |ls| && NeverWraps(ss, g, k)
    requires NewGenerationAt(ss, i, g)
    requires (ls[k].JoinStart? || ls[k].JoinWake?) && NewGenerationAt(ss, k, g)
    requires IsMember(Lookup(ss[k].groups, g), m)
    ensures i < j && SyncedSince(ss, ls, j, k, g, m, ss[k].groups[g].generation)
  {
    JoinFoundFenceOpen(ss, ls, k, g);
    LiveGenerationPositive(ss, ls, k, g);
    AfterNewGeneration(ss, ls, i, g);
    j := ConfirmedSince(ss, ls, i + 1, k, g, m);
  }
}
