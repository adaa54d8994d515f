/**
 Parked Joins: the waiter counters match the queue, and no Join sleeps through
 the opening of its fence.
 */
module GroupParking {
  import opened Options
  import opened Assignor
  import opened Group
  import opened GroupOwnership

  ghost predicate NonEmpty(og: Option<Group>) { og.Some? ==> og.value.members != map[] }

  ghost predicate GroupsNonEmpty(s: State) { forall g :: NonEmpty(Lookup(s.groups, g)) }

  /** A Join asleep on the condvar waits for a fence that is still closed. */
  ghost predicate NoLostWakeup(s: State) {
    forall t :: t in s.parked && s.parked[t].asleep ==> !Open(Lookup(s.groups, s.parked[t].request.group))
  }

  function ParkedOn(parked: map<nat, Parked>, g: string): set<nat> {
    set t | t in parked && parked[t].request.group == g
  }

  /** `join_waiters[g]` is the number of Joins parked on `g`; no entry means none. */
  ghost predicate WaitersExact(s: State) {
    forall g :: CountsOn(s.waiters, s.parked, g)
  }

  // ---------- one step ----------

  lemma CompleteJoinNonEmpty(r: Request, og: Option<Group>, uuid: string, counts: map<string, nat>, order: seq<string>)
    requires JoinOrder(r, og, uuid, order)
    ensures CompleteJoin(r, og, uuid, counts, order).members != map[]
  {
    var g := CompleteJoin(r, og, uuid, counts, order);
    assert (if Rejoins(r, og) then r.id else Joiner(r, uuid)) in g.members;
  }

  lemma StepNonEmpty(s: State, l: Label, g: string)
    requires Enabled(s, l) && NonEmpty(Lookup(s.groups, g))
    ensures NonEmpty(After(s, l, g))
  {
    var og := Lookup(s.groups, g);
    match l {
      case JoinStart(_, _, _, _, _, uuid, counts, order) =>
        if Completes(s, l) && RequestOf(s, l).value.group == g {
          CompleteJoinNonEmpty(RequestOf(s, l).value, og, uuid, counts, order);
        }
      case JoinWake(_, _, uuid, counts, order) =>
        if Completes(s, l) && RequestOf(s, l).value.group == g {
          CompleteJoinNonEmpty(RequestOf(s, l).value, og, uuid, counts, order);
        }
      case SyncGroup(g', m, generation, lists) =>
        if g == g' && SyncAccepted(og, m, generation) {
          assert m in After(s, l, g).value.members;
        }
      case _ =>
    }
  }

  /** A live member re-joining with the same topics leaves a closed fence closed. */
  lemma RejoinKeepsFence(g: Group, m: string, topics: seq<string>, counts: map<string, nat>, order: seq<string>)
    requires m in g.members && !AllSynced(g)
    ensures !AllSynced(Rejoin(g, m, topics, false, counts, order))
  {
    var x :| x in g.members && g.members[x].synced != g.generation;
    assert Rejoin(g, m, topics, false, counts, order).members[x].synced == g.members[x].synced;
  }

  /** A step that opens a closed fence, other than removing the group outright, notifies all parked Joins. */
  lemma FenceOpensOnlyWithNotify(s: State, l: Label, g: string)
    requires Enabled(s, l) && GroupsNonEmpty(s) && !l.DeleteGroup?
    requires !Open(Lookup(s.groups, g)) && Open(After(s, l, g))
    ensures Notifies(s, l)
  {
    if !Notifies(s, l) { FenceStaysClosed(s, l, g); }
  }

  lemma NobodyDead(s: State, dead: map<string, set<string>>, g: string)
    requires g in s.groups && !Loses(s.groups[g], DeadIn(dead, g))
    ensures Without(s.groups[g].members, DeadIn(dead, g)) == s.groups[g].members
  {
    var members := s.groups[g].members;
    forall m | m in members ensures m !in DeadIn(dead, g) {
      assert m !in members.Keys * DeadIn(dead, g);
    }
  }

  lemma FenceStaysClosed(s: State, l: Label, g: string)
    requires Enabled(s, l) && GroupsNonEmpty(s) && !l.DeleteGroup? && !Notifies(s, l)
    requires !Open(Lookup(s.groups, g))
    ensures !Open(After(s, l, g))
  {
    var og := Lookup(s.groups, g);
    assert NonEmpty(og);
    match l {
      case JoinStart(_, _, _, _, _, uuid, counts, order) =>
        if Completes(s, l) && RequestOf(s, l).value.group == g {
          RejoinKeepsFence(og.value, RequestOf(s, l).value.id, RequestOf(s, l).value.topics, counts, order);
        }
      case JoinWake(_, _, uuid, counts, order) =>
        if Completes(s, l) && RequestOf(s, l).value.group == g {
          RejoinKeepsFence(og.value, RequestOf(s, l).value.id, RequestOf(s, l).value.topics, counts, order);
        }
      case ExpireSessions(dead, _, _) =>
        NobodyDead(s, dead, g);
      case ExpireInner(dead) =>
        NobodyDead(s, dead, g);
      case _ =>
    }
  }

  lemma StepWakeup(s: State, l: Label)
    requires Enabled(s, l) && GroupsNonEmpty(s) && NoLostWakeup(s) && !l.DeleteGroup?
    ensures NoLostWakeup(Next(s, l))
  {
    var s' := Next(s, l);
    forall t | t in s'.parked && s'.parked[t].asleep ensures !Open(Lookup(s'.groups, s'.parked[t].request.group)) {
      var g := s'.parked[t].request.group;
      assert Lookup(s'.groups, g) == After(s, l, g);
      assert !Notifies(s, l);
      assert !Open(Lookup(s.groups, g));
      FenceStaysClosed(s, l, g);
    }
  }

  /** The counter of `g` is right. */
  ghost predicate CountsOn(waiters: map<string, nat>, parked: map<nat, Parked>, g: string) {
    if g in waiters then waiters[g] == |ParkedOn(parked, g)| > 0 else ParkedOn(parked, g) == {}
  }

  lemma IncExact(s: State, tid: nat, p: Parked)
    requires WaitersExact(s) && tid !in s.parked
    ensures WaitersExact(s.(waiters := IncWaiters(s.waiters, p.request.group), parked := s.parked[tid := p]))
  {
    var waiters, parked := IncWaiters(s.waiters, p.request.group), s.parked[tid := p];
    forall g ensures CountsOn(waiters, parked, g) {
      assert CountsOn(s.waiters, s.parked, g);
      assert ParkedOn(parked, g) == ParkedOn(s.parked, g) + if g == p.request.group then {tid} else {};
    }
  }

  lemma DecExact(s: State, tid: nat)
    requires WaitersExact(s) && tid in s.parked
    ensures WaitersExact(s.(waiters := DecWaiters(s.waiters, s.parked[tid].request.group), parked := s.parked - {tid}))
  {
    var h := s.parked[tid].request.group;
    assert tid in ParkedOn(s.parked, h);
    var waiters, parked := DecWaiters(s.waiters, h), s.parked - {tid};
    forall g ensures CountsOn(waiters, parked, g) {
      assert CountsOn(s.waiters, s.parked, g);
      assert ParkedOn(parked, g) == ParkedOn(s.parked, g) - if g == h then {tid} else {};
    }
  }

  lemma SameQueue(s: State, s': State)
    requires WaitersExact(s) && s'.waiters == s.waiters && s'.parked.Keys == s.parked.Keys
    requires forall t :: t in s.parked ==> s'.parked[t].request == s.parked[t].request
    ensures WaitersExact(s')
  {
    forall g ensures CountsOn(s'.waiters, s'.parked, g) {
      assert CountsOn(s.waiters, s.parked, g);
      assert ParkedOn(s'.parked, g) == ParkedOn(s.parked, g);
    }
  }

  lemma IncThenDec(waiters: map<string, nat>, g: string)
    requires g in waiters ==> waiters[g] > 0
    ensures DecWaiters(IncWaiters(waiters, g), g) == waiters
  { }

  lemma StepWaiters(s: State, l: Label)
    requires Enabled(s, l) && WaitersExact(s)
    ensures WaitersExact(Next(s, l))
  {
    var s' := Next(s, l);
    match l {
      case JoinStart(tid, g, _, _, timedOut, _, _, _) =>
        if Completes(s, l) {
          SameQueue(s, s');
        } else if timedOut {
          assert CountsOn(s.waiters, s.parked, g);
          IncThenDec(s.waiters, g);
          SameQueue(s, s');
        } else {
          IncExact(s, tid, Parked(RequestOf(s, l).value, true));
          SameQueue(s.(waiters := s'.waiters, parked := s'.parked), s');
        }
      case JoinWake(tid, timedOut, _, _, _) =>
        if Completes(s, l) || timedOut {
          DecExact(s, tid);
          SameQueue(s.(waiters := s'.waiters, parked := s'.parked), s');
        } else {
          SameQueue(s, s');
        }
      case _ => SameQueue(s, s');
    }
  }

  // ---------- runs ----------

  lemma {:induction false} RunNonEmpty(ss: seq<State>, ls: seq<Label>, k: nat)
    requires Run(ss, ls) && k < |ss|
    ensures GroupsNonEmpty(ss[k])
  {
    if k > 0 {
      RunNonEmpty(ss, ls, k - 1);
      forall g ensures NonEmpty(Lookup(ss[k].groups, g)) {
        assert NonEmpty(Lookup(ss[k - 1].groups, g));
        RunStep(ss, ls, k - 1, g);
        StepNonEmpty(ss[k - 1], ls[k - 1], g);
      }
    }
  }

  /** In every reachable state the waiter counters equal the queue lengths. */
  lemma {:induction false} WaitersAlwaysExact(ss: seq<State>, ls: seq<Label>, k: nat)
    requires Run(ss, ls) && k < |ss|
    ensures WaitersExact(ss[k])
  {
    if k > 0 {
      WaitersAlwaysExact(ss, ls, k - 1);
      assert StepAt(ss, ls, k - 1);
      StepWaiters(ss[k - 1], ls[k - 1]);
    }
  }

  // ---------- group deletion ----------

  /** Deleting a group keeps the wakeup law exactly when no Join is asleep on that group. */
  lemma DeleteKeepsWakeupsIff(s: State, g: string)
    requires NoLostWakeup(s)
    ensures NoLostWakeup(Next(s, DeleteGroup(g))) <==>
            NobodyAsleepOn(s, g)
  {
    var s' := Next(s, DeleteGroup(g));
    assert s'.parked == s.parked;
    assert forall h :: Lookup(s'.groups, h) == if h == g then None else Lookup(s.groups, h);
  }

  /** No Join is asleep on `g`. */
  ghost predicate NobodyAsleepOn(s: State, g: string) {
    forall t :: t in s.parked && s.parked[t].request.group == g ==> !s.parked[t].asleep
  }

  /** Step `j` is not a deletion in front of a sleeping Join. */
  ghost predicate DeletesQuietly(ss: seq<State>, ls: seq<Label>, j: nat)
    requires j < |ls| < |ss|
  {
    ls[j].DeleteGroup? ==> NobodyAsleepOn(ss[j], ls[j].group)
  }

  /** From a state without a lost wakeup the next one has none if and only if the step is no such deletion. */
  lemma WakeupStepIff(ss: seq<State>, ls: seq<Label>, j: nat)
    requires Run(ss, ls) && j < |ls| && NoLostWakeup(ss[j])
    ensures NoLostWakeup(ss[j + 1]) <==> DeletesQuietly(ss, ls, j)
  {
    assert StepAt(ss, ls, j);
    if ls[j].DeleteGroup? {
      DeleteKeepsWakeupsIff(ss[j], ls[j].group);
    } else {
      RunNonEmpty(ss, ls, j);
      StepWakeup(ss[j], ls[j]);
    }
  }

  /**
   Over every run: no Join ever sleeps in front of an open fence if and only if
   no group is deleted while a Join is asleep on it.
   */
  lemma {:induction false} NeverSleepsThroughOpenFence(ss: seq<State>, ls: seq<Label>, k: nat)
    requires Run(ss, ls) && k < |ss|
    ensures (forall j :: 0 <= j <= k ==> NoLostWakeup(ss[j])) <==> (forall j :: 0 <= j < k ==> DeletesQuietly(ss, ls, j))
  {
    if k > 0 {
      NeverSleepsThroughOpenFence(ss, ls, k - 1);
      if forall j :: 0 <= j <= k - 1 ==> NoLostWakeup(ss[j]) {
        WakeupStepIff(ss, ls, k - 1);
      }
    }
  }

  /** The first member's Join on an empty coordinator. */
  lemma FirstJoin() returns (l: Label)
    ensures Enabled(INITIAL, l)
    ensures var s := Next(INITIAL, l);
            && "g" in s.groups && s.groups["g"].generation == 1 && s.groups["g"].members.Keys == {"a"}
            && s.groups["g"].members["a"].synced == 0 && s.parked == map[]
  {
    l := JoinStart(1, "g", "a", [], false, "", map[], ["a"]);
    var r := MakeRequest(INITIAL.groups, "g", "a", []);
    var ms := Base(None).members["a" := Fresh([])];
    assert IsOrder(["a"], ms) by { assert IdSet(["a"]) == {"a"} == ms.Keys; }
    assert Completes(INITIAL, l);
    var s := Next(INITIAL, l);
    assert Lookup(s.groups, "g") == Some(CompleteJoin(r, None, "", map[], ["a"]));
  }

  /** A second Join finds the first member unconfirmed and goes to sleep. */
  lemma SecondJoin(s: State) returns (l: Label)
    requires "g" in s.groups && s.groups["g"].generation == 1 && s.groups["g"].members.Keys == {"a"}
    requires s.groups["g"].members["a"].synced == 0 && s.parked == map[]
    ensures Enabled(s, l)
    ensures var s' := Next(s, l);
            2 in s'.parked && s'.parked[2].asleep && s'.parked[2].request.group == "g"
  {
    l := JoinStart(2, "g", "b", [], false, "", map[], []);
    var g := s.groups["g"];
    assert "a" in g.members && g.members["a"].synced != g.generation;
    assert "b" !in g.members by { assert "b"[0] != "a"[0]; }
    assert !Completes(s, l);
  }

  /**
   `delete_group` checks for members and removes under two separate locks and
   does not notify. The check finds no group; a member that joins before the
   removal is removed with the group, and a Join parked behind it is left
   asleep in front of an open fence.
   */
  lemma DeleteLosesWakeup() returns (ss: seq<State>, ls: seq<Label>)
    ensures Run(ss, ls) && |ss| == 5 && ls[0] == CheckDelete("g") && ls[3] == DeleteGroup("g")
    ensures DeleteCheck(ss[0].groups, "g") == OK
    ensures Open(Lookup(ss[4].groups, "g")) && 2 in ss[4].parked && ss[4].parked[2].asleep
    ensures !NoLostWakeup(ss[4])
  {
    ss, ls := Extended([INITIAL], [], CheckDelete("g"));
    CheckChangesNothing();
    var l1 := FirstJoin();
    ss, ls := Extended(ss, ls, l1);
    var l2 := SecondJoin(ss[2]);
    ss, ls := Extended(ss, ls, l2);
    DeleteWhileAsleep(ss[3]);
    ss, ls := Extended(ss, ls, DeleteGroup("g"));
  }

  lemma CheckChangesNothing()
    ensures Next(INITIAL, CheckDelete("g")) == INITIAL
  {
    assert GroupsAfter(INITIAL, CheckDelete("g")) == map[];
  }

  lemma Extended(ss: seq<State>, ls: seq<Label>, l: Label) returns (ss': seq<State>, ls': seq<Label>)
    requires Run(ss, ls) && Enabled(ss[|ls|], l)
    ensures Run(ss', ls') && ss <= ss' && ls <= ls'
    ensures |ls'| == |ls| + 1 && ss'[|ls'|] == Next(ss[|ls|], l) && ls'[|ls|] == l
  {
    ss', ls' := ss + [Next(ss[|ls|], l)], ls + [l];
    ExtendRun(ss, ls, l);
  }

  lemma ExtendRun(ss: seq<State>, ls: seq<Label>, l: Label)
    requires Run(ss, ls) && Enabled(ss[|ls|], l)
    ensures Run(ss + [Next(ss[|ls|], l)], ls + [l])
  {
    var ss', ls' := ss + [Next(ss[|ls|], l)], ls + [l];
    forall i | 0 <= i < |ls'| ensures StepAt(ss', ls', i) {
      if i < |ls| { assert StepAt(ss, ls, i); }
    }
  }

  lemma DeleteWhileAsleep(s: State)
    requires 2 in s.parked && s.parked[2].asleep && s.parked[2].request.group == "g"
    ensures var s' := Next(s, DeleteGroup("g"));
            2 in s'.parked && s'.parked[2].asleep && Open(Lookup(s'.groups, "g")) && !NoLostWakeup(s')
  {
    var s' := Next(s, DeleteGroup("g"));
    assert Lookup(s'.groups, "g") == None;
    assert s'.parked == s.parked;
  }
}
