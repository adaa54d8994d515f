/**
 Consumer groups: the effect of every coordinator operation on one group, and
 the coordinator as a state machine whose atomic steps are the segments that
 hold the `groups` mutex.

 What the code takes from outside is a parameter of the step: the partition
 counts behind the callback, which sessions have timed out, whether a parked
 Join's deadline has passed, the generated member id, and the order in which
 the member HashMap is iterated.
 */
module Group {
  import opened Options
  import opened Assignor
  import opened MultiAssignor

  const GENERATIONS: nat := 0x1_0000_0000

  /** `u32::wrapping_add(1)`. */
  function Bump(generation: nat): nat { (generation + 1) % GENERATIONS }

  datatype Member = Member(topics: seq<string>, assignment: seq<TopicPartition>,
                           delivered: seq<TopicPartition>, synced: nat)

  type Members = map<string, Member>

  datatype Group = Group(generation: nat, members: Members)

  type Groups = map<string, Group>

  function Lookup(groups: Groups, g: string): Option<Group> {
    if g in groups then Some(groups[g]) else None
  }

  /** Every live member has confirmed the current generation. */
  predicate AllSynced(g: Group) {
    forall m :: m in g.members ==> g.members[m].synced == g.generation
  }

  /** The SyncGroup fence lets a Join through; a missing group never fences. */
  predicate Open(og: Option<Group>) {
    og.None? || AllSynced(og.value)
  }

  predicate IsMember(og: Option<Group>, m: string) {
    og.Some? && m in og.value.members
  }

  // ---------- reassignment ----------

  /** `order` enumerates the member map once. */
  ghost predicate IsOrder(order: seq<string>, members: Members) {
    DistinctIds(order) && IdSet(order) == members.Keys
  }

  ghost function Subscribed(members: Members): set<string> {
    set m, t | m in members && t in members[m].topics :: t
  }

  /** Counts of the subscribed topics the broker knows. */
  ghost function KnownCounts(members: Members, counts: map<string, nat>): map<string, nat> {
    map t | t in counts && t in Subscribed(members) :: counts[t]
  }

  ghost function AssignorInput(members: Members, counts: map<string, nat>, order: seq<string>): (inp: Input)
    requires IsOrder(order, members)
    ensures inp.Valid() && inp.ids == order
  {
    OrderedMembers(members, order);
    Input(order,
          seq(|order|, i requires 0 <= i < |order| => members[order[i]].topics),
          KnownCounts(members, counts),
          seq(|order|, i requires 0 <= i < |order| => members[order[i]].assignment))
  }

  lemma OrderedMembers(members: Members, order: seq<string>)
    requires IsOrder(order, members)
    ensures forall i :: 0 <= i < |order| ==> order[i] in members
    ensures forall m :: m in members ==> exists i :: 0 <= i < |order| && order[i] == m
  {
    forall i | 0 <= i < |order| ensures order[i] in members { assert order[i] in IdSet(order); }
  }

  ghost function IndexOf(order: seq<string>, m: string): (i: nat)
    requires m in order
    ensures i < |order| && order[i] == m
  {
    var i: nat :| i < |order| && order[i] == m;
    i
  }

  ghost function Assigned(members: Members, counts: map<string, nat>, order: seq<string>, m: string): seq<TopicPartition>
    requires IsOrder(order, members) && m in members
  {
    assert m in IdSet(order);
    Multi(AssignorInput(members, counts, order))[IndexOf(order, m)]
  }

  ghost function Reassign(members: Members, counts: map<string, nat>, order: seq<string>): (r: Members)
    requires IsOrder(order, members)
    ensures r.Keys == members.Keys
    ensures forall m :: m in members ==> r[m] == members[m].(assignment := r[m].assignment)
  {
    map m | m in members :: members[m].(assignment := Assigned(members, counts, order, m))
  }

  // ---------- operations on one group ----------

  /** SyncGroup's optional lists: known members only, later entries win. */
  function ApplyLists(members: Members, lists: seq<(string, seq<TopicPartition>)>): (r: Members)
    ensures r.Keys == members.Keys
  {
    if lists == [] then members
    else
      var r := ApplyLists(members, lists[..|lists| - 1]);
      var (m, parts) := lists[|lists| - 1];
      if m in r then r[m := r[m].(assignment := parts)] else r
  }

  predicate SyncAccepted(og: Option<Group>, m: string, generation: nat) {
    IsMember(og, m) && generation == og.value.generation
  }

  function Sync(og: Option<Group>, m: string, generation: nat, lists: seq<(string, seq<TopicPartition>)>): Option<Group> {
    if SyncAccepted(og, m, generation) then
      var ms := ApplyLists(og.value.members, lists);
      Some(og.value.(members := ms[m := ms[m].(synced := generation)]))
    else og
  }

  /** Members other than `gone`. */
  function Without(members: Members, gone: set<string>): (r: Members)
    ensures r.Keys == members.Keys - gone
  {
    map m | m in members && m !in gone :: members[m]
  }

  function Present(g: Group): Option<Group> { if g.members == map[] then None else Some(g) }

  /** Bump, reassign, and forget the group if nobody is left. */
  ghost function Rebalance(g: Group, counts: map<string, nat>, order: seq<string>): Option<Group>
    requires IsOrder(order, g.members)
  {
    Present(Group(Bump(g.generation), Reassign(g.members, counts, order)))
  }

  ghost function Leave(og: Option<Group>, m: string, counts: map<string, nat>, order: seq<string>): Option<Group>
    requires IsMember(og, m) ==> IsOrder(order, Without(og.value.members, {m}))
  {
    if IsMember(og, m) then Rebalance(og.value.(members := Without(og.value.members, {m})), counts, order) else og
  }

  predicate Loses(g: Group, dead: set<string>) { g.members.Keys * dead != {} }

  /** `expire_sessions`: a group that lost a member is bumped and reassigned. */
  ghost function Expire(og: Option<Group>, dead: set<string>, counts: map<string, nat>, order: seq<string>): Option<Group>
    requires og.Some? && Loses(og.value, dead) ==> IsOrder(order, Without(og.value.members, dead))
  {
    if og.None? then None
    else if Loses(og.value, dead) then
      Rebalance(og.value.(members := Without(og.value.members, dead)), counts, order)
    else Present(og.value)
  }

  /** `expire_sessions_inner`: drop the dead, keep generation and assignments. */
  function Drop(og: Option<Group>, dead: set<string>): Option<Group> {
    if og.None? then None else Present(og.value.(members := Without(og.value.members, dead)))
  }

  function Deliver(members: Members, m: string): (r: Members)
    requires m in members
    ensures r.Keys == members.Keys
  {
    members[m := members[m].(delivered := members[m].assignment)]
  }

  /** A live member joins again: refresh; bump and reassign only if its topics changed. */
  ghost function Rejoin(g: Group, m: string, topics: seq<string>, changed: bool,
                        counts: map<string, nat>, order: seq<string>): Group
    requires m in g.members && (changed ==> IsOrder(order, g.members))
  {
    var ms := g.members[m := g.members[m].(topics := topics)];
    assert ms.Keys == g.members.Keys;
    if changed then Group(Bump(g.generation), Deliver(Reassign(ms, counts, order), m))
    else Group(g.generation, Deliver(ms, m))
  }

  function Base(og: Option<Group>): Group { if og.Some? then og.value else Group(0, map[]) }

  function Fresh(topics: seq<string>): Member { Member(topics, [], [], 0) }

  /** A new member, or an unknown id taken at its word. */
  ghost function Insert(og: Option<Group>, m: string, topics: seq<string>,
                        counts: map<string, nat>, order: seq<string>): Group
    requires IsOrder(order, Base(og).members[m := Fresh(topics)])
  {
    var ms := Base(og).members[m := Fresh(topics)];
    Group(Bump(Base(og).generation), Deliver(Reassign(ms, counts, order), m))
  }

  // ---------- joins ----------

  const STATIC_PREFIX := "static:"

  /** Explicit id, else the static instance id, else empty (one is generated). */
  function ResolveId(memberId: string, instanceId: string): string {
    if memberId != "" then memberId else if instanceId != "" then STATIC_PREFIX + instanceId else ""
  }

  /** One JoinGroup call after its id is resolved; `live` and `changed` are read when it starts. */
  datatype Request = Request(group: string, id: string, topics: seq<string>, live: bool, changed: bool)

  function MakeRequest(groups: Groups, g: string, id: string, topics: seq<string>): Request {
    var og := Lookup(groups, g);
    var live := id != "" && IsMember(og, id);
    Request(g, id, topics, live, live && og.value.members[id].topics != topics)
  }

  predicate Rejoins(r: Request, og: Option<Group>) { r.live && IsMember(og, r.id) }

  /** A live member with unchanged topics is never fenced. */
  predicate Fenced(r: Request, og: Option<Group>) {
    (!Rejoins(r, og) || r.changed) && !Open(og)
  }

  /** The id a completing Join inserts or refreshes. */
  function Joiner(r: Request, uuid: string): string {
    if r.id == "" then uuid else r.id
  }

  ghost predicate JoinOrder(r: Request, og: Option<Group>, uuid: string, order: seq<string>) {
    if Rejoins(r, og) then r.changed ==> IsOrder(order, og.value.members)
    else IsOrder(order, Base(og).members[Joiner(r, uuid) := Fresh(r.topics)])
  }

  ghost function CompleteJoin(r: Request, og: Option<Group>, uuid: string, counts: map<string, nat>, order: seq<string>): Group
    requires JoinOrder(r, og, uuid, order)
  {
    if Rejoins(r, og) then Rejoin(og.value, r.id, r.topics, r.changed, counts, order)
    else Insert(og, Joiner(r, uuid), r.topics, counts, order)
  }

  // ---------- the coordinator ----------

  /** A Join waiting on the condvar; `asleep` until a notify_all reaches it. */
  datatype Parked = Parked(request: Request, asleep: bool)

  datatype State = State(groups: Groups, waiters: map<string, nat>, parked: map<nat, Parked>)

  const INITIAL := State(map[], map[], map[])

  datatype Label =
    | JoinStart(tid: nat, group: string, id: string, topics: seq<string>,
                timedOut: bool, uuid: string, counts: map<string, nat>, order: seq<string>)
    | JoinWake(tid: nat, timedOut: bool, uuid: string, counts: map<string, nat>, order: seq<string>)
    | Heartbeat(group: string, member: string, generation: nat)
    | SyncGroup(group: string, member: string, generation: nat, lists: seq<(string, seq<TopicPartition>)>)
    | LeaveGroup(group: string, member: string, counts: map<string, nat>, order: seq<string>)
    | ExpireSessions(dead: map<string, set<string>>, counts: map<string, nat>, orders: map<string, seq<string>>)
    | ExpireInner(dead: map<string, set<string>>)
    | CheckDelete(group: string)
    | DeleteGroup(group: string)

  /** The Join that step `l` may complete, if it is a Join step. */
  function RequestOf(s: State, l: Label): Option<Request> {
    match l
    case JoinStart(_, g, id, topics, _, _, _, _) => Some(MakeRequest(s.groups, g, id, topics))
    case JoinWake(tid, _, _, _, _) => if tid in s.parked then Some(s.parked[tid].request) else None
    case _ => None
  }

  /** Step `l` completes its Join: it is not fenced. */
  predicate Completes(s: State, l: Label) {
    var r := RequestOf(s, l);
    r.Some? && !Fenced(r.value, Lookup(s.groups, r.value.group))
  }

  function DeadIn(dead: map<string, set<string>>, g: string): set<string> {
    if g in dead then dead[g] else {}
  }

  function OrderIn(orders: map<string, seq<string>>, g: string): seq<string> {
    if g in orders then orders[g] else []
  }

  ghost predicate Enabled(s: State, l: Label) {
    match l
    case JoinStart(tid, g, _, _, _, uuid, _, order) =>
      && tid !in s.parked
      && (Completes(s, l) ==> JoinOrder(RequestOf(s, l).value, Lookup(s.groups, g), uuid, order))
    case JoinWake(tid, timedOut, uuid, _, order) =>
      && tid in s.parked && (timedOut || !s.parked[tid].asleep)
      && (Completes(s, l) ==> JoinOrder(RequestOf(s, l).value, Lookup(s.groups, RequestOf(s, l).value.group), uuid, order))
    case LeaveGroup(g, m, _, order) =>
      IsMember(Lookup(s.groups, g), m) ==> IsOrder(order, Without(s.groups[g].members, {m}))
    case ExpireSessions(dead, _, orders) =>
      forall g :: g in s.groups && Loses(s.groups[g], DeadIn(dead, g)) ==>
                    IsOrder(OrderIn(orders, g), Without(s.groups[g].members, DeadIn(dead, g)))
    case _ => true
  }

  /** What step `l` makes of group `g`. */
  ghost function After(s: State, l: Label, g: string): Option<Group>
    requires Enabled(s, l)
  {
    var og := Lookup(s.groups, g);
    match l
    case JoinStart(_, _, _, _, _, uuid, counts, order) =>
      if Completes(s, l) && RequestOf(s, l).value.group == g
      then Some(CompleteJoin(RequestOf(s, l).value, og, uuid, counts, order)) else og
    case JoinWake(_, _, uuid, counts, order) =>
      if Completes(s, l) && RequestOf(s, l).value.group == g
      then Some(CompleteJoin(RequestOf(s, l).value, og, uuid, counts, order)) else og
    case Heartbeat(_, _, _) => og
    case SyncGroup(g', m, generation, lists) => if g == g' then Sync(og, m, generation, lists) else og
    case LeaveGroup(g', m, counts, order) => if g == g' then Leave(og, m, counts, order) else og
    case ExpireSessions(dead, counts, orders) =>
      Expire(og, DeadIn(dead, g), counts, OrderIn(orders, g))
    case ExpireInner(dead) => Drop(og, DeadIn(dead, g))
    case CheckDelete(_) => og
    case DeleteGroup(g') => if g == g' then None else og
  }

  /** The groups a step can leave in the map. */
  ghost function Touched(s: State, l: Label): set<string> {
    s.groups.Keys + if RequestOf(s, l).Some? then {RequestOf(s, l).value.group} else {}
  }

  ghost function GroupsAfter(s: State, l: Label): (r: Groups)
    requires Enabled(s, l)
    ensures forall g :: Lookup(r, g) == After(s, l, g)
  {
    map g | g in Touched(s, l) && After(s, l, g).Some? :: After(s, l, g).value
  }

  /** The step ends with `join_park.notify_all()`. */
  predicate Notifies(s: State, l: Label) {
    match l
    case SyncGroup(g, m, generation, _) => SyncAccepted(Lookup(s.groups, g), m, generation)
    case LeaveGroup(g, m, _, _) => IsMember(Lookup(s.groups, g), m)
    case ExpireSessions(dead, _, _) => exists g :: g in s.groups && Loses(s.groups[g], DeadIn(dead, g))
    case ExpireInner(dead) => exists g :: g in s.groups && Loses(s.groups[g], DeadIn(dead, g))
    case _ => false
  }

  function WakeAll(parked: map<nat, Parked>): (r: map<nat, Parked>)
    ensures r.Keys == parked.Keys
  {
    map t | t in parked :: parked[t].(asleep := false)
  }

  /** A fenced Join that may still wait goes to sleep; a finished one leaves the queue. */
  function ParkedAfter(s: State, l: Label): map<nat, Parked> {
    match l
    case JoinStart(tid, _, _, _, timedOut, _, _, _) =>
      if Completes(s, l) || timedOut then s.parked
      else s.parked[tid := Parked(RequestOf(s, l).value, true)]
    case JoinWake(tid, timedOut, _, _, _) =>
      if tid !in s.parked then s.parked
      else if Completes(s, l) || timedOut then s.parked - {tid}
      else s.parked[tid := s.parked[tid].(asleep := true)]
    case _ => if Notifies(s, l) then WakeAll(s.parked) else s.parked
  }

  function IncWaiters(waiters: map<string, nat>, g: string): map<string, nat> {
    waiters[g := (if g in waiters then waiters[g] else 0) + 1]
  }

  function DecWaiters(waiters: map<string, nat>, g: string): map<string, nat> {
    if g in waiters && waiters[g] > 1 then waiters[g := waiters[g] - 1]
    else if g in waiters then waiters - {g}
    else waiters
  }

  function WaitersAfter(s: State, l: Label): map<string, nat> {
    match l
    case JoinStart(_, g, _, _, timedOut, _, _, _) =>
      if Completes(s, l) then s.waiters
      else if timedOut then DecWaiters(IncWaiters(s.waiters, g), g)
      else IncWaiters(s.waiters, g)
    case JoinWake(tid, timedOut, _, _, _) =>
      if tid in s.parked && (Completes(s, l) || timedOut) then DecWaiters(s.waiters, s.parked[tid].request.group)
      else s.waiters
    case _ => s.waiters
  }

  ghost function Next(s: State, l: Label): State
    requires Enabled(s, l)
  {
    State(GroupsAfter(s, l), WaitersAfter(s, l), ParkedAfter(s, l))
  }

  // ---------- queries ----------

  datatype Ownership = Allow | UnknownMember | NotAssigned

  function MemberOwns(groups: Groups, g: string, m: string, t: string, p: nat): Ownership {
    if g !in groups || m !in groups[g].members then UnknownMember
    else if (t, p) in groups[g].members[m].assignment then Allow
    else NotAssigned
  }

  const OK: nat := 0
  const REBALANCE_IN_PROGRESS: nat := 9
  const UNKNOWN_MEMBER_ID: nat := 10
  const ILLEGAL_GENERATION: nat := 11
  const NON_EMPTY_GROUP: nat := 68

  /** The member check of `delete_group`, under a lock of its own: the deletion goes on unless members are live. */
  function DeleteCheck(groups: Groups, g: string): nat {
    if g in groups && groups[g].members != map[] then NON_EMPTY_GROUP else OK
  }

  /** `check_commit_fence`. */
  function CommitFence(groups: Groups, g: string, m: string, generation: nat): nat {
    if g !in groups || (m != "" && m !in groups[g].members) then UNKNOWN_MEMBER_ID
    else if generation != groups[g].generation then ILLEGAL_GENERATION
    else if m != "" && groups[g].members[m].synced != generation then REBALANCE_IN_PROGRESS
    else OK
  }
}
