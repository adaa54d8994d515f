/**
 The DeleteRecords outbox: pending truncates per (replica, topic, partition),
 retried until acknowledged. Module-level functions say what each operation
 does to the map; runs interleave enqueues, in-flight retries and restarts.
 */
module Outbox {
  type Key = (nat, string, nat)

  datatype Target = Target(offset: nat, epoch: int)

  type Pending = map<Key, Target>

  datatype Entry = Entry(replica: nat, topic: string, partition: nat, offset: nat, epoch: int)

  function KeyOf(e: Entry): Key { (e.replica, e.topic, e.partition) }

  function TargetOf(e: Entry): Target { Target(e.offset, e.epoch) }

  function EntryOf(k: Key, t: Target): Entry { Entry(k.0, k.1, k.2, t.offset, t.epoch) }

  // ---------- operations ----------

  /** A full outbox refuses only keys it does not have. */
  predicate Accepts(m: Pending, cap: nat, k: Key) { k in m || |m| < cap }

  function Enqueue(m: Pending, cap: nat, k: Key, offset: nat, epoch: int): Pending {
    if k in m then
      if offset > m[k].offset then m[k := Target(offset, epoch)]
      else if offset == m[k].offset && epoch > m[k].epoch then m[k := m[k].(epoch := epoch)]
      else m
    else if |m| >= cap then m
    else m[k := Target(offset, epoch)]
  }

  /** Remove unless a higher target has been enqueued meanwhile. */
  function Remove(m: Pending, k: Key, offset: nat): Pending {
    if k in m && m[k].offset <= offset then m - {k} else m
  }

  /** Reload: the first of the highest offset per key wins. */
  function Load(es: seq<Entry>): Pending {
    if es == [] then map[]
    else
      var r := Load(es[..|es| - 1]);
      var e := es[|es| - 1];
      if KeyOf(e) in r && r[KeyOf(e)].offset >= e.offset then r else r[KeyOf(e) := TargetOf(e)]
  }

  /** `es` lists `m`, once per key. */
  ghost predicate Lists(es: seq<Entry>, m: Pending) {
    && (forall e :: e in es <==> KeyOf(e) in m && m[KeyOf(e)] == TargetOf(e))
    && (forall i, j :: 0 <= i < j < |es| ==> KeyOf(es[i]) != KeyOf(es[j]))
  }

  lemma {:induction false} LoadKeys(es: seq<Entry>, k: Key)
    requires k in Load(es)
    ensures exists i :: 0 <= i < |es| && KeyOf(es[i]) == k
  {
    var n := |es| - 1;
    if KeyOf(es[n]) != k {
      LoadKeys(es[..n], k);
      var i :| 0 <= i < n && KeyOf(es[..n][i]) == k;
      assert KeyOf(es[i]) == k;
    }
  }

  lemma {:induction false} LoadAt(es: seq<Entry>, i: nat)
    requires i < |es| && forall a, b :: 0 <= a < b < |es| ==> KeyOf(es[a]) != KeyOf(es[b])
    ensures KeyOf(es[i]) in Load(es) && Load(es)[KeyOf(es[i])] == TargetOf(es[i])
  {
    var n := |es| - 1;
    if i == n {
      if KeyOf(es[n]) in Load(es[..n]) {
        LoadKeys(es[..n], KeyOf(es[n]));
        assert false;
      }
    } else {
      LoadAt(es[..n], i);
    }
  }

  /** Reopening a saved file restores exactly the map it was written from. */
  lemma ReopenRestores(m: Pending, es: seq<Entry>)
    requires Lists(es, m)
    ensures Load(es) == m
  {
    forall k | k in m ensures k in Load(es) && Load(es)[k] == m[k] {
      var e := EntryOf(k, m[k]);
      assert KeyOf(e) == k && TargetOf(e) == m[k];
      assert e in es;
      var i :| 0 <= i < |es| && es[i] == e;
      LoadAt(es, i);
    }
    forall k | k in Load(es) ensures k in m {
      LoadKeys(es, k);
      var i :| 0 <= i < |es| && KeyOf(es[i]) == k;
      assert es[i] in es;
    }
  }

  // ---------- runs ----------

  /** A retry on the wire, carrying the target it was sent with. */
  datatype Flight = Flight(key: Key, offset: nat)

  datatype State = State(pending: Pending, disk: Pending, flights: map<nat, Flight>)

  datatype Label =
    | Enqueued(k: Key, offset: nat, epoch: int, saved: bool)
    | Sent(f: nat, k: Key)
    | Acked(f: nat, saved: bool)
    | Failed(f: nat)
    | Dropped(k: Key, saved: bool)
    | Restarted

  predicate Enabled(s: State, l: Label) {
    match l
    case Sent(f, k) => f !in s.flights && k in s.pending
    case Acked(f, _) => f in s.flights
    case Failed(f) => f in s.flights
    case _ => true
  }

  /** Every operation that changes the map tries to save it under the same lock. */
  function Update(s: State, pending: Pending, saved: bool): State {
    if pending == s.pending then s else s.(pending := pending, disk := if saved then pending else s.disk)
  }

  function Next(s: State, l: Label, cap: nat): State
    requires Enabled(s, l)
  {
    match l
    case Enqueued(k, offset, epoch, saved) => Update(s, Enqueue(s.pending, cap, k, offset, epoch), saved)
    case Sent(f, k) => s.(flights := s.flights[f := Flight(k, s.pending[k].offset)])
    case Acked(f, saved) =>
      Update(s.(flights := s.flights - {f}), Remove(s.pending, s.flights[f].key, s.flights[f].offset), saved)
    case Failed(f) => s.(flights := s.flights - {f})
    case Dropped(k, saved) => Update(s, s.pending - {k}, saved)
    case Restarted => State(s.disk, s.disk, map[])
  }

  ghost predicate StepAt(ss: seq<State>, ls: seq<Label>, cap: nat, i: nat)
    requires i < |ls| < |ss|
  {
    Enabled(ss[i], ls[i]) && ss[i + 1] == Next(ss[i], ls[i], cap)
  }

  ghost predicate Run(ss: seq<State>, ls: seq<Label>, cap: nat) {
    |ss| == |ls| + 1 && forall i :: 0 <= i < |ls| ==> StepAt(ss, ls, cap, i)
  }

  predicate Holds(m: Pending, k: Key, x: nat) { k in m && m[k].offset >= x }

  /** Step `l` acknowledges a retry of `k` that carried at least `x`. */
  predicate Acknowledges(s: State, l: Label, k: Key, x: nat) {
    l.Acked? && l.f in s.flights && s.flights[l.f].key == k && s.flights[l.f].offset >= x
  }

  /** The step loses nothing: a restart finds the last change on disk. */
  predicate Durable(s: State, l: Label) { l == Restarted ==> s.disk == s.pending }

  /** A pending target survives every step but its acknowledgement or an explicit drop. */
  lemma HoldsOrAcked(s: State, l: Label, cap: nat, k: Key, x: nat)
    requires Enabled(s, l) && Durable(s, l) && Holds(s.pending, k, x)
    ensures Holds(Next(s, l, cap).pending, k, x) || Acknowledges(s, l, k, x) || (l.Dropped? && l.k == k)
  { }

  lemma EnqueueHolds(m: Pending, cap: nat, k: Key, offset: nat, epoch: int)
    requires Accepts(m, cap, k)
    ensures Holds(Enqueue(m, cap, k, offset, epoch), k, offset)
  { }

  /** At some step from `i` on, before `n`, target `k` was acknowledged at `x` or more. */
  ghost predicate AckedBetween(ss: seq<State>, ls: seq<Label>, i: nat, n: nat, k: Key, x: nat)
    requires n <= |ls| < |ss|
  {
    exists j :: i <= j < n && Acknowledges(ss[j], ls[j], k, x)
  }

  predicate DroppedBetween(ls: seq<Label>, i: nat, n: nat, k: Key)
    requires n <= |ls|
  {
    exists j :: i <= j < n && ls[j].Dropped? && ls[j].k == k
  }

  lemma {:induction false} PendingUntilAcked(ss: seq<State>, ls: seq<Label>, cap: nat, i: nat, n: nat, k: Key, x: nat)
    requires Run(ss, ls, cap) && i <= n < |ss| && Holds(ss[i].pending, k, x)
    requires forall j :: i <= j < n ==> Durable(ss[j], ls[j])
    ensures Holds(ss[n].pending, k, x) || AckedBetween(ss, ls, i, n, k, x) || DroppedBetween(ls, i, n, k)
    decreases n
  {
    if i < n {
      PendingUntilAcked(ss, ls, cap, i, n - 1, k, x);
      if AckedBetween(ss, ls, i, n - 1, k, x) {
        var j :| i <= j < n - 1 && Acknowledges(ss[j], ls[j], k, x);
        assert AckedBetween(ss, ls, i, n, k, x);
      } else if DroppedBetween(ls, i, n - 1, k) {
        var j :| i <= j < n - 1 && ls[j].Dropped? && ls[j].k == k;
        assert DroppedBetween(ls, i, n, k);
      } else {
        assert StepAt(ss, ls, cap, n - 1);
        HoldsOrAcked(ss[n - 1], ls[n - 1], cap, k, x);
      }
    }
  }

  /**
   At least once: an enqueue of offset `x` accepted at step `i` is, at every
   later point, still pending at `x` or more, or was acknowledged at `x` or
   more, or was explicitly dropped.
   */
  lemma AtLeastOnce(ss: seq<State>, ls: seq<Label>, cap: nat, i: nat, n: nat, k: Key, x: nat, epoch: int, saved: bool)
    requires Run(ss, ls, cap) && i < n < |ss| && ls[i] == Enqueued(k, x, epoch, saved) && Accepts(ss[i].pending, cap, k)
    requires forall j :: i < j < n ==> Durable(ss[j], ls[j])
    ensures Holds(ss[n].pending, k, x) || AckedBetween(ss, ls, i + 1, n, k, x) || DroppedBetween(ls, i + 1, n, k)
  {
    assert StepAt(ss, ls, cap, i);
    EnqueueHolds(ss[i].pending, cap, k, x, epoch);
    PendingUntilAcked(ss, ls, cap, i + 1, n, k, x);
  }

  predicate Saves(l: Label) {
    match l
    case Enqueued(_, _, _, saved) => saved
    case Acked(_, saved) => saved
    case Dropped(_, saved) => saved
    case _ => true
  }

  /** While saves succeed the disk is never behind, so every restart is durable. */
  lemma {:induction false} SavedRunsAreDurable(ss: seq<State>, ls: seq<Label>, cap: nat, n: nat)
    requires Run(ss, ls, cap) && n < |ss| && ss[0].disk == ss[0].pending
    requires forall j :: 0 <= j < n ==> Saves(ls[j])
    ensures ss[n].disk == ss[n].pending
  {
    if n > 0 {
      SavedRunsAreDurable(ss, ls, cap, n - 1);
      assert StepAt(ss, ls, cap, n - 1);
    }
  }

  /** A higher enqueue that races an in-flight retry is not erased by its acknowledgement. */
  lemma RacingEnqueueSurvives(s: State, f: nat, x: nat, epoch: int, cap: nat, saved: bool, saved': bool)
    requires f in s.flights && s.flights[f].key in s.pending && x > s.flights[f].offset
    ensures var k := s.flights[f].key;
            var s1 := Next(s, Enqueued(k, x, epoch, saved), cap);
            && Enabled(s1, Acked(f, saved'))
            && Next(s1, Acked(f, saved'), cap).pending == s1.pending
            && Holds(s1.pending, k, x)
  {
    EnqueueHolds(s.pending, cap, s.flights[f].key, x, epoch);
  }

  /** A failed save followed by a restart does lose an accepted enqueue. */
  lemma FailedSaveLosesEnqueue(k: Key)
    ensures var s0 := State(map[], map[], map[]);
            var s1 := Next(s0, Enqueued(k, 5, 0, false), 1);
            Holds(s1.pending, k, 5) && !Durable(s1, Restarted) && Next(s1, Restarted, 1).pending == map[]
  {
    var s0 := State(map[], map[], map[]);
    var s1 := Next(s0, Enqueued(k, 5, 0, false), 1);
    assert k in Enqueue(s0.pending, 1, k, 5, 0);
  }

  /** Some step from `i` on, before `n`, changed the map and saved it. */
  ghost predicate SavedBetween(ss: seq<State>, ls: seq<Label>, i: nat, n: nat)
    requires n <= |ls| < |ss|
  {
    exists j :: i <= j < n && ChangeSaved(ss, ls, j)
  }

  ghost predicate ChangeSaved(ss: seq<State>, ls: seq<Label>, j: nat)
    requires j < |ls| < |ss|
  {
    ss[j + 1].pending != ss[j].pending && Saves(ls[j])
  }

  /** Nothing between `i` and `n` could take the target of `k` at `x` away, and nothing restarted. */
  ghost predicate Undisturbed(ss: seq<State>, ls: seq<Label>, i: nat, n: nat, k: Key, x: nat)
    requires n <= |ls| < |ss|
  {
    && !AckedBetween(ss, ls, i, n, k, x) && !DroppedBetween(ls, i, n, k)
    && forall j :: i <= j < n ==> ls[j] != Restarted
  }

  /** What the disk holds of an accepted enqueue: what it held before, or what any later saved change wrote. */
  lemma {:induction false} OnDiskIff(ss: seq<State>, ls: seq<Label>, cap: nat, i: nat, n: nat, k: Key, x: nat)
    requires Run(ss, ls, cap) && i < n < |ss| && ls[i].Enqueued? && ls[i].k == k && ls[i].offset == x
    requires Accepts(ss[i].pending, cap, k) && Undisturbed(ss, ls, i + 1, n, k, x)
    ensures Holds(ss[n].pending, k, x)
    ensures Holds(ss[n].disk, k, x) <==> Holds(ss[i].disk, k, x) || SavedBetween(ss, ls, i, n)
    decreases n
  {
    assert StepAt(ss, ls, cap, n - 1);
    if n == i + 1 {
      EnqueueHolds(ss[i].pending, cap, k, x, ls[i].epoch);
      assert SavedBetween(ss, ls, i, n) <==> ChangeSaved(ss, ls, i);
    } else {
      assert ls[n - 1] != Restarted;
      assert !Acknowledges(ss[n - 1], ls[n - 1], k, x) && !(ls[n - 1].Dropped? && ls[n - 1].k == k);
      OnDiskIff(ss, ls, cap, i, n - 1, k, x);
      HoldsOrAcked(ss[n - 1], ls[n - 1], cap, k, x);
      assert SavedBetween(ss, ls, i, n) <==> SavedBetween(ss, ls, i, n - 1) || ChangeSaved(ss, ls, n - 1);
    }
  }

  /**
   An accepted enqueue at `i`, neither acknowledged nor dropped since, survives
   the next restart, at `n`, if and only if the disk held it already or some
   change from the enqueue on was saved.
   */
  lemma RestartKeepsEnqueueIff(ss: seq<State>, ls: seq<Label>, cap: nat, i: nat, n: nat, k: Key, x: nat)
    requires Run(ss, ls, cap) && i < n < |ls| && ls[i].Enqueued? && ls[i].k == k && ls[i].offset == x && ls[n] == Restarted
    requires Accepts(ss[i].pending, cap, k) && Undisturbed(ss, ls, i + 1, n, k, x)
    ensures Holds(ss[n + 1].pending, k, x) <==> Holds(ss[i].disk, k, x) || SavedBetween(ss, ls, i, n)
  {
    OnDiskIff(ss, ls, cap, i, n, k, x);
    assert StepAt(ss, ls, cap, n);
  }

  // ---------- the object ----------

  method ListEntries(m: Pending) returns (es: seq<Entry>)
    ensures Lists(es, m)
  {
    es := [];
    var todo := m.Keys;
    while todo != {}
      invariant todo <= m.Keys
      invariant forall e :: e in es <==> KeyOf(e) in m && KeyOf(e) !in todo && m[KeyOf(e)] == TargetOf(e)
      invariant forall i, j :: 0 <= i < j < |es| ==> KeyOf(es[i]) != KeyOf(es[j])
      decreases todo
    {
      var k :| k in todo;
      assert forall i :: 0 <= i < |es| ==> es[i] in es;
      es := es + [EntryOf(k, m[k])];
      todo := todo - {k};
    }
  }

  class DeleteRecordsOutbox {
    const cap: nat
    var pending: Pending
    var disk: seq<Entry>

    /** The object as a state of the run model, with the retries `flights` on the wire. */
    ghost function Now(flights: map<nat, Flight>): State
      reads this
    {
      State(pending, Load(disk), flights)
    }

    /** `open_with_max`: reload the file, keeping the highest offset per key. */
    constructor (file: seq<Entry>, maxEntries: nat)
      ensures pending == Load(file) && disk == file && cap == (if maxEntries == 0 then 1 else maxEntries)
    {
      var m: Pending := map[];
      for i := 0 to |file|
        invariant m == Load(file[..i])
      {
        assert file[..i + 1][..i] == file[..i];
        var e := file[i];
        if !(KeyOf(e) in m && m[KeyOf(e)].offset >= e.offset) { m := m[KeyOf(e) := TargetOf(e)]; }
      }
      assert file[..|file|] == file;
      pending, disk := m, file;
      cap := if maxEntries == 0 then 1 else maxEntries;
    }

    method Persist(saved: bool)
      modifies this`disk
      ensures Load(disk) == if saved then pending else Load(old(disk))
    {
      var es := ListEntries(pending);
      ReopenRestores(pending, es);
      if saved { disk := es; }
    }

    /** True unless the outbox was full and the key new. */
    method Add(k: Key, offset: nat, epoch: int, saved: bool, ghost flights: map<nat, Flight>) returns (accepted: bool)
      modifies this`pending, this`disk
      ensures accepted == Accepts(old(pending), cap, k)
      ensures Now(flights) == Next(old(Now(flights)), Enqueued(k, offset, epoch, saved), cap)
    {
      if k in pending {
        var cur := pending[k];
        if offset > cur.offset {
          pending := pending[k := Target(offset, epoch)];
          Persist(saved);
        } else if offset == cur.offset && epoch > cur.epoch {
          pending := pending[k := cur.(epoch := epoch)];
          Persist(saved);
        }
        return true;
      }
      if |pending| >= cap { return false; }
      pending := pending[k := Target(offset, epoch)];
      Persist(saved);
      accepted := true;
    }

    /** `remove` / `note_retry_success`. */
    method RetrySucceeded(k: Key, offset: nat, saved: bool, ghost flights: map<nat, Flight>, ghost f: nat) returns (removed: bool)
      requires f in flights && flights[f] == Flight(k, offset)
      modifies this`pending, this`disk
      ensures removed <==> pending != old(pending)
      ensures Now(flights - {f}) == Next(old(Now(flights)), Acked(f, saved), cap)
    {
      removed := k in pending && pending[k].offset <= offset;
      if removed {
        pending := pending - {k};
        assert pending != old(pending) by { assert k in old(pending) && k !in pending; }
        Persist(saved);
      }
    }

    method DropEntry(k: Key, saved: bool, ghost flights: map<nat, Flight>)
      modifies this`pending, this`disk
      ensures Now(flights) == Next(old(Now(flights)), Dropped(k, saved), cap)
    {
      if k in pending {
        pending := pending - {k};
        assert k in old(pending) && k !in pending;
        Persist(saved);
      } else {
        assert pending - {k} == pending;
      }
    }
  }

  // ---------- one entry at a time ----------

  /** An accepted enqueue leaves the larger target, offset first and then epoch, and touches no other key. */
  lemma EnqueueTakesEffect(m: Pending, cap: nat, k: Key, offset: nat, epoch: int)
    ensures Enqueue(m, cap, k, offset, epoch) ==
            if k !in m && |m| >= cap then m
            else if k in m && (m[k].offset > offset || (m[k].offset == offset && m[k].epoch >= epoch)) then m
            else m[k := Target(offset, epoch)]
  { }

  /** An acknowledgement clears its key exactly if nothing higher was enqueued since it was sent, and touches no other. */
  lemma AckTakesEffect(s: State, f: nat, saved: bool, cap: nat, k: Key)
    requires f in s.flights
    ensures var r := Next(s, Acked(f, saved), cap).pending;
            && (k in r <==> k in s.pending && !(k == s.flights[f].key && s.pending[k].offset <= s.flights[f].offset))
            && (k in r ==> r[k] == s.pending[k])
  { }

  /** A drop removes its key and no other; a failed retry changes nothing but what is on the wire. */
  lemma DropTakesEffect(s: State, l: Label, cap: nat)
    requires Enabled(s, l)
    ensures l.Dropped? ==> Next(s, l, cap).pending == s.pending - {l.k} && Next(s, l, cap).flights == s.flights
    ensures l.Failed? ==> Next(s, l, cap) == State(s.pending, s.disk, s.flights - {l.f})
  { }

  /** Reloading a file finds, for every key in it, the first entry of its highest offset. */
  lemma {:induction false} LoadFindsHighest(es: seq<Entry>, i: nat) returns (j: nat)
    requires i < |es|
    ensures j < |es| && KeyOf(es[j]) == KeyOf(es[i]) && KeyOf(es[i]) in Load(es) && Load(es)[KeyOf(es[i])] == TargetOf(es[j])
    ensures forall a :: 0 <= a < |es| && KeyOf(es[a]) == KeyOf(es[i]) ==> es[a].offset <= es[j].offset && (a < j ==> es[a].offset < es[j].offset)
  {
    var n, k := |es| - 1, KeyOf(es[i]);
    var before := es[..n];
    assert forall a :: 0 <= a < n ==> before[a] == es[a];
    j := n;
    if k in Load(before) {
      var x := SomeWithKey(before, k);
      j := LoadFindsHighest(before, x);
      if KeyOf(es[n]) == k && es[n].offset > es[j].offset { j := n; }
    } else {
      forall a | 0 <= a < n ensures KeyOf(es[a]) != k { if KeyOf(before[a]) == k { var y := LoadFindsHighest(before, a); } }
    }
  }

  lemma SomeWithKey(es: seq<Entry>, k: Key) returns (i: nat)
    requires k in Load(es)
    ensures i < |es| && KeyOf(es[i]) == k
  {
    LoadKeys(es, k);
    i :| i < |es| && KeyOf(es[i]) == k;
  }

  /** The retry of `k` sent as `f` is still on the wire, for at least what is pending. */
  ghost predicate OnTheWire(s: State, f: nat, k: Key) {
    f in s.flights && s.flights[f].key == k && (k in s.pending ==> s.pending[k].offset <= s.flights[f].offset)
  }

  /** The step leaves the retry `f` and the target `k` to themselves. */
  predicate LeavesAlone(l: Label, f: nat, k: Key) {
    match l
    case Enqueued(x, _, _, _) => x != k
    case Sent(g, _) => g != f
    case Acked(g, _) => g != f
    case Failed(g) => g != f
    case Dropped(_, _) => true
    case Restarted => false
  }

  lemma {:induction false} StaysOnTheWire(ss: seq<State>, ls: seq<Label>, cap: nat, i: nat, n: nat, f: nat, k: Key)
    requires Run(ss, ls, cap) && i < n < |ss| && ls[i] == Sent(f, k) && forall j :: i < j < n ==> LeavesAlone(ls[j], f, k)
    ensures OnTheWire(ss[n], f, k)
    decreases n
  {
    assert StepAt(ss, ls, cap, n - 1);
    if i + 1 < n {
      StaysOnTheWire(ss, ls, cap, i, n - 1, f, k);
      assert LeavesAlone(ls[n - 1], f, k);
    }
  }

  /** Over every run: a retry sent at `i` and acknowledged at `n`, with nothing enqueued for its key in between, clears the key. */
  lemma AckedRetryClears(ss: seq<State>, ls: seq<Label>, cap: nat, i: nat, n: nat, f: nat, k: Key)
    requires Run(ss, ls, cap) && i < n < |ls| && ls[i] == Sent(f, k) && ls[n].Acked? && ls[n].f == f
    requires forall j :: i < j < n ==> LeavesAlone(ls[j], f, k)
    ensures k !in ss[n + 1].pending
  {
    StaysOnTheWire(ss, ls, cap, i, n, f, k);
    assert StepAt(ss, ls, cap, n);
    AckTakesEffect(ss[n], f, ls[n].saved, cap, k);
  }
}
