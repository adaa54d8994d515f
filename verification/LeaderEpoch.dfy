/**
 The leader-epoch index of a partition and its agreement with the log: the end
 offset it answers for a past epoch is the offset a scan of the log finds.
 */
module LeaderEpoch {
  import opened Options
  import opened Sorting

  datatype EpochStart = EpochStart(epoch: nat, start: nat)

  const I32: int := 0x8000_0000
  const I64: int := 0x8000_0000_0000_0000

  /** `x as i32` for a u32, `x as i64` for a u64. */
  function AsI32(x: nat): int { if x < I32 then x else x - 2 * I32 }
  function AsI64(x: nat): int { if x < I64 then x else x - 2 * I64 }

  // ---------- the index ----------

  predicate HasEpoch(entries: seq<EpochStart>, epoch: nat) {
    exists i :: 0 <= i < |entries| && entries[i].epoch == epoch
  }

  predicate EpochLess(a: EpochStart, b: EpochStart) { a.epoch < b.epoch }

  /** `ensure_entry`: first write wins; a new epoch is appended and sorted in. */
  function Ensure(entries: seq<EpochStart>, epoch: nat, start: nat): seq<EpochStart> {
    if HasEpoch(entries, epoch) then entries
    else SortBy(EpochLess, entries + [EpochStart(epoch, start)])
  }

  /** Epochs strictly ascending. */
  predicate Ordered(entries: seq<EpochStart>) {
    forall i, j :: 0 <= i < j < |entries| ==> entries[i].epoch < entries[j].epoch
  }

  lemma EpochLessOrders(dom: set<EpochStart>)
    ensures OrdersOn(EpochLess, dom)
  { }

  lemma DistinctEpochs(s: seq<EpochStart>, r: seq<EpochStart>)
    requires multiset(s) == multiset(r)
    requires forall i, j :: 0 <= i < j < |s| ==> s[i].epoch != s[j].epoch
    ensures forall i, j :: 0 <= i < j < |r| ==> r[i].epoch != r[j].epoch
  {
    SameElements(s, r);
    PermutedUnique(s, r);
    forall i, j | 0 <= i < j < |r| ensures r[i].epoch != r[j].epoch {
      assert r[i] in s && r[j] in s;
    }
  }

  /** The index stays ordered, keeps what it had, and knows the epoch; an epoch it knew keeps its start. */
  lemma EnsureFacts(entries: seq<EpochStart>, epoch: nat, start: nat)
    requires Ordered(entries)
    ensures Ordered(Ensure(entries, epoch, start)) && HasEpoch(Ensure(entries, epoch, start), epoch)
    ensures forall x :: x in Ensure(entries, epoch, start) <==>
              x in entries || (x == EpochStart(epoch, start) && !HasEpoch(entries, epoch))
    ensures Ensure(Ensure(entries, epoch, start), epoch, start) == Ensure(entries, epoch, start)
  {
    if !HasEpoch(entries, epoch) {
      var raw := entries + [EpochStart(epoch, start)];
      var r := SortBy(EpochLess, raw);
      EpochLessOrders(set x | x in raw);
      SortedByOrder(EpochLess, raw, set x | x in raw);
      SameElements(raw, r);
      DistinctEpochs(raw, r);
      assert Ordered(r) by {
        forall i, j | 0 <= i < j < |r| ensures r[i].epoch < r[j].epoch {
          assert !EpochLess(r[j], r[i]);
        }
      }
      assert raw[|entries|] == EpochStart(epoch, start);
      assert EpochStart(epoch, start) in r;
    }
  }

  /** A later epoch goes to the end. */
  lemma EnsureLater(entries: seq<EpochStart>, epoch: nat, start: nat)
    requires Ordered(entries) && forall i :: 0 <= i < |entries| ==> entries[i].epoch < epoch
    ensures Ensure(entries, epoch, start) == entries + [EpochStart(epoch, start)]
  {
    SortKeepsSorted(EpochLess, entries + [EpochStart(epoch, start)]);
  }

  class EpochHistory {
    var entries: seq<EpochStart>

    constructor ()
      ensures entries == []
    {
      entries := [];
    }

    /** `ensure_entry` in place. */
    method EnsureEntry(epoch: nat, start: nat)
      modifies this
      ensures entries == Ensure(old(entries), epoch, start)
      ensures old(Ordered(entries)) ==> Ordered(entries)
    {
      if Ordered(entries) { EnsureFacts(entries, epoch, start); }
      for i := 0 to |entries|
        invariant entries == old(entries)
        invariant forall j :: 0 <= j < i ==> entries[j].epoch != epoch
      {
        if entries[i].epoch == epoch { return; }
      }
      entries := entries + [EpochStart(epoch, start)];
      entries := SortBy(EpochLess, entries);
    }
  }

  // ---------- the lookup ----------

  /** Position of the last entry with epoch at most `req` (`rposition`). */
  function LastAtMost(entries: seq<EpochStart>, req: nat): (r: Option<nat>)
    ensures r.Some? ==> r.value < |entries| && entries[r.value].epoch <= req
                        && forall j :: r.value < j < |entries| ==> entries[j].epoch > req
    ensures r.None? ==> forall j :: 0 <= j < |entries| ==> entries[j].epoch > req
  {
    if entries == [] then None
    else if entries[|entries| - 1].epoch <= req then Some(|entries| - 1)
    else
      var r := LastAtMost(entries[..|entries| - 1], req);
      assert forall j :: 0 <= j < |entries| - 1 ==> entries[..|entries| - 1][j] == entries[j];
      r
  }

  function StartAfter(entries: seq<EpochStart>, i: nat, hwm: nat): nat {
    if i + 1 < |entries| then entries[i + 1].start else hwm
  }

  /** `end_offset_for`: (found epoch, end offset), or None for an epoch not reached. */
  function EndOffsetFor(entries: seq<EpochStart>, current: nat, hwm: nat, requested: int): Option<(int, int)> {
    if requested == -1 then Some((AsI32(current), AsI64(hwm)))
    else if requested < 0 || requested > current then None
    else if requested == current then Some((AsI32(current), AsI64(hwm)))
    else
      match LastAtMost(entries, requested)
      case None =>
        if entries == [] then Some((0, AsI64(hwm)))
        else Some((AsI32(entries[0].epoch), AsI64(StartAfter(entries, 0, hwm))))
      case Some(i) =>
        var end := if entries[i].epoch == current then hwm else StartAfter(entries, i, hwm);
        Some((AsI32(entries[i].epoch), AsI64(end)))
  }

  // ---------- logs ----------

  /** The epoch of each record, the index, and the leader epoch now in force. */
  datatype Partition = Partition(log: seq<nat>, entries: seq<EpochStart>, current: nat)

  datatype Event = Begin(epoch: nat) | Append

  /** A partition first indexed at epoch `first`, over records of older epochs. */
  predicate Initial(p: Partition, first: nat) {
    && (forall i :: 0 <= i < |p.log| ==> p.log[i] < first)
    && p.entries == [EpochStart(first, |p.log|)] && p.current == first
  }

  /** A new leader epoch is registered at the log end; records carry the current epoch. */
  function Apply(p: Partition, e: Event): Partition
    requires e.Begin? ==> e.epoch > p.current
  {
    match e
    case Begin(epoch) => p.(entries := Ensure(p.entries, epoch, |p.log|), current := epoch)
    case Append => p.(log := p.log + [p.current])
  }

  /** The entry splits the log into smaller epochs before and its own or larger ones from its start on. */
  predicate Splits(log: seq<nat>, x: EpochStart) {
    && x.start <= |log|
    && (forall i :: 0 <= i < x.start ==> log[i] < x.epoch)
    && (forall i :: x.start <= i < |log| ==> log[i] >= x.epoch)
  }

  ghost predicate Agrees(p: Partition, first: nat) {
    && Ordered(p.entries) && p.entries != []
    && p.entries[0].epoch == first && p.entries[|p.entries| - 1].epoch == p.current
    && (forall a :: 0 <= a < |p.entries| ==> Splits(p.log, p.entries[a]))
    && (forall i :: 0 <= i < |p.log| && p.log[i] >= first ==> HasEpoch(p.entries, p.log[i]))
  }

  lemma RecordsAtMostCurrent(p: Partition, first: nat)
    requires Agrees(p, first)
    ensures forall i :: 0 <= i < |p.log| ==> p.log[i] <= p.current
  {
    forall i | 0 <= i < |p.log| ensures p.log[i] <= p.current {
      if p.log[i] >= first {
        var a :| 0 <= a < |p.entries| && p.entries[a].epoch == p.log[i];
      }
    }
  }

  lemma BeginAgrees(p: Partition, first: nat, epoch: nat)
    requires Agrees(p, first) && epoch > p.current
    ensures Agrees(Apply(p, Begin(epoch)), first)
  {
    EnsureLater(p.entries, epoch, |p.log|);
    RecordsAtMostCurrent(p, first);
    var q := Apply(p, Begin(epoch));
    forall i | 0 <= i < |q.log| && q.log[i] >= first ensures HasEpoch(q.entries, q.log[i]) {
      var a :| 0 <= a < |p.entries| && p.entries[a].epoch == p.log[i];
      assert q.entries[a] == p.entries[a];
    }
  }

  lemma AppendAgrees(p: Partition, first: nat)
    requires Agrees(p, first)
    ensures Agrees(Apply(p, Append), first)
  {
    var q := Apply(p, Append);
    assert p.entries[|p.entries| - 1].epoch == p.current;
    forall i | 0 <= i < |q.log| && q.log[i] >= first ensures HasEpoch(q.entries, q.log[i]) {
      if i < |p.log| { assert HasEpoch(p.entries, p.log[i]); }
    }
    forall a | 0 <= a < |q.entries| ensures Splits(q.log, q.entries[a]) {
      assert Splits(p.log, p.entries[a]);
    }
  }

  predicate Legal(p: Partition, es: seq<Event>)
    decreases |es|
  {
    es == [] || ((es[0].Begin? ==> es[0].epoch > p.current) && Legal(Apply(p, es[0]), es[1..]))
  }

  function ApplyAll(p: Partition, es: seq<Event>): Partition
    requires Legal(p, es)
    decreases |es|
  {
    if es == [] then p else ApplyAll(Apply(p, es[0]), es[1..])
  }

  lemma {:induction false} HistoryAgrees(p: Partition, first: nat, es: seq<Event>)
    requires Agrees(p, first) && Legal(p, es)
    ensures Agrees(ApplyAll(p, es), first)
    decreases |es|
  {
    if es != [] {
      if es[0].Begin? { BeginAgrees(p, first, es[0].epoch); } else { AppendAgrees(p, first); }
      HistoryAgrees(Apply(p, es[0]), first, es[1..]);
    }
  }

  /** What a scan of the log finds: the first record of a larger epoch, or the log end. */
  method ScanEnd(log: seq<nat>, epoch: nat) returns (end: nat)
    ensures IsScanEnd(log, epoch, end)
  {
    end := 0;
    while end < |log| && log[end] <= epoch
      invariant 0 <= end <= |log| && forall i :: 0 <= i < end ==> log[i] <= epoch
    {
      end := end + 1;
    }
  }

  predicate IsScanEnd(log: seq<nat>, epoch: nat, end: nat) {
    && end <= |log|
    && (forall i :: 0 <= i < end ==> log[i] <= epoch)
    && (end < |log| ==> log[end] > epoch)
  }

  /** `found` is the largest epoch ever begun that is at most `req`. */
  ghost predicate LargestBegun(p: Partition, req: nat, found: nat) {
    HasEpoch(p.entries, found) && found <= req && forall e: nat :: HasEpoch(p.entries, e) && e <= req ==> e <= found
  }

  /**
   After any history, the index answers a past epoch `req`, no older than the
   first known one, with the largest epoch begun by then and exactly the end
   offset a scan of the log finds, whatever the high watermark.
   */
  lemma IndexMatchesScan(p0: Partition, first: nat, es: seq<Event>, hwm: nat, req: nat, end: nat)
    requires Initial(p0, first) && Legal(p0, es)
    requires var p := ApplyAll(p0, es); first <= req < p.current && req < I32 && IsScanEnd(p.log, req, end)
    ensures var p := ApplyAll(p0, es);
            var r := EndOffsetFor(p.entries, p.current, hwm, req);
            r.Some? && r.value.1 == AsI64(end) && r.value.0 >= 0 && LargestBegun(p, req, r.value.0)
  {
    assert Agrees(p0, first);
    HistoryAgrees(p0, first, es);
    var p := ApplyAll(p0, es);
    LookupMatchesScan(p, first, hwm, req, end);
  }

  lemma LookupMatchesScan(p: Partition, first: nat, hwm: nat, req: nat, end: nat)
    requires Agrees(p, first) && first <= req < p.current && req < I32 && IsScanEnd(p.log, req, end)
    ensures var r := EndOffsetFor(p.entries, p.current, hwm, req);
            r.Some? && r.value.1 == AsI64(end) && r.value.0 >= 0 && LargestBegun(p, req, r.value.0)
  {
    var last := |p.entries| - 1;
    var found := LastAtMost(p.entries, req);
    assert p.entries[0].epoch <= req && p.entries[last].epoch > req;
    var i := found.value;
    assert i < last;
    assert Splits(p.log, p.entries[i + 1]);
    NextStartIsScanEnd(p, first, req, i, end);
    assert HasEpoch(p.entries, p.entries[i].epoch);
    forall e: nat | HasEpoch(p.entries, e) && e <= req ensures e <= p.entries[i].epoch {
      var a :| 0 <= a < |p.entries| && p.entries[a].epoch == e;
    }
  }

  lemma NextStartIsScanEnd(p: Partition, first: nat, req: nat, i: nat, end: nat)
    requires Agrees(p, first) && i + 1 < |p.entries| && p.entries[i].epoch <= req < p.entries[i + 1].epoch
    requires first <= req && IsScanEnd(p.log, req, end)
    ensures p.entries[i + 1].start == end
  {
    var next := p.entries[i + 1];
    assert Splits(p.log, next);
    forall k | 0 <= k < next.start ensures p.log[k] <= req {
      if p.log[k] >= first {
        assert HasEpoch(p.entries, p.log[k]);
        var a :| 0 <= a < |p.entries| && p.entries[a].epoch == p.log[k];
        assert a <= i;
      }
    }
    assert next.start < |p.log| ==> p.log[next.start] >= next.epoch;
  }

  // ---------- every request ----------

  /** `x as i32` of a u32, `x as i64` of a u64: the same number modulo 2^32 or 2^64, in the signed range. */
  lemma SignedViews(x: nat)
    ensures x < 0x1_0000_0000 ==> -0x8000_0000 <= AsI32(x) < 0x8000_0000 && AsI32(x) % 0x1_0000_0000 == x
    ensures x < 0x1_0000_0000_0000_0000 ==>
              -0x8000_0000_0000_0000 <= AsI64(x) < 0x8000_0000_0000_0000 && AsI64(x) % 0x1_0000_0000_0000_0000 == x
  { }

  /** The scan end of the current epoch is the log end. */
  lemma CurrentScanEnd(p: Partition, first: nat, end: nat)
    requires Agrees(p, first)
    ensures IsScanEnd(p.log, p.current, end) <==> end == |p.log|
  {
    RecordsAtMostCurrent(p, first);
  }

  /** The entry of the first epoch ends where the scan for that epoch does, or at the high watermark if it is the only one. */
  lemma OldestAnswer(p: Partition, first: nat, hwm: nat, req: nat, end: nat)
    requires Agrees(p, first) && req < first && IsScanEnd(p.log, first, end)
    ensures EndOffsetFor(p.entries, p.current, hwm, req) == Some((AsI32(first), AsI64(if first == p.current then hwm else end)))
  {
    assert LastAtMost(p.entries, req) == None;
    if |p.entries| > 1 { NextStartIsScanEnd(p, first, first, 0, end); }
  }

  /**
   After any history, every request has its answer. The latest and the current
   epoch get the current epoch and the high watermark; an epoch not reached, or
   below -1, gets none; one older than the first known epoch gets that first
   epoch and where it ends; any other gets the largest epoch begun by then and
   where the scan ends.
   */
  lemma EveryRequestAnswered(p0: Partition, first: nat, es: seq<Event>, hwm: nat, req: int, end: nat)
    requires Initial(p0, first) && Legal(p0, es) && req < I32
    requires req >= 0 ==> IsScanEnd(ApplyAll(p0, es).log, if req < first then first else req, end)
    ensures var p := ApplyAll(p0, es);
            var r := EndOffsetFor(p.entries, p.current, hwm, req);
            && (req == -1 || req == p.current ==> r == Some((AsI32(p.current), AsI64(hwm))))
            && (req < -1 || req > p.current ==> r == None)
            && (0 <= req < first ==> r == Some((AsI32(first), AsI64(if first == p.current then hwm else end))))
            && (first <= req < p.current ==> r.Some? && r.value.1 == AsI64(end) && r.value.0 >= 0 && LargestBegun(p, req, r.value.0))
  {
    HistoryAgrees(p0, first, es);
    var p := ApplyAll(p0, es);
    if 0 <= req < first {
      OldestAnswer(p, first, hwm, req, end);
    } else if first <= req < p.current {
      LookupMatchesScan(p, first, hwm, req, end);
    }
  }

  /**
   With the high watermark at the log end, every epoch from the first known one
   to the current one is answered with the end a scan of the log finds.
   */
  lemma AnswersAreScanEnds(p0: Partition, first: nat, es: seq<Event>, req: nat, end: nat)
    requires Initial(p0, first) && Legal(p0, es) && req < I32
    requires var p := ApplyAll(p0, es); first <= req <= p.current && IsScanEnd(p.log, req, end)
    ensures var p := ApplyAll(p0, es);
            var r := EndOffsetFor(p.entries, p.current, |p.log|, req);
            r.Some? && r.value.1 == AsI64(end) && r.value.0 >= 0 && LargestBegun(p, req, r.value.0)
  {
    HistoryAgrees(p0, first, es);
    var p := ApplyAll(p0, es);
    if req == p.current {
      CurrentScanEnd(p, first, end);
      assert HasEpoch(p.entries, p.current) by { assert p.entries[|p.entries| - 1].epoch == p.current; }
    } else {
      LookupMatchesScan(p, first, |p.log|, req, end);
    }
  }

  /** A partition without history answers every epoch before the current one as epoch 0, open to the high watermark. */
  lemma NoHistory(current: nat, hwm: nat, req: nat)
    requires req < current
    ensures EndOffsetFor([], current, hwm, req) == Some((0, AsI64(hwm)))
  { }
}
