/**
 The journal object: an entry map, a generation, and the file it is saved to.
 Each method runs alone here; module JournalConcurrency interleaves them.
 */
module TruncateJournal {
  import opened Options
  import opened Ordering
  import opened Sorting
  import opened Journal

  lemma EntryLessOrders(dom: set<Entry>)
    ensures OrdersOn(EntryLess, dom)
  {
    forall x ensures !EntryLess(x, x) { LessIrreflexive(x.topic); }
    forall x, y | EntryLess(x, y) ensures !EntryLess(y, x) { PairLessStrict(KeyOf(x), KeyOf(y)); }
    forall x, y, z | !EntryLess(y, x) && !EntryLess(z, y) ensures !EntryLess(z, x) {
      LessTotal(x.topic, y.topic);
      LessTotal(y.topic, z.topic);
      if EntryLess(z, x) {
        PairLessStrict(KeyOf(z), KeyOf(x));
        if Less(x.topic, y.topic) && Less(y.topic, z.topic) { LessTransitive(x.topic, y.topic, z.topic); }
      }
    }
  }

  /** `list`: all entries, once each, sorted by topic and partition. */
  method ListEntries(m: Marks) returns (es: seq<Entry>)
    ensures Lists(es, m) && Sorted(EntryLess, es)
  {
    var raw: seq<Entry> := [];
    var todo := m.Keys;
    while todo != {}
      invariant todo <= m.Keys
      invariant forall e :: e in raw <==> KeyOf(e) in m && KeyOf(e) !in todo && m[KeyOf(e)] == MarkOf(e)
      invariant Unique(raw)
      decreases todo
    {
      var k :| k in todo;
      assert forall i :: 0 <= i < |raw| ==> raw[i] in raw;
      raw := raw + [EntryOf(k, m[k])];
      todo := todo - {k};
    }
    es := SortBy(EntryLess, raw);
    SameElements(raw, es);
    PermutedUnique(raw, es);
    DistinctKeys(es, m);
    EntryLessOrders(set e | e in raw);
    SortedByOrder(EntryLess, raw, set e | e in raw);
  }

  lemma DistinctKeys(es: seq<Entry>, m: Marks)
    requires Unique(es) && forall e :: e in es <==> KeyOf(e) in m && m[KeyOf(e)] == MarkOf(e)
    ensures Lists(es, m)
  {
    forall i, j | 0 <= i < j < |es| ensures KeyOf(es[i]) != KeyOf(es[j]) {
      assert es[i] in es && es[j] in es;
    }
  }

  class TruncateJournal {
    const cap: nat
    var entries: Marks
    var generation: nat
    var applied: nat
    var disk: File

    ghost predicate Valid()
      reads this
    {
      cap > 0 && Clean(entries)
    }

    /** The file holds the current map and generation. */
    ghost predicate Saved()
      reads this
    {
      disk.generation == generation && Lists(disk.entries, entries)
    }

    /** `open_with_max` on what was found on disk (an unreadable file is an empty one). */
    constructor (file: File, maxEntries: nat)
      ensures Valid() && cap == (if maxEntries == 0 then 1 else maxEntries)
      ensures entries == Load(file.entries) && generation == applied == file.generation && disk == file
    {
      var m: Marks := map[];
      var es := file.entries;
      for i := 0 to |es|
        invariant m == Load(es[..i])
      {
        assert es[..i + 1][..i] == es[..i];
        if Usable(es[i]) { m := Merge(m, es[i]); }
      }
      assert es[..|es|] == es;
      LoadClean(es);
      cap := if maxEntries == 0 then 1 else maxEntries;
      entries := m;
      generation, applied, disk := file.generation, file.generation, file;
    }

    /** Replace the file by the current state; a failed save leaves it alone. */
    method Persist(ok: bool)
      requires Valid()
      modifies this`disk
      ensures ok ==> Saved() && Load(disk.entries) == entries
      ensures !ok ==> disk == old(disk)
    {
      var es := ListEntries(entries);
      ReopenRestores(entries, es);
      if ok { disk := File(generation, es); }
    }

    /** Max-merge one watermark; the save happens only when the map changed. */
    method NoteMark(e: Entry, bump: bool, ok: bool) returns (g: nat)
      requires Valid()
      modifies this`entries, this`generation, this`disk
      ensures Valid() && entries == Note(old(entries), cap, e) && g == generation
      ensures generation == old(generation) + if bump && entries != old(entries) then 1 else 0
      ensures entries != old(entries) && ok ==> Saved()
      ensures entries == old(entries) || !ok ==> disk == old(disk)
    {
      if !Usable(e) { return generation; }
      if KeyOf(e) !in entries && |entries| >= cap { return generation; }
      NoteClean(entries, cap, e);
      var merged := Merge(entries, e);
      var changed := merged != entries;
      entries := merged;
      if changed {
        if bump { generation := generation + 1; }
        Persist(ok);
      }
      g := generation;
    }

    /** `apply_push_filtered`; `snapshot` is None when it is oversized or does not parse. */
    method ApplyPush(pushed: nat, snapshot: Option<seq<Entry>>, known: Option<set<string>>, ok: bool) returns (accepted: bool)
      requires Valid()
      modifies this`entries, this`generation, this`applied, this`disk
      ensures Valid() && accepted == (snapshot.Some? && |snapshot.value| <= cap)
      ensures entries == if accepted then Push(old(entries), cap, known, snapshot.value) else old(entries)
      ensures generation == if accepted && pushed > old(generation) then pushed else old(generation)
      ensures applied == if accepted && pushed > old(applied) then pushed else old(applied)
      ensures (entries != old(entries) || generation != old(generation)) && ok ==> Saved()
    {
      if snapshot.None? || |snapshot.value| > cap { return false; }
      var m, changed := MergeAll(entries, cap, known, snapshot.value);
      PushClean(entries, cap, known, snapshot.value);
      entries := m;
      if pushed > generation { generation, changed := pushed, true; }
      if pushed > applied { applied := pushed; }
      if changed { Persist(ok); }
      accepted := true;
    }

    /** The loop of `apply_push_filtered` over the entries of a snapshot. */
    static method MergeAll(m0: Marks, cap: nat, known: Option<set<string>>, es: seq<Entry>) returns (m: Marks, changed: bool)
      ensures m == Push(m0, cap, known, es) && (m != m0 ==> changed)
    {
      m, changed := m0, false;
      for i := 0 to |es|
        invariant m == Push(m0, cap, known, es[..i]) && (m != m0 ==> changed)
      {
        assert es[..i + 1][..i] == es[..i];
        if Accepted(known, es[i]) && Admits(m, cap, es[i]) {
          var merged := Merge(m, es[i]);
          if merged != m { changed := true; }
          m := merged;
        }
      }
      assert es[..|es|] == es;
    }

    /** Forget every watermark of a topic, without touching the generation. */
    method RemoveTopic(topic: string, ok: bool) returns (removed: nat)
      requires Valid()
      modifies this`entries, this`disk
      ensures Valid() && removed == |old(entries)| - |entries|
      ensures entries == if topic == "" then old(entries) else map k | k in old(entries) && k.0 != topic :: old(entries)[k]
      ensures entries != old(entries) && ok ==> Saved()
    {
      if topic == "" { return 0; }
      var kept := map k | k in entries && k.0 != topic :: entries[k];
      KeptSize(entries, kept);
      removed := |entries| - |kept|;
      if removed > 0 {
        entries := kept;
        Persist(ok);
      } else {
        assert kept == entries;
      }
    }

    static lemma KeptSize(m: Marks, kept: Marks)
      requires kept.Keys <= m.Keys && forall k :: k in kept ==> kept[k] == m[k]
      ensures |kept| <= |m| && (|kept| == |m| ==> kept == m)
    {
      assert m.Keys == kept.Keys + (m.Keys - kept.Keys);
      assert |m| == |m.Keys| && |kept| == |kept.Keys|;
      if |kept| == |m| { assert m.Keys - kept.Keys == {}; }
    }
  }
}
