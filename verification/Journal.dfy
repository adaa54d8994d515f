/**
 The truncate journal's watermarks: a map from (topic, partition) to the
 lexicographically largest (before_offset, leader_epoch) seen, under an entry
 cap, and the snapshots it is saved as.
 */
module Journal {
  import opened Options
  import opened Sorting
  import Counting

  type Key = (string, nat)

  datatype Mark = Mark(offset: nat, epoch: int)

  type Marks = map<Key, Mark>

  datatype Entry = Entry(topic: string, partition: nat, offset: nat, epoch: int)

  function KeyOf(e: Entry): Key { (e.topic, e.partition) }

  function MarkOf(e: Entry): Mark { Mark(e.offset, e.epoch) }

  function EntryOf(k: Key, m: Mark): Entry { Entry(k.0, k.1, m.offset, m.epoch) }

  /** Entries with no offset or no topic are ignored everywhere. */
  predicate Usable(e: Entry) { e.offset != 0 && e.topic != "" }

  predicate AtMost(a: Mark, b: Mark) {
    a.offset < b.offset || (a.offset == b.offset && a.epoch <= b.epoch)
  }

  /** A larger offset replaces; an equal offset takes the larger epoch. */
  function Raise(cur: Mark, new_: Mark): Mark {
    if new_.offset > cur.offset then new_
    else if new_.offset == cur.offset && new_.epoch > cur.epoch then cur.(epoch := new_.epoch)
    else cur
  }

  function Merge(m: Marks, e: Entry): Marks {
    m[KeyOf(e) := if KeyOf(e) in m then Raise(m[KeyOf(e)], MarkOf(e)) else MarkOf(e)]
  }

  /** At the cap only existing keys are updated. */
  predicate Admits(m: Marks, cap: nat, e: Entry) { KeyOf(e) in m || |m| < cap }

  function Note(m: Marks, cap: nat, e: Entry): Marks {
    if Usable(e) && Admits(m, cap, e) then Merge(m, e) else m
  }

  predicate Known(known: Option<set<string>>, e: Entry) { known.None? || e.topic in known.value }

  /** The entries of a snapshot that `apply_push_filtered` considers. */
  predicate Accepted(known: Option<set<string>>, e: Entry) { Usable(e) && Known(known, e) }

  function Push(m: Marks, cap: nat, known: Option<set<string>>, es: seq<Entry>): Marks {
    if es == [] then m
    else
      var k := |es| - 1;
      var r := Push(m, cap, known, es[..k]);
      if Accepted(known, es[k]) && Admits(r, cap, es[k]) then Merge(r, es[k]) else r
  }

  /** Entrywise order of journals. */
  ghost predicate Below(a: Marks, b: Marks) {
    forall k :: k in a ==> k in b && AtMost(a[k], b[k])
  }

  lemma MergeRaises(m: Marks, e: Entry)
    ensures Below(m, Merge(m, e)) && AtMost(MarkOf(e), Merge(m, e)[KeyOf(e)])
  { }

  lemma BelowTransitive(a: Marks, b: Marks, c: Marks)
    requires Below(a, b) && Below(b, c)
    ensures Below(a, c)
  { }

  lemma {:induction false} PushRaises(m: Marks, cap: nat, known: Option<set<string>>, es: seq<Entry>)
    ensures Below(m, Push(m, cap, known, es))
  {
    if es != [] {
      var k := |es| - 1;
      PushRaises(m, cap, known, es[..k]);
      var r := Push(m, cap, known, es[..k]);
      MergeRaises(r, es[k]);
    }
  }

  // ---------- convergence ----------

  datatype Delivery = Noted(e: Entry) | Pushed(es: seq<Entry>)

  /** A push with more raw entries than the cap is refused. */
  function Deliver(m: Marks, cap: nat, known: Option<set<string>>, d: Delivery): Marks {
    match d
    case Noted(e) => Note(m, cap, e)
    case Pushed(es) => if |es| > cap then m else Push(m, cap, known, es)
  }

  function DeliverAll(m: Marks, cap: nat, known: Option<set<string>>, ds: seq<Delivery>): Marks {
    if ds == [] then m
    else Deliver(DeliverAll(m, cap, known, ds[..|ds| - 1]), cap, known, ds[|ds| - 1])
  }

  /** The entries a delivery really offers: usable, known when pushed, from a snapshot that is not refused. */
  function Offers(d: Delivery, cap: nat, known: Option<set<string>>): set<Entry> {
    match d
    case Noted(e) => if Usable(e) then {e} else {}
    case Pushed(es) => if |es| > cap then {} else AcceptedOf(known, es)
  }

  function AllOffers(ds: seq<Delivery>, cap: nat, known: Option<set<string>>): set<Entry> {
    set i, e | 0 <= i < |ds| && e in Offers(ds[i], cap, known) :: e
  }

  function KeysOf(es: set<Entry>): set<Key> { set e | e in es :: KeyOf(e) }

  ghost predicate Covered(m: Marks, e: Entry) { KeyOf(e) in m && AtMost(MarkOf(e), m[KeyOf(e)]) }

  ghost predicate Backed(m: Marks, k: Key, es: set<Entry>) { k in m ==> EntryOf(k, m[k]) in es }

  /** `m` holds, for exactly the keys of `es`, the largest mark of each. */
  ghost predicate Highest(m: Marks, es: set<Entry>) {
    && (forall e {:trigger Covered(m, e)} :: e in es ==> Covered(m, e))
    && (forall k {:trigger Backed(m, k, es)} :: Backed(m, k, es))
  }

  lemma HighestAt(a: Marks, b: Marks, es: set<Entry>, k: Key)
    requires Highest(a, es) && Highest(b, es) && k in a
    ensures k in b && AtMost(a[k], b[k])
  {
    assert Backed(a, k, es);
    var e := EntryOf(k, a[k]);
    assert KeyOf(e) == k && MarkOf(e) == a[k];
    assert Covered(b, e);
  }

  lemma HighestUnique(a: Marks, b: Marks, es: set<Entry>)
    requires Highest(a, es) && Highest(b, es)
    ensures a == b
  {
    forall k ensures (k in a <==> k in b) && (k in a ==> a[k] == b[k]) {
      if k in a { HighestAt(a, b, es, k); }
      if k in b { HighestAt(b, a, es, k); }
    }
  }

  lemma HighestMerge(m: Marks, es: set<Entry>, e: Entry)
    requires Highest(m, es)
    ensures Highest(Merge(m, e), es + {e})
  {
    var r := Merge(m, e);
    forall x | x in es + {e} ensures Covered(r, x) {
      if x != e { assert Covered(m, x); }
    }
    forall k ensures Backed(r, k, es + {e}) {
      assert Backed(m, k, es);
      assert e == EntryOf(KeyOf(e), MarkOf(e));
    }
  }

  /** Below the cap every offered entry is admitted. */
  lemma RoomFor(m: Marks, es: set<Entry>, all: set<Entry>, e: Entry, cap: nat)
    requires Highest(m, es) && es <= all && e in all && |KeysOf(all)| <= cap
    ensures Admits(m, cap, e)
  {
    assert m.Keys <= KeysOf(all) by {
      forall k | k in m ensures k in KeysOf(all) {
        assert Backed(m, k, es);
        assert EntryOf(k, m[k]) in all && KeyOf(EntryOf(k, m[k])) == k;
      }
    }
    if KeyOf(e) !in m {
      assert KeyOf(e) in KeysOf(all);
      assert m.Keys < KeysOf(all);
      ProperSubset(m.Keys, KeysOf(all));
    }
  }

  lemma ProperSubset<T>(a: set<T>, b: set<T>)
    requires a < b
    ensures |a| < |b|
  {
    assert b == a + (b - a);
    assert b - a != {};
  }

  lemma {:induction false} PushHighest(m: Marks, cap: nat, known: Option<set<string>>, es: seq<Entry>, before: set<Entry>, all: set<Entry>)
    requires Highest(m, before) && before <= all && |KeysOf(all)| <= cap
    requires forall e :: e in es && Accepted(known, e) ==> e in all
    ensures Highest(Push(m, cap, known, es), before + AcceptedOf(known, es))
  {
    if es == [] {
      assert before + AcceptedOf(known, es) == before;
    } else {
      var k := |es| - 1;
      var e := es[k];
      AcceptedLast(known, es);
      PushHighest(m, cap, known, es[..k], before, all);
      var r := Push(m, cap, known, es[..k]);
      var seen := before + AcceptedOf(known, es[..k]);
      if Accepted(known, e) {
        RoomFor(r, seen, all, e, cap);
        HighestMerge(r, seen, e);
        assert seen + {e} == before + AcceptedOf(known, es);
      } else {
        assert seen == before + AcceptedOf(known, es);
      }
    }
  }

  function AcceptedOf(known: Option<set<string>>, es: seq<Entry>): set<Entry> { set e | e in es && Accepted(known, e) }

  lemma AcceptedLast(known: Option<set<string>>, es: seq<Entry>)
    requires es != []
    ensures var k := |es| - 1;
            AcceptedOf(known, es) == AcceptedOf(known, es[..k]) + if Accepted(known, es[k]) then {es[k]} else {}
  {
    assert es == es[..|es| - 1] + [es[|es| - 1]];
  }

  lemma DeliverHighest(m: Marks, cap: nat, known: Option<set<string>>, d: Delivery, before: set<Entry>, all: set<Entry>)
    requires Highest(m, before) && before <= all && Offers(d, cap, known) <= all && |KeysOf(all)| <= cap
    ensures Highest(Deliver(m, cap, known, d), before + Offers(d, cap, known))
  {
    match d {
      case Noted(e) =>
        if Usable(e) {
          RoomFor(m, before, all, e, cap);
          HighestMerge(m, before, e);
        } else {
          assert before + {} == before;
        }
      case Pushed(es) =>
        if |es| > cap {
          assert before + {} == before;
        } else {
          PushHighest(m, cap, known, es, before, all);
        }
    }
  }

  /**
   Below the cap, whatever the order, duplication or batching, the journal
   holds exactly the entrywise maximum of everything offered to it.
   */
  lemma {:induction false} JournalIsMaximum(cap: nat, known: Option<set<string>>, ds: seq<Delivery>, all: set<Entry>)
    requires AllOffers(ds, cap, known) <= all && |KeysOf(all)| <= cap
    ensures Highest(DeliverAll(map[], cap, known, ds), AllOffers(ds, cap, known))
  {
    if ds == [] {
      assert AllOffers(ds, cap, known) == {};
    } else {
      var k := |ds| - 1;
      var ds' := ds[..k];
      assert AllOffers(ds, cap, known) == AllOffers(ds', cap, known) + Offers(ds[k], cap, known) by {
        assert forall i :: 0 <= i < k ==> ds'[i] == ds[i];
      }
      JournalIsMaximum(cap, known, ds', all);
      DeliverHighest(DeliverAll(map[], cap, known, ds'), cap, known, ds[k], AllOffers(ds', cap, known), all);
    }
  }

  /** Replicas that were offered the same entries agree. */
  lemma ReplicasConverge(cap: nat, known: Option<set<string>>, ds: seq<Delivery>, ds': seq<Delivery>)
    requires AllOffers(ds, cap, known) == AllOffers(ds', cap, known)
    requires |KeysOf(AllOffers(ds, cap, known))| <= cap
    ensures DeliverAll(map[], cap, known, ds) == DeliverAll(map[], cap, known, ds')
  {
    var all := AllOffers(ds, cap, known);
    JournalIsMaximum(cap, known, ds, all);
    JournalIsMaximum(cap, known, ds', all);
    HighestUnique(DeliverAll(map[], cap, known, ds), DeliverAll(map[], cap, known, ds'), all);
  }

  // ---------- above the cap ----------

  ghost predicate Notes(ds: seq<Delivery>, es: set<Entry>) { forall d <- ds :: d.Noted? && d.e in es }

  ghost predicate AllUsable(es: set<Entry>) { forall e <- es :: Usable(e) }

  /** Whatever delivers exactly `es`, the journal comes out the same. */
  ghost predicate OrderFree(cap: nat, known: Option<set<string>>, es: set<Entry>) {
    forall ds, ds' | AllOffers(ds, cap, known) == es && AllOffers(ds', cap, known) == es ::
      DeliverAll(map[], cap, known, ds) == DeliverAll(map[], cap, known, ds')
  }

  lemma OffersSplit(ds: seq<Delivery>, ds': seq<Delivery>, cap: nat, known: Option<set<string>>)
    ensures AllOffers(ds + ds', cap, known) == AllOffers(ds, cap, known) + AllOffers(ds', cap, known)
  {
    var all := ds + ds';
    assert forall i :: 0 <= i < |ds| ==> all[i] == ds[i];
    assert forall i :: 0 <= i < |ds'| ==> all[|ds| + i] == ds'[i];
  }

  lemma {:induction false} DeliverSplit(m: Marks, cap: nat, known: Option<set<string>>, ds: seq<Delivery>, ds': seq<Delivery>)
    ensures DeliverAll(m, cap, known, ds + ds') == DeliverAll(DeliverAll(m, cap, known, ds), cap, known, ds')
  {
    if ds' == [] {
      assert ds + ds' == ds;
    } else {
      var k := |ds'| - 1;
      assert (ds + ds')[..|ds + ds'| - 1] == ds + ds'[..k];
      DeliverSplit(m, cap, known, ds, ds'[..k]);
    }
  }

  lemma {:induction false} NotesOf(es: set<Entry>, cap: nat, known: Option<set<string>>) returns (ds: seq<Delivery>)
    requires AllUsable(es)
    ensures Notes(ds, es) && AllOffers(ds, cap, known) == es && forall e <- es :: Noted(e) in ds
  {
    ds := [];
    if es != {} {
      var e :| e in es;
      var rest := NotesOf(es - {e}, cap, known);
      ds := rest + [Noted(e)];
      OffersSplit(rest, [Noted(e)], cap, known);
      OneNote(e, cap, known);
    }
  }

  /** A full journal keeps its keys. */
  lemma {:induction false} FullKeepsKeys(m: Marks, cap: nat, known: Option<set<string>>, ds: seq<Delivery>, es: set<Entry>)
    requires |m| >= cap && Notes(ds, es)
    ensures DeliverAll(m, cap, known, ds).Keys == m.Keys
  {
    if ds != [] {
      FullKeepsKeys(m, cap, known, ds[..|ds| - 1], es);
      var r := DeliverAll(m, cap, known, ds[..|ds| - 1]);
      assert |r.Keys| == |m.Keys|;
      assert ds[|ds| - 1] in ds;
    }
  }

  /** Keys once in stay in. */
  lemma {:induction false} KeysStay(m: Marks, cap: nat, known: Option<set<string>>, ds: seq<Delivery>, es: set<Entry>)
    requires Notes(ds, es)
    ensures m.Keys <= DeliverAll(m, cap, known, ds).Keys
  {
    if ds != [] {
      KeysStay(m, cap, known, ds[..|ds| - 1], es);
      assert ds[|ds| - 1] in ds;
    }
  }

  /** Notes either fill the journal or all find room. */
  lemma {:induction false} FillsUp(cap: nat, known: Option<set<string>>, ds: seq<Delivery>, es: set<Entry>)
    requires Notes(ds, es) && AllUsable(es)
    ensures var m := DeliverAll(map[], cap, known, ds);
            m.Keys <= KeysOf(es) && (|m| >= cap || forall d <- ds :: KeyOf(d.e) in m)
  {
    if ds != [] {
      FillsUp(cap, known, ds[..|ds| - 1], es);
      var r, d := DeliverAll(map[], cap, known, ds[..|ds| - 1]), ds[|ds| - 1];
      assert d in ds && d.e in es;
      assert ds == ds[..|ds| - 1] + [d];
      if |r| >= cap { FullKeepsKeys(r, cap, known, [d], es); SameSize(r, DeliverAll(map[], cap, known, ds), d, cap, known); }
    }
  }

  lemma SameSize(r: Marks, m: Marks, d: Delivery, cap: nat, known: Option<set<string>>)
    requires |r| >= cap && d.Noted? && m == Deliver(r, cap, known, d)
    ensures |m| >= cap
  {
    assert m.Keys == r.Keys;
    assert |m.Keys| == |r.Keys|;
  }

  lemma OneNote(e: Entry, cap: nat, known: Option<set<string>>)
    requires Usable(e)
    ensures AllOffers([Noted(e)], cap, known) == {e}
  {
    assert e in Offers([Noted(e)][0], cap, known);
  }

  lemma FirstIsKept(cap: nat, known: Option<set<string>>, ds: seq<Delivery>, es: set<Entry>)
    requires cap > 0 && ds != [] && Notes(ds, es) && AllUsable(es)
    ensures KeyOf(ds[0].e) in DeliverAll(map[], cap, known, ds)
  {
    var e := ds[0].e;
    var first := DeliverAll(map[], cap, known, [Noted(e)]);
    assert ds[0] in ds && e in es;
    assert [Noted(e)][..0] == [] && DeliverAll(map[], cap, known, []) == map[];
    assert first == Note(map[], cap, e);
    assert ds == [Noted(e)] + ds[1..];
    DeliverSplit(map[], cap, known, [Noted(e)], ds[1..]);
    KeysStay(first, cap, known, ds[1..], es);
  }

  lemma OthersFill(cap: nat, known: Option<set<string>>, k: Key, others: seq<Delivery>, rest: set<Entry>, es: set<Entry>)
    requires AllUsable(rest) && k in KeysOf(es) && cap < |KeysOf(es)|
    requires forall e :: e in rest <==> e in es && KeyOf(e) != k
    requires Notes(others, rest) && forall e <- rest :: Noted(e) in others
    ensures var m := DeliverAll(map[], cap, known, others); |m| >= cap && k !in m
  {
    var m := DeliverAll(map[], cap, known, others);
    FillsUp(cap, known, others, rest);
    if |m| < cap {
      forall x | x in KeysOf(es) - {k} ensures x in m.Keys {
        var e :| e in es && KeyOf(e) == x;
        assert Noted(e) in others;
      }
      Counting.SubsetSize(KeysOf(es) - {k}, m.Keys);
    }
  }

  lemma LateIsLost(cap: nat, known: Option<set<string>>, k: Key, others: seq<Delivery>, all: seq<Delivery>, es: set<Entry>)
    requires var m := DeliverAll(map[], cap, known, others); |m| >= cap && k !in m
    requires Notes(all, es)
    ensures k !in DeliverAll(map[], cap, known, others + all)
  {
    DeliverSplit(map[], cap, known, others, all);
    FullKeepsKeys(DeliverAll(map[], cap, known, others), cap, known, all, es);
  }

  /** More keys than room: the same notes in another order leave another journal. */
  lemma OrderMattersAboveCap(cap: nat, known: Option<set<string>>, es: set<Entry>) returns (ds: seq<Delivery>, ds': seq<Delivery>)
    requires AllUsable(es) && 0 < cap < |KeysOf(es)|
    ensures multiset(ds) == multiset(ds') && AllOffers(ds, cap, known) == es && AllOffers(ds', cap, known) == es
    ensures DeliverAll(map[], cap, known, ds) != DeliverAll(map[], cap, known, ds')
  {
    var k :| k in KeysOf(es);
    var own, rest := set x | x in es && KeyOf(x) == k, set x | x in es && KeyOf(x) != k;
    var mine := NotesOf(own, cap, known);
    var others := NotesOf(rest, cap, known);
    ds, ds' := mine + others, others + mine;
    OffersOfBoth(mine, others, own, rest, cap, known, es);
    OwnIsKept(cap, known, k, mine, own, others, es);
    OthersFill(cap, known, k, others, rest, es);
    LateIsLost(cap, known, k, others, mine, own);
  }

  lemma OffersOfBoth(mine: seq<Delivery>, others: seq<Delivery>, own: set<Entry>, rest: set<Entry>, cap: nat, known: Option<set<string>>, es: set<Entry>)
    requires AllOffers(mine, cap, known) == own && AllOffers(others, cap, known) == rest && own + rest == es
    ensures AllOffers(mine + others, cap, known) == es && AllOffers(others + mine, cap, known) == es
    ensures multiset(mine + others) == multiset(others + mine)
  {
    OffersSplit(mine, others, cap, known);
    OffersSplit(others, mine, cap, known);
  }

  lemma OwnIsKept(cap: nat, known: Option<set<string>>, k: Key, mine: seq<Delivery>, own: set<Entry>, others: seq<Delivery>, es: set<Entry>)
    requires cap > 0 && k in KeysOf(es) && AllUsable(es) && Notes(mine, own) && Notes(others, es)
    requires (forall e <- own :: Noted(e) in mine) && forall e :: e in own <==> e in es && KeyOf(e) == k
    ensures k in DeliverAll(map[], cap, known, mine + others)
  {
    var e :| e in es && KeyOf(e) == k;
    assert Noted(e) in mine && mine[0] in mine;
    assert (mine + others)[0] == mine[0];
    FirstIsKept(cap, known, mine + others, es);
  }

  lemma {:induction false} NoRoomAtAll(known: Option<set<string>>, ds: seq<Delivery>)
    ensures DeliverAll(map[], 0, known, ds) == map[]
  {
    if ds != [] { NoRoomAtAll(known, ds[..|ds| - 1]); }
  }

  /** Convergence whatever the order holds exactly when there is room for every key, or for none. */
  lemma ConvergesIff(cap: nat, known: Option<set<string>>, es: set<Entry>)
    requires AllUsable(es)
    ensures OrderFree(cap, known, es) <==> |KeysOf(es)| <= cap || cap == 0
  {
    if cap == 0 {
      forall ds { NoRoomAtAll(known, ds); }
    } else if |KeysOf(es)| <= cap {
      forall ds, ds' | AllOffers(ds, cap, known) == es && AllOffers(ds', cap, known) == es
        ensures DeliverAll(map[], cap, known, ds) == DeliverAll(map[], cap, known, ds')
      {
        ReplicasConverge(cap, known, ds, ds');
      }
    } else {
      var ds, ds' := OrderMattersAboveCap(cap, known, es);
    }
  }

  // ---------- snapshots ----------

  datatype File = File(generation: nat, entries: seq<Entry>)

  const EMPTY_FILE := File(0, [])

  predicate EntryLess(a: Entry, b: Entry) { PairLess(KeyOf(a), KeyOf(b)) }

  /** `es` lists `m`, once per key. */
  ghost predicate Lists(es: seq<Entry>, m: Marks) {
    && (forall e :: e in es <==> KeyOf(e) in m && m[KeyOf(e)] == MarkOf(e))
    && (forall i, j :: 0 <= i < j < |es| ==> KeyOf(es[i]) != KeyOf(es[j]))
  }

  /** Every entry of the map could be noted. */
  ghost predicate Clean(m: Marks) { forall k :: k in m ==> Usable(EntryOf(k, m[k])) }

  /** Reload a snapshot: no cap, no filter. */
  function Load(es: seq<Entry>): Marks {
    if es == [] then map[]
    else
      var r := Load(es[..|es| - 1]);
      if Usable(es[|es| - 1]) then Merge(r, es[|es| - 1]) else r
  }

  lemma {:induction false} LoadHighest(es: seq<Entry>)
    ensures Highest(Load(es), set e | e in es && Usable(e))
  {
    if es != [] {
      var k := |es| - 1;
      assert es == es[..k] + [es[k]];
      LoadHighest(es[..k]);
      var seen := set e | e in es[..k] && Usable(e);
      if Usable(es[k]) {
        HighestMerge(Load(es[..k]), seen, es[k]);
        assert seen + {es[k]} == set e | e in es && Usable(e);
      } else {
        assert seen == set e | e in es && Usable(e);
      }
    }
  }

  /** Reopening a saved snapshot restores exactly the map it was taken from. */
  lemma ReopenRestores(m: Marks, es: seq<Entry>)
    requires Clean(m) && Lists(es, m)
    ensures Load(es) == m
  {
    LoadHighest(es);
    var all := set e | e in es && Usable(e);
    forall e | e in es ensures Usable(e) { assert e == EntryOf(KeyOf(e), m[KeyOf(e)]); }
    forall k ensures Backed(m, k, all) {
      if k in m { assert KeyOf(EntryOf(k, m[k])) == k && MarkOf(EntryOf(k, m[k])) == m[k]; }
    }
    HighestUnique(Load(es), m, all);
  }

  lemma {:induction false} LoadClean(es: seq<Entry>)
    ensures Clean(Load(es))
  {
    LoadHighest(es);
    var m := Load(es);
    forall k | k in m ensures Usable(EntryOf(k, m[k])) { assert Backed(m, k, set e | e in es && Usable(e)); }
  }

  lemma NoteClean(m: Marks, cap: nat, e: Entry)
    requires Clean(m)
    ensures Clean(Note(m, cap, e))
  { }

  lemma {:induction false} PushClean(m: Marks, cap: nat, known: Option<set<string>>, es: seq<Entry>)
    requires Clean(m)
    ensures Clean(Push(m, cap, known, es))
  {
    if es != [] { PushClean(m, cap, known, es[..|es| - 1]); }
  }

  // ---------- one entry at a time ----------

  /** What a key holds after `new_` was offered to `cur`: the larger offset, and at equal offsets the larger epoch. */
  lemma RaiseIsMaximum(cur: Mark, new_: Mark)
    ensures Raise(cur, new_) ==
            if new_.offset > cur.offset || (new_.offset == cur.offset && new_.epoch > cur.epoch) then new_ else cur
    ensures AtMost(cur, new_) <==> cur.offset < new_.offset || (cur.offset == new_.offset && cur.epoch <= new_.epoch)
  { }

  /** An entry without an offset or a topic, or a new key when the journal is full, changes nothing; any other changes its own key only. */
  lemma NoteTakesEffect(m: Marks, cap: nat, e: Entry)
    ensures var k, r := (e.topic, e.partition), Note(m, cap, e);
            if e.offset == 0 || e.topic == "" || (k !in m && |m| >= cap) then r == m
            else r == m[k := if k in m then Raise(m[k], Mark(e.offset, e.epoch)) else Mark(e.offset, e.epoch)]
  { }

  /** A push changes a key only to the mark of an entry it was given, of a known topic, with an offset. */
  lemma {:induction false} PushOnlyKnown(m: Marks, cap: nat, known: Option<set<string>>, es: seq<Entry>, k: Key)
    requires k in Push(m, cap, known, es)
    ensures var mark := Push(m, cap, known, es)[k];
            || (k in m && m[k] == mark)
            || (&& Entry(k.0, k.1, mark.offset, mark.epoch) in es
                && mark.offset != 0 && k.0 != "" && (known.None? || k.0 in known.value))
  {
    if es != [] {
      var n := |es| - 1;
      assert es == es[..n] + [es[n]];
      if k in Push(m, cap, known, es[..n]) { PushOnlyKnown(m, cap, known, es[..n], k); }
    }
  }

  lemma {:induction false} PushGrows(m: Marks, cap: nat, known: Option<set<string>>, es: seq<Entry>)
    ensures |Push(m, cap, known, es)| <= |m| + |es|
  {
    if es != [] {
      var n := |es| - 1;
      PushGrows(m, cap, known, es[..n]);
      var r := Push(m, cap, known, es[..n]);
      assert Merge(r, es[n]).Keys == r.Keys + {KeyOf(es[n])};
      assert |Merge(r, es[n]).Keys| <= |r.Keys| + 1;
    }
  }

  /** A push covers every entry it accepts whose key is there already, or for which there is room whatever the others do. */
  lemma {:induction false} PushCovers(m: Marks, cap: nat, known: Option<set<string>>, es: seq<Entry>, e: Entry)
    requires e in es && e.offset != 0 && e.topic != "" && (known.None? || e.topic in known.value)
    requires (e.topic, e.partition) in m || |m| + |es| <= cap
    ensures Covered(Push(m, cap, known, es), e)
  {
    var n := |es| - 1;
    assert es == es[..n] + [es[n]];
    var r := Push(m, cap, known, es[..n]);
    PushGrows(m, cap, known, es[..n]);
    PushRaises(m, cap, known, es[..n]);
    if e in es[..n] {
      PushCovers(m, cap, known, es[..n], e);
      MergeRaises(r, es[n]);
    } else {
      MergeRaises(r, e);
    }
  }
}
