/**
 Concurrent notes and pushes on one journal. A step is what happens between
 two points where another thread can run: the map update under the write lock,
 one atomic operation on the generation, taking the persist lock, each of the
 two reads of `to_file`, and the atomic replacement of the file. A crash may
 come at any point.
 */
module JournalConcurrency {
  import opened Options
  import opened Journal

  /** What a writer put into memory and now wants on disk. */
  datatype Work = Work(marks: Marks, generation: nat)

  /** Where a writer stands after its map update. */
  datatype Progress =
    | Merged(marks: Marks, bump: bool)
    | Raising(marks: Marks, pushed: nat, changed: bool, seen: Option<nat>)
    | Queued(work: Work)
    | Locked(work: Work)
    | HasGeneration(work: Work, generation: nat)
    | HasMarks(work: Work, generation: nat, marks: Marks)

  datatype State = State(marks: Marks, generation: nat, disk: File, lock: Option<nat>, threads: map<nat, Progress>)

  datatype Label =
    | NoteMerge(t: nat, e: Entry, bump: bool)
    | NoteBump(t: nat)
    | PushMerge(t: nat, pushed: nat, es: seq<Entry>, known: Option<set<string>>)
    | LoadGeneration(t: nat)
    | CompareExchange(t: nat, spurious: bool)
    | TakeLock(t: nat)
    | ReadGeneration(t: nat)
    | ReadMarks(t: nat)
    | Save(t: nat, ok: bool, es: seq<Entry>)
    | Restart

  ghost predicate Enabled(s: State, l: Label) {
    match l
    case NoteMerge(t, _, _) => t !in s.threads
    case NoteBump(t) => t in s.threads && s.threads[t].Merged?
    case PushMerge(t, _, _, _) => t !in s.threads
    case LoadGeneration(t) => t in s.threads && s.threads[t].Raising? && s.threads[t].seen.None?
    case CompareExchange(t, _) => t in s.threads && s.threads[t].Raising? && s.threads[t].seen.Some?
    case TakeLock(t) => t in s.threads && s.threads[t].Queued? && s.lock.None?
    case ReadGeneration(t) => t in s.threads && s.threads[t].Locked?
    case ReadMarks(t) => t in s.threads && s.threads[t].HasGeneration?
    case Save(t, _, es) => t in s.threads && s.threads[t].HasMarks? && Lists(es, s.threads[t].marks)
    case Restart => true
  }

  function Put(s: State, t: nat, p: Progress): State { s.(threads := s.threads[t := p]) }

  function Finish(s: State, t: nat): State { s.(threads := s.threads - {t}) }

  /** After `atomic_fetch_max`: persist if the map or the generation moved. */
  function AfterRaise(s: State, t: nat, marks: Marks, pushed: nat, changed: bool): State {
    if changed then Put(s, t, Queued(Work(marks, pushed))) else Finish(s, t)
  }

  /** A journal opened on a file, nobody writing. */
  function Opened(file: File): State { State(Load(file.entries), file.generation, file, None, map[]) }

  function Next(s: State, l: Label, cap: nat): State
    requires Enabled(s, l)
  {
    match l
    case NoteMerge(t, e, bump) =>
      var m := Note(s.marks, cap, e);
      if m == s.marks then s else Put(s.(marks := m), t, Merged(m, bump))
    case NoteBump(t) =>
      var p := s.threads[t];
      var s' := if p.bump then s.(generation := s.generation + 1) else s;
      Put(s', t, Queued(Work(p.marks, if p.bump then s'.generation else 0)))
    case PushMerge(t, pushed, es, known) =>
      if |es| > cap then s
      else
        var m := Push(s.marks, cap, known, es);
        Put(s.(marks := m), t, Raising(m, pushed, m != s.marks, None))
    case LoadGeneration(t) => Put(s, t, s.threads[t].(seen := Some(s.generation)))
    case CompareExchange(t, spurious) =>
      var p := s.threads[t];
      if p.pushed <= p.seen.value then AfterRaise(s, t, p.marks, p.pushed, p.changed)
      else if !spurious && s.generation == p.seen.value then
        AfterRaise(s.(generation := p.pushed), t, p.marks, p.pushed, true)
      else Put(s, t, p.(seen := Some(s.generation)))
    case TakeLock(t) => Put(s.(lock := Some(t)), t, Locked(s.threads[t].work))
    case ReadGeneration(t) => Put(s, t, HasGeneration(s.threads[t].work, s.generation))
    case ReadMarks(t) => Put(s, t, HasMarks(s.threads[t].work, s.threads[t].generation, s.marks))
    case Save(t, ok, es) =>
      Finish(s.(lock := None, disk := if ok then File(s.threads[t].generation, es) else s.disk), t)
    case Restart => Opened(s.disk)
  }

  /** The marks a reader of the file gets. */
  function OnDisk(s: State): Marks { Load(s.disk.entries) }

  // ---------- invariant ----------

  ghost predicate Includes(m: Marks, generation: nat, w: Work) {
    Below(w.marks, m) && w.generation <= generation
  }

  /** A writer's claims about memory and disk. */
  ghost predicate Sound(s: State, t: nat, p: Progress) {
    match p
    case Merged(m, _) => Below(m, s.marks)
    case Raising(m, _, _, seen) => Below(m, s.marks) && (seen.Some? ==> seen.value <= s.generation)
    case Queued(w) => Includes(s.marks, s.generation, w)
    case Locked(w) => s.lock == Some(t) && Includes(s.marks, s.generation, w)
    case HasGeneration(w, g) =>
      s.lock == Some(t) && Includes(s.marks, g, w) && s.disk.generation <= g <= s.generation
    case HasMarks(w, g, m) =>
      && s.lock == Some(t) && Includes(m, g, w) && s.disk.generation <= g <= s.generation
      && Below(OnDisk(s), m) && Below(m, s.marks) && Clean(m)
  }

  ghost predicate Inv(s: State) {
    && Below(OnDisk(s), s.marks) && s.disk.generation <= s.generation && Clean(s.marks)
    && forall t :: t in s.threads ==> Sound(s, t, s.threads[t])
  }

  /** Memory, disk and lock moved only forward, as far as `t` can tell. */
  lemma SoundStays(s: State, s': State, t: nat, p: Progress)
    requires Sound(s, t, p) && Below(s.marks, s'.marks) && s.generation <= s'.generation
    requires s'.disk == s.disk
    requires s.lock == Some(t) ==> s'.lock == Some(t)
    ensures Sound(s', t, p)
  {
    match p {
      case Merged(m, _) => BelowTransitive(m, s.marks, s'.marks);
      case Raising(m, _, _, _) => BelowTransitive(m, s.marks, s'.marks);
      case Queued(w) => BelowTransitive(w.marks, s.marks, s'.marks);
      case Locked(w) => BelowTransitive(w.marks, s.marks, s'.marks);
      case HasGeneration(w, _) => BelowTransitive(w.marks, s.marks, s'.marks);
      case HasMarks(_, _, m) => BelowTransitive(m, s.marks, s'.marks);
    }
  }

  lemma NoteBelow(m: Marks, cap: nat, e: Entry)
    ensures Below(m, Note(m, cap, e))
  {
    MergeRaises(m, e);
  }

  /** One writer moves to `p`, everybody else stays where they were. */
  lemma InvPut(s: State, s': State, t: nat, p: Progress)
    requires Inv(s) && s'.threads == s.threads[t := p] && s'.disk == s.disk
    requires Below(s.marks, s'.marks) && s.generation <= s'.generation && Clean(s'.marks)
    requires s.lock.Some? && s.lock.value != t ==> s'.lock == s.lock
    requires Sound(s', t, p)
    ensures Inv(s')
  {
    BelowTransitive(OnDisk(s), s.marks, s'.marks);
    forall u | u in s'.threads ensures Sound(s', u, s'.threads[u]) {
      if u != t { SoundStays(s, s', u, s.threads[u]); }
    }
  }

  lemma InvFinish(s: State, t: nat)
    requires Inv(s)
    ensures Inv(Finish(s, t))
  {
    var s' := Finish(s, t);
    forall u | u in s'.threads ensures Sound(s', u, s'.threads[u]) { SoundStays(s, s', u, s.threads[u]); }
  }

  lemma BelowReflexive(m: Marks)
    ensures Below(m, m)
  { }

  /** What a successful save writes reads back as the marks it was taken from. */
  lemma SaveReadsBack(s: State, l: Label, cap: nat)
    requires Inv(s) && Enabled(s, l) && l.Save? && l.ok
    ensures OnDisk(Next(s, l, cap)) == s.threads[l.t].marks
  {
    assert Sound(s, l.t, s.threads[l.t]);
    ReopenRestores(s.threads[l.t].marks, l.es);
  }

  lemma InvSave(s: State, l: Label, cap: nat)
    requires Inv(s) && Enabled(s, l) && l.Save?
    ensures Inv(Next(s, l, cap))
  {
    var s' := Next(s, l, cap);
    if l.ok { SaveReadsBack(s, l, cap); }
    forall u | u in s'.threads ensures Sound(s', u, s'.threads[u]) {
      assert Sound(s, u, s.threads[u]) && Sound(s, l.t, s.threads[l.t]);
    }
    assert Sound(s, l.t, s.threads[l.t]);
  }

  lemma InvNext(s: State, l: Label, cap: nat)
    requires Inv(s) && Enabled(s, l)
    ensures Inv(Next(s, l, cap))
  {
    var s' := Next(s, l, cap);
    BelowReflexive(s.marks);
    match l {
      case NoteMerge(t, e, bump) =>
        NoteBelow(s.marks, cap, e);
        NoteClean(s.marks, cap, e);
        BelowReflexive(s'.marks);
        if s' != s { InvPut(s, s', t, s'.threads[t]); }
      case NoteBump(t) =>
        assert Sound(s, t, s.threads[t]);
        InvPut(s, s', t, s'.threads[t]);
      case PushMerge(t, pushed, es, known) =>
        PushRaises(s.marks, cap, known, es);
        PushClean(s.marks, cap, known, es);
        BelowReflexive(s'.marks);
        if |es| <= cap { InvPut(s, s', t, s'.threads[t]); }
      case LoadGeneration(t) =>
        assert Sound(s, t, s.threads[t]);
        InvPut(s, s', t, s'.threads[t]);
      case CompareExchange(t, spurious) =>
        assert Sound(s, t, s.threads[t]);
        var p := s.threads[t];
        if p.pushed <= p.seen.value && !p.changed {
          InvFinish(s, t);
        } else {
          InvPut(s, s', t, s'.threads[t]);
        }
      case TakeLock(t) =>
        assert Sound(s, t, s.threads[t]);
        InvPut(s, s', t, s'.threads[t]);
      case ReadGeneration(t) =>
        assert Sound(s, t, s.threads[t]);
        InvPut(s, s', t, s'.threads[t]);
      case ReadMarks(t) =>
        assert Sound(s, t, s.threads[t]);
        InvPut(s, s', t, s'.threads[t]);
      case Save(_, _, _) =>
        InvSave(s, l, cap);
      case Restart =>
        BelowReflexive(OnDisk(s));
        LoadClean(s.disk.entries);
    }
  }

  // ---------- runs ----------

  ghost predicate StepAt(ss: seq<State>, ls: seq<Label>, cap: nat, i: nat)
    requires i < |ls| < |ss|
  {
    Enabled(ss[i], ls[i]) && ss[i + 1] == Next(ss[i], ls[i], cap)
  }

  /** A run of a journal opened on the file `disk`, whatever it holds. */
  ghost predicate Run(ss: seq<State>, ls: seq<Label>, cap: nat, disk: File) {
    && |ss| == |ls| + 1
    && ss[0] == Opened(disk)
    && forall i :: 0 <= i < |ls| ==> StepAt(ss, ls, cap, i)
  }

  lemma {:induction false} RunInv(ss: seq<State>, ls: seq<Label>, cap: nat, disk: File, k: nat)
    requires Run(ss, ls, cap, disk) && k < |ss|
    ensures Inv(ss[k])
  {
    if k == 0 {
      LoadClean(disk.entries);
    } else {
      RunInv(ss, ls, cap, disk, k - 1);
      assert StepAt(ss, ls, cap, k - 1);
      InvNext(ss[k - 1], ls[k - 1], cap);
    }
  }

  lemma DiskStep(s: State, l: Label, cap: nat)
    requires Inv(s) && Enabled(s, l)
    ensures Below(OnDisk(s), OnDisk(Next(s, l, cap))) && s.disk.generation <= Next(s, l, cap).disk.generation
  {
    if l.Save? && l.ok {
      SaveReadsBack(s, l, cap);
      assert Sound(s, l.t, s.threads[l.t]);
    }
  }

  /**
   Successive snapshots on disk never go back, entrywise or in generation,
   under any interleaving of notes, pushes, failed saves and crashes.
   */
  lemma {:induction false} DiskNeverGoesBack(ss: seq<State>, ls: seq<Label>, cap: nat, disk: File, i: nat, k: nat)
    requires Run(ss, ls, cap, disk) && i <= k < |ss|
    ensures Below(OnDisk(ss[i]), OnDisk(ss[k])) && ss[i].disk.generation <= ss[k].disk.generation
    decreases k
  {
    if i < k {
      DiskNeverGoesBack(ss, ls, cap, disk, i, k - 1);
      RunInv(ss, ls, cap, disk, k - 1);
      assert StepAt(ss, ls, cap, k - 1);
      DiskStep(ss[k - 1], ls[k - 1], cap);
      BelowTransitive(OnDisk(ss[i]), OnDisk(ss[k - 1]), OnDisk(ss[k]));
    }
  }

  /** No step from `i` on, before `k`, saved successfully. */
  ghost predicate NoSaveBetween(ls: seq<Label>, i: nat, k: nat)
    requires k <= |ls|
  {
    forall j :: i <= j < k ==> !(ls[j].Save? && ls[j].ok)
  }

  lemma {:induction false} FileStays(ss: seq<State>, ls: seq<Label>, cap: nat, disk: File, i: nat, k: nat)
    requires Run(ss, ls, cap, disk) && i <= k < |ss| && NoSaveBetween(ls, i, k)
    ensures ss[k].disk == ss[i].disk
    decreases k
  {
    if i < k {
      FileStays(ss, ls, cap, disk, i, k - 1);
      assert StepAt(ss, ls, cap, k - 1);
    }
  }

  /**
   After any run a restart at `n` yields exactly the marks and the generation
   that the last successful save, at `k`, had read from memory.
   */
  lemma RestartRestoresLastSave(ss: seq<State>, ls: seq<Label>, cap: nat, disk: File, k: nat, n: nat)
    requires Run(ss, ls, cap, disk) && k < n < |ls| && ls[n] == Restart
    requires ls[k].Save? && ls[k].ok && NoSaveBetween(ls, k + 1, n)
    ensures ls[k].t in ss[k].threads && ss[k].threads[ls[k].t].HasMarks?
    ensures var saved := ss[k].threads[ls[k].t];
            ss[n + 1].marks == saved.marks && ss[n + 1].generation == saved.generation
  {
    RunInv(ss, ls, cap, disk, k);
    assert StepAt(ss, ls, cap, k) && StepAt(ss, ls, cap, n);
    SaveReadsBack(ss[k], ls[k], cap);
    FileStays(ss, ls, cap, disk, k + 1, n);
  }

  /** Before the first successful save a restart finds the file the run began with. */
  lemma RestartBeforeAnySave(ss: seq<State>, ls: seq<Label>, cap: nat, disk: File, n: nat)
    requires Run(ss, ls, cap, disk) && n < |ls| && ls[n] == Restart && NoSaveBetween(ls, 0, n)
    ensures ss[n + 1] == Opened(disk)
  {
    FileStays(ss, ls, cap, disk, 0, n);
    assert StepAt(ss, ls, cap, n);
  }

  /** Writer `t` of a note started at `i` is still at work in state `k`. */
  ghost predicate Writing(ss: seq<State>, ls: seq<Label>, i: nat, k: nat, t: nat)
    requires i < k < |ss| && k <= |ls|
  {
    forall j :: i < j <= k ==> t in ss[j].threads && (j < k ==> ls[j] != Restart)
  }

  /** The marks a writer carries, whatever its stage. */
  function Carried(p: Progress): Marks {
    match p
    case Merged(m, _) => m
    case Raising(m, _, _, _) => m
    case Queued(w) => w.marks
    case Locked(w) => w.marks
    case HasGeneration(w, _) => w.marks
    case HasMarks(w, _, _) => w.marks
  }

  lemma CarriedStays(s: State, l: Label, cap: nat, t: nat)
    requires Enabled(s, l) && t in s.threads && t in Next(s, l, cap).threads
    ensures Carried(Next(s, l, cap).threads[t]) == Carried(s.threads[t])
  { }

  lemma {:induction false} CarriedSince(ss: seq<State>, ls: seq<Label>, cap: nat, disk: File, i: nat, k: nat, t: nat)
    requires Run(ss, ls, cap, disk) && i < k < |ss| && Writing(ss, ls, i, k, t)
    ensures Carried(ss[k].threads[t]) == Carried(ss[i + 1].threads[t])
    decreases k
  {
    if i + 1 < k {
      CarriedSince(ss, ls, cap, disk, i, k - 1, t);
      assert StepAt(ss, ls, cap, k - 1);
      CarriedStays(ss[k - 1], ls[k - 1], cap, t);
    }
  }

  /** The writer will bump, or has bumped to a generation above `g`. */
  predicate BumpsPast(p: Progress, g: nat) {
    match p
    case Merged(_, bump) => bump
    case Raising(_, _, _, _) => false
    case Queued(w) => w.generation > g
    case Locked(w) => w.generation > g
    case HasGeneration(w, _) => w.generation > g
    case HasMarks(w, _, _) => w.generation > g
  }

  lemma GenerationStep(s: State, l: Label, cap: nat)
    requires Enabled(s, l) && l != Restart
    ensures s.generation <= Next(s, l, cap).generation
  { }

  lemma BumpStays(s: State, l: Label, cap: nat, t: nat, g: nat)
    requires Enabled(s, l) && t in s.threads && t in Next(s, l, cap).threads
    requires BumpsPast(s.threads[t], g) && g <= s.generation
    ensures BumpsPast(Next(s, l, cap).threads[t], g)
  { }

  lemma {:induction false} BumpedSince(ss: seq<State>, ls: seq<Label>, cap: nat, disk: File, i: nat, k: nat, t: nat, g: nat)
    requires Run(ss, ls, cap, disk) && i < k < |ss| && Writing(ss, ls, i, k, t)
    requires BumpsPast(ss[i + 1].threads[t], g) && g <= ss[i + 1].generation
    ensures BumpsPast(ss[k].threads[t], g) && g <= ss[k].generation
    decreases k
  {
    if i + 1 < k {
      BumpedSince(ss, ls, cap, disk, i, k - 1, t, g);
      assert StepAt(ss, ls, cap, k - 1);
      assert t in ss[k].threads && t in ss[k - 1].threads && ls[k - 1] != Restart;
      BumpStays(ss[k - 1], ls[k - 1], cap, t, g);
      GenerationStep(ss[k - 1], ls[k - 1], cap);
    }
  }

  /**
   A note that changed the map is on disk when its own save succeeds: the mark
   noted at step `i` is covered by the file right after the same writer's save
   at step `k`, whoever else wrote in between, and a bumping note's file has a
   generation above the one it found.
   */
  lemma SavedNoteIsOnDisk(ss: seq<State>, ls: seq<Label>, cap: nat, disk: File, i: nat, k: nat, t: nat, e: Entry, bump: bool)
    requires Run(ss, ls, cap, disk) && i < k < |ls| && Writing(ss, ls, i, k, t)
    requires ls[i] == NoteMerge(t, e, bump) && ls[k].Save? && ls[k].t == t && ls[k].ok
    ensures Covered(OnDisk(ss[k + 1]), e)
    ensures bump ==> ss[k + 1].disk.generation > ss[i].generation
  {
    assert StepAt(ss, ls, cap, i) && StepAt(ss, ls, cap, k);
    assert t in ss[i + 1].threads;
    NotedIsCarried(ss[i], cap, t, e, bump);
    CarriedSince(ss, ls, cap, disk, i, k, t);
    RunInv(ss, ls, cap, disk, k);
    assert Sound(ss[k], t, ss[k].threads[t]);
    SaveReadsBack(ss[k], ls[k], cap);
    if bump { BumpedSince(ss, ls, cap, disk, i, k, t, ss[i].generation); }
  }

  lemma NotedIsCarried(s: State, cap: nat, t: nat, e: Entry, bump: bool)
    requires t !in s.threads && t in Next(s, NoteMerge(t, e, bump), cap).threads
    ensures Covered(Carried(Next(s, NoteMerge(t, e, bump), cap).threads[t]), e)
  {
    MergeRaises(s.marks, e);
  }

  /** So no later restart forgets it, whatever happened since. */
  lemma SavedNoteSurvivesRestart(ss: seq<State>, ls: seq<Label>, cap: nat, disk: File, i: nat, k: nat, n: nat, t: nat, e: Entry, bump: bool)
    requires Run(ss, ls, cap, disk) && i < k < n < |ls| && Writing(ss, ls, i, k, t) && ls[n] == Restart
    requires ls[i] == NoteMerge(t, e, bump) && ls[k].Save? && ls[k].t == t && ls[k].ok
    ensures Covered(ss[n + 1].marks, e)
    ensures bump ==> ss[n + 1].generation > ss[i].generation
  {
    SavedNoteIsOnDisk(ss, ls, cap, disk, i, k, t, e, bump);
    DiskNeverGoesBack(ss, ls, cap, disk, k + 1, n);
    assert StepAt(ss, ls, cap, n);
  }

  // ---------- what a step leaves in memory ----------

  /** The entries a step offers to the map. */
  function OfferedBy(l: Label, cap: nat): set<Entry> {
    match l
    case NoteMerge(_, e, _) => {e}
    case PushMerge(_, _, es, known) => if |es| > cap then {} else set e | e in es && (known.None? || e.topic in known.value)
    case _ => {}
  }

  /** A usable entry for whose key there is room is in memory after the step that offers it. */
  lemma OfferTakesEffect(s: State, l: Label, cap: nat, e: Entry)
    requires Enabled(s, l) && e in OfferedBy(l, cap) && e.offset != 0 && e.topic != ""
    requires (e.topic, e.partition) in s.marks || |s.marks| + (if l.PushMerge? then |l.es| else 1) <= cap
    ensures Covered(Next(s, l, cap).marks, e)
  {
    match l {
      case NoteMerge(_, _, _) => MergeRaises(s.marks, e);
      case PushMerge(_, _, es, known) => PushCovers(s.marks, cap, known, es, e);
    }
  }

  lemma MemoryStep(s: State, l: Label, cap: nat)
    requires Enabled(s, l) && l != Restart
    ensures Below(s.marks, Next(s, l, cap).marks)
  {
    BelowReflexive(s.marks);
    match l {
      case NoteMerge(_, e, _) => NoteBelow(s.marks, cap, e);
      case PushMerge(_, _, es, known) => PushRaises(s.marks, cap, known, es);
      case _ =>
    }
  }

  /** Over every run: what was offered and found room stays in memory until a restart. */
  lemma {:induction false} OfferedStaysInMemory(ss: seq<State>, ls: seq<Label>, cap: nat, disk: File, i: nat, k: nat, e: Entry)
    requires Run(ss, ls, cap, disk) && i < k < |ss| && e in OfferedBy(ls[i], cap) && e.offset != 0 && e.topic != ""
    requires (e.topic, e.partition) in ss[i].marks || |ss[i].marks| + (if ls[i].PushMerge? then |ls[i].es| else 1) <= cap
    requires forall j :: i < j < k ==> ls[j] != Restart
    ensures Covered(ss[k].marks, e)
    decreases k
  {
    assert StepAt(ss, ls, cap, k - 1);
    if i + 1 == k {
      OfferTakesEffect(ss[i], ls[i], cap, e);
    } else {
      OfferedStaysInMemory(ss, ls, cap, disk, i, k - 1, e);
      MemoryStep(ss[k - 1], ls[k - 1], cap);
      assert KeyOf(e) in ss[k - 1].marks;
    }
  }

  /** A note that changed the map goes on to save it, bumping the generation by one if asked. */
  lemma ChangedNoteSaves(s: State, t: nat, e: Entry, bump: bool, cap: nat)
    requires Enabled(s, NoteMerge(t, e, bump)) && Note(s.marks, cap, e) != s.marks
    ensures var s1 := Next(s, NoteMerge(t, e, bump), cap);
            && Enabled(s1, NoteBump(t))
            && var s2 := Next(s1, NoteBump(t), cap);
               s2.generation == s.generation + (if bump then 1 else 0) && s2.threads[t].Queued?
  { }

  /** A push leaves its loop only when the generation has reached the one it carries; it moves it nowhere else. */
  lemma RaiseReaches(s: State, t: nat, spurious: bool, cap: nat)
    requires Inv(s) && Enabled(s, CompareExchange(t, spurious))
    ensures var s' := Next(s, CompareExchange(t, spurious), cap);
            && (s'.generation == s.generation || s.generation < s'.generation == s.threads[t].pushed)
            && (!(t in s'.threads && s'.threads[t].Raising?) ==> s'.generation >= s.threads[t].pushed)
            && (s'.generation != s.generation || s.threads[t].changed ==>
                  t in s'.threads && (s'.threads[t].Queued? || (s'.threads[t].Raising? && s'.generation == s.generation)))
  {
    assert Sound(s, t, s.threads[t]);
  }
}
