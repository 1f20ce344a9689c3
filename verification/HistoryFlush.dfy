/** The write-behind flush of the conversation store: a dirty set, a debounced flush task, and
    a flush whose snapshot, file writes and commit interleave with the mutators. */
module HistoryFlush {
  import opened Wrappers
  import opened OrderedDicts
  import opened HistoryWindow
  import opened Conversations

  /** `_flush_task`: absent or done, waiting out the delay, or carrying out a flush. */
  datatype FlushTask = Idle | Sleeping | Running

  /** A flush between its snapshot and its commit; `done` counts the conversations written. */
  datatype Flight = Flight(keys: seq<Key>, snapshot: map<Key, seq<Entry>>, migrating: bool, done: nat, finished: bool)

  /** The store, its directory of per-conversation files (one per key, as the file-name hash is
      injective), whether the legacy file is still there, and the flush bookkeeping. */
  datatype Agent = Agent(
    convs: Cache,
    files: map<Key, seq<Entry>>,
    legacy: bool,
    dirty: bool,
    dirtyKeys: set<Key>,
    task: FlushTask,
    flight: Option<Flight>)

  datatype Event =
    | Mutate(op: Op)
    | Wake(listing: seq<Key>)  // the delay is over, or `flush` does not wait; `listing` enumerates the dirty keys
    | WriteNext
    | PruneFile(key: Key)
    | DropLegacy               // the last file operation of a save
    | CommitSaved
    | CommitFailed

  function Held(contents: map<Key, seq<Entry>>, k: Key): seq<Entry> {
    if k in contents then contents[k] else []
  }

  // ---- The steps ----

  function MarkDirty(a: Agent, key: Key): Agent {
    a.(dirty := true, dirtyKeys := a.dirtyKeys + {key}, task := if a.task == Idle then Sleeping else a.task)
  }

  function MutateStep(limits: Limits, a: Agent, op: Op): Agent {
    var convs := Apply(limits.maxConversations, Window(limits), a.convs, op);
    var changed := a.(convs := convs, files := a.files - (a.convs.at.Keys - convs.at.Keys));
    if op.Get? then changed else MarkDirty(changed, op.key)
  }

  /** `snapshot_for_flush`, as `flush_once` uses it. */
  function SnapshotStep(a: Agent, listing: seq<Key>): Agent {
    if !a.dirty then a.(task := Idle)
    else
      var keys := if a.legacy then a.convs.order else listing;
      if keys == [] && !a.legacy then a.(dirty := false, task := Idle)
      else a.(task := Running,
              flight := Some(Flight(keys, map k | k in keys :: Held(a.convs.at, k), a.legacy, 0, false)))
  }

  /** `write_conversation_file` for the next conversation: an empty one loses its file. */
  function WriteStep(a: Agent): Agent
    requires a.flight.Some? && a.flight.value.done < |a.flight.value.keys|
    requires a.flight.value.keys[a.flight.value.done] in a.flight.value.snapshot
  {
    var f := a.flight.value;
    var k := f.keys[f.done];
    a.(files := if f.snapshot[k] == [] then a.files - {k} else a.files[k := f.snapshot[k]],
       flight := Some(f.(done := f.done + 1)))
  }

  function CommitStep(a: Agent, saved: bool): Agent
    requires a.flight.Some?
  {
    var keys := set k | k in a.flight.value.keys;
    var left := if saved then a.dirtyKeys - keys else a.dirtyKeys + keys;
    var dirty := !saved || left != {};
    a.(dirtyKeys := left, dirty := dirty, task := if saved && dirty then Sleeping else Idle, flight := None)
  }

  /** The file is one that a migrating save has written, and must not prune. */
  predicate IsSpared(f: Flight, key: Key) {
    key in f.snapshot && f.snapshot[key] != []
  }

  ghost predicate Enabled(a: Agent, e: Event) {
    match e
    case Mutate(op) => true
    case Wake(listing) =>
      a.task != Running && a.flight.None? && Distinct(listing) && forall k :: k in listing <==> k in a.dirtyKeys
    case WriteNext => a.flight.Some? && a.flight.value.done < |a.flight.value.keys|
                      && a.flight.value.keys[a.flight.value.done] in a.flight.value.snapshot
    case PruneFile(key) =>
      && a.flight.Some? && a.flight.value.migrating && !a.flight.value.finished
      && a.flight.value.done == |a.flight.value.keys| && key in a.files && !IsSpared(a.flight.value, key)
    case DropLegacy =>
      && a.flight.Some? && !a.flight.value.finished && a.flight.value.done == |a.flight.value.keys|
      && (a.flight.value.migrating ==> forall k :: k in a.files ==> IsSpared(a.flight.value, k))
    case CommitSaved => a.flight.Some? && a.flight.value.finished
    case CommitFailed => a.flight.Some? && !a.flight.value.finished
  }

  ghost function Next(limits: Limits, a: Agent, e: Event): Agent
    requires Enabled(a, e)
  {
    match e
    case Mutate(op) => MutateStep(limits, a, op)
    case Wake(listing) => SnapshotStep(a, listing)
    case WriteNext => WriteStep(a)
    case PruneFile(key) => a.(files := a.files - {key})
    case DropLegacy => a.(legacy := false, flight := Some(a.flight.value.(finished := true)))
    case CommitSaved => CommitStep(a, true)
    case CommitFailed => CommitStep(a, false)
  }

  // ---- Whole runs ----

  ghost predicate EnabledRun(limits: Limits, a: Agent, events: seq<Event>)
    decreases |events|
  {
    events != [] ==> Enabled(a, events[0]) && EnabledRun(limits, Next(limits, a, events[0]), events[1..])
  }

  ghost function Play(limits: Limits, a: Agent, events: seq<Event>): Agent
    requires EnabledRun(limits, a, events)
    decreases |events|
  {
    if events == [] then a else Play(limits, Next(limits, a, events[0]), events[1..])
  }

  /** An agent at rest, such as one that has just loaded its history. */
  ghost predicate AtRest(a: Agent) {
    && a.convs.Valid() && !a.dirty && a.dirtyKeys == {} && a.task == Idle && a.flight.None?
    && (forall k :: k in a.files ==> a.files[k] != [])
    && (!a.legacy ==> forall k :: Agrees(a, k))
  }

  /** The agent, and the conversations of the flush in flight that were evicted after their file was
      written. */
  datatype Watch = Watch(a: Agent, gone: set<Key>)

  predicate HasBeenWritten(f: Flight, k: Key) {
    f.done <= |f.keys| && k in f.keys[..f.done]
  }

  ghost function Observe(limits: Limits, w: Watch, e: Event): Watch
    requires Enabled(w.a, e)
  {
    var a := Next(limits, w.a, e);
    Watch(a, match e
             case Wake(_) => {}
             case Mutate(_) =>
               if w.a.flight.Some?
               then w.gone + set k | k in w.a.convs.at && k !in a.convs.at && HasBeenWritten(w.a.flight.value, k)
               else w.gone
             case _ => w.gone)
  }

  // ---- What every run keeps ----

  ghost predicate Agrees(a: Agent, k: Key) {
    Held(a.files, k) == Held(a.convs.at, k)
  }

  ghost predicate FlightOk(w: Watch, f: Flight) {
    && f.done <= |f.keys| && (f.finished ==> f.done == |f.keys|) && Distinct(f.keys)
    && (forall k :: k in f.keys <==> k in f.snapshot)
    && (forall k :: k in w.gone ==> HasBeenWritten(f, k))
    && (forall k :: HasBeenWritten(f, k) ==>
          if k in w.gone then k !in w.a.files else Held(w.a.files, k) == Held(f.snapshot, k))
    && (!f.migrating ==> !w.a.legacy && forall k :: k in f.keys ==> k in w.a.dirtyKeys)
    && (f.migrating ==> forall k :: k !in f.keys && k !in w.a.dirtyKeys ==> Held(w.a.convs.at, k) == [])
    && (f.migrating && !f.finished ==> w.a.legacy)
    && (f.migrating && f.finished ==> forall k :: k in w.a.files ==> IsSpared(f, k))
  }

  ghost predicate Inv(w: Watch) {
    && w.a.convs.Valid()
    && (w.a.dirtyKeys != {} ==> w.a.dirty)
    && (w.a.flight.Some? <==> w.a.task == Running)
    && (w.a.flight.Some? ==> FlightOk(w, w.a.flight.value))
    && (forall k :: k in w.a.files ==> w.a.files[k] != [])
  }

  ghost predicate AgreesWhenClean(a: Agent) {
    forall k :: k !in a.dirtyKeys ==> Agrees(a, k)
  }

  /** Unless a migration is under way or still to come, disk and memory agree on what is not dirty. */
  ghost predicate CleanAgree(a: Agent) {
    !a.legacy && (a.flight.Some? ==> !a.flight.value.migrating) ==> AgreesWhenClean(a)
  }

  /** Memory still holds what the flush in flight took its snapshot of, but for the conversations evicted
      after their file was written, of which it holds nothing. */
  ghost predicate Kept(w: Watch) {
    w.a.flight.Some? ==>
      var f := w.a.flight.value;
      forall k :: k in f.keys ==> Held(w.a.convs.at, k) == if k in w.gone then [] else Held(f.snapshot, k)
  }

  /** The memory seen by everyone but the operation's own key changes only by eviction. */
  lemma OtherKeysKept(limits: Limits, convs: Cache, op: Op)
    requires convs.Valid() && limits.maxConversations >= 1
    ensures var r := Apply(limits.maxConversations, Window(limits), convs, op);
      && r.Valid()
      && (forall k :: k != op.key ==> Held(r.at, k) == if k in r.at then Held(convs.at, k) else [])
      && (forall k :: k != op.key && k in r.at ==> k in convs.at)
      && op.key in r.at
      && (op.Get? ==> Held(r.at, op.key) == Held(convs.at, op.key))
  {
    ApplyValid(limits.maxConversations, Window(limits), convs, op);
    if !op.Clear? {
      AccessFacts(limits.maxConversations, convs, op.key);
    }
  }

  lemma MutateKeepsInv(limits: Limits, w: Watch, op: Op)
    requires Inv(w) && limits.maxConversations >= 1
    ensures Inv(Observe(limits, w, Mutate(op)))
    ensures CleanAgree(w.a) ==> CleanAgree(Observe(limits, w, Mutate(op)).a)
  {
    OtherKeysKept(limits, w.a.convs, op);
    var b := MutateStep(limits, w.a, op);
    forall k | k !in b.dirtyKeys && Agrees(w.a, k) ensures Agrees(b, k) {
    }
    if w.a.flight.Some? {
      MutateKeepsFlight(limits, w, op);
    }
  }

  lemma MutateKeepsFlight(limits: Limits, w: Watch, op: Op)
    requires Inv(w) && limits.maxConversations >= 1 && w.a.flight.Some?
    ensures FlightOk(Observe(limits, w, Mutate(op)), w.a.flight.value)
  {
    OtherKeysKept(limits, w.a.convs, op);
    var w', f := Observe(limits, w, Mutate(op)), w.a.flight.value;
    forall k | HasBeenWritten(f, k)
      ensures if k in w'.gone then k !in w'.a.files else Held(w'.a.files, k) == Held(f.snapshot, k)
    {
      assert k in w.a.convs.at && k !in w'.a.convs.at ==> k in w'.gone;
    }
  }

  lemma SnapshotKeepsInv(w: Watch, listing: seq<Key>)
    requires Inv(w) && Enabled(w.a, Wake(listing))
    ensures var w' := Watch(SnapshotStep(w.a, listing), {});
      Inv(w') && Kept(w') && (CleanAgree(w.a) ==> CleanAgree(w'.a))
  {
  }

  lemma WriteKeepsInv(w: Watch)
    requires Inv(w) && Enabled(w.a, WriteNext)
    ensures Inv(Watch(WriteStep(w.a), w.gone)) && (CleanAgree(w.a) ==> CleanAgree(WriteStep(w.a)))
    ensures Kept(w) ==> Kept(Watch(WriteStep(w.a), w.gone))
  {
    var f, b := w.a.flight.value, WriteStep(w.a);
    var key := f.keys[f.done];
    assert f.keys[..f.done + 1] == f.keys[..f.done] + [key];
    assert key !in f.keys[..f.done] && key !in w.gone;
    forall k | HasBeenWritten(b.flight.value, k)
      ensures if k in w.gone then k !in b.files else Held(b.files, k) == Held(f.snapshot, k)
    {
      assert k != key ==> HasBeenWritten(f, k);
    }
  }

  lemma DropKeepsInv(w: Watch)
    requires Inv(w) && Enabled(w.a, DropLegacy)
    ensures var w' := Observe(Limits(0, 0, 1), w, DropLegacy);
      Inv(w') && (CleanAgree(w.a) ==> CleanAgree(w'.a)) && (Kept(w) ==> Kept(w'))
  {
  }

  lemma TidyKeepsInv(w: Watch, e: Event)
    requires Inv(w) && Enabled(w.a, e) && (e.PruneFile? || e.DropLegacy?)
    ensures var w' := Observe(Limits(0, 0, 1), w, e);
      Inv(w') && (CleanAgree(w.a) ==> CleanAgree(w'.a)) && (Kept(w) ==> Kept(w'))
  {
    if e.DropLegacy? {
      DropKeepsInv(w);
    }
  }

  lemma FailureKeepsInv(w: Watch)
    requires Inv(w) && Enabled(w.a, CommitFailed)
    ensures Inv(Watch(CommitStep(w.a, false), w.gone)) && (CleanAgree(w.a) ==> CleanAgree(CommitStep(w.a, false)))
  {
  }

  // ---- The commit ----

  lemma CommitKeepsInv(w: Watch)
    requires Inv(w) && Enabled(w.a, CommitSaved)
    ensures Inv(Watch(CommitStep(w.a, true), w.gone))
  {
  }

  /** A saved flush leaves disk and memory equal on every clean conversation exactly when memory still
      holds what the snapshot took, but for the conversations evicted after their file was written, of
      which it must hold nothing. */
  lemma CommitAgreesIff(w: Watch)
    requires Inv(w) && CleanAgree(w.a) && Enabled(w.a, CommitSaved)
    ensures AgreesWhenClean(CommitStep(w.a, true)) <==> Kept(w)
  {
    var f := w.a.flight.value;
    var b := CommitStep(w.a, true);
    assert f.keys[..f.done] == f.keys;
    forall k | k in f.keys
      ensures k !in b.dirtyKeys && Held(b.files, k) == if k in w.gone then [] else Held(f.snapshot, k)
    {
      assert HasBeenWritten(f, k);
    }
    forall k | k !in b.dirtyKeys && k !in f.keys ensures Agrees(b, k) {
      if f.migrating {
        assert k !in w.a.files;
      } else {
        assert Agrees(w.a, k);
      }
    }
    forall k | k in f.keys
      ensures Agrees(b, k) <==> Held(w.a.convs.at, k) == if k in w.gone then [] else Held(f.snapshot, k)
    {
    }
  }

  lemma StepKeepsInv(limits: Limits, w: Watch, e: Event)
    requires Inv(w) && Enabled(w.a, e) && limits.maxConversations >= 1
    ensures Inv(Observe(limits, w, e))
    ensures CleanAgree(w.a) && (e == CommitSaved ==> Kept(w)) ==> CleanAgree(Observe(limits, w, e).a)
  {
    match e
    case Mutate(op) => MutateKeepsInv(limits, w, op);
    case Wake(listing) => SnapshotKeepsInv(w, listing);
    case WriteNext => WriteKeepsInv(w);
    case PruneFile(key) => TidyKeepsInv(w, e);
    case DropLegacy => TidyKeepsInv(w, e);
    case CommitSaved =>
      CommitKeepsInv(w);
      if CleanAgree(w.a) {
        CommitAgreesIff(w);
      }
    case CommitFailed => FailureKeepsInv(w);
  }

  // ---- Agreement over whole runs ----

  /** Every saved commit of the run finds memory as `Kept` demands. */
  ghost predicate KeptAtCommits(limits: Limits, w: Watch, events: seq<Event>)
    requires EnabledRun(limits, w.a, events)
    decreases |events|
  {
    events != [] ==>
      (events[0] == CommitSaved ==> Kept(w)) && KeptAtCommits(limits, Observe(limits, w, events[0]), events[1..])
  }

  /** Every saved commit of the run leaves disk and memory equal on what is not dirty. */
  ghost predicate AgreesAtCommits(limits: Limits, a: Agent, events: seq<Event>)
    requires EnabledRun(limits, a, events)
    decreases |events|
  {
    events != [] ==>
      var b := Next(limits, a, events[0]);
      (events[0] == CommitSaved ==> AgreesWhenClean(b)) && AgreesAtCommits(limits, b, events[1..])
  }

  /** Over every interleaving, disk and memory agree after each saved flush exactly when each finds memory
      as `Kept` demands. */
  lemma {:induction false} AgreementIff(limits: Limits, w: Watch, events: seq<Event>)
    requires Inv(w) && CleanAgree(w.a) && EnabledRun(limits, w.a, events) && limits.maxConversations >= 1
    ensures AgreesAtCommits(limits, w.a, events) <==> KeptAtCommits(limits, w, events)
    decreases |events|
  {
    if events != [] {
      StepKeepsInv(limits, w, events[0]);
      if events[0] == CommitSaved {
        CommitAgreesIff(w);
      }
      if events[0] == CommitSaved ==> Kept(w) {
        AgreementIff(limits, Observe(limits, w, events[0]), events[1..]);
      }
    }
  }

  lemma {:induction false} KeptRunKeeps(limits: Limits, w: Watch, events: seq<Event>)
    requires Inv(w) && CleanAgree(w.a) && EnabledRun(limits, w.a, events) && limits.maxConversations >= 1
    requires KeptAtCommits(limits, w, events)
    ensures CleanAgree(Play(limits, w.a, events))
    decreases |events|
  {
    if events != [] {
      StepKeepsInv(limits, w, events[0]);
      KeptRunKeeps(limits, Observe(limits, w, events[0]), events[1..]);
    }
  }

  /** The event neither mutates a conversation of the flush in flight nor evicts one before it is written. */
  ghost predicate Quiet(limits: Limits, a: Agent, e: Event) {
    e.Mutate? && a.flight.Some? ==>
      var f := a.flight.value;
      && (!e.op.Get? ==> e.op.key !in f.keys)
      && forall k :: k in f.keys && k in a.convs.at && !HasBeenWritten(f, k) ==>
           k in Apply(limits.maxConversations, Window(limits), a.convs, e.op).at
  }

  ghost predicate QuietRun(limits: Limits, a: Agent, events: seq<Event>)
    decreases |events|
  {
    events != [] ==>
      Enabled(a, events[0]) && Quiet(limits, a, events[0]) && QuietRun(limits, Next(limits, a, events[0]), events[1..])
  }

  lemma QuietStepKeeps(limits: Limits, w: Watch, e: Event)
    requires Inv(w) && Kept(w) && Enabled(w.a, e) && Quiet(limits, w.a, e) && limits.maxConversations >= 1
    ensures Kept(Observe(limits, w, e))
  {
    match e
    case Mutate(op) => QuietMutateKeeps(limits, w, op);
    case Wake(listing) => SnapshotKeepsInv(w, listing);
    case WriteNext => WriteKeepsInv(w);
    case PruneFile(key) => TidyKeepsInv(w, e);
    case DropLegacy => TidyKeepsInv(w, e);
    case CommitSaved =>
    case CommitFailed =>
  }

  lemma QuietMutateKeeps(limits: Limits, w: Watch, op: Op)
    requires Inv(w) && Kept(w) && Quiet(limits, w.a, Mutate(op)) && limits.maxConversations >= 1
    ensures Kept(Observe(limits, w, Mutate(op)))
  {
    OtherKeysKept(limits, w.a.convs, op);
  }

  lemma {:induction false} QuietRunIsKept(limits: Limits, w: Watch, events: seq<Event>)
    requires Inv(w) && Kept(w) && QuietRun(limits, w.a, events) && limits.maxConversations >= 1
    ensures EnabledRun(limits, w.a, events) && KeptAtCommits(limits, w, events)
    decreases |events|
  {
    if events != [] {
      StepKeepsInv(limits, w, events[0]);
      QuietStepKeeps(limits, w, events[0]);
      QuietRunIsKept(limits, Observe(limits, w, events[0]), events[1..]);
    }
  }

  /** After any quiet run from rest, once nothing is dirty and no flush is in flight (and the legacy file
      is gone), the files are exactly the non-empty conversations in memory. */
  lemma WriteBehindAgreement(limits: Limits, a: Agent, events: seq<Event>)
    requires AtRest(a) && QuietRun(limits, a, events) && limits.maxConversations >= 1
    ensures EnabledRun(limits, a, events)
    ensures var b := Play(limits, a, events);
      !b.dirty && b.flight.None? && !b.legacy ==>
        b.files == map k | k in b.convs.at && b.convs.at[k] != [] :: b.convs.at[k]
  {
    QuietRunIsKept(limits, Watch(a, {}), events);
    KeptRunKeeps(limits, Watch(a, {}), events);
    var gone := RunKeepsInv(limits, Watch(a, {}), events);
    var b := Play(limits, a, events);
    if !b.dirty && b.flight.None? && !b.legacy {
      FilesAreMemory(b);
    }
  }

  lemma FilesAreMemory(a: Agent)
    requires a.dirtyKeys == {} && AgreesWhenClean(a) && forall k :: k in a.files ==> a.files[k] != []
    ensures a.files == map k | k in a.convs.at && a.convs.at[k] != [] :: a.convs.at[k]
  {
    var wanted := map k | k in a.convs.at && a.convs.at[k] != [] :: a.convs.at[k];
    forall k ensures k in a.files <==> k in wanted
             ensures k in wanted ==> a.files[k] == wanted[k]
    {
      assert Agrees(a, k);
    }
  }

  lemma {:induction false} RunKeepsInv(limits: Limits, w: Watch, events: seq<Event>) returns (gone: set<Key>)
    requires Inv(w) && EnabledRun(limits, w.a, events) && limits.maxConversations >= 1
    ensures Inv(Watch(Play(limits, w.a, events), gone))
    decreases |events|
  {
    gone := w.gone;
    if events != [] {
      StepKeepsInv(limits, w, events[0]);
      gone := RunKeepsInv(limits, Observe(limits, w, events[0]), events[1..]);
    }
  }

  // ---- What is dirty ----

  /** The event marks `k` dirty: a mutation of it, or a failed flush of it. */
  ghost predicate Marks(a: Agent, e: Event, k: Key) {
    (e.Mutate? && !e.op.Get? && e.op.key == k) || (e.CommitFailed? && Covers(a, k))
  }

  predicate Covers(a: Agent, k: Key) {
    a.flight.Some? && k in a.flight.value.keys
  }

  /** A saved commit of the run covers `k`. */
  ghost predicate Saves(limits: Limits, a: Agent, events: seq<Event>, k: Key)
    requires EnabledRun(limits, a, events)
    decreases |events|
  {
    && events != []
    && ((events[0] == CommitSaved && Covers(a, k)) || Saves(limits, Next(limits, a, events[0]), events[1..], k))
  }

  /** Some event marks `k`, and no saved commit after it covers `k`. */
  ghost predicate MarkStands(limits: Limits, a: Agent, events: seq<Event>, k: Key)
    requires EnabledRun(limits, a, events)
    decreases |events|
  {
    events != [] &&
      var b := Next(limits, a, events[0]);
      (Marks(a, events[0], k) && !Saves(limits, b, events[1..], k)) || MarkStands(limits, b, events[1..], k)
  }

  /** Over every interleaving, a conversation is dirty exactly when it was marked after the last saved
      commit that covered it. */
  lemma {:induction false} DirtyIffMarked(limits: Limits, a: Agent, events: seq<Event>, k: Key)
    requires EnabledRun(limits, a, events)
    ensures k in Play(limits, a, events).dirtyKeys
       <==> MarkStands(limits, a, events, k) || (k in a.dirtyKeys && !Saves(limits, a, events, k))
    decreases |events|
  {
    if events != [] {
      DirtyIffMarked(limits, Next(limits, a, events[0]), events[1..], k);
    }
  }

  /** The first commit of the run is a saved one. */
  predicate SavedNext(events: seq<Event>) {
    events != [] && (events[0].CommitSaved? || (!events[0].CommitFailed? && SavedNext(events[1..])))
  }

  /** A snapshot of the run takes `k`, and its flush is saved. */
  ghost predicate TakenAndSaved(limits: Limits, a: Agent, events: seq<Event>, k: Key)
    requires EnabledRun(limits, a, events)
    decreases |events|
  {
    events != [] &&
      var b := Next(limits, a, events[0]);
      (events[0].Wake? && Covers(b, k) && SavedNext(events[1..])) || TakenAndSaved(limits, b, events[1..], k)
  }

  /** Some event marks `k`, and no snapshot after it takes `k` to a saved flush. */
  ghost predicate MarkIsNews(limits: Limits, a: Agent, events: seq<Event>, k: Key)
    requires EnabledRun(limits, a, events)
    decreases |events|
  {
    events != [] &&
      var b := Next(limits, a, events[0]);
      (Marks(a, events[0], k) && !TakenAndSaved(limits, b, events[1..], k)) || MarkIsNews(limits, b, events[1..], k)
  }

  lemma {:induction false} QuietDirtyFrom(limits: Limits, a: Agent, events: seq<Event>, k: Key)
    requires QuietRun(limits, a, events) && EnabledRun(limits, a, events)
    ensures k in Play(limits, a, events).dirtyKeys
       <==> (MarkIsNews(limits, a, events, k)
             || (k in a.dirtyKeys && !TakenAndSaved(limits, a, events, k) && !(Covers(a, k) && SavedNext(events))))
    decreases |events|
  {
    if events != [] {
      QuietDirtyFrom(limits, Next(limits, a, events[0]), events[1..], k);
    }
  }

  /** Over a quiet run from rest, a conversation is dirty exactly when it was marked after the snapshot of
      the last saved flush that took it. */
  lemma QuietDirtyIffNews(limits: Limits, a: Agent, events: seq<Event>, k: Key)
    requires AtRest(a) && QuietRun(limits, a, events) && limits.maxConversations >= 1
    ensures EnabledRun(limits, a, events)
    ensures k in Play(limits, a, events).dirtyKeys <==> MarkIsNews(limits, a, events, k)
  {
    QuietRunIsKept(limits, Watch(a, {}), events);
    QuietDirtyFrom(limits, a, events, k);
  }

  /** Dirty conversations, and no flush to come. */
  predicate Stalled(a: Agent) {
    a.dirty && a.task == Idle
  }

  predicate OnlyReads(events: seq<Event>) {
    forall e :: e in events ==> e.Mutate? && e.op.Get?
  }

  /** A flush failed, and only reads came after it. */
  predicate FailedLast(events: seq<Event>) {
    events != [] && ((events[0].CommitFailed? && OnlyReads(events[1..])) || FailedLast(events[1..]))
  }

  predicate Tasked(a: Agent) {
    a.flight.Some? <==> a.task == Running
  }

  /** Only a failed flush leaves dirty conversations without one to come, and only a read leaves them so. */
  lemma OnlyFailureStalls(limits: Limits, a: Agent, e: Event)
    requires Tasked(a) && Enabled(a, e)
    ensures Tasked(Next(limits, a, e))
    ensures Stalled(Next(limits, a, e)) <==> e.CommitFailed? || (Stalled(a) && e.Mutate? && e.op.Get?)
  {
  }

  lemma {:induction false} StalledFrom(limits: Limits, a: Agent, events: seq<Event>)
    requires Tasked(a) && EnabledRun(limits, a, events)
    ensures Stalled(Play(limits, a, events)) <==> FailedLast(events) || (Stalled(a) && OnlyReads(events))
    decreases |events|
  {
    if events != [] {
      OnlyFailureStalls(limits, a, events[0]);
      StalledFrom(limits, Next(limits, a, events[0]), events[1..]);
    }
  }

  /** Over every interleaving from rest, dirty conversations are left without a flush to come exactly when
      a flush failed and only reads came after it; so without failures never. */
  lemma StalledIffFailed(limits: Limits, a: Agent, events: seq<Event>)
    requires AtRest(a) && EnabledRun(limits, a, events)
    ensures Stalled(Play(limits, a, events)) <==> FailedLast(events)
    ensures CommitFailed !in events ==> !Stalled(Play(limits, a, events))
  {
    StalledFrom(limits, a, events);
    if FailedLast(events) {
      FailedLastFails(events);
    }
  }

  lemma {:induction false} FailedLastFails(events: seq<Event>)
    requires FailedLast(events)
    ensures CommitFailed in events
  {
    if !(events[0].CommitFailed? && OnlyReads(events[1..])) {
      FailedLastFails(events[1..]);
    }
  }

  /** An agent that has just started without any history. */
  const NEW_AGENT := Agent(Empty(), map[], false, false, {}, Idle, None)
}
