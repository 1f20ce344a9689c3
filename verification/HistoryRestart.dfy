/** What an agent stopped in the middle of its work finds when it loads its history again. */
module HistoryRestart {
  import opened Conversations
  import opened HistoryWindow
  import opened HistoryFlush
  import opened WindowedLogs
  import opened JsonValues
  import opened Wrappers
  import Files = HistoryFiles
  import Migration = HistoryMigration

  // ---- What the disk holds of the conversations in memory ----

  /** What the disk holds for `k`, given the content `former` of the legacy file as long as it is there. */
  function OnDisk(a: Agent, former: map<Key, seq<Entry>>, k: Key): seq<Entry> {
    if k in a.files then a.files[k] else if a.legacy then Held(former, k) else []
  }

  /** A clean conversation that memory has messages of is on disk as memory has it. */
  predicate Backed(a: Agent, former: map<Key, seq<Entry>>, k: Key) {
    k !in a.dirtyKeys && Held(a.convs.at, k) != [] ==> OnDisk(a, former, k) == Held(a.convs.at, k)
  }

  /** The flush in flight has taken such a conversation as memory still has it. */
  predicate Taken(w: Watch, k: Key) {
    w.a.flight.Some? && k in w.a.flight.value.keys && k !in w.a.dirtyKeys && Held(w.a.convs.at, k) != [] ==>
      Held(w.a.flight.value.snapshot, k) == Held(w.a.convs.at, k) && k !in w.gone
  }

  ghost predicate AllBacked(w: Watch, former: map<Key, seq<Entry>>) {
    forall k :: Backed(w.a, former, k) && Taken(w, k)
  }

  lemma MutateKeepsBacked(limits: Limits, w: Watch, former: map<Key, seq<Entry>>, op: Op)
    requires Inv(w) && AllBacked(w, former) && limits.maxConversations >= 1
    ensures AllBacked(Observe(limits, w, Mutate(op)), former)
  {
    OtherKeysKept(limits, w.a.convs, op);
    var w' := Observe(limits, w, Mutate(op));
    forall k ensures Backed(w'.a, former, k) && Taken(w', k) {
      assert Backed(w.a, former, k) && Taken(w, k);
    }
  }

  lemma WakeKeepsBacked(limits: Limits, w: Watch, former: map<Key, seq<Entry>>, listing: seq<Key>)
    requires Inv(w) && AllBacked(w, former) && Enabled(w.a, Wake(listing))
    ensures AllBacked(Observe(limits, w, Wake(listing)), former)
  {
    var w' := Observe(limits, w, Wake(listing));
    forall k ensures Backed(w'.a, former, k) && Taken(w', k) {
      assert Backed(w.a, former, k);
    }
  }

  lemma FileStepKeepsBacked(limits: Limits, w: Watch, former: map<Key, seq<Entry>>, e: Event)
    requires Inv(w) && AllBacked(w, former) && Enabled(w.a, e) && (e.WriteNext? || e.PruneFile? || e.DropLegacy?)
    ensures AllBacked(Observe(limits, w, e), former)
  {
    var w', f := Observe(limits, w, e), w.a.flight.value;
    forall k ensures Backed(w'.a, former, k) && Taken(w', k) {
      assert Backed(w.a, former, k) && Taken(w, k);
      assert e.DropLegacy? && k in f.keys ==> f.keys[..f.done] == f.keys && HasBeenWritten(f, k);
    }
  }

  lemma CommitKeepsBacked(limits: Limits, w: Watch, former: map<Key, seq<Entry>>, e: Event)
    requires Inv(w) && AllBacked(w, former) && Enabled(w.a, e) && (e.CommitSaved? || e.CommitFailed?)
    requires e.CommitSaved? ==> HistoryFlush.Kept(w)
    ensures AllBacked(Observe(limits, w, e), former)
  {
    var w', f := Observe(limits, w, e), w.a.flight.value;
    forall k ensures Backed(w'.a, former, k) && Taken(w', k) {
      assert Backed(w.a, former, k);
      assert e.CommitSaved? && k in f.keys ==> f.keys[..f.done] == f.keys && HasBeenWritten(f, k);
    }
  }

  lemma {:induction false} RunKeepsBacked(limits: Limits, w: Watch, former: map<Key, seq<Entry>>, events: seq<Event>)
    returns (gone: set<Key>)
    requires Inv(w) && AllBacked(w, former) && EnabledRun(limits, w.a, events) && KeptAtCommits(limits, w, events)
    requires limits.maxConversations >= 1
    ensures AllBacked(Watch(Play(limits, w.a, events), gone), former)
    decreases |events|
  {
    gone := w.gone;
    if events != [] {
      StepKeepsInv(limits, w, events[0]);
      match events[0] {
        case Mutate(op) => MutateKeepsBacked(limits, w, former, op);
        case Wake(listing) => WakeKeepsBacked(limits, w, former, listing);
        case CommitSaved => CommitKeepsBacked(limits, w, former, events[0]);
        case CommitFailed => CommitKeepsBacked(limits, w, former, events[0]);
        case _ => FileStepKeepsBacked(limits, w, former, events[0]);
      }
      gone := RunKeepsBacked(limits, Observe(limits, w, events[0]), former, events[1..]);
    }
  }

  // ---- What is loaded again ----

  /** The history folder behind the agent's conversation files and its legacy file. */
  ghost function FolderOf(n: Files.Naming, a: Agent, legacy: Json): Files.Folder
    requires Files.Injective(n)
  {
    Files.Folder(Some(map k | k in a.files :: n.filename(k) := Files.Document(k, a.files[k])),
                 if a.legacy then Some(Files.Parsed(legacy)) else None)
  }

  /** The conversations of the legacy file. */
  function LegacyOf(n: Files.Naming, legacy: Json): map<Key, seq<Entry>> {
    var data := Files.LegacyData(legacy).at;
    map k | k in data && data[k].Arr? :: Files.ParseMessages(n.roles, data[k].items)
  }

  /** The conversations that the disk holds. */
  function KeysOf(n: Files.Naming, a: Agent, legacy: Json): set<Key> {
    a.files.Keys + if a.legacy then LegacyOf(n, legacy).Keys else {}
  }

  /** The folder can be loaded in the order of `relisting`, all of it within the cap. */
  ghost predicate Loadable(n: Files.Naming, a: Agent, legacy: Json, relisting: seq<string>, cap: nat) {
    && Files.Injective(n) && Files.Lists(FolderOf(n, a, legacy), relisting) && Files.LegacyData(legacy).Valid()
    && (forall key :: key in a.files ==> Files.Storable(n.roles, a.files[key]))
    && |KeysOf(n, a, legacy)| <= cap
  }

  lemma FolderStores(n: Files.Naming, a: Agent, legacy: Json, k: Key)
    requires Files.Injective(n) && forall key :: key in a.files ==> Files.Storable(n.roles, a.files[key])
    ensures Files.Stored(n, FolderOf(n, a, legacy), k) ==
      if k in a.files then Some(a.files[k])
      else if a.legacy && k in LegacyOf(n, legacy) then Some(LegacyOf(n, legacy)[k]) else None
  {
    var folder := FolderOf(n, a, legacy);
    if n.filename(k) in folder.dir.value {
      var key :| key in a.files && n.filename(key) == n.filename(k);
      assert key == k;
    }
    if k in a.files {
      assert n.filename(k) in folder.dir.value;
      Migration.SavedIsStored(n, folder, k, a.files[k]);
    }
  }

  lemma FolderWellFormed(n: Files.Naming, a: Agent, legacy: Json)
    requires Files.Injective(n) && Files.LegacyData(legacy).Valid()
    ensures Files.WellFormed(n, FolderOf(n, a, legacy))
  {
  }

  lemma FolderCovered(n: Files.Naming, a: Agent, legacy: Json)
    requires Files.Injective(n) && forall key :: key in a.files ==> Files.Storable(n.roles, a.files[key])
    ensures Files.Covers(n, FolderOf(n, a, legacy), KeysOf(n, a, legacy))
  {
    forall key ensures Files.Stored(n, FolderOf(n, a, legacy), key).Some? ==> key in KeysOf(n, a, legacy) {
      FolderStores(n, a, legacy, key);
    }
  }

  lemma FolderLoads(cap: nat, n: Files.Naming, a: Agent, legacy: Json, relisting: seq<string>, k: Key)
    requires Loadable(n, a, legacy, relisting, cap)
    ensures var r := Files.Load(cap, n.roles, FolderOf(n, a, legacy), relisting);
      && (k in r.at <==> k in KeysOf(n, a, legacy))
      && (k in r.at ==> r.at[k] == OnDisk(a, LegacyOf(n, legacy), k))
  {
    FolderWellFormed(n, a, legacy);
    FolderCovered(n, a, legacy);
    Files.LoadsWhatIsStored(cap, n, FolderOf(n, a, legacy), relisting, KeysOf(n, a, legacy));
    FolderStores(n, a, legacy, k);
  }

  /** At rest after loading: every conversation in memory is on disk or in the legacy file. */
  ghost predicate Loaded(a: Agent, former: map<Key, seq<Entry>>) {
    AtRest(a) && forall k :: Backed(a, former, k)
  }

  /** An agent that has just loaded its folder within the cap is such an agent. */
  lemma LoadingBacks(cap: nat, n: Files.Naming, a: Agent, legacy: Json, relisting: seq<string>)
    requires Loadable(n, a, legacy, relisting, cap) && AtRest(a)
    requires a.convs == Files.Load(cap, n.roles, FolderOf(n, a, legacy), relisting)
    ensures Loaded(a, LegacyOf(n, legacy))
  {
    forall k ensures Backed(a, LegacyOf(n, legacy), k) {
      FolderLoads(cap, n, a, legacy, relisting, k);
    }
  }

  /** There is no legacy file, and no migration under way. */
  predicate Migrated(a: Agent) {
    !a.legacy && (a.flight.Some? ==> !a.flight.value.migrating)
  }

  /** After any run from rest, stopped anywhere, even in the middle of a flush or of the migration from the
      legacy file, loading the history gives every clean conversation that memory has messages of exactly as
      memory held it, as long as each saved flush found memory as `Kept` demands. Once no migration is
      under way or to come, it gives no other clean conversation. */
  lemma StoppedRunReloadsClean(limits: Limits, n: Files.Naming, legacy: Json, a: Agent, events: seq<Event>, cap: nat,
                               relisting: seq<string>, k: Key)
    requires Loaded(a, LegacyOf(n, legacy)) && limits.maxConversations >= 1
    requires EnabledRun(limits, a, events) && KeptAtCommits(limits, Watch(a, {}), events)
    requires Loadable(n, Play(limits, a, events), legacy, relisting, cap) && k !in Play(limits, a, events).dirtyKeys
    ensures var b := Play(limits, a, events);
      var r := Files.Load(cap, n.roles, FolderOf(n, b, legacy), relisting);
      && (Held(b.convs.at, k) != [] ==> k in r.at && r.at[k] == Held(b.convs.at, k))
      && (Migrated(b) && Held(b.convs.at, k) == [] ==> k !in r.at)
  {
    var b := Play(limits, a, events);
    KeptRunKeeps(limits, Watch(a, {}), events);
    var gone := RunKeepsInv(limits, Watch(a, {}), events);
    var gone' := RunKeepsBacked(limits, Watch(a, {}), LegacyOf(n, legacy), events);
    assert Backed(b, LegacyOf(n, legacy), k);
    FolderLoads(cap, n, b, legacy, relisting, k);
    if Migrated(b) {
      assert Agrees(b, k);
    }
  }

  // ---- From what was said to what is loaded ----

  /** The operations of the mutators among the events. */
  function Ops(events: seq<Event>): seq<Op> {
    if events == [] then [] else (if events[0].Mutate? then [events[0].op] else []) + Ops(events[1..])
  }

  lemma {:induction false} RunFirst(cap: nat, keep: seq<Entry> -> seq<Entry>, convs: Cache, op: Op, rest: seq<Op>)
    ensures Run(cap, keep, convs, [op] + rest) == Run(cap, keep, Apply(cap, keep, convs, op), rest)
    decreases |rest|
  {
    var ops := [op] + rest;
    if rest == [] {
      assert ops == [op] && ops[..0] == [];
      assert Run(cap, keep, convs, ops) == Apply(cap, keep, Run(cap, keep, convs, []), op);
    } else {
      assert ops[..|ops| - 1] == [op] + rest[..|rest| - 1];
      RunFirst(cap, keep, convs, op, rest[..|rest| - 1]);
    }
  }

  /** The flush leaves the conversations in memory alone: they are what the mutators make of them. */
  lemma {:induction false} PlayIsRun(limits: Limits, a: Agent, events: seq<Event>)
    requires EnabledRun(limits, a, events)
    ensures Play(limits, a, events).convs == Run(limits.maxConversations, Window(limits), a.convs, Ops(events))
    decreases |events|
  {
    if events != [] {
      PlayIsRun(limits, Next(limits, a, events[0]), events[1..]);
      if events[0].Mutate? {
        RunFirst(limits.maxConversations, Window(limits), a.convs, events[0].op, Ops(events[1..]));
      } else {
        assert [] + Ops(events[1..]) == Ops(events[1..]);
      }
    }
  }

  lemma {:induction false} RunStaysMigrated(limits: Limits, a: Agent, events: seq<Event>)
    requires Migrated(a) && EnabledRun(limits, a, events)
    ensures Migrated(Play(limits, a, events))
    decreases |events|
  {
    if events != [] {
      RunStaysMigrated(limits, Next(limits, a, events[0]), events[1..]);
    }
  }

  /** What a new agent is to remember of a conversation: the window of what was appended to it since it was
      last cleared or dropped. */
  function Remembered(limits: Limits, events: seq<Event>, k: Key): seq<Entry> {
    Trim(limits, Said(limits.maxConversations, Ops(events), k))
  }

  /** A new agent holds in memory, after any run, exactly what it is to remember. */
  lemma HoldsRemembered(limits: Limits, a: Agent, events: seq<Event>, k: Key)
    requires a == NEW_AGENT && limits.maxConversations >= 1 && EnabledRun(limits, a, events)
    ensures Held(Play(limits, a, events).convs.at, k) == Remembered(limits, events, k)
  {
    PlayIsRun(limits, a, events);
    HoldsTrimmedSaid(limits, limits.maxConversations, Ops(events), k);
  }

  lemma NewIsLoaded(n: Files.Naming, legacy: Json, a: Agent)
    requires a == NEW_AGENT
    ensures Loaded(a, LegacyOf(n, legacy)) && Migrated(a)
  {
  }

  /** A new agent, stopped after any run whose saved flushes found memory as `Kept` demands, loads of every
      clean conversation exactly what it is to remember. */
  lemma StoppedRunReloadsWhatWasSaid(limits: Limits, n: Files.Naming, legacy: Json, a: Agent, events: seq<Event>,
                                     cap: nat, relisting: seq<string>, k: Key)
    requires a == NEW_AGENT && limits.maxConversations >= 1
    requires EnabledRun(limits, a, events) && KeptAtCommits(limits, Watch(a, {}), events)
    requires Loadable(n, Play(limits, a, events), legacy, relisting, cap) && k !in Play(limits, a, events).dirtyKeys
    ensures var r := Files.Load(cap, n.roles, FolderOf(n, Play(limits, a, events), legacy), relisting);
      if k in r.at then r.at[k] != [] && r.at[k] == Remembered(limits, events, k)
      else Remembered(limits, events, k) == []
  {
    NewIsLoaded(n, legacy, a);
    HoldsRemembered(limits, a, events, k);
    RunStaysMigrated(limits, a, events);
    StoppedRunReloadsClean(limits, n, legacy, a, events, cap, relisting, k);
  }
}
