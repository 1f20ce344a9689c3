/** Saving the history folder file operation by file operation, and what a crash leaves. */
module HistoryMigration {
  import opened Wrappers
  import opened OrderedDicts
  import opened HistoryWindow
  import opened Conversations
  import opened HistoryFiles

  /** The atomic file operations of a save. The temporary file a conversation is first written
      to has a name no reader looks at. */
  datatype FileOp =
    | MakeDir
    | WriteTemp(name: string)
    | Replace(name: string, doc: Doc)
    | Unlink(name: string)
    | UnlinkLegacy

  function Perform(folder: Folder, op: FileOp): Folder {
    match op
    case MakeDir => if folder.dir.Some? then folder else folder.(dir := Some(map[]))
    case WriteTemp(name) => folder
    case Replace(name, doc) => folder.(dir := Some((if folder.dir.Some? then folder.dir.value else map[])[name := doc]))
    case Unlink(name) => if folder.dir.Some? then folder.(dir := Some(folder.dir.value - {name})) else folder
    case UnlinkLegacy => folder.(legacy := None)
  }

  function PerformAll(folder: Folder, ops: seq<FileOp>): Folder {
    if ops == [] then folder else Perform(PerformAll(folder, ops[..|ops| - 1]), ops[|ops| - 1])
  }

  /** `write_conversation_file`. */
  function WriteOps(n: Naming, key: string, entries: seq<Entry>): seq<FileOp> {
    if entries == [] then [Unlink(n.filename(key))]
    else [WriteTemp(n.filename(key)), Replace(n.filename(key), Document(key, entries))]
  }

  function SnapshotOps(n: Naming, snapshot: Cache, keys: seq<string>): seq<FileOp> {
    if keys == [] then []
    else
      var key := keys[|keys| - 1];
      SnapshotOps(n, snapshot, keys[..|keys| - 1])
        + WriteOps(n, key, if key in snapshot.at then snapshot.at[key] else [])
  }

  /** The file names `save_from_snapshot` reports as written. */
  predicate IsWritten(n: Naming, snapshot: Cache, keys: seq<string>, name: string) {
    exists i :: 0 <= i < |keys| && keys[i] in snapshot.at && snapshot.at[keys[i]] != [] && n.filename(keys[i]) == name
  }

  /** `prune_conversation_files` over a listing of the directory. */
  function PruneOps(n: Naming, snapshot: Cache, listing: seq<string>): seq<FileOp> {
    if listing == [] then []
    else
      var name := listing[|listing| - 1];
      PruneOps(n, snapshot, listing[..|listing| - 1])
      + if IsWritten(n, snapshot, snapshot.order, name) then [] else [Unlink(name)]
  }

  /** `save_from_snapshot`; `listing` is what the directory lists once the files are written. */
  function SaveOps(n: Naming, snapshot: Cache, listing: seq<string>, replace: bool): seq<FileOp> {
    [MakeDir] + SnapshotOps(n, snapshot, snapshot.order)
    + (if replace then PruneOps(n, snapshot, listing) else []) + [UnlinkLegacy]
  }

  lemma {:induction false} PerformConcat(folder: Folder, a: seq<FileOp>, b: seq<FileOp>)
    ensures PerformAll(folder, a + b) == PerformAll(PerformAll(folder, a), b)
    decreases |b|
  {
    if b == [] {
      assert a + b == a;
    } else {
      assert (a + b)[..|a + b| - 1] == a + b[..|b| - 1];
      PerformConcat(folder, a, b[..|b| - 1]);
    }
  }

  lemma PerformAppend(folder: Folder, ops: seq<FileOp>, op: FileOp)
    ensures PerformAll(folder, ops + [op]) == Perform(PerformAll(folder, ops), op)
  {
    assert (ops + [op])[..|ops|] == ops;
  }

  // ---- What one operation of a save may do ----

  /** The operation leaves the file of `key` alone, or gives it the snapshot's content. */
  predicate Harmless(n: Naming, op: FileOp, key: string, entries: seq<Entry>) {
    match op
    case Replace(name, doc) => name == n.filename(key) ==> doc == Document(key, entries)
    case Unlink(name) => name != n.filename(key)
    case _ => true
  }

  /** The file of `key` is the one the snapshot writes. */
  predicate Saved(n: Naming, folder: Folder, key: string, entries: seq<Entry>) {
    && folder.dir.Some? && n.filename(key) in folder.dir.value
    && folder.dir.value[n.filename(key)] == Document(key, entries)
  }

  predicate SameFile(n: Naming, a: Folder, b: Folder, key: string) {
    var fa := if a.dir.Some? then a.dir.value else map[];
    var fb := if b.dir.Some? then b.dir.value else map[];
    var name := n.filename(key);
    if name in fa then name in fb && fa[name] == fb[name] else name !in fb
  }

  predicate AllHarmless(n: Naming, ops: seq<FileOp>, key: string, entries: seq<Entry>) {
    forall op :: op in ops ==> Harmless(n, op, key, entries)
  }

  /** The operation that puts the snapshot's content in place. */
  function Goal(n: Naming, key: string, entries: seq<Entry>): FileOp {
    Replace(n.filename(key), Document(key, entries))
  }

  lemma HarmlessOpKeeps(n: Naming, folder: Folder, op: FileOp, key: string, entries: seq<Entry>)
    requires Harmless(n, op, key, entries)
    ensures SameFile(n, folder, Perform(folder, op), key) || Saved(n, Perform(folder, op), key, entries)
    ensures op == Goal(n, key, entries) || Saved(n, folder, key, entries) ==>
        Saved(n, Perform(folder, op), key, entries)
  {
  }

  lemma {:induction false} HarmlessOpsKeep(n: Naming, folder: Folder, ops: seq<FileOp>, key: string,
                                           entries: seq<Entry>)
    requires AllHarmless(n, ops, key, entries)
    ensures SameFile(n, folder, PerformAll(folder, ops), key) || Saved(n, PerformAll(folder, ops), key, entries)
    ensures Goal(n, key, entries) in ops || Saved(n, folder, key, entries) ==>
        Saved(n, PerformAll(folder, ops), key, entries)
    ensures PerformAll(folder, ops).legacy == if UnlinkLegacy in ops then None else folder.legacy
  {
    if ops != [] {
      var init, last := ops[..|ops| - 1], ops[|ops| - 1];
      assert ops == init + [last];
      assert last in ops && Harmless(n, last, key, entries);
      assert AllHarmless(n, init, key, entries);
      HarmlessOpsKeep(n, folder, init, key, entries);
      HarmlessOpKeeps(n, PerformAll(folder, init), last, key, entries);
    }
  }

  lemma {:induction false} SnapshotOpsHarmless(n: Naming, snapshot: Cache, keys: seq<string>, key: string)
    requires Injective(n) && key in snapshot.at && snapshot.at[key] != []
    ensures var ops := SnapshotOps(n, snapshot, keys);
      && AllHarmless(n, ops, key, snapshot.at[key]) && UnlinkLegacy !in ops
      && (key in keys ==> Goal(n, key, snapshot.at[key]) in ops)
  {
    if keys != [] {
      var init, last := keys[..|keys| - 1], keys[|keys| - 1];
      assert keys == init + [last];
      SnapshotOpsHarmless(n, snapshot, init, key);
      var content := if last in snapshot.at then snapshot.at[last] else [];
      assert forall op :: op in WriteOps(n, last, content) ==>
        Harmless(n, op, key, snapshot.at[key]) && op != UnlinkLegacy;
      if key == last {
        assert WriteOps(n, last, content)[1] == Goal(n, key, snapshot.at[key]);
      }
    }
  }

  lemma {:induction false} PruneOpsHarmless(n: Naming, snapshot: Cache, listing: seq<string>, key: string)
    requires snapshot.Valid() && key in snapshot.at && snapshot.at[key] != []
    ensures AllHarmless(n, PruneOps(n, snapshot, listing), key, snapshot.at[key])
    ensures UnlinkLegacy !in PruneOps(n, snapshot, listing)
  {
    if listing != [] {
      PruneOpsHarmless(n, snapshot, listing[..|listing| - 1], key);
      assert key in snapshot.order;
      assert IsWritten(n, snapshot, snapshot.order, n.filename(key));
    }
  }

  lemma SaveOpsHarmless(n: Naming, snapshot: Cache, listing: seq<string>, replace: bool, key: string)
    requires Injective(n) && snapshot.Valid() && key in snapshot.at && snapshot.at[key] != []
    ensures var ops := SaveOps(n, snapshot, listing, replace);
      && AllHarmless(n, ops, key, snapshot.at[key])
      && UnlinkLegacy !in ops[..|ops| - 1] && Goal(n, key, snapshot.at[key]) in ops
  {
    SnapshotOpsHarmless(n, snapshot, snapshot.order, key);
    PruneOpsHarmless(n, snapshot, listing, key);
    var ops := SaveOps(n, snapshot, listing, replace);
    assert key in snapshot.order;
    assert ops[..|ops| - 1] == [MakeDir] + SnapshotOps(n, snapshot, snapshot.order)
                               + if replace then PruneOps(n, snapshot, listing) else [];
  }

  lemma SavedIsStored(n: Naming, folder: Folder, key: string, entries: seq<Entry>)
    requires Storable(n.roles, entries) && Saved(n, folder, key, entries)
    ensures Stored(n, folder, key) == Some(entries)
  {
    SerializedMessagesParse(n.roles, entries);
  }

  /** Stopping a save after any number of its file operations leaves every non-empty snapshotted
      conversation either as it was on disk or as the snapshot has it: never gone. */
  lemma CrashKeepsConversations(n: Naming, folder: Folder, snapshot: Cache, listing: seq<string>, replace: bool,
                                stop: nat, key: string)
    requires Injective(n) && snapshot.Valid() && key in snapshot.at && snapshot.at[key] != []
    requires Storable(n.roles, snapshot.at[key])
    requires stop <= |SaveOps(n, snapshot, listing, replace)|
    ensures var left := PerformAll(folder, SaveOps(n, snapshot, listing, replace)[..stop]);
      Stored(n, left, key) == Stored(n, folder, key) || Stored(n, left, key) == Some(snapshot.at[key])
  {
    var ops := SaveOps(n, snapshot, listing, replace);
    var entries := snapshot.at[key];
    var left := PerformAll(folder, ops[..stop]);
    SaveOpsHarmless(n, snapshot, listing, replace, key);
    HarmlessOpsKeep(n, folder, ops[..stop], key, entries);
    if stop == |ops| {
      assert ops[..stop] == ops;
    } else {
      assert ops[..stop] == ops[..|ops| - 1][..stop];
    }
    if Saved(n, left, key, entries) {
      SavedIsStored(n, left, key, entries);
    }
  }

  /** The operation writes nothing but readable files named after their conversation. */
  predicate Proper(n: Naming, op: FileOp) {
    op.Replace? ==> ReadConversation(op.doc).Some? && n.filename(ReadConversation(op.doc).value.0) == op.name
  }

  predicate AllProper(n: Naming, ops: seq<FileOp>) {
    forall op :: op in ops ==> Proper(n, op)
  }

  lemma {:induction false} SnapshotOpsProper(n: Naming, snapshot: Cache, keys: seq<string>)
    ensures AllProper(n, SnapshotOps(n, snapshot, keys))
  {
    if keys != [] {
      var last := keys[|keys| - 1];
      SnapshotOpsProper(n, snapshot, keys[..|keys| - 1]);
    }
  }

  lemma {:induction false} PruneOpsProper(n: Naming, snapshot: Cache, listing: seq<string>)
    ensures AllProper(n, PruneOps(n, snapshot, listing))
  {
    if listing != [] {
      PruneOpsProper(n, snapshot, listing[..|listing| - 1]);
    }
  }

  lemma SaveOpsProper(n: Naming, snapshot: Cache, listing: seq<string>, replace: bool)
    ensures AllProper(n, SaveOps(n, snapshot, listing, replace))
  {
    SnapshotOpsProper(n, snapshot, snapshot.order);
    PruneOpsProper(n, snapshot, listing);
  }

  lemma {:induction false} ProperOpsKeep(n: Naming, folder: Folder, ops: seq<FileOp>)
    requires WellFormed(n, folder) && AllProper(n, ops)
    ensures WellFormed(n, PerformAll(folder, ops))
  {
    if ops != [] {
      var init, last := ops[..|ops| - 1], ops[|ops| - 1];
      assert ops == init + [last];
      ProperOpsKeep(n, folder, init);
      ProperOpKeeps(n, PerformAll(folder, init), last);
    }
  }

  lemma ProperOpKeeps(n: Naming, folder: Folder, op: FileOp)
    requires WellFormed(n, folder) && Proper(n, op)
    ensures WellFormed(n, Perform(folder, op))
  {
  }

  /** A save stopped anywhere leaves a well-formed folder if it found one. */
  lemma StoppedSaveIsWellFormed(n: Naming, folder: Folder, snapshot: Cache, listing: seq<string>, replace: bool,
                                stop: nat)
    requires WellFormed(n, folder) && stop <= |SaveOps(n, snapshot, listing, replace)|
    ensures WellFormed(n, PerformAll(folder, SaveOps(n, snapshot, listing, replace)[..stop]))
  {
    SaveOpsProper(n, snapshot, listing, replace);
    ProperOpsKeep(n, folder, SaveOps(n, snapshot, listing, replace)[..stop]);
  }

  /** Loading what a save stopped anywhere has left gives, for every non-empty snapshotted conversation,
      what was stored before or what the snapshot holds, and lacks it only if it was not stored before. */
  lemma CrashLoads(cap: nat, n: Naming, folder: Folder, snapshot: Cache, listing: seq<string>, replace: bool,
                   stop: nat, left: Folder, relisting: seq<string>, keys: set<string>, key: string)
    requires Injective(n) && WellFormed(n, folder) && snapshot.Valid()
    requires key in snapshot.at && snapshot.at[key] != [] && Storable(n.roles, snapshot.at[key])
    requires stop <= |SaveOps(n, snapshot, listing, replace)|
    requires left == PerformAll(folder, SaveOps(n, snapshot, listing, replace)[..stop])
    requires Lists(left, relisting) && Covers(n, left, keys) && |keys| <= cap
    ensures var r := Load(cap, n.roles, left, relisting);
      if key in r.at then Some(r.at[key]) == Stored(n, folder, key) || r.at[key] == snapshot.at[key]
      else Stored(n, folder, key) == None
  {
    StoppedSaveIsWellFormed(n, folder, snapshot, listing, replace, stop);
    CrashKeepsConversations(n, folder, snapshot, listing, replace, stop, key);
    LoadsWhatIsStored(cap, n, left, relisting, keys);
  }

  // ---- A completed save ----

  lemma {:induction false} PruneLeavesWritten(n: Naming, snapshot: Cache, folder: Folder, listing: seq<string>)
    requires folder.dir.Some?
    ensures var r := PerformAll(folder, PruneOps(n, snapshot, listing));
      && r.dir.Some? && r.legacy == folder.legacy
      && forall name :: name in r.dir.value <==>
           name in folder.dir.value && (name in listing ==> IsWritten(n, snapshot, snapshot.order, name))
  {
    if listing != [] {
      var init, last := listing[..|listing| - 1], listing[|listing| - 1];
      assert listing == init + [last];
      PruneLeavesWritten(n, snapshot, folder, init);
      var ops := PruneOps(n, snapshot, init);
      if IsWritten(n, snapshot, snapshot.order, last) {
        assert ops + [] == ops;
      } else {
        PerformAppend(folder, ops, Unlink(last));
      }
    }
  }

  /** The directory once the conversations of the snapshot are written. */
  function AfterWrites(n: Naming, folder: Folder, snapshot: Cache): Folder {
    PerformAll(folder, [MakeDir] + SnapshotOps(n, snapshot, snapshot.order))
  }

  lemma {:induction false} WritesKeepDir(folder: Folder, ops: seq<FileOp>)
    requires folder.dir.Some?
    ensures PerformAll(folder, ops).dir.Some?
  {
    if ops != [] {
      WritesKeepDir(folder, ops[..|ops| - 1]);
    }
  }

  lemma CompletedSplits(n: Naming, folder: Folder, snapshot: Cache, listing: seq<string>)
    ensures AfterWrites(n, folder, snapshot).dir.Some?
    ensures PerformAll(folder, SaveOps(n, snapshot, listing, true))
         == Perform(PerformAll(AfterWrites(n, folder, snapshot), PruneOps(n, snapshot, listing)), UnlinkLegacy)
  {
    var a, b := [MakeDir] + SnapshotOps(n, snapshot, snapshot.order), PruneOps(n, snapshot, listing);
    PerformConcat(folder, [MakeDir], SnapshotOps(n, snapshot, snapshot.order));
    assert [MakeDir][..0] == [];
    WritesKeepDir(PerformAll(folder, [MakeDir]), SnapshotOps(n, snapshot, snapshot.order));
    PerformConcat(folder, a, b);
    assert (a + b + [UnlinkLegacy])[..|a + b|] == a + b;
  }

  /** The file `name` is the one the snapshot wrote for `key`. */
  predicate WrittenFor(n: Naming, saved: Folder, snapshot: Cache, name: string, key: string) {
    key in snapshot.at && snapshot.at[key] != [] && n.filename(key) == name && Saved(n, saved, key, snapshot.at[key])
  }

  lemma OnlyWrittenFilesLeft(n: Naming, folder: Folder, snapshot: Cache, listing: seq<string>)
    requires Injective(n) && snapshot.Valid() && Lists(AfterWrites(n, folder, snapshot), listing)
    ensures var saved := PerformAll(folder, SaveOps(n, snapshot, listing, true));
      && saved.legacy.None? && saved.dir.Some?
      && forall name :: name in saved.dir.value ==> exists k :: WrittenFor(n, saved, snapshot, name, k)
  {
    var saved := PerformAll(folder, SaveOps(n, snapshot, listing, true));
    CompletedSplits(n, folder, snapshot, listing);
    PruneLeavesWritten(n, snapshot, AfterWrites(n, folder, snapshot), listing);
    forall name | name in saved.dir.value ensures exists k :: WrittenFor(n, saved, snapshot, name, k) {
      assert IsWritten(n, snapshot, snapshot.order, name);
      var i :| 0 <= i < |snapshot.order| && snapshot.order[i] in snapshot.at && snapshot.at[snapshot.order[i]] != []
            && n.filename(snapshot.order[i]) == name;
      FinishedSaves(n, folder, snapshot, listing, snapshot.order[i]);
      assert WrittenFor(n, saved, snapshot, name, snapshot.order[i]);
    }
  }

  /** A completed full save leaves a well-formed folder, whatever the folder held before. */
  lemma CompletedSaveIsWellFormed(n: Naming, folder: Folder, snapshot: Cache, listing: seq<string>)
    requires Injective(n) && snapshot.Valid() && Lists(AfterWrites(n, folder, snapshot), listing)
    ensures WellFormed(n, PerformAll(folder, SaveOps(n, snapshot, listing, true)))
  {
    var saved := PerformAll(folder, SaveOps(n, snapshot, listing, true));
    OnlyWrittenFilesLeft(n, folder, snapshot, listing);
    forall name | name in saved.dir.value
      ensures ReadConversation(saved.dir.value[name]).Some?
      ensures n.filename(ReadConversation(saved.dir.value[name]).value.0) == name
    {
      var k :| WrittenFor(n, saved, snapshot, name, k);
    }
  }

  /** A completed full save stores exactly the non-empty conversations of the snapshot. */
  lemma CompletedSaveStoresSnapshot(n: Naming, folder: Folder, snapshot: Cache, listing: seq<string>, key: string)
    requires Injective(n) && snapshot.Valid()
    requires key in snapshot.at ==> Storable(n.roles, snapshot.at[key])
    requires Lists(AfterWrites(n, folder, snapshot), listing)
    ensures Stored(n, PerformAll(folder, SaveOps(n, snapshot, listing, true)), key)
         == if key in snapshot.at && snapshot.at[key] != [] then Some(snapshot.at[key]) else None
  {
    var saved := PerformAll(folder, SaveOps(n, snapshot, listing, true));
    OnlyWrittenFilesLeft(n, folder, snapshot, listing);
    if key in snapshot.at && snapshot.at[key] != [] {
      FinishedSaves(n, folder, snapshot, listing, key);
      SavedIsStored(n, saved, key, snapshot.at[key]);
    } else {
      assert forall k :: !WrittenFor(n, saved, snapshot, n.filename(key), k);
      assert n.filename(key) !in saved.dir.value;
    }
  }

  lemma FinishedSaves(n: Naming, folder: Folder, snapshot: Cache, listing: seq<string>, key: string)
    requires Injective(n) && snapshot.Valid() && key in snapshot.at && snapshot.at[key] != []
    ensures Saved(n, PerformAll(folder, SaveOps(n, snapshot, listing, true)), key, snapshot.at[key])
  {
    SaveOpsHarmless(n, snapshot, listing, true, key);
    HarmlessOpsKeep(n, folder, SaveOps(n, snapshot, listing, true), key, snapshot.at[key]);
  }

  // ---- A save of some conversations ----

  /** The file of `key` is the one for `entries`, or missing if there are none. */
  predicate HasFileFor(n: Naming, folder: Folder, key: string, entries: seq<Entry>) {
    if entries == [] then folder.dir.None? || n.filename(key) !in folder.dir.value else Saved(n, folder, key, entries)
  }

  lemma WriteOpsWrite(n: Naming, folder: Folder, last: string, entries: seq<Entry>, key: string)
    requires Injective(n)
    ensures var r := PerformAll(folder, WriteOps(n, last, entries));
      && r.legacy == folder.legacy
      && (key == last ==> HasFileFor(n, r, key, entries))
      && (key != last ==> SameFile(n, folder, r, key))
  {
    var name := n.filename(last);
    if entries == [] {
      PerformAppend(folder, [], Unlink(name));
      assert [] + [Unlink(name)] == WriteOps(n, last, entries);
    } else {
      PerformAppend(folder, [], WriteTemp(name));
      PerformAppend(folder, [] + [WriteTemp(name)], Replace(name, Document(last, entries)));
      assert [] + [WriteTemp(name)] + [Replace(name, Document(last, entries))] == WriteOps(n, last, entries);
    }
  }

  lemma {:induction false} SnapshotOpsWrite(n: Naming, folder: Folder, snapshot: Cache, keys: seq<string>, key: string)
    requires Injective(n) && Distinct(keys) && forall k :: k in keys ==> k in snapshot.at
    ensures var r := PerformAll(folder, SnapshotOps(n, snapshot, keys));
      && r.legacy == folder.legacy
      && (if key in keys then HasFileFor(n, r, key, snapshot.at[key]) else SameFile(n, folder, r, key))
  {
    if keys != [] {
      var init, last := keys[..|keys| - 1], keys[|keys| - 1];
      assert keys == init + [last];
      assert last !in init;
      SnapshotOpsWrite(n, folder, snapshot, init, key);
      PerformConcat(folder, SnapshotOps(n, snapshot, init), WriteOps(n, last, snapshot.at[last]));
      WriteOpsWrite(n, PerformAll(folder, SnapshotOps(n, snapshot, init)), last, snapshot.at[last], key);
    }
  }

  /** A completed save that replaces nothing else writes the file of each conversation of the snapshot, or
      removes it if the conversation is empty, leaves every other file as it was, and drops the legacy file. */
  lemma PartialSaveStores(n: Naming, folder: Folder, snapshot: Cache, listing: seq<string>, key: string)
    requires Injective(n) && snapshot.Valid()
    ensures var saved := PerformAll(folder, SaveOps(n, snapshot, listing, false));
      && saved.legacy.None?
      && (if key in snapshot.at then HasFileFor(n, saved, key, snapshot.at[key]) else SameFile(n, folder, saved, key))
  {
    var writes := SnapshotOps(n, snapshot, snapshot.order);
    var made := PerformAll(folder, [MakeDir]);
    PerformAppend(folder, [], MakeDir);
    assert [] + [MakeDir] == [MakeDir];
    SnapshotOpsWrite(n, made, snapshot, snapshot.order, key);
    PerformConcat(folder, [MakeDir], writes);
    PerformAppend(folder, [MakeDir] + writes, UnlinkLegacy);
    assert [MakeDir] + writes + [] + [UnlinkLegacy] == [MakeDir] + writes + [UnlinkLegacy];
  }

  lemma WantedFits(snapshot: Cache, cap: nat)
    requires snapshot.Valid() && |snapshot.order| <= cap
    ensures var wanted := map k | k in snapshot.at && snapshot.at[k] != [] :: snapshot.at[k];
      |wanted.Keys| <= cap
  {
    var wanted := map k | k in snapshot.at && snapshot.at[k] != [] :: snapshot.at[k];
    var keys := set k | k in snapshot.order;
    SetOfSeqSize(snapshot.order);
    assert keys == wanted.Keys + (keys - wanted.Keys);
  }

  /** Loading after a completed full save gives back the non-empty conversations. */
  lemma CompletedSaveLoads(cap: nat, n: Naming, folder: Folder, snapshot: Cache, listing: seq<string>,
                           saved: Folder, relisting: seq<string>)
    requires Injective(n) && snapshot.Valid() && |snapshot.order| <= cap
    requires forall k :: k in snapshot.at ==> Storable(n.roles, snapshot.at[k])
    requires Lists(AfterWrites(n, folder, snapshot), listing)
    requires saved == PerformAll(folder, SaveOps(n, snapshot, listing, true))
    requires Lists(saved, relisting)
    ensures Load(cap, n.roles, saved, relisting).at
         == map k | k in snapshot.at && snapshot.at[k] != [] :: snapshot.at[k]
  {
    var wanted := map k | k in snapshot.at && snapshot.at[k] != [] :: snapshot.at[k];
    assert WellFormed(n, saved) by {
      CompletedSaveIsWellFormed(n, folder, snapshot, listing);
    }
    assert forall k :: Stored(n, saved, k) == if k in wanted then Some(wanted[k]) else None by {
      forall k ensures Stored(n, saved, k) == if k in wanted then Some(wanted[k]) else None {
        CompletedSaveStoresSnapshot(n, folder, snapshot, listing, k);
      }
    }
    WantedFits(snapshot, cap);
    LoadsAs(cap, n, saved, relisting, wanted);
  }

  lemma LoadsAs(cap: nat, n: Naming, folder: Folder, listing: seq<string>, wanted: map<string, seq<Entry>>)
    requires Injective(n) && WellFormed(n, folder) && Lists(folder, listing) && |wanted.Keys| <= cap
    requires forall k :: Stored(n, folder, k) == if k in wanted then Some(wanted[k]) else None
    ensures Load(cap, n.roles, folder, listing).at == wanted
  {
    LoadsWhatIsStored(cap, n, folder, listing, wanted.Keys);
    var r := Load(cap, n.roles, folder, listing).at;
    forall k ensures k in r <==> k in wanted
             ensures k in wanted ==> r[k] == wanted[k]
    {
      assert Stored(n, folder, k) == if k in wanted then Some(wanted[k]) else None;
    }
  }

  lemma {:induction false} SetOfSeqSize(s: seq<string>)
    ensures |set k | k in s| <= |s|
  {
    if s != [] {
      var init, last := s[..|s| - 1], s[|s| - 1];
      assert s == init + [last];
      assert (set k | k in s) == (set k | k in init) + {last};
      SetOfSeqSize(init);
    }
  }
}
