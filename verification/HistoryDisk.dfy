/** The history folder as the agent works on it: the save and the load, one file operation
    after another, each of which may be the last one to succeed. */
module HistoryDisk {
  import opened Wrappers
  import opened OrderedDicts
  import opened HistoryWindow
  import opened RecentKeys
  import opened Conversations
  import opened HistoryFiles
  import opened HistoryMigration

  function Min(a: nat, b: nat): nat {
    if a < b then a else b
  }

  /** With `budget` operations left to succeed, `ops` were performed as far as that goes. */
  ghost predicate Ran(before: Folder, budget: nat, ops: seq<FileOp>, after: Folder, left: nat, ok: bool) {
    && ok == (budget >= |ops|)
    && left == budget - Min(budget, |ops|)
    && after == PerformAll(before, ops[..Min(budget, |ops|)])
  }

  lemma RanBoth(f0: Folder, b0: nat, first: seq<FileOp>, f1: Folder, b1: nat, second: seq<FileOp>, f2: Folder, b2: nat,
                ok: bool)
    requires Ran(f0, b0, first, f1, b1, true) && Ran(f1, b1, second, f2, b2, ok)
    ensures Ran(f0, b0, first + second, f2, b2, ok)
  {
    var m := Min(b1, |second|);
    assert first[..Min(b0, |first|)] == first;
    assert (first + second)[..|first| + m] == first + second[..m];
    PerformConcat(f0, first, second[..m]);
  }

  lemma RanFailed(f0: Folder, b0: nat, first: seq<FileOp>, f1: Folder, b1: nat, rest: seq<FileOp>)
    requires Ran(f0, b0, first, f1, b1, false)
    ensures Ran(f0, b0, first + rest, f1, b1, false)
  {
    assert (first + rest)[..b0] == first[..b0];
  }

  class HistoryFolder {
    const naming: Naming
    var dir: Option<map<string, Doc>>
    var legacy: Option<Doc>
    var budget: nat  // file operations that will still succeed

    constructor (naming: Naming, folder: Folder, budget: nat)
      ensures this.naming == naming && State() == folder && this.budget == budget
    {
      this.naming := naming;
      dir, legacy, this.budget := folder.dir, folder.legacy, budget;
    }

    ghost function State(): Folder
      reads this
    {
      Folder(dir, legacy)
    }

    /** One file operation; it fails when the budget is spent. */
    method Do(op: FileOp) returns (ok: bool)
      modifies this
      ensures Ran(old(State()), old(budget), [op], State(), budget, ok)
    {
      assert [op][..0] == [] && [op][..1] == [op];
      PerformAppend(State(), [], op);
      assert [] + [op] == [op];
      if budget == 0 {
        return false;
      }
      budget := budget - 1;
      match op {
        case MakeDir => if dir.None? { dir := Some(map[]); }
        case WriteTemp(name) =>
        case Replace(name, doc) => dir := Some((if dir.Some? then dir.value else map[])[name := doc]);
        case Unlink(name) => if dir.Some? { dir := Some(dir.value - {name}); }
        case UnlinkLegacy => legacy := None;
      }
      return true;
    }

    /** `write_conversation_file`. */
    method WriteConversationFile(key: string, entries: seq<Entry>) returns (ok: bool)
      modifies this
      ensures Ran(old(State()), old(budget), WriteOps(naming, key, entries), State(), budget, ok)
    {
      var name := naming.filename(key);
      if entries == [] {
        ok := Do(Unlink(name));
        return;
      }
      var temp, replace := WriteTemp(name), Replace(name, Document(key, entries));
      assert WriteOps(naming, key, entries) == [temp] + [replace];
      ok := Do(temp);
      if !ok {
        RanFailed(old(State()), old(budget), [temp], State(), budget, [replace]);
        return;
      }
      ghost var mid, left := State(), budget;
      ok := Do(replace);
      RanBoth(old(State()), old(budget), [temp], mid, left, [replace], State(), budget, ok);
    }

    /** The loop over the snapshot in `save_from_snapshot`. */
    method WriteConversations(snapshot: Cache) returns (ok: bool)
      modifies this
      ensures Ran(old(State()), old(budget), SnapshotOps(naming, snapshot, snapshot.order), State(), budget, ok)
    {
      ghost var f0, b0 := State(), budget;
      for i := 0 to |snapshot.order|
        invariant Ran(f0, b0, SnapshotOps(naming, snapshot, snapshot.order[..i]), State(), budget, true)
      {
        var key := snapshot.order[i];
        ghost var before, f1, b1 := SnapshotOps(naming, snapshot, snapshot.order[..i]), State(), budget;
        var content := if key in snapshot.at then snapshot.at[key] else [];
        ok := WriteConversationFile(key, content);
        OneMoreWritten(naming, snapshot, snapshot.order, i);
        RanBoth(f0, b0, before, f1, b1, WriteOps(naming, key, content), State(), budget, ok);
        if !ok {
          WritesFailed(naming, snapshot, i + 1, f0, b0, State(), budget);
          return;
        }
      }
      assert snapshot.order[..|snapshot.order|] == snapshot.order;
      ok := true;
    }

    /** `prune_conversation_files`: delete every listed file that was not written. */
    method PruneConversationFiles(snapshot: Cache, listing: seq<string>) returns (ok: bool)
      modifies this
      ensures Ran(old(State()), old(budget), PruneOps(naming, snapshot, listing), State(), budget, ok)
    {
      ghost var f0, b0 := State(), budget;
      for i := 0 to |listing|
        invariant Ran(f0, b0, PruneOps(naming, snapshot, listing[..i]), State(), budget, true)
      {
        var name := listing[i];
        ghost var before, f1, b1 := PruneOps(naming, snapshot, listing[..i]), State(), budget;
        assert listing[..i + 1][..i] == listing[..i];
        if IsWritten(naming, snapshot, snapshot.order, name) {
          assert before + [] == before;
        } else {
          ok := Do(Unlink(name));
          RanBoth(f0, b0, before, f1, b1, [Unlink(name)], State(), budget, ok);
          if !ok {
            PruneFailed(naming, snapshot, listing, i + 1, f0, b0, State(), budget);
            return;
          }
        }
      }
      assert listing[..|listing|] == listing;
      ok := true;
    }

    method ListNames() returns (listing: seq<string>)
      ensures Lists(State(), listing)
    {
      listing := [];
      var left := if dir.Some? then dir.value.Keys else {};
      ghost var all := left;
      while left != {}
        invariant Distinct(listing) && left <= all
        invariant forall name :: name in listing <==> name in all && name !in left
        decreases left
      {
        var name :| name in left;
        listing, left := listing + [name], left - {name};
      }
    }

    /** `save_from_snapshot`; `listing` is what the directory listed when it was pruned. */
    method SaveFromSnapshot(snapshot: Cache, replace: bool) returns (saved: bool, ghost listing: seq<string>)
      modifies this
      ensures Ran(old(State()), old(budget), SaveOps(naming, snapshot, listing, replace), State(), budget, saved)
      ensures saved && replace ==> Lists(AfterWrites(naming, old(State()), snapshot), listing)
    {
      ghost var f0, b0 := State(), budget;
      ghost var writes := SnapshotOps(naming, snapshot, snapshot.order);
      listing := [];
      SaveOpsParts(naming, snapshot, listing, replace);
      saved := Do(MakeDir);
      if !saved {
        RanFailed(f0, b0, [MakeDir], State(), budget,
                  writes + (PruneIf(naming, snapshot, listing, replace) + [UnlinkLegacy]));
        return;
      }
      ghost var f1, b1 := State(), budget;
      saved := WriteConversations(snapshot);
      RanBoth(f0, b0, [MakeDir], f1, b1, writes, State(), budget, saved);
      if !saved {
        RanFailed(f0, b0, [MakeDir] + writes, State(), budget,
                  PruneIf(naming, snapshot, listing, replace) + [UnlinkLegacy]);
        return;
      }
      ghost var f2, b2 := State(), budget;
      assert ([MakeDir] + writes)[..|[MakeDir] + writes|] == [MakeDir] + writes;
      if replace {
        var names := ListNames();
        listing := names;
        SaveOpsParts(naming, snapshot, listing, replace);
        saved := PruneConversationFiles(snapshot, names);
      }
      ghost var pruned := PruneIf(naming, snapshot, listing, replace);
      RanBoth(f0, b0, [MakeDir] + writes, f2, b2, pruned, State(), budget, saved);
      if !saved {
        RanFailed(f0, b0, [MakeDir] + writes + pruned, State(), budget, [UnlinkLegacy]);
        return;
      }
      ghost var f3, b3 := State(), budget;
      saved := Do(UnlinkLegacy);
      RanBoth(f0, b0, [MakeDir] + writes + pruned, f3, b3, [UnlinkLegacy], State(), budget, saved);
    }

    // ---- Loading ----

    /** `cap_history_paths`: delete the oldest listed files beyond the cap, and keep the rest. */
    method CapHistoryPaths(cap: nat, listing: seq<string>) returns (kept: seq<string>)
      modifies this`dir
      ensures kept == LastN(listing, cap)
      ensures old(dir).None? ==> dir == old(dir)
      ensures old(dir).Some? ==> dir == Some(old(dir).value - Names(listing[..|listing| - |kept|]))
    {
      kept := LastN(listing, cap);
      assert dir.Some? ==> dir.value - Names(listing[..0]) == dir.value;
      for i := 0 to |listing| - |kept|
        invariant old(dir).None? ==> dir == old(dir)
        invariant old(dir).Some? ==> dir == Some(old(dir).value - Names(listing[..i]))
      {
        if dir.Some? {
          UnlinkOneMore(old(dir).value, listing, i);
          dir := Some(dir.value - {listing[i]});
        }
      }
    }

    /** `load_conversation_dir`. */
    method LoadConversationDir(listing: seq<string>) returns (convs: Cache)
      requires dir.Some?
      ensures convs == LoadDir(naming.roles, dir.value, listing)
    {
      convs := Empty();
      for i := 0 to |listing|
        invariant convs == LoadDir(naming.roles, dir.value, listing[..i])
      {
        assert listing[..i + 1][..i] == listing[..i];
        var read := if listing[i] in dir.value then ReadConversation(dir.value[listing[i]]) else None;
        if read.None? {
          continue;
        }
        convs := convs.Put(read.value.0, ParseMessages(naming.roles, read.value.1));
      }
      assert listing[..|listing|] == listing;
    }

    /** `load_legacy_history_file`. */
    method LoadLegacyHistoryFile(loaded: Cache) returns (convs: Cache)
      ensures convs == LoadLegacy(naming.roles, legacy, loaded)
    {
      convs := loaded;
      if legacy.None? {
        return;
      }
      if legacy.value.Unreadable? {
        convs := Empty();
        return;
      }
      var data := LegacyData(legacy.value.value);
      for i := 0 to |data.order|
        invariant convs == AddLegacy(naming.roles, data, data.order[..i], loaded)
      {
        var key := data.order[i];
        assert data.order[..i + 1][..i] == data.order[..i];
        if key in data.at && data.at[key].Arr? && key !in convs.at {
          convs := convs.Put(key, ParseMessages(naming.roles, data.at[key].items));
        }
      }
      assert data.order[..|data.order|] == data.order;
    }

    /** The eviction at the end of loading: the oldest conversations go, and their files. */
    method EvictLoaded(cap: nat, loaded: Cache) returns (convs: Cache)
      modifies this`dir
      ensures convs == Evict(cap, loaded)
      ensures dir == WithoutFiles(naming, old(dir), loaded.order[..|loaded.order| - |LastN(loaded.order, cap)|])
    {
      convs := loaded;
      NoFilesLess(naming, dir);
      assert loaded.order[..0] == [];
      while |convs.order| > cap
        invariant Evict(cap, convs) == Evict(cap, loaded)
        invariant |convs.order| <= |loaded.order| && convs.order == loaded.order[|loaded.order| - |convs.order|..]
        invariant |convs.order| == |loaded.order| || |convs.order| >= cap
        invariant dir == WithoutFiles(naming, old(dir), loaded.order[..|loaded.order| - |convs.order|])
        decreases |convs.order|
      {
        ghost var i := |loaded.order| - |convs.order|;
        assert convs.order[0] == loaded.order[i] && loaded.order[..i + 1] == loaded.order[..i] + [loaded.order[i]];
        if dir.Some? {
          OneFileLess(naming, old(dir).value, loaded.order[..i], convs.order[0]);
          dir := Some(dir.value - {naming.filename(convs.order[0])});
        }
        convs := convs.PopOldest();
      }
    }

    /** `load_history_state`, given the listing of the directory from oldest to newest. The files of
        conversations beyond the cap are deleted, and no others. */
    method LoadHistoryState(cap: nat, listing: seq<string>) returns (convs: Cache)
      requires Lists(State(), listing)
      modifies this`dir
      ensures convs == Load(cap, naming.roles, old(State()), listing)
      ensures dir == LeftByLoad(cap, naming, old(State()), listing)
    {
      convs := Empty();
      if dir.Some? {
        var kept := CapHistoryPaths(cap, listing);
        LoadDirIgnores(naming.roles, old(dir).value, dir.value, kept, listing);
        convs := LoadConversationDir(kept);
      }
      convs := LoadLegacyHistoryFile(convs);
      assert convs == LoadAll(cap, naming.roles, old(State()), listing);
      assert dir == Capped(cap, old(dir), listing);
      convs := EvictLoaded(cap, convs);
    }
  }

  /** The directory without the files of `keys`. */
  function WithoutFiles(n: Naming, dir: Option<map<string, Doc>>, keys: seq<string>): Option<map<string, Doc>> {
    if dir.None? then None else Some(dir.value - FileNames(n, keys))
  }

  function FileNames(n: Naming, keys: seq<string>): set<string> {
    set k | k in keys :: n.filename(k)
  }

  lemma NoFilesLess(n: Naming, dir: Option<map<string, Doc>>)
    ensures WithoutFiles(n, dir, []) == dir
  {
    assert FileNames(n, []) == {};
    assert dir.Some? ==> dir.value - {} == dir.value;
  }

  lemma OneFileLess(n: Naming, dir: map<string, Doc>, keys: seq<string>, key: string)
    ensures dir - FileNames(n, keys) - {n.filename(key)} == dir - FileNames(n, keys + [key])
  {
    assert FileNames(n, keys + [key]) == FileNames(n, keys) + {n.filename(key)};
  }

  /** The directory without the files beyond the `cap` newest. */
  function Capped(cap: nat, dir: Option<map<string, Doc>>, listing: seq<string>): Option<map<string, Doc>> {
    if dir.None? then None else Some(dir.value - Names(listing[..|listing| - |LastN(listing, cap)|]))
  }

  /** Loading deletes those files, and the files of the conversations it evicts. */
  function LeftByLoad(cap: nat, n: Naming, folder: Folder, listing: seq<string>): Option<map<string, Doc>> {
    var all := LoadAll(cap, n.roles, folder, listing).order;
    WithoutFiles(n, Capped(cap, folder.dir, listing), all[..|all| - |LastN(all, cap)|])
  }

  function Names(s: seq<string>): set<string> {
    set name | name in s
  }

  lemma UnlinkOneMore(dir: map<string, Doc>, listing: seq<string>, i: nat)
    requires i < |listing|
    ensures dir - Names(listing[..i]) - {listing[i]} == dir - Names(listing[..i + 1])
  {
    assert listing[..i + 1] == listing[..i] + [listing[i]];
    assert Names(listing[..i + 1]) == Names(listing[..i]) + {listing[i]};
  }

  function PruneIf(n: Naming, snapshot: Cache, listing: seq<string>, replace: bool): seq<FileOp> {
    if replace then PruneOps(n, snapshot, listing) else []
  }

  lemma SaveOpsParts(n: Naming, snapshot: Cache, listing: seq<string>, replace: bool)
    ensures var writes, pruned := SnapshotOps(n, snapshot, snapshot.order), PruneIf(n, snapshot, listing, replace);
      && SaveOps(n, snapshot, listing, replace) == [MakeDir] + writes + pruned + [UnlinkLegacy]
      && [MakeDir] + (writes + (pruned + [UnlinkLegacy])) == [MakeDir] + writes + pruned + [UnlinkLegacy]
      && [MakeDir] + writes + (pruned + [UnlinkLegacy]) == [MakeDir] + writes + pruned + [UnlinkLegacy]
  {
  }

  /** Reading the kept files does not notice that the others are deleted. */
  lemma {:induction false} LoadDirIgnores(roles: set<string>, before: map<string, Doc>, after: map<string, Doc>,
                                          kept: seq<string>, listing: seq<string>)
    requires Distinct(listing) && |kept| <= |listing| && kept == listing[|listing| - |kept|..]
    requires after == before - Names(listing[..|listing| - |kept|])
    ensures LoadDir(roles, before, kept) == LoadDir(roles, after, kept)
  {
    forall name | name in kept ensures name !in Names(listing[..|listing| - |kept|]) {
      var i :| 0 <= i < |kept| && kept[i] == name;
      assert listing[|listing| - |kept| + i] == name;
    }
    LoadDirSame(roles, before, after, kept);
  }

  lemma {:induction false} LoadDirSame(roles: set<string>, a: map<string, Doc>, b: map<string, Doc>, names: seq<string>)
    requires forall name :: name in names ==> if name in a then name in b && a[name] == b[name] else name !in b
    ensures LoadDir(roles, a, names) == LoadDir(roles, b, names)
    decreases |names|
  {
    if names != [] {
      assert forall name :: name in names[..|names| - 1] ==> name in names;
      LoadDirSame(roles, a, b, names[..|names| - 1]);
      assert names[|names| - 1] in names;
    }
  }

  lemma OneMoreWritten(n: Naming, snapshot: Cache, keys: seq<string>, i: nat)
    requires i < |keys|
    ensures SnapshotOps(n, snapshot, keys[..i + 1])
         == SnapshotOps(n, snapshot, keys[..i])
           + WriteOps(n, keys[i], if keys[i] in snapshot.at then snapshot.at[keys[i]] else [])
  {
    assert keys[..i + 1][..i] == keys[..i];
  }

  lemma WritesFailed(n: Naming, snapshot: Cache, i: nat, f0: Folder, b0: nat, f1: Folder, b1: nat)
    requires i <= |snapshot.order| && Ran(f0, b0, SnapshotOps(n, snapshot, snapshot.order[..i]), f1, b1, false)
    ensures Ran(f0, b0, SnapshotOps(n, snapshot, snapshot.order), f1, b1, false)
  {
    var rest := SnapshotOpsExtend(n, snapshot, snapshot.order, i);
    RanFailed(f0, b0, SnapshotOps(n, snapshot, snapshot.order[..i]), f1, b1, rest);
  }

  lemma PruneFailed(n: Naming, snapshot: Cache, listing: seq<string>, i: nat, f0: Folder, b0: nat, f1: Folder, b1: nat)
    requires i <= |listing| && Ran(f0, b0, PruneOps(n, snapshot, listing[..i]), f1, b1, false)
    ensures Ran(f0, b0, PruneOps(n, snapshot, listing), f1, b1, false)
  {
    var rest := PruneOpsExtend(n, snapshot, listing, i);
    RanFailed(f0, b0, PruneOps(n, snapshot, listing[..i]), f1, b1, rest);
  }

  lemma {:induction false} SnapshotOpsExtend(n: Naming, snapshot: Cache, keys: seq<string>, i: nat)
    returns (rest: seq<FileOp>)
    requires i <= |keys|
    ensures SnapshotOps(n, snapshot, keys) == SnapshotOps(n, snapshot, keys[..i]) + rest
    decreases |keys|
  {
    if i == |keys| {
      rest := [];
      assert keys[..i] == keys;
    } else {
      var init, last := keys[..|keys| - 1], keys[|keys| - 1];
      var before := SnapshotOpsExtend(n, snapshot, init, i);
      assert init[..i] == keys[..i];
      rest := before + WriteOps(n, last, if last in snapshot.at then snapshot.at[last] else []);
    }
  }

  lemma {:induction false} PruneOpsExtend(n: Naming, snapshot: Cache, listing: seq<string>, i: nat)
    returns (rest: seq<FileOp>)
    requires i <= |listing|
    ensures PruneOps(n, snapshot, listing) == PruneOps(n, snapshot, listing[..i]) + rest
    decreases |listing|
  {
    if i == |listing| {
      rest := [];
      assert listing[..i] == listing;
    } else {
      var init, last := listing[..|listing| - 1], listing[|listing| - 1];
      var before := PruneOpsExtend(n, snapshot, init, i);
      assert init[..i] == listing[..i];
      rest := before + if IsWritten(n, snapshot, snapshot.order, last) then [] else [Unlink(last)];
    }
  }
}
