/** The cockpit's own reader of the history folder, and its agreement with the agent's loader. */
module HistoryReaders {
  import opened Wrappers
  import opened OrderedDicts
  import opened JsonValues
  import opened HistoryWindow
  import opened Conversations
  import opened HistoryFiles
  import opened HistoryMigration

  // ---- The reader as a function; `f` is what it keeps of a list of messages ----

  /** `read_history_dir` and `read_history_counts`. */
  function ReadDir<V>(f: seq<Json> -> V, dir: map<string, Doc>, listing: seq<string>): OrderedDict<V>
    decreases |listing|
  {
    if listing == [] then Empty()
    else
      var before := ReadDir(f, dir, listing[..|listing| - 1]);
      var name := listing[|listing| - 1];
      var read := if name in dir then ReadConversation(dir[name]) else None;
      if read.Some? then before.Put(read.value.0, f(read.value.1)) else before
  }

  function ListMessages<V>(f: seq<Json> -> V, data: OrderedDict<Json>, keys: seq<string>): OrderedDict<V>
    decreases |keys|
  {
    if keys == [] then Empty()
    else
      var before := ListMessages(f, data, keys[..|keys| - 1]);
      var key := keys[|keys| - 1];
      if key in data.at && data.at[key].Arr? then before.Put(key, f(data.at[key].items)) else before
  }

  /** `history_mapping` of the legacy file: a missing or unreadable one gives nothing. */
  function HistoryMapping<V>(f: seq<Json> -> V, legacy: Option<Doc>): OrderedDict<V> {
    if legacy.None? || legacy.value.Unreadable? then Empty()
    else ListMessages(f, LegacyData(legacy.value.value), LegacyData(legacy.value.value).order)
  }

  /** `dict.update` with the entries of `keys`. */
  function Update<V>(base: OrderedDict<V>, more: OrderedDict<V>, keys: seq<string>): OrderedDict<V>
    decreases |keys|
  {
    if keys == [] then base
    else
      var before := Update(base, more, keys[..|keys| - 1]);
      var key := keys[|keys| - 1];
      if key in more.at then before.Put(key, more.at[key]) else before
  }

  /** `load_history_raw`, or with lengths for `f` the counts of `interaction_summary`. */
  function Merged<V>(f: seq<Json> -> V, folder: Folder, listing: seq<string>): OrderedDict<V> {
    var base := HistoryMapping(f, folder.legacy);
    if folder.dir.None? then base
    else
      var more := ReadDir(f, folder.dir.value, listing);
      Update(base, more, more.order)
  }

  function Raw(): seq<Json> -> seq<Json> {
    items => items
  }

  function Length(): seq<Json> -> nat {
    items => |items|
  }

  function Total(order: seq<string>, at: map<string, nat>): nat {
    if order == [] then 0
    else (if order[0] in at then at[order[0]] else 0) + Total(order[1..], at)
  }

  /** `valid_msg` and `normalize_msg`: any value with a role and a content is shown, as text. */
  function NormalizeMessages(text: Json -> string, items: seq<Json>): seq<Entry> {
    if items == [] then []
    else
      var role, content := Field(items[0], "role"), Field(items[0], "content");
      (if role.Some? && content.Some? then
         [Entry(Message(text(role.value), text(content.value)),
                match Field(items[0], "ts") case Some(Str(ts)) => Some(ts) case _ => None)]
       else [])
      + NormalizeMessages(text, items[1..])
  }

  // ---- The reader as the cockpit runs it ----

  method ReadHistoryDir(folder: Folder, listing: seq<string>) returns (merged: Option<OrderedDict<seq<Json>>>)
    ensures merged == if folder.dir.None? then None else Some(ReadDir(Raw(), folder.dir.value, listing))
  {
    if folder.dir.None? {
      return None;
    }
    var found: OrderedDict<seq<Json>> := Empty();
    for i := 0 to |listing|
      invariant found == ReadDir(Raw(), folder.dir.value, listing[..i])
    {
      assert listing[..i + 1][..i] == listing[..i];
      var read := if listing[i] in folder.dir.value then ReadConversation(folder.dir.value[listing[i]]) else None;
      if read.Some? {
        found := found.Put(read.value.0, read.value.1);
      }
    }
    assert listing[..|listing|] == listing;
    merged := Some(found);
  }

  method LoadHistoryRaw(folder: Folder, listing: seq<string>) returns (merged: OrderedDict<seq<Json>>)
    ensures merged == Merged(Raw(), folder, listing)
  {
    merged := HistoryMapping(Raw(), folder.legacy);
    var dirData := ReadHistoryDir(folder, listing);
    if dirData.Some? {
      ghost var base := merged;
      var keys := dirData.value.order;
      for i := 0 to |keys|
        invariant merged == Update(base, dirData.value, keys[..i])
      {
        assert keys[..i + 1][..i] == keys[..i];
        if keys[i] in dirData.value.at {
          merged := merged.Put(keys[i], dirData.value.at[keys[i]]);
        }
      }
      assert keys[..|keys|] == keys;
    }
  }

  /** `interaction_summary`: how many conversations and how many messages the folder holds. */
  method InteractionSummary(folder: Folder, listing: seq<string>) returns (conversations: nat, messages: nat)
    ensures var counts := Merged(Length(), folder, listing);
      conversations == |counts.order| && messages == Total(counts.order, counts.at)
  {
    var counts := HistoryMapping(Length(), folder.legacy);
    if folder.dir.Some? {
      ghost var base := counts;
      var more := ReadDir(Length(), folder.dir.value, listing);
      for i := 0 to |more.order|
        invariant counts == Update(base, more, more.order[..i])
      {
        assert more.order[..i + 1][..i] == more.order[..i];
        if more.order[i] in more.at {
          counts := counts.Put(more.order[i], more.at[more.order[i]]);
        }
      }
      assert more.order[..|more.order|] == more.order;
    }
    conversations := |counts.order|;
    messages := 0;
    for i := 0 to |counts.order|
      invariant messages + Total(counts.order[i..], counts.at) == Total(counts.order, counts.at)
    {
      assert counts.order[i..][1..] == counts.order[i + 1..];
      messages := messages + if counts.order[i] in counts.at then counts.at[counts.order[i]] else 0;
    }
  }

  // ---- What the reader finds ----

  function RawInDir(n: Naming, folder: Folder, key: string): Option<seq<Json>> {
    if folder.dir.Some? && n.filename(key) in folder.dir.value then
      var read := ReadConversation(folder.dir.value[n.filename(key)]);
      if read.Some? && read.value.0 == key then Some(read.value.1) else None
    else None
  }

  function RawInLegacy(folder: Folder, key: string): Option<seq<Json>> {
    if folder.legacy.Some? && folder.legacy.value.Parsed? then
      var data := LegacyData(folder.legacy.value.value);
      if key in data.at && data.at[key].Arr? then Some(data.at[key].items) else None
    else None
  }

  function RawStored(n: Naming, folder: Folder, key: string): Option<seq<Json>> {
    if RawInDir(n, folder, key).Some? then RawInDir(n, folder, key) else RawInLegacy(folder, key)
  }

  /** `d` holds `f` of the messages of exactly the conversations that `found` finds. */
  ghost predicate Shows<V>(d: OrderedDict<V>, f: seq<Json> -> V, found: string -> Option<seq<Json>>) {
    d.Valid() && forall k :: if found(k).Some? then k in d.at && d.at[k] == f(found(k).value) else k !in d.at
  }

  lemma {:induction false} ReadDirShows<V>(f: seq<Json> -> V, n: Naming, folder: Folder, listing: seq<string>)
    requires Injective(n) && WellFormed(n, folder) && folder.dir.Some?
    requires Distinct(listing) && forall name :: name in listing ==> name in folder.dir.value
    ensures var r := ReadDir(f, folder.dir.value, listing);
      && r.Valid()
      && forall k :: if n.filename(k) in listing && RawInDir(n, folder, k).Some?
                     then k in r.at && r.at[k] == f(RawInDir(n, folder, k).value) else k !in r.at
    decreases |listing|
  {
    if listing != [] {
      var before, name := listing[..|listing| - 1], listing[|listing| - 1];
      assert listing == before + [name];
      assert name !in before;
      ReadDirShows(f, n, folder, before);
      var read := ReadConversation(folder.dir.value[name]).value;
      assert n.filename(read.0) == name;
      PutValid(ReadDir(f, folder.dir.value, before), read.0, f(read.1));
    }
  }

  lemma {:induction false} ListMessagesShows<V>(f: seq<Json> -> V, data: OrderedDict<Json>, keys: seq<string>)
    ensures var r := ListMessages(f, data, keys);
      && r.Valid()
      && forall k :: if k in keys && k in data.at && data.at[k].Arr?
                     then k in r.at && r.at[k] == f(data.at[k].items) else k !in r.at
    decreases |keys|
  {
    if keys != [] {
      var before, key := keys[..|keys| - 1], keys[|keys| - 1];
      assert keys == before + [key];
      ListMessagesShows(f, data, before);
    }
  }

  lemma {:induction false} UpdateHolds<V>(base: OrderedDict<V>, more: OrderedDict<V>, keys: seq<string>)
    requires base.Valid()
    ensures var r := Update(base, more, keys);
      && r.Valid()
      && forall k :: if k in keys && k in more.at then k in r.at && r.at[k] == more.at[k]
                     else if k in base.at then k in r.at && r.at[k] == base.at[k] else k !in r.at
    decreases |keys|
  {
    if keys != [] {
      var before, key := keys[..|keys| - 1], keys[|keys| - 1];
      assert keys == before + [key];
      UpdateHolds(base, more, before);
    }
  }

  lemma MappingShows<V>(f: seq<Json> -> V, n: Naming, folder: Folder)
    requires WellFormed(n, folder)
    ensures Shows(HistoryMapping(f, folder.legacy), f, k => RawInLegacy(folder, k))
  {
    if folder.legacy.Some? {
      var data := LegacyData(folder.legacy.value.value);
      ListMessagesShows(f, data, data.order);
    }
  }

  lemma DirShows<V>(f: seq<Json> -> V, n: Naming, folder: Folder, listing: seq<string>)
    requires Injective(n) && WellFormed(n, folder) && Lists(folder, listing) && folder.dir.Some?
    ensures Shows(ReadDir(f, folder.dir.value, listing), f, k => RawInDir(n, folder, k))
  {
    ReadDirShows(f, n, folder, listing);
    assert forall k :: RawInDir(n, folder, k).Some? ==> n.filename(k) in listing;
  }

  /** Whatever order the directory is listed in, the reader finds what the folder stores. */
  lemma MergedShows<V>(f: seq<Json> -> V, n: Naming, folder: Folder, listing: seq<string>)
    requires Injective(n) && WellFormed(n, folder) && Lists(folder, listing)
    ensures Shows(Merged(f, folder, listing), f, k => RawStored(n, folder, k))
  {
    MappingShows(f, n, folder);
    if folder.dir.Some? {
      DirShows(f, n, folder, listing);
      var more := ReadDir(f, folder.dir.value, listing);
      var base := HistoryMapping(f, folder.legacy);
      UpdateHolds(base, more, more.order);
      UpdateShows(Update(base, more, more.order), base, more, f,
                  k => RawInLegacy(folder, k), k => RawInDir(n, folder, k));
    }
  }

  /** Updating makes the second source win. */
  lemma UpdateShows<V>(r: OrderedDict<V>, base: OrderedDict<V>, more: OrderedDict<V>, f: seq<Json> -> V,
                       first: string -> Option<seq<Json>>, second: string -> Option<seq<Json>>)
    requires Shows(base, f, first) && Shows(more, f, second) && r.Valid()
    requires forall k :: if k in more.order && k in more.at then k in r.at && r.at[k] == more.at[k]
                         else if k in base.at then k in r.at && r.at[k] == base.at[k] else k !in r.at
    ensures Shows(r, f, k => if second(k).Some? then second(k) else first(k))
  {
  }

  // ---- The two readers agree ----

  /** Every stored message is one the agent accepts. */
  ghost predicate MessagesOk(n: Naming, folder: Folder) {
    forall k :: RawStored(n, folder, k).Some? ==> Accepted(n.roles, RawStored(n, folder, k).value)
  }

  predicate Accepted(roles: set<string>, items: seq<Json>) {
    forall i :: 0 <= i < |items| ==> ParseMessage(roles, items[i]).Some?
  }

  /** Text is shown as it is. */
  ghost predicate Faithful(text: Json -> string) {
    forall s :: text(Str(s)) == s
  }

  lemma {:induction false} NormalizedIsParsed(text: Json -> string, roles: set<string>, items: seq<Json>)
    requires Faithful(text) && Accepted(roles, items)
    ensures NormalizeMessages(text, items) == ParseMessages(roles, items)
    ensures |ParseMessages(roles, items)| == |items|
  {
    if items != [] {
      assert ParseMessage(roles, items[0]).Some?;
      assert Accepted(roles, items[1..]);
      NormalizedIsParsed(text, roles, items[1..]);
    }
  }

  lemma {:induction false} NormalizeConcat(text: Json -> string, a: seq<Json>, b: seq<Json>)
    ensures NormalizeMessages(text, a + b) == NormalizeMessages(text, a) + NormalizeMessages(text, b)
    decreases |a|
  {
    if a == [] {
      assert a + b == b;
    } else {
      assert (a + b)[0] == a[0] && (a + b)[1..] == a[1..] + b;
      NormalizeConcat(text, a[1..], b);
    }
  }

  /** The cockpit shows any item that has a role and a content, whatever they are, with a timestamp that is
      a text, and skips the others. */
  lemma ShowsItemByItem(text: Json -> string, before: seq<Json>, item: Json, after: seq<Json>)
    ensures var shown := NormalizeMessages(text, before + [item] + after);
      if item.Obj? && "role" in item.fields.at && "content" in item.fields.at
      then var at := item.fields.at;
           var e := Entry(Message(text(at["role"]), text(at["content"])),
                          if "ts" in at && at["ts"].Str? then Some(at["ts"].s) else None);
           shown == NormalizeMessages(text, before) + [e] + NormalizeMessages(text, after)
      else shown == NormalizeMessages(text, before + after)
  {
    NormalizeConcat(text, before, [item]);
    NormalizeConcat(text, before + [item], after);
    NormalizeConcat(text, before, after);
    assert [item][1..] == [];
    OneItemShown(text, item);
    assert NormalizeMessages(text, before) + [] == NormalizeMessages(text, before);
  }

  lemma OneItemShown(text: Json -> string, item: Json)
    ensures NormalizeMessages(text, [item]) ==
      if item.Obj? && "role" in item.fields.at && "content" in item.fields.at
      then [Entry(Message(text(item.fields.at["role"]), text(item.fields.at["content"])),
                  if "ts" in item.fields.at && item.fields.at["ts"].Str? then Some(item.fields.at["ts"].s) else None)]
      else []
  {
    assert [item][1..] == [];
    assert NormalizeMessages(text, [item][1..]) == [];
  }

  lemma StoredIsParsedRaw(n: Naming, folder: Folder, key: string)
    ensures Stored(n, folder, key) == match RawStored(n, folder, key)
                                      case None => None
                                      case Some(items) => Some(ParseMessages(n.roles, items))
  {
  }

  /** On a well-formed folder within the cap, in any mix of directory and legacy file and
      listed in any order, the cockpit shows the conversations the agent loads. */
  lemma TwoReadersAgree(cap: nat, n: Naming, text: Json -> string, folder: Folder,
                        byAge: seq<string>, byName: seq<string>, keys: set<string>, k: string)
    requires Injective(n) && Faithful(text) && WellFormed(n, folder) && MessagesOk(n, folder)
    requires Lists(folder, byAge) && Lists(folder, byName) && Covers(n, folder, keys) && |keys| <= cap
    ensures var agent, cockpit := Load(cap, n.roles, folder, byAge), Merged(Raw(), folder, byName);
      && (k in agent.at <==> k in cockpit.at)
      && (k in agent.at ==> agent.at[k] == NormalizeMessages(text, cockpit.at[k]) && |agent.at[k]| == |cockpit.at[k]|)
  {
    LoadsWhatIsStored(cap, n, folder, byAge, keys);
    MergedShows(Raw(), n, folder, byName);
    StoredIsParsedRaw(n, folder, k);
    if RawStored(n, folder, k).Some? {
      NormalizedIsParsed(text, n.roles, RawStored(n, folder, k).value);
    }
  }

  /** Every message of either source is one the agent accepts. */
  ghost predicate SourcesOk(n: Naming, folder: Folder) {
    && (forall k :: RawInDir(n, folder, k).Some? ==> Accepted(n.roles, RawInDir(n, folder, k).value))
    && (forall k :: RawInLegacy(folder, k).Some? ==> Accepted(n.roles, RawInLegacy(folder, k).value))
  }

  predicate WritesAccepted(n: Naming, op: FileOp) {
    op.Replace? && ReadConversation(op.doc).Some? ==> Accepted(n.roles, ReadConversation(op.doc).value.1)
  }

  predicate AllWriteAccepted(n: Naming, ops: seq<FileOp>) {
    forall op :: op in ops ==> WritesAccepted(n, op)
  }

  lemma {:induction false} SnapshotOpsAccepted(n: Naming, snapshot: Cache, keys: seq<string>)
    requires forall k :: k in snapshot.at ==> Storable(n.roles, snapshot.at[k])
    ensures AllWriteAccepted(n, SnapshotOps(n, snapshot, keys))
  {
    if keys != [] {
      var last := keys[|keys| - 1];
      SnapshotOpsAccepted(n, snapshot, keys[..|keys| - 1]);
    }
  }

  lemma {:induction false} PruneOpsAccepted(n: Naming, snapshot: Cache, listing: seq<string>)
    ensures AllWriteAccepted(n, PruneOps(n, snapshot, listing))
  {
    if listing != [] {
      PruneOpsAccepted(n, snapshot, listing[..|listing| - 1]);
    }
  }

  lemma {:induction false} AcceptedOpsKeep(n: Naming, folder: Folder, ops: seq<FileOp>)
    requires SourcesOk(n, folder) && AllWriteAccepted(n, ops)
    ensures SourcesOk(n, PerformAll(folder, ops))
  {
    if ops != [] {
      var init, last := ops[..|ops| - 1], ops[|ops| - 1];
      assert ops == init + [last];
      AcceptedOpsKeep(n, folder, init);
      AcceptedOpKeeps(n, PerformAll(folder, init), last);
    }
  }

  lemma AcceptedOpKeeps(n: Naming, folder: Folder, op: FileOp)
    requires SourcesOk(n, folder) && WritesAccepted(n, op)
    ensures SourcesOk(n, Perform(folder, op))
  {
    var after := Perform(folder, op);
    forall k | RawInDir(n, after, k).Some? ensures Accepted(n.roles, RawInDir(n, after, k).value) {
      if !(op.Replace? && op.name == n.filename(k)) {
        assert RawInDir(n, after, k) == RawInDir(n, folder, k);
      }
    }
    forall k | RawInLegacy(after, k).Some? ensures Accepted(n.roles, RawInLegacy(after, k).value) {
      assert RawInLegacy(after, k) == RawInLegacy(folder, k);
    }
  }

  /** So the two readers agree on every folder that a save stopped anywhere leaves, as during a migration. */
  lemma ReadersAgreeOnStoppedSave(cap: nat, n: Naming, text: Json -> string, folder: Folder, snapshot: Cache,
                                  listing: seq<string>, replace: bool, stop: nat, left: Folder,
                                  byAge: seq<string>, byName: seq<string>, keys: set<string>, k: string)
    requires Injective(n) && Faithful(text) && WellFormed(n, folder) && SourcesOk(n, folder)
    requires forall key :: key in snapshot.at ==> Storable(n.roles, snapshot.at[key])
    requires stop <= |SaveOps(n, snapshot, listing, replace)|
    requires left == PerformAll(folder, SaveOps(n, snapshot, listing, replace)[..stop])
    requires Lists(left, byAge) && Lists(left, byName) && Covers(n, left, keys) && |keys| <= cap
    ensures var agent, cockpit := Load(cap, n.roles, left, byAge), Merged(Raw(), left, byName);
      && (k in agent.at <==> k in cockpit.at)
      && (k in agent.at ==> agent.at[k] == NormalizeMessages(text, cockpit.at[k]) && |agent.at[k]| == |cockpit.at[k]|)
  {
    StoppedSaveIsWellFormed(n, folder, snapshot, listing, replace, stop);
    SnapshotOpsAccepted(n, snapshot, snapshot.order);
    PruneOpsAccepted(n, snapshot, listing);
    var ops := SaveOps(n, snapshot, listing, replace);
    assert AllWriteAccepted(n, ops);
    AcceptedOpsKeep(n, folder, ops[..stop]);
    TwoReadersAgree(cap, n, text, left, byAge, byName, keys, k);
  }

  function Lengths(convs: Cache): map<string, nat> {
    map k | k in convs.at :: |convs.at[k]|
  }

  /** The summary is the number of conversations the agent loads and of their messages. */
  lemma SummaryCountsConversations(cap: nat, n: Naming, folder: Folder, byAge: seq<string>, anyOrder: seq<string>,
                                   keys: set<string>)
    requires Injective(n) && WellFormed(n, folder) && MessagesOk(n, folder)
    requires Lists(folder, byAge) && Lists(folder, anyOrder) && Covers(n, folder, keys) && |keys| <= cap
    ensures var agent, counts := Load(cap, n.roles, folder, byAge), Merged(Length(), folder, anyOrder);
      && |counts.order| == |agent.order|
      && Total(counts.order, counts.at) == Total(agent.order, Lengths(agent))
  {
    var agent, counts := Load(cap, n.roles, folder, byAge), Merged(Length(), folder, anyOrder);
    LoadsWhatIsStored(cap, n, folder, byAge, keys);
    MergedShows(Length(), n, folder, anyOrder);
    forall k ensures k in counts.at <==> k in Lengths(agent)
             ensures k in counts.at ==> counts.at[k] == Lengths(agent)[k]
    {
      StoredIsParsedRaw(n, folder, k);
      if RawStored(n, folder, k).Some? {
        LengthParsed(n.roles, RawStored(n, folder, k).value);
      }
    }
    assert counts.at == Lengths(agent);
    SameKeysSameTotal(counts.order, agent.order, counts.at);
  }

  lemma {:induction false} LengthParsed(roles: set<string>, items: seq<Json>)
    requires Accepted(roles, items)
    ensures |ParseMessages(roles, items)| == |items|
  {
    if items != [] {
      assert ParseMessage(roles, items[0]).Some?;
      assert Accepted(roles, items[1..]);
      LengthParsed(roles, items[1..]);
    }
  }

  lemma {:induction false} TotalWithout(s: seq<string>, at: map<string, nat>, k: string)
    requires Distinct(s) && k in s
    ensures Total(s, at) == (if k in at then at[k] else 0) + Total(Without(s, k), at)
  {
    if s[0] == k {
      assert k !in s[1..];
      WithoutFacts(s[1..], k);
    } else {
      assert s == [s[0]] + s[1..];
      TotalWithout(s[1..], at, k);
      assert ([s[0]] + Without(s[1..], k))[1..] == Without(s[1..], k);
    }
  }

  lemma {:induction false} SameKeysSameTotal(a: seq<string>, b: seq<string>, at: map<string, nat>)
    requires Distinct(a) && Distinct(b) && forall k :: k in a <==> k in b
    ensures |a| == |b| && Total(a, at) == Total(b, at)
    decreases |a|
  {
    if a == [] {
      if b != [] {
        SomeMember(b);
      }
    } else {
      assert a == [a[0]] + a[1..];
      assert a[0] in b && a[0] !in a[1..];
      TotalWithout(b, at, a[0]);
      WithoutFacts(b, a[0]);
      WithoutLength(b, a[0]);
      SameKeysSameTotal(a[1..], Without(b, a[0]), at);
    }
  }

  lemma SomeMember(s: seq<string>)
    requires s != []
    ensures exists k :: k in s
  {
    assert s[0] in s;
  }

  /** A corrupt legacy file parts the two readers: the agent then loads nothing at all, so they
      agree exactly when the directory holds no readable conversation either. */
  lemma CorruptLegacyDisagreesIff(cap: nat, n: Naming, folder: Folder, byAge: seq<string>, byName: seq<string>)
    requires folder.legacy == Some(Unreadable)
    ensures Load(cap, n.roles, folder, byAge) == Empty()
    ensures (forall k :: k in Load(cap, n.roles, folder, byAge).at <==> k in Merged(Raw(), folder, byName).at)
        <==> (folder.dir.Some? ==> forall name :: name in byName && name in folder.dir.value ==>
                                     ReadConversation(folder.dir.value[name]).None?)
  {
    var merged := Merged(Raw(), folder, byName);
    var empty: OrderedDict<seq<Json>> := Empty();
    if folder.dir.Some? {
      var more := ReadDir(Raw(), folder.dir.value, byName);
      ReadDirEmptyIff(folder.dir.value, byName);
      UpdateHolds(empty, more, more.order);
    }
  }

  lemma {:induction false} ReadDirEmptyIff(dir: map<string, Doc>, listing: seq<string>)
    ensures var r := ReadDir(Raw(), dir, listing);
      && r.Valid()
      && ((forall k :: k !in r.at) <==>
           forall name :: name in listing && name in dir ==> ReadConversation(dir[name]).None?)
    decreases |listing|
  {
    if listing != [] {
      var before, name := listing[..|listing| - 1], listing[|listing| - 1];
      assert listing == before + [name];
      ReadDirEmptyIff(dir, before);
      if name in dir && ReadConversation(dir[name]).Some? {
        assert ReadConversation(dir[name]).value.0 in ReadDir(Raw(), dir, listing).at;
      }
    }
  }
}
