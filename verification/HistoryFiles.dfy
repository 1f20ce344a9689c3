/** Conversation history on disk: one JSON file per conversation, the older single file, the
    save that migrates from one to the other, and the agent's loader. */
module HistoryFiles {
  import opened Wrappers
  import opened OrderedDicts
  import opened JsonValues
  import opened HistoryWindow
  import opened RecentKeys
  import opened Conversations

  datatype Doc = Unreadable | Parsed(value: Json)

  /** The history folder of one agent: its directory, by file name, and its legacy file. */
  datatype Folder = Folder(dir: Option<map<string, Doc>>, legacy: Option<Doc>)

  /** What the model leaves open: the roles of the message library and the file-name hash. */
  datatype Naming = Naming(roles: set<string>, filename: string -> string)

  ghost predicate Injective(n: Naming) {
    forall a, b :: n.filename(a) == n.filename(b) ==> a == b
  }

  // ---- Messages ----

  function ParseMessage(roles: set<string>, j: Json): Option<Entry> {
    match (Field(j, "role"), Field(j, "content"))
    case (Some(Str(role)), Some(Str(content))) =>
      if role in roles then
        Some(Entry(Message(role, content),
                   match Field(j, "ts") case Some(Str(ts)) => Some(ts) case _ => None))
      else None
    case _ => None
  }

  /** `parse_history_messages`: items that are not messages are skipped. */
  function ParseMessages(roles: set<string>, items: seq<Json>): seq<Entry> {
    if items == [] then []
    else
      var first := ParseMessage(roles, items[0]);
      (if first.Some? then [first.value] else []) + ParseMessages(roles, items[1..])
  }

  /** `serialize_history_message`: an empty timestamp is dropped. */
  function SerializeMessage(e: Entry): Json {
    var plain := OrderedDict(["role", "content"],
      map["role" := Str(e.message.role), "content" := Str(e.message.content)]);
    Obj(if e.stamp.Some? && e.stamp.value != "" then plain.Put("ts", Str(e.stamp.value)) else plain)
  }

  function Serialized(entries: seq<Entry>): seq<Json> {
    seq(|entries|, i requires 0 <= i < |entries| => SerializeMessage(entries[i]))
  }

  function Document(key: string, entries: seq<Entry>): Doc {
    Parsed(Obj(OrderedDict(["key", "messages"], map["key" := Str(key), "messages" := Arr(Serialized(entries))])))
  }

  /** The entries the agent stores: a known role and no empty timestamp. */
  predicate Storable(roles: set<string>, entries: seq<Entry>) {
    forall i :: 0 <= i < |entries| ==> entries[i].message.role in roles && entries[i].stamp != Some("")
  }

  /** A message written out reads back if its role is known, without its timestamp if that is empty. */
  lemma SerializedMessageParses(roles: set<string>, e: Entry)
    ensures ParseMessage(roles, SerializeMessage(e)) ==
      if e.message.role in roles then Some(if e.stamp == Some("") then e.(stamp := None) else e) else None
  {
  }

  lemma {:induction false} SerializedMessagesParse(roles: set<string>, entries: seq<Entry>)
    requires Storable(roles, entries)
    ensures ParseMessages(roles, Serialized(entries)) == entries
    decreases |entries|
  {
    if entries != [] {
      SerializedMessageParses(roles, entries[0]);
      SerializedMessagesParse(roles, entries[1..]);
      assert Serialized(entries)[1..] == Serialized(entries[1..]);
    }
  }

  /** The item is an object with a known role and a text. */
  predicate IsMessage(roles: set<string>, item: Json) {
    && item.Obj? && "role" in item.fields.at && "content" in item.fields.at
    && item.fields.at["role"].Str? && item.fields.at["role"].s in roles && item.fields.at["content"].Str?
  }

  /** The message of such an item, with its timestamp if that is a text. */
  function MessageOf(roles: set<string>, item: Json): Entry
    requires IsMessage(roles, item)
  {
    var at := item.fields.at;
    Entry(Message(at["role"].s, at["content"].s), if "ts" in at && at["ts"].Str? then Some(at["ts"].s) else None)
  }

  lemma OneItemParses(roles: set<string>, item: Json)
    ensures ParseMessage(roles, item) == if IsMessage(roles, item) then Some(MessageOf(roles, item)) else None
  {
  }

  lemma {:induction false} ParseConcat(roles: set<string>, a: seq<Json>, b: seq<Json>)
    ensures ParseMessages(roles, a + b) == ParseMessages(roles, a) + ParseMessages(roles, b)
    decreases |a|
  {
    if a == [] {
      assert a + b == b;
    } else {
      assert (a + b)[0] == a[0] && (a + b)[1..] == a[1..] + b;
      ParseConcat(roles, a[1..], b);
    }
  }

  /** Reading messages goes item by item: what is a message is read as it stands, and what is none is skipped. */
  lemma ParsesItemByItem(roles: set<string>, before: seq<Json>, item: Json, after: seq<Json>)
    ensures ParseMessages(roles, before + [item] + after) ==
      ParseMessages(roles, before) + (if IsMessage(roles, item) then [MessageOf(roles, item)] else [])
      + ParseMessages(roles, after)
  {
    OneItemParses(roles, item);
    ParseConcat(roles, before, [item]);
    ParseConcat(roles, before + [item], after);
    assert [item][1..] == [];
    assert ParseMessages(roles, [item]) == if IsMessage(roles, item) then [MessageOf(roles, item)] else [];
  }

  // ---- Loading ----

  /** `read_conversation_file`. */
  function ReadConversation(doc: Doc): Option<(string, seq<Json>)> {
    if doc.Unreadable? then None
    else
      match (Field(doc.value, "key"), Field(doc.value, "messages"))
      case (Some(Str(key)), Some(Arr(items))) => Some((key, items))
      case _ => None
  }

  /** Reading the files of `listing` in order; a later file replaces an earlier one for its key. */
  function LoadDir(roles: set<string>, dir: map<string, Doc>, listing: seq<string>): Cache
    decreases |listing|
  {
    if listing == [] then Empty()
    else
      var before := LoadDir(roles, dir, listing[..|listing| - 1]);
      var name := listing[|listing| - 1];
      var read := if name in dir then ReadConversation(dir[name]) else None;
      if read.Some? then before.Put(read.value.0, ParseMessages(roles, read.value.1)) else before
  }

  /** The conversations a legacy file lists: its "history" object, or the file itself. */
  function LegacyData(value: Json): OrderedDict<Json> {
    var data := match Field(value, "history") case Some(j) => j case None => value;
    if value.Obj? && data.Obj? then data.fields else Empty()
  }

  /** Adding the legacy conversations that are not already loaded. */
  function AddLegacy(roles: set<string>, data: OrderedDict<Json>, keys: seq<string>, convs: Cache): Cache
    decreases |keys|
  {
    if keys == [] then convs
    else
      var before := AddLegacy(roles, data, keys[..|keys| - 1], convs);
      var key := keys[|keys| - 1];
      if key in data.at && data.at[key].Arr? && key !in before.at
      then before.Put(key, ParseMessages(roles, data.at[key].items))
      else before
  }

  /** `load_legacy_history_file`: an unreadable file also drops what was loaded before it. */
  function LoadLegacy(roles: set<string>, legacy: Option<Doc>, convs: Cache): Cache {
    match legacy
    case None => convs
    case Some(Unreadable) => Empty()
    case Some(Parsed(value)) => AddLegacy(roles, LegacyData(value), LegacyData(value).order, convs)
  }

  /** What is loaded of the directory's `cap` newest files and of the legacy file; `listing` names the
      files, oldest first. */
  function LoadAll(cap: nat, roles: set<string>, folder: Folder, listing: seq<string>): Cache {
    var fromDir := if folder.dir.Some? then LoadDir(roles, folder.dir.value, LastN(listing, cap)) else Empty();
    LoadLegacy(roles, folder.legacy, fromDir)
  }

  /** `load_history_state`. */
  function Load(cap: nat, roles: set<string>, folder: Folder, listing: seq<string>): Cache {
    Evict(cap, LoadAll(cap, roles, folder, listing))
  }

  /** A legacy file lists its conversations under "history" or at the top. */
  lemma LegacyDataIs(fields: OrderedDict<Json>, data: OrderedDict<Json>)
    ensures "history" !in fields.at ==> LegacyData(Obj(fields)) == fields
    ensures "history" in fields.at && fields.at["history"] == Obj(data) ==> LegacyData(Obj(fields)) == data
    ensures "history" in fields.at && !fields.at["history"].Obj? ==> LegacyData(Obj(fields)) == Empty()
  {
  }

  // ---- What a well-formed folder holds ----

  /** Every file is readable and named after the conversation it holds. */
  ghost predicate WellFormed(n: Naming, folder: Folder) {
    && (folder.dir.Some? ==> forall name :: name in folder.dir.value ==>
          && ReadConversation(folder.dir.value[name]).Some?
          && n.filename(ReadConversation(folder.dir.value[name]).value.0) == name)
    && (folder.legacy.Some? ==> folder.legacy.value.Parsed? && LegacyData(folder.legacy.value.value).Valid())
  }

  function InDir(n: Naming, folder: Folder, key: string): Option<seq<Entry>> {
    if folder.dir.Some? && n.filename(key) in folder.dir.value then
      var read := ReadConversation(folder.dir.value[n.filename(key)]);
      if read.Some? && read.value.0 == key then Some(ParseMessages(n.roles, read.value.1)) else None
    else None
  }

  function InLegacy(n: Naming, folder: Folder, key: string): Option<seq<Entry>> {
    if folder.legacy.Some? && folder.legacy.value.Parsed? then
      var data := LegacyData(folder.legacy.value.value);
      if key in data.at && data.at[key].Arr? then Some(ParseMessages(n.roles, data.at[key].items)) else None
    else None
  }

  /** What the folder holds for a conversation: its own file wins over the legacy file. */
  function Stored(n: Naming, folder: Folder, key: string): Option<seq<Entry>> {
    if InDir(n, folder, key).Some? then InDir(n, folder, key) else InLegacy(n, folder, key)
  }

  /** `listing` names every file of the directory once. */
  ghost predicate Lists(folder: Folder, listing: seq<string>) {
    Distinct(listing) && forall name :: name in listing <==> folder.dir.Some? && name in folder.dir.value
  }

  /** All conversations of the folder are among `keys`. */
  ghost predicate Covers(n: Naming, folder: Folder, keys: set<string>) {
    forall k :: Stored(n, folder, k).Some? ==> k in keys
  }

  lemma {:induction false} LoadDirHolds(n: Naming, folder: Folder, listing: seq<string>)
    requires Injective(n) && WellFormed(n, folder) && folder.dir.Some?
    requires Distinct(listing) && forall name :: name in listing ==> name in folder.dir.value
    ensures var r := LoadDir(n.roles, folder.dir.value, listing);
      && r.Valid() && |r.order| == |listing|
      && forall k :: if n.filename(k) in listing && InDir(n, folder, k).Some?
                     then k in r.at && r.at[k] == InDir(n, folder, k).value else k !in r.at
    decreases |listing|
  {
    if listing != [] {
      var before, name := listing[..|listing| - 1], listing[|listing| - 1];
      assert listing == before + [name];
      assert name !in before;
      LoadDirHolds(n, folder, before);
      var read := ReadConversation(folder.dir.value[name]).value;
      assert n.filename(read.0) == name;
      PutValid(LoadDir(n.roles, folder.dir.value, before), read.0, ParseMessages(n.roles, read.1));
    }
  }

  lemma {:induction false} AddLegacyHolds(roles: set<string>, data: OrderedDict<Json>, keys: seq<string>, convs: Cache)
    requires convs.Valid()
    ensures var r := AddLegacy(roles, data, keys, convs);
      && r.Valid()
      && forall k :: if k in convs.at then k in r.at && r.at[k] == convs.at[k]
                     else if k in keys && k in data.at && data.at[k].Arr?
                     then k in r.at && r.at[k] == ParseMessages(roles, data.at[k].items)
                     else k !in r.at
    decreases |keys|
  {
    if keys != [] {
      var before, key := keys[..|keys| - 1], keys[|keys| - 1];
      assert keys == before + [key];
      AddLegacyHolds(roles, data, before, convs);
    }
  }

  lemma {:induction false} DistinctSize(s: seq<string>, keys: set<string>)
    requires Distinct(s) && forall k :: k in s ==> k in keys
    ensures |s| <= |keys|
    decreases |s|
  {
    if s != [] {
      var last := s[|s| - 1];
      var init := s[..|s| - 1];
      assert s == init + [last];
      assert last !in init;
      assert forall k :: k in init ==> k in keys - {last};
      DistinctSize(init, keys - {last});
    }
  }

  /** The conversations loaded from the directory, all of them if they are within the cap. */
  lemma DirLoads(cap: nat, n: Naming, folder: Folder, listing: seq<string>, keys: set<string>)
    requires Injective(n) && WellFormed(n, folder) && Lists(folder, listing) && folder.dir.Some?
    requires Covers(n, folder, keys) && |keys| <= cap
    ensures var fromDir := LoadDir(n.roles, folder.dir.value, LastN(listing, cap));
      && fromDir.Valid()
      && forall k :: if InDir(n, folder, k).Some? then k in fromDir.at && fromDir.at[k] == InDir(n, folder, k).value
                     else k !in fromDir.at
  {
    var fromDir := LoadDir(n.roles, folder.dir.value, listing);
    LoadDirHolds(n, folder, listing);
    forall k ensures InDir(n, folder, k).Some? ==> n.filename(k) in listing {
    }
    forall k | k in fromDir.order ensures k in keys {
      assert k in fromDir.at;
      assert Stored(n, folder, k).Some?;
    }
    DistinctSize(fromDir.order, keys);
    assert LastN(listing, cap) == listing;
  }

  /** The agent loads exactly what a well-formed folder holds, as long as the cap allows. */
  lemma LoadsWhatIsStored(cap: nat, n: Naming, folder: Folder, listing: seq<string>, keys: set<string>)
    requires Injective(n) && WellFormed(n, folder) && Lists(folder, listing)
    requires Covers(n, folder, keys) && |keys| <= cap
    ensures var r := Load(cap, n.roles, folder, listing);
      && r.Valid()
      && forall k :: if Stored(n, folder, k).Some? then k in r.at && r.at[k] == Stored(n, folder, k).value
                     else k !in r.at
  {
    var fromDir := if folder.dir.Some? then LoadDir(n.roles, folder.dir.value, LastN(listing, cap)) else Empty();
    if folder.dir.Some? {
      DirLoads(cap, n, folder, listing, keys);
    }
    var all := LoadLegacy(n.roles, folder.legacy, fromDir);
    if folder.legacy.Some? {
      var data := LegacyData(folder.legacy.value.value);
      AddLegacyHolds(n.roles, data, data.order, fromDir);
    }
    forall k | k in all.order ensures k in keys {
      assert k in all.at;
      assert Stored(n, folder, k).Some?;
    }
    DistinctSize(all.order, keys);
  }

  // ---- Over the cap ----

  /** The conversations of the files `names`, in that order. */
  function FileKeys(dir: map<string, Doc>, names: seq<string>): seq<string> {
    if names == [] then []
    else
      var name := names[|names| - 1];
      var read := if name in dir then ReadConversation(dir[name]) else None;
      FileKeys(dir, names[..|names| - 1]) + if read.Some? then [read.value.0] else []
  }

  /** Those of `keys` that the legacy file lists and that are not `taken`, in that order. */
  function LegacyOnly(data: OrderedDict<Json>, keys: seq<string>, taken: seq<string>): seq<string> {
    if keys == [] then []
    else
      var key := keys[|keys| - 1];
      LegacyOnly(data, keys[..|keys| - 1], taken)
      + if key in data.at && data.at[key].Arr? && key !in taken then [key] else []
  }

  /** The conversations of the directory's `cap` newest files. */
  function NewestKeys(cap: nat, folder: Folder, listing: seq<string>): seq<string> {
    if folder.dir.Some? then FileKeys(folder.dir.value, LastN(listing, cap)) else []
  }

  /** The conversations that only the legacy file holds, next to those. */
  function OldKeys(cap: nat, folder: Folder, listing: seq<string>): seq<string> {
    if folder.legacy.Some? && folder.legacy.value.Parsed? then
      var data := LegacyData(folder.legacy.value.value);
      LegacyOnly(data, data.order, NewestKeys(cap, folder, listing))
    else []
  }

  lemma {:induction false} LoadDirOrder(n: Naming, folder: Folder, listing: seq<string>)
    requires Injective(n) && WellFormed(n, folder) && folder.dir.Some?
    requires Distinct(listing) && forall name :: name in listing ==> name in folder.dir.value
    ensures LoadDir(n.roles, folder.dir.value, listing).order == FileKeys(folder.dir.value, listing)
    decreases |listing|
  {
    if listing != [] {
      var before, name := listing[..|listing| - 1], listing[|listing| - 1];
      assert listing == before + [name];
      assert name !in before;
      LoadDirOrder(n, folder, before);
      LoadDirHolds(n, folder, before);
      var read := ReadConversation(folder.dir.value[name]).value;
      assert n.filename(read.0) == name;
    }
  }

  lemma {:induction false} AddLegacyOrder(roles: set<string>, data: OrderedDict<Json>, keys: seq<string>, convs: Cache)
    requires convs.Valid() && Distinct(keys)
    ensures AddLegacy(roles, data, keys, convs).order == convs.order + LegacyOnly(data, keys, convs.order)
    decreases |keys|
  {
    if keys != [] {
      var before, key := keys[..|keys| - 1], keys[|keys| - 1];
      assert keys == before + [key];
      assert key !in before;
      AddLegacyOrder(roles, data, before, convs);
      AddLegacyHolds(roles, data, before, convs);
    }
  }

  /** What is loaded of the directory of a well-formed folder of any size. */
  lemma NewestLoaded(cap: nat, n: Naming, folder: Folder, listing: seq<string>) returns (fromDir: Cache)
    requires Injective(n) && WellFormed(n, folder) && Lists(folder, listing)
    ensures fromDir.Valid() && fromDir.order == NewestKeys(cap, folder, listing)
    ensures LoadAll(cap, n.roles, folder, listing) == LoadLegacy(n.roles, folder.legacy, fromDir)
    ensures forall k :: k in fromDir.at ==> Some(fromDir.at[k]) == InDir(n, folder, k)
  {
    var names := LastN(listing, cap);
    fromDir := if folder.dir.Some? then LoadDir(n.roles, folder.dir.value, names) else Empty();
    if folder.dir.Some? {
      assert forall name :: name in names ==> name in listing;
      LoadDirHolds(n, folder, names);
      LoadDirOrder(n, folder, names);
    }
  }

  /** What is loaded before anything is evicted. */
  lemma LoadedBeforeEviction(cap: nat, n: Naming, folder: Folder, listing: seq<string>)
    requires Injective(n) && WellFormed(n, folder) && Lists(folder, listing)
    ensures var all, newest := LoadAll(cap, n.roles, folder, listing), NewestKeys(cap, folder, listing);
      && all.Valid() && all.order == newest + OldKeys(cap, folder, listing)
      && forall k :: k in all.at ==>
           Some(all.at[k]) == if k in newest then InDir(n, folder, k) else InLegacy(n, folder, k)
  {
    var fromDir := NewestLoaded(cap, n, folder, listing);
    if folder.legacy.Some? {
      var data := LegacyData(folder.legacy.value.value);
      AddLegacyHolds(n.roles, data, data.order, fromDir);
      AddLegacyOrder(n.roles, data, data.order, fromDir);
    } else {
      assert fromDir.order + [] == fromDir.order;
    }
  }

  /** From a well-formed folder of any size the agent loads the last `cap` of these conversations: those of
      the directory's `cap` newest files, oldest first, and then those only the legacy file holds. Each has
      what its file holds, or the legacy file for those it alone holds. */
  lemma LoadsNewest(cap: nat, n: Naming, folder: Folder, listing: seq<string>)
    requires Injective(n) && WellFormed(n, folder) && Lists(folder, listing)
    ensures var r, newest := Load(cap, n.roles, folder, listing), NewestKeys(cap, folder, listing);
      && r.Valid() && r.order == LastN(newest + OldKeys(cap, folder, listing), cap) && |r.order| <= cap
      && forall k :: k in r.at ==> Some(r.at[k]) == if k in newest then InDir(n, folder, k) else InLegacy(n, folder, k)
  {
    var all := LoadAll(cap, n.roles, folder, listing);
    LoadedBeforeEviction(cap, n, folder, listing);
    EvictKeepsNewest(cap, all);
  }

  /** So over the cap the conversations of the directory go first: one of them is loaded exactly if as many
      of them as follow it, and all that only the legacy file holds, leave room for it. */
  lemma LegacyOutlivesDirectory(cap: nat, n: Naming, folder: Folder, listing: seq<string>, i: nat)
    requires Injective(n) && WellFormed(n, folder) && Lists(folder, listing)
    requires i < |NewestKeys(cap, folder, listing)|
    ensures var newest, others := NewestKeys(cap, folder, listing), OldKeys(cap, folder, listing);
      newest[i] in Load(cap, n.roles, folder, listing).at <==> |newest| - i + |others| <= cap
  {
    var all := LoadAll(cap, n.roles, folder, listing);
    LoadedBeforeEviction(cap, n, folder, listing);
    EvictKeepsNewest(cap, all);
    var newest, r := NewestKeys(cap, folder, listing), Load(cap, n.roles, folder, listing);
    assert all.order[i] == newest[i];
    LastNHas(all.order, cap, i);
    assert newest[i] in r.at <==> newest[i] in r.order;
  }

  lemma LastNHas(s: seq<string>, cap: nat, i: nat)
    requires Distinct(s) && i < |s|
    ensures s[i] in LastN(s, cap) <==> |s| - i <= cap
  {
    var r := LastN(s, cap);
    assert forall j :: 0 <= j < |r| ==> r[j] == s[j + (|s| - |r|)];
    if |s| - i <= cap {
      assert r[i - (|s| - |r|)] == s[i];
    }
  }
}
