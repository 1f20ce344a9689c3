/** The conversation store as the agent holds it: two parallel ordered maps, the directory of
    conversation files and the flush bookkeeping, updated in place. */
module AgentHistory {
  import opened Wrappers
  import opened Text
  import opened OrderedDicts
  import opened HistoryWindow
  import opened Conversations
  import opened HistoryFlush

  /** The two maps agree with each other and with `convs`: same keys in the same order, and
      the lists of a key, equally long, pair up to its entries. */
  ghost predicate InStep(h: OrderedDict<seq<Message>>, t: OrderedDict<seq<Option<string>>>, convs: Cache) {
    && h.Valid() && t.Valid() && convs.Valid()
    && h.order == t.order == convs.order
    && forall k :: k in convs.order ==>
         k in h.at && k in t.at && |h.at[k]| == |t.at[k]| && convs.at[k] == Align(h.at[k], t.at[k])
  }

  /** What a completed turn adds to its conversation: the question unless it was not to be stored
      or went unanswered, and the answer unless it was addressed to another conversation. */
  function Turn(stored: string, reply: string, storeUser: bool, delegated: bool, asked: string,
                answered: string): seq<Entry> {
    var question := [Entry(Message("user", stored), Some(asked))];
    var answer := [Entry(Message("assistant", reply), Some(answered))];
    match (reply != "", delegated)
    case (false, false) => []
    case (true, false) => if storeUser then question + answer else answer
    case (_, true) => if storeUser then question else []
  }

  /** The question is recorded exactly if it is to be stored and was answered here or delegated, the answer
      exactly if there is one and it was not delegated; each by its speaker with its own time, the question
      first, and nothing else. So a silent turn records nothing. */
  lemma TurnRecords(stored: string, reply: string, storeUser: bool, delegated: bool, asked: string, answered: string)
    ensures var turn := Turn(stored, reply, storeUser, delegated, asked, answered);
      var asks, answers := storeUser && (reply != "" || delegated), reply != "" && !delegated;
      && |turn| == (if asks then 1 else 0) + (if answers then 1 else 0)
      && (asks ==> turn[0] == Entry(Message("user", stored), Some(asked)))
      && (answers ==> turn[|turn| - 1] == Entry(Message("assistant", reply), Some(answered)))
      && (turn == [] <==> !asks && !answers)
  {
  }

  class HistoryStore {
    const limits: Limits
    var history: OrderedDict<seq<Message>>
    var timestamps: OrderedDict<seq<Option<string>>>
    ghost var contents: Cache
    var files: map<Key, seq<Entry>>
    var legacy: bool
    var dirty: bool
    var dirtyKeys: set<Key>
    var task: FlushTask
    var flight: Option<Flight>

    constructor (limits: Limits)
      ensures this.limits == limits && Aligned() && State() == NEW_AGENT
    {
      this.limits := limits;
      history, timestamps, contents := Empty(), Empty(), Empty();
      files, legacy := map[], false;
      dirty, dirtyKeys, task, flight := false, {}, Idle, None;
    }

    ghost function State(): Agent
      reads this
    {
      Agent(contents, files, legacy, dirty, dirtyKeys, task, flight)
    }

    ghost predicate Valid()
      reads this
    {
      history.Valid() && timestamps.Valid()
    }

    ghost predicate Aligned()
      reads this
    {
      InStep(history, timestamps, contents)
    }

    /** `evict_excess_conversations`. */
    method EvictExcess()
      requires Valid()
      modifies this`history, this`timestamps, this`files
      ensures Valid() && history == Evict(limits.maxConversations, old(history))
      ensures old(timestamps).order == old(history).order ==>
                timestamps == Evict(limits.maxConversations, old(timestamps))
      ensures files == old(files) - (old(history).at.Keys - history.at.Keys)
    {
      assert files - (history.at.Keys - history.at.Keys) == files;
      while |history.order| > limits.maxConversations
        invariant Valid()
        invariant Evict(limits.maxConversations, history) == Evict(limits.maxConversations, old(history))
        invariant old(timestamps).order == old(history).order ==>
                    && timestamps.order == history.order
                    && Evict(limits.maxConversations, timestamps) == Evict(limits.maxConversations, old(timestamps))
        invariant history.at.Keys <= old(history).at.Keys
        invariant files == old(files) - (old(history).at.Keys - history.at.Keys)
        decreases |history.order|
      {
        UnlinkOldest(old(files), old(history), history);
        EvictOldest();
      }
    }

    /** One trip of the eviction loop. */
    method EvictOldest()
      requires Valid() && history.order != []
      modifies this`history, this`timestamps, this`files
      ensures Valid() && history == old(history).PopOldest()
      ensures old(timestamps).order == old(history).order ==> timestamps == old(timestamps).PopOldest()
      ensures files == old(files) - {old(history).order[0]}
    {
      var key := history.order[0];
      RemoveValid(timestamps, key);
      if timestamps.order == history.order {
        RemoveOldest(timestamps, key);
      }
      history := history.PopOldest();
      timestamps := timestamps.Remove(key);
      files := files - {key};
    }

    /** The lookup in `get_history`; the timestamps of a key that lost them are refilled with `None`. */
    method Fetch(key: Key)
      requires Valid() && limits.maxConversations >= 1
      modifies this`history, this`timestamps, this`files
      ensures Valid() && history == Access(limits.maxConversations, old(history), key)
      ensures old(timestamps).order == old(history).order ==>
                timestamps == Access(limits.maxConversations, old(timestamps), key)
      ensures files == old(files) - (old(history).at.Keys - history.at.Keys)
    {
      if key in history.at {
        Retouch(key);
        assert old(history).at.Keys - history.at.Keys == {};
        assert files - {} == files;
      } else {
        Create(key);
      }
    }

    /** The branch of `get_history` for a known key. */
    method Retouch(key: Key)
      requires Valid() && key in history.at
      modifies this`history, this`timestamps
      ensures Valid() && history == old(history).Touch(key)
      ensures old(timestamps).order == old(history).order ==>
                key in old(timestamps).at && timestamps == old(timestamps).Touch(key)
    {
      assert key in history.order;
      assert key in timestamps.at <==> key in timestamps.order;
      TouchValid(history, key);
      history := history.Touch(key);
      if key !in timestamps.at {
        timestamps := timestamps.Put(key, seq(|history.at[key]|, i => None));
      } else {
        TouchValid(timestamps, key);
        timestamps := timestamps.Touch(key);
      }
    }

    /** The branch of `get_history` for a key not seen before. */
    method Create(key: Key)
      requires Valid() && limits.maxConversations >= 1 && key !in history.at
      modifies this`history, this`timestamps, this`files
      ensures Valid() && history == Evict(limits.maxConversations, old(history).Put(key, []))
      ensures old(timestamps).order == old(history).order ==>
                timestamps == Evict(limits.maxConversations, old(timestamps).Put(key, []))
      ensures files == old(files) - (old(history).at.Keys - history.at.Keys)
    {
      assert key in history.at <==> key in history.order;
      assert key in timestamps.at <==> key in timestamps.order;
      PutValid(history, key, []);
      PutValid(timestamps, key, []);
      history := history.Put(key, []);
      timestamps := timestamps.Put(key, []);
      EvictExcess();
      AccessFacts(limits.maxConversations, old(history), key);
      assert old(history).Put(key, []).at.Keys - history.at.Keys == old(history).at.Keys - history.at.Keys;
    }

    /** `get_history` up to the list it returns. */
    method Refresh(key: Key)
      requires Aligned() && limits.maxConversations >= 1
      modifies this`history, this`timestamps, this`contents, this`files
      ensures Aligned() && contents == Access(limits.maxConversations, old(contents), key)
      ensures key in contents.at && key in history.at && key in timestamps.at
      ensures contents.at[key] == Align(history.at[key], timestamps.at[key])
      ensures files == old(files) - (old(contents).at.Keys - contents.at.Keys)
    {
      InStepAccess(limits.maxConversations, history, timestamps, contents, key);
      Fetch(key);
      contents := Access(limits.maxConversations, contents, key);
      assert key in contents.order;
    }

    /** `get_history`. */
    method GetHistory(key: Key) returns (messages: seq<Message>)
      requires Aligned() && limits.maxConversations >= 1
      modifies this`history, this`timestamps, this`contents, this`files
      ensures Aligned() && State() == MutateStep(limits, old(State()), Get(key))
      ensures key in contents.at && |messages| == |contents.at[key]|
      ensures forall i :: 0 <= i < |messages| ==> messages[i] == contents.at[key][i].message
    {
      Refresh(key);
      messages := history.at[key];
    }

    /** `trim_history` of one conversation. */
    method TrimConversation(key: Key)
      requires Valid()
      modifies this`history, this`timestamps
      ensures Valid() && key in history.at && key in timestamps.at
      ensures |history.at[key]| == |timestamps.at[key]|
      ensures history == old(history).Put(key, history.at[key])
      ensures timestamps == old(timestamps).Put(key, timestamps.at[key])
      ensures Align(history.at[key], timestamps.at[key])
           == Trim(limits, Align(if key in old(history).at then old(history).at[key] else [],
                                 if key in old(timestamps).at then old(timestamps).at[key] else []))
    {
      var messages := if key in history.at then history.at[key] else [];
      var stamps := if key in timestamps.at then timestamps.at[key] else [];
      messages, stamps := TrimHistory(limits, messages, stamps);
      PutValid(history, key, messages);
      PutValid(timestamps, key, stamps);
      history := history.Put(key, messages);
      timestamps := timestamps.Put(key, stamps);
    }

    /** The locked section shared by `observe`, `record_assistant_message` and `persist_turn`:
        fetch the conversation, append to both lists, trim. */
    method AppendEntries(key: Key, added: seq<Entry>)
      requires Aligned() && limits.maxConversations >= 1
      modifies this`history, this`timestamps, this`contents, this`files
      ensures Aligned()
      ensures contents == Apply(limits.maxConversations, Window(limits), old(contents), Append(key, added))
      ensures key in contents.at && contents.at[key] == Trim(limits, Held(old(contents).at, key) + added)
      ensures files == old(files) - (old(contents).at.Keys - contents.at.Keys)
    {
      AccessFacts(limits.maxConversations, contents, key);
      Refresh(key);
      ghost var seen := contents;
      AppendTo(key, added);
      assert contents.at.Keys == seen.at.Keys;
    }

    /** Append to the lists of a conversation in memory, then trim them. */
    method AppendTo(key: Key, added: seq<Entry>)
      requires Aligned() && key in contents.at && key in history.at && key in timestamps.at
      modifies this`history, this`timestamps, this`contents
      ensures Aligned() && contents == old(contents).Put(key, Trim(limits, old(contents).at[key] + added))
    {
      ghost var h, t, c := history, timestamps, contents;
      PutValid(history, key, history.at[key] + Messages(added));
      PutValid(timestamps, key, timestamps.at[key] + Stamps(added));
      history := history.Put(key, history.at[key] + Messages(added));
      timestamps := timestamps.Put(key, timestamps.at[key] + Stamps(added));
      TrimConversation(key);
      InStepAppend(limits, h, t, c, key, added, history.at[key], timestamps.at[key]);
      contents := contents.Put(key, Trim(limits, contents.at[key] + added));
    }

    /** `mark_dirty`; without a key, every conversation in memory is marked. */
    method MarkKey(key: Option<Key>)
      modifies this`dirty, this`dirtyKeys, this`task
      ensures key.Some? ==> State() == MarkDirty(old(State()), key.value)
      ensures key.None? ==>
                && dirty && dirtyKeys == old(dirtyKeys) + history.at.Keys
                && task == if old(task) == Idle then Sleeping else old(task)
    {
      dirty := true;
      if key.None? {
        dirtyKeys := dirtyKeys + history.at.Keys;
      } else {
        dirtyKeys := dirtyKeys + {key.value};
      }
      if task == Idle {
        task := Sleeping;
      }
    }

    /** `observe`: `stored` is the message with its speaker header and media summary. */
    method Observe(key: Key, message: string, stored: string, hasMedia: bool, now: string)
      requires Aligned() && limits.maxConversations >= 1
      modifies this
      ensures Aligned()
      ensures State() == if HasText(message) || hasMedia
                         then MutateStep(limits, old(State()), Append(key, [Entry(Message("user", stored), Some(now))]))
                         else old(State())
      ensures HasText(message) || hasMedia ==>
                Held(contents.at, key)
                == Trim(limits, Held(old(contents).at, key) + [Entry(Message("user", stored), Some(now))])
    {
      if !HasText(message) && !hasMedia {
        return;
      }
      AppendEntries(key, [Entry(Message("user", stored), Some(now))]);
      MarkKey(Some(key));
    }

    /** `record_assistant_message`. */
    method RecordAssistantMessage(key: Key, text: string, now: string)
      requires Aligned() && limits.maxConversations >= 1
      modifies this
      ensures Aligned()
      ensures State() == if HasText(text)
                         then MutateStep(limits, old(State()),
                           Append(key, [Entry(Message("assistant", text), Some(now))]))
                         else old(State())
      ensures HasText(text) ==>
                Held(contents.at, key)
                == Trim(limits, Held(old(contents).at, key) + [Entry(Message("assistant", text), Some(now))])
    {
      if !HasText(text) {
        return;
      }
      AppendEntries(key, [Entry(Message("assistant", text), Some(now))]);
      MarkKey(Some(key));
    }

    /** `persist_turn`: a delegated reply is not recorded here, and a silent turn records nothing. */
    method PersistTurn(key: Key, stored: string, reply: string, storeUser: bool, delegated: bool, asked: string,
                       answered: string)
      requires Aligned() && limits.maxConversations >= 1
      modifies this
      ensures Aligned()
      ensures var added := Turn(stored, reply, storeUser, delegated, asked, answered);
        && State() == (if added == [] then old(State()) else MutateStep(limits, old(State()), Append(key, added)))
        && (added != [] ==> Held(contents.at, key) == Trim(limits, Held(old(contents).at, key) + added))
    {
      var saveAssistant := reply != "" && !delegated;
      var saveUser := storeUser && (reply != "" || delegated);
      if !saveUser && !saveAssistant {
        return;
      }
      var added: seq<Entry> := [];
      if saveUser {
        added := added + [Entry(Message("user", stored), Some(asked))];
      }
      if saveAssistant {
        added := added + [Entry(Message("assistant", reply), Some(answered))];
      }
      assert added == Turn(stored, reply, storeUser, delegated, asked, answered);
      AppendEntries(key, added);
      MarkKey(Some(key));
    }

    /** `clear_history`: an unknown key is inserted, and nothing is evicted. */
    method ClearHistory(key: Key)
      requires Aligned()
      modifies this
      ensures Aligned() && State() == MutateStep(limits, old(State()), Clear(key))
    {
      InStepPut(history, timestamps, contents, key, [], []);
      history := history.Put(key, []);
      timestamps := timestamps.Put(key, []);
      contents := contents.Put(key, []);
      MarkKey(Some(key));
      assert old(contents).at.Keys - contents.at.Keys == {};
      assert files - {} == files;
    }

    /** `snapshot_for_flush` and the start of a flush; `listing` is the order in which the
        dirty keys happen to be enumerated. */
    method SnapshotForFlush() returns (listing: seq<Key>)
      requires Aligned() && task != Running && flight.None?
      modifies this`dirty, this`task, this`flight
      ensures Aligned() && Enabled(old(State()), Wake(listing))
      ensures State() == SnapshotStep(old(State()), listing)
    {
      listing := ListKeys();
      if !dirty {
        task := Idle;
        return;
      }
      var keys := if legacy then history.order else listing;
      if keys == [] && !legacy {
        dirty, task := false, Idle;
        return;
      }
      var snapshot := CopyConversations(keys);
      task, flight := Running, Some(Flight(keys, snapshot, legacy, 0, false));
    }

    /** The copies of the lists of `keys` that a snapshot takes. */
    method CopyConversations(keys: seq<Key>) returns (snapshot: map<Key, seq<Entry>>)
      requires Aligned()
      ensures snapshot == map k | k in keys :: Held(contents.at, k)
    {
      snapshot := map[];
      InStepKeys(history, timestamps, contents);
      for i := 0 to |keys|
        invariant forall k :: k in snapshot <==> k in keys[..i]
        invariant forall k :: k in snapshot ==> snapshot[k] == Held(contents.at, k)
      {
        var k := keys[i];
        assert keys[..i + 1] == keys[..i] + [k];
        assert k in history.at ==> k in contents.order;
        snapshot := snapshot[k := if k in history.at then Align(history.at[k], timestamps.at[k]) else []];
      }
      assert keys[..|keys|] == keys;
    }

    method ListKeys() returns (listing: seq<Key>)
      ensures Distinct(listing) && forall k :: k in listing <==> k in dirtyKeys
    {
      listing := [];
      var left := dirtyKeys;
      while left != {}
        invariant Distinct(listing) && left <= dirtyKeys
        invariant forall k :: k in listing <==> k in dirtyKeys && k !in left
        decreases left
      {
        var k :| k in left;
        listing, left := listing + [k], left - {k};
      }
    }

    /** `write_conversation_file` for the next conversation of the flush. */
    method WriteNextFile()
      requires Enabled(State(), WriteNext)
      modifies this`files, this`flight
      ensures State() == WriteStep(old(State()))
    {
      var f := flight.value;
      var k := f.keys[f.done];
      if f.snapshot[k] == [] {
        files := files - {k};
      } else {
        files := files[k := f.snapshot[k]];
      }
      flight := Some(f.(done := f.done + 1));
    }

    /** The second locked section of `flush_once`. */
    method CommitFlush(saved: bool)
      requires flight.Some?
      modifies this`dirty, this`dirtyKeys, this`task, this`flight
      ensures State() == CommitStep(old(State()), saved)
    {
      var keys := flight.value.keys;
      if saved {
        for i := 0 to |keys|
          invariant dirtyKeys == old(dirtyKeys) - (set k | k in keys[..i])
        {
          dirtyKeys := dirtyKeys - {keys[i]};
        }
        assert keys[..|keys|] == keys;
        dirty := dirtyKeys != {};
      } else {
        dirtyKeys := dirtyKeys + (set k | k in keys);
        dirty := true;
      }
      task := if saved && dirty then Sleeping else Idle;
      flight := None;
    }
  }

  /** Deleting the file of the oldest conversation as well keeps the files of those that stay. */
  lemma UnlinkOldest(files: map<Key, seq<Entry>>, before: OrderedDict<seq<Message>>, now: OrderedDict<seq<Message>>)
    requires now.Valid() && now.order != [] && now.at.Keys <= before.at.Keys
    ensures files - (before.at.Keys - now.at.Keys) - {now.order[0]}
         == files - (before.at.Keys - now.PopOldest().at.Keys)
  {
    assert now.order[0] in now.at;
  }

  lemma InStepPut(h: OrderedDict<seq<Message>>, t: OrderedDict<seq<Option<string>>>, convs: Cache,
                  key: Key, messages: seq<Message>, stamps: seq<Option<string>>)
    requires InStep(h, t, convs) && |messages| == |stamps|
    ensures InStep(h.Put(key, messages), t.Put(key, stamps), convs.Put(key, Align(messages, stamps)))
    ensures messages == [] ==> Align(messages, stamps) == []
  {
    PutValid(h, key, messages);
    PutValid(t, key, stamps);
    PutValid(convs, key, Align(messages, stamps));
  }

  lemma {:induction false} InStepEvict(cap: nat, h: OrderedDict<seq<Message>>, t: OrderedDict<seq<Option<string>>>,
                                       convs: Cache)
    requires InStep(h, t, convs)
    ensures InStep(Evict(cap, h), Evict(cap, t), Evict(cap, convs))
    decreases |h.order|
  {
    if |h.order| > cap {
      InStepEvict(cap, h.PopOldest(), t.PopOldest(), convs.PopOldest());
    }
  }

  lemma InStepKeys(h: OrderedDict<seq<Message>>, t: OrderedDict<seq<Option<string>>>, convs: Cache)
    requires InStep(h, t, convs)
    ensures h.at.Keys == t.at.Keys == convs.at.Keys
  {
    forall k ensures k in h.at <==> k in convs.at
             ensures k in t.at <==> k in convs.at
    {
      assert k in h.at <==> k in h.order;
      assert k in t.at <==> k in t.order;
    }
  }

  lemma InStepAccess(cap: nat, h: OrderedDict<seq<Message>>, t: OrderedDict<seq<Option<string>>>, convs: Cache,
                     key: Key)
    requires InStep(h, t, convs) && cap >= 1
    ensures InStep(Access(cap, h, key), Access(cap, t, key), Access(cap, convs, key))
    ensures key in Access(cap, convs, key).at
    ensures h.at.Keys == convs.at.Keys && Access(cap, h, key).at.Keys == Access(cap, convs, key).at.Keys
  {
    InStepKeys(h, t, convs);
    AccessFacts(cap, convs, key);
    if key in convs.at {
      TouchValid(h, key);
      TouchValid(t, key);
      TouchValid(convs, key);
      WithoutFacts(h.order, key);
    } else {
      InStepPut(h, t, convs, key, [], []);
      InStepEvict(cap, h.Put(key, []), t.Put(key, []), convs.Put(key, []));
    }
    InStepKeys(Access(cap, h, key), Access(cap, t, key), Access(cap, convs, key));
  }

  function Messages(entries: seq<Entry>): seq<Message> {
    seq(|entries|, i requires 0 <= i < |entries| => entries[i].message)
  }

  function Stamps(entries: seq<Entry>): seq<Option<string>> {
    seq(|entries|, i requires 0 <= i < |entries| => entries[i].stamp)
  }

  lemma InStepAppend(limits: Limits, h: OrderedDict<seq<Message>>, t: OrderedDict<seq<Option<string>>>, convs: Cache,
                     key: Key, added: seq<Entry>, messages: seq<Message>, stamps: seq<Option<string>>)
    requires InStep(h, t, convs) && key in convs.at && key in h.at && key in t.at && |messages| == |stamps|
    requires Align(messages, stamps) == Trim(limits, Align(h.at[key] + Messages(added), t.at[key] + Stamps(added)))
    ensures InStep(h.Put(key, h.at[key] + Messages(added)).Put(key, messages),
                   t.Put(key, t.at[key] + Stamps(added)).Put(key, stamps),
                   convs.Put(key, Trim(limits, convs.at[key] + added)))
    ensures convs.Put(key, Trim(limits, convs.at[key] + added)).at.Keys == convs.at.Keys
  {
    assert key in convs.order;
    assert Align(h.at[key] + Messages(added), t.at[key] + Stamps(added)) == convs.at[key] + added;
    PutTwice(h, key, h.at[key] + Messages(added), messages);
    PutTwice(t, key, t.at[key] + Stamps(added), stamps);
    InStepPut(h, t, convs, key, messages, stamps);
  }

  lemma PutTwice<V>(d: OrderedDict<V>, key: Key, u: V, v: V)
    ensures d.Put(key, u).Put(key, v) == d.Put(key, v)
  {
    assert d.at[key := u][key := v] == d.at[key := v];
  }

  lemma RemoveOldest<V>(d: OrderedDict<V>, key: Key)
    requires d.Valid() && d.order != [] && d.order[0] == key
    ensures d.Remove(key) == d.PopOldest()
  {
    assert key !in d.order[1..];
    WithoutFacts(d.order[1..], key);
  }
}
