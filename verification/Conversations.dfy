/** The conversations the agent keeps in memory, as a function of the operations performed:
    an LRU map whose entries are trimmed windows (`get_history`, `evict_excess_conversations`,
    and the mutators of the agent). */
module Conversations {
  import opened OrderedDicts
  import opened HistoryWindow
  import opened RecentKeys

  type Key = string
  type Cache = OrderedDict<seq<Entry>>

  // ---- The store as a function of its operations ----

  /** Drop the oldest conversations beyond the cap. */
  function Evict<V>(cap: nat, convs: OrderedDict<V>): OrderedDict<V>
    decreases |convs.order|
  {
    if |convs.order| > cap then Evict(cap, convs.PopOldest()) else convs
  }

  /** `get_history`: refresh a known key, or create it empty and evict. */
  function Access<V>(cap: nat, convs: OrderedDict<seq<V>>, key: Key): OrderedDict<seq<V>> {
    if key in convs.at then convs.Touch(key) else Evict(cap, convs.Put(key, []))
  }

  /** The operations the agent performs on the store. */
  datatype Op =
    | Get(key: Key)                          // get_history
    | Append(key: Key, added: seq<Entry>)    // observe, record_assistant_message, persist_turn
    | Clear(key: Key)                        // clear_history

  /** `keep` is what trimming makes of a conversation: the window, or everything. */
  function Apply(cap: nat, keep: seq<Entry> -> seq<Entry>, convs: Cache, op: Op): Cache {
    match op
    case Get(key) => Access(cap, convs, key)
    case Append(key, added) =>
      var seen := Access(cap, convs, key);
      seen.Put(key, keep((if key in seen.at then seen.at[key] else []) + added))
    case Clear(key) => convs.Put(key, [])
  }

  function Run(cap: nat, keep: seq<Entry> -> seq<Entry>, convs: Cache, ops: seq<Op>): Cache {
    if ops == [] then convs else Apply(cap, keep, Run(cap, keep, convs, ops[..|ops| - 1]), ops[|ops| - 1])
  }

  function Window(limits: Limits): seq<Entry> -> seq<Entry> {
    entries => Trim(limits, entries)
  }

  function Everything(): seq<Entry> -> seq<Entry> {
    entries => entries
  }

  // ---- Eviction ----

  lemma {:induction false} EvictKeepsNewest<V>(cap: nat, convs: OrderedDict<V>)
    requires convs.Valid()
    ensures var r := Evict(cap, convs);
      && r.Valid() && r.order == LastN(convs.order, cap)
      && forall k :: k in r.at ==> k in convs.at && r.at[k] == convs.at[k]
    decreases |convs.order|
  {
    if |convs.order| > cap {
      var popped := convs.PopOldest();
      EvictKeepsNewest(cap, popped);
      LastNTail(convs.order, cap);
    }
  }

  lemma AccessFacts<V>(cap: nat, convs: OrderedDict<seq<V>>, key: Key)
    requires convs.Valid() && cap >= 1
    ensures var r := Access(cap, convs, key);
      && r.Valid() && key in r.at
      && r.at[key] == (if key in convs.at then convs.at[key] else [])
      && (forall k :: k in r.at ==> k == key || (k in convs.at && r.at[k] == convs.at[k]))
      && (|convs.order| <= cap ==> |r.order| <= cap)
  {
    if key in convs.at {
      TouchValid(convs, key);
    } else {
      PutValid(convs, key, []);
      EvictKeepsNewest(cap, convs.Put(key, []));
      var r := Evict(cap, convs.Put(key, []));
      assert r.order[|r.order| - 1] == key;
    }
  }

  lemma ApplyValid(cap: nat, keep: seq<Entry> -> seq<Entry>, convs: Cache, op: Op)
    requires convs.Valid() && cap >= 1
    ensures Apply(cap, keep, convs, op).Valid()
  {
    match op
    case Get(key) => AccessFacts(cap, convs, key);
    case Append(key, added) => AccessFacts(cap, convs, key);
    case Clear(key) =>
  }

  lemma {:induction false} RunValid(cap: nat, keep: seq<Entry> -> seq<Entry>, convs: Cache, ops: seq<Op>)
    requires convs.Valid() && cap >= 1
    ensures Run(cap, keep, convs, ops).Valid()
  {
    if ops != [] {
      RunValid(cap, keep, convs, ops[..|ops| - 1]);
      ApplyValid(cap, keep, Run(cap, keep, convs, ops[..|ops| - 1]), ops[|ops| - 1]);
    }
  }

  // ---- The store keeps the most recently used conversations ----

  /** One access moves the last `cap` keys of a recency list exactly as it moves the list. */
  lemma AccessTracksRecency(cap: nat, convs: Cache, key: Key, recency: seq<Key>)
    requires convs.Valid() && cap >= 1 && Distinct(recency) && convs.order == LastN(recency, cap)
    ensures Access(cap, convs, key).order == LastN(Without(recency, key) + [key], cap)
  {
    UseMoves(cap, convs.order, recency, key);
    assert key in convs.at <==> key in convs.order;
    if key !in convs.at {
      PutValid(convs, key, []);
      EvictKeepsNewest(cap, convs.Put(key, []));
    }
  }

  function Keys(ops: seq<Op>): seq<Key> {
    seq(|ops|, i requires 0 <= i < |ops| => ops[i].key)
  }

  /** After any run of reads and appends the store holds the last `cap` distinct keys used, in
      order of last use. */
  lemma {:induction false} RetainsMostRecent(cap: nat, keep: seq<Entry> -> seq<Entry>, ops: seq<Op>)
    requires cap >= 1 && forall i :: 0 <= i < |ops| ==> !ops[i].Clear?
    ensures Run(cap, keep, Empty(), ops).order == LastN(Recency(Keys(ops)), cap)
  {
    if ops != [] {
      var before, op := ops[..|ops| - 1], ops[|ops| - 1];
      RetainsMostRecent(cap, keep, before);
      RunValid(cap, keep, Empty(), before);
      RecencyMeans(Keys(before));
      assert Keys(ops)[..|ops| - 1] == Keys(before);
      var convs := Run(cap, keep, Empty(), before);
      AccessTracksRecency(cap, convs, op.key, Recency(Keys(before)));
      AccessFacts(cap, convs, op.key);
    }
  }

  /** The keys held after `ops`, oldest first, as the trace alone tells: using a known key moves it to the
      end, and a new one goes there, a read or an append then dropping all but the last `cap`. */
  function KeysHeld(cap: nat, ops: seq<Op>): seq<Key> {
    if ops == [] then []
    else
      var held, op := KeysHeld(cap, ops[..|ops| - 1]), ops[|ops| - 1];
      if op.key in held then if op.Clear? then held else Without(held, op.key) + [op.key]
      else if op.Clear? then held + [op.key]
      else LastN(held + [op.key], cap)
  }

  /** Everything appended to `k` since it was last cleared or dropped. */
  function Said(cap: nat, ops: seq<Op>, k: Key): seq<Entry> {
    if ops == [] || k !in KeysHeld(cap, ops) then []
    else
      var before, op := ops[..|ops| - 1], ops[|ops| - 1];
      if op.key != k || op.Get? then Said(cap, before, k)
      else if op.Clear? then []
      else Said(cap, before, k) + op.added
  }

  /** The keys used; clearing a key that is held does not count, as it leaves the key in its place. */
  function Uses(cap: nat, ops: seq<Op>): seq<Key> {
    if ops == [] then []
    else
      var before, op := ops[..|ops| - 1], ops[|ops| - 1];
      Uses(cap, before) + if op.Clear? && op.key in KeysHeld(cap, before) then [] else [op.key]
  }

  /** The clears that inserted their key since a read or an append last did. */
  function Overhang(cap: nat, ops: seq<Op>): nat {
    if ops == [] then 0
    else
      var before, op := ops[..|ops| - 1], ops[|ops| - 1];
      if op.key in KeysHeld(cap, before) then Overhang(cap, before)
      else if op.Clear? then Overhang(cap, before) + 1
      else 0
  }

  lemma ApplyOrder(cap: nat, keep: seq<Entry> -> seq<Entry>, convs: Cache, op: Op)
    requires convs.Valid() && cap >= 1
    ensures Apply(cap, keep, convs, op).order ==
      if op.key in convs.order then if op.Clear? then convs.order else Without(convs.order, op.key) + [op.key]
      else if op.Clear? then convs.order + [op.key]
      else LastN(convs.order + [op.key], cap)
  {
    if !op.Clear? {
      AccessFacts(cap, convs, op.key);
      if op.key !in convs.at {
        PutValid(convs, op.key, []);
        EvictKeepsNewest(cap, convs.Put(op.key, []));
      }
    }
  }

  /** After any run the store holds the keys that the trace tells. */
  lemma {:induction false} RunHoldsKeys(cap: nat, keep: seq<Entry> -> seq<Entry>, ops: seq<Op>)
    requires cap >= 1
    ensures Run(cap, keep, Empty(), ops).order == KeysHeld(cap, ops)
  {
    if ops != [] {
      var before := ops[..|ops| - 1];
      RunHoldsKeys(cap, keep, before);
      RunValid(cap, keep, Empty(), before);
      ApplyOrder(cap, keep, Run(cap, keep, Empty(), before), ops[|ops| - 1]);
    }
  }

  lemma ApplyContent(cap: nat, convs: Cache, op: Op, k: Key)
    requires convs.Valid() && cap >= 1 && k in Apply(cap, Everything(), convs, op).at
    ensures var before := if k in convs.at then convs.at[k] else [];
      Apply(cap, Everything(), convs, op).at[k] ==
        if op.key != k || op.Get? then before else if op.Clear? then [] else before + op.added
  {
    if !op.Clear? {
      AccessFacts(cap, convs, op.key);
    }
  }

  /** A store that never trims holds, of each conversation, everything appended to it since it was last
      cleared or dropped. */
  lemma {:induction false} HoldsWhatWasSaid(cap: nat, ops: seq<Op>, k: Key)
    requires cap >= 1
    ensures var r := Run(cap, Everything(), Empty(), ops);
      && (k in r.at <==> k in KeysHeld(cap, ops))
      && (if k in r.at then r.at[k] else []) == Said(cap, ops, k)
  {
    RunHoldsKeys(cap, Everything(), ops);
    RunValid(cap, Everything(), Empty(), ops);
    if ops != [] {
      var before := ops[..|ops| - 1];
      HoldsWhatWasSaid(cap, before, k);
      RunValid(cap, Everything(), Empty(), before);
      if k in Run(cap, Everything(), Empty(), ops).at {
        ApplyContent(cap, Run(cap, Everything(), Empty(), before), ops[|ops| - 1], k);
      }
    }
  }

  /** The store holds the most recently used keys in order of last use. */
  predicate HoldsLast(order: seq<Key>, recency: seq<Key>) {
    order == LastN(recency, |order|)
  }

  lemma ClearTracksRecency(convs: Cache, key: Key, recency: seq<Key>)
    requires convs.Valid() && Distinct(recency) && HoldsLast(convs.order, recency) && key !in convs.at
    ensures HoldsLast(convs.order + [key], Without(recency, key) + [key])
  {
    var s := convs.order;
    var p := recency[..|recency| - |s|];
    assert recency == p + s;
    WithoutConcat(p, s, key);
    WithoutFacts(s, key);
    assert Without(p, key) + s + [key] == Without(p, key) + (s + [key]);
    LastNOfConcat(Without(p, key), s + [key]);
  }

  lemma KnownTracksRecency(cap: nat, convs: Cache, key: Key, recency: seq<Key>)
    requires convs.Valid() && Distinct(recency) && HoldsLast(convs.order, recency) && key in convs.at
    ensures var r := Access(cap, convs, key).order;
      HoldsLast(r, Without(recency, key) + [key]) && |r| == |convs.order|
  {
    assert key in convs.order;
    UseMoves(|convs.order|, convs.order, recency, key);
    WithoutLength(convs.order, key);
  }

  lemma NewTracksRecency(cap: nat, convs: Cache, key: Key, recency: seq<Key>)
    requires convs.Valid() && Distinct(recency) && HoldsLast(convs.order, recency) && key !in convs.at
    ensures var r := Access(cap, convs, key).order;
      HoldsLast(r, Without(recency, key) + [key]) && |r| <= cap
  {
    PutValid(convs, key, []);
    EvictKeepsNewest(cap, convs.Put(key, []));
    ClearTracksRecency(convs, key, recency);
    LastNOfLastN(Without(recency, key) + [key], |convs.order| + 1, cap);
  }

  lemma ApplyTracksRecency(cap: nat, keep: seq<Entry> -> seq<Entry>, convs: Cache, op: Op, recency: seq<Key>)
    requires convs.Valid() && cap >= 1 && Distinct(recency) && HoldsLast(convs.order, recency)
    ensures var r := Apply(cap, keep, convs, op).order;
      && HoldsLast(r, if op.Clear? && op.key in convs.at then recency else Without(recency, op.key) + [op.key])
      && (if op.key in convs.at then |r| == |convs.order|
          else if op.Clear? then |r| == |convs.order| + 1 else |r| <= cap)
  {
    if op.Clear? {
      if op.key !in convs.at {
        ClearTracksRecency(convs, op.key, recency);
      }
    } else {
      AccessFacts(cap, convs, op.key);
      if op.key in convs.at {
        KnownTracksRecency(cap, convs, op.key, recency);
      } else {
        NewTracksRecency(cap, convs, op.key, recency);
      }
    }
  }

  lemma RecencyOfUse(uses: seq<Key>, key: Key)
    ensures Recency(uses + [key]) == Without(Recency(uses), key) + [key]
  {
    assert (uses + [key])[..|uses|] == uses;
  }

  lemma UsesStep(cap: nat, before: seq<Op>, op: Op)
    ensures var ops, known := before + [op], op.key in KeysHeld(cap, before);
      && Uses(cap, ops) == Uses(cap, before) + (if op.Clear? && known then [] else [op.key])
      && Overhang(cap, ops) == if known then Overhang(cap, before)
                               else if op.Clear? then Overhang(cap, before) + 1 else 0
  {
    var ops := before + [op];
    assert ops[..|ops| - 1] == before && ops[|ops| - 1] == op;
  }

  /** After any run, clears and all, the store holds the most recently used keys, and exceeds its cap by no
      more than the clears that inserted their key since a read or an append last did. */
  lemma {:induction false} HoldsMostRecent(cap: nat, keep: seq<Entry> -> seq<Entry>, ops: seq<Op>)
    requires cap >= 1
    ensures HoldsLast(Run(cap, keep, Empty(), ops).order, Recency(Uses(cap, ops)))
    ensures |Run(cap, keep, Empty(), ops).order| <= cap + Overhang(cap, ops)
  {
    if ops != [] {
      var before, op := ops[..|ops| - 1], ops[|ops| - 1];
      var convs, uses := Run(cap, keep, Empty(), before), Uses(cap, before);
      assert ops == before + [op];
      HoldsMostRecent(cap, keep, before);
      RunValid(cap, keep, Empty(), before);
      RunHoldsKeys(cap, keep, before);
      RecencyMeans(uses);
      UsesStep(cap, before, op);
      RecencyOfUse(uses, op.key);
      ApplyTracksRecency(cap, keep, convs, op, Recency(uses));
      assert uses + [] == uses;
    }
  }

  /** Clearing is the one operation that does not evict: it keeps the cap exactly when the key
      is known or there is room for it. */
  lemma ClearKeepsCapIff(cap: nat, keep: seq<Entry> -> seq<Entry>, convs: Cache, key: Key)
    requires convs.Valid() && |convs.order| <= cap
    ensures |Apply(cap, keep, convs, Clear(key)).order| <= cap <==> key in convs.at || |convs.order| < cap
  {
  }
}
