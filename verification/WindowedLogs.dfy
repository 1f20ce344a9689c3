/** The store that trims against one that never does. */
module WindowedLogs {
  import opened OrderedDicts
  import opened HistoryWindow
  import opened Conversations

  /** The cache `w` holds the trimmed window of every log in `logs`. */
  ghost predicate Windows(limits: Limits, w: Cache, logs: Cache) {
    && w.order == logs.order
    && (forall k :: k in w.at <==> k in logs.at)
    && forall k :: k in logs.at ==> w.at[k] == Trim(limits, logs.at[k])
  }

  lemma {:induction false} EvictWindows(limits: Limits, cap: nat, w: Cache, logs: Cache)
    requires Windows(limits, w, logs)
    ensures Windows(limits, Evict(cap, w), Evict(cap, logs))
    decreases |w.order|
  {
    if |w.order| > cap {
      EvictWindows(limits, cap, w.PopOldest(), logs.PopOldest());
    }
  }

  lemma AccessWindows(limits: Limits, cap: nat, w: Cache, logs: Cache, key: Key)
    requires Windows(limits, w, logs)
    ensures Windows(limits, Access(cap, w, key), Access(cap, logs, key))
  {
    if key !in w.at {
      assert Trim(limits, []) == [];
      EvictWindows(limits, cap, w.Put(key, []), logs.Put(key, []));
    }
  }

  lemma ApplyWindows(limits: Limits, cap: nat, w: Cache, logs: Cache, op: Op)
    requires Windows(limits, w, logs)
    ensures Windows(limits, Apply(cap, Window(limits), w, op), Apply(cap, Everything(), logs, op))
  {
    assert Trim(limits, []) == [];
    if !op.Clear? {
      AccessWindows(limits, cap, w, logs, op.key);
      if op.Append? {
        var log := Access(cap, logs, op.key);
        TrimThenAppend(limits, if op.key in log.at then log.at[op.key] else [], op.added);
      }
    }
  }

  /** The store refines one that never trims: after any run both hold the same conversations
      in the same order, and each stored one is the trimmed window of the full one. */
  lemma {:induction false} WindowedRunRefinesLogs(limits: Limits, cap: nat, ops: seq<Op>)
    ensures Windows(limits, Run(cap, Window(limits), Empty(), ops), Run(cap, Everything(), Empty(), ops))
  {
    if ops != [] {
      var before := ops[..|ops| - 1];
      WindowedRunRefinesLogs(limits, cap, before);
      ApplyWindows(limits, cap, Run(cap, Window(limits), Empty(), before), Run(cap, Everything(), Empty(), before),
                   ops[|ops| - 1]);
    }
  }

  /** So over any run a conversation that the store holds is the trimmed window of everything appended to it
      since it was last cleared or dropped, and one it does not hold has nothing left to keep. */
  lemma HoldsTrimmedSaid(limits: Limits, cap: nat, ops: seq<Op>, k: Key)
    requires cap >= 1
    ensures var r := Run(cap, Window(limits), Empty(), ops);
      && (k in r.at <==> k in KeysHeld(cap, ops))
      && (if k in r.at then r.at[k] else []) == Trim(limits, Said(cap, ops, k))
  {
    WindowedRunRefinesLogs(limits, cap, ops);
    HoldsWhatWasSaid(cap, ops, k);
    assert Trim(limits, []) == [];
  }
}
