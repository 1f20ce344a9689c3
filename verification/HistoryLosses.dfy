/** Runs in which a flush forgets what happened while it was under way. */
module HistoryLosses {
  import opened Wrappers
  import opened OrderedDicts
  import opened HistoryWindow
  import opened Conversations
  import opened HistoryFlush

  /** The events are all enabled and lead from `a` to `b`. */
  ghost predicate Leads(limits: Limits, a: Agent, events: seq<Event>, b: Agent) {
    EnabledRun(limits, a, events) && Play(limits, a, events) == b
  }

  /** The agent after the first message to `k`: dirty, with the flush to come. */
  function Told(k: Key, said: seq<Entry>): Agent {
    Agent(OrderedDict([k], map[k := said]), map[], false, true, {k}, Sleeping, None)
  }

  /** Its flush after the snapshot, with `convs` by then in memory. */
  function Snapped(k: Key, said: seq<Entry>, convs: Cache): Agent {
    Agent(convs, map[], false, true, {k}, Running, Some(Flight([k], map[k := said], false, 0, false)))
  }

  function Written(k: Key, said: seq<Entry>, convs: Cache): Agent {
    Agent(convs, map[k := said], false, true, {k}, Running, Some(Flight([k], map[k := said], false, 1, false)))
  }

  /** The agent after the flush: nothing is dirty. */
  function Flushed(k: Key, said: seq<Entry>, convs: Cache): Agent {
    Agent(convs, map[k := said], false, false, {}, Idle, None)
  }

  lemma Telling(limits: Limits, k: Key, said: seq<Entry>)
    requires limits.maxMessages > 0 && limits.maxChars > 0 && limits.maxConversations >= 1 && Fits(limits, said)
    ensures Enabled(NEW_AGENT, Mutate(Append(k, said)))
        && Next(limits, NEW_AGENT, Mutate(Append(k, said))) == Told(k, said)
  {
    assert [] + said == said;
    TrimWhole(limits, said);
    assert Access<Entry>(limits.maxConversations, Empty(), k) == OrderedDict([k], map[k := []]);
  }

  lemma Snapping(limits: Limits, k: Key, said: seq<Entry>)
    ensures Enabled(Told(k, said), Wake([k]))
        && Next(limits, Told(k, said), Wake([k])) == Snapped(k, said, Told(k, said).convs)
  {
    var held := map x | x in [k] :: Held(Told(k, said).convs.at, x);
    assert k in held && forall x :: x in held ==> x == k;
    assert held == map[k := said];
  }

  /** The rest of a flush of one conversation. */
  function Flush(): seq<Event> {
    [WriteNext] + ([DropLegacy] + ([CommitSaved] + []))
  }

  lemma Finishing(limits: Limits, k: Key, said: seq<Entry>, convs: Cache)
    requires said != []
    ensures Leads(limits, Snapped(k, said, convs), Flush(), Flushed(k, said, convs))
  {
    var written := Written(k, said, convs);
    var finished := Next(limits, written, DropLegacy);
    assert (set x | x in [k]) == {k};
    assert Leads(limits, Flushed(k, said, convs), [], Flushed(k, said, convs));
  }

  /** A first message to `k`, its flush, and `mid` between the snapshot and the write. */
  function Scenario(k: Key, said: seq<Entry>, mid: Op): seq<Event> {
    [Mutate(Append(k, said))] + ([Wake([k])] + ([Mutate(mid)] + Flush()))
  }

  lemma Beginning(limits: Limits, k: Key, said: seq<Entry>, rest: seq<Event>, b: Agent)
    requires limits.maxMessages > 0 && limits.maxChars > 0 && limits.maxConversations >= 1 && Fits(limits, said)
    requires Leads(limits, Snapped(k, said, Told(k, said).convs), rest, b)
    ensures Leads(limits, NEW_AGENT, [Mutate(Append(k, said))] + ([Wake([k])] + rest), b)
  {
    var told, snapped := Told(k, said), Snapped(k, said, Told(k, said).convs);
    Telling(limits, k, said);
    Snapping(limits, k, said);
  }

  /** A conversation cleared while it is being written loses its dirty mark and stays on disk. */
  lemma MutationInFlightIsLost(limits: Limits, k: Key, said: seq<Entry>)
    requires limits.maxMessages > 0 && limits.maxChars > 0 && limits.maxConversations >= 1
    requires Fits(limits, said) && said != []
    ensures AtRest(NEW_AGENT)
    ensures Leads(limits, NEW_AGENT, Scenario(k, said, Clear(k)), Flushed(k, said, OrderedDict([k], map[k := []])))
  {
    var cleared := OrderedDict([k], map[k := []]);
    assert Next(limits, Snapped(k, said, Told(k, said).convs), Mutate(Clear(k))) == Snapped(k, said, cleared);
    Finishing(limits, k, said, cleared);
    Beginning(limits, k, said, [Mutate(Clear(k))] + Flush(), Flushed(k, said, cleared));
  }

  /** With a cap of one, a conversation evicted before its file is written comes back on disk. */
  lemma EvictionInFlightLeavesFile(limits: Limits, k: Key, said: seq<Entry>, other: Key)
    requires limits.maxMessages > 0 && limits.maxChars > 0 && limits.maxConversations == 1
    requires Fits(limits, said) && said != []
    requires other != k
    ensures AtRest(NEW_AGENT)
    ensures Leads(limits, NEW_AGENT, Scenario(k, said, Get(other)),
                  Flushed(k, said, OrderedDict([other], map[other := []])))
  {
    var after := OrderedDict([other], map[other := []]);
    var convs := Told(k, said).convs;
    var both := OrderedDict([k, other], map[k := said, other := []]);
    assert convs.Put(other, []) == both;
    assert both.PopOldest() == after;
    assert Access(1, convs, other) == Evict(1, both) == Evict(1, after) == after;
    assert Next(limits, Snapped(k, said, convs), Mutate(Get(other))) == Snapped(k, said, after);
    Finishing(limits, k, said, after);
    Beginning(limits, k, said, [Mutate(Get(other))] + Flush(), Flushed(k, said, after));
  }
}
