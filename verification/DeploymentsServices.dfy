/** The deployments service as the source keeps it: rows, run records and a per-session run cache. */
module DeploymentsServices {
  import opened Wrappers
  import opened OrderedDicts
  import opened Deployments

  type RunCache = map<(string, string), Option<RunRecord>>

  /** A cached answer is what resolving again would give, without deleting anything. */
  predicate FreshEntry(w: World, cache: RunCache, id: string) {
    id in w.rows.at && w.rows.at[id].run.Some? && (id, w.rows.at[id].run.value) in cache ==>
      cache[(id, w.rows.at[id].run.value)] == Resolve(w, id) && Probed(w, id) == w
  }

  ghost predicate Fresh(w: World, cache: RunCache) {
    forall id :: FreshEntry(w, cache, id)
  }

  /** All entries but those of the rows in `done` are fresh. */
  ghost predicate FreshBut(w: World, cache: RunCache, done: seq<string>) {
    forall id :: id in done || FreshEntry(w, cache, id)
  }

  lemma {:induction false} SelectDistinct(rows: Rows, order: seq<string>, wanted: Row -> bool)
    requires Distinct(order)
    ensures Distinct(Select(rows, order, wanted))
  {
    if order != [] {
      var init := order[..|order| - 1];
      SelectDistinct(rows, init, wanted);
      SelectHas(rows, init, wanted);
      assert order == init + [order[|order| - 1]];
    }
  }

  lemma Prefixes(s: seq<string>, i: nat)
    requires i < |s|
    ensures s[i] in s && s[..i + 1] == s[..i] + [s[i]] && s[..i + 1][..i] == s[..i]
    ensures Distinct(s) ==> s[i] !in s[..i]
  {
  }

  class DeploymentsService {
    var rows: Rows
    var registry: map<string, RunRecord>
    var procs: map<Pid, Proc>
    var clock: nat
    var runCache: RunCache
    const procfs: bool

    ghost function Now(): World
      reads this
    {
      World(rows, registry, procs, clock, procfs)
    }

    constructor (procfs: bool)
      ensures Now() == World(Empty(), map[], map[], 0, procfs) && runCache == map[]
    {
      this.rows, this.registry, this.procs, this.clock := Empty(), map[], map[], 0;
      this.runCache := map[];
      this.procfs := procfs;
    }

    /** `record_is_live`. */
    method IsLive(r: RunRecord) returns (live: bool)
      ensures live <==> RecordIsLive(Now(), r)
    {
      if r.pidStart.Some? {
        var current: Option<nat> := if procfs && r.pid in procs then Some(procs[r.pid].start) else None;
        if current.Some? {
          return current == r.pidStart;
        }
      }
      return r.pid in procs;
    }

    /** `RunRegistry.get`. */
    method GetRun(id: string) returns (r: Option<RunRecord>)
      modifies this`registry
      ensures Now() == Prune(old(Now()), id)
      ensures r == if id in registry then Some(registry[id]) else None
    {
      if id !in registry {
        return None;
      }
      var live := IsLive(registry[id]);
      if !live {
        registry := registry - {id};
        return None;
      }
      return Some(registry[id]);
    }

    /** `resolve_run`. */
    method ResolveRun(id: string) returns (r: Option<RunRecord>)
      requires id in rows.at && FreshEntry(Now(), runCache, id)
      modifies this`registry, this`runCache
      ensures r == Resolve(old(Now()), id) && Now() == Probed(old(Now()), id)
      ensures forall k :: FreshEntry(old(Now()), old(runCache), k) ==> FreshEntry(Now(), runCache, k)
      ensures forall key :: key in runCache ==> key in old(runCache) || key.0 == id
    {
      if rows.at[id].run.None? {
        return None;
      }
      var key := (id, rows.at[id].run.value);
      if key in runCache {
        return runCache[key];
      }
      r := GetRun(id);
      if r.None? || r.value.run != rows.at[id].run.value {
        r := None;
      }
      runCache := runCache[key := r];
      forall k | FreshEntry(old(Now()), old(runCache), k) ensures FreshEntry(Now(), runCache, k) {
      }
    }

    /** The ports of the running rows. */
    method UsedPorts() returns (used: set<int>)
      requires rows.Valid()
      ensures used == HeldPorts(rows)
    {
      used := {};
      for i := 0 to |rows.order|
        invariant used == PortsAmong(rows, rows.order[..i])
      {
        var k := rows.order[i];
        assert rows.order[..i + 1] == rows.order[..i] + [k];
        if k in rows.at && rows.at[k].running && rows.at[k].port.Some? {
          used := used + {rows.at[k].port.value};
        }
      }
      assert rows.order[..|rows.order|] == rows.order;
      assert forall k :: k in rows.at ==> k in rows.order;
    }

    /** `allocate_control_port`. */
    method AllocateControlPort() returns (port: Option<int>)
      requires rows.Valid()
      ensures port == FreePort(rows)
    {
      var used := UsedPorts();
      var p := FIRST_PORT;
      while p < END_PORT
        invariant FIRST_PORT <= p <= END_PORT
        invariant FirstFree(used, p) == FirstFree(used, FIRST_PORT)
      {
        if p !in used {
          return Some(p);
        }
        p := p + 1;
      }
      return None;
    }

    /** `start`; `o` is how the attempt turns out. */
    method Start(id: string, o: Outcome) returns (started: bool)
      requires rows.Valid() && id in rows.at
      modifies this
      ensures Now() == StartStep(old(Now()), id, o)
      ensures started <==> Resolve(old(Now()), id).None? && o.Up? && FreePort(old(rows)).Some? && o.pid !in old(procs)
      ensures forall key :: key in runCache ==> key.0 == id
    {
      runCache := map[];
      var r := ResolveRun(id);
      if r.Some? {
        return false;
      }
      started := Spawn(id, o);
    }

    /** The rest of `start`, once nothing stands in its way. */
    method Spawn(id: string, o: Outcome) returns (started: bool)
      requires rows.Valid() && id in rows.at
      modifies this`rows, this`registry, this`procs, this`clock
      ensures Now() == Launch(old(Now()), id, o)
      ensures started <==> o.Up? && FreePort(old(rows)).Some? && o.pid !in old(procs)
    {
      if o.Unready? {
        return false;
      }
      var port := AllocateControlPort();
      if port.None? || o.pid in procs {
        return false;
      }
      var row := rows.at[id].(port := port);
      var start := clock;
      clock := clock + 1;
      if o.Up? || o.registered {
        registry := registry[id := RunRecord(o.run, o.pid, if procfs then Some(start) else None)];
      }
      if o.Failed? {
        if o.portKept {
          rows := rows.Put(id, row);
        }
        return false;
      }
      procs := procs[o.pid := Bot(id, o.run, port.value, start)];
      row := row.(run := Some(o.run));
      row := row.(running := true);
      row := row.(desired := true);
      row := row.(needsRestart := false);
      rows := rows.Put(id, row);
      return true;
    }

    method MarkStopped(id: string)
      requires id in rows.at
      modifies this`rows
      ensures rows == old(rows).Put(id, Row(false, false, None, None, false))
    {
      var row := rows.at[id];
      row := row.(run := None);
      row := row.(running := false);
      row := row.(desired := false);
      row := row.(needsRestart := false);
      row := row.(port := None);
      rows := rows.Put(id, row);
    }

    /** `stop`. */
    method Stop(id: string)
      requires id in rows.at
      modifies this
      ensures Now() == StopStep(old(Now()), id)
    {
      runCache := map[];
      if rows.at[id].run.None? {
        MarkStopped(id);
        return;
      }
      var r := ResolveRun(id);
      if r.Some? {
        procs := procs - {r.value.pid};
        registry := registry - {id};
      }
      MarkStopped(id);
    }

    /** `delete`. */
    method Delete(id: string)
      requires id in rows.at
      modifies this
      ensures Now() == DeleteStep(old(Now()), id)
    {
      runCache := map[];
      if rows.at[id].running || rows.at[id].run.Some? {
        Stop(id);
      }
      registry := registry - {id};
      rows := rows.Remove(id);
    }

    /** `create`. */
    method Create(id: string) returns (created: bool)
      modifies this`rows
      ensures Now() == CreateStep(old(Now()), id) && (created <==> id !in old(rows).at)
    {
      if id in rows.at {
        return false;
      }
      rows := rows.Put(id, Row(false, false, None, None, false));
      return true;
    }

    /** The restart flag of `edit`. */
    method Edit(id: string)
      requires id in rows.at
      modifies this`rows
      ensures Now() == EditStep(old(Now()), id)
    {
      if rows.at[id].running {
        rows := rows.Put(id, rows.at[id].(needsRestart := true));
      }
    }

    /** `fetch_status`: whether a status came back. */
    method FetchStatus(id: string, answering: set<string>) returns (up: bool)
      requires id in rows.at && FreshEntry(Now(), runCache, id)
      modifies this`registry, this`runCache
      ensures up <==> Responds(old(Now()), id, answering)
      ensures Now() == Probed(old(Now()), id)
      ensures forall k :: FreshEntry(old(Now()), old(runCache), k) ==> FreshEntry(Now(), runCache, k)
    {
      var r := ResolveRun(id);
      if r.None? {
        return false;
      }
      return id in answering;
    }

    /** A query for the rows that satisfy `wanted`. */
    method Query(wanted: Row -> bool) returns (ids: seq<string>)
      ensures ids == Select(rows, rows.order, wanted)
    {
      ids := [];
      for i := 0 to |rows.order|
        invariant ids == Select(rows, rows.order[..i], wanted)
      {
        assert rows.order[..i + 1][..i] == rows.order[..i];
        if rows.order[i] in rows.at && wanted(rows.at[rows.order[i]]) {
          ids := ids + [rows.order[i]];
        }
      }
      assert rows.order[..|rows.order|] == rows.order;
    }

    /** One trip of the first loop of `reconcile_deployments`. */
    method SettleRow(id: string, answering: set<string>)
      requires id in rows.at && Fresh(Now(), runCache)
      modifies this`rows, this`registry, this`runCache
      ensures Now() == Settle(old(Now()), id, answering) && Fresh(Now(), runCache)
      ensures rows.at.Keys == old(rows).at.Keys
    {
      var up := FetchStatus(id, answering);
      assert forall k :: FreshEntry(old(Now()), old(runCache), k);
      ghost var probed := Now();
      if !up {
        var row := rows.at[id].(running := false);
        row := row.(needsRestart := false);
        row := row.(port := None);
        rows := rows.Put(id, row);
      }
      forall k ensures FreshEntry(Now(), runCache, k) {
        assert FreshEntry(probed, runCache, k);
      }
    }

    /** One trip of the second loop. */
    method ReviveRow(id: string, answering: set<string>, outcomes: map<string, Outcome>, ghost done: seq<string>)
      requires rows.Valid() && id in rows.at && id !in done && FreshBut(Now(), runCache, done)
      modifies this
      ensures Now() == Revive(old(Now()), id, answering, outcomes) && FreshBut(Now(), runCache, done + [id])
      ensures rows.at.Keys == old(rows).at.Keys
    {
      assert FreshEntry(Now(), runCache, id);
      var up := FetchStatus(id, answering);
      if up {
        forall k ensures k in done + [id] || FreshEntry(Now(), runCache, k) {
          assert k in done || FreshEntry(old(Now()), old(runCache), k);
        }
        return;
      }
      var _ := Start(id, if id in outcomes then outcomes[id] else Unready);
    }

    /** `reconcile_deployments`, which opens a session of its own. */
    method Reconcile(answering: set<string>, outcomes: map<string, Outcome>)
      requires Inv(Now())
      modifies this
      ensures Now() == ReconcileStep(old(Now()), answering, outcomes)
    {
      runCache := map[];
      var stale := Query((r: Row) => r.running);
      SelectHas(rows, rows.order, (r: Row) => r.running);
      ghost var w := Now();
      for i := 0 to |stale|
        invariant Now() == SettleAll(w, stale[..i], answering) && Inv(Now())
        invariant Fresh(Now(), runCache) && rows.at.Keys == w.rows.at.Keys
      {
        Prefixes(stale, i);
        SettleKeeps(Now(), stale[i], answering);
        SettleRow(stale[i], answering);
      }
      assert stale[..|stale|] == stale;
      ReviveWanted(answering, outcomes);
    }

    method ReviveWanted(answering: set<string>, outcomes: map<string, Outcome>)
      requires Inv(Now()) && Fresh(Now(), runCache)
      modifies this
      ensures Now() == ReviveAll(old(Now()), Select(old(rows), old(rows).order, (r: Row) => r.desired),
                                 answering, outcomes)
    {
      var wanted := Query((r: Row) => r.desired);
      SelectHas(rows, rows.order, (r: Row) => r.desired);
      SelectDistinct(rows, rows.order, (r: Row) => r.desired);
      ghost var w := Now();
      for i := 0 to |wanted|
        invariant Now() == ReviveAll(w, wanted[..i], answering, outcomes) && Inv(Now())
        invariant FreshBut(Now(), runCache, wanted[..i]) && rows.at.Keys == w.rows.at.Keys
      {
        Prefixes(wanted, i);
        ReviveKeeps(Now(), wanted[i], answering, outcomes);
        ReviveRow(wanted[i], answering, outcomes, wanted[..i]);
      }
      assert wanted[..|wanted|] == wanted;
    }
  }

  function PortsAmong(rows: Rows, order: seq<string>): set<int> {
    set k | k in order && k in rows.at && rows.at[k].running && rows.at[k].port.Some? :: rows.at[k].port.value
  }
}
