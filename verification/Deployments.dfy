/** The lifecycle of deployed bots: database rows, run records and processes as one state machine. */
module Deployments {
  import opened Wrappers
  import opened OrderedDicts

  const FIRST_PORT := 8200
  const END_PORT := 8300

  type Pid = n: int | n > 0 witness 1

  /** `pidStart` is the start tick the kernel reports under /proc, which tells a process from a later
      one with the same pid. */
  datatype RunRecord = RunRecord(run: string, pid: Pid, pidStart: Option<nat>)

  datatype Proc = Bot(id: string, run: string, port: int, start: nat) | Other(start: nat)

  datatype Row = Row(running: bool, desired: bool, run: Option<string>, port: Option<int>, needsRestart: bool)

  type Rows = OrderedDict<Row>

  /** Rows and run records by instance id, the processes alive, the next start tick, and whether the
      system has a /proc to read start ticks from. */
  datatype World = World(rows: Rows, registry: map<string, RunRecord>, procs: map<Pid, Proc>, clock: nat, procfs: bool)

  // ---- Run records ----

  /** `record_is_live`. */
  predicate RecordIsLive(w: World, r: RunRecord) {
    if r.pidStart.Some? && w.procfs && r.pid in w.procs then w.procs[r.pid].start == r.pidStart.value
    else r.pid in w.procs
  }

  /** The world after `RunRegistry.get`, which deletes a record that is not live. */
  function Prune(w: World, id: string): World {
    if id in w.registry && !RecordIsLive(w, w.registry[id]) then w.(registry := w.registry - {id}) else w
  }

  /** `resolve_run`: the live record that is this row's own. */
  function Resolve(w: World, id: string): Option<RunRecord> {
    if id in w.rows.at && w.rows.at[id].run.Some? && id in w.registry && RecordIsLive(w, w.registry[id])
       && w.registry[id].run == w.rows.at[id].run.value
    then Some(w.registry[id]) else None
  }

  /** The world after `resolve_run`. */
  function Probed(w: World, id: string): World {
    if id in w.rows.at && w.rows.at[id].run.Some? then Prune(w, id) else w
  }

  // ---- Control ports ----

  function HeldPorts(rows: Rows): set<int> {
    set k | k in rows.at && rows.at[k].running && rows.at[k].port.Some? :: rows.at[k].port.value
  }

  function FirstFree(held: set<int>, port: int): Option<int>
    decreases END_PORT - port
  {
    if port >= END_PORT then None else if port !in held then Some(port) else FirstFree(held, port + 1)
  }

  /** `allocate_control_port`. */
  function FreePort(rows: Rows): Option<int> {
    FirstFree(HeldPorts(rows), FIRST_PORT)
  }

  // ---- Operations ----

  /** How an attempt to start a bot turns out: a connection is missing; the bot comes up and registers;
      or the process is killed after failing, perhaps having registered, and perhaps with the port it
      was given kept in the row by a later commit of the session. */
  datatype Outcome =
    | Unready
    | Up(run: string, pid: Pid)
    | Failed(run: string, pid: Pid, registered: bool, portKept: bool)

  function NewRecord(w: World, run: string, pid: Pid): RunRecord {
    RunRecord(run, pid, if w.procfs then Some(w.clock) else None)
  }

  function Launch(w: World, id: string, o: Outcome): World
    requires id in w.rows.at
  {
    var port := FreePort(w.rows);
    if o.Unready? || port.None? || o.pid in w.procs then w
    else if o.Up? then
      World(w.rows.Put(id, Row(true, true, Some(o.run), port, false)), w.registry[id := NewRecord(w, o.run, o.pid)],
            w.procs[o.pid := Bot(id, o.run, port.value, w.clock)], w.clock + 1, w.procfs)
    else
      World(if o.portKept then w.rows.Put(id, w.rows.at[id].(port := port)) else w.rows,
            if o.registered then w.registry[id := NewRecord(w, o.run, o.pid)] else w.registry,
            w.procs, w.clock + 1, w.procfs)
  }

  /** `start`: refused while the row's own record is live. */
  function StartStep(w: World, id: string, o: Outcome): World {
    if id !in w.rows.at then w
    else if Resolve(w, id).Some? then Probed(w, id)
    else Launch(Probed(w, id), id, o)
  }

  function Stopped(w: World, id: string): World
    requires id in w.rows.at
  {
    w.(rows := w.rows.Put(id, Row(false, false, None, None, false)))
  }

  /** `stop`: kills the process its live record names. */
  function StopStep(w: World, id: string): World {
    if id !in w.rows.at then w
    else
      var r := Resolve(w, id);
      var w1 := Probed(w, id);
      Stopped(if r.Some? then w1.(procs := w1.procs - {r.value.pid}, registry := w1.registry - {id}) else w1, id)
  }

  /** `delete`. */
  function DeleteStep(w: World, id: string): World {
    if id !in w.rows.at then w
    else
      var w1 := if w.rows.at[id].running || w.rows.at[id].run.Some? then StopStep(w, id) else w;
      w1.(registry := w1.registry - {id}, rows := w1.rows.Remove(id))
  }

  /** `create`: an operator has at most one deployment of each bot type. */
  function CreateStep(w: World, id: string): World {
    if id in w.rows.at then w else w.(rows := w.rows.Put(id, Row(false, false, None, None, false)))
  }

  /** `edit`, and the flagging in `update_instruction`. */
  function EditStep(w: World, id: string): World {
    if id in w.rows.at && w.rows.at[id].running
    then w.(rows := w.rows.Put(id, w.rows.at[id].(needsRestart := true))) else w
  }

  // ---- Reconciling ----

  /** The rows a query selects, in order. */
  function Select(rows: Rows, order: seq<string>, wanted: Row -> bool): seq<string> {
    if order == [] then []
    else
      Select(rows, order[..|order| - 1], wanted)
      + if order[|order| - 1] in rows.at && wanted(rows.at[order[|order| - 1]]) then [order[|order| - 1]] else []
  }

  /** The bot has a live record and answers the status request. */
  predicate Responds(w: World, id: string, answering: set<string>) {
    Resolve(w, id).Some? && id in answering
  }

  /** One trip of the first loop: a running row whose bot does not respond is marked stopped. */
  function Settle(w: World, id: string, answering: set<string>): World {
    if id !in w.rows.at then w
    else if Responds(w, id, answering) then Probed(w, id)
    else
      var w1 := Probed(w, id);
      w1.(rows := w1.rows.Put(id, w.rows.at[id].(running := false, needsRestart := false, port := None)))
  }

  /** One trip of the second loop: a wanted bot that does not respond is started. */
  function Revive(w: World, id: string, answering: set<string>, outcomes: map<string, Outcome>): World {
    if Responds(w, id, answering) then Probed(w, id)
    else StartStep(Probed(w, id), id, if id in outcomes then outcomes[id] else Unready)
  }

  function SettleAll(w: World, ids: seq<string>, answering: set<string>): World {
    if ids == [] then w else Settle(SettleAll(w, ids[..|ids| - 1], answering), ids[|ids| - 1], answering)
  }

  function ReviveAll(w: World, ids: seq<string>, answering: set<string>, outcomes: map<string, Outcome>): World {
    if ids == [] then w
    else Revive(ReviveAll(w, ids[..|ids| - 1], answering, outcomes), ids[|ids| - 1], answering, outcomes)
  }

  function Settled(w: World, answering: set<string>): World {
    SettleAll(w, Select(w.rows, w.rows.order, (r: Row) => r.running), answering)
  }

  /** `reconcile_deployments`. */
  function ReconcileStep(w: World, answering: set<string>, outcomes: map<string, Outcome>): World {
    var w1 := Settled(w, answering);
    ReviveAll(w1, Select(w1.rows, w1.rows.order, (r: Row) => r.desired), answering, outcomes)
  }

  // ---- Runs ----

  /** What the service does, and what happens around it: a process dies; a bot stops serving and takes
      its record away; a process that is no bot appears, perhaps under a pid used before. */
  datatype Event =
    | Create(id: string) | Edit(id: string) | Start(id: string, outcome: Outcome) | Stop(id: string)
    | Delete(id: string)
    | Reconcile(answering: set<string>, outcomes: map<string, Outcome>)
    | Die(pid: Pid) | Leave(pid: Pid) | Appear(pid: Pid)

  function LeaveStep(w: World, pid: Pid): World {
    if pid in w.procs && w.procs[pid].Bot?
    then w.(registry := w.registry - {w.procs[pid].id}, procs := w.procs[pid := Other(w.procs[pid].start)]) else w
  }

  function AppearStep(w: World, pid: Pid): World {
    if pid in w.procs then w else w.(procs := w.procs[pid := Other(w.clock)], clock := w.clock + 1)
  }

  function Step(w: World, e: Event): World {
    match e
    case Create(id) => CreateStep(w, id)
    case Edit(id) => EditStep(w, id)
    case Start(id, o) => StartStep(w, id, o)
    case Stop(id) => StopStep(w, id)
    case Delete(id) => DeleteStep(w, id)
    case Reconcile(answering, outcomes) => ReconcileStep(w, answering, outcomes)
    case Die(pid) => w.(procs := w.procs - {pid})
    case Leave(pid) => LeaveStep(w, pid)
    case Appear(pid) => AppearStep(w, pid)
  }

  function Run(events: seq<Event>, procfs: bool): World {
    if events == [] then World(Empty(), map[], map[], 0, procfs)
    else Step(Run(events[..|events| - 1], procfs), events[|events| - 1])
  }

  // ---- What every step keeps ----

  /** A live bot has its record in the registry and its run id in the row; while the row says
      running, also its port. */
  ghost predicate BotOk(w: World, p: Pid) {
    p in w.procs && w.procs[p].Bot? ==>
      var b := w.procs[p];
      && b.id in w.rows.at && w.rows.at[b.id].run == Some(b.run)
      && b.id in w.registry
      && w.registry[b.id] == RunRecord(b.run, p, if w.procfs then Some(b.start) else None)
      && (w.rows.at[b.id].running ==> w.rows.at[b.id].port == Some(b.port))
  }

  /** A record whose start tick still matches is the record of a live bot. */
  ghost predicate RecordOk(w: World, id: string) {
    id in w.registry ==>
      var r := w.registry[id];
      && (w.procfs <==> r.pidStart.Some?)
      && (w.procfs ==> r.pidStart.value < w.clock)
      && (w.procfs && r.pid in w.procs && w.procs[r.pid].start == r.pidStart.value ==>
            w.procs[r.pid].Bot? && w.procs[r.pid].id == id && w.procs[r.pid].run == r.run)
  }

  predicate RowOk(r: Row) {
    && (r.running ==> r.desired && r.run.Some? && r.port.Some? && FIRST_PORT <= r.port.value < END_PORT)
    && (r.needsRestart ==> r.running)
  }

  predicate BothRunning(rows: Rows, j: string, k: string) {
    j in rows.at && k in rows.at && rows.at[j].running && rows.at[k].running
  }

  ghost predicate RowsOk(rows: Rows) {
    && rows.Valid()
    && (forall k :: k in rows.at ==> RowOk(rows.at[k]))
    && (forall j, k :: BothRunning(rows, j, k) && rows.at[j].port == rows.at[k].port ==> j == k)
  }

  ghost predicate Inv(w: World) {
    && RowsOk(w.rows)
    && (forall p :: BotOk(w, p))
    && (forall id :: RecordOk(w, id))
    && (forall p :: p in w.procs ==> w.procs[p].start < w.clock)
  }

  ghost predicate IsBotOf(w: World, p: Pid, id: string) {
    p in w.procs && w.procs[p].Bot? && w.procs[p].id == id
  }

  ghost predicate HasLiveBot(w: World, id: string) {
    exists p :: IsBotOf(w, p, id)
  }

  lemma {:induction false} FirstFreeIsFirst(held: set<int>, port: int)
    ensures var r := FirstFree(held, port);
      if r.Some? then port <= r.value < END_PORT && r.value !in held && forall q :: port <= q < r.value ==> q in held
      else forall q :: port <= q < END_PORT ==> q in held
    decreases END_PORT - port
  {
    if port < END_PORT && port in held {
      FirstFreeIsFirst(held, port + 1);
    }
  }

  lemma PruneKeeps(w: World, id: string)
    requires Inv(w)
    ensures Inv(Prune(w, id))
  {
    var w' := Prune(w, id);
    forall p ensures BotOk(w', p) {
      assert BotOk(w, p);
    }
    forall k ensures RecordOk(w', k) {
      assert RecordOk(w, k);
    }
  }

  lemma ProbedKeeps(w: World, id: string)
    requires Inv(w)
    ensures Inv(Probed(w, id)) && Probed(w, id).rows == w.rows && Probed(w, id).procs == w.procs
    ensures Resolve(Probed(w, id), id) == Resolve(w, id)
  {
    PruneKeeps(w, id);
  }

  /** A live bot's record resolves, so a row whose run does not resolve has no live bot. */
  lemma LiveResolves(w: World, p: Pid, id: string)
    requires Inv(w) && IsBotOf(w, p, id)
    ensures Resolve(w, id).Some? && Resolve(w, id).value.pid == p
  {
    assert BotOk(w, p);
  }

  lemma PutRowOk(rows: Rows, id: string, r: Row)
    requires RowsOk(rows) && RowOk(r)
    requires r.running ==> forall k :: k in rows.at && k != id && rows.at[k].running ==> rows.at[k].port != r.port
    ensures RowsOk(rows.Put(id, r))
  {
    PutValid(rows, id, r);
  }

  lemma FreePortFits(rows: Rows, id: string, r: Row)
    requires RowsOk(rows) && FreePort(rows).Some? && r.port == FreePort(rows)
    requires r.running ==> r.desired && r.run.Some?
    requires r.needsRestart ==> r.running
    ensures RowsOk(rows.Put(id, r))
  {
    FirstFreeIsFirst(HeldPorts(rows), FIRST_PORT);
    PutRowOk(rows, id, r);
  }

  lemma LaunchKeeps(w: World, id: string, o: Outcome)
    requires Inv(w) && id in w.rows.at && !HasLiveBot(w, id)
    ensures Inv(Launch(w, id, o))
  {
    var port := FreePort(w.rows);
    if !(o.Unready? || port.None? || o.pid in w.procs) {
      if o.Up? {
        FreePortFits(w.rows, id, Row(true, true, Some(o.run), port, false));
        ComingUpKeeps(w, id, o, port.value);
      } else {
        FreePortFits(w.rows, id, w.rows.at[id].(port := port));
        FailingKeeps(w, id, o);
      }
    }
  }

  lemma ComingUpKeeps(w: World, id: string, o: Outcome, port: int)
    requires Inv(w) && id in w.rows.at && !HasLiveBot(w, id) && o.Up? && FreePort(w.rows) == Some(port)
    requires o.pid !in w.procs && RowsOk(w.rows.Put(id, Row(true, true, Some(o.run), Some(port), false)))
    ensures Inv(Launch(w, id, o))
  {
    var w' := Launch(w, id, o);
    forall p ensures BotOk(w', p) {
      assert BotOk(w, p);
      assert !IsBotOf(w, p, id);
    }
    forall k ensures RecordOk(w', k) {
      assert RecordOk(w, k);
    }
  }

  lemma FailingKeeps(w: World, id: string, o: Outcome)
    requires Inv(w) && id in w.rows.at && !HasLiveBot(w, id) && o.Failed? && FreePort(w.rows).Some?
    requires o.pid !in w.procs && RowsOk(w.rows.Put(id, w.rows.at[id].(port := FreePort(w.rows))))
    ensures Inv(Launch(w, id, o))
  {
    var w' := Launch(w, id, o);
    forall p ensures BotOk(w', p) {
      assert BotOk(w, p);
      assert !IsBotOf(w, p, id);
    }
    forall k ensures RecordOk(w', k) {
      assert RecordOk(w, k);
    }
  }

  lemma StartKeeps(w: World, id: string, o: Outcome)
    requires Inv(w)
    ensures Inv(StartStep(w, id, o))
  {
    if id in w.rows.at {
      ProbedKeeps(w, id);
      if Resolve(w, id).None? {
        NoneIfUnresolved(w, id);
        assert !HasLiveBot(Probed(w, id), id) by {
          assert forall p :: IsBotOf(Probed(w, id), p, id) ==> IsBotOf(w, p, id);
        }
        LaunchKeeps(Probed(w, id), id, o);
      }
    }
  }

  lemma NoneIfUnresolved(w: World, id: string)
    requires Inv(w) && Resolve(w, id).None?
    ensures !HasLiveBot(w, id)
  {
    forall p ensures !IsBotOf(w, p, id) {
      if IsBotOf(w, p, id) {
        LiveResolves(w, p, id);
      }
    }
  }

  /** Removing a process, and perhaps its bot's record with it, keeps everything in order. */
  lemma KillKeeps(w: World, p: Pid)
    requires Inv(w)
    ensures Inv(w.(procs := w.procs - {p}))
  {
    var w' := w.(procs := w.procs - {p});
    forall q ensures BotOk(w', q) {
      assert BotOk(w, q);
    }
    forall k ensures RecordOk(w', k) {
      assert RecordOk(w, k);
    }
  }

  lemma DropRecordKeeps(w: World, id: string)
    requires Inv(w) && !HasLiveBot(w, id)
    ensures Inv(w.(registry := w.registry - {id}))
  {
    var w' := w.(registry := w.registry - {id});
    forall q ensures BotOk(w', q) {
      assert BotOk(w, q);
      assert !IsBotOf(w, q, id);
    }
    forall k ensures RecordOk(w', k) {
      assert RecordOk(w, k);
    }
  }

  lemma NewRowsKeep(w: World, rows: Rows, id: string)
    requires Inv(w) && !HasLiveBot(w, id) && RowsOk(rows)
    requires forall k :: k in w.rows.at && k != id ==> k in rows.at && rows.at[k] == w.rows.at[k]
    ensures Inv(w.(rows := rows))
  {
    var w' := w.(rows := rows);
    forall q ensures BotOk(w', q) {
      assert BotOk(w, q);
      assert !IsBotOf(w, q, id);
    }
    forall k ensures RecordOk(w', k) {
      assert RecordOk(w, k);
    }
  }

  /** The world in the middle of `stop`: the process is gone, and so is its record. */
  function Killed(w: World, id: string): World {
    var r := Resolve(w, id);
    var w1 := Probed(w, id);
    if r.Some? then w1.(procs := w1.procs - {r.value.pid}, registry := w1.registry - {id}) else w1
  }

  lemma KilledKeeps(w: World, id: string)
    requires Inv(w) && id in w.rows.at
    ensures Inv(Killed(w, id)) && Killed(w, id).rows == w.rows && !HasLiveBot(Killed(w, id), id)
  {
    var r, w1 := Resolve(w, id), Probed(w, id);
    ProbedKeeps(w, id);
    if r.Some? {
      var w2 := w1.(procs := w1.procs - {r.value.pid});
      KillKeeps(w1, r.value.pid);
      forall p ensures !IsBotOf(w2, p, id) {
        if IsBotOf(w2, p, id) {
          LiveResolves(w1, p, id);
        }
      }
      DropRecordKeeps(w2, id);
      assert forall p :: IsBotOf(Killed(w, id), p, id) ==> IsBotOf(w2, p, id);
    } else {
      NoneIfUnresolved(w1, id);
    }
  }

  lemma StopKeeps(w: World, id: string)
    requires Inv(w)
    ensures Inv(StopStep(w, id))
    ensures id in w.rows.at ==> !HasLiveBot(StopStep(w, id), id)
  {
    if id in w.rows.at {
      KilledKeeps(w, id);
      var w1, rows := Killed(w, id), w.rows.Put(id, Row(false, false, None, None, false));
      PutRowOk(w.rows, id, Row(false, false, None, None, false));
      NewRowsKeep(w1, rows, id);
      assert StopStep(w, id) == w1.(rows := rows);
      assert forall p :: IsBotOf(StopStep(w, id), p, id) ==> IsBotOf(w1, p, id);
    }
  }

  lemma DeleteKeeps(w: World, id: string)
    requires Inv(w)
    ensures Inv(DeleteStep(w, id)) && !HasLiveBot(DeleteStep(w, id), id)
    ensures id !in DeleteStep(w, id).rows.at && (id in w.rows.at ==> id !in DeleteStep(w, id).registry)
  {
    NoneUnlessRun(w, id);
    if id in w.rows.at {
      var w1 := if w.rows.at[id].running || w.rows.at[id].run.Some? then StopStep(w, id) else w;
      StopKeeps(w, id);
      PurgeKeeps(w1, id);
    }
  }

  /** A bot whose row is missing or holds no run id is not alive. */
  lemma NoneUnlessRun(w: World, id: string)
    requires Inv(w)
    ensures id !in w.rows.at || w.rows.at[id].run.None? ==> !HasLiveBot(w, id)
  {
    if Resolve(w, id).None? {
      NoneIfUnresolved(w, id);
    }
  }

  lemma PurgeKeeps(w: World, id: string)
    requires Inv(w) && !HasLiveBot(w, id)
    ensures var w' := w.(registry := w.registry - {id}, rows := w.rows.Remove(id));
      Inv(w') && !HasLiveBot(w', id)
  {
    var w1 := w.(registry := w.registry - {id});
    DropRecordKeeps(w, id);
    SameProcs(w, w1, id);
    RemoveRowOk(w.rows, id);
    NewRowsKeep(w1, w.rows.Remove(id), id);
    SameProcs(w1, w1.(rows := w.rows.Remove(id)), id);
  }

  lemma SameProcs(w: World, w': World, id: string)
    requires w.procs == w'.procs
    ensures HasLiveBot(w, id) <==> HasLiveBot(w', id)
  {
    assert forall p :: IsBotOf(w, p, id) <==> IsBotOf(w', p, id);
  }

  lemma RemoveRowOk(rows: Rows, id: string)
    requires RowsOk(rows)
    ensures RowsOk(rows.Remove(id))
  {
    RemoveValid(rows, id);
    assert forall j, k :: BothRunning(rows.Remove(id), j, k) ==> BothRunning(rows, j, k);
  }

  /** Rows may change everything but their run ids, as long as no row gains a port. */
  lemma QuietRowsKeep(w: World, rows: Rows)
    requires Inv(w) && RowsOk(rows)
    requires forall k :: k in w.rows.at ==>
               k in rows.at && rows.at[k].run == w.rows.at[k].run
               && (rows.at[k].running ==> w.rows.at[k].running && rows.at[k].port == w.rows.at[k].port)
    ensures Inv(w.(rows := rows))
  {
    var w' := w.(rows := rows);
    forall q ensures BotOk(w', q) {
      assert BotOk(w, q);
    }
    forall k ensures RecordOk(w', k) {
      assert RecordOk(w, k);
    }
  }

  lemma SettleKeeps(w: World, id: string, answering: set<string>)
    requires Inv(w)
    ensures Inv(Settle(w, id, answering))
  {
    if id in w.rows.at {
      ProbedKeeps(w, id);
      var w1, r := Probed(w, id), w.rows.at[id].(running := false, needsRestart := false, port := None);
      PutRowOk(w.rows, id, r);
      QuietRowsKeep(w1, w.rows.Put(id, r));
    }
  }

  lemma {:induction false} SettleAllKeeps(w: World, ids: seq<string>, answering: set<string>)
    requires Inv(w)
    ensures Inv(SettleAll(w, ids, answering))
  {
    if ids != [] {
      SettleAllKeeps(w, ids[..|ids| - 1], answering);
      SettleKeeps(SettleAll(w, ids[..|ids| - 1], answering), ids[|ids| - 1], answering);
    }
  }

  lemma ReviveKeeps(w: World, id: string, answering: set<string>, outcomes: map<string, Outcome>)
    requires Inv(w)
    ensures Inv(Revive(w, id, answering, outcomes))
  {
    ProbedKeeps(w, id);
    StartKeeps(Probed(w, id), id, if id in outcomes then outcomes[id] else Unready);
  }

  lemma {:induction false} ReviveAllKeeps(w: World, ids: seq<string>, answering: set<string>,
                                          outcomes: map<string, Outcome>)
    requires Inv(w)
    ensures Inv(ReviveAll(w, ids, answering, outcomes))
  {
    if ids != [] {
      ReviveAllKeeps(w, ids[..|ids| - 1], answering, outcomes);
      ReviveKeeps(ReviveAll(w, ids[..|ids| - 1], answering, outcomes), ids[|ids| - 1], answering, outcomes);
    }
  }

  lemma LeaveKeeps(w: World, pid: Pid)
    requires Inv(w)
    ensures Inv(LeaveStep(w, pid))
  {
    if pid in w.procs && w.procs[pid].Bot? {
      var w', id := LeaveStep(w, pid), w.procs[pid].id;
      assert BotOk(w, pid);
      forall q ensures BotOk(w', q) {
        assert BotOk(w, q);
      }
      forall k ensures RecordOk(w', k) {
        assert RecordOk(w, k);
      }
    }
  }

  lemma AppearKeeps(w: World, pid: Pid)
    requires Inv(w)
    ensures Inv(AppearStep(w, pid))
  {
    var w' := AppearStep(w, pid);
    forall q ensures BotOk(w', q) {
      assert BotOk(w, q);
    }
    forall k ensures RecordOk(w', k) {
      assert RecordOk(w, k);
    }
  }

  lemma RowStepsKeep(w: World, id: string)
    requires Inv(w)
    ensures Inv(CreateStep(w, id)) && Inv(EditStep(w, id))
  {
    if id in w.rows.at {
      if w.rows.at[id].running {
        var r := w.rows.at[id].(needsRestart := true);
        PutRowOk(w.rows, id, r);
        QuietRowsKeep(w, w.rows.Put(id, r));
      }
    } else {
      var r := Row(false, false, None, None, false);
      PutRowOk(w.rows, id, r);
      QuietRowsKeep(w, w.rows.Put(id, r));
    }
  }

  lemma StepKeeps(w: World, e: Event)
    requires Inv(w)
    ensures Inv(Step(w, e))
  {
    match e
    case Create(id) => RowStepsKeep(w, id);
    case Edit(id) => RowStepsKeep(w, id);
    case Start(id, o) => StartKeeps(w, id, o);
    case Stop(id) => StopKeeps(w, id);
    case Delete(id) => DeleteKeeps(w, id);
    case Reconcile(answering, outcomes) =>
      SettleAllKeeps(w, Select(w.rows, w.rows.order, (r: Row) => r.running), answering);
      var w1 := Settled(w, answering);
      ReviveAllKeeps(w1, Select(w1.rows, w1.rows.order, (r: Row) => r.desired), answering, outcomes);
    case Die(pid) => KillKeeps(w, pid);
    case Leave(pid) => LeaveKeeps(w, pid);
    case Appear(pid) => AppearKeeps(w, pid);
  }

  lemma {:induction false} RunKeeps(events: seq<Event>, procfs: bool)
    ensures Inv(Run(events, procfs)) && Run(events, procfs).procfs == procfs
  {
    if events != [] {
      RunKeeps(events[..|events| - 1], procfs);
      StepKeeps(Run(events[..|events| - 1], procfs), events[|events| - 1]);
      StepKeepsProcfs(Run(events[..|events| - 1], procfs), events[|events| - 1]);
    }
  }

  lemma StepKeepsProcfs(w: World, e: Event)
    ensures Step(w, e).procfs == w.procfs
  {
    if e.Reconcile? {
      SettleAllProcs(w, Select(w.rows, w.rows.order, (r: Row) => r.running), e.answering);
      var w1 := Settled(w, e.answering);
      ReviveAllProcfs(w1, Select(w1.rows, w1.rows.order, (r: Row) => r.desired), e.answering, e.outcomes);
    }
  }

  lemma {:induction false} SettleAllProcs(w: World, ids: seq<string>, answering: set<string>)
    ensures SettleAll(w, ids, answering).procs == w.procs && SettleAll(w, ids, answering).procfs == w.procfs
  {
    if ids != [] {
      SettleAllProcs(w, ids[..|ids| - 1], answering);
    }
  }

  lemma {:induction false} ReviveAllProcfs(w: World, ids: seq<string>, answering: set<string>,
                                           outcomes: map<string, Outcome>)
    ensures ReviveAll(w, ids, answering, outcomes).procfs == w.procfs
  {
    if ids != [] {
      ReviveAllProcfs(w, ids[..|ids| - 1], answering, outcomes);
    }
  }

  // ---- Over all runs ----

  /** Over any run, a live bot is the one its row and its registry name, and no deployment has two. */
  lemma SingleLiveBot(events: seq<Event>, procfs: bool, p: Pid)
    requires p in Run(events, procfs).procs && Run(events, procfs).procs[p].Bot?
    ensures var w := Run(events, procfs);
      var b := w.procs[p];
      && b.id in w.rows.at && w.rows.at[b.id].run == Some(b.run)
      && b.id in w.registry && w.registry[b.id].pid == p && w.registry[b.id].run == b.run
      && Resolve(w, b.id) == Some(w.registry[b.id])
      && forall q :: IsBotOf(w, q, b.id) ==> q == p
  {
    RunKeeps(events, procfs);
    var w := Run(events, procfs);
    assert BotOk(w, p);
    LiveResolves(w, p, w.procs[p].id);
    forall q | IsBotOf(w, q, w.procs[p].id) ensures q == p {
      LiveResolves(w, q, w.procs[p].id);
    }
  }

  /** Over any run, a running row is wanted, has a run id and a control port of its own, and only
      running rows need a restart. */
  lemma RowsStayInOrder(events: seq<Event>, procfs: bool, id: string)
    requires id in Run(events, procfs).rows.at
    ensures var rows := Run(events, procfs).rows;
      var r := rows.at[id];
      && (r.running ==> r.desired && r.run.Some? && r.port.Some? && 8200 <= r.port.value < 8300)
      && (r.running ==> forall k :: k in rows.at && k != id && rows.at[k].running ==> rows.at[k].port != r.port)
      && (r.needsRestart ==> r.running)
  {
    RunKeeps(events, procfs);
    var rows := Run(events, procfs).rows;
    assert forall k :: k in rows.at && rows.at[k].running && rows.at[id].running ==> BothRunning(rows, k, id);
  }

  function PortsOf(rows: Rows, ids: set<string>): set<int> {
    set k | k in ids && k in rows.at && rows.at[k].port.Some? :: rows.at[k].port.value
  }

  function RunningIds(rows: Rows): set<string> {
    set k | k in rows.at && rows.at[k].running
  }

  lemma {:induction false} PortsOfSize(rows: Rows, ids: set<string>)
    ensures |PortsOf(rows, ids)| <= |ids|
  {
    if ids != {} {
      var k :| k in ids;
      PortsOfSize(rows, ids - {k});
      if k in rows.at && rows.at[k].port.Some? {
        assert PortsOf(rows, ids) == PortsOf(rows, ids - {k}) + {rows.at[k].port.value};
      } else {
        assert PortsOf(rows, ids) == PortsOf(rows, ids - {k});
      }
    }
  }

  lemma {:induction false} IntervalSize(s: set<int>, lo: int, hi: int)
    requires lo <= hi && forall q :: lo <= q < hi ==> q in s
    ensures |s| >= hi - lo
    decreases hi - lo
  {
    if lo < hi {
      IntervalSize(s - {lo}, lo + 1, hi);
    }
  }

  /** The allocator returns the lowest port no running row holds, and fails exactly when running rows
      hold all hundred, so that there are at least a hundred of them. */
  lemma AllocatorExact(rows: Rows)
    ensures var r := FreePort(rows);
      && (r.Some? ==> 8200 <= r.value < 8300 && r.value !in HeldPorts(rows)
                      && forall q :: 8200 <= q < r.value ==> q in HeldPorts(rows))
      && (r.None? <==> forall q :: 8200 <= q < 8300 ==> q in HeldPorts(rows))
      && (r.None? ==> |RunningIds(rows)| >= 100)
  {
    FirstFreeIsFirst(HeldPorts(rows), FIRST_PORT);
    if FreePort(rows).None? {
      IntervalSize(HeldPorts(rows), FIRST_PORT, END_PORT);
      PortsOfSize(rows, RunningIds(rows));
      assert PortsOf(rows, RunningIds(rows)) == HeldPorts(rows);
    }
  }

  /** The row's own record. */
  predicate Owns(w: World, id: string) {
    id in w.rows.at && id in w.registry && w.rows.at[id].run == Some(w.registry[id].run)
  }

  /** The row's own record names a pid that now belongs to something else, and nothing can tell. */
  predicate PidReused(w: World, id: string) {
    && !w.procfs && Owns(w, id) && w.registry[id].pid in w.procs
    && !(w.procs[w.registry[id].pid].Bot? && w.procs[w.registry[id].pid].id == id)
  }

  /** A start is refused exactly while the bot is alive or its pid has been reused unnoticed, never
      both; with start ticks, exactly while it is alive. */
  lemma RefusedIffLive(events: seq<Event>, procfs: bool, id: string)
    ensures var w := Run(events, procfs);
      && (Resolve(w, id).Some? <==> HasLiveBot(w, id) || PidReused(w, id))
      && !(HasLiveBot(w, id) && PidReused(w, id))
      && (procfs ==> (Resolve(w, id).Some? <==> HasLiveBot(w, id)))
  {
    RunKeeps(events, procfs);
    ResolvesIffLive(Run(events, procfs), id);
  }

  lemma ResolvesIffLive(w: World, id: string)
    requires Inv(w)
    ensures Resolve(w, id).Some? <==> HasLiveBot(w, id) || PidReused(w, id)
    ensures !(HasLiveBot(w, id) && PidReused(w, id))
  {
    if Resolve(w, id).Some? {
      assert RecordOk(w, id);
      assert PidReused(w, id) || IsBotOf(w, w.registry[id].pid, id);
      if HasLiveBot(w, id) {
        var p :| IsBotOf(w, p, id);
        LiveResolves(w, p, id);
      }
    } else {
      NoneIfUnresolved(w, id);
      assert RecordOk(w, id);
    }
  }

  /** `stop` leaves no live bot behind, kills it if there was one, and spares every other process
      exactly when the recorded pid has not been reused unnoticed; with start ticks it never has. */
  lemma StopSparesOthersIff(events: seq<Event>, procfs: bool, id: string)
    ensures var w := Run(events, procfs);
      var w' := StopStep(w, id);
      && (id in w.rows.at ==> !HasLiveBot(w', id))
      && (forall p :: p in w'.procs ==> p in w.procs && w'.procs[p] == w.procs[p])
      && ((forall p :: p in w.procs && p !in w'.procs ==> IsBotOf(w, p, id)) <==> !PidReused(w, id))
      && (procfs ==> !PidReused(w, id))
  {
    RunKeeps(events, procfs);
    var w := Run(events, procfs);
    StopKeeps(w, id);
    assert RecordOk(w, id);
    if PidReused(w, id) {
      assert w.registry[id].pid !in StopStep(w, id).procs;
    }
  }

  /** Two live bots whose rows both say running listen on different ports. */
  lemma RunningBotsHaveOwnPorts(events: seq<Event>, procfs: bool, p: Pid, q: Pid)
    requires var w := Run(events, procfs);
      p != q && p in w.procs && w.procs[p].Bot? && q in w.procs && w.procs[q].Bot?
    ensures var w := Run(events, procfs);
      var b, c := w.procs[p], w.procs[q];
      && b.id in w.rows.at && c.id in w.rows.at
      && (w.rows.at[b.id].running && w.rows.at[c.id].running ==> b.port != c.port)
  {
    RunKeeps(events, procfs);
    var w := Run(events, procfs);
    SingleLiveBot(events, procfs, p);
    assert BotOk(w, p) && BotOk(w, q);
    assert !(IsBotOf(w, q, w.procs[p].id));
    if w.rows.at[w.procs[p].id].running && w.rows.at[w.procs[q].id].running {
      assert BothRunning(w.rows, w.procs[p].id, w.procs[q].id);
    }
  }

  /** The row of `id` once the first loop of reconciling is through; its record resolves as before. */
  lemma {:induction false} SettleAllRow(w: World, ids: seq<string>, answering: set<string>, id: string)
    requires id in w.rows.at
    ensures var w' := SettleAll(w, ids, answering);
      && w'.procs == w.procs && w'.procfs == w.procfs && w'.rows.at.Keys == w.rows.at.Keys
      && Resolve(w', id) == Resolve(w, id)
      && (id in w'.registry ==> id in w.registry && w'.registry[id] == w.registry[id])
      && w'.rows.at[id] == if id in ids && !Responds(w, id, answering)
                           then w.rows.at[id].(running := false, needsRestart := false, port := None)
                           else w.rows.at[id]
  {
    if ids != [] {
      var init, last := ids[..|ids| - 1], ids[|ids| - 1];
      assert ids == init + [last];
      SettleAllRow(w, init, answering, id);
    }
  }

  /** Exactly the running rows whose bot responds come through the first loop of reconciling as they were. */
  lemma SettledRow(w: World, answering: set<string>, id: string)
    requires w.rows.Valid() && id in w.rows.at
    ensures var w' := Settled(w, answering);
      && w'.procs == w.procs && w'.procfs == w.procfs && id in w'.rows.at && Resolve(w', id) == Resolve(w, id)
      && (id in w'.registry ==> id in w.registry && w'.registry[id] == w.registry[id])
      && w'.rows.at[id] == if w.rows.at[id].running && !Responds(w, id, answering)
                           then w.rows.at[id].(running := false, needsRestart := false, port := None)
                           else w.rows.at[id]
  {
    SelectHas(w.rows, w.rows.order, (r: Row) => r.running);
    SettleAllRow(w, Select(w.rows, w.rows.order, (r: Row) => r.running), answering, id);
  }

  /** Through the first loop of reconciling, the port of a live bot whose row says running stays held if
      and only if the bot answers; the bot lives on either way. */
  lemma PortKeptIffAnswered(events: seq<Event>, procfs: bool, p: Pid, answering: set<string>)
    requires var w := Run(events, procfs);
      p in w.procs && w.procs[p].Bot? && (w.procs[p].id in w.rows.at ==> w.rows.at[w.procs[p].id].running)
    ensures var w := Run(events, procfs);
      var w' := Settled(w, answering);
      && p in w'.procs && w'.procs[p] == w.procs[p]
      && (w.procs[p].port in HeldPorts(w'.rows) <==> w.procs[p].id in answering)
  {
    RunKeeps(events, procfs);
    var w := Run(events, procfs);
    var b := w.procs[p];
    assert BotOk(w, p);
    LiveResolves(w, p, b.id);
    SettledRow(w, answering, b.id);
    SettleAllKeys(w, Select(w.rows, w.rows.order, (r: Row) => r.running), answering);
    var w' := Settled(w, answering);
    if k :| k in w'.rows.at && w'.rows.at[k].running && w'.rows.at[k].port == Some(b.port) {
      SettledRow(w, answering, k);
      assert BothRunning(w.rows, k, b.id);
    }
  }

  lemma {:induction false} SettleAllKeys(w: World, ids: seq<string>, answering: set<string>)
    ensures SettleAll(w, ids, answering).rows.at.Keys == w.rows.at.Keys
  {
    if ids != [] {
      SettleAllKeys(w, ids[..|ids| - 1], answering);
    }
  }

  /** Every live bot's row says running. */
  ghost predicate AllRun(w: World) {
    forall p :: p in w.procs && w.procs[p].Bot? ==> w.procs[p].id in w.rows.at && w.rows.at[w.procs[p].id].running
  }

  /** Every live bot answers. */
  ghost predicate AllAnswer(w: World, answering: set<string>) {
    forall p :: p in w.procs && w.procs[p].Bot? ==> w.procs[p].id in answering
  }

  lemma StartKeepsRunning(w: World, id: string, o: Outcome)
    requires Inv(w) && AllRun(w)
    ensures AllRun(StartStep(w, id, o))
  {
    if id in w.rows.at && Resolve(w, id).None? {
      NoneIfUnresolved(w, id);
      var w' := StartStep(w, id, o);
      forall p | p in w'.procs && w'.procs[p].Bot?
        ensures w'.procs[p].id in w'.rows.at && w'.rows.at[w'.procs[p].id].running
      {
        assert p in w.procs && w'.procs[p] == w.procs[p] ==> !IsBotOf(w, p, id);
      }
    }
  }

  lemma {:induction false} ReviveAllKeepsRunning(w: World, ids: seq<string>, answering: set<string>,
                                                 outcomes: map<string, Outcome>)
    requires Inv(w) && AllRun(w)
    ensures AllRun(ReviveAll(w, ids, answering, outcomes))
  {
    if ids != [] {
      var init, last := ids[..|ids| - 1], ids[|ids| - 1];
      ReviveAllKeepsRunning(w, init, answering, outcomes);
      ReviveAllKeeps(w, init, answering, outcomes);
      var w1 := ReviveAll(w, init, answering, outcomes);
      ProbedKeeps(w1, last);
      StartKeepsRunning(Probed(w1, last), last, if last in outcomes then outcomes[last] else Unready);
    }
  }

  lemma SettledKeepsRunning(w: World, answering: set<string>)
    requires Inv(w) && AllRun(w) && AllAnswer(w, answering)
    ensures Inv(Settled(w, answering)) && AllRun(Settled(w, answering))
  {
    SettleAllKeeps(w, Select(w.rows, w.rows.order, (r: Row) => r.running), answering);
    SettleAllKeys(w, Select(w.rows, w.rows.order, (r: Row) => r.running), answering);
    var w' := Settled(w, answering);
    forall p | p in w'.procs && w'.procs[p].Bot?
      ensures w'.procs[p].id in w'.rows.at && w'.rows.at[w'.procs[p].id].running
    {
      var id := w'.procs[p].id;
      assert BotOk(w', p);
      SettledRow(w, answering, id);
      LiveResolves(w, p, id);
    }
  }

  lemma StoppedKeepsRunning(w: World, id: string)
    requires Inv(w) && AllRun(w)
    ensures AllRun(StopStep(w, id)) && AllRun(DeleteStep(w, id))
  {
    StopKeeps(w, id);
    DeleteKeeps(w, id);
    forall p | p in StopStep(w, id).procs && StopStep(w, id).procs[p].Bot?
      ensures StopStep(w, id).procs[p].id in StopStep(w, id).rows.at
          && StopStep(w, id).rows.at[StopStep(w, id).procs[p].id].running
    {
      assert id in w.rows.at ==> !IsBotOf(StopStep(w, id), p, id);
    }
    forall p | p in DeleteStep(w, id).procs && DeleteStep(w, id).procs[p].Bot?
      ensures DeleteStep(w, id).procs[p].id in DeleteStep(w, id).rows.at
              && DeleteStep(w, id).rows.at[DeleteStep(w, id).procs[p].id].running
    {
      assert !IsBotOf(DeleteStep(w, id), p, id);
    }
  }

  lemma StepKeepsRunning(w: World, e: Event)
    requires Inv(w) && AllRun(w) && (e.Reconcile? ==> AllAnswer(w, e.answering))
    ensures AllRun(Step(w, e))
  {
    match e
    case Start(id, o) => StartKeepsRunning(w, id, o);
    case Stop(id) => StoppedKeepsRunning(w, id);
    case Delete(id) => StoppedKeepsRunning(w, id);
    case Reconcile(answering, outcomes) =>
      SettledKeepsRunning(w, answering);
      var w1 := Settled(w, answering);
      ReviveAllKeepsRunning(w1, Select(w1.rows, w1.rows.order, (r: Row) => r.desired), answering, outcomes);
    case _ =>
  }

  /** Whenever the service reconciles, every live bot answers. */
  ghost predicate AnsweredRun(events: seq<Event>, procfs: bool) {
    events != [] ==>
      var init, last := events[..|events| - 1], events[|events| - 1];
      AnsweredRun(init, procfs) && (last.Reconcile? ==> AllAnswer(Run(init, procfs), last.answering))
  }

  lemma {:induction false} AnsweredRunKeepsRunning(events: seq<Event>, procfs: bool)
    requires AnsweredRun(events, procfs)
    ensures AllRun(Run(events, procfs))
  {
    if events != [] {
      AnsweredRunKeepsRunning(events[..|events| - 1], procfs);
      RunKeeps(events[..|events| - 1], procfs);
      StepKeepsRunning(Run(events[..|events| - 1], procfs), events[|events| - 1]);
    }
  }

  /** Over any run in which every live bot answers whenever the service reconciles, all live bots' rows say
      running, and no two live bots have one port. */
  lemma AnsweringBotsHaveOwnPorts(events: seq<Event>, procfs: bool, p: Pid, q: Pid)
    requires AnsweredRun(events, procfs) && p != q
    requires var w := Run(events, procfs);
      p in w.procs && w.procs[p].Bot? && q in w.procs && w.procs[q].Bot?
    ensures var w := Run(events, procfs);
      && w.procs[p].id in w.rows.at && w.rows.at[w.procs[p].id].running
      && w.procs[p].port != w.procs[q].port
  {
    AnsweredRunKeepsRunning(events, procfs);
    RunningBotsHaveOwnPorts(events, procfs, p, q);
  }

  function Idle(): Row {
    Row(false, false, None, None, false)
  }

  /** A world with one row and its bot. */
  function Lone(a: string, r: string, p: Pid, row: Row): World {
    World(OrderedDict([a], map[a := row]), map[a := RunRecord(r, p, Some(0))],
          map[p := Bot(a, r, FIRST_PORT, 0)], 1, true)
  }

  lemma SilentIsSettled(a: string, r: string, p: Pid)
    ensures ReconcileStep(Lone(a, r, p, Row(true, true, Some(r), Some(FIRST_PORT), false)), {}, map[])
         == Lone(a, r, p, Row(false, true, Some(r), None, false))
  {
    var w := Lone(a, r, p, Row(true, true, Some(r), Some(FIRST_PORT), false));
    var w' := Lone(a, r, p, Row(false, true, Some(r), None, false));
    assert [a][..0] == [];
    assert Select(w.rows, [a], (r: Row) => r.running) == [a];
    assert Settle(w, a, {}) == w';
    assert SettleAll(w, [a], {}) == Settle(SettleAll(w, [], {}), a, {});
    assert Select(w'.rows, [a], (r: Row) => r.desired) == [a];
    assert Resolve(w', a).Some?;
    assert ReviveAll(w', [a], {}, map[]) == Revive(ReviveAll(w', [], {}, map[]), a, {}, map[]);
  }

  lemma FirstBotStarts(a: string, r: string, p: Pid)
    ensures Run([Create(a), Start(a, Up(r, p))], true)
        == Lone(a, r, p, Row(true, true, Some(r), Some(FIRST_PORT), false))
  {
    assert [] + [Create(a)] == [Create(a)];
    assert [Create(a)] + [Start(a, Up(r, p))] == [Create(a), Start(a, Up(r, p))];
    var w1 := World(OrderedDict([a], map[a := Idle()]), map[], map[], 0, true);
    assert Run([Create(a)], true) == w1;
  }

  lemma FirstBotIsSettled(a: string, r: string, p: Pid)
    ensures Run([Create(a), Start(a, Up(r, p)), Reconcile({}, map[])], true)
        == Lone(a, r, p, Row(false, true, Some(r), None, false))
  {
    FirstBotStarts(a, r, p);
    SilentIsSettled(a, r, p);
    assert [Create(a), Start(a, Up(r, p))] + [Reconcile({}, map[])]
      == [Create(a), Start(a, Up(r, p)), Reconcile({}, map[])];
  }

  /** Two live bots can share a port: the first is silent when the service reconciles, and the second
      is started on the port so freed. */
  lemma LiveBotsCanSharePort(a: string, r: string, p: Pid, b: string, s: string, q: Pid)
    requires a != b && p != q
    ensures Run([Create(a), Start(a, Up(r, p)), Reconcile({}, map[]), Create(b), Start(b, Up(s, q))], true).procs
         == map[p := Bot(a, r, FIRST_PORT, 0), q := Bot(b, s, FIRST_PORT, 1)]
  {
    var events := [Create(a), Start(a, Up(r, p)), Reconcile({}, map[])];
    FirstBotIsSettled(a, r, p);
    assert events + [Create(b)] + [Start(b, Up(s, q))]
        == [Create(a), Start(a, Up(r, p)), Reconcile({}, map[]), Create(b), Start(b, Up(s, q))];
  }

  // ---- Reconciling brings back what should run ----

  ghost predicate SameIntent(rows: Rows, rows': Rows) {
    && rows'.at.Keys == rows.at.Keys
    && forall k :: k in rows.at ==> rows'.at[k].desired == rows.at[k].desired
  }

  /** Every running row's record is live. */
  ghost predicate RunningResolve(w: World) {
    forall k :: k in w.rows.at && w.rows.at[k].running ==> Resolve(w, k).Some?
  }

  lemma {:induction false} SelectHas(rows: Rows, order: seq<string>, wanted: Row -> bool)
    ensures forall k :: k in Select(rows, order, wanted) <==> k in order && k in rows.at && wanted(rows.at[k])
  {
    if order != [] {
      SelectHas(rows, order[..|order| - 1], wanted);
      assert order == order[..|order| - 1] + [order[|order| - 1]];
    }
  }

  /** No row's own record names the pid another row's start gets, or start ticks tell the two apart. */
  ghost predicate PidsApart(w: World, outcomes: map<string, Outcome>) {
    !w.procfs ==> forall i, k :: i in w.rows.at && i != k && Owns(w, k) ==> !Gets(outcomes, i, w.registry[k].pid)
  }

  predicate Gets(outcomes: map<string, Outcome>, id: string, p: Pid) {
    id in outcomes && outcomes[id].Up? && outcomes[id].pid == p
  }

  ghost predicate NoNewReuse(w: World, w': World) {
    forall k :: PidReused(w', k) ==> PidReused(w, k)
  }

  /** Not counting what becomes of the rows, and of records that are not live, nothing changes. */
  ghost predicate SameUse(w: World, w': World) {
    && w'.procs == w.procs && w'.procfs == w.procfs && SameIntent(w.rows, w'.rows)
    && (forall k :: PidReused(w', k) <==> PidReused(w, k))
    && (forall k :: Owns(w', k) ==> Owns(w, k) && w'.registry[k] == w.registry[k])
  }

  lemma SettledSameUse(w: World, answering: set<string>)
    requires Inv(w)
    ensures var w' := Settled(w, answering); Inv(w') && SameUse(w, w') && RunningResolve(w')
  {
    var w' := Settled(w, answering);
    SettleAllKeeps(w, Select(w.rows, w.rows.order, (r: Row) => r.running), answering);
    SettleAllKeys(w, Select(w.rows, w.rows.order, (r: Row) => r.running), answering);
    SettleAllProcs(w, Select(w.rows, w.rows.order, (r: Row) => r.running), answering);
    forall k | k in w.rows.at
      ensures w'.rows.at[k].desired == w.rows.at[k].desired && (w'.rows.at[k].running ==> Resolve(w', k).Some?)
      ensures Owns(w', k) ==> Owns(w, k) && w'.registry[k] == w.registry[k]
      ensures PidReused(w', k) <==> PidReused(w, k)
    {
      SettledRow(w, answering, k);
      SameResolveSameReuse(w, w', k);
    }
  }

  lemma SameResolveSameReuse(w: World, w': World, id: string)
    requires Inv(w) && Inv(w') && w'.procs == w.procs && Resolve(w', id) == Resolve(w, id)
    ensures PidReused(w', id) <==> PidReused(w, id)
    ensures HasLiveBot(w', id) <==> HasLiveBot(w, id)
  {
    SameProcs(w, w', id);
    ResolvesIffLive(w, id);
    ResolvesIffLive(w', id);
  }

  /** `p` runs a bot started in this pass. */
  ghost predicate Launched(w: World, p: Pid, done: seq<string>, outcomes: map<string, Outcome>) {
    p in w.procs && w.procs[p].Bot? && w.procs[p].id in done && w.procs[p].id in outcomes && outcomes[w.procs[p].id].Up?
    && outcomes[w.procs[p].id].pid == p
  }

  ghost predicate Reviving(w: World, w': World, done: seq<string>, outcomes: map<string, Outcome>) {
    && Inv(w') && w'.procfs == w.procfs && SameIntent(w.rows, w'.rows) && RunningResolve(w')
    && (forall p :: p in w.procs ==> p in w'.procs && w'.procs[p] == w.procs[p])
    && (forall p :: p in w'.procs && p !in w.procs ==> Launched(w', p, done, outcomes))
    && (forall k :: k in done ==> Resolve(w', k).Some?)
    && (forall k :: PidReused(w, k) ==> PidReused(w', k))
    && (PidsApart(w, outcomes) ==> PidsApart(w', outcomes) && NoNewReuse(w, w'))
  }

  predicate SamePid(outcomes: map<string, Outcome>, i: string, j: string) {
    i in outcomes && j in outcomes && outcomes[i].Up? && outcomes[j].Up? && outcomes[i].pid == outcomes[j].pid
  }

  /** Every start that is attempted succeeds, under a pid of its own. */
  ghost predicate AllComeUp(w: World, outcomes: map<string, Outcome>) {
    && (forall id :: id in w.rows.at ==> id in outcomes && outcomes[id].Up? && outcomes[id].pid !in w.procs)
    && (forall i, j :: SamePid(outcomes, i, j) && i in w.rows.at && j in w.rows.at ==> i == j)
  }

  lemma PortLeft(w: World, id: string)
    requires RunningResolve(w) && id in w.rows.at && Resolve(w, id).None? && |w.rows.at| <= END_PORT - FIRST_PORT
    ensures FreePort(w.rows).Some?
  {
    AllocatorExact(w.rows);
    assert id in w.rows.at.Keys && |w.rows.at.Keys| == |w.rows.at|;
    assert RunningIds(w.rows) <= w.rows.at.Keys - {id};
    SubsetSize(RunningIds(w.rows), w.rows.at.Keys - {id});
  }

  lemma {:induction false} SubsetSize<T>(s: set<T>, t: set<T>)
    requires s <= t
    ensures |s| <= |t|
  {
    if s != {} {
      var x :| x in s;
      SubsetSize(s - {x}, t - {x});
    }
  }

  lemma TakenPidIsLive(w: World, w': World, done: seq<string>, outcomes: map<string, Outcome>, id: string)
    requires Reviving(w, w', done, outcomes) && AllComeUp(w, outcomes) && id in w.rows.at
    ensures outcomes[id].pid in w'.procs ==> HasLiveBot(w', id)
  {
    var p := outcomes[id].pid;
    if p in w'.procs {
      assert Launched(w', p, done, outcomes) && BotOk(w', p);
      assert SamePid(outcomes, w'.procs[p].id, id);
      assert IsBotOf(w', p, id);
    }
  }

  /** `w'` is `w` with one more bot, that of the row `id`. */
  ghost predicate Gained(w: World, w': World, id: string, p: Pid) {
    && w'.procfs == w.procfs && SameIntent(w.rows, w'.rows) && p !in w.procs && IsBotOf(w', p, id)
    && (forall q :: q in w'.procs <==> q in w.procs || q == p)
    && (forall q :: q in w.procs ==> w'.procs[q] == w.procs[q])
    && (forall k :: k in w.rows.at && k != id ==> w'.rows.at[k] == w.rows.at[k])
    && (forall k :: k != id ==> (k in w'.registry <==> k in w.registry))
    && (forall k :: k != id && k in w.registry ==> w'.registry[k] == w.registry[k])
  }

  lemma LaunchGains(w: World, id: string, o: Outcome)
    requires Inv(w) && id in w.rows.at && w.rows.at[id].desired && FreePort(w.rows).Some? && o.Up? && o.pid !in w.procs
    ensures Gained(w, Launch(w, id, o), id, o.pid)
  {
  }

  /** A new bot leaves records resolving, and reuses no pid that no other row's own record names. */
  lemma GainReuses(w: World, w': World, id: string, p: Pid, k: string)
    requires Inv(w) && Inv(w') && Gained(w, w', id, p) && Resolve(w, id).None?
    ensures PidReused(w, k) ==> PidReused(w', k)
    ensures PidReused(w', k) ==> PidReused(w, k) || (!w.procfs && Owns(w, k) && k != id && w.registry[k].pid == p)
    ensures Resolve(w, k).Some? ==> Resolve(w', k).Some?
  {
    ResolvesIffLive(w, k);
    ResolvesIffLive(w', k);
    GrownLive(w, w', id, p);
  }

  lemma GainApart(w: World, w': World, id: string, outcomes: map<string, Outcome>)
    requires Inv(w') && PidsApart(w, outcomes)
    requires id in outcomes && outcomes[id].Up? && Gained(w, w', id, outcomes[id].pid)
    requires forall i :: i in w.rows.at && SamePid(outcomes, i, id) ==> i == id
    ensures PidsApart(w', outcomes)
  {
    assert BotOk(w', outcomes[id].pid);
    forall i, k | !w'.procfs && i in w'.rows.at && i != k && Owns(w', k)
      ensures !Gets(outcomes, i, w'.registry[k].pid)
    {
      if k == id {
        assert !SamePid(outcomes, i, id);
      } else {
        assert Owns(w, k);
      }
    }
  }

  /** Records go on resolving when the row `id` gains its bot. */
  lemma GainKeepsUse(w: World, w': World, id: string, outcomes: map<string, Outcome>)
    requires Inv(w) && Inv(w') && Resolve(w, id).None? && id in w.rows.at
    requires id in outcomes && outcomes[id].Up? && Gained(w, w', id, outcomes[id].pid)
    ensures forall k :: PidReused(w, k) ==> PidReused(w', k)
    ensures forall k :: Resolve(w, k).Some? ==> Resolve(w', k).Some?
    ensures PidsApart(w, outcomes) ==> NoNewReuse(w, w')
  {
    forall k
      ensures PidReused(w, k) ==> PidReused(w', k)
      ensures Resolve(w, k).Some? ==> Resolve(w', k).Some?
      ensures PidsApart(w, outcomes) && PidReused(w', k) ==> PidReused(w, k)
    {
      assert PidsApart(w, outcomes) && !w.procfs && Owns(w, k) && k != id ==> !Gets(outcomes, id, w.registry[k].pid);
      GainReuses(w, w', id, outcomes[id].pid, k);
    }
  }

  lemma GainLaunches(w: World, w': World, w'': World, done: seq<string>, outcomes: map<string, Outcome>, id: string)
    requires id in outcomes && outcomes[id].Up? && Gained(w', w'', id, outcomes[id].pid)
    requires forall p :: p in w'.procs && p !in w.procs ==> Launched(w', p, done, outcomes)
    ensures forall p :: p in w''.procs && p !in w.procs ==> Launched(w'', p, done + [id], outcomes)
  {
    forall p | p in w''.procs && p !in w.procs ensures Launched(w'', p, done + [id], outcomes) {
      assert p in w'.procs ==> Launched(w', p, done, outcomes);
    }
  }

  lemma GainRunning(w: World, w': World, id: string, p: Pid)
    requires Inv(w') && Gained(w, w', id, p) && RunningResolve(w)
    requires forall k :: Resolve(w, k).Some? ==> Resolve(w', k).Some?
    ensures RunningResolve(w')
  {
    LiveResolves(w', p, id);
  }

  lemma GainRevives(w: World, w': World, w'': World, done: seq<string>, outcomes: map<string, Outcome>, id: string)
    requires Reviving(w, w', done, outcomes) && Inv(w'') && Resolve(w', id).None?
    requires id in outcomes && outcomes[id].Up? && Gained(w', w'', id, outcomes[id].pid)
    requires id in w'.rows.at && forall i :: i in w'.rows.at && SamePid(outcomes, i, id) ==> i == id
    ensures Reviving(w, w'', done + [id], outcomes)
  {
    LiveResolves(w'', outcomes[id].pid, id);
    GainKeepsUse(w', w'', id, outcomes);
    GainRunning(w', w'', id, outcomes[id].pid);
    if PidsApart(w', outcomes) {
      GainApart(w', w'', id, outcomes);
    }
    GainLaunches(w, w', w'', done, outcomes, id);
  }

  lemma LaunchRevives(w: World, w': World, done: seq<string>, outcomes: map<string, Outcome>, id: string)
    requires Reviving(w, w', done, outcomes) && AllComeUp(w, outcomes) && |w.rows.at| <= END_PORT - FIRST_PORT
    requires id in w.rows.at && w.rows.at[id].desired && Resolve(w', id).None?
    ensures Reviving(w, Launch(w', id, outcomes[id]), done + [id], outcomes)
  {
    assert |w'.rows.at| == |w'.rows.at.Keys| == |w.rows.at.Keys| == |w.rows.at|;
    NoneIfUnresolved(w', id);
    PortLeft(w', id);
    TakenPidIsLive(w, w', done, outcomes, id);
    LaunchKeeps(w', id, outcomes[id]);
    LaunchGains(w', id, outcomes[id]);
    GainRevives(w, w', Launch(w', id, outcomes[id]), done, outcomes, id);
  }

  /** One more bot of `id` leaves everyone else's bots alive. */
  lemma GrownLive(w: World, w': World, id: string, p: Pid)
    requires IsBotOf(w', p, id) && forall q :: q in w.procs ==> q in w'.procs && w'.procs[q] == w.procs[q]
    ensures HasLiveBot(w', id) && forall k :: HasLiveBot(w, k) ==> HasLiveBot(w', k)
  {
    forall k | HasLiveBot(w, k) ensures HasLiveBot(w', k) {
      var q :| IsBotOf(w, q, k);
      assert IsBotOf(w', q, k);
    }
  }

  lemma ProbedSameResolve(w: World, id: string, k: string)
    requires Inv(w)
    ensures Inv(Probed(w, id)) && Resolve(Probed(w, id), k) == Resolve(w, k)
    ensures PidReused(Probed(w, id), k) <==> PidReused(w, k)
  {
    ProbedKeeps(w, id);
    SameResolveSameReuse(w, Probed(w, id), k);
  }

  lemma ProbedRevives(w: World, w': World, done: seq<string>, outcomes: map<string, Outcome>, id: string)
    requires Reviving(w, w', done, outcomes)
    ensures Reviving(w, Probed(w', id), done, outcomes)
  {
    ProbedKeeps(w', id);
    forall k
      ensures Resolve(Probed(w', id), k) == Resolve(w', k)
      ensures PidReused(Probed(w', id), k) <==> PidReused(w', k)
    {
      ProbedSameResolve(w', id, k);
    }
  }

  lemma DoneAlready(w: World, w': World, done: seq<string>, outcomes: map<string, Outcome>, id: string)
    requires Reviving(w, w', done, outcomes) && Resolve(w', id).Some?
    ensures Reviving(w, w', done + [id], outcomes)
  {
    forall p | p in w'.procs && p !in w.procs ensures Launched(w', p, done + [id], outcomes) {
      assert Launched(w', p, done, outcomes);
    }
  }

  /** A row whose record resolves counts as done; so does one for which a bot can be launched. */
  lemma ReviveCase(w: World, w': World, done: seq<string>, outcomes: map<string, Outcome>, id: string)
    requires Reviving(w, w', done, outcomes) && AllComeUp(w, outcomes) && |w.rows.at| <= END_PORT - FIRST_PORT
    requires id in w.rows.at && w.rows.at[id].desired
    ensures Reviving(w, if Resolve(w', id).Some? then w' else Launch(w', id, outcomes[id]), done + [id], outcomes)
  {
    if Resolve(w', id).None? {
      LaunchRevives(w, w', done, outcomes, id);
    } else {
      DoneAlready(w, w', done, outcomes, id);
    }
  }

  /** What `Revive` comes to, given whether the row's record resolves. */
  lemma ReviveCases(w: World, id: string, answering: set<string>, outcomes: map<string, Outcome>)
    requires Inv(w) && id in w.rows.at && id in outcomes
    ensures var w1 := Probed(w, id);
      var w2 := Probed(w1, id);
      && Resolve(w1, id) == Resolve(w, id) && Resolve(w2, id) == Resolve(w, id)
      && Revive(w, id, answering, outcomes) ==
           (if Resolve(w, id).None? then Launch(w2, id, outcomes[id]) else if id in answering then w1 else w2)
  {
    ProbedKeeps(w, id);
    ProbedKeeps(Probed(w, id), id);
  }

  lemma ReviveRevives(w: World, w': World, done: seq<string>, answering: set<string>,
                      outcomes: map<string, Outcome>, id: string)
    requires Reviving(w, w', done, outcomes) && AllComeUp(w, outcomes) && |w.rows.at| <= END_PORT - FIRST_PORT
    requires id in w.rows.at && w.rows.at[id].desired
    ensures Reviving(w, Revive(w', id, answering, outcomes), done + [id], outcomes)
  {
    var w1 := Probed(w', id);
    ReviveCases(w', id, answering, outcomes);
    ProbedRevives(w, w', done, outcomes, id);
    ProbedRevives(w, w1, done, outcomes, id);
    ReviveCase(w, w1, done, outcomes, id);
    ReviveCase(w, Probed(w1, id), done, outcomes, id);
  }

  predicate AllWanted(rows: Rows, ids: seq<string>) {
    forall k :: k in ids ==> k in rows.at && rows.at[k].desired
  }

  lemma {:induction false} ReviveAllRevives(w: World, ids: seq<string>, answering: set<string>,
                                            outcomes: map<string, Outcome>)
    requires Reviving(w, w, [], outcomes) && AllComeUp(w, outcomes) && |w.rows.at| <= END_PORT - FIRST_PORT
    requires AllWanted(w.rows, ids)
    ensures Reviving(w, ReviveAll(w, ids, answering, outcomes), ids, outcomes)
  {
    if ids != [] {
      var init, id := ids[..|ids| - 1], ids[|ids| - 1];
      assert ids == init + [id];
      ReviveAllRevives(w, init, answering, outcomes);
      ReviveRevives(w, ReviveAll(w, init, answering, outcomes), init, answering, outcomes, id);
    }
  }

  predicate IsWanted(w: World, id: string) {
    id in w.rows.at && w.rows.at[id].desired
  }

  /** Live bots are left for exactly the deployments that should run, save those whose pid is reused
      unnoticed, and those that had one anyway; every process lives on. No pid is newly reused if no
      start gets a pid that another row's own record names. */
  ghost predicate Revived(w: World, w': World, outcomes: map<string, Outcome>) {
    && (forall k :: HasLiveBot(w', k) <==> if IsWanted(w, k) then !PidReused(w', k) else HasLiveBot(w, k))
    && (forall p :: p in w.procs ==> p in w'.procs && w'.procs[p] == w.procs[p])
    && (forall k :: PidReused(w, k) ==> PidReused(w', k))
    && (PidsApart(w, outcomes) ==> NoNewReuse(w, w'))
  }

  /** After any run, with at most a hundred deployments and starts that succeed, reconciling brings back
      what should run; with start ticks no pid is reused unnoticed, so nothing is held up. */
  lemma ReconcileRevives(events: seq<Event>, procfs: bool, answering: set<string>, outcomes: map<string, Outcome>)
    requires AllComeUp(Run(events, procfs), outcomes) && |Run(events, procfs).rows.at| <= END_PORT - FIRST_PORT
    ensures var w := Run(events, procfs);
      var w' := ReconcileStep(w, answering, outcomes);
      Revived(w, w', outcomes) && (procfs ==> forall k :: !PidReused(w', k))
  {
    RunKeeps(events, procfs);
    RevivesFrom(Run(events, procfs), answering, outcomes);
  }

  lemma RevivesFrom(w: World, answering: set<string>, outcomes: map<string, Outcome>)
    requires Inv(w) && AllComeUp(w, outcomes) && |w.rows.at| <= END_PORT - FIRST_PORT
    ensures Revived(w, ReconcileStep(w, answering, outcomes), outcomes)
  {
    var w1 := Settled(w, answering);
    SettledSameUse(w, answering);
    var wanted := Select(w1.rows, w1.rows.order, (r: Row) => r.desired);
    SelectHas(w1.rows, w1.rows.order, (r: Row) => r.desired);
    assert |w1.rows.at| == |w1.rows.at.Keys| == |w.rows.at.Keys| == |w.rows.at|;
    ReviveAllRevives(w1, wanted, answering, outcomes);
    RevivedExactly(w, w1, ReviveAll(w1, wanted, answering, outcomes), wanted, outcomes);
  }

  lemma RevivedOne(w: World, w1: World, w': World, wanted: seq<string>, outcomes: map<string, Outcome>, k: string)
    requires w1.procs == w.procs && Reviving(w1, w', wanted, outcomes) && (k in wanted <==> IsWanted(w, k))
    ensures HasLiveBot(w', k) <==> if IsWanted(w, k) then !PidReused(w', k) else HasLiveBot(w, k)
  {
    ResolvesIffLive(w', k);
    if k in wanted {
    } else if HasLiveBot(w', k) {
      var p :| IsBotOf(w', p, k);
      assert p !in w.procs ==> Launched(w', p, wanted, outcomes);
      assert IsBotOf(w, p, k);
    } else if HasLiveBot(w, k) {
      var p :| IsBotOf(w, p, k);
      assert IsBotOf(w', p, k);
    }
  }

  lemma SameUseApart(w: World, w1: World, outcomes: map<string, Outcome>)
    requires SameUse(w, w1) && PidsApart(w, outcomes)
    ensures PidsApart(w1, outcomes)
  {
  }

  lemma RevivedExactly(w: World, w1: World, w': World, wanted: seq<string>, outcomes: map<string, Outcome>)
    requires SameUse(w, w1) && Reviving(w1, w', wanted, outcomes)
    requires forall k :: k in wanted <==> IsWanted(w, k)
    ensures Revived(w, w', outcomes)
  {
    forall k ensures HasLiveBot(w', k) <==> if IsWanted(w, k) then !PidReused(w', k) else HasLiveBot(w, k) {
      RevivedOne(w, w1, w', wanted, outcomes, k);
    }
    if PidsApart(w, outcomes) {
      SameUseApart(w, w1, outcomes);
    }
  }

  // ---- What start and stop leave behind ----

  /** A start leaves a live bot exactly if there was one, or the bot's pid has not been reused unnoticed and
      the attempt comes up with a port and a pid to be had; a bot brought up runs as its row says, needing
      no restart. */
  lemma StartLeavesLiveIff(events: seq<Event>, procfs: bool, id: string, o: Outcome)
    requires id in Run(events, procfs).rows.at
    ensures var w := Run(events, procfs);
      var w' := StartStep(w, id, o);
      && (HasLiveBot(w', id) <==>
            HasLiveBot(w, id) || (!PidReused(w, id) && o.Up? && FreePort(w.rows).Some? && o.pid !in w.procs))
      && (!HasLiveBot(w, id) && HasLiveBot(w', id) ==>
            && id in w'.rows.at && w'.rows.at[id] == Row(true, true, Some(o.run), FreePort(w.rows), false)
            && Resolve(w', id).Some? && Resolve(w', id).value.pid == o.pid)
      && (procfs ==> !PidReused(w, id))
  {
    RunKeeps(events, procfs);
    var w := Run(events, procfs);
    var w1, w' := Probed(w, id), StartStep(w, id, o);
    ProbedKeeps(w, id);
    ResolvesIffLive(w, id);
    SameProcs(w, w1, id);
    StartKeeps(w, id, o);
    if !HasLiveBot(w, id) {
      if !PidReused(w, id) && o.Up? && FreePort(w.rows).Some? && o.pid !in w.procs {
        assert IsBotOf(w', o.pid, id);
        LiveResolves(w', o.pid, id);
      } else {
        SameProcs(w1, w', id);
      }
    }
  }

  lemma {:induction false} SettleAllLeavesOthers(w: World, ids: seq<string>, answering: set<string>, id: string)
    requires id !in ids && id in w.rows.at
    ensures var w' := SettleAll(w, ids, answering);
      id in w'.rows.at && w'.rows.at[id] == w.rows.at[id] && w'.procs == w.procs
  {
    if ids != [] {
      assert ids == ids[..|ids| - 1] + [ids[|ids| - 1]];
      SettleAllLeavesOthers(w, ids[..|ids| - 1], answering, id);
    }
  }

  lemma StartLeavesOthers(w: World, other: string, o: Outcome, id: string)
    requires id != other && id in w.rows.at && !HasLiveBot(w, id)
    ensures var w' := StartStep(w, other, o);
      id in w'.rows.at && w'.rows.at[id] == w.rows.at[id] && !HasLiveBot(w', id)
  {
    var w' := StartStep(w, other, o);
    forall p ensures !IsBotOf(w', p, id) {
      assert !IsBotOf(w, p, id);
    }
  }

  lemma {:induction false} ReviveAllLeavesOthers(w: World, ids: seq<string>, answering: set<string>,
                                                 outcomes: map<string, Outcome>, id: string)
    requires id !in ids && id in w.rows.at && !HasLiveBot(w, id)
    ensures var w' := ReviveAll(w, ids, answering, outcomes);
      id in w'.rows.at && w'.rows.at[id] == w.rows.at[id] && !HasLiveBot(w', id)
  {
    if ids != [] {
      var init, other := ids[..|ids| - 1], ids[|ids| - 1];
      assert ids == init + [other];
      ReviveAllLeavesOthers(w, init, answering, outcomes, id);
      var w1 := ReviveAll(w, init, answering, outcomes);
      SameProcs(w1, Probed(w1, other), id);
      StartLeavesOthers(Probed(w1, other), other, if other in outcomes then outcomes[other] else Unready, id);
    }
  }

  /** A stopped deployment stays stopped: reconciling afterwards starts no bot for it and leaves its row
      stopped, unwanted, without run id or port. */
  lemma StopIsFinal(events: seq<Event>, procfs: bool, id: string, answering: set<string>,
                    outcomes: map<string, Outcome>)
    requires id in Run(events, procfs).rows.at
    ensures var w := ReconcileStep(StopStep(Run(events, procfs), id), answering, outcomes);
      id in w.rows.at && w.rows.at[id] == Row(false, false, None, None, false) && !HasLiveBot(w, id)
  {
    RunKeeps(events, procfs);
    var w := StopStep(Run(events, procfs), id);
    StopKeeps(Run(events, procfs), id);
    SelectHas(w.rows, w.rows.order, (r: Row) => r.running);
    SettleAllLeavesOthers(w, Select(w.rows, w.rows.order, (r: Row) => r.running), answering, id);
    var w1 := Settled(w, answering);
    SameProcs(w, w1, id);
    SelectHas(w1.rows, w1.rows.order, (r: Row) => r.desired);
    ReviveAllLeavesOthers(w1, Select(w1.rows, w1.rows.order, (r: Row) => r.desired), answering, outcomes, id);
  }

  // ---- Who needs a restart ----

  /** A bot of `id` runs in a process that was not there before. */
  ghost predicate Begun(w: World, w': World, id: string) {
    exists p :: IsBotOf(w', p, id) && p !in w.procs
  }

  /** Between two worlds a row that runs was started anew and needs no restart, or ran before and needs one
      as it did then, or has been edited. */
  ghost predicate FlagOk(w: World, w': World, id: string, edited: bool) {
    id in w'.rows.at && w'.rows.at[id].running ==>
      if Begun(w, w', id) then !w'.rows.at[id].needsRestart
      else id in w.rows.at && w.rows.at[id].running
           && (w'.rows.at[id].needsRestart <==> w.rows.at[id].needsRestart || edited)
  }

  ghost predicate Flows(w: World, w': World, id: string) {
    FlagOk(w, w', id, false) && forall p :: p in w.procs ==> p in w'.procs && w'.procs[p] == w.procs[p]
  }

  lemma FlowsOn(w: World, w1: World, w2: World, id: string)
    requires Flows(w, w1, id) && Flows(w1, w2, id)
    ensures Flows(w, w2, id)
  {
    assert Begun(w, w2, id) <==> Begun(w, w1, id) || Begun(w1, w2, id) by {
      if p :| IsBotOf(w1, p, id) && p !in w.procs {
        assert IsBotOf(w2, p, id);
      }
      if p :| IsBotOf(w2, p, id) && p !in w.procs {
        assert p in w1.procs ==> IsBotOf(w1, p, id);
      }
      if p :| IsBotOf(w2, p, id) && p !in w1.procs {
        assert p !in w.procs;
      }
    }
  }

  lemma SettleFlows(w: World, k: string, answering: set<string>, id: string)
    ensures Flows(w, Settle(w, k, answering), id)
  {
  }

  lemma StartFlows(w: World, k: string, o: Outcome, id: string)
    ensures Flows(w, StartStep(w, k, o), id)
  {
    var w' := StartStep(w, k, o);
    if k in w.rows.at && Resolve(w, k).None? && o.Up? && FreePort(w.rows).Some? && o.pid !in w.procs {
      assert k == id ==> IsBotOf(w', o.pid, id);
    }
  }

  lemma {:induction false} SettleAllFlows(w: World, ids: seq<string>, answering: set<string>, id: string)
    ensures Flows(w, SettleAll(w, ids, answering), id)
  {
    if ids != [] {
      var w1 := SettleAll(w, ids[..|ids| - 1], answering);
      SettleAllFlows(w, ids[..|ids| - 1], answering, id);
      SettleFlows(w1, ids[|ids| - 1], answering, id);
      FlowsOn(w, w1, SettleAll(w, ids, answering), id);
    }
  }

  lemma ProbedFlows(w: World, k: string, id: string)
    ensures Flows(w, Probed(w, k), id)
  {
  }

  lemma {:induction false} ReviveAllFlows(w: World, ids: seq<string>, answering: set<string>,
                                          outcomes: map<string, Outcome>, id: string)
    ensures Flows(w, ReviveAll(w, ids, answering, outcomes), id)
  {
    if ids != [] {
      var init, k := ids[..|ids| - 1], ids[|ids| - 1];
      var w1 := ReviveAll(w, init, answering, outcomes);
      ReviveAllFlows(w, init, answering, outcomes, id);
      ProbedFlows(w1, k, id);
      StartFlows(Probed(w1, k), k, if k in outcomes then outcomes[k] else Unready, id);
      FlowsOn(w1, Probed(w1, k), StartStep(Probed(w1, k), k, if k in outcomes then outcomes[k] else Unready), id);
      FlowsOn(w, w1, ReviveAll(w, ids, answering, outcomes), id);
    }
  }

  lemma ReconcileFlows(w: World, answering: set<string>, outcomes: map<string, Outcome>, id: string)
    ensures Flows(w, ReconcileStep(w, answering, outcomes), id)
  {
    var w1 := Settled(w, answering);
    SettleAllFlows(w, Select(w.rows, w.rows.order, (r: Row) => r.running), answering, id);
    ReviveAllFlows(w1, Select(w1.rows, w1.rows.order, (r: Row) => r.desired), answering, outcomes, id);
    FlowsOn(w, w1, ReconcileStep(w, answering, outcomes), id);
  }

  lemma StepFlag(w: World, e: Event, id: string)
    ensures FlagOk(w, Step(w, e), id, e == Edit(id))
  {
    match e
    case Start(k, o) => StartFlows(w, k, o, id);
    case Reconcile(answering, outcomes) => ReconcileFlows(w, answering, outcomes, id);
    case _ =>
  }

  /** The deployment was edited, and no bot of it has been started since. */
  ghost predicate EditedSince(events: seq<Event>, procfs: bool, id: string) {
    events != [] &&
      var init, last := events[..|events| - 1], events[|events| - 1];
      last == Edit(id) || (EditedSince(init, procfs, id) && !Begun(Run(init, procfs), Run(events, procfs), id))
  }

  /** Over any run, a running row needs a restart exactly if it was edited since its bot was last started. */
  lemma {:induction false} NeedsRestartIffEdited(events: seq<Event>, procfs: bool, id: string)
    requires id in Run(events, procfs).rows.at && Run(events, procfs).rows.at[id].running
    ensures Run(events, procfs).rows.at[id].needsRestart <==> EditedSince(events, procfs, id)
  {
    if events != [] {
      var init, last := events[..|events| - 1], events[|events| - 1];
      StepFlag(Run(init, procfs), last, id);
      if !Begun(Run(init, procfs), Run(events, procfs), id) {
        NeedsRestartIffEdited(init, procfs, id);
      }
    }
  }

  // ---- What an operation leaves alone ----

  /** The deployment an event is about. */
  function Subject(e: Event): Option<string> {
    match e
    case Create(id) => Some(id)
    case Edit(id) => Some(id)
    case Start(id, _) => Some(id)
    case Stop(id) => Some(id)
    case Delete(id) => Some(id)
    case _ => None
  }

  predicate SameFor(w: World, w': World, k: string) {
    && (k in w'.rows.at <==> k in w.rows.at) && (k in w.rows.at ==> w'.rows.at[k] == w.rows.at[k])
    && (k in w'.registry <==> k in w.registry) && (k in w.registry ==> w'.registry[k] == w.registry[k])
  }

  lemma StopLeavesOthers(w: World, id: string, k: string)
    requires id != k
    ensures SameFor(w, StopStep(w, id), k)
  {
  }

  lemma DeleteLeavesOthers(w: World, id: string, k: string)
    requires id != k
    ensures SameFor(w, DeleteStep(w, id), k)
  {
    StopLeavesOthers(w, id, k);
  }

  lemma StartSparesOthers(w: World, id: string, o: Outcome, k: string)
    requires id != k
    ensures SameFor(w, StartStep(w, id, o), k)
  {
  }

  lemma RowStepsSpareOthers(w: World, id: string, k: string)
    requires id != k
    ensures SameFor(w, CreateStep(w, id), k) && SameFor(w, EditStep(w, id), k)
  {
  }

  /** An operation on one deployment leaves the rows and the records of all others as they were. */
  lemma OthersUntouched(w: World, e: Event, k: string)
    requires Subject(e).Some? && Subject(e) != Some(k)
    ensures SameFor(w, Step(w, e), k)
  {
    match e
    case Create(id) => RowStepsSpareOthers(w, id, k);
    case Edit(id) => RowStepsSpareOthers(w, id, k);
    case Start(id, o) => StartSparesOthers(w, id, o, k);
    case Stop(id) => StopLeavesOthers(w, id, k);
    case Delete(id) => DeleteLeavesOthers(w, id, k);
    case _ =>
  }

  /** Looking up the record of a deployment that has a run id deletes it if it is not live; so a stop leaves
      no dead record of it. */
  lemma NoDeadRecordStays(w: World, id: string)
    requires id in w.rows.at && w.rows.at[id].run.Some?
    ensures id in Probed(w, id).registry <==> id in w.registry && RecordIsLive(w, w.registry[id])
    ensures id in StopStep(w, id).registry ==> id in w.registry && RecordIsLive(w, w.registry[id])
  {
  }

  /** A start ends no process, and one that does not come up begins none and changes at most the port of its
      row. */
  lemma StartEndsNoProcess(w: World, id: string, o: Outcome)
    ensures var w' := StartStep(w, id, o);
      && (forall p :: p in w.procs ==> p in w'.procs && w'.procs[p] == w.procs[p])
      && (!o.Up? && id in w.rows.at ==>
            w'.procs == w.procs && id in w'.rows.at && w'.rows.at[id] == w.rows.at[id].(port := w'.rows.at[id].port))
  {
  }

  // ---- Reused pids ----

  lemma FirstBotIsUp(a: string, r: string, p: Pid)
    ensures Run([Create(a)] + [Start(a, Up(r, p))], false)
         == World(OrderedDict([a], map[a := Row(true, true, Some(r), Some(FIRST_PORT), false)]),
                  map[a := RunRecord(r, p, None)], map[p := Bot(a, r, FIRST_PORT, 0)], 1, false)
  {
    assert [] + [Create(a)] == [Create(a)];
    var w1 := World(OrderedDict([a], map[a := Idle()]), map[], map[], 0, false);
    assert Run([Create(a)], false) == w1;
  }

  /** Without start ticks a pid can be reused unnoticed: the bot dies, another process gets its pid, and
      stopping the deployment kills that one. */
  lemma ReusedPidIsKilled(a: string, r: string, p: Pid)
    ensures var w := Run([Create(a)] + [Start(a, Up(r, p))] + [Die(p)] + [Appear(p)], false);
      && PidReused(w, a) && p in w.procs && w.procs[p].Other?
      && p !in StopStep(w, a).procs
  {
    var up := [Create(a)] + [Start(a, Up(r, p))];
    FirstBotIsUp(a, r, p);
    var w := Run(up, false);
    var dead := w.(procs := map[]);
    assert w.procs - {p} == map[];
    assert Run(up + [Die(p)], false) == dead;
  }
}
