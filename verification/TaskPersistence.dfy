/** Saving tasks to JSON and loading them back, and why a restart goes unnoticed. */
module TaskPersistence {
  import opened Wrappers
  import opened OrderedDicts
  import opened JsonValues
  import opened Calendar
  import opened Timestamps
  import opened TaskStore

  function RepeatName(r: Repeat): string {
    match r
    case Never => "none"
    case Daily => "daily"
    case Weekly => "weekly"
    case Monthly => "monthly"
  }

  /** `coerce_repeat`: anything unknown means no repetition. */
  function CoerceRepeat(j: Option<Json>): Repeat {
    if j == Some(Str("daily")) then Daily
    else if j == Some(Str("weekly")) then Weekly
    else if j == Some(Str("monthly")) then Monthly
    else Never
  }

  predicate Saveable(t: Task) {
    Printable(t.dueAt) && Printable(t.createdAt) && (t.until.Some? ==> Printable(t.until.value))
  }

  function Numbers(ns: seq<int>): seq<Json> {
    seq(|ns|, i requires 0 <= i < |ns| => Num(ns[i]))
  }

  /** A persisted task: what its dictionary holds under each field name, or `None`. */
  datatype TaskDict = TaskDict(
    id: Option<Json>, chatId: Option<Json>, goal: Option<Json>, message: Option<Json>, dueAt: Option<Json>,
    ownerId: Option<Json>, createdAt: Option<Json>, repeat: Option<Json>, interval: Option<Json>,
    weekdays: Option<Json>, until: Option<Json>, count: Option<Json>, occurrences: Option<Json>)

  /** The dictionary of a task whose times have been printed. */
  function DictOf(t: Task, due: string, created: string, until: Option<string>): TaskDict {
    TaskDict(
      Some(Str(t.id)), Some(Str(t.chatId)), Some(Str(t.goal)), None, Some(Str(due)),
      Some(Str(t.ownerId)), Some(Str(created)), Some(Str(RepeatName(t.repeat))), Some(Num(t.interval)),
      Some(if t.weekdays.Some? then Arr(Numbers(t.weekdays.value)) else Null),
      Some(if until.Some? then Str(until.value) else Null),
      Some(if t.count.Some? then Num(t.count.value) else Null),
      Some(Num(t.occurrences)))
  }

  /** `to_dict`. */
  function ToDict(t: Task): TaskDict
    requires Saveable(t)
  {
    DictOf(t, ToIso(t.dueAt), ToIso(t.createdAt), if t.until.Some? then Some(ToIso(t.until.value)) else None)
  }

  function ReadString(field: Option<Json>): Option<string> {
    match field case Some(Str(s)) => Some(s) case _ => None
  }

  function ReadNumber(field: Option<Json>, default: int): Option<int> {
    match field case None => Some(default) case Some(Num(n)) => Some(n) case _ => None
  }

  function ReadNumbers(items: seq<Json>): Option<seq<int>> {
    if items == [] then Some([])
    else
      var rest := ReadNumbers(items[1..]);
      if items[0].Num? && rest.Some? then Some([items[0].n] + rest.value) else None
  }

  /** A timestamp field whose absent or empty value means `default`. */
  function ReadTime(parse: string -> Option<DateTime>, field: Option<Json>,
                    default: Option<DateTime>): Option<Option<DateTime>> {
    match field
    case None => Some(default)
    case Some(Null) => Some(default)
    case Some(Str(s)) =>
      if s == "" then Some(default)
      else
        var t := parse(s);
        if t.Some? then Some(t) else None
    case _ => None
  }

  /** An empty list of weekdays is read as none. */
  function ReadWeekdays(field: Option<Json>): Option<Option<seq<int>>> {
    match field
    case None => Some(None)
    case Some(Null) => Some(None)
    case Some(Arr(items)) =>
      var ns := ReadNumbers(items);
      if ns.None? then None else if ns.value == [] then Some(None) else Some(ns)
    case _ => None
  }

  /** A count of zero is read as none. */
  function ReadCount(field: Option<Json>): Option<Option<int>> {
    match field
    case None => Some(None)
    case Some(Null) => Some(None)
    case Some(Num(n)) => if n == 0 then Some(None) else Some(Some(n))
    case _ => None
  }

  /** The goal, or the older "message" field when it is empty. */
  function ReadGoal(d: TaskDict): string {
    var goal, message := ReadString(d.goal), ReadString(d.message);
    if goal.Some? && goal.value != "" then goal.value else if message.Some? then message.value else ""
  }

  /** `from_dict`; `None` stands for the exception a malformed record raises. */
  function FromDict(d: TaskDict, now: DateTime): Option<Task> {
    Build(s => ParseIso(s), d, now)
  }

  /** `from_dict` with timestamps read by `parse`. */
  function Build(parse: string -> Option<DateTime>, d: TaskDict, now: DateTime): Option<Task> {
    var id, chatId, dueAt := ReadString(d.id), ReadString(d.chatId), ReadTime(parse, d.dueAt, None);
    var created, until := ReadTime(parse, d.createdAt, Some(now)), ReadTime(parse, d.until, None);
    var interval, occurrences := ReadNumber(d.interval, 1), ReadNumber(d.occurrences, 0);
    var owner := if d.ownerId.None? then Some("") else ReadString(d.ownerId);
    var weekdays, count := ReadWeekdays(d.weekdays), ReadCount(d.count);
    if id.None? || chatId.None? || owner.None? || dueAt.None? || dueAt.value.None? || created.None?
      || created.value.None?
       || until.None? || interval.None? || occurrences.None? || weekdays.None? || count.None?
    then None
    else Some(Task(id.value, chatId.value, ReadGoal(d), dueAt.value.value, owner.value, created.value.value,
                   CoerceRepeat(d.repeat), interval.value, weekdays.value, until.value, count.value,
                   occurrences.value))
  }

  /** What a saved and reloaded task has become. */
  function Reloaded(t: Task): Task {
    t.(dueAt := Truncate(t.dueAt), createdAt := Truncate(t.createdAt),
       until := if t.until.Some? then Some(Truncate(t.until.value)) else None,
       weekdays := if t.weekdays == Some([]) then None else t.weekdays,
       count := if t.count == Some(0) then None else t.count)
  }

  lemma {:induction false} NumbersRoundTrip(ns: seq<int>)
    ensures ReadNumbers(Numbers(ns)) == Some(ns)
    decreases |ns|
  {
    if ns != [] {
      assert Numbers(ns)[1..] == Numbers(ns[1..]);
      NumbersRoundTrip(ns[1..]);
      assert [ns[0]] + ns[1..] == ns;
    }
  }

  lemma TimeRoundTrip(t: DateTime, default: Option<DateTime>)
    requires Printable(t)
    ensures ReadTime(s => ParseIso(s), Some(Str(ToIso(t))), default) == Some(Some(Truncate(t)))
  {
    IsoRoundTrip(t);
    assert |ToIso(t)| > 0;
  }

  lemma DictReads(parse: string -> Option<DateTime>, t: Task, due: string, created: string, until: Option<string>,
                  now: DateTime, r: Task)
    requires ReadTime(parse, Some(Str(due)), None) == Some(Some(r.dueAt))
    requires ReadTime(parse, Some(Str(created)), Some(now)) == Some(Some(r.createdAt))
    requires if until.Some? then ReadTime(parse, Some(Str(until.value)), None) == Some(r.until) else r.until == None
    requires r == t.(dueAt := r.dueAt, createdAt := r.createdAt, until := r.until,
                     weekdays := if t.weekdays == Some([]) then None else t.weekdays,
                     count := if t.count == Some(0) then None else t.count)
    ensures Build(parse, DictOf(t, due, created, until), now) == Some(r)
  {
    WeekdaysRoundTrip(t.weekdays);
  }

  lemma WeekdaysRoundTrip(weekdays: Option<seq<int>>)
    ensures ReadWeekdays(Some(if weekdays.Some? then Arr(Numbers(weekdays.value)) else Null))
         == Some(if weekdays == Some([]) then None else weekdays)
  {
    if weekdays.Some? {
      NumbersRoundTrip(weekdays.value);
    }
  }

  /** Saving and reloading a task keeps whole seconds, reads a count of zero and an empty list of
      weekdays as none, and changes nothing else. */
  lemma TaskRoundTrip(t: Task, now: DateTime)
    requires Saveable(t)
    ensures FromDict(ToDict(t), now) == Some(Reloaded(t))
  {
    TimeRoundTrip(t.dueAt, None);
    TimeRoundTrip(t.createdAt, Some(now));
    if t.until.Some? {
      TimeRoundTrip(t.until.value, None);
    }
    DictReads(s => ParseIso(s), t, ToIso(t.dueAt), ToIso(t.createdAt),
              if t.until.Some? then Some(ToIso(t.until.value)) else None, now, Reloaded(t));
  }

  // ---- The task file ----

  /** One item of the "tasks" list: a dictionary, or something else, which loading skips. */
  datatype Item = Dict(d: TaskDict) | Other

  /** The item written for a stored task. No datetime of the source is past the year 9999. */
  function ItemOf(t: Task): Item {
    if Saveable(t) then Dict(ToDict(t)) else Other
  }

  /** The items `save_locked` writes for the tasks named in `order`. */
  function SavedAmong(tasks: Tasks, order: seq<string>): seq<Item>
    requires forall k :: k in order ==> k in tasks.at
  {
    if order == [] then []
    else SavedAmong(tasks, order[..|order| - 1]) + [ItemOf(tasks.at[order[|order| - 1]])]
  }

  ghost predicate AllSaveable(tasks: Tasks) {
    Keyed(tasks) && forall k :: k in tasks.at ==> Saveable(tasks.at[k])
  }

  ghost function Saved(tasks: Tasks): seq<Item>
    requires Keyed(tasks)
  {
    SavedAmong(tasks, tasks.order)
  }

  /** `load`: items without an id are skipped, and the first malformed record ends the loading. */
  function LoadItems(items: seq<Item>, now: DateTime, tasks: Tasks): Tasks
    decreases |items|
  {
    if items == [] then tasks
    else if items[0].Other? || items[0].d.id.None? then LoadItems(items[1..], now, tasks)
    else
      var t := FromDict(items[0].d, now);
      if t.None? then tasks else LoadItems(items[1..], now, tasks.Put(t.value.id, t.value))
  }

  predicate Loadable(items: seq<Item>, now: DateTime) {
    forall i :: 0 <= i < |items| ==> items[i].Dict? && FromDict(items[i].d, now).Some?
  }

  lemma {:induction false} LoadAppends(items: seq<Item>, more: seq<Item>, now: DateTime, tasks: Tasks)
    requires Loadable(items, now)
    ensures LoadItems(items + more, now, tasks) == LoadItems(more, now, LoadItems(items, now, tasks))
    decreases |items|
  {
    if items == [] {
      assert items + more == more;
    } else {
      assert (items + more)[1..] == items[1..] + more;
      var t := FromDict(items[0].d, now);
      LoadAppends(items[1..], more, now, tasks.Put(t.value.id, t.value));
    }
  }

  /** Loading takes the items one by one: one that is no dictionary or has no id is skipped, and a
      malformed one ends the loading with what has been loaded so far. */
  lemma {:induction false} LoadsItemByItem(before: seq<Item>, item: Item, after: seq<Item>, now: DateTime, tasks: Tasks)
    requires Loadable(before, now)
    ensures var loaded := LoadItems(before, now, tasks);
      LoadItems(before + [item] + after, now, tasks) ==
        if item.Other? || item.d.id.None? then LoadItems(before + after, now, tasks)
        else
          var t := FromDict(item.d, now);
          if t.None? then loaded else LoadItems(after, now, loaded.Put(t.value.id, t.value))
  {
    LoadAppends(before, [item] + after, now, tasks);
    LoadAppends(before, after, now, tasks);
    assert before + [item] + after == before + ([item] + after);
    assert ([item] + after)[1..] == after;
  }

  /** What an old record gives: only the id, the chat and the due time are needed, and the goal may still be
      called "message". */
  lemma OldRecordLoads(id: string, chatId: string, due: string, message: string, goal: Option<Json>, now: DateTime)
    requires due != "" && ParseIso(due).Some? && (goal == None || goal == Some(Str("")))
    ensures FromDict(TaskDict(Some(Str(id)), Some(Str(chatId)), goal, Some(Str(message)), Some(Str(due)),
                              None, None, None, None, None, None, None, None), now)
         == Some(Task(id, chatId, message, ParseIso(due).value, "", now, Never, 1, None, None, None, 0))
  {
  }

  /** The field is a text that should be a timestamp and is none. */
  predicate IsNoTime(field: Option<Json>) {
    field.Some? && field.value.Str? && field.value.s != "" && ParseIso(field.value.s).None?
  }

  /** The field is there and can be no number. */
  predicate IsNoNumber(field: Option<Json>) {
    field.Some? && (field.value.Null? || field.value.Arr? || field.value.Obj?)
  }

  /** A record with a timestamp that cannot be read, or with no number where one belongs, is malformed. */
  lemma UnreadableFieldsAreMalformed(d: TaskDict, now: DateTime)
    ensures IsNoTime(d.dueAt) || IsNoTime(d.createdAt) || IsNoTime(d.until) ==> FromDict(d, now).None?
    ensures IsNoNumber(d.interval) || IsNoNumber(d.occurrences) ==> FromDict(d, now).None?
  {
  }

  method SaveTasks(tasks: Tasks) returns (items: seq<Item>)
    requires Keyed(tasks)
    ensures items == Saved(tasks)
  {
    items := [];
    for i := 0 to |tasks.order|
      invariant forall k :: k in tasks.order[..i] ==> k in tasks.at
      invariant items == SavedAmong(tasks, tasks.order[..i])
    {
      var k := tasks.order[i];
      assert k in tasks.at;
      assert tasks.order[..i + 1][..i] == tasks.order[..i];
      items := items + [ItemOf(tasks.at[k])];
    }
    assert tasks.order[..|tasks.order|] == tasks.order;
  }

  method LoadTasks(items: seq<Item>, now: DateTime) returns (tasks: Tasks)
    ensures tasks == LoadItems(items, now, Empty())
  {
    tasks := Empty();
    for i := 0 to |items|
      invariant LoadItems(items[i..], now, tasks) == LoadItems(items, now, Empty())
    {
      assert items[i..][1..] == items[i + 1..];
      if items[i].Other? || items[i].d.id.None? {
        continue;
      }
      var t := FromDict(items[i].d, now);
      if t.None? {
        return;
      }
      tasks := tasks.Put(t.value.id, t.value);
    }
  }

  function ReloadedAll(tasks: Tasks): Tasks {
    OrderedDict(tasks.order, map k | k in tasks.at :: Reloaded(tasks.at[k]))
  }

  /** `r` holds the reloaded tasks named in `order`, in that order. */
  ghost predicate HoldsReloaded(r: Tasks, tasks: Tasks, order: seq<string>) {
    && r.order == order
    && forall k :: if k in order && k in tasks.at then k in r.at && r.at[k] == Reloaded(tasks.at[k]) else k !in r.at
  }

  lemma {:induction false} SavedLoads(tasks: Tasks, order: seq<string>, now: DateTime)
    requires AllSaveable(tasks) && Distinct(order) && forall k :: k in order ==> k in tasks.at
    ensures Loadable(SavedAmong(tasks, order), now)
    ensures HoldsReloaded(LoadItems(SavedAmong(tasks, order), now, Empty()), tasks, order)
  {
    if order != [] {
      var init, last := order[..|order| - 1], order[|order| - 1];
      InitOf(order);
      SavedLoads(tasks, init, now);
      SavedLoadsOneMore(tasks, init, last, SavedAmong(tasks, init), now);
    }
  }

  lemma InitOf(order: seq<string>)
    requires Distinct(order) && order != []
    ensures var init, last := order[..|order| - 1], order[|order| - 1];
      order == init + [last] && Distinct(init) && last !in init && forall k :: k in init ==> k in order
  {
  }

  lemma SavedLoadsOneMore(tasks: Tasks, init: seq<string>, last: string, items: seq<Item>, now: DateTime)
    requires AllSaveable(tasks) && last in tasks.at && last !in init
    requires Loadable(items, now) && HoldsReloaded(LoadItems(items, now, Empty()), tasks, init)
    ensures Loadable(items + [ItemOf(tasks.at[last])], now)
    ensures HoldsReloaded(LoadItems(items + [ItemOf(tasks.at[last])], now, Empty()), tasks, init + [last])
  {
    var t := tasks.at[last];
    TaskRoundTrip(t, now);
    var before := LoadItems(items, now, Empty());
    LoadAppends(items, [ItemOf(t)], now, Empty());
  }

  /** Saving all tasks and loading them again keeps their order and reloads each one. */
  lemma SaveThenLoad(tasks: Tasks, now: DateTime)
    requires AllSaveable(tasks)
    ensures LoadItems(Saved(tasks), now, Empty()) == ReloadedAll(tasks)
  {
    SavedLoads(tasks, tasks.order, now);
    assert LoadItems(Saved(tasks), now, Empty()).at == ReloadedAll(tasks).at;
  }

  // ---- Restarts go unnoticed ----

  /** Tasks whose recurrence a reload does not change. */
  predicate Tidy(t: Task) {
    && Valid(t.dueAt) && t.dueAt.micros % SECOND_MICROS == 0
    && (t.until.Some? ==> t.until.value.micros % SECOND_MICROS == 0)
    && t.count != Some(0) && t.weekdays != Some([])
  }

  /** The same task but for the time it was created. */
  predicate Alike(a: Task, b: Task) {
    a == b.(createdAt := a.createdAt)
  }

  ghost predicate AllTidy(tasks: Tasks) {
    Keyed(tasks) && forall k :: k in tasks.at ==> Tidy(tasks.at[k])
  }

  ghost predicate AllAlike(a: Tasks, b: Tasks) {
    && a.order == b.order
    && forall k :: if k in a.at then k in b.at && Alike(a.at[k], b.at[k]) else k !in b.at
  }

  predicate FiredAlike(a: seq<Task>, b: seq<Task>) {
    |a| == |b| && forall i :: 0 <= i < |a| ==> Alike(a[i], b[i])
  }

  lemma AdvancedKeeps(t: Task)
    requires Tidy(t)
    ensures t.repeat != Never ==> Tidy(Advanced(t))
  {
    if t.repeat != Never {
      AdvanceIsLater(t);
      if t.repeat == Weekly {
        WeeklyIsLater(t.dueAt, if t.interval < 1 then 1 else t.interval, t.weekdays);
      }
    }
  }

  lemma {:induction false} DueAlike(a: Tasks, b: Tasks, order: seq<string>, now: int)
    requires AllAlike(a, b)
    ensures FiredAlike(DueAmong(a, order, now), DueAmong(b, order, now))
    decreases |order|
  {
    if order != [] {
      DueAlike(a, b, order[1..], now);
    }
  }

  lemma {:induction false} FireAllAlike(a: Tasks, b: Tasks, ss: seq<Task>, ts: seq<Task>)
    requires AllAlike(a, b) && FiredAlike(ss, ts)
    ensures AllAlike(FireAll(a, ss), FireAll(b, ts))
  {
    if ss != [] {
      var n := |ss| - 1;
      FireAllAlike(a, b, ss[..n], ts[..n]);
    }
  }

  /** A reload leaves a task as it was, but for its creation time, exactly when its times are whole
      seconds, its count is not zero and its weekdays are not an empty list. */
  lemma ReloadsAlikeIff(t: Task)
    requires Valid(t.dueAt)
    ensures Alike(Reloaded(t), t) <==> Tidy(t)
  {
    if t.until.Some? {
      assert Truncate(t.until.value) == t.until.value <==> t.until.value.micros % SECOND_MICROS == 0;
    }
    assert Truncate(t.dueAt) == t.dueAt <==> t.dueAt.micros % SECOND_MICROS == 0;
  }

  /** A task with a count of zero is dropped at its first fire, but reloaded before it recurs for ever. */
  lemma ZeroCountRevives(t: Task, n: nat)
    requires Valid(t.dueAt) && t.repeat != Never && t.until == None && t.count == Some(0) && t.occurrences >= 0
    ensures !Continues(t) && Continues(Nth(Reloaded(t), n))
  {
    NthFacts(Reloaded(t), n);
  }

  datatype RestartEvent = Plain(e: Event) | Restart(now: DateTime)

  /** The store, and what each pop so far has fired. */
  datatype Log = Log(tasks: Tasks, fired: seq<seq<Task>>)

  function Plainly(l: Log, e: Event): Log {
    match e
    case AddTask(t) => l.(tasks := l.tasks.Put(t.id, t))
    case Cancel(id, chatId) => l.(tasks := CancelTask(l.tasks, id, chatId))
    case Pop(now) => Log(PopDue(l.tasks, now), l.fired + [Due(l.tasks, now)])
  }

  /** A restart saves the store and loads it back; a store holding a time past the year 9999 is not
      restarted. */
  ghost function Live(l: Log, e: RestartEvent): Log {
    match e
    case Plain(p) => Plainly(l, p)
    case Restart(now) => if AllSaveable(l.tasks) then l.(tasks := LoadItems(Saved(l.tasks), now, Empty())) else l
  }

  ghost function RunLive(events: seq<RestartEvent>): Log {
    if events == [] then Log(Empty(), []) else Live(RunLive(events[..|events| - 1]), events[|events| - 1])
  }

  /** The same events without the restarts. */
  ghost function RunPlain(events: seq<RestartEvent>): Log {
    if events == [] then Log(Empty(), [])
    else
      var before, last := RunPlain(events[..|events| - 1]), events[|events| - 1];
      if last.Plain? then Plainly(before, last.e) else before
  }

  predicate AddsTidy(e: RestartEvent) {
    e.Plain? && e.e.AddTask? ==> Tidy(e.e.task)
  }

  predicate AllFiredAlike(a: seq<seq<Task>>, b: seq<seq<Task>>) {
    |a| == |b| && forall i :: 0 <= i < |a| ==> FiredAlike(a[i], b[i])
  }

  predicate AreTidy(due: seq<Task>) {
    forall t :: t in due ==> Tidy(t)
  }

  lemma {:induction false} DueTidy(tasks: Tasks, order: seq<string>, now: int)
    requires AllTidy(tasks)
    ensures AreTidy(DueAmong(tasks, order, now))
    decreases |order|
  {
    if order != [] {
      DueTidy(tasks, order[1..], now);
    }
  }

  lemma {:induction false} FireAllTidy(tasks: Tasks, due: seq<Task>)
    requires AllTidy(tasks) && AreTidy(due)
    ensures AllTidy(FireAll(tasks, due))
  {
    if due != [] {
      var init, last := due[..|due| - 1], due[|due| - 1];
      FireAllTidy(tasks, init);
      RemoveValid(FireAll(tasks, init), last.id);
      PutValid(FireAll(tasks, init).Remove(last.id), last.id, Advanced(last));
      AdvancedKeeps(last);
    }
  }

  lemma PlainlyTidy(l: Log, e: Event)
    requires AllTidy(l.tasks) && (e.AddTask? ==> Tidy(e.task))
    ensures AllTidy(Plainly(l, e).tasks)
  {
    match e
    case AddTask(t) => PutValid(l.tasks, t.id, t);
    case Cancel(id, chatId) => RemoveValid(l.tasks, id);
    case Pop(now) =>
      DueTidy(l.tasks, l.tasks.order, now);
      FireAllTidy(l.tasks, Due(l.tasks, now));
  }

  lemma PlainlyAlike(a: Log, b: Log, e: Event)
    requires AllAlike(a.tasks, b.tasks) && AllFiredAlike(a.fired, b.fired)
    ensures AllAlike(Plainly(a, e).tasks, Plainly(b, e).tasks)
    ensures AllFiredAlike(Plainly(a, e).fired, Plainly(b, e).fired)
  {
    if e.Pop? {
      DueAlike(a.tasks, b.tasks, a.tasks.order, e.now);
      FireAllAlike(a.tasks, b.tasks, Due(a.tasks, e.now), Due(b.tasks, e.now));
    }
  }

  /** Restarting between any two events changes neither what any pop fires nor its order, nor what
      the store holds, but for the tasks' creation times losing fractions of a second. */
  lemma {:induction false} RestartsGoUnnoticed(events: seq<RestartEvent>)
    requires forall i :: 0 <= i < |events| ==> AddsTidy(events[i])
    ensures AllFiredAlike(RunLive(events).fired, RunPlain(events).fired)
    ensures AllAlike(RunLive(events).tasks, RunPlain(events).tasks)
    ensures AllTidy(RunLive(events).tasks)
  {
    if events != [] {
      var init, last := events[..|events| - 1], events[|events| - 1];
      RestartsGoUnnoticed(init);
      var a, b := RunLive(init), RunPlain(init);
      match last
      case Plain(e) =>
        assert AddsTidy(last);
        PlainlyTidy(a, e);
        PlainlyAlike(a, b, e);
      case Restart(now) =>
        if AllSaveable(a.tasks) {
          SaveThenLoad(a.tasks, now);
        }
    }
  }
}
