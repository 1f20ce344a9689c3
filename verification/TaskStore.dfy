/** The store of scheduled tasks: recurrence limits, `pop_due` and what fires over a whole run. */
module TaskStore {
  import opened Wrappers
  import opened OrderedDicts
  import opened Calendar
  import opened Recurrence

  datatype Repeat = Never | Daily | Weekly | Monthly

  datatype Task = Task(
    id: string, chatId: string, goal: string, dueAt: DateTime, ownerId: string, createdAt: DateTime,
    repeat: Repeat, interval: int, weekdays: Option<seq<int>>,
    until: Option<DateTime>, count: Option<int>, occurrences: int)

  type Tasks = OrderedDict<Task>

  // ---- Recurrence of one task ----

  /** `advance_recurrence`. */
  function AdvanceRecurrence(t: Task): DateTime {
    var interval: nat := if t.interval < 1 then 1 else t.interval;
    match t.repeat
    case Never => t.dueAt
    case Daily => t.dueAt.(date := AddDays(t.dueAt.date, interval))
    case Weekly => AdvanceWeekly(t.dueAt, interval, t.weekdays)
    case Monthly => AdvanceMonthly(t.dueAt, interval)
  }

  /** `compute_next_due`. */
  function ComputeNextDue(t: Task): Option<DateTime> {
    if t.repeat == Never then None
    else
      var next := AdvanceRecurrence(t);
      if t.until.Some? && Instant(next) > Instant(t.until.value) then None
      else if t.count.Some? && t.occurrences + 1 >= t.count.value then None
      else Some(next)
  }

  /** The task after one more fire. */
  function Advanced(t: Task): Task {
    t.(dueAt := AdvanceRecurrence(t), occurrences := t.occurrences + 1)
  }

  /** Any recurrence moves the due time at least a day on. */
  lemma AdvanceIsLater(t: Task)
    requires Valid(t.dueAt) && t.repeat != Never
    ensures Valid(AdvanceRecurrence(t)) && Instant(AdvanceRecurrence(t)) >= Instant(t.dueAt) + DAY_MICROS
  {
    var interval: nat := if t.interval < 1 then 1 else t.interval;
    match t.repeat
    case Daily => AddDaysCounts(t.dueAt.date, interval);
    case Weekly => WeeklyIsLater(t.dueAt, interval, t.weekdays);
    case Monthly => MonthlyStep(t.dueAt.date, interval);
  }

  lemma WeeklyIsLater(t: DateTime, interval: nat, weekdays: Option<seq<int>>)
    requires Valid(t) && interval >= 1
    ensures var r := AdvanceWeekly(t, interval, weekdays);
      Valid(r) && r.micros == t.micros && Ordinal(r.date) > Ordinal(t.date)
  {
    AddDaysCounts(t.date, 7 * interval);
    if weekdays.Some? {
      SearchIsLater(t.date, weekdays.value, 7 * interval + 1);
    }
  }

  lemma {:induction false} SearchIsLater(d: Date, weekdays: seq<int>, n: nat)
    requires ValidDate(d)
    ensures ValidDate(SearchWeekday(d, weekdays, n))
    ensures Ordinal(SearchWeekday(d, weekdays, n)) >= Ordinal(d) + if n > 0 then 1 else 0
    decreases n
  {
    if n > 0 {
      NextDayCounts(d);
      SearchIsLater(NextDay(d), weekdays, n - 1);
    }
  }

  // ---- The store as a function ----

  /** The stored tasks due at `now`, in store order. */
  function DueAmong(tasks: Tasks, order: seq<string>, now: int): seq<Task> {
    if order == [] then []
    else
      (if order[0] in tasks.at && Instant(tasks.at[order[0]].dueAt) <= now then [tasks.at[order[0]]] else [])
      + DueAmong(tasks, order[1..], now)
  }

  function Due(tasks: Tasks, now: int): seq<Task> {
    DueAmong(tasks, tasks.order, now)
  }

  function FireOne(tasks: Tasks, t: Task): Tasks {
    var rest := tasks.Remove(t.id);
    if t.repeat != Never && ComputeNextDue(t).Some? then rest.Put(t.id, Advanced(t)) else rest
  }

  function FireAll(tasks: Tasks, due: seq<Task>): Tasks {
    if due == [] then tasks else FireOne(FireAll(tasks, due[..|due| - 1]), due[|due| - 1])
  }

  function CancelTask(tasks: Tasks, id: string, chatId: string): Tasks {
    if id in tasks.at && tasks.at[id].chatId == chatId then tasks.Remove(id) else tasks
  }

  function PopDue(tasks: Tasks, now: int): Tasks {
    FireAll(tasks, Due(tasks, now))
  }

  // ---- The store as the source keeps it ----

  class Store {
    var tasks: Tasks

    constructor ()
      ensures tasks == Empty()
    {
      tasks := Empty();
    }

    method Add(task: Task)
      modifies this
      ensures tasks == old(tasks).Put(task.id, task)
    {
      tasks := tasks.Put(task.id, task);
    }

    method Cancel(id: string, chatId: string) returns (cancelled: bool)
      modifies this
      ensures tasks == CancelTask(old(tasks), id, chatId)
      ensures cancelled <==> id in old(tasks).at && old(tasks).at[id].chatId == chatId
    {
      if id !in tasks.at {
        return false;
      }
      if tasks.at[id].chatId != chatId {
        return false;
      }
      tasks := tasks.Remove(id);
      return true;
    }

    /** `pop_due`. */
    method Pop(now: int) returns (fired: seq<Task>)
      modifies this
      ensures fired == Due(old(tasks), now) && tasks == PopDue(old(tasks), now)
    {
      var due := ListDue(now);
      ghost var before := tasks;
      fired := [];
      for i := 0 to |due|
        invariant fired == due[..i] && tasks == FireAll(before, due[..i])
      {
        assert due[..i + 1][..i] == due[..i];
        FireTask(due[i]);
        fired := fired + [due[i]];
      }
      assert due[..|due|] == due;
    }

    method ListDue(now: int) returns (due: seq<Task>)
      ensures due == Due(tasks, now)
    {
      due := [];
      ghost var all := Due(tasks, now);
      assert tasks.order[0..] == tasks.order;
      for i := 0 to |tasks.order|
        invariant due + DueAmong(tasks, tasks.order[i..], now) == all
      {
        var k := tasks.order[i];
        ghost var rest := DueAmong(tasks, tasks.order[i + 1..], now);
        if k in tasks.at && Instant(tasks.at[k].dueAt) <= now {
          due := due + [tasks.at[k]];
        } else {
          assert [] + rest == rest;
        }
      }
      assert due + [] == due;
    }

    /** One trip of the firing loop: take the task out, and put its successor back. */
    method FireTask(t: Task)
      modifies this
      ensures tasks == FireOne(old(tasks), t)
    {
      tasks := tasks.Remove(t.id);
      if t.repeat != Never {
        var next := ComputeNextDue(t);
        if next.Some? {
          var t2 := t.(dueAt := next.value, occurrences := t.occurrences + 1);
          tasks := tasks.Put(t2.id, t2);
        }
      }
    }
  }

  // ---- Whole runs ----

  datatype Event = AddTask(task: Task) | Cancel(id: string, chatId: string) | Pop(now: int)

  datatype Fire = Fire(now: int, task: Task)

  /** What has become of the task last added under an id. */
  datatype Life = Life(first: Task, fires: seq<Fire>, cancelled: bool)

  /** The store together with the lives of the tasks it was given. */
  datatype World = World(tasks: Tasks, lives: map<string, Life>)

  function Record(lives: map<string, Life>, now: int, t: Task): map<string, Life> {
    if t.id in lives then lives[t.id := lives[t.id].(fires := lives[t.id].fires + [Fire(now, t)])] else lives
  }

  function RecordAll(lives: map<string, Life>, now: int, fired: seq<Task>): map<string, Life> {
    if fired == [] then lives else Record(RecordAll(lives, now, fired[..|fired| - 1]), now, fired[|fired| - 1])
  }

  function Step(w: World, e: Event): World {
    match e
    case AddTask(t) => World(w.tasks.Put(t.id, t), w.lives[t.id := Life(t, [], false)])
    case Cancel(id, chatId) =>
      World(CancelTask(w.tasks, id, chatId),
            if id in w.tasks.at && w.tasks.at[id].chatId == chatId && id in w.lives
            then w.lives[id := w.lives[id].(cancelled := true)] else w.lives)
    case Pop(now) => World(PopDue(w.tasks, now), RecordAll(w.lives, now, Due(w.tasks, now)))
  }

  function Run(events: seq<Event>): World {
    if events == [] then World(Empty(), map[]) else Step(Run(events[..|events| - 1]), events[|events| - 1])
  }

  /** Tasks are added with a real due time and no fires behind them. */
  predicate Fresh(e: Event) {
    e.AddTask? ==> Valid(e.task.dueAt) && e.task.occurrences == 0
  }

  /** The task after `n` fires. */
  function Nth(first: Task, n: nat): Task {
    if n == 0 then first else Advanced(Nth(first, n - 1))
  }

  /** The task recurs after this fire. */
  predicate Continues(t: Task) {
    t.repeat != Never && ComputeNextDue(t).Some?
  }

  predicate LifeOk(life: Life) {
    && Valid(life.first.dueAt) && life.first.occurrences == 0
    && (forall i :: 0 <= i < |life.fires| ==>
          life.fires[i].task == Nth(life.first, i) && Instant(life.fires[i].task.dueAt) <= life.fires[i].now)
    && (forall i :: 0 <= i < |life.fires| - 1 ==> Continues(Nth(life.first, i)))
  }

  /** The life is not over: its next fire is still to come. */
  predicate Pending(life: Life) {
    !life.cancelled && (life.fires == [] || Continues(Nth(life.first, |life.fires| - 1)))
  }

  ghost predicate Keyed(tasks: Tasks) {
    tasks.Valid() && forall k :: k in tasks.at ==> tasks.at[k].id == k
  }

  /** What the store and the life of one id have to do with each other. */
  ghost predicate KeyOk(w: World, k: string) {
    && (k in w.lives ==> LifeOk(w.lives[k]) && w.lives[k].first.id == k)
    && (k in w.tasks.at <==> k in w.lives && Pending(w.lives[k]))
    && (k in w.tasks.at ==> w.tasks.at[k] == Nth(w.lives[k].first, |w.lives[k].fires|) && w.tasks.at[k].id == k)
  }

  ghost predicate Inv(w: World) {
    w.tasks.Valid() && forall k :: KeyOk(w, k)
  }

  lemma {:induction false} NthFacts(first: Task, n: nat)
    requires Valid(first.dueAt)
    ensures Valid(Nth(first, n).dueAt)
    ensures Nth(first, n) == first.(dueAt := Nth(first, n).dueAt, occurrences := first.occurrences + n)
  {
    if n > 0 {
      NthFacts(first, n - 1);
      if first.repeat != Never {
        AdvanceIsLater(Nth(first, n - 1));
      }
    }
  }

  function Ids(due: seq<Task>): set<string> {
    set t | t in due :: t.id
  }

  /** `due` names stored tasks, each once, all due at `now`. */
  ghost predicate Listed(tasks: Tasks, due: seq<Task>, now: int) {
    && (forall i :: 0 <= i < |due| ==>
          due[i].id in tasks.at && tasks.at[due[i].id] == due[i] && Instant(due[i].dueAt) <= now)
    && (forall i, j :: 0 <= i < j < |due| ==> due[i].id != due[j].id)
  }

  lemma {:induction false} DueListed(tasks: Tasks, order: seq<string>, now: int)
    requires Keyed(tasks) && Distinct(order)
    ensures Listed(tasks, DueAmong(tasks, order, now), now)
    ensures forall t :: t in DueAmong(tasks, order, now) <==>
                        t.id in order && t.id in tasks.at && tasks.at[t.id] == t && Instant(t.dueAt) <= now
    decreases |order|
  {
    if order != [] {
      assert order == [order[0]] + order[1..];
      assert order[0] !in order[1..];
      DueListed(tasks, order[1..], now);
      var rest := DueAmong(tasks, order[1..], now);
      forall i | 0 <= i < |rest| ensures rest[i].id != order[0] {
        assert rest[i] in rest;
      }
    }
  }

  /** Key `k` holds in `after` what it holds in `before`. */
  predicate Untouched(before: Tasks, after: Tasks, k: string) {
    if k in before.at then k in after.at && after.at[k] == before.at[k] else k !in after.at
  }

  lemma ListedInit(tasks: Tasks, due: seq<Task>, now: int)
    requires Listed(tasks, due, now) && due != []
    ensures var init, last := due[..|due| - 1], due[|due| - 1];
      Listed(tasks, init, now) && Ids(due) == Ids(init) + {last.id} && last.id !in Ids(init)
  {
    var init, last := due[..|due| - 1], due[|due| - 1];
    assert due == init + [last];
    assert Listed(tasks, init, now);
    forall t | t in init ensures t.id != last.id {
      var i :| 0 <= i < |init| && init[i] == t;
      assert due[i].id != due[|due| - 1].id;
    }
  }

  lemma FireExtendsLife(life: Life, now: int, t: Task)
    requires LifeOk(life) && Pending(life) && t == Nth(life.first, |life.fires|) && Instant(t.dueAt) <= now
    ensures var after := life.(fires := life.fires + [Fire(now, t)]);
      LifeOk(after) && (Pending(after) <==> Continues(t)) && Nth(after.first, |after.fires|) == Advanced(t)
  {
    var after := life.(fires := life.fires + [Fire(now, t)]);
    forall i | 0 <= i < |after.fires|
      ensures after.fires[i].task == Nth(life.first, i) && Instant(after.fires[i].task.dueAt) <= after.fires[i].now
    {
      if i < |life.fires| {
        assert after.fires[i] == life.fires[i];
      }
    }
    FiresContinue(life);
  }

  /** Before a pending life's next fire, all its fires were followed by another. */
  lemma FiresContinue(life: Life)
    requires LifeOk(life) && Pending(life)
    ensures forall i :: 0 <= i < |life.fires| ==> Continues(Nth(life.first, i))
  {
  }

  lemma FireOneKeeps(w: World, t: Task, now: int)
    requires Inv(w) && t.id in w.tasks.at && w.tasks.at[t.id] == t && Instant(t.dueAt) <= now
    ensures Inv(World(FireOne(w.tasks, t), Record(w.lives, now, t)))
    ensures forall k :: k != t.id ==> Untouched(w.tasks, FireOne(w.tasks, t), k)
  {
    assert KeyOk(w, t.id);
    var w' := World(FireOne(w.tasks, t), Record(w.lives, now, t));
    RemoveValid(w.tasks, t.id);
    PutValid(w.tasks.Remove(t.id), t.id, Advanced(t));
    FireExtendsLife(w.lives[t.id], now, t);
    forall k ensures KeyOk(w', k) {
      assert KeyOk(w, k);
    }
  }

  lemma {:induction false} FireAllKeeps(w: World, due: seq<Task>, now: int)
    requires Inv(w) && Listed(w.tasks, due, now)
    ensures Inv(World(FireAll(w.tasks, due), RecordAll(w.lives, now, due)))
    ensures forall k :: k !in Ids(due) ==> Untouched(w.tasks, FireAll(w.tasks, due), k)
  {
    if due != [] {
      var init, last := due[..|due| - 1], due[|due| - 1];
      ListedInit(w.tasks, due, now);
      FireAllKeeps(w, init, now);
      assert Untouched(w.tasks, FireAll(w.tasks, init), last.id);
      FireOneKeeps(World(FireAll(w.tasks, init), RecordAll(w.lives, now, init)), last, now);
    }
  }

  lemma AddKeeps(w: World, t: Task)
    requires Inv(w) && Fresh(AddTask(t))
    ensures Inv(Step(w, AddTask(t)))
  {
    PutValid(w.tasks, t.id, t);
    forall k ensures KeyOk(Step(w, AddTask(t)), k) {
      assert KeyOk(w, k);
    }
  }

  lemma CancelKeeps(w: World, id: string, chatId: string)
    requires Inv(w)
    ensures Inv(Step(w, Cancel(id, chatId)))
  {
    RemoveValid(w.tasks, id);
    forall k ensures KeyOk(Step(w, Cancel(id, chatId)), k) {
      assert KeyOk(w, k);
    }
  }

  lemma InvKeyed(w: World)
    requires Inv(w)
    ensures Keyed(w.tasks)
  {
    forall k | k in w.tasks.at ensures w.tasks.at[k].id == k {
      assert KeyOk(w, k);
    }
  }

  lemma StepKeeps(w: World, e: Event)
    requires Inv(w) && Fresh(e)
    ensures Inv(Step(w, e))
  {
    match e
    case AddTask(t) => AddKeeps(w, t);
    case Cancel(id, chatId) => CancelKeeps(w, id, chatId);
    case Pop(now) =>
      InvKeyed(w);
      DueListed(w.tasks, w.tasks.order, now);
      FireAllKeeps(w, Due(w.tasks, now), now);
  }

  lemma {:induction false} RunKeeps(events: seq<Event>)
    requires forall i :: 0 <= i < |events| ==> Fresh(events[i])
    ensures Inv(Run(events))
  {
    if events != [] {
      RunKeeps(events[..|events| - 1]);
      StepKeeps(Run(events[..|events| - 1]), events[|events| - 1]);
    }
  }

  // ---- The main results ----

  lemma {:induction false} DuesIncrease(first: Task, i: nat, j: nat)
    requires Valid(first.dueAt) && first.repeat != Never && i < j
    ensures Instant(Nth(first, i).dueAt) + DAY_MICROS <= Instant(Nth(first, j).dueAt)
    decreases j
  {
    NthFacts(first, j - 1);
    AdvanceIsLater(Nth(first, j - 1));
    if i < j - 1 {
      DuesIncrease(first, i, j - 1);
    }
  }

  lemma ContinuesMeans(first: Task, i: nat)
    requires Valid(first.dueAt) && first.occurrences == 0 && Continues(Nth(first, i))
    ensures first.repeat != Never
    ensures first.count.Some? ==> i + 1 < first.count.value
    ensures first.until.Some? ==> Instant(Nth(first, i + 1).dueAt) <= Instant(first.until.value)
  {
    NthFacts(first, i);
  }

  lemma LifeLaw(life: Life)
    requires LifeOk(life)
    ensures forall i, j :: 0 <= i < j < |life.fires| ==>
              Instant(life.fires[i].task.dueAt) + DAY_MICROS <= Instant(life.fires[j].task.dueAt)
    ensures life.first.repeat == Never ==> |life.fires| <= 1
    ensures life.first.count.Some? ==>
        |life.fires| <= (if life.first.count.value < 1 then 1 else life.first.count.value)
    ensures life.first.until.Some? ==> forall i :: 1 <= i < |life.fires| ==>
              Instant(life.fires[i].task.dueAt) <= Instant(life.first.until.value)
  {
    var n := |life.fires|;
    if n >= 2 {
      ContinuesMeans(life.first, n - 2);
    }
    forall i | 1 <= i < n
      ensures life.first.until.Some? ==> Instant(life.fires[i].task.dueAt) <= Instant(life.first.until.value)
    {
      ContinuesMeans(life.first, i - 1);
    }
    forall i, j | 0 <= i < j < n
      ensures Instant(life.fires[i].task.dueAt) + DAY_MICROS <= Instant(life.fires[j].task.dueAt)
    {
      DuesIncrease(life.first, i, j);
    }
  }

  /** A fire is followed by another exactly if the task recurs, `count` allows one more and `until` the next
      due time. */
  lemma ContinuesIff(first: Task, i: nat)
    requires Valid(first.dueAt) && first.occurrences == 0
    ensures Continues(Nth(first, i)) <==>
              && first.repeat != Never
              && (first.count.Some? ==> i + 1 < first.count.value)
              && (first.until.Some? ==> Instant(Nth(first, i + 1).dueAt) <= Instant(first.until.value))
  {
    NthFacts(first, i);
  }

  /** The task has a fire to come: it was not cancelled, and has not fired yet or recurs with fewer fires
      than `count` and its next due time within `until`. */
  predicate FireToCome(life: Life) {
    && !life.cancelled
    && var first, fired := life.first, |life.fires|;
       fired == 0 || (&& first.repeat != Never
                      && (first.count.Some? ==> fired < first.count.value)
                      && (first.until.Some? ==> Instant(Nth(first, fired).dueAt) <= Instant(first.until.value)))
  }

  /** Over any run the store holds a task exactly when a fire of it is to come, with the next due time and
      the number of fires so far. */
  lemma StoredMatchesFires(events: seq<Event>, id: string)
    requires forall i :: 0 <= i < |events| ==> Fresh(events[i])
    ensures var w := Run(events);
      && (id in w.tasks.at <==> id in w.lives && FireToCome(w.lives[id]))
      && (id in w.tasks.at ==>
            w.tasks.at[id] == Nth(w.lives[id].first, |w.lives[id].fires|)
            && w.tasks.at[id].occurrences == |w.lives[id].fires|)
  {
    RunKeeps(events);
    var w := Run(events);
    assert KeyOk(w, id);
    if id in w.lives {
      NthFacts(w.lives[id].first, |w.lives[id].fires|);
      if w.lives[id].fires != [] {
        ContinuesIff(w.lives[id].first, |w.lives[id].fires| - 1);
      }
    }
  }

  /** Over any run of additions, cancellations and pops, the fires of a task since it was added
      fall on the repeated advances of its first due time, strictly later each time and never
      early; there are at most max(1, count), and all but the first are within `until`. Unless it is
      cancelled, the task is stored until it has had all its fires. */
  lemma FiringLaw(events: seq<Event>, id: string)
    requires forall i :: 0 <= i < |events| ==> Fresh(events[i])
    requires id in Run(events).lives
    ensures var life := Run(events).lives[id];
      && (forall i :: 0 <= i < |life.fires| ==>
            life.fires[i].task == Nth(life.first, i) && Instant(life.fires[i].task.dueAt) <= life.fires[i].now)
      && (forall i, j :: 0 <= i < j < |life.fires| ==>
            Instant(life.fires[i].task.dueAt) + DAY_MICROS <= Instant(life.fires[j].task.dueAt))
      && (life.first.repeat == Never ==> |life.fires| <= 1)
      && (life.first.count.Some? ==> |life.fires| <= (if life.first.count.value < 1 then 1 else life.first.count.value))
      && (life.first.until.Some? ==> forall i :: 1 <= i < |life.fires| ==>
            Instant(life.fires[i].task.dueAt) <= Instant(life.first.until.value))
      && (id in Run(events).tasks.at <==> FireToCome(life))
  {
    RunKeeps(events);
    assert KeyOk(Run(events), id);
    LifeLaw(Run(events).lives[id]);
    StoredMatchesFires(events, id);
  }

  // ---- When the fires fall ----

  function Interval(t: Task): nat {
    if t.interval < 1 then 1 else t.interval
  }

  lemma {:induction false} AddDaysTwice(d: Date, m: nat, n: nat)
    ensures AddDays(AddDays(d, m), n) == AddDays(d, m + n)
    decreases m
  {
    if m > 0 {
      AddDaysTwice(NextDay(d), m - 1, n);
    }
  }

  lemma OneMore(n: nat, step: nat)
    requires n > 0
    ensures (n - 1) * step + step == n * step && (n - 1) * step >= 0
  {
  }

  lemma {:induction false} DailyDues(first: Task, n: nat)
    requires first.repeat == Daily
    ensures Nth(first, n) == first.(dueAt := Nth(first, n).dueAt, occurrences := first.occurrences + n)
    ensures n * Interval(first) >= 0
    ensures Nth(first, n).dueAt == first.dueAt.(date := AddDays(first.dueAt.date, n * Interval(first)))
  {
    if n > 0 {
      DailyDues(first, n - 1);
      OneMore(n, Interval(first));
      AddDaysTwice(first.dueAt.date, (n - 1) * Interval(first), Interval(first));
    }
  }

  lemma {:induction false} PlainWeeklyDues(first: Task, n: nat)
    requires first.repeat == Weekly && (first.weekdays.None? || first.weekdays.value == [])
    ensures Nth(first, n) == first.(dueAt := Nth(first, n).dueAt, occurrences := first.occurrences + n)
    ensures n * (7 * Interval(first)) >= 0
    ensures Nth(first, n).dueAt == first.dueAt.(date := AddDays(first.dueAt.date, n * (7 * Interval(first))))
  {
    if n > 0 {
      PlainWeeklyDues(first, n - 1);
      OneMore(n, 7 * Interval(first));
      AddDaysTwice(first.dueAt.date, (n - 1) * (7 * Interval(first)), 7 * Interval(first));
    }
  }

  lemma {:induction false} MonthlyDues(first: Task, n: nat)
    requires first.repeat == Monthly
    ensures Nth(first, n) == first.(dueAt := Nth(first, n).dueAt, occurrences := first.occurrences + n)
    ensures Nth(first, n).dueAt == first.dueAt.(date := MonthlySteps(first.dueAt.date, Interval(first), n))
  {
    if n > 0 {
      MonthlyDues(first, n - 1);
    }
  }

  /** Over any run the i-th fire of a daily task falls `i * interval` days after the first, that of a weekly
      one without weekdays `7 * i * interval` days, that of a monthly one `i` clamped month steps, and each
      fire of a weekly one with weekdays on the earliest listed weekday after the fire before. */
  lemma FiresFollowRepeat(events: seq<Event>, id: string, i: nat)
    requires forall i :: 0 <= i < |events| ==> Fresh(events[i])
    requires id in Run(events).lives && i < |Run(events).lives[id].fires|
    ensures var life := Run(events).lives[id];
      var t, start, at := life.first, life.first.dueAt.date, life.fires[i].task.dueAt;
      && at.micros == t.dueAt.micros && i * Interval(t) >= 0
      && (t.repeat == Daily ==> at.date == AddDays(start, i * Interval(t)))
      && (t.repeat == Weekly && (t.weekdays.None? || t.weekdays.value == []) ==>
            i * (7 * Interval(t)) >= 0 && at.date == AddDays(start, i * (7 * Interval(t))))
      && (t.repeat == Monthly ==> at.date == MonthlySteps(start, Interval(t), i))
      && (t.repeat == Weekly && t.weekdays.Some? && ListsWeekday(t.weekdays.value) && i > 0 ==>
            EarliestMatch(life.fires[i - 1].task.dueAt.date, t.weekdays.value, at.date))
  {
    FiringLaw(events, id);
    RunKeeps(events);
    assert KeyOk(Run(events), id);
    var first := Run(events).lives[id].first;
    DueAt(first, i);
    if i > 0 && first.repeat == Weekly && first.weekdays.Some? && ListsWeekday(first.weekdays.value) {
      WeekdayDues(first, i);
    }
  }

  predicate ListsWeekday(weekdays: seq<int>) {
    exists w :: w in weekdays && 0 <= w <= 6
  }

  lemma WeekdayDues(first: Task, n: nat)
    requires Valid(first.dueAt) && first.repeat == Weekly && n > 0
    requires first.weekdays.Some? && ListsWeekday(first.weekdays.value)
    ensures EarliestMatch(Nth(first, n - 1).dueAt.date, first.weekdays.value, Nth(first, n).dueAt.date)
  {
    NthFacts(first, n - 1);
    var w :| w in first.weekdays.value && 0 <= w <= 6;
    WeeklyIsEarliestMatch(Nth(first, n - 1).dueAt, Interval(first), first.weekdays.value, w);
  }

  lemma {:induction false} DueAt(first: Task, n: nat)
    requires Valid(first.dueAt) && (first.repeat == Never ==> n == 0)
    ensures Nth(first, n).dueAt.micros == first.dueAt.micros && n * Interval(first) >= 0
    ensures first.repeat == Daily ==> Nth(first, n).dueAt.date == AddDays(first.dueAt.date, n * Interval(first))
    ensures first.repeat == Weekly && (first.weekdays.None? || first.weekdays.value == []) ==>
        n * (7 * Interval(first)) >= 0
        && Nth(first, n).dueAt.date == AddDays(first.dueAt.date, n * (7 * Interval(first)))
    ensures first.repeat == Monthly ==>
        Nth(first, n).dueAt.date == MonthlySteps(first.dueAt.date, Interval(first), n)
  {
    match first.repeat
    case Never =>
    case Daily => DailyDues(first, n);
    case Monthly => MonthlyDues(first, n);
    case Weekly =>
      WeeklyMicros(first, n);
      if first.weekdays.None? || first.weekdays.value == [] {
        PlainWeeklyDues(first, n);
      }
  }

  lemma {:induction false} WeeklyMicros(first: Task, n: nat)
    requires first.repeat == Weekly
    ensures Nth(first, n) == first.(dueAt := Nth(first, n).dueAt, occurrences := first.occurrences + n)
    ensures Nth(first, n).dueAt.micros == first.dueAt.micros && n * Interval(first) >= 0
  {
    if n > 0 {
      WeeklyMicros(first, n - 1);
      OneMore(n, Interval(first));
    }
  }

  lemma {:induction false} RecordAllOnce(tasks: Tasks, lives: map<string, Life>, now: int, due: seq<Task>, id: string)
    requires Listed(tasks, due, now) && id in lives
    ensures var r := RecordAll(lives, now, due);
      && id in r
      && (id in Ids(due) ==> id in tasks.at)
      && r[id] == if id in Ids(due) then lives[id].(fires := lives[id].fires + [Fire(now, tasks.at[id])]) else lives[id]
  {
    if due != [] {
      ListedInit(tasks, due, now);
      RecordAllOnce(tasks, lives, now, due[..|due| - 1], id);
    }
  }

  /** After any run, a pop fires every stored task that is due, once, and no other. */
  lemma PopFiresDue(events: seq<Event>, now: int, id: string)
    requires forall i :: 0 <= i < |events| ==> Fresh(events[i])
    requires id in Run(events).lives
    ensures var w := Run(events);
      var w' := Step(w, Pop(now));
      && id in w'.lives
      && w'.lives[id] == if id in w.tasks.at && Instant(w.tasks.at[id].dueAt) <= now
                         then w.lives[id].(fires := w.lives[id].fires + [Fire(now, w.tasks.at[id])]) else w.lives[id]
  {
    RunKeeps(events);
    var w := Run(events);
    InvKeyed(w);
    DueHas(w.tasks, now, id);
    RecordAllOnce(w.tasks, w.lives, now, Due(w.tasks, now), id);
  }

  lemma DueHas(tasks: Tasks, now: int, id: string)
    requires Keyed(tasks)
    ensures Listed(tasks, Due(tasks, now), now)
    ensures id in Ids(Due(tasks, now)) <==> id in tasks.at && Instant(tasks.at[id].dueAt) <= now
  {
    DueListed(tasks, tasks.order, now);
    if id in tasks.at && Instant(tasks.at[id].dueAt) <= now {
      assert tasks.at[id] in Due(tasks, now);
    }
  }

  /** The first fire of a task looks at neither `until` nor `count`: after any run, a task added and popped
      when due fires once. */
  lemma FirstFire(events: seq<Event>, t: Task, now: int)
    requires forall i :: 0 <= i < |events| ==> Fresh(events[i])
    requires Valid(t.dueAt) && t.occurrences == 0 && Instant(t.dueAt) <= now
    ensures var w := Run(events + [AddTask(t)] + [Pop(now)]);
      t.id in w.lives && w.lives[t.id] == Life(t, [Fire(now, t)], false)
  {
    var w := Run(events + [AddTask(t)]);
    assert t.id in w.tasks.at && w.tasks.at[t.id] == t && w.lives[t.id] == Life(t, [], false);
    PopFiresDue(events + [AddTask(t)], now, t.id);
  }

  /** So a count of zero still fires once, and only once. */
  lemma ZeroCountFires(events: seq<Event>, t: Task, now: int)
    requires forall i :: 0 <= i < |events| ==> Fresh(events[i])
    requires Valid(t.dueAt) && t.occurrences == 0 && t.count == Some(0) && Instant(t.dueAt) <= now
    ensures var w := Run(events + [AddTask(t)] + [Pop(now)]);
      t.id in w.lives && w.lives[t.id] == Life(t, [Fire(now, t)], false) && t.id !in w.tasks.at
  {
    var run := events + [AddTask(t)] + [Pop(now)];
    FirstFire(events, t, now);
    OverAfterOne(run, t, now);
  }

  lemma OverAfterOne(run: seq<Event>, t: Task, now: int)
    requires forall i :: 0 <= i < |run| ==> Fresh(run[i])
    requires t.occurrences == 0 && t.count == Some(0)
    requires t.id in Run(run).lives && Run(run).lives[t.id] == Life(t, [Fire(now, t)], false)
    ensures t.id !in Run(run).tasks.at
  {
    RunKeeps(run);
    assert KeyOk(Run(run), t.id);
    assert Nth(t, 0) == t;
  }

  /** Over any run, all fires of a task are within `until` if and only if it has not fired or its first due
      time is. */
  lemma UntilHoldsIff(events: seq<Event>, id: string)
    requires forall i :: 0 <= i < |events| ==> Fresh(events[i])
    requires id in Run(events).lives && Run(events).lives[id].first.until.Some?
    ensures var life := Run(events).lives[id];
      var until := Instant(life.first.until.value);
      (forall i :: 0 <= i < |life.fires| ==> Instant(life.fires[i].task.dueAt) <= until)
      <==> life.fires == [] || Instant(life.first.dueAt) <= until
  {
    FiringLaw(events, id);
    var life := Run(events).lives[id];
    if life.fires != [] {
      assert life.fires[0].task == Nth(life.first, 0);
    }
  }

  /** Over any run, a task fires at most `count` times if and only if it has not fired or its count is at
      least one. */
  lemma CountHoldsIff(events: seq<Event>, id: string)
    requires forall i :: 0 <= i < |events| ==> Fresh(events[i])
    requires id in Run(events).lives && Run(events).lives[id].first.count.Some?
    ensures var life := Run(events).lives[id];
      var count := life.first.count.value;
      |life.fires| <= (if count < 0 then 0 else count) <==> life.fires == [] || count >= 1
  {
    FiringLaw(events, id);
  }

  // ---- The order of the store ----

  function KeysOf(due: seq<Task>): seq<string> {
    seq(|due|, i requires 0 <= i < |due| => due[i].id)
  }

  /** The ids of the tasks that go on after this fire, in order. */
  function GoingOn(due: seq<Task>): seq<string> {
    if due == [] then []
    else GoingOn(due[..|due| - 1]) + if Continues(due[|due| - 1]) then [due[|due| - 1].id] else []
  }

  lemma {:induction false} GoingOnListed(due: seq<Task>, k: string)
    requires k !in Ids(due)
    ensures k !in GoingOn(due)
  {
    if due != [] {
      var init, last := due[..|due| - 1], due[|due| - 1];
      assert due == init + [last];
      GoingOnListed(init, k);
    }
  }

  /** The places in the store order of the tasks a pop takes, which it lists in that order. */
  lemma {:induction false} DueInOrder(tasks: Tasks, order: seq<string>, now: int) returns (places: seq<nat>)
    requires Keyed(tasks)
    ensures var due := DueAmong(tasks, order, now);
      && |places| == |due|
      && (forall i :: 0 <= i < |due| ==> places[i] < |order| && due[i].id == order[places[i]])
      && (forall i, j :: 0 <= i < j < |due| ==> places[i] < places[j])
    decreases |order|
  {
    places := [];
    if order != [] {
      var rest := DueInOrder(tasks, order[1..], now);
      var shifted: seq<nat> := seq(|rest|, i requires 0 <= i < |rest| => rest[i] + 1);
      places := if order[0] in tasks.at && Instant(tasks.at[order[0]].dueAt) <= now then [0] + shifted else shifted;
    }
  }

  /** The store order after firing `due`: first the tasks it leaves alone, then those it puts back. */
  lemma {:induction false} FireAllOrder(tasks: Tasks, due: seq<Task>, now: int)
    requires Keyed(tasks) && Listed(tasks, due, now)
    ensures FireAll(tasks, due).order == Minus(tasks.order, KeysOf(due)) + GoingOn(due) && Keyed(FireAll(tasks, due))
  {
    if due != [] {
      var init, last := due[..|due| - 1], due[|due| - 1];
      ListedInit(tasks, due, now);
      FireAllOrder(tasks, init, now);
      assert KeysOf(due)[..|due| - 1] == KeysOf(init);
      GoingOnListed(init, last.id);
      FireOneOrder(FireAll(tasks, init), Minus(tasks.order, KeysOf(init)), GoingOn(init), last);
    }
  }

  lemma FireOneOrder(tasks: Tasks, left: seq<string>, back: seq<string>, t: Task)
    requires Keyed(tasks) && tasks.order == left + back && t.id !in back
    ensures FireOne(tasks, t).order == Without(left, t.id) + (back + if Continues(t) then [t.id] else [])
    ensures Keyed(FireOne(tasks, t))
  {
    RemoveValid(tasks, t.id);
    PutValid(tasks.Remove(t.id), t.id, Advanced(t));
    WithoutConcat(left, back, t.id);
    WithoutFacts(back, t.id);
    assert Without(left, t.id) + back + [t.id] == Without(left, t.id) + (back + [t.id]);
    assert back + [] == back;
  }

  /** A pop leaves the tasks that are not due in their order, followed by the due ones that go on, in the
      order they fired. */
  lemma PopOrder(tasks: Tasks, now: int)
    requires Keyed(tasks)
    ensures PopDue(tasks, now).order == Minus(tasks.order, KeysOf(Due(tasks, now))) + GoingOn(Due(tasks, now))
  {
    DueListed(tasks, tasks.order, now);
    FireAllOrder(tasks, Due(tasks, now), now);
  }

  // ---- Draining ----

  /** By how many days, rounded up, a task is late. */
  function Lateness(t: Task, now: int): nat {
    if Instant(t.dueAt) > now then 0 else (now - Instant(t.dueAt)) / DAY_MICROS + 1
  }

  ghost predicate LateBy(tasks: Tasks, now: int, m: nat) {
    forall k :: k in tasks.at ==> Lateness(tasks.at[k], now) <= m
  }

  ghost predicate RealDates(tasks: Tasks) {
    forall k :: k in tasks.at ==> Valid(tasks.at[k].dueAt)
  }

  lemma LatenessDrops(t: Task, now: int)
    requires Valid(t.dueAt) && t.repeat != Never && Instant(t.dueAt) <= now
    ensures Lateness(Advanced(t), now) < Lateness(t, now)
  {
    AdvanceIsLater(t);
  }

  ghost predicate Dropped(r: Tasks, t: Task, now: int) {
    t.id in r.at ==> Lateness(r.at[t.id], now) < Lateness(t, now)
  }

  /** Firing the due tasks leaves the task of `k` less late if it was due, and as it was if not. */
  lemma {:induction false} FireAllDrops(tasks: Tasks, due: seq<Task>, now: int, k: string)
    requires Keyed(tasks) && RealDates(tasks) && Listed(tasks, due, now)
    ensures Keyed(FireAll(tasks, due)) && RealDates(FireAll(tasks, due))
    ensures k !in Ids(due) ==> Untouched(tasks, FireAll(tasks, due), k)
    ensures k in Ids(due) ==> k in tasks.at && Dropped(FireAll(tasks, due), tasks.at[k], now)
  {
    if due != [] {
      var init, last := due[..|due| - 1], due[|due| - 1];
      ListedInit(tasks, due, now);
      FireAllDrops(tasks, init, now, k);
      FireOneDrops(FireAll(tasks, init), last, now);
    }
  }

  lemma FireOneDrops(tasks: Tasks, t: Task, now: int)
    requires Keyed(tasks) && RealDates(tasks) && Valid(t.dueAt) && Instant(t.dueAt) <= now
    ensures var r := FireOne(tasks, t);
      && Keyed(r) && RealDates(r)
      && Dropped(r, t, now)
      && (forall k :: k != t.id ==> Untouched(tasks, r, k))
  {
    RemoveValid(tasks, t.id);
    PutValid(tasks.Remove(t.id), t.id, Advanced(t));
    if t.repeat != Never {
      AdvanceIsLater(t);
      LatenessDrops(t, now);
    }
  }

  lemma PopDrops(tasks: Tasks, now: int, m: nat)
    requires Keyed(tasks) && RealDates(tasks) && LateBy(tasks, now, m)
    ensures Keyed(PopDue(tasks, now)) && RealDates(PopDue(tasks, now))
    ensures LateBy(PopDue(tasks, now), now, if m == 0 then 0 else m - 1)
  {
    DueListed(tasks, tasks.order, now);
    var due, r := Due(tasks, now), PopDue(tasks, now);
    FireAllDrops(tasks, due, now, "");
    forall k | k in r.at ensures Lateness(r.at[k], now) <= if m == 0 then 0 else m - 1 {
      FireAllDrops(tasks, due, now, k);
      if k !in Ids(due) {
        assert tasks.at[k] !in due;
        assert k in tasks.order;
      }
    }
  }

  lemma {:induction false} NothingLate(tasks: Tasks, order: seq<string>, now: int)
    requires LateBy(tasks, now, 0)
    ensures DueAmong(tasks, order, now) == []
    decreases |order|
  {
    if order != [] {
      NothingLate(tasks, order[1..], now);
      assert order[0] in tasks.at ==> Lateness(tasks.at[order[0]], now) == 0;
    }
  }

  function PopTimes(tasks: Tasks, now: int, n: nat): Tasks
    decreases n
  {
    if n == 0 then tasks else PopTimes(PopDue(tasks, now), now, n - 1)
  }

  /** Popping again and again at one fixed time ends, after as many pops as the latest task is
      days late, with nothing due. */
  lemma {:induction false} DrainEnds(tasks: Tasks, now: int, m: nat)
    requires Keyed(tasks) && RealDates(tasks) && LateBy(tasks, now, m)
    ensures Due(PopTimes(tasks, now, m), now) == []
    decreases m
  {
    if m == 0 {
      NothingLate(tasks, tasks.order, now);
    } else {
      PopDrops(tasks, now, m);
      DrainEnds(PopDue(tasks, now), now, m - 1);
    }
  }
}
