/** Interval schedules: how often the scheduler fires, and that no recorded fire goes without a task.
    The poll goroutine, its store calls, operators and crashes are interleaved one store call at a time. */
module Schedules {
  import opened Loops
  import opened Options
  import opened Rows
  import opened Config
  import opened Transitions
  import opened Soundness
  import Limits

  datatype Schedule = Schedule(
    taskType: string, queue: string, payload: Option<string>, cronExpr: Option<string>, intervalSecs: Option<int>,
    enabled: bool, lastRunAt: Option<int>, nextRunAt: Option<int>)

  /** The library's next instant of a cron expression after a time; None when it does not parse. */
  type Cron = (string, int) -> Option<int>

  /** Interval schedules count from the last run, or from `after` before the first one. */
  function ComputeNextRun(sc: Schedule, after: int, cron: Cron): Option<int> {
    if sc.cronExpr.Some? then cron(sc.cronExpr.value, after)
    else if sc.intervalSecs.Some? then
      Some((if sc.lastRunAt.Some? then sc.lastRunAt.value else after) + sc.intervalSecs.value)
    else None
  }

  predicate IsDue(sc: Schedule, now: int) {
    sc.enabled && sc.nextRunAt.Some? && sc.nextRunAt.value <= now
  }

  // ----- The machine -----

  /** A recorded fire: when its schedule was found due, and the last_run_at written for it. */
  datatype Fire = Fire(dueAt: int, recordedAt: int)

  /** A due schedule as DueSchedules returned it. */
  datatype Snapshot = Snapshot(id: Id, row: Schedule)

  /** `firing` is what the current poll has still to fire, its head being worked on; `created` says that the
      head's task exists already. `pollNow` and `dueAt` are the two times the poll read. `clock` is the
      latest time read by anyone, `store` the run of the task store so far, in which the scheduler is one client
      among others, and `fires` is history: the recorded fires of each schedule. */
  datatype State = State(
    schedules: map<Id, Schedule>, firing: seq<Snapshot>, created: bool, dueAt: int, pollNow: int,
    clock: int, store: Trace, fires: map<Id, seq<Fire>>)

  /** What does not change in a run: the limits of the store, and the cron library. */
  datatype World = World(cfg: Config, cron: Cron)

  datatype Move =
    | Add(id: Id, row: Schedule)
    | Enable(id: Id, on: bool)
    | Client(op: Op)
    | InitNext(id: Id, now: int)
    | Poll(dueAt: int, now: int, due: seq<Id>)
    | CreateTask(ok: bool, taskId: Id, at: int)
    | RecordRun(now: int, ok: bool)
    | Crash

  ghost predicate Can(w: World, s: State, m: Move) {
    match m
    case Add(id, row) => id !in s.schedules && row.lastRunAt.None?
    case Enable(id, _) => id in s.schedules
    case Client(op) => Enabled(w.cfg, Exec(s.store), op)
    case InitNext(id, now) =>
      && s.firing == [] && s.clock <= now
      && id in s.schedules && s.schedules[id].nextRunAt.None?
    case Poll(dueAt, now, due) =>
      && s.firing == [] && s.clock <= dueAt <= now
      && (forall id :: id in due <==> id in s.schedules && IsDue(s.schedules[id], dueAt))
      && Unique(due)
    case CreateTask(ok, taskId, _) => s.firing != [] && !s.created && (ok ==> Fresh(Exec(s.store), taskId))
    case RecordRun(now, _) => s.firing != [] && s.created && s.clock <= now
    case Crash => true
  }

  function Snapshots(schedules: map<Id, Schedule>, due: seq<Id>): seq<Snapshot>
    requires forall id :: id in due ==> id in schedules
  {
    seq(|due|, i requires 0 <= i < |due| => Snapshot(due[i], schedules[due[i]]))
  }

  /** The task a fire asks for. */
  function TaskFor(sc: Snapshot): TaskInput {
    TaskInput(sc.row.taskType, sc.row.queue, sc.row.payload, 0, 0, None, None, None, Some(sc.id))
  }

  /** The rows of the tasks table that carry the schedule's id. */
  ghost function TasksOf(tasks: map<Id, Task>, id: Id): set<Id> {
    set t | t in tasks && tasks[t].scheduleId == Some(id)
  }

  function FiresOf(s: State, id: Id): seq<Fire> {
    if id in s.fires then s.fires[id] else []
  }

  ghost function Next(s: State, m: Move, w: World): State
    requires Can(w, s, m)
  {
    match m
    case Add(id, row) => s.(schedules := s.schedules[id := row], fires := s.fires[id := []])
    case Enable(id, on) => s.(schedules := s.schedules[id := s.schedules[id].(enabled := on)])
    case Client(op) => s.(store := Step(s.store, op))
    case InitNext(id, now) =>
      var next := ComputeNextRun(s.schedules[id], now, w.cron);
      if next.None? then s.(clock := now)
      else s.(schedules := s.schedules[id := s.schedules[id].(nextRunAt := next)], clock := now)
    case Poll(dueAt, now, due) =>
      s.(firing := Snapshots(s.schedules, due), created := false, dueAt := dueAt, pollNow := now, clock := now)
    case CreateTask(ok, taskId, at) =>
      if ok then s.(created := true, store := Step(s.store, Create(taskId, TaskFor(s.firing[0]), at)))
      else s.(firing := s.firing[1..])
    case RecordRun(now, ok) =>
      var head := s.firing[0];
      var next := ComputeNextRun(head.row, s.pollNow, w.cron);
      var rest := s.(firing := s.firing[1..], created := false);
      if next.None? then rest
      else if !ok || head.id !in s.schedules then rest.(clock := now)
      else rest.(schedules := s.schedules[head.id := s.schedules[head.id].(lastRunAt := Some(now), nextRunAt := next)],
                 clock := now,
                 fires := s.fires[head.id := FiresOf(s, head.id) + [Fire(s.dueAt, now)]])
    case Crash => s.(firing := [], created := false)
  }

  datatype Run = Start(clock: int, store: Trace) | Then(prev: Run, move: Move)

  /** The state after a run; a move that is not possible where it stands changes nothing. */
  ghost function At(run: Run, w: World): State {
    match run
    case Start(clock, store) => State(map[], [], false, clock, clock, clock, store, map[])
    case Then(p, m) => if Can(w, At(p, w), m) then Next(At(p, w), m, w) else At(p, w)
  }

  // ----- The invariant of one interval schedule -----

  predicate SameTiming(a: Schedule, b: Schedule) {
    && a.cronExpr == b.cronExpr && a.intervalSecs == b.intervalSecs
    && a.lastRunAt == b.lastRunAt && a.nextRunAt == b.nextRunAt
  }

  /** What the poll is about to fire is distinct, was due, and has not been recorded by anyone since. */
  ghost predicate FiringOk(s: State) {
    && (forall i, j :: 0 <= i < j < |s.firing| ==> s.firing[i].id != s.firing[j].id)
    && (forall i :: 0 <= i < |s.firing| ==>
          && s.firing[i].id in s.schedules
          && SameTiming(s.firing[i].row, s.schedules[s.firing[i].id])
          && s.firing[i].row.nextRunAt.Some? && s.firing[i].row.nextRunAt.value <= s.dueAt)
    && (s.firing != [] ==> s.dueAt <= s.pollNow <= s.clock)
    && (s.created ==> s.firing != [])
    && s.fires.Keys == s.schedules.Keys
  }

  /** The recorded fires of a schedule with interval I: in time order, and every fire was found due at least
      I seconds after the last but one before it was recorded. */
  predicate Paced(fires: seq<Fire>, interval: int, clock: int) {
    && (forall i :: 0 <= i < |fires| ==> fires[i].dueAt <= fires[i].recordedAt <= clock)
    && (forall i, j :: 0 <= i < j < |fires| ==> fires[i].recordedAt <= fires[j].dueAt)
    && (forall i :: 0 <= i < |fires| - 2 ==> fires[i + 2].dueAt >= fires[i].recordedAt + interval)
  }

  ghost predicate InFiring(s: State, id: Id) {
    exists i :: 0 <= i < |s.firing| && s.firing[i].id == id
  }

  ghost predicate HasInterval(s: State, id: Id, interval: int) {
    id in s.schedules && s.schedules[id].cronExpr.None? && s.schedules[id].intervalSecs == Some(interval)
  }

  ghost predicate IntervalOk(s: State, id: Id, interval: int)
    requires id in s.schedules
  {
    var row, f := s.schedules[id], FiresOf(s, id);
    && Paced(f, interval, s.clock)
    && row.lastRunAt == (if f == [] then None else Some(f[|f| - 1].recordedAt))
    && (|f| >= 2 ==> row.nextRunAt == Some(f[|f| - 2].recordedAt + interval))
    && (InFiring(s, id) && f != [] ==> f[|f| - 1].recordedAt <= s.dueAt)
  }

  ghost predicate TasksCover(s: State, id: Id) {
    |FiresOf(s, id)| + (if s.created && s.firing != [] && s.firing[0].id == id then 1 else 0)
    <= |TasksOf(Exec(s.store).tasks, id)|
  }

  lemma FiringStep(s: State, m: Move, w: World)
    requires FiringOk(s) && Can(w, s, m)
    ensures FiringOk(Next(s, m, w))
  {
    hide Enabled, Fresh, Exec, ComputeNextRun;
    match m
    case RecordRun(now, ok) => FiringRecord(s, now, ok, w);
    case CreateTask(ok, _, _) =>
      var next := Next(s, m, w);
      assert !ok ==> forall i :: 0 <= i < |next.firing| ==> next.firing[i] == s.firing[i + 1];
    case _ =>
  }

  lemma FiringRecord(s: State, now: int, ok: bool, w: World)
    requires FiringOk(s) && Can(w, s, RecordRun(now, ok))
    ensures FiringOk(Next(s, RecordRun(now, ok), w))
  {
    var next := Next(s, RecordRun(now, ok), w);
    assert forall i :: 0 <= i < |next.firing| ==>
      next.firing[i] == s.firing[i + 1] && next.firing[i].id != s.firing[0].id;
  }

  lemma {:induction false} FiringRun(run: Run, w: World)
    ensures FiringOk(At(run, w))
  {
    match run
    case Start(_, _) =>
    case Then(p, m) =>
      FiringRun(p, w);
      hide FiringOk, Next;
      if Can(w, At(p, w), m) {
        FiringStep(At(p, w), m, w);
      }
  }

  lemma PacedSnoc(f: seq<Fire>, interval: int, clock: int, e: Fire)
    requires Paced(f, interval, clock)
    requires e.dueAt <= e.recordedAt && clock <= e.recordedAt
    requires f != [] ==> f[|f| - 1].recordedAt <= e.dueAt
    requires |f| >= 2 ==> e.dueAt >= f[|f| - 2].recordedAt + interval
    ensures Paced(f + [e], interval, e.recordedAt)
  {
    forall i | 0 <= i < |f| ensures f[i].recordedAt <= e.dueAt {
      if i < |f| - 1 {
        assert f[i].recordedAt <= f[|f| - 1].dueAt;
      }
    }
  }

  lemma HeadLeaves(s: State, next: State)
    requires FiringOk(s) && s.firing != [] && next.firing == s.firing[1..]
    ensures InFiring(s, s.firing[0].id) && !InFiring(next, s.firing[0].id)
  {
    assert forall i :: 0 <= i < |next.firing| ==> next.firing[i] == s.firing[i + 1];
  }

  lemma RecordStep(s: State, now: int, ok: bool, w: World, id: Id, interval: int)
    requires FiringOk(s) && Can(w, s, RecordRun(now, ok)) && HasInterval(s, id, interval) && IntervalOk(s, id, interval)
    requires s.firing[0].id == id
    ensures IntervalOk(Next(s, RecordRun(now, ok), w), id, interval)
  {
    var next, f := Next(s, RecordRun(now, ok), w), FiresOf(s, id);
    HeadLeaves(s, next);
    assert SameTiming(s.firing[0].row, s.schedules[id]);
    hide InFiring, FiringOk, Paced;
    if ok {
      PacedSnoc(f, interval, s.clock, Fire(s.dueAt, now));
    }
  }

  /** Steps that leave the schedule's timing, its fires and the poll's times alone keep its invariant. */
  lemma IntervalFrame(s: State, next: State, id: Id, interval: int)
    requires HasInterval(s, id, interval) && IntervalOk(s, id, interval)
    requires id in next.schedules && (SameTiming(next.schedules[id], s.schedules[id]) || OnlyInit(s, next, id))
    requires FiresOf(next, id) == FiresOf(s, id) && s.clock <= next.clock
    requires InFiring(next, id) ==> (InFiring(s, id) && next.dueAt == s.dueAt) || s.clock <= next.dueAt
    ensures HasInterval(next, id, interval) && IntervalOk(next, id, interval)
  {
    hide InFiring;
  }

  /** initSchedules fills in a next_run_at that is not there yet. */
  predicate OnlyInit(s: State, next: State, id: Id)
    requires id in s.schedules && id in next.schedules
  {
    s.schedules[id].nextRunAt.None? && next.schedules[id] == s.schedules[id].(nextRunAt := next.schedules[id].nextRunAt)
  }

  lemma FiringShrinks(s: State, next: State, id: Id)
    requires next.firing == s.firing || next.firing == [] || (s.firing != [] && next.firing == s.firing[1..])
    ensures InFiring(next, id) ==> InFiring(s, id)
  {
    if i :| 0 <= i < |next.firing| && next.firing[i].id == id {
      assert next.firing != s.firing ==> s.firing[i + 1].id == id;
    }
  }

  lemma OtherStep(s: State, m: Move, w: World, id: Id, interval: int)
    requires FiringOk(s) && Can(w, s, m) && HasInterval(s, id, interval) && IntervalOk(s, id, interval)
    requires !m.RecordRun? || s.firing[0].id != id
    ensures HasInterval(Next(s, m, w), id, interval) && IntervalOk(Next(s, m, w), id, interval)
  {
    var next := Next(s, m, w);
    if !m.Poll? {
      FiringShrinks(s, next, id);
    }
    hide InFiring, FiringOk, IntervalOk;
    IntervalFrame(s, next, id, interval);
  }

  lemma AddStep(s: State, m: Move, w: World, id: Id, interval: int)
    requires FiringOk(s) && Can(w, s, m) && id !in s.schedules && id in Next(s, m, w).schedules
    ensures IntervalOk(Next(s, m, w), id, interval)
  {
  }

  lemma IntervalStep(s: State, m: Move, w: World, id: Id, interval: int)
    requires FiringOk(s) && Can(w, s, m)
    requires HasInterval(s, id, interval) ==> IntervalOk(s, id, interval)
    ensures HasInterval(Next(s, m, w), id, interval) ==> IntervalOk(Next(s, m, w), id, interval)
  {
    if id !in s.schedules {
      if id in Next(s, m, w).schedules {
        AddStep(s, m, w, id, interval);
      }
    } else if HasInterval(s, id, interval) {
      hide IntervalOk;
      if m.RecordRun? && s.firing[0].id == id {
        RecordStep(s, m.now, m.ok, w, id, interval);
      } else {
        OtherStep(s, m, w, id, interval);
      }
    }
  }

  lemma {:induction false} IntervalRun(run: Run, w: World, id: Id, interval: int)
    ensures HasInterval(At(run, w), id, interval) ==> IntervalOk(At(run, w), id, interval)
  {
    match run
    case Start(_, _) =>
    case Then(p, m) =>
      IntervalRun(p, w, id, interval);
      FiringRun(p, w);
      hide HasInterval, IntervalOk, FiringOk, Next;
      if Can(w, At(p, w), m) {
        hide Can;
        IntervalStep(At(p, w), m, w, id, interval);
      }
  }

  /** In every interleaving of the poll goroutine with operators, manual triggers and crashes, a schedule with
      a fixed interval I and no manual patch has its recorded fire n+2 found due no earlier than I seconds
      after fire n was recorded; so a window shorter than I holds at most two recorded fires. */
  lemma FiresPaced(run: Run, w: World, id: Id, interval: int, n: nat)
    requires HasInterval(At(run, w), id, interval) && n + 2 < |FiresOf(At(run, w), id)|
    ensures var f := FiresOf(At(run, w), id);
            && f[n + 2].dueAt >= f[n].recordedAt + interval
            && forall j :: n + 2 <= j < |f| ==> f[j].recordedAt >= f[n].recordedAt + interval
  {
    IntervalRun(run, w, id, interval);
    hide At;
  }

  /** The same bound for consecutive fires is false: next_run_at is built from the last_run_at that the
      poll read, so after the first interval two fires can be recorded at the same second. */
  lemma ConsecutiveFiresCanCoincide(w: World) returns (run: Run, id: Id)
    ensures HasInterval(At(run, w), id, 10) && |FiresOf(At(run, w), id)| == 3
    ensures FiresOf(At(run, w), id)[1].recordedAt == FiresOf(At(run, w), id)[2].recordedAt == 110
  {
    id := "s";
    var row := Schedule("job", "default", None, None, Some(10), true, None, Some(100));
    var r0 := Then(Start(0, Init), Add(id, row));
    var r1 := OneFire(r0, w, id, 100, Some(110));
    var r2 := OneFire(r1, w, id, 110, Some(110));
    run := OneFire(r2, w, id, 110, Some(120));
  }

  /** One quick poll that fires the only schedule there is. */
  lemma OneFire(run: Run, w: World, id: Id, now: int, next: Option<int>) returns (after: Run)
    requires var s := At(run, w);
             && s.schedules.Keys == {id} && IsDue(s.schedules[id], now) && s.firing == [] && s.clock <= now
             && next.Some? && ComputeNextRun(s.schedules[id], now, w.cron) == next
    ensures var s, t := At(run, w), At(after, w);
            && t.schedules == map[id := s.schedules[id].(lastRunAt := Some(now), nextRunAt := next)]
            && t.firing == [] && t.clock == now && FiresOf(t, id) == FiresOf(s, id) + [Fire(now, now)]
  {
    var s := At(run, w);
    var r1 := Then(run, Poll(now, now, [id]));
    assert Can(w, s, Poll(now, now, [id]));
    var s1 := At(r1, w);
    assert s1.firing == [Snapshot(id, s.schedules[id])];
    var taskId := FreshExists(Exec(s1.store));
    var r2 := Then(r1, CreateTask(true, taskId, now));
    var s2 := At(r2, w);
    assert s2.firing == s1.firing && s2.created && s2.schedules == s.schedules;
    after := Then(r2, RecordRun(now, true));
    assert Can(w, s2, RecordRun(now, true));
    assert At(after, w).schedules.Keys == {id};
  }

  /** No transaction takes a task from a schedule. */
  lemma TasksOfGrow(cfg: Config, db: Db, op: Op, id: Id)
    requires Enabled(cfg, db, op)
    ensures |TasksOf(db.tasks, id)| <= |TasksOf(Transitions.Next(db, op).tasks, id)|
  {
    forall t | t in TasksOf(db.tasks, id) ensures t in TasksOf(Transitions.Next(db, op).tasks, id) {
      IdentityStep(cfg, db, op, t);
    }
    Limits.SubsetSize(TasksOf(db.tasks, id), TasksOf(Transitions.Next(db, op).tasks, id));
  }

  lemma TasksOfCreate(db: Db, taskId: Id, input: TaskInput, at: int, id: Id)
    requires Fresh(db, taskId)
    ensures |TasksOf(Transitions.Next(db, Create(taskId, input, at)).tasks, id)| ==
            |TasksOf(db.tasks, id)| + if input.scheduleId == Some(id) then 1 else 0
  {
    var more := Transitions.Next(db, Create(taskId, input, at)).tasks;
    if input.scheduleId == Some(id) {
      assert TasksOf(more, id) == TasksOf(db.tasks, id) + {taskId};
    } else {
      assert TasksOf(more, id) == TasksOf(db.tasks, id);
    }
  }

  lemma TasksStep(s: State, m: Move, w: World, id: Id)
    requires FiringOk(s) && Can(w, s, m) && TasksCover(s, id)
    ensures TasksCover(Next(s, m, w), id)
  {
    var db := Exec(s.store);
    if m.Client? {
      TasksOfGrow(w.cfg, db, m.op, id);
    } else if m.CreateTask? && m.ok {
      TasksOfCreate(db, m.taskId, TaskFor(s.firing[0]), m.at, id);
    }
    hide Transitions.Next, TasksOf, Fresh, Enabled;
  }

  /** Every recorded run of a schedule has a task of its own: the rows of the store that carry the schedule's
      id are never fewer, whatever other clients do to them. */
  lemma {:induction false} TasksCoverFires(run: Run, w: World, id: Id)
    ensures |FiresOf(At(run, w), id)| <= |TasksOf(Exec(At(run, w).store).tasks, id)|
    ensures TasksCover(At(run, w), id)
  {
    match run
    case Start(_, _) =>
    case Then(p, m) =>
      TasksCoverFires(p, w, id);
      FiringRun(p, w);
      if Can(w, At(p, w), m) {
        TasksStep(At(p, w), m, w, id);
        hide Next, FiringOk, Can;
      }
  }

  // ----- Exactly when the next fire is a full interval away -----

  /** What an interval schedule's next_run_at is counted from. */
  function Base(sc: Schedule, after: int): int {
    if sc.lastRunAt.Some? then sc.lastRunAt.value else after
  }

  /** A cron expression comes before an interval, which counts from the last run or else from the given time; a
      schedule with neither has no next run. */
  lemma NextRunExactly(sc: Schedule, after: int, cron: Cron)
    ensures sc.cronExpr.Some? ==> ComputeNextRun(sc, after, cron) == cron(sc.cronExpr.value, after)
    ensures sc.cronExpr.None? && sc.intervalSecs.Some? && sc.lastRunAt.Some? ==>
      ComputeNextRun(sc, after, cron) == Some(sc.lastRunAt.value + sc.intervalSecs.value)
    ensures sc.cronExpr.None? && sc.intervalSecs.Some? && sc.lastRunAt.None? ==>
      ComputeNextRun(sc, after, cron) == Some(after + sc.intervalSecs.value)
    ensures sc.cronExpr.None? && sc.intervalSecs.None? ==> ComputeNextRun(sc, after, cron) == None
  {
  }

  /** The next run of an interval schedule is strictly after the given time, as documented, exactly if the time
      it is counted from is less than an interval before that. */
  lemma NextIsAfterExactly(sc: Schedule, after: int, cron: Cron, interval: int)
    requires sc.cronExpr.None? && sc.intervalSecs == Some(interval)
    ensures ComputeNextRun(sc, after, cron).Some?
    ensures ComputeNextRun(sc, after, cron).value > after <==> Base(sc, after) > after - interval
  {
  }

  /** A schedule of 10 seconds that last ran at second 0, asked at second 100, has its next run at second 10. */
  lemma NextCanHavePassed(sc: Schedule, cron: Cron)
    requires sc.cronExpr.None? && sc.intervalSecs == Some(10) && sc.lastRunAt == Some(0)
    ensures ComputeNextRun(sc, 100, cron) == Some(10)
  {
  }

  ghost predicate Continues(after: Run, run: Run) {
    after == run || (after.Then? && Continues(after.prev, run))
  }

  /** The fires recorded before are still there, and until there is another one next_run_at is kept; the one
      after them was found due no earlier. */
  ghost predicate Held(s: State, id: Id, interval: int, before: seq<Fire>, next: int) {
    var f := FiresOf(s, id);
    && HasInterval(s, id, interval) && before <= f
    && (|f| == |before| ==> s.schedules[id].nextRunAt == Some(next))
    && (|f| > |before| ==> f[|before|].dueAt >= next)
  }

  lemma HeldStep(s: State, m: Move, w: World, id: Id, interval: int, before: seq<Fire>, next: int)
    requires FiringOk(s) && Can(w, s, m) && Held(s, id, interval, before, next)
    ensures Held(Next(s, m, w), id, interval, before, next)
  {
    if m.RecordRun? {
      assert SameTiming(s.firing[0].row, s.schedules[s.firing[0].id]);
    }
  }

  lemma {:induction false} HeldRun(after: Run, run: Run, w: World, id: Id, interval: int, next: int)
    requires Continues(after, run) && HasInterval(At(run, w), id, interval)
    requires At(run, w).schedules[id].nextRunAt == Some(next)
    ensures Held(At(after, w), id, interval, FiresOf(At(run, w), id), next)
  {
    if after != run {
      HeldRun(after.prev, run, w, id, interval, next);
      FiringRun(after.prev, w);
      hide Held, FiringOk, Next, HasInterval;
      if Can(w, At(after.prev, w), after.move) {
        HeldStep(At(after.prev, w), after.move, w, id, interval, FiresOf(At(run, w), id), next);
      }
    }
  }

  ghost predicate FiresFrom(s: State, id: Id, k: nat, bound: int) {
    forall j :: k <= j < |FiresOf(s, id)| ==> FiresOf(s, id)[j].dueAt >= bound
  }

  lemma PacedFrom(f: seq<Fire>, interval: int, clock: int, k: nat, next: int)
    requires Paced(f, interval, clock) && 0 < k < |f| && f[k].dueAt >= next
    requires interval <= 0 || next >= f[k - 1].recordedAt + interval
    ensures forall j :: k <= j < |f| ==> f[j].dueAt >= f[k - 1].recordedAt + interval
  {
    var r := f[k - 1].recordedAt;
    forall j | k <= j < |f| ensures f[j].dueAt >= r + interval {
      assert f[k - 1].recordedAt <= f[j].dueAt;
      if j > k {
        assert f[j].dueAt >= f[j - 2].recordedAt + interval;
        assert j - 2 == k - 1 || f[k - 1].recordedAt <= f[j - 2].dueAt <= f[j - 2].recordedAt;
      }
    }
  }

  lemma LaterFires(after: Run, run: Run, w: World, id: Id, interval: int, before: seq<Fire>, next: int)
    requires Continues(after, run) && HasInterval(At(run, w), id, interval)
    requires before == FiresOf(At(run, w), id) && before != []
    requires At(run, w).schedules[id].nextRunAt == Some(next)
    requires interval <= 0 || next >= before[|before| - 1].recordedAt + interval
    ensures FiresFrom(At(after, w), id, |before|, before[|before| - 1].recordedAt + interval)
  {
    var s := At(after, w);
    HeldRun(after, run, w, id, interval, next);
    IntervalRun(after, w, id, interval);
    HeldPaced(s, id, interval, before, next);
    hide At, Held, HasInterval, IntervalOk, FiresOf, Paced, Continues;
    if |FiresOf(s, id)| > |before| {
      PacedFrom(FiresOf(s, id), interval, s.clock, |before|, next);
    }
  }

  lemma HeldPaced(s: State, id: Id, interval: int, before: seq<Fire>, next: int)
    requires Held(s, id, interval, before, next) && IntervalOk(s, id, interval)
    ensures var f := FiresOf(s, id);
            Paced(f, interval, s.clock) && before <= f && (|f| > |before| ==> f[|before|].dueAt >= next)
  {
  }

  /** In every continuation of a run the further fires of a schedule are found due at `bound` or later. */
  ghost predicate NextFiresFrom(run: Run, w: World, id: Id, bound: int) {
    forall after :: Continues(after, run) ==> FiresFrom(At(after, w), id, |FiresOf(At(run, w), id)|, bound)
  }

  lemma NoEarlyFire(run: Run, w: World, id: Id, interval: int, next: int)
    requires HasInterval(At(run, w), id, interval) && FiresOf(At(run, w), id) != []
    requires At(run, w).schedules[id].nextRunAt == Some(next)
    requires var f := FiresOf(At(run, w), id); interval <= 0 || next >= f[|f| - 1].recordedAt + interval
    ensures var f := FiresOf(At(run, w), id); NextFiresFrom(run, w, id, f[|f| - 1].recordedAt + interval)
  {
    var f := FiresOf(At(run, w), id);
    hide At, FiresOf, FiresFrom, HasInterval;
    forall after | Continues(after, run)
      ensures FiresFrom(At(after, w), id, |f|, f[|f| - 1].recordedAt + interval)
    {
      LaterFires(after, run, w, id, interval, f, next);
    }
  }

  /** The machine is about to record, at r, a run of this interval schedule. */
  ghost predicate Recording(p: Run, r: int, w: World, id: Id, interval: int) {
    var s := At(p, w);
    Can(w, s, RecordRun(r, true)) && s.firing[0].id == id && HasInterval(s, id, interval)
  }

  /** The time that the next_run_at of the fire at hand is counted from: the last_run_at that the poll read,
      or else the poll's own time. */
  ghost function CountedFrom(p: Run, w: World): int {
    var s := At(p, w);
    if s.firing == [] then s.pollNow else Base(s.firing[0].row, s.pollNow)
  }

  /** What recording a run of an interval schedule leaves behind. */
  lemma Recorded(p: Run, r: int, w: World, id: Id, interval: int)
    requires Recording(p, r, w, id, interval)
    ensures var s, t := At(p, w), At(Then(p, RecordRun(r, true)), w);
            && HasInterval(t, id, interval) && t.clock == r
            && FiresOf(t, id) == FiresOf(s, id) + [Fire(s.dueAt, r)]
            && t.schedules[id].nextRunAt == Some(CountedFrom(p, w) + interval)
  {
    FiringRun(p, w);
    assert SameTiming(At(p, w).firing[0].row, At(p, w).schedules[id]);
  }

  lemma {:induction false} Enumerate(ids: set<Id>) returns (q: seq<Id>)
    ensures forall id :: id in q <==> id in ids
    ensures Unique(q)
  {
    q := [];
    if ids != {} {
      var id :| id in ids;
      q := Enumerate(ids - {id});
      q := q + [id];
    }
  }

  /** A schedule that is due at `now`, in whatever company, can be fired then. */
  lemma FireAtOnce(run: Run, w: World, id: Id, interval: int, now: int) returns (after: Run)
    requires var s := At(run, w);
             && HasInterval(s, id, interval) && s.clock <= now
             && s.schedules[id].nextRunAt.Some? && s.schedules[id].nextRunAt.value <= now
    ensures Continues(after, run)
    ensures FiresOf(At(after, w), id) == FiresOf(At(run, w), id) + [Fire(now, now)]
  {
    var crashed := Then(run, Crash);
    var c := At(crashed, w);
    assert c == At(run, w).(firing := [], created := false);
    var idle := Then(crashed, Enable(id, true));
    var s := At(idle, w);
    assert s.firing == [] && IsDue(s.schedules[id], now) && s.clock <= now && HasInterval(s, id, interval);
    assert FiresOf(s, id) == FiresOf(At(run, w), id);
    var others := Enumerate((set d | d in s.schedules && IsDue(s.schedules[d], now)) - {id});
    after := FirstOfPoll(idle, w, id, interval, now, others);
    assert Continues(crashed, run) && Continues(idle, run);
    ContinuesOn(after, idle, run);
  }

  lemma {:induction false} ContinuesOn(c: Run, b: Run, a: Run)
    requires Continues(c, b) && Continues(b, a)
    ensures Continues(c, a)
  {
    if c != b {
      ContinuesOn(c.prev, b, a);
    }
  }

  lemma FirstOfPoll(run: Run, w: World, id: Id, interval: int, now: int, others: seq<Id>) returns (after: Run)
    requires var s := At(run, w);
             && s.firing == [] && s.clock <= now && HasInterval(s, id, interval) && IsDue(s.schedules[id], now)
             && (forall d :: d in others <==> d in s.schedules && IsDue(s.schedules[d], now) && d != id)
             && Unique(others)
    ensures Continues(after, run)
    ensures FiresOf(At(after, w), id) == FiresOf(At(run, w), id) + [Fire(now, now)]
  {
    var s := At(run, w);
    var due := [id] + others;
    assert Can(w, s, Poll(now, now, due));
    var r1 := Then(run, Poll(now, now, due));
    var s1 := At(r1, w);
    assert s1.firing != [] && s1.firing[0] == Snapshot(id, s.schedules[id]);
    var taskId := FreshExists(Exec(s1.store));
    var r2 := Then(r1, CreateTask(true, taskId, now));
    assert Can(w, s1, CreateTask(true, taskId, now));
    var s2 := At(r2, w);
    assert s2.firing == s1.firing && s2.created && s2.schedules == s.schedules && s2.clock == now;
    after := Then(r2, RecordRun(now, true));
    assert Can(w, s2, RecordRun(now, true));
    Recorded(r2, now, w, id, interval);
    assert Continues(r1, run) && Continues(r2, run);
  }

  /** A schedule that comes due before `bound` can have its next fire found due before `bound`. */
  lemma EarlyFire(run: Run, w: World, id: Id, interval: int, next: int, bound: int)
    requires HasInterval(At(run, w), id, interval) && At(run, w).schedules[id].nextRunAt == Some(next)
    requires next < bound && At(run, w).clock < bound
    ensures !NextFiresFrom(run, w, id, bound)
  {
    var now := if next < At(run, w).clock then At(run, w).clock else next;
    var after := FireAtOnce(run, w, id, interval, now);
    var k := |FiresOf(At(run, w), id)|;
    assert FiresOf(At(after, w), id)[k].dueAt == now;
    hide At, FiresOf, HasInterval;
    assert !FiresFrom(At(after, w), id, k, bound);
  }

  /** When consecutive fires are a full interval apart: once a run has been recorded at r, every later fire, in
      every continuation, is found due at r + I or later exactly if I is not positive or the time that the new
      next_run_at was counted from is not before r. Otherwise some continuation fires early. */
  lemma FullIntervalExactly(p: Run, r: int, w: World, id: Id, interval: int)
    requires Recording(p, r, w, id, interval)
    ensures NextFiresFrom(Then(p, RecordRun(r, true)), w, id, r + interval) <==>
            interval <= 0 || CountedFrom(p, w) >= r
  {
    var run, base := Then(p, RecordRun(r, true)), CountedFrom(p, w);
    Recorded(p, r, w, id, interval);
    hide At, Recording, CountedFrom, NextFiresFrom, HasInterval;
    if interval <= 0 || base >= r {
      NoEarlyFire(run, w, id, interval, base + interval);
    } else {
      EarlyFire(run, w, id, interval, base + interval, r + interval);
    }
  }
}
