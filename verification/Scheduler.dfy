/** The interval scheduler as one goroutine executes it, on a task store. Schedules has the same calls
    interleaved with everybody else's. */
module Scheduler {
  import opened Loops
  import opened Options
  import opened Rows
  import opened Transitions
  import opened Schedules
  import TaskStore

  /** How the store calls for one fire go: whether the task is created, with which id and when, whether the run
      is recorded, and when. */
  datatype Reply = Reply(createOk: bool, taskId: Id, createdAt: int, recordOk: bool, at: int)

  /** An enabled schedule without a next_run_at gets the one that is computed for it. */
  function Initialised(row: Schedule, now: int, cron: Cron): Schedule {
    if row.enabled && row.nextRunAt.None? then row.(nextRunAt := ComputeNextRun(row, now, cron)) else row
  }

  /** A schedule's row after its fire, which the poll started from the row it had read. */
  function Fired(row: Schedule, read: Schedule, now: int, reply: Reply, cron: Cron): Schedule {
    var next := ComputeNextRun(read, now, cron);
    if reply.createOk && reply.recordOk && next.Some? then row.(lastRunAt := Some(reply.at), nextRunAt := next) else row
  }

  /** The run of the store after the first fires of a poll: one new task for each creation that goes well. */
  ghost function Placed(tr: Trace, snapshot: seq<Snapshot>, replies: nat -> Reply): Trace {
    if snapshot == [] then tr
    else
      var last := |snapshot| - 1;
      var before := Placed(tr, snapshot[..last], replies);
      PlacedOne(before, snapshot[last], replies(last))
  }

  function PlacedOne(tr: Trace, sc: Snapshot, reply: Reply): Trace {
    if reply.createOk then Step(tr, Create(reply.taskId, TaskFor(sc), reply.createdAt)) else tr
  }

  /** The fires of one poll are recorded one after another, and not before the poll read its time; new ids
      name nothing yet, each other included. */
  ghost predicate Ordered(replies: nat -> Reply, now: int) {
    && (forall i: nat, j: nat :: i <= j ==> now <= replies(i).at <= replies(j).at)
    && (forall i: nat, j: nat :: i < j ==> replies(i).taskId != replies(j).taskId)
  }

  ghost predicate FreshFrom(db: Db, replies: nat -> Reply, n: nat) {
    forall j: nat :: n <= j ==> Fresh(db, replies(j).taskId)
  }

  /** The first `n` due schedules have been fired, each from its row before the poll, and no other row changed. */
  ghost predicate AllFired(before: map<Id, Schedule>, after: map<Id, Schedule>, due: seq<Id>, n: nat, now: int,
                           replies: nat -> Reply, cron: Cron)
  {
    && after.Keys == before.Keys && n <= |due|
    && (forall i :: 0 <= i < n ==> FiredAt(before, after, due[i], now, replies(i), cron))
    && (forall id :: id in before && id !in due[..n] ==> after[id] == before[id])
  }

  predicate FiredAt(before: map<Id, Schedule>, after: map<Id, Schedule>, id: Id, now: int, reply: Reply, cron: Cron) {
    id in before && id in after && after[id] == Fired(before[id], before[id], now, reply, cron)
  }

  /** A new queued task with the schedule's type, queue, payload and id, and the defaults for the rest. */
  predicate Asked(sc: Schedule, id: Id, row: Task) {
    && row.typ == sc.taskType && row.queue == (if sc.queue == "" then "default" else sc.queue)
    && row.payload == sc.payload && row.scheduleId == Some(id) && row.parentId == None
    && row.status == Queued && row.priority == 0 && row.maxRetries == 3 && row.timeoutSecs == None
    && row.retryCount == 0 && row.runAt == row.createdAt
  }

  class TaskScheduler {
    const cron: Cron
    const store: TaskStore.Store
    var schedules: map<Id, Schedule>
    ghost var history: Run

    ghost function Now(): State
      reads this
    {
      At(history, World(store.cfg, cron))
    }

    /** The fields are the state of the machine after `history`, with `rest` still to be fired. */
    ghost predicate InPoll(rest: seq<Snapshot>)
      reads this, store
    {
      var s := Now();
      store.Valid() && s.store == store.history && s.schedules == schedules && s.firing == rest && !s.created
    }

    ghost predicate Valid()
      reads this, store
    {
      InPoll([])
    }

    /** The same, in a poll that read this time, and whose last store call was not after `at`. */
    ghost predicate Firing(rest: seq<Snapshot>, now: int, at: int)
      reads this, store
    {
      InPoll(rest) && Now().pollNow == now && Now().clock <= at
    }

    constructor (cron: Cron, store: TaskStore.Store, clock: int)
      requires store.Valid()
      ensures Valid() && history == Start(clock, store.history) && this.cron == cron && this.store == store
    {
      this.cron, this.store := cron, store;
      schedules := map[];
      history := Start(clock, store.history);
    }

    method CreateSchedule(id: Id, row: Schedule)
      requires Valid() && id !in schedules && row.lastRunAt.None?
      modifies this
      ensures Valid() && history == Then(old(history), Add(id, row))
    {
      schedules := schedules[id := row];
      history := Then(history, Add(id, row));
    }

    /** Another client's transaction on the store. */
    ghost method Notice(op: Op)
      requires store.Valid() && store.history == Step(Now().store, op)
      requires Now().schedules == schedules && Now().firing == [] && !Now().created
      modifies this`history
      ensures Valid() && history == Then(old(history), Client(op))
    {
      history := Then(history, Client(op));
    }

    /** At startup: exactly the enabled schedules without a next_run_at get one, unless it cannot be computed
        or the store refuses the update. */
    method InitSchedules(now: int, accepts: Id -> bool)
      requires Valid() && Now().clock <= now
      modifies this
      ensures Valid() && Now().clock <= now && schedules.Keys == old(schedules).Keys
      ensures forall id :: id in schedules ==>
        schedules[id] == if accepts(id) then Initialised(old(schedules)[id], now, cron) else old(schedules)[id]
      ensures forall id :: id in schedules ==> var row := old(schedules)[id];
        schedules[id] == if accepts(id) && row.enabled && row.nextRunAt.None?
                         then row.(nextRunAt := ComputeNextRun(row, now, cron)) else row
    {
      var rest := schedules.Keys;
      while rest != {}
        invariant rest <= schedules.Keys == old(schedules).Keys
        invariant Valid() && Now().clock <= now
        invariant forall id :: id in schedules ==>
          schedules[id] ==
            if id !in rest && accepts(id) then Initialised(old(schedules)[id], now, cron) else old(schedules)[id]
      {
        var id :| id in rest;
        rest := rest - {id};
        if !schedules[id].enabled || schedules[id].nextRunAt.Some? {
          continue;
        }
        var next := ComputeNextRun(schedules[id], now, cron);
        if next.None? || !accepts(id) {
          continue;
        }
        history := Then(history, InitNext(id, now));
        schedules := schedules[id := schedules[id].(nextRunAt := next)];
      }
    }

    /** Every enabled schedule whose next_run_at has come, each once. */
    method DueSchedules(now: int) returns (due: seq<Id>)
      ensures forall id :: id in due <==> id in schedules && IsDue(schedules[id], now)
      ensures forall id :: id in due <==>
        && id in schedules && schedules[id].enabled
        && schedules[id].nextRunAt.Some? && schedules[id].nextRunAt.value <= now
      ensures Unique(due)
    {
      due := [];
      var rest := schedules.Keys;
      while rest != {}
        invariant rest <= schedules.Keys
        invariant forall id :: id in due <==> id in schedules && id !in rest && IsDue(schedules[id], now)
        invariant Unique(due)
      {
        var id :| id in rest;
        rest := rest - {id};
        if IsDue(schedules[id], now) {
          due := due + [id];
        }
      }
    }

    /** Fires one due schedule: creates its task, and then records the run and advances next_run_at, from
        the row as the poll read it. A failed create records nothing; a failed record leaves the task. */
    method FireDue(sc: Snapshot, ghost rest: seq<Snapshot>, now: int, reply: Reply, ghost until: int)
      requires Firing([sc] + rest, now, reply.at) && reply.at <= until
      requires Fresh(store.Tables(), reply.taskId)
      modifies this, store
      ensures Firing(rest, now, until)
      ensures history == CalledFor(old(history), reply)
      ensures store.history == PlacedOne(old(store.history), sc, reply)
      ensures sc.id in old(schedules)
      ensures schedules == old(schedules)[sc.id := Fired(old(schedules)[sc.id], sc.row, now, reply, cron)]
      ensures var next := ComputeNextRun(sc.row, now, cron);
              if reply.createOk && reply.recordOk && next.Some?
              then schedules ==
                old(schedules)[sc.id := old(schedules)[sc.id].(lastRunAt := Some(reply.at), nextRunAt := next)]
              else schedules == old(schedules)
      ensures if !reply.createOk then store.Tables() == old(store.Tables())
              else
                && reply.taskId in store.tasks
                && store.tasks == old(store.tasks)[reply.taskId := store.tasks[reply.taskId]]
                && Asked(sc.row, sc.id, store.tasks[reply.taskId])
    {
      MachineFires(history, World(store.cfg, cron), sc, rest, reply);
      hide At, Exec, Legal, Schedules.Next, Transitions.Next, NewTask, Fresh;
      history := CalledFor(history, reply);
      if !reply.createOk {
        return;
      }
      var input := TaskInput(sc.row.taskType, sc.row.queue, sc.row.payload, 0, 0, None, None, None, Some(sc.id));
      var task := store.CreateTask(input, reply.createdAt, reply.taskId);
      var next := ComputeNextRun(sc.row, now, cron);
      if next.Some? && reply.recordOk && sc.id in schedules {
        schedules := schedules[sc.id := schedules[sc.id].(lastRunAt := Some(reply.at), nextRunAt := next)];
      }
    }

    /** The loop of one poll over the due schedules as it read them. */
    method FireAll(ghost due: seq<Id>, snapshot: seq<Snapshot>, now: int, replies: nat -> Reply, alive: nat -> bool)
      returns (done: nat)
      requires Firing(snapshot, now, replies(0).at)
      requires Ordered(replies, now) && FreshFrom(store.Tables(), replies, 0) && Unique(due)
      requires (forall id :: id in due ==> id in schedules) && snapshot == Snapshots(schedules, due)
      modifies this, store
      ensures Valid() && StopsWell(alive, done, |snapshot|)
      ensures Progress(old(schedules), old(store.history), schedules, store.history, due, done, now, replies, cron)
    {
      ghost var before, placed := schedules, store.history;
      FireNone(before, placed, due, now, replies, cron);
      hide At, Exec, Legal, Fresh, FreshFrom, Progress, Ordered, Unique, ComputeNextRun, Fired, TaskFor, PlacedOne;
      GoesOn(alive, 0);
      hide Snapshots, Firing, InPoll, Now, CalledFor, WentOn;
      done := 0;
      while done < |snapshot| && alive(done)
        invariant done <= |snapshot| && WentOn(alive, done)
        invariant Firing(snapshot[done..], now, replies(done).at)
        invariant Progress(before, placed, schedules, store.history, due, done, now, replies, cron)
      {
        FireNext(before, placed, schedules, store.history, due, done, now, replies, cron);
        GoesOn(alive, done);
        FireDue(snapshot[done], snapshot[done + 1..], now, replies(done), replies(done + 1).at);
        done := done + 1;
      }
      Stop(snapshot[done..], now, replies(done).at);
    }

    /** What is still to be fired is forgotten. */
    ghost method Stop(rest: seq<Snapshot>, now: int, at: int)
      requires Firing(rest, now, at)
      modifies this`history
      ensures Valid() && history == if rest == [] then old(history) else Then(old(history), Crash)
    {
      MachineCrashes(history, World(store.cfg, cron));
      hide At, Exec, Legal;
      if rest != [] {
        history := Then(history, Crash);
      }
    }

    /** One poll: the due schedules are found, and each is fired once, from that snapshot, as far as the poll is
        not told to stop; no other schedule is touched. `replies(i)` says how the store calls for the i-th one go,
        and `alive(i)` whether the poll goes on to it. */
    method Poll(dueAt: int, now: int, replies: nat -> Reply, alive: nat -> bool)
      returns (ghost due: seq<Id>, done: nat)
      requires Valid() && Now().clock <= dueAt <= now
      requires Ordered(replies, now) && FreshFrom(store.Tables(), replies, 0)
      modifies this, store
      ensures Valid() && StopsWell(alive, done, |due|)
      ensures Unique(due) && forall id :: id in due <==> id in old(schedules) && IsDue(old(schedules)[id], dueAt)
      ensures Progress(old(schedules), old(store.history), schedules, store.history, due, done, now, replies, cron)
    {
      var found := DueSchedules(dueAt);
      due := found;
      PollStarts(history, World(store.cfg, cron), dueAt, now, found);
      history := Then(history, Move.Poll(dueAt, now, found));
      hide At, IsDue, Progress, Exec, Legal, Fresh;
      done := FireAll(found, Snapshots(schedules, found), now, replies, alive);
    }
  }

  /** The calls of one fire, as moves of the machine. */
  function CalledFor(run: Run, reply: Reply): Run {
    var created := Then(run, Move.CreateTask(reply.createOk, reply.taskId, reply.createdAt));
    if reply.createOk then Then(created, RecordRun(reply.at, reply.recordOk)) else created
  }

  /** After `n` turns of the loop: the schedules' rows, the store's run, and the ids that are still fresh. */
  ghost predicate Progress(before: map<Id, Schedule>, placed: Trace, after: map<Id, Schedule>, tr: Trace, due: seq<Id>,
                           n: nat, now: int, replies: nat -> Reply, cron: Cron)
  {
    && n <= |due|
    && (forall id :: id in due ==> id in before)
    && AllFired(before, after, due, n, now, replies, cron)
    && tr == Placed(placed, Snapshots(before, due)[..n], replies)
    && FreshFrom(Exec(tr), replies, n)
  }

  lemma FireNone(before: map<Id, Schedule>, placed: Trace, due: seq<Id>, now: int, replies: nat -> Reply, cron: Cron)
    requires (forall id :: id in due ==> id in before) && Ordered(replies, now) && FreshFrom(Exec(placed), replies, 0)
    ensures var snapshot := Snapshots(before, due);
            |snapshot| == |due| && snapshot[0..] == snapshot && snapshot[|due|..] == [] && now <= replies(0).at
    ensures Progress(before, placed, before, placed, due, 0, now, replies, cron)
  {
  }

  /** What one turn of the loop relies on, and what firing the next schedule will establish. */
  lemma FireNext(before: map<Id, Schedule>, placed: Trace, after: map<Id, Schedule>, tr: Trace, due: seq<Id>, n: nat,
                 now: int, replies: nat -> Reply, cron: Cron)
    requires Progress(before, placed, after, tr, due, n, now, replies, cron) && n < |due|
    requires Ordered(replies, now) && Unique(due)
    ensures Fresh(Exec(tr), replies(n).taskId) && replies(n).at <= replies(n + 1).at
    ensures (forall id :: id in due ==> id in before) && |Snapshots(before, due)| == |due|
    ensures var snapshot := Snapshots(before, due); var sc := snapshot[n];
            && snapshot[n..] == [sc] + snapshot[n + 1..]
            && sc.id in after
            && Progress(before, placed, after[sc.id := Fired(after[sc.id], sc.row, now, replies(n), cron)],
                        PlacedOne(tr, sc, replies(n)), due, n + 1, now, replies, cron)
  {
    var snapshot := Snapshots(before, due);
    NextFired(before, after, due, n, now, replies, cron);
    NextPlaced(placed, snapshot, replies, n);
    NextFresh(tr, snapshot[n], replies, n, now);
    NextSnapshot(before, due, n);
    hide Fired, TaskFor, Placed, PlacedOne, Unique, FreshFrom, Exec, AllFired, Snapshots;
  }

  lemma NextSnapshot(rows: map<Id, Schedule>, due: seq<Id>, n: nat)
    requires n < |due| && forall id :: id in due ==> id in rows
    ensures var snapshot := Snapshots(rows, due);
            && |snapshot| == |due| && snapshot[n] == Snapshot(due[n], rows[due[n]])
            && snapshot[n..] == [snapshot[n]] + snapshot[n + 1..]
  {
  }

  lemma NextFired(before: map<Id, Schedule>, after: map<Id, Schedule>, due: seq<Id>, n: nat, now: int,
                  replies: nat -> Reply, cron: Cron)
    requires AllFired(before, after, due, n, now, replies, cron)
    requires n < |due| && due[n] in before && Unique(due)
    ensures after[due[n]] == before[due[n]]
    ensures var row := Fired(after[due[n]], before[due[n]], now, replies(n), cron);
            AllFired(before, after[due[n] := row], due, n + 1, now, replies, cron)
  {
    hide Fired;
    assert due[n] !in due[..n];
    FiredSnoc(before, after, due, n, now, replies, cron);
  }

  lemma FiredSnoc(before: map<Id, Schedule>, after: map<Id, Schedule>, due: seq<Id>, n: nat, now: int,
                  replies: nat -> Reply, cron: Cron)
    requires AllFired(before, after, due, n, now, replies, cron)
    requires n < |due| && due[n] in before && due[n] !in due[..n]
    ensures var row := Fired(after[due[n]], before[due[n]], now, replies(n), cron);
            AllFired(before, after[due[n] := row], due, n + 1, now, replies, cron)
  {
    hide Fired;
    assert due[..n + 1] == due[..n] + [due[n]];
  }

  lemma NextPlaced(placed: Trace, snapshot: seq<Snapshot>, replies: nat -> Reply, n: nat)
    requires n < |snapshot|
    ensures Placed(placed, snapshot[..n + 1], replies) ==
            PlacedOne(Placed(placed, snapshot[..n], replies), snapshot[n], replies(n))
  {
    assert snapshot[..n + 1][..n] == snapshot[..n];
  }

  lemma NextFresh(tr: Trace, sc: Snapshot, replies: nat -> Reply, n: nat, now: int)
    requires FreshFrom(Exec(tr), replies, n) && Ordered(replies, now)
    ensures FreshFrom(Exec(PlacedOne(tr, sc, replies(n))), replies, n + 1)
  {
  }

  lemma HeadIsThere(run: Run, w: World, sc: Snapshot, rest: seq<Snapshot>)
    requires At(run, w).firing == [sc] + rest
    ensures sc.id in At(run, w).schedules
    ensures ([sc] + rest)[1..] == rest && ([sc] + rest)[0] == sc
  {
    FiringRun(run, w);
  }

  /** What the calls of one fire do to the machine. */
  lemma MachineFires(run: Run, w: World, sc: Snapshot, rest: seq<Snapshot>, reply: Reply)
    requires var s := At(run, w);
             s.firing == [sc] + rest && !s.created && s.clock <= reply.at && Fresh(Exec(s.store), reply.taskId)
    ensures var s, t := At(run, w), At(CalledFor(run, reply), w);
            && sc.id in s.schedules
            && t.store == PlacedOne(s.store, sc, reply)
            && t.firing == rest && !t.created && t.pollNow == s.pollNow && t.clock <= reply.at
            && t.schedules == s.schedules[sc.id := Fired(s.schedules[sc.id], sc.row, s.pollNow, reply, w.cron)]
  {
    HeadIsThere(run, w, sc, rest);
    var s, create := At(run, w), Move.CreateTask(reply.createOk, reply.taskId, reply.createdAt);
    assert Can(w, s, create);
    var c := At(Then(run, create), w);
    assert c == Schedules.Next(s, create, w);
    if reply.createOk {
      assert Can(w, c, RecordRun(reply.at, reply.recordOk));
    }
  }

  lemma MachineCrashes(run: Run, w: World)
    ensures var s, t := At(run, w), At(Then(run, Crash), w);
            t.store == s.store && t.schedules == s.schedules && t.firing == [] && !t.created
  {
  }

  lemma PollStarts(run: Run, w: World, dueAt: int, now: int, due: seq<Id>)
    requires Can(w, At(run, w), Move.Poll(dueAt, now, due))
    ensures var s, t := At(run, w), At(Then(run, Move.Poll(dueAt, now, due)), w);
            && t.schedules == s.schedules && t.firing == Snapshots(s.schedules, due) && !t.created
            && t.pollNow == now && t.clock == now && t.store == s.store
  {
  }
}
