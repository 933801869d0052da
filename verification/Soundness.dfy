/** How one transaction moves the attempt table, and the references and numbering that every run keeps. */
module Soundness {
  import opened Options
  import opened Rows
  import opened Config
  import opened Transitions

  // ----- Attempt sets -----

  lemma InsertAttemptsOf(attempts: map<Id, Attempt>, a: Id, row: Attempt, t: Id)
    requires a !in attempts && row.status == AttemptRunning
    ensures var more := attempts[a := row];
            if row.taskId == t then
              && AttemptsOf(more, t) == AttemptsOf(attempts, t) + {a}
              && |AttemptsOf(more, t)| == |AttemptsOf(attempts, t)| + 1
            else
              AttemptsOf(more, t) == AttemptsOf(attempts, t)
  {
    var more := attempts[a := row];
    assert a !in AttemptsOf(attempts, t);
    if row.taskId == t {
      assert AttemptsOf(more, t) == AttemptsOf(attempts, t) + {a};
    } else {
      assert AttemptsOf(more, t) == AttemptsOf(attempts, t);
    }
  }

  lemma InsertLiveOf(attempts: map<Id, Attempt>, a: Id, row: Attempt, t: Id)
    requires a !in attempts && row.status == AttemptRunning
    ensures var more := attempts[a := row];
            if row.taskId == t then
              LiveOf(more, t) == LiveOf(attempts, t) + {a} && |LiveOf(more, t)| == |LiveOf(attempts, t)| + 1
            else
              LiveOf(more, t) == LiveOf(attempts, t)
  {
    var more := attempts[a := row];
    assert a !in LiveOf(attempts, t);
    if row.taskId == t {
      assert LiveOf(more, t) == LiveOf(attempts, t) + {a};
    } else {
      assert LiveOf(more, t) == LiveOf(attempts, t);
    }
  }

  lemma InsertLiveOn(attempts: map<Id, Attempt>, a: Id, row: Attempt, w: Id)
    requires a !in attempts && row.status == AttemptRunning
    ensures var more := attempts[a := row];
            if row.workerId == w then
              LiveOn(more, w) == LiveOn(attempts, w) + {a} && |LiveOn(more, w)| == |LiveOn(attempts, w)| + 1
            else
              LiveOn(more, w) == LiveOn(attempts, w)
  {
    var more := attempts[a := row];
    assert a !in LiveOn(attempts, w);
    if row.workerId == w {
      assert LiveOn(more, w) == LiveOn(attempts, w) + {a};
    } else {
      assert LiveOn(more, w) == LiveOn(attempts, w);
    }
  }

  lemma NumsInsert(attempts: map<Id, Attempt>, a: Id, row: Attempt, t: Id)
    requires a !in attempts
    ensures NumsOf(attempts[a := row], t) == NumsOf(attempts, t) + (if row.taskId == t then {row.num} else {})
  {
    var more := attempts[a := row];
    forall n | n in NumsOf(attempts, t) ensures n in NumsOf(more, t) {
      var b :| b in attempts && attempts[b].taskId == t && attempts[b].num == n;
      assert b in more && more[b] == attempts[b];
    }
    if row.taskId == t {
      assert a in more && more[a] == row;
    }
  }

  lemma UpdateAttempt(attempts: map<Id, Attempt>, a: Id, row: Attempt, t: Id)
    requires a in attempts
    requires row.taskId == attempts[a].taskId && row.num == attempts[a].num && row.workerId == attempts[a].workerId
    ensures var more := attempts[a := row];
            && AttemptsOf(more, t) == AttemptsOf(attempts, t)
            && NumsOf(more, t) == NumsOf(attempts, t)
            && (row.status == attempts[a].status ==>
                  LiveOf(more, t) == LiveOf(attempts, t) && LiveOn(more, t) == LiveOn(attempts, t))
            && (row.status != AttemptRunning && attempts[a].status == AttemptRunning ==>
                  && LiveOf(more, t) == LiveOf(attempts, t) - {a}
                  && LiveOn(more, t) == LiveOn(attempts, t) - {a}
                  && |LiveOf(more, t)| == |LiveOf(attempts, t)| - (if row.taskId == t then 1 else 0)
                  && |LiveOn(more, t)| == |LiveOn(attempts, t)| - (if row.workerId == t then 1 else 0))
  {
    var more := attempts[a := row];
    assert forall b :: b in more <==> b in attempts;
    assert forall b :: b in more ==> more[b].taskId == attempts[b].taskId && more[b].num == attempts[b].num;
    assert AttemptsOf(more, t) == AttemptsOf(attempts, t);
    assert NumsOf(more, t) == NumsOf(attempts, t);
    if row.status == attempts[a].status {
      assert LiveOf(more, t) == LiveOf(attempts, t);
      assert LiveOn(more, t) == LiveOn(attempts, t);
    }
    if row.status != AttemptRunning && attempts[a].status == AttemptRunning {
      assert LiveOf(more, t) == LiveOf(attempts, t) - {a};
      assert LiveOn(more, t) == LiveOn(attempts, t) - {a};
      assert a in LiveOf(attempts, t) <==> row.taskId == t;
      assert a in LiveOn(attempts, t) <==> row.workerId == t;
    }
  }

  lemma FinishLiveOf(attempts: map<Id, Attempt>, a: Id, row: Attempt, t: Id)
    requires a in attempts && attempts[a].status == AttemptRunning
    requires row.status != AttemptRunning && row.taskId == attempts[a].taskId
    ensures |LiveOf(attempts[a := row], t)| == |LiveOf(attempts, t)| - (if row.taskId == t then 1 else 0)
  {
    assert LiveOf(attempts[a := row], t) == LiveOf(attempts, t) - {a};
    assert a in LiveOf(attempts, t) <==> row.taskId == t;
  }

  lemma FinishAttemptsOf(attempts: map<Id, Attempt>, a: Id, row: Attempt, t: Id)
    requires a in attempts && row.taskId == attempts[a].taskId
    ensures AttemptsOf(attempts[a := row], t) == AttemptsOf(attempts, t)
  {
  }

  lemma FinishLiveOn(attempts: map<Id, Attempt>, a: Id, row: Attempt, w: Id)
    requires a in attempts && attempts[a].status == AttemptRunning
    requires row.status != AttemptRunning && row.workerId == attempts[a].workerId
    ensures |LiveOn(attempts[a := row], w)| == |LiveOn(attempts, w)| - (if row.workerId == w then 1 else 0)
  {
    assert LiveOn(attempts[a := row], w) == LiveOn(attempts, w) - {a};
    assert a in LiveOn(attempts, w) <==> row.workerId == w;
  }

  // ----- References and retry counts -----

  function Cap(row: Task): nat {
    if row.maxRetries < 0 then 0 else row.maxRetries
  }

  ghost predicate AttemptsRefer(db: Db) {
    forall a :: a in db.attempts ==> db.attempts[a].taskId in db.tasks
  }

  ghost predicate EventsRefer(db: Db) {
    forall e :: e in db.events ==> Refers(db, e)
  }

  predicate Refers(db: Db, e: Event) {
    e.taskId in db.tasks && (e.attemptId.Some? ==> e.attemptId.value in db.attempts)
  }

  ghost predicate RetriesBounded(tasks: map<Id, Task>) {
    forall t :: t in tasks ==> 0 <= tasks[t].retryCount <= Cap(tasks[t])
  }

  ghost predicate Sound(db: Db) {
    AttemptsRefer(db) && EventsRefer(db) && RetriesBounded(db.tasks) && "" !in db.workers
  }

  /** No row of tasks or attempts is ever deleted. */
  lemma RowsStay(db: Db, op: Op)
    ensures db.tasks.Keys <= Next(db, op).tasks.Keys
    ensures db.attempts.Keys <= Next(db, op).attempts.Keys
  {
  }

  lemma EventsReferStep(db: Db, next: Db, e: Event)
    requires EventsRefer(db)
    requires db.tasks.Keys <= next.tasks.Keys && db.attempts.Keys <= next.attempts.Keys
    requires next.events == db.events || (next.events == db.events + [e] && Refers(next, e))
    ensures EventsRefer(next)
  {
  }

  lemma AttemptsReferStep(cfg: Config, db: Db, op: Op)
    requires AttemptsRefer(db) && Enabled(cfg, db, op)
    ensures AttemptsRefer(Next(db, op))
  {
    RowsStay(db, op);
  }

  lemma RetriesBoundedStep(cfg: Config, db: Db, op: Op)
    requires AttemptsRefer(db) && RetriesBounded(db.tasks) && Enabled(cfg, db, op)
    ensures RetriesBounded(Next(db, op).tasks)
  {
  }

  lemma SoundStep(cfg: Config, db: Db, op: Op)
    requires Sound(db) && Enabled(cfg, db, op)
    ensures Sound(Next(db, op))
  {
    RowsStay(db, op);
    AttemptsReferStep(cfg, db, op);
    RetriesBoundedStep(cfg, db, op);
    AtMostOneEvent(cfg, db, op);
    WorkersNamed(cfg, db, op);
    hide Next, Enabled, AttemptsRefer, EventsRefer, RetriesBounded;
    var next := Next(db, op);
    var e := if next.events == db.events then Plain("", EventQueued, 0) else next.events[|next.events| - 1];
    EventsReferStep(db, next, e);
  }

  /** A transaction appends one event at most, about rows that exist after it. */
  lemma AtMostOneEvent(cfg: Config, db: Db, op: Op)
    requires AttemptsRefer(db) && Enabled(cfg, db, op)
    ensures var next := Next(db, op);
            next.events == db.events
            || (|next.events| > 0 && next.events == db.events + [next.events[|next.events| - 1]]
                && Refers(next, next.events[|next.events| - 1]))
  {
    hide AtLimit, MaxNum, Occupy, Release, SettledTask, FinishedAttempt;
  }

  lemma WorkersNamed(cfg: Config, db: Db, op: Op)
    requires Enabled(cfg, db, op) && "" !in db.workers
    ensures "" !in Next(db, op).workers
  {
    hide AtLimit, MaxNum, SettledTask, FinishedAttempt, OutcomeEvent;
  }

  lemma {:induction false} SoundRun(cfg: Config, tr: Trace)
    requires Legal(cfg, tr)
    ensures Sound(Exec(tr))
  {
    match tr
    case Init =>
    case Step(p, op) =>
      SoundRun(cfg, p);
      SoundStep(cfg, Exec(p), op);
  }

  // ----- Attempt numbers -----

  ghost predicate NumberedTask(attempts: map<Id, Attempt>, t: Id) {
    && (forall n :: n in NumsOf(attempts, t) <==> 1 <= n <= |AttemptsOf(attempts, t)|)
    && (forall a, b :: a in AttemptsOf(attempts, t) && b in AttemptsOf(attempts, t) ==>
          (attempts[a].num == attempts[b].num ==> a == b))
  }

  ghost predicate Numbered(attempts: map<Id, Attempt>) {
    forall t :: NumberedTask(attempts, t)
  }

  lemma NextNum(attempts: map<Id, Attempt>, t: Id)
    requires NumberedTask(attempts, t)
    ensures MaxNum(attempts, t) == |AttemptsOf(attempts, t)|
  {
    var n := |AttemptsOf(attempts, t)|;
    assert IsMaxNum(attempts, t, MaxNum(attempts, t));
    if n > 0 {
      assert n in NumsOf(attempts, t);
    }
  }

  lemma NumberedOther(attempts: map<Id, Attempt>, a: Id, row: Attempt, t: Id)
    requires NumberedTask(attempts, t) && a !in attempts && row.status == AttemptRunning && row.taskId != t
    ensures NumberedTask(attempts[a := row], t)
  {
    InsertAttemptsOf(attempts, a, row, t);
    NumsInsert(attempts, a, row, t);
    assert forall b :: b in AttemptsOf(attempts, t) ==> attempts[a := row][b] == attempts[b];
    hide NumsOf;
  }

  lemma NumberedOwn(attempts: map<Id, Attempt>, a: Id, row: Attempt, t: Id)
    requires NumberedTask(attempts, t) && a !in attempts && row.status == AttemptRunning
    requires row.taskId == t && row.num == |AttemptsOf(attempts, t)| + 1
    ensures NumberedTask(attempts[a := row], t)
  {
    InsertAttemptsOf(attempts, a, row, t);
    NumsInsert(attempts, a, row, t);
    NewNumber(attempts, t, row.num);
    assert forall b :: b in AttemptsOf(attempts, t) ==> b in attempts;
    hide AttemptsOf, NumsOf;
  }

  lemma NumberedInsert(attempts: map<Id, Attempt>, a: Id, row: Attempt, t: Id)
    requires NumberedTask(attempts, t) && a !in attempts && row.status == AttemptRunning
    requires row.taskId == t ==> row.num == |AttemptsOf(attempts, t)| + 1
    ensures NumberedTask(attempts[a := row], t)
  {
    hide NumberedTask;
    if row.taskId == t {
      NumberedOwn(attempts, a, row, t);
    } else {
      NumberedOther(attempts, a, row, t);
    }
  }

  lemma NewNumber(attempts: map<Id, Attempt>, t: Id, num: int)
    requires NumberedTask(attempts, t) && num == |AttemptsOf(attempts, t)| + 1
    ensures forall b :: b in AttemptsOf(attempts, t) ==> attempts[b].num != num
  {
    forall b | b in AttemptsOf(attempts, t) ensures attempts[b].num != num {
      assert attempts[b].num in NumsOf(attempts, t);
    }
  }

  lemma NumberedUpdate(attempts: map<Id, Attempt>, a: Id, row: Attempt, t: Id)
    requires NumberedTask(attempts, t) && a in attempts
    requires row.taskId == attempts[a].taskId && row.num == attempts[a].num && row.workerId == attempts[a].workerId
    ensures NumberedTask(attempts[a := row], t)
  {
    UpdateAttempt(attempts, a, row, t);
  }

  lemma NumberedStep(cfg: Config, db: Db, op: Op, t: Id)
    requires Sound(db) && Numbered(db.attempts) && Enabled(cfg, db, op)
    ensures NumberedTask(Next(db, op).attempts, t)
  {
    assert NumberedTask(db.attempts, t);
    var next := Next(db, op);
    match op
    case Claim(w, _, _, now, chosen, a) =>
      if chosen.Some? {
        assert NumberedTask(db.attempts, chosen.value);
        NextNum(db.attempts, chosen.value);
        NumberedInsert(db.attempts, a, next.attempts[a], t);
      }
    case Resolve(a, v, now) =>
      if a in db.attempts {
        NumberedUpdate(db.attempts, a, FinishedAttempt(db.attempts[a], v, now), t);
      }
    case Heartbeat(a, now) =>
      if a in db.attempts {
        NumberedUpdate(db.attempts, a, db.attempts[a].(heartbeatAt := Some(now)), t);
      }
    case _ =>
      assert next.attempts == db.attempts;
  }

  /** In every run the attempts of a task are numbered 1..n, each number used exactly once. */
  lemma {:induction false} AttemptNumbers(cfg: Config, tr: Trace)
    requires Legal(cfg, tr)
    ensures Numbered(Exec(tr).attempts)
  {
    match tr
    case Init =>
      forall t ensures NumberedTask(map[], t) {
        assert AttemptsOf(map[], t) == {};
        assert NumsOf(map[], t) == {};
      }
    case Step(p, op) =>
      AttemptNumbers(cfg, p);
      SoundRun(cfg, p);
      forall t ensures NumberedTask(Exec(tr).attempts, t) {
        NumberedStep(cfg, Exec(p), op, t);
      }
  }

  // ----- Ids -----

  lemma {:induction false} LongerThanAll(ids: set<Id>) returns (id: Id)
    ensures id != "" && forall x :: x in ids ==> |x| < |id|
  {
    id := "x";
    if ids != {} {
      var x :| x in ids;
      id := LongerThanAll(ids - {x});
      if |id| <= |x| {
        id := x + "x";
      }
    }
  }

  /** There is always another id. */
  lemma FreshExists(db: Db) returns (id: Id)
    ensures Fresh(db, id)
  {
    var named := set a | a in db.attempts :: db.attempts[a].taskId;
    var worked := set a | a in db.attempts :: db.attempts[a].workerId;
    id := LongerThanAll(db.tasks.Keys + db.attempts.Keys + db.workers.Keys + named + worked);
    assert forall a :: a in db.attempts ==> db.attempts[a].taskId in named && db.attempts[a].workerId in worked;
  }

  // ----- Columns that never change -----

  predicate SameIdentity(a: Task, b: Task) {
    && a.typ == b.typ && a.queue == b.queue && a.payload == b.payload && a.priority == b.priority
    && a.maxRetries == b.maxRetries && a.timeoutSecs == b.timeoutSecs
    && a.parentId == b.parentId && a.scheduleId == b.scheduleId && a.createdAt == b.createdAt
  }

  lemma IdentityStep(cfg: Config, db: Db, op: Op, t: Id)
    requires Enabled(cfg, db, op) && t in db.tasks
    ensures t in Next(db, op).tasks && SameIdentity(Next(db, op).tasks[t], db.tasks[t])
  {
    hide ClaimChoice, MaxNum, Occupy, Release, FinishedAttempt, OutcomeEvent;
    if op.Claim? && op.chosen.Some? {
      assert op.chosen.value in db.tasks ==>
        SameIdentity(ClaimTx(db, op.workerId, op.chosen.value, op.attemptId, op.now).tasks[t], db.tasks[t]);
    }
  }

  /** A task row, once inserted, stays, and keeps its type, queue, payload, priority, limits, parent and
      schedule in every continuation of the run. */
  lemma {:induction false} IdentityFixed(cfg: Config, tr: Trace, base: Trace, t: Id)
    requires Legal(cfg, tr) && Extends(tr, base) && t in Exec(base).tasks
    ensures t in Exec(tr).tasks && SameIdentity(Exec(tr).tasks[t], Exec(base).tasks[t])
  {
    hide Next;
    if tr != base {
      IdentityFixed(cfg, tr.prev, base, t);
      IdentityStep(cfg, Exec(tr.prev), tr.op, t);
    }
  }
}
