/** Left alone, the engine drains: without new work or operator revivals it can take only so many steps. */
module Drain {
  import opened Options
  import opened Rows
  import opened Config
  import opened Transitions
  import opened Soundness
  import opened Lanes

  // ----- Sums over a table -----

  ghost function Sum(keys: set<Id>, f: map<Id, nat>): nat
    requires keys <= f.Keys
  {
    if keys == {} then 0
    else
      var k :| k in keys;
      f[k] + Sum(keys - {k}, f)
  }

  lemma {:induction false} SumDescends(keys: set<Id>, f: map<Id, nat>, g: map<Id, nat>)
    requires keys <= f.Keys && keys <= g.Keys
    requires forall k :: k in keys ==> g[k] <= f[k]
    ensures Sum(keys, g) <= Sum(keys, f)
    ensures (exists k :: k in keys && g[k] < f[k]) ==> Sum(keys, g) < Sum(keys, f)
  {
    if keys != {} {
      var k :| k in keys && Sum(keys, f) == f[k] + Sum(keys - {k}, f) && Sum(keys, g) == g[k] + Sum(keys - {k}, g);
      SumDescends(keys - {k}, f, g);
      if j :| j in keys && g[j] < f[j] {
        assert j == k || j in keys - {k};
      }
    }
  }

  // ----- The measure -----

  function Rank(s: TaskStatus): nat {
    match s
    case Retrying => 5
    case Queued => 4
    case Running => 2
    case Halted => 1
    case _ => 0
  }

  /** Remaining retry budget, status and live attempts, stale ones included, in one number. */
  function Weight(l: Lane): nat {
    5 * (if l.retries < l.cap then l.cap - l.retries else 0) + Rank(l.status) + l.live
  }

  ghost function Weights(db: Db): map<Id, nat> {
    map t | t in db.tasks :: Weight(LaneOf(db, t))
  }

  ghost function Work(db: Db): nat {
    Sum(db.tasks.Keys, Weights(db))
  }

  /** Everything but CreateTask, RestartTask, ResumeTask and RetryTask. */
  predicate Quiet(op: Op) {
    match op
    case Create(_, _, _) => false
    case Restart(_, _, _) => false
    case Control(_, action, _) => action == Halt || action == CancelTask
    case _ => true
  }

  /** A claim, outcome, timeout, requeue, halt or cancel that changes something; heartbeats and
      registrations are not progress. */
  ghost predicate Effective(db: Db, op: Op) {
    !op.Heartbeat? && !op.Enroll? && Next(db, op) != db
  }

  predicate Reviving(m: Move) {
    m in {Command(Resume), Command(Retry)} || m == Supersede
  }

  lemma MoveDescends(l: Lane, m: Move)
    requires Can(l, m) && !Reviving(m)
    ensures Weight(Moved(l, m)) <= Weight(l)
    ensures m != Stay ==> Weight(Moved(l, m)) < Weight(l)
  {
  }

  lemma RequeueIdle(db: Db, now: int)
    ensures RequeueTx(db, now) == db || exists t :: t in db.tasks && Due(db.tasks[t], now)
  {
    if forall t :: t in db.tasks ==> !Due(db.tasks[t], now) {
      assert RequeueTx(db, now).tasks == db.tasks;
    }
  }

  /** Every effective operation moves some task. */
  lemma SomethingMoves(cfg: Config, db: Db, op: Op) returns (t: Id)
    requires Sound(db) && Enabled(cfg, db, op) && Quiet(op) && Effective(db, op)
    ensures t in db.tasks && MoveOf(db, op, t) != Stay
  {
    match op
    case Claim(_, queue, types, now, chosen, _) =>
      t := chosen.value;
    case Resolve(a, _, _) =>
      t := db.attempts[a].taskId;
    case Control(id, _, _) =>
      t := id;
    case Requeue(now) =>
      RequeueIdle(db, now);
      t :| t in db.tasks && Due(db.tasks[t], now);
  }

  lemma TasksFixed(db: Db, op: Op)
    requires Quiet(op)
    ensures Next(db, op).tasks.Keys == db.tasks.Keys
  {
  }

  lemma WorkDescends(cfg: Config, db: Db, op: Op)
    requires Sound(db) && Enabled(cfg, db, op) && Quiet(op)
    ensures Work(Next(db, op)) <= Work(db)
    ensures Effective(db, op) ==> Work(Next(db, op)) < Work(db)
  {
    TasksFixed(db, op);
    var next := Next(db, op);
    hide Sum, Weight, LaneOf, Enabled, Sound;
    forall t | t in db.tasks
      ensures Weights(next)[t] <= Weights(db)[t]
      ensures MoveOf(db, op, t) != Stay ==> Weights(next)[t] < Weights(db)[t]
    {
      LaneStep(cfg, db, op, t);
      hide Next;
      MoveDescends(LaneOf(db, t), MoveOf(db, op, t));
    }
    if Effective(db, op) {
      var t := SomethingMoves(cfg, db, op);
      assert Weights(next)[t] < Weights(db)[t];
    }
    SumDescends(db.tasks.Keys, Weights(db), Weights(next));
  }

  // ----- Continuations -----

  ghost predicate QuietSince(tr: Trace, base: Trace) {
    tr == base || (tr.Step? && Quiet(tr.op) && QuietSince(tr.prev, base))
  }

  ghost function EffectiveSince(tr: Trace, base: Trace): nat {
    if tr == base || tr.Init? then 0
    else EffectiveSince(tr.prev, base) + if Effective(Exec(tr.prev), tr.op) then 1 else 0
  }

  /** However a run goes on without new work or revivals, its effective steps are paid for by the work that
      was there: at most that many can ever happen, whatever the interleaving. */
  lemma {:induction false} EngineDrains(cfg: Config, tr: Trace, base: Trace)
    requires Legal(cfg, tr) && QuietSince(tr, base)
    ensures EffectiveSince(tr, base) + Work(Exec(tr)) <= Work(Exec(base))
  {
    hide Next, Work, Enabled;
    if tr != base {
      EngineDrains(cfg, tr.prev, base);
      SoundRun(cfg, tr.prev);
      WorkDescends(cfg, Exec(tr.prev), tr.op);
    }
  }

  // ----- No deadlock -----

  ghost predicate AtRest(db: Db) {
    && (forall t :: t in db.tasks ==> db.tasks[t].status in {Succeeded, Dead, Cancelled, Superseded})
    && (forall a :: a in db.attempts ==> db.attempts[a].status != AttemptRunning)
  }

  lemma {:induction false} BestOf(db: Db, group: set<Id>) returns (best: Id)
    requires group != {} && group <= db.tasks.Keys
    ensures best in group && forall u :: u in group ==> NotAfter(db.tasks[best], db.tasks[u])
  {
    best :| best in group;
    if group != {best} {
      var rest := BestOf(db, group - {best});
      if !NotAfter(db.tasks[best], db.tasks[rest]) {
        best := rest;
      }
    }
  }

  /** Every task that waits may go on at this time. */
  ghost predicate AllDue(tasks: map<Id, Task>, now: int) {
    forall t :: t in tasks && tasks[t].status in {Queued, Retrying} ==> tasks[t].runAt <= now
  }

  lemma {:induction false} LatestRunAt(tasks: map<Id, Task>, group: set<Id>) returns (bound: int)
    requires group <= tasks.Keys
    ensures forall t :: t in group ==> tasks[t].runAt <= bound
  {
    bound := 0;
    if group != {} {
      var t :| t in group;
      bound := LatestRunAt(tasks, group - {t});
      if bound < tasks[t].runAt {
        bound := tasks[t].runAt;
      }
    }
  }

  /** There is a time from which on every waiting task is due. */
  lemma DueEventually(tasks: map<Id, Task>) returns (bound: int)
    ensures forall now :: now >= bound ==> AllDue(tasks, now)
  {
    bound := LatestRunAt(tasks, tasks.Keys);
  }

  /** With nothing running, a valid configuration closes no guard, so a queued task can be claimed
      by a worker of its queue and type once it is due. */
  lemma IdleEngineClaims(cfg: Config, db: Db, t: Id, a: Id, now: int) returns (op: Op)
    requires cfg.Valid() && Fresh(db, a) && t in db.tasks && db.tasks[t].status == Queued && db.tasks[t].runAt <= now
    requires forall u :: u in db.tasks ==> db.tasks[u].status != Running
    ensures op.Claim? && op.chosen.Some? && op.now == now && Enabled(cfg, db, op)
  {
    var queue, types := db.tasks[t].queue, [db.tasks[t].typ];
    forall scope: Scope ensures !AtLimit(cfg, db.tasks, scope) {
      assert RunningIn(db.tasks, scope) == {};
    }
    var group := set u | u in db.tasks && Candidate(cfg, db, queue, types, now, u);
    assert t in group;
    var best := BestOf(db, group);
    forall u | Candidate(cfg, db, queue, types, now, u) ensures NotAfter(db.tasks[best], db.tasks[u]) {
      assert u in group;
    }
    op := Claim("", queue, types, now, Some(best), a);
  }

  lemma AbortChanges(db: Db, a: Id, now: int)
    requires a in db.attempts && db.attempts[a].status == AttemptRunning && AllDue(db.tasks, now)
    ensures var op := Resolve(a, Abort, now); Effective(db, op) && AllDue(Next(db, op).tasks, now)
  {
    var next := Next(db, Resolve(a, Abort, now));
    assert next.attempts[a].status != db.attempts[a].status;
  }

  lemma RequeueChanges(db: Db, t: Id, now: int)
    requires t in db.tasks && db.tasks[t].status == Retrying && AllDue(db.tasks, now)
    ensures Effective(db, Requeue(now)) && AllDue(Next(db, Requeue(now)).tasks, now)
  {
    assert Next(db, Requeue(now)).tasks[t].status == Queued;
  }

  lemma ClaimChanges(cfg: Config, db: Db, op: Op, now: int)
    requires op.Claim? && op.chosen.Some? && Enabled(cfg, db, op) && AllDue(db.tasks, now)
    ensures Effective(db, op) && AllDue(Next(db, op).tasks, now)
  {
    hide AtLimit, MaxNum, Occupy;
    assert |Next(db, op).events| != |db.events|;
  }

  /** In every reachable state that is not at rest, and at every time when the waiting tasks are due, a claim,
      an outcome or a requeue is enabled and effective, with no help from an operator. */
  lemma NoDeadlock(cfg: Config, tr: Trace, a: Id, now: int) returns (op: Op)
    requires cfg.Valid() && Legal(cfg, tr) && Fresh(Exec(tr), a) && !AtRest(Exec(tr)) && AllDue(Exec(tr).tasks, now)
    ensures (op.Claim? || op.Resolve? || op.Requeue?) && op.now == now
    ensures Enabled(cfg, Exec(tr), op) && Effective(Exec(tr), op) && AllDue(Next(Exec(tr), op).tasks, now)
  {
    var db := Exec(tr);
    SoundRun(cfg, tr);
    hide Exec, Legal, Fresh, AttemptsRefer, EventsRefer, RetriesBounded, Next, ClaimChoice, Effective;
    if b :| b in db.attempts && db.attempts[b].status == AttemptRunning {
      op := Resolve(b, Abort, now);
      AbortChanges(db, b, now);
    } else {
      var t :| t in db.tasks && db.tasks[t].status !in {Succeeded, Dead, Cancelled, Superseded};
      forall u | u in db.tasks ensures db.tasks[u].status !in {Running, Halted} {
        if db.tasks[u].status in {Running, Halted} {
          LatestAttemptRuns(cfg, tr, u);
        }
      }
      if db.tasks[t].status == Retrying {
        op := Requeue(now);
        RequeueChanges(db, t, now);
      } else {
        op := IdleEngineClaims(cfg, db, t, a, now);
        ClaimChanges(cfg, db, op, now);
      }
    }
  }

  // ----- Coming to rest -----

  /** `tr` continues `base` by quiet steps, all of them at this time. */
  ghost predicate QuietAt(tr: Trace, base: Trace, now: int) {
    tr == base || (tr.Step? && Quiet(tr.op) && Tick(tr.op) == Some(now) && QuietAt(tr.prev, base, now))
  }

  lemma {:induction false} QuietAfter(tr: Trace, base: Trace, op: Op, now: int)
    requires QuietAt(tr, Step(base, op), now) && Quiet(op) && Tick(op) == Some(now)
    ensures QuietAt(tr, base, now)
  {
    if tr != Step(base, op) {
      QuietAfter(tr.prev, base, op, now);
    }
  }

  /** From every reachable state the engine can come to rest without new work or operators: at any time when
      the waiting tasks are due, quiet steps lead to it. With EngineDrains, which bounds the effective steps of
      every quiet continuation, any schedule that goes on taking effective steps while there are some ends at rest. */
  lemma {:induction false} RestReachable(cfg: Config, tr: Trace, now: int) returns (rest: Trace)
    requires cfg.Valid() && Legal(cfg, tr) && AllDue(Exec(tr).tasks, now)
    ensures Legal(cfg, rest) && QuietAt(rest, tr, now) && AtRest(Exec(rest))
    decreases Work(Exec(tr))
  {
    rest := tr;
    if !AtRest(Exec(tr)) {
      var a := FreshExists(Exec(tr));
      var op := NoDeadlock(cfg, tr, a, now);
      SoundRun(cfg, tr);
      WorkDescends(cfg, Exec(tr), op);
      var next := Step(tr, op);
      assert Exec(next) == Next(Exec(tr), op);
      hide Next, AllDue, Work, Enabled, Effective, AtRest, Fresh, Sound;
      rest := RestReachable(cfg, next, now);
      QuietAfter(rest, tr, op, now);
    }
  }
}
