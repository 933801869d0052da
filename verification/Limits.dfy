/** The execution limits hold in every reachable state, and worker load is what the attempt table says. */
module Limits {
  import opened Options
  import opened Rows
  import opened Config
  import opened Transitions
  import opened Soundness

  lemma {:induction false} SubsetSize<T>(small: set<T>, big: set<T>)
    requires small <= big
    ensures |small| <= |big|
  {
    if small != {} {
      var x :| x in small;
      SubsetSize(small - {x}, big - {x});
    }
  }

  // ----- Running tasks against the limits -----

  /** Whatever a transaction does, it makes no task running but the one it claims. */
  lemma RunningGrowth(cfg: Config, db: Db, op: Op, scope: Scope)
    requires AttemptsRefer(db) && Enabled(cfg, db, op)
    ensures if op.Claim? && op.chosen.Some? && op.chosen.value in db.tasks
               && scope.Covers(db.tasks[op.chosen.value]) then
              RunningIn(Next(db, op).tasks, scope) == RunningIn(db.tasks, scope) + {op.chosen.value}
            else
              RunningIn(Next(db, op).tasks, scope) <= RunningIn(db.tasks, scope)
  {
  }

  ghost predicate WithinLimit(cfg: Config, tasks: map<Id, Task>, scope: Scope) {
    cfg.Limit(scope).Some? ==> |RunningIn(tasks, scope)| <= cfg.Limit(scope).value
  }

  lemma WithinLimitStep(cfg: Config, db: Db, op: Op, scope: Scope)
    requires AttemptsRefer(db) && Enabled(cfg, db, op) && WithinLimit(cfg, db.tasks, scope)
    ensures WithinLimit(cfg, Next(db, op).tasks, scope)
  {
    RunningGrowth(cfg, db, op, scope);
    hide Next, RunningIn, Fresh;
    if op.Claim? && op.chosen.Some? && op.chosen.value in db.tasks && scope.Covers(db.tasks[op.chosen.value]) {
      assert !AtLimit(cfg, db.tasks, scope);
    } else {
      SubsetSize(RunningIn(Next(db, op).tasks, scope), RunningIn(db.tasks, scope));
    }
  }

  /** In every reachable state under one valid configuration the global limit, every queue limit and every
      type limit hold at once. */
  lemma {:induction false} LimitsHold(cfg: Config, tr: Trace, scope: Scope)
    requires cfg.Valid() && Legal(cfg, tr)
    ensures WithinLimit(cfg, Exec(tr).tasks, scope)
  {
    hide Next, Enabled;
    match tr
    case Init =>
      assert RunningIn(map[], scope) == {};
    case Step(p, op) =>
      LimitsHold(cfg, p, scope);
      SoundRun(cfg, p);
      WithinLimitStep(cfg, Exec(p), op, scope);
  }

  // ----- Worker load -----

  ghost predicate LoadMatches(db: Db, w: Id) {
    w in db.workers ==>
      && db.workers[w].count == |LiveOn(db.attempts, w)|
      && (db.workers[w].status == Busy <==> db.workers[w].count >= db.workers[w].concurrency)
      && db.workers[w].concurrency >= 1
  }

  lemma LoadClaim(cfg: Config, db: Db, op: Op, w: Id)
    requires Enabled(cfg, db, op) && op.Claim? && LoadMatches(db, w)
    ensures LoadMatches(Next(db, op), w)
  {
    if op.chosen.Some? {
      InsertLiveOn(db.attempts, op.attemptId, Next(db, op).attempts[op.attemptId], w);
    }
    hide LiveOn, AtLimit, MaxNum, Fresh;
  }

  lemma LoadResolve(db: Db, a: Id, v: Verdict, now: int, w: Id)
    requires AttemptsRefer(db) && "" !in db.workers && LoadMatches(db, w)
    ensures LoadMatches(Next(db, Resolve(a, v, now)), w)
  {
    if a in db.attempts && db.attempts[a].status == AttemptRunning {
      FinishLiveOn(db.attempts, a, FinishedAttempt(db.attempts[a], v, now), w);
      ResolveTables(db, a, v, now);
      hide LiveOn, Next, FinishedAttempt, AttemptsRefer;
    }
  }

  lemma ResolveTables(db: Db, a: Id, v: Verdict, now: int)
    requires AttemptsRefer(db) && a in db.attempts && db.attempts[a].status == AttemptRunning
    ensures var next := Next(db, Resolve(a, v, now));
            && next.attempts == db.attempts[a := FinishedAttempt(db.attempts[a], v, now)]
            && next.workers == Release(db.workers, db.attempts[a].workerId)
  {
  }

  lemma LoadHeartbeat(db: Db, a: Id, now: int, w: Id)
    requires LoadMatches(db, w)
    ensures LoadMatches(Next(db, Heartbeat(a, now)), w)
  {
    if a in db.attempts {
      UpdateAttempt(db.attempts, a, db.attempts[a].(heartbeatAt := Some(now)), w);
    }
    hide LiveOn, LiveOf, AttemptsOf, NumsOf;
  }

  lemma LoadEnroll(db: Db, id: Id, input: WorkerInput, now: int, w: Id)
    requires Fresh(db, id) && LoadMatches(db, w)
    ensures LoadMatches(Next(db, Enroll(id, input, now)), w)
  {
    NoLoadBeforeBirth(db, id);
    hide LiveOn;
  }

  lemma LoadStep(cfg: Config, db: Db, op: Op, w: Id)
    requires Sound(db) && Enabled(cfg, db, op) && LoadMatches(db, w)
    ensures LoadMatches(Next(db, op), w)
  {
    match op
    case Enroll(id, input, now) => LoadEnroll(db, id, input, now, w);
    case Claim(_, _, _, _, _, _) => LoadClaim(cfg, db, op, w);
    case Resolve(a, v, now) =>
      assert AttemptsRefer(db) && "" !in db.workers;
      hide Sound, LoadMatches, Next;
      LoadResolve(db, a, v, now, w);
    case Heartbeat(a, now) => LoadHeartbeat(db, a, now, w);
    case _ =>
  }

  lemma NoLoadBeforeBirth(db: Db, w: Id)
    requires Fresh(db, w)
    ensures |LiveOn(db.attempts, w)| == 0
  {
    assert LiveOn(db.attempts, w) == {};
  }

  /** For every registered worker in every run, its task count is the number of running attempts that carry
      its id, and it is busy exactly when that count has reached its concurrency. */
  lemma {:induction false} WorkerLoad(cfg: Config, tr: Trace, w: Id)
    requires Legal(cfg, tr)
    ensures LoadMatches(Exec(tr), w)
  {
    hide Next, Enabled, LiveOn;
    match tr
    case Init =>
    case Step(p, op) =>
      WorkerLoad(cfg, p, w);
      SoundRun(cfg, p);
      LoadStep(cfg, Exec(p), op, w);
  }
}
