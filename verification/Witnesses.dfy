/** Runs that show that the bounds proved about all runs are met: every status and every edge between statuses
    occurs, and orphaning really makes a second attempt run. */
module Witnesses {
  import opened Options
  import opened Rows
  import opened Config
  import opened Transitions
  import Backoff
  import Lineage
  import opened Lanes

  const T := "t"

  /** A task that is claimed by nobody yet; with `budget` below zero its first failure is its last. */
  function Job(budget: int): TaskInput {
    TaskInput("job", "default", None, 0, budget, None, None, None, None)
  }

  ghost function Submitted(budget: int): Trace {
    Step(Init, Create(T, Job(budget), 0))
  }

  function Claiming(a: Id, now: int := 0): Op {
    Claim("", "default", ["job"], now, Some(T), a)
  }

  /** The task is the only one, waits, is due, and has the type and queue that Claiming asks for. */
  ghost predicate Waiting(db: Db, now: int := 0) {
    && db.tasks.Keys == {T}
    && db.tasks[T].status == Queued && db.tasks[T].runAt <= now
    && db.tasks[T].typ == "job" && db.tasks[T].queue == "default"
  }

  lemma CanClaim(cfg: Config, db: Db, a: Id, now: int := 0)
    requires cfg.Valid() && Waiting(db, now) && Fresh(db, a)
    ensures Enabled(cfg, db, Claiming(a, now))
    ensures var next := Next(db, Claiming(a, now));
            && next.tasks == db.tasks[T := db.tasks[T].(status := Running, updatedAt := now)]
            && next.attempts.Keys == db.attempts.Keys + {a}
            && (forall b :: b in db.attempts ==> next.attempts[b] == db.attempts[b])
            && Resolves(next, a, T) && next.attempts[a].workerId == ""
            && (db.workers == map[] ==> next.workers == map[])
  {
    forall scope: Scope ensures !AtLimit(cfg, db.tasks, scope) {
      assert RunningIn(db.tasks, scope) == {};
    }
  }

  // ----- Every edge is taken -----

  /** A run of one task, without orphanings, that has come to this status. While the task is running or
      halted its attempt is the running one, and before that it has none. */
  ghost predicate CameTo(cfg: Config, tr: Trace, s: TaskStatus, budget: int) {
    var db := Exec(tr);
    && Legal(cfg, tr) && Orphanings(tr, T) == 0 && (s in {Queued, Running, Halted} ==> Retries(tr, T) == 0)
    && db.tasks.Keys == {T} && db.workers == map[] && db.attempts.Keys <= {"a"}
    && (forall a :: a in db.attempts ==> db.attempts[a].taskId == T && db.attempts[a].workerId == "")
    && db.tasks[T].status == s && db.tasks[T].typ == "job" && db.tasks[T].queue == "default"
    && (s == Queued ==> db.tasks[T].runAt <= 0 && db.attempts == map[])
    && (s in {Queued, Running, Halted} ==> db.tasks[T].retryCount == 0 && db.tasks[T].maxRetries == budget)
    && (s in {Running, Halted} ==> Resolves(db, "a", T))
    && (s == Retrying ==> db.tasks[T].runAt == Backoff.Delay(0))
  }

  /** A transaction that takes the edge. */
  function Taking(s: TaskStatus, r: TaskStatus): Op {
    match r
    case Running => Claiming("a")
    case Succeeded => Resolve("a", Success(""), 0)
    case Retrying => Resolve("a", Failure(""), 0)
    case Dead => Resolve("a", Failure(""), 0)
    case Halted => Control(T, Halt, 0)
    case Cancelled => if s == Running then Resolve("a", Abort, 0) else Control(T, CancelTask, 0)
    case Queued =>
      if s == Retrying then Requeue(Backoff.Delay(0))
      else Control(T, if s == Halted then Resume else Retry, 0)
    case Superseded => Restart(T, "u", 0)
  }

  lemma SubmittedRun(cfg: Config, budget: int)
    requires budget != 0
    ensures CameTo(cfg, Submitted(budget), Queued, budget)
  {
    assert Legal(cfg, Init);
    assert Exec(Init) == EMPTY;
  }

  /** The transaction takes the edge; from queued or running it orphans nothing. */
  ghost predicate Takes(cfg: Config, tr: Trace, s: TaskStatus, r: TaskStatus, budget: int) {
    var after := Step(tr, Taking(s, r));
    && Legal(cfg, after) && T in Exec(after).tasks && Exec(after).tasks[T].status == r
    && (s in {Queued, Running} && r != Superseded ==> CameTo(cfg, after, r, budget))
  }

  lemma TakesClaim(cfg: Config, tr: Trace, budget: int)
    requires cfg.Valid() && CameTo(cfg, tr, Queued, budget)
    ensures Takes(cfg, tr, Queued, Running, budget)
  {
    assert Exec(Step(tr, Claiming("a"))) == Next(Exec(tr), Claiming("a"));
    CanClaim(cfg, Exec(tr), "a");
    hide Next;
  }

  lemma TakesOutcome(cfg: Config, tr: Trace, s: TaskStatus, r: TaskStatus, budget: int)
    requires CameTo(cfg, tr, s, budget) && s in {Running, Halted} && Taking(s, r).Resolve?
    requires r == Retrying ==> budget > 0
    requires r == Dead ==> budget < 0
    ensures Takes(cfg, tr, s, r, budget)
  {
    hide Backoff.Delay;
    assert Exec(Step(tr, Taking(s, r))) == Next(Exec(tr), Taking(s, r));
  }

  lemma TakesControl(cfg: Config, tr: Trace, s: TaskStatus, r: TaskStatus, budget: int)
    requires CameTo(cfg, tr, s, budget) && Edge(s, r) && Taking(s, r).Control?
    ensures Takes(cfg, tr, s, r, budget)
  {
    hide Backoff.Delay;
    assert Exec(Step(tr, Taking(s, r))) == Next(Exec(tr), Taking(s, r));
  }

  lemma TakesOther(cfg: Config, tr: Trace, s: TaskStatus, r: TaskStatus, budget: int)
    requires CameTo(cfg, tr, s, budget) && Edge(s, r) && (Taking(s, r).Restart? || Taking(s, r).Requeue?)
    ensures Takes(cfg, tr, s, r, budget)
  {
    hide Backoff.Delay;
    assert Exec(Step(tr, Taking(s, r))) == Next(Exec(tr), Taking(s, r));
  }

  lemma TakesEdge(cfg: Config, tr: Trace, s: TaskStatus, r: TaskStatus, budget: int)
    requires cfg.Valid() && CameTo(cfg, tr, s, budget) && Edge(s, r)
    requires r == Retrying ==> budget > 0
    requires r == Dead ==> budget < 0
    ensures Takes(cfg, tr, s, r, budget)
  {
    hide CameTo, Takes;
    var op := Taking(s, r);
    if op.Claim? {
      TakesClaim(cfg, tr, budget);
    } else if op.Resolve? {
      TakesOutcome(cfg, tr, s, r, budget);
    } else if op.Control? {
      TakesControl(cfg, tr, s, r, budget);
    } else {
      TakesOther(cfg, tr, s, r, budget);
    }
  }

  /** A run that comes to a status, if it is not superseded. */
  lemma Reach(cfg: Config, s: TaskStatus, budget: int) returns (tr: Trace)
    requires cfg.Valid() && budget != 0 && s != Superseded
    requires s == Retrying ==> budget > 0
    requires s == Dead ==> budget < 0
    ensures CameTo(cfg, tr, s, budget)
  {
    hide CameTo, Taking, Legal, Exec;
    tr := Submitted(budget);
    SubmittedRun(cfg, budget);
    if s == Cancelled {
      TakesEdge(cfg, tr, Queued, Cancelled, budget);
      tr := Step(tr, Taking(Queued, Cancelled));
    } else if s != Queued {
      TakesEdge(cfg, tr, Queued, Running, budget);
      tr := Step(tr, Taking(Queued, Running));
      if s != Running {
        TakesEdge(cfg, tr, Running, s, budget);
        tr := Step(tr, Taking(Running, s));
      }
    }
  }

  /** The converse of StatusFollowsEdges: every edge is taken, in some run without orphanings, by the next
      transaction. In particular the six edges among them that the documented diagram does not have. */
  lemma EveryEdgeOccurs(cfg: Config, s: TaskStatus, r: TaskStatus) returns (tr: Trace, op: Op)
    requires cfg.Valid() && Edge(s, r)
    ensures Legal(cfg, Step(tr, op)) && Orphanings(tr, T) == 0
    ensures T in Exec(tr).tasks && Exec(tr).tasks[T].status == s
    ensures T in Exec(Step(tr, op)).tasks && Exec(Step(tr, op)).tasks[T].status == r
  {
    var budget := if s == Dead || r == Dead then -1 else 3;
    tr := Reach(cfg, s, budget);
    op := Taking(s, r);
    TakesEdge(cfg, tr, s, r, budget);
  }

  // ----- A second running attempt -----

  /** One live attempt while running or halted, and none otherwise, fails in real runs: submit, claim, halt,
      resume and claim again, and one task has two running attempts. */
  lemma TwoLiveAttempts(cfg: Config) returns (tr: Trace)
    requires cfg.Valid()
    ensures Legal(cfg, tr) && T in Exec(tr).tasks
    ensures Orphanings(tr, T) == 1 && |LiveOf(Exec(tr).attempts, T)| == 2 && Exec(tr).tasks[T].status == Running
  {
    var resumed := Resumed(cfg);
    hide Next;
    CanClaim(cfg, Exec(resumed), "b");
    tr := Step(resumed, Claiming("b"));
    assert Exec(tr) == Next(Exec(resumed), Claiming("b"));
    assert LiveOf(Exec(tr).attempts, T) == {"a", "b"};
  }

  /** Submit, claim, halt, resume: the attempt still runs. */
  lemma Resumed(cfg: Config) returns (tr: Trace)
    requires cfg.Valid()
    ensures Legal(cfg, tr) && Orphanings(tr, T) == 1
    ensures Waiting(Exec(tr)) && Fresh(Exec(tr), "b")
    ensures Exec(tr).attempts.Keys == {"a"} && Resolves(Exec(tr), "a", T)
  {
    var halted := Reach(cfg, Halted, 3);
    tr := Step(halted, Control(T, Resume, 0));
    assert Exec(tr) == Next(Exec(halted), Control(T, Resume, 0));
  }

  /** Superseded is not always for good: restarting a halted task leaves its attempt running, and its report
      revives the superseded task. */
  lemma SupersededRevived(cfg: Config) returns (base: Trace, tr: Trace)
    requires cfg.Valid()
    ensures Legal(cfg, tr) && Extends(tr, base)
    ensures Lineage.IsSuperseded(base, T) && T in Exec(tr).tasks && Exec(tr).tasks[T].status == Succeeded
  {
    var halted := Reach(cfg, Halted, 3);
    base := Step(halted, Restart(T, "u", 0));
    assert Exec(base) == Next(Exec(halted), Restart(T, "u", 0));
    tr := Step(base, Resolve("a", Success(""), 0));
    assert Exec(tr) == Next(Exec(base), Resolve("a", Success(""), 0));
    assert Extends(tr.prev, base);
  }

  // ----- A cancelled task that runs again -----

  /** The only task is cancelled while its only attempt, the first, still runs. */
  ghost predicate Abandoned(db: Db) {
    && db.tasks.Keys == {T} && db.tasks[T].status == Cancelled
    && db.tasks[T].retryCount == 0 && db.tasks[T].maxRetries == 3
    && db.tasks[T].typ == "job" && db.tasks[T].queue == "default"
    && Resolves(db, "a", T) && Fresh(db, "b")
  }

  /** Submit, claim, halt, cancel. */
  lemma CancelledWhileRunning(cfg: Config) returns (tr: Trace)
    requires cfg.Valid()
    ensures Legal(cfg, tr) && Retries(tr, T) == 0 && Abandoned(Exec(tr))
  {
    var halted := Reach(cfg, Halted, 3);
    tr := Step(halted, Control(T, CancelTask, 0));
    assert Exec(tr) == Next(Exec(halted), Control(T, CancelTask, 0));
  }

  lemma QueuedAgain(base: Trace, later: int)
    requires Abandoned(Exec(base)) && later == Backoff.Delay(0)
    ensures var tr := Step(Step(base, Resolve("a", Failure(""), 0)), Requeue(later));
            Waiting(Exec(tr), later) && Fresh(Exec(tr), "b")
  {
    hide Backoff.Delay;
    var failed := Step(base, Resolve("a", Failure(""), 0));
    assert Exec(failed) == Next(Exec(base), failed.op);
    assert Exec(Step(failed, Requeue(later))) == Next(Exec(failed), Requeue(later));
  }

  /** The attempt of the cancelled task fails late, and the scheduler promotes the task after the backoff. */
  lemma QueuedByLateFailure(cfg: Config) returns (base: Trace, tr: Trace, later: int)
    requires cfg.Valid()
    ensures Legal(cfg, tr) && Extends(tr, base) && Retries(tr, T) == 0 && Abandoned(Exec(base))
    ensures Waiting(Exec(tr), later) && Fresh(Exec(tr), "b")
  {
    base := CancelledWhileRunning(cfg);
    later := Backoff.Delay(0);
    QueuedAgain(base, later);
    hide Next, Exec, Legal, Fresh, Waiting, Resolves, Backoff.Delay, Retries;
    tr := LateFailureQueues(cfg, base, "a", T, 0);
  }

  lemma Claimed(cfg: Config, p: Trace, a: Id, now: int)
    requires cfg.Valid() && Legal(cfg, p) && Waiting(Exec(p), now) && Fresh(Exec(p), a)
    ensures var tr := Step(p, Claiming(a, now));
            && Legal(cfg, tr) && T in Exec(tr).tasks && Exec(tr).tasks[T].status == Running
            && Retries(tr, T) == Retries(p, T)
  {
    CanClaim(cfg, Exec(p), a, now);
    assert Exec(Step(p, Claiming(a, now))) == Next(Exec(p), Claiming(a, now));
    hide Next, Fresh, AtLimit, ClaimChoice;
  }

  /** A cancelled task can run again without RetryTask: once it is queued by a late failure, a worker claims it. */
  lemma CancelledRunsAgain(cfg: Config) returns (base: Trace, tr: Trace)
    requires cfg.Valid()
    ensures Legal(cfg, tr) && Extends(tr, base) && Retries(tr, T) == 0
    ensures T in Exec(base).tasks && Exec(base).tasks[T].status == Cancelled
    ensures T in Exec(tr).tasks && Exec(tr).tasks[T].status == Running
  {
    var queued, later;
    base, queued, later := QueuedByLateFailure(cfg);
    tr := Step(queued, Claiming("b", later));
    Claimed(cfg, queued, "b", later);
    hide Exec, Legal, Waiting, Fresh, Retries;
    assert Extends(tr.prev, base);
  }
}
