/** What the columns of the tables say about the run that wrote them. Everything here is stated over column values
    and over the transactions of the run, without the functions that define the transactions. */
module Ledger {
  import opened Options
  import opened Rows
  import opened Config
  import opened Transitions
  import opened Soundness
  import Limits

  // ----- The execution limits -----

  ghost function RunningTasks(tasks: map<Id, Task>): set<Id> {
    set t | t in tasks && tasks[t].status == Running
  }

  ghost function RunningOfQueue(tasks: map<Id, Task>, queue: string): set<Id> {
    set t | t in tasks && tasks[t].status == Running && tasks[t].queue == queue
  }

  ghost function RunningOfType(tasks: map<Id, Task>, typ: string): set<Id> {
    set t | t in tasks && tasks[t].status == Running && tasks[t].typ == typ
  }

  lemma ScopesAreColumns(tasks: map<Id, Task>, queue: string, typ: string)
    ensures RunningIn(tasks, Everywhere) == RunningTasks(tasks)
    ensures RunningIn(tasks, InQueue(queue)) == RunningOfQueue(tasks, queue)
    ensures RunningIn(tasks, OfType(typ)) == RunningOfType(tasks, typ)
  {
  }

  /** In every run under one valid configuration, at once: running tasks never exceed the global limit, those of a
      queue that is listed with a positive limit never exceed it, and neither do those of a listed type. */
  lemma RunningWithinLimits(cfg: Config, tr: Trace)
    requires cfg.Valid() && Legal(cfg, tr)
    ensures |RunningTasks(Exec(tr).tasks)| <= cfg.global
    ensures forall q :: q in cfg.queues && cfg.queues[q] > 0 ==> |RunningOfQueue(Exec(tr).tasks, q)| <= cfg.queues[q]
    ensures forall y :: y in cfg.taskTypes && cfg.taskTypes[y] > 0 ==>
      |RunningOfType(Exec(tr).tasks, y)| <= cfg.taskTypes[y]
  {
    var tasks := Exec(tr).tasks;
    hide Exec, Legal, RunningIn, RunningTasks, RunningOfQueue, RunningOfType;
    ScopesAreColumns(tasks, "", "");
    Limits.LimitsHold(cfg, tr, Everywhere);
    forall q | q in cfg.queues && cfg.queues[q] > 0 ensures |RunningOfQueue(tasks, q)| <= cfg.queues[q] {
      ScopesAreColumns(tasks, q, "");
      Limits.LimitsHold(cfg, tr, InQueue(q));
    }
    forall y | y in cfg.taskTypes && cfg.taskTypes[y] > 0 ensures |RunningOfType(tasks, y)| <= cfg.taskTypes[y] {
      ScopesAreColumns(tasks, "", y);
      Limits.LimitsHold(cfg, tr, OfType(y));
    }
  }

  ghost predicate QueueIsFull(cfg: Config, tasks: map<Id, Task>, queue: string) {
    queue in cfg.queues && cfg.queues[queue] > 0 && |RunningOfQueue(tasks, queue)| >= cfg.queues[queue]
  }

  ghost predicate TypeIsFull(cfg: Config, tasks: map<Id, Task>, typ: string) {
    typ in cfg.taskTypes && cfg.taskTypes[typ] > 0 && |RunningOfType(tasks, typ)| >= cfg.taskTypes[typ]
  }

  /** A queue or type is at its limit exactly if it is listed with a positive limit that its running tasks have
      reached; one that is unlisted, or listed with 0, never is. */
  lemma FullExactly(cfg: Config, tasks: map<Id, Task>, queue: string, typ: string)
    ensures AtLimit(cfg, tasks, Everywhere) <==> |RunningTasks(tasks)| >= cfg.global
    ensures AtLimit(cfg, tasks, InQueue(queue)) <==> QueueIsFull(cfg, tasks, queue)
    ensures AtLimit(cfg, tasks, OfType(typ)) <==> TypeIsFull(cfg, tasks, typ)
  {
    ScopesAreColumns(tasks, queue, typ);
    hide RunningIn, RunningTasks, RunningOfQueue, RunningOfType;
  }

  /** The tasks of the queue that are queued, due and of a requested type that is not full. */
  ghost function Claimable(cfg: Config, tasks: map<Id, Task>, queue: string, types: seq<string>, now: int): set<Id> {
    set t | t in tasks && tasks[t].status == Queued && tasks[t].queue == queue && tasks[t].runAt <= now
      && tasks[t].typ in types && !TypeIsFull(cfg, tasks, tasks[t].typ)
  }

  /** What a claim answers: nothing exactly if the global limit is reached, the queue is full or no task is
      claimable; and otherwise a claimable task such that no other has a higher priority, or the same and an
      earlier created_at. */
  ghost predicate ClaimAnswer(cfg: Config, tasks: map<Id, Task>, queue: string, types: seq<string>, now: int,
                              chosen: Option<Id>)
  {
    var open := Claimable(cfg, tasks, queue, types, now);
    var closed := |RunningTasks(tasks)| >= cfg.global || QueueIsFull(cfg, tasks, queue);
    match chosen
    case None => closed || open == {}
    case Some(t) =>
      && !closed && t in open
      && forall u :: u in open ==>
           || tasks[t].priority > tasks[u].priority
           || (tasks[t].priority == tasks[u].priority && tasks[t].createdAt <= tasks[u].createdAt)
  }

  lemma ClaimExactly(cfg: Config, db: Db, queue: string, types: seq<string>, now: int, chosen: Option<Id>)
    ensures ClaimChoice(cfg, db, queue, types, now, chosen) <==> ClaimAnswer(cfg, db.tasks, queue, types, now, chosen)
  {
    var open := Claimable(cfg, db.tasks, queue, types, now);
    forall t ensures t in open <==> Candidate(cfg, db, queue, types, now, t) {
      if t in db.tasks {
        FullExactly(cfg, db.tasks, queue, db.tasks[t].typ);
      }
    }
    FullExactly(cfg, db.tasks, queue, "");
    hide AtLimit, Claimable, Candidate, QueueIsFull, RunningTasks;
    assert (forall t :: t in db.tasks ==> !Candidate(cfg, db, queue, types, now, t)) <==> open == {} by {
      CandidatesExist(cfg, db, queue, types, now);
    }
  }

  lemma CandidatesExist(cfg: Config, db: Db, queue: string, types: seq<string>, now: int)
    ensures forall t :: Candidate(cfg, db, queue, types, now, t) ==> t in db.tasks
  {
  }

  // ----- The outcome of an attempt -----

  /** The outcome that was reported for an attempt while it was running, and when. */
  ghost function Reported(tr: Trace, a: Id): Option<(Verdict, int)> {
    match tr
    case Init => None
    case Step(p, op) =>
      if op.Resolve? && op.attemptId == a && a in Exec(p).attempts && Exec(p).attempts[a].status == AttemptRunning
      then Some((op.verdict, op.now))
      else Reported(p, a)
  }

  /** The attempt's columns are those of an attempt with this report. */
  predicate Records(row: Attempt, reported: Option<(Verdict, int)>) {
    match reported
    case None => row.status == AttemptRunning && row.finishedAt == None && row.result == None && row.error == None
    case Some((v, at)) =>
      && row.finishedAt == Some(at)
      && match v
         case Success(x) => row.status == AttemptSucceeded && row.result == Some(x) && row.error == None
         case Failure(e) => row.status == AttemptFailed && row.result == None && row.error == Some(e)
         case Abort => row.status == AttemptCancelled && row.result == None && row.error == None
         case Lapse => row.status == AttemptFailed && row.result == None && row.error == Some("heartbeat timeout")
  }

  lemma RecordsStep(cfg: Config, db: Db, op: Op, a: Id, before: Option<(Verdict, int)>)
    requires Sound(db) && Enabled(cfg, db, op) && a in Next(db, op).attempts
    requires if a in db.attempts then Records(db.attempts[a], before) else before == None
    ensures var running := a in db.attempts && db.attempts[a].status == AttemptRunning;
            Records(Next(db, op).attempts[a],
                    if op.Resolve? && op.attemptId == a && running then Some((op.verdict, op.now)) else before)
  {
    hide SettledTask, OutcomeEvent, Occupy, Release, MaxNum, AtLimit, EventsRefer, RetriesBounded;
  }

  lemma {:induction false} NoReportYet(cfg: Config, tr: Trace, a: Id)
    requires Legal(cfg, tr) && a !in Exec(tr).attempts
    ensures Reported(tr, a) == None && Heard(tr, a) == None
  {
    match tr
    case Init =>
    case Step(p, op) =>
      RowsStay(Exec(p), op);
      NoReportYet(cfg, p, a);
  }

  /** In every run the columns of an attempt record the outcome that took effect on it: its result is Some(x)
      exactly if that was a success with x, its error Some(e) exactly if it was a failure with e or a timeout. */
  lemma {:induction false} OutcomeRecorded(cfg: Config, tr: Trace, a: Id)
    requires Legal(cfg, tr) && a in Exec(tr).attempts
    ensures Records(Exec(tr).attempts[a], Reported(tr, a))
  {
    hide Next, Records, Enabled, Sound;
    match tr
    case Init =>
    case Step(p, op) =>
      SoundRun(cfg, p);
      if a in Exec(p).attempts {
        OutcomeRecorded(cfg, p, a);
      } else {
        NoReportYet(cfg, p, a);
      }
      RecordsStep(cfg, Exec(p), op, a, Reported(p, a));
  }

  // ----- Heartbeats -----

  /** When an attempt was last heard of: at its claim, or at a heartbeat that reached it while it was running. */
  ghost function Heard(tr: Trace, a: Id): Option<int> {
    match tr
    case Init => None
    case Step(p, op) =>
      if op.Claim? && op.chosen.Some? && op.attemptId == a then Some(op.now)
      else if op.Heartbeat? && op.attemptId == a && a in Exec(p).attempts
              && Exec(p).attempts[a].status == AttemptRunning
      then Some(op.now)
      else Heard(p, a)
  }

  predicate HeardAt(row: Attempt, heard: Option<int>) {
    heard == Some(if row.heartbeatAt.Some? then row.heartbeatAt.value else row.startedAt)
  }

  lemma HeardStep(cfg: Config, db: Db, op: Op, a: Id, before: Option<int>)
    requires Sound(db) && Enabled(cfg, db, op) && a in Next(db, op).attempts
    requires a in db.attempts ==> HeardAt(db.attempts[a], before)
    ensures var running := a in db.attempts && db.attempts[a].status == AttemptRunning;
            HeardAt(Next(db, op).attempts[a],
                    if op.Claim? && op.chosen.Some? && op.attemptId == a then Some(op.now)
                    else if op.Heartbeat? && op.attemptId == a && running then Some(op.now)
                    else before)
  {
    hide SettledTask, OutcomeEvent, Occupy, Release, MaxNum, AtLimit, EventsRefer, RetriesBounded;
  }

  /** In every run the heartbeat_at of an attempt, or its started_at while there is none, is when it was last
      heard of. */
  lemma {:induction false} LastHeard(cfg: Config, tr: Trace, a: Id)
    requires Legal(cfg, tr) && a in Exec(tr).attempts
    ensures HeardAt(Exec(tr).attempts[a], Heard(tr, a))
  {
    hide Next, HeardAt, Enabled, Sound;
    match tr
    case Init =>
    case Step(p, op) =>
      SoundRun(cfg, p);
      if a in Exec(p).attempts {
        LastHeard(cfg, p, a);
      }
      HeardStep(cfg, Exec(p), op, a, Heard(p, a));
  }
}
