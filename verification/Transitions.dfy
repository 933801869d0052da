/** What each store transaction does to the database, said once for all callers, and the runs it generates. */
module Transitions {
  import opened Options
  import opened Rows
  import opened Config
  import Backoff

  /** The four ways an attempt can end: succeeded, failed, cancelled, or timed out by the heartbeat scanner. */
  datatype Verdict = Success(result: string) | Failure(error: string) | Abort | Lapse

  datatype Action = Halt | Resume | CancelTask | Retry

  datatype TaskInput = TaskInput(
    typ: string, queue: string, payload: Option<string>, priority: int, maxRetries: int, timeoutSecs: Option<int>,
    runAt: Option<int>, parentId: Option<Id>, scheduleId: Option<Id>)

  datatype WorkerInput = WorkerInput(
    typ: string, taskTypes: seq<string>, queue: string, concurrency: int, socketPath: Option<string>)

  const HEARTBEAT_TIMEOUT := "heartbeat timeout"

  // ----- CreateTask and CreateWorker -----

  function NewTask(input: TaskInput, now: int): Task {
    Task(input.typ, if input.queue == "" then "default" else input.queue, input.payload, Queued, input.priority,
         0, if input.maxRetries == 0 then 3 else input.maxRetries, input.timeoutSecs,
         if input.runAt.Some? then input.runAt.value else now,
         input.parentId, input.scheduleId, now, now)
  }

  function Plain(t: Id, kind: EventKind, now: int): Event {
    Event(t, kind, None, None, None, now)
  }

  function CreateTx(db: Db, id: Id, input: TaskInput, now: int): Db {
    db.(tasks := db.tasks[id := NewTask(input, now)], events := db.events + [Plain(id, EventQueued, now)])
  }

  function NewWorker(input: WorkerInput, now: int): Worker {
    Worker(input.typ, input.taskTypes, if input.queue == "" then "default" else input.queue,
           if input.concurrency <= 0 then 1 else input.concurrency, 0, Idle, now, input.socketPath)
  }

  // ----- ClaimTask -----

  ghost predicate Candidate(cfg: Config, db: Db, queue: string, taskTypes: seq<string>, now: int, t: Id) {
    && t in db.tasks
    && db.tasks[t].status == Queued
    && db.tasks[t].queue == queue
    && db.tasks[t].typ in taskTypes
    && !AtLimit(cfg, db.tasks, OfType(db.tasks[t].typ))
    && db.tasks[t].runAt <= now
  }

  predicate NotAfter(best: Task, other: Task) {
    best.priority > other.priority || (best.priority == other.priority && best.createdAt <= other.createdAt)
  }

  /** Nothing is claimed exactly when a guard is closed or no candidate exists; otherwise the claimed
      task is a candidate that no other candidate precedes. */
  ghost predicate ClaimChoice(cfg: Config, db: Db, queue: string, taskTypes: seq<string>, now: int,
                              chosen: Option<Id>) {
    var closed := AtLimit(cfg, db.tasks, Everywhere) || AtLimit(cfg, db.tasks, InQueue(queue));
    match chosen
    case None => closed || forall t :: t in db.tasks ==> !Candidate(cfg, db, queue, taskTypes, now, t)
    case Some(t) =>
      && !closed
      && Candidate(cfg, db, queue, taskTypes, now, t)
      && forall u :: Candidate(cfg, db, queue, taskTypes, now, u) ==> NotAfter(db.tasks[t], db.tasks[u])
  }

  function WithCount(w: Worker, count: int): Worker {
    w.(count := count, status := if count >= w.concurrency then Busy else Idle)
  }

  function Occupy(workers: map<Id, Worker>, w: Id): map<Id, Worker> {
    if w in workers then workers[w := WithCount(workers[w], workers[w].count + 1)] else workers
  }

  function Release(workers: map<Id, Worker>, w: Id): map<Id, Worker> {
    if w != "" && w in workers then workers[w := WithCount(workers[w], workers[w].count - 1)] else workers
  }

  ghost function ClaimTx(db: Db, w: Id, t: Id, a: Id, now: int): Db
    requires t in db.tasks
  {
    Db(db.tasks[t := db.tasks[t].(status := Running, updatedAt := now)],
       db.attempts[a := Attempt(t, MaxNum(db.attempts, t) + 1, w, AttemptRunning, None, None, now, None, None)],
       Occupy(db.workers, w),
       db.events + [Event(t, EventStarted, Some(a), None, None, now)])
  }

  // ----- SucceedAttempt, FailAttempt, CancelAttempt, TimeoutAttempt -----

  predicate Retriable(row: Task) {
    row.retryCount < row.maxRetries
  }

  function FinishedAttempt(row: Attempt, v: Verdict, now: int): Attempt {
    var done := row.(finishedAt := Some(now));
    match v
    case Success(r) => done.(status := AttemptSucceeded, result := Some(r))
    case Failure(e) => done.(status := AttemptFailed, error := Some(e))
    case Abort => done.(status := AttemptCancelled)
    case Lapse => done.(status := AttemptFailed, error := Some(HEARTBEAT_TIMEOUT))
  }

  function SettledTask(row: Task, v: Verdict, now: int): Task {
    match v
    case Success(_) => row.(status := Succeeded, updatedAt := now)
    case Abort => row.(status := Cancelled, updatedAt := now)
    case _ =>
      if Retriable(row) then
        row.(status := Retrying, retryCount := row.retryCount + 1,
             runAt := now + Backoff.Delay(row.retryCount), updatedAt := now)
      else
        row.(status := Dead, updatedAt := now)
  }

  /** A failure event carries the error, and the new retry count when there is going to be a retry. */
  function OutcomeEvent(t: Id, row: Task, a: Id, v: Verdict, now: int): Event {
    var again := if Retriable(row) then Some(row.retryCount + 1) else None;
    match v
    case Success(_) => Event(t, EventSucceeded, Some(a), None, None, now)
    case Abort => Event(t, EventCancelled, Some(a), None, None, now)
    case Failure(e) => Event(t, if Retriable(row) then EventRetrying else EventDead, Some(a), Some(e), again, now)
    case Lapse => Event(t, EventHeartbeatTimeout, Some(a), Some(HEARTBEAT_TIMEOUT), again, now)
  }

  /** An attempt can be resolved once, while it is running; its task row decides about a retry. A dangling
      task id stops a failure, which reads the row, but not a success or a cancellation, which only update it. */
  function ResolveTx(db: Db, a: Id, v: Verdict, now: int): Result<Db> {
    if a !in db.attempts then Err(NotFound)
    else if db.attempts[a].status != AttemptRunning then Err(AttemptNotRunning)
    else
      var t := db.attempts[a].taskId;
      var attempts := db.attempts[a := FinishedAttempt(db.attempts[a], v, now)];
      var workers := Release(db.workers, db.attempts[a].workerId);
      if t in db.tasks then
        Ok(Db(db.tasks[t := SettledTask(db.tasks[t], v, now)], attempts, workers,
              db.events + [OutcomeEvent(t, db.tasks[t], a, v, now)]))
      else if v.Failure? || v.Lapse? then Err(ReadTaskFailed)
      else
        var kind := if v.Success? then EventSucceeded else EventCancelled;
        Ok(Db(db.tasks, attempts, workers, db.events + [Event(t, kind, Some(a), None, None, now)]))
  }

  function HeartbeatTx(db: Db, a: Id, now: int): Db {
    if a in db.attempts && db.attempts[a].status == AttemptRunning then
      db.(attempts := db.attempts[a := db.attempts[a].(heartbeatAt := Some(now))])
    else db
  }

  // ----- HaltTask, ResumeTask, CancelTask, RetryTask, RestartTask -----

  predicate Permits(action: Action, status: TaskStatus) {
    match action
    case Halt => status == Running
    case Resume => status == Halted
    case CancelTask => status == Queued || status == Halted
    case Retry => status == Dead || status == Cancelled
  }

  function Controlled(row: Task, action: Action, now: int): Task {
    match action
    case Halt => row.(status := Halted, updatedAt := now)
    case Resume => row.(status := Queued, runAt := now, updatedAt := now)
    case CancelTask => row.(status := Cancelled, updatedAt := now)
    case Retry => row.(status := Queued, retryCount := 0, runAt := now, updatedAt := now)
  }

  function ActionEvent(action: Action): EventKind {
    match action
    case Halt => EventHalted
    case CancelTask => EventCancelled
    case _ => EventQueued
  }

  function ControlTx(db: Db, t: Id, action: Action, now: int): Result<Db> {
    if t !in db.tasks then Err(NotFound)
    else if !Permits(action, db.tasks[t].status) then Err(InvalidTransition)
    else Ok(db.(tasks := db.tasks[t := Controlled(db.tasks[t], action, now)],
                events := db.events + [Plain(t, ActionEvent(action), now)]))
  }

  predicate Restartable(status: TaskStatus) {
    status in {Queued, Succeeded, Dead, Cancelled, Halted}
  }

  function Replacement(row: Task, t: Id, now: int): Task {
    Task(row.typ, row.queue, row.payload, Queued, row.priority, 0, row.maxRetries, row.timeoutSecs, now,
         Some(t), row.scheduleId, now, now)
  }

  function RestartTx(db: Db, t: Id, newId: Id, now: int): Result<Db> {
    if t !in db.tasks then Err(NotFound)
    else if !Restartable(db.tasks[t].status) then Err(InvalidTransition)
    else Ok(db.(tasks := db.tasks[t := db.tasks[t].(status := Superseded, updatedAt := now)]
                           [newId := Replacement(db.tasks[t], t, now)],
                events := db.events + [Plain(newId, EventQueued, now)]))
  }

  // ----- RequeueRetrying -----

  predicate Due(row: Task, now: int) {
    row.status == Retrying && row.runAt <= now
  }

  function Requeued(row: Task, now: int): Task {
    if Due(row, now) then row.(status := Queued, updatedAt := now) else row
  }

  function RequeueTx(db: Db, now: int): Db {
    db.(tasks := map t | t in db.tasks :: Requeued(db.tasks[t], now))
  }

  // ----- Runs -----

  datatype Op =
    | Create(id: Id, input: TaskInput, now: int)
    | Enroll(id: Id, worker: WorkerInput, now: int)
    | Claim(workerId: Id, queue: string, taskTypes: seq<string>, now: int, chosen: Option<Id>, attemptId: Id)
    | Resolve(attemptId: Id, verdict: Verdict, now: int)
    | Heartbeat(attemptId: Id, now: int)
    | Control(id: Id, action: Action, now: int)
    | Restart(id: Id, newId: Id, now: int)
    | Requeue(now: int)

  /** The time a transaction reads inside its body. CreateTask reads its time before it queues the write. */
  function Tick(op: Op): Option<int> {
    match op
    case Claim(_, _, _, now, _, _) => Some(now)
    case Resolve(_, _, now) => Some(now)
    case Heartbeat(_, now) => Some(now)
    case Control(_, _, now) => Some(now)
    case Restart(_, _, now) => Some(now)
    case Requeue(now) => Some(now)
    case _ => None
  }

  function OrElse(r: Result<Db>, db: Db): Db {
    match r
    case Ok(d) => d
    case Err(_) => db
  }

  /** One committed or refused transaction. */
  ghost function Next(db: Db, op: Op): Db {
    match op
    case Create(id, input, now) => CreateTx(db, id, input, now)
    case Enroll(id, input, now) => db.(workers := db.workers[id := NewWorker(input, now)])
    case Claim(w, _, _, now, chosen, a) =>
      if chosen.Some? && chosen.value in db.tasks then ClaimTx(db, w, chosen.value, a, now) else db
    case Resolve(a, v, now) => OrElse(ResolveTx(db, a, v, now), db)
    case Heartbeat(a, now) => HeartbeatTx(db, a, now)
    case Control(t, action, now) => OrElse(ControlTx(db, t, action, now), db)
    case Restart(t, newId, now) => OrElse(RestartTx(db, t, newId, now), db)
    case Requeue(now) => RequeueTx(db, now)
  }

  /** What NewID promises: a non-empty string that names nothing yet. */
  ghost predicate Fresh(db: Db, id: Id) {
    && id != ""
    && id !in db.tasks
    && id !in db.attempts
    && id !in db.workers
    && (forall a :: a in db.attempts ==> db.attempts[a].taskId != id && db.attempts[a].workerId != id)
  }

  ghost predicate Enabled(cfg: Config, db: Db, op: Op) {
    match op
    case Create(id, _, _) => Fresh(db, id)
    case Enroll(id, _, _) => Fresh(db, id)
    case Claim(_, queue, taskTypes, now, chosen, a) =>
      Fresh(db, a) && ClaimChoice(cfg, db, queue, taskTypes, now, chosen)
    case Restart(t, newId, _) => Fresh(db, newId)
    case _ => true
  }

  /** The transactions of one store, newest first, in the order the writer goroutine executed them. */
  datatype Trace = Init | Step(prev: Trace, op: Op)

  ghost function Exec(tr: Trace): Db {
    match tr
    case Init => EMPTY
    case Step(p, op) => Next(Exec(p), op)
  }

  ghost predicate Legal(cfg: Config, tr: Trace) {
    tr.Step? ==> Legal(cfg, tr.prev) && Enabled(cfg, Exec(tr.prev), tr.op)
  }

  /** `tr` continues `base`. */
  ghost predicate Extends(tr: Trace, base: Trace) {
    tr == base || (tr.Step? && Extends(tr.prev, base))
  }
}
