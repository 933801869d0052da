/** The rows of the four tables a store transaction touches, and the database that holds them.
    Times are whole seconds, because every DATETIME column is (see TimeText). */
module Rows {
  import opened Options

  type Id = string

  datatype Error =
    | NotFound
    | AttemptNotRunning
    | InvalidTransition
    | ReadTaskFailed

  /** What a transaction returns: the database it commits, or an error and no effect. */
  datatype Result<+T> = Ok(value: T) | Err(error: Error)

  datatype Status = Pass | Fail(error: Error)

  function StatusOf<T>(r: Result<T>): Status {
    match r
    case Ok(_) => Pass
    case Err(e) => Fail(e)
  }

  datatype TaskStatus = Queued | Running | Retrying | Succeeded | Dead | Halted | Cancelled | Superseded

  datatype Task = Task(
    typ: string, queue: string, payload: Option<string>, status: TaskStatus, priority: int,
    retryCount: int, maxRetries: int, timeoutSecs: Option<int>, runAt: int,
    parentId: Option<Id>, scheduleId: Option<Id>, createdAt: int, updatedAt: int)

  datatype AttemptStatus = AttemptRunning | AttemptSucceeded | AttemptFailed | AttemptCancelled

  datatype Attempt = Attempt(
    taskId: Id, num: int, workerId: Id, status: AttemptStatus, result: Option<string>,
    error: Option<string>, startedAt: int, finishedAt: Option<int>, heartbeatAt: Option<int>)

  datatype WorkerStatus = Idle | Busy

  datatype Worker = Worker(
    typ: string, taskTypes: seq<string>, queue: string, concurrency: int, count: int, status: WorkerStatus,
    startedAt: int, socketPath: Option<string>)

  datatype EventKind =
    | EventQueued
    | EventStarted
    | EventSucceeded
    | EventRetrying
    | EventDead
    | EventHalted
    | EventCancelled
    | EventHeartbeatTimeout

  datatype Event = Event(taskId: Id, kind: EventKind, attemptId: Option<Id>, error: Option<string>,
                         retryCount: Option<int>, createdAt: int)

  datatype Db = Db(tasks: map<Id, Task>, attempts: map<Id, Attempt>, workers: map<Id, Worker>, events: seq<Event>)

  const EMPTY := Db(map[], map[], map[], [])

  // ----- Queries -----

  ghost function AttemptsOf(attempts: map<Id, Attempt>, t: Id): set<Id> {
    set a | a in attempts && attempts[a].taskId == t
  }

  ghost function LiveOf(attempts: map<Id, Attempt>, t: Id): set<Id> {
    set a | a in attempts && attempts[a].taskId == t && attempts[a].status == AttemptRunning
  }

  ghost function LiveOn(attempts: map<Id, Attempt>, w: Id): set<Id> {
    set a | a in attempts && attempts[a].workerId == w && attempts[a].status == AttemptRunning
  }

  ghost function NumsOf(attempts: map<Id, Attempt>, t: Id): set<int> {
    set a | a in attempts && attempts[a].taskId == t :: attempts[a].num
  }

  /** COALESCE(MAX(attempt_num), 0) over the attempts of one task. */
  ghost predicate IsMaxNum(attempts: map<Id, Attempt>, t: Id, m: int) {
    && (forall n :: n in NumsOf(attempts, t) ==> n <= m)
    && (if NumsOf(attempts, t) == {} then m == 0 else m in NumsOf(attempts, t))
  }

  lemma Inhabited(s: set<int>)
    ensures s == {} || exists m :: m in s
  {
    if forall m :: m !in s {
      assert s == {};
    }
  }

  lemma {:induction false} MaxExists(s: set<int>)
    requires s != {}
    ensures exists m :: m in s && forall n :: n in s ==> n <= m
  {
    Inhabited(s);
    var m :| m in s;
    if s == {m} {
    } else {
      MaxExists(s - {m});
      var k :| k in s - {m} && forall n :: n in s - {m} ==> n <= k;
      var top := if m < k then k else m;
      assert forall n :: n in s ==> n == m || n in s - {m};
      assert top in s && forall n :: n in s ==> n <= top;
    }
  }

  ghost function MaxNum(attempts: map<Id, Attempt>, t: Id): (m: int)
    ensures IsMaxNum(attempts, t, m)
  {
    if NumsOf(attempts, t) == {} then 0
    else
      MaxExists(NumsOf(attempts, t));
      var m :| m in NumsOf(attempts, t) && forall n :: n in NumsOf(attempts, t) ==> n <= m;
      m
  }
}
