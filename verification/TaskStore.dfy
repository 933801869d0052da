/** The store, with its tables as fields and one method for each transaction. Every method leaves the store
    in the state that its run of committed transactions describes, so what Lanes, Replay, Limits, Drain,
    Spacing and Lineage prove about runs holds of every store object. */
module TaskStore {
  import opened Loops
  import opened Options
  import opened Rows
  import opened Config
  import opened Transitions
  import Backoff
  import Ledger
  import Soundness

  predicate IsStale(row: Attempt, cutoff: int) {
    row.status == AttemptRunning && (if row.heartbeatAt.Some? then row.heartbeatAt.value else row.startedAt) <= cutoff
  }

  /** A running attempt that was last heard of at or before the cutoff. */
  predicate Silent(row: Attempt, heard: Option<int>, cutoff: int) {
    row.status == AttemptRunning && heard.Some? && heard.value <= cutoff
  }

  /** The list holds exactly the running attempts that were last heard of at or before the cutoff. */
  ghost predicate Lists(stale: seq<Id>, attempts: map<Id, Attempt>, tr: Trace, cutoff: int) {
    forall a :: a in stale <==> a in attempts && Silent(attempts[a], Ledger.Heard(tr, a), cutoff)
  }

  class Store {
    const cfg: Config
    var tasks: map<Id, Task>
    var attempts: map<Id, Attempt>
    var workers: map<Id, Worker>
    var events: seq<Event>
    ghost var history: Trace

    ghost function Tables(): Db
      reads this
    {
      Db(tasks, attempts, workers, events)
    }

    ghost predicate Valid()
      reads this
    {
      Legal(cfg, history) && Exec(history) == Tables()
    }

    constructor (cfg: Config)
      ensures Valid() && this.cfg == cfg && history == Init
    {
      this.cfg := cfg;
      tasks, attempts, workers, events := map[], map[], map[], [];
      history := Init;
    }

    /** `op` was committed, or refused with no effect, as the next transaction of the run. */
    twostate predicate Ran(op: Op)
      reads this
    {
      Valid() && history == Step(old(history), op)
    }

    // ----- Creating rows -----

    method CreateTask(input: TaskInput, now: int, id: Id) returns (row: Task)
      requires Valid() && Fresh(Tables(), id)
      modifies this
      ensures Ran(Create(id, input, now))
      ensures tasks == old(tasks)[id := row]
      ensures events == old(events) + [Event(id, EventQueued, None, None, None, now)]
      ensures row.typ == input.typ && row.queue == (if input.queue == "" then "default" else input.queue)
      ensures row.payload == input.payload && row.priority == input.priority && row.timeoutSecs == input.timeoutSecs
      ensures row.status == Queued && row.retryCount == 0
      ensures row.maxRetries == if input.maxRetries == 0 then 3 else input.maxRetries
      ensures row.runAt == match input.runAt case None => now case Some(at) => at
      ensures row.parentId == input.parentId && row.scheduleId == input.scheduleId
      ensures row.createdAt == now && row.updatedAt == now
    {
      row := Task(input.typ, input.queue, input.payload, Queued, input.priority, 0, input.maxRetries,
                  input.timeoutSecs, 0, input.parentId, input.scheduleId, now, now);
      if row.queue == "" {
        row := row.(queue := "default");
      }
      if row.maxRetries == 0 {
        row := row.(maxRetries := 3);
      }
      match input.runAt {
        case None => row := row.(runAt := now);
        case Some(at) => row := row.(runAt := at);
      }
      tasks := tasks[id := row];
      events := events + [Plain(id, EventQueued, now)];
      history := Step(history, Create(id, input, now));
    }

    method CreateWorker(input: WorkerInput, now: int, id: Id) returns (row: Worker)
      requires Valid() && Fresh(Tables(), id)
      modifies this
      ensures Ran(Enroll(id, input, now))
      ensures workers == old(workers)[id := row] && events == old(events)
      ensures row.typ == input.typ && row.taskTypes == input.taskTypes && row.socketPath == input.socketPath
      ensures row.queue == if input.queue == "" then "default" else input.queue
      ensures row.concurrency == if input.concurrency <= 0 then 1 else input.concurrency
      ensures row.count == 0 && row.status == Idle && row.startedAt == now
    {
      row := Worker(input.typ, input.taskTypes, input.queue, input.concurrency, 0, Idle, now, input.socketPath);
      if row.queue == "" {
        row := row.(queue := "default");
      }
      if row.concurrency <= 0 {
        row := row.(concurrency := 1);
      }
      workers := workers[id := row];
      history := Step(history, Enroll(id, input, now));
    }

    // ----- ClaimTask -----

    /** How many running tasks the scope covers. */
    method CountRunning(scope: Scope) returns (n: nat)
      ensures n == |RunningIn(tasks, scope)|
    {
      n := 0;
      var rest := tasks.Keys;
      ghost var all := RunningIn(tasks, scope);
      assert all * rest == all;
      while rest != {}
        invariant rest <= tasks.Keys
        invariant n + |all * rest| == |all|
      {
        var t :| t in rest;
        CountOut(all, rest, t);
        rest := rest - {t};
        if tasks[t].status == Running && scope.Covers(tasks[t]) {
          n := n + 1;
        }
      }
      assert all * rest == {};
    }

    /** The requested types that still have capacity, in the order they were asked for. */
    method EligibleTypes(taskTypes: seq<string>) returns (eligible: seq<string>)
      ensures forall tt :: tt in eligible <==> tt in taskTypes && !AtLimit(cfg, tasks, OfType(tt))
    {
      eligible := [];
      for i := 0 to |taskTypes|
        invariant forall tt :: tt in eligible <==> tt in taskTypes[..i] && !AtLimit(cfg, tasks, OfType(tt))
      {
        var tt := taskTypes[i];
        assert taskTypes[..i + 1] == taskTypes[..i] + [tt];
        var limit := cfg.TaskTypeLimit(tt);
        if limit > 0 {
          var running := CountRunning(OfType(tt));
          if running >= limit {
            continue;
          }
        }
        eligible := eligible + [tt];
      }
      assert taskTypes[..|taskTypes|] == taskTypes;
    }

    predicate Matches(t: Id, queue: string, eligible: seq<string>, now: int)
      requires t in tasks
      reads this
    {
      tasks[t].status == Queued && tasks[t].queue == queue && tasks[t].typ in eligible && tasks[t].runAt <= now
    }

    /** The matching task of the highest priority that was created first. */
    method SelectBest(queue: string, eligible: seq<string>, now: int) returns (best: Option<Id>)
      ensures best.None? ==> forall t :: t in tasks ==> !Matches(t, queue, eligible, now)
      ensures best.Some? ==>
        && best.value in tasks && Matches(best.value, queue, eligible, now)
        && forall t :: t in tasks && Matches(t, queue, eligible, now) ==> NotAfter(tasks[best.value], tasks[t])
    {
      best := None;
      var rest := tasks.Keys;
      while rest != {}
        invariant rest <= tasks.Keys
        invariant best.None? ==> forall t :: t in tasks && t !in rest ==> !Matches(t, queue, eligible, now)
        invariant best.Some? ==>
          && best.value in tasks && Matches(best.value, queue, eligible, now)
          && forall t :: t in tasks && t !in rest && Matches(t, queue, eligible, now) ==>
               NotAfter(tasks[best.value], tasks[t])
      {
        var t :| t in rest;
        rest := rest - {t};
        if Matches(t, queue, eligible, now) {
          if best.None? || !NotAfter(tasks[best.value], tasks[t]) {
            best := Some(t);
          }
        }
      }
    }

    /** The highest attempt number of a task, and 0 when it has no attempts. */
    method PreviousMax(t: Id) returns (max: int)
      ensures max == MaxNum(attempts, t)
    {
      var highest: Option<int> := None;
      var rest := attempts.Keys;
      while rest != {}
        invariant rest <= attempts.Keys
        invariant forall a :: a in attempts && a !in rest && attempts[a].taskId == t ==>
          highest.Some? && attempts[a].num <= highest.value
        invariant highest.Some? ==> highest.value in NumsOf(attempts, t)
      {
        var a :| a in rest;
        rest := rest - {a};
        if attempts[a].taskId == t && (highest.None? || attempts[a].num > highest.value) {
          highest := Some(attempts[a].num);
        }
      }
      HighestIsMax(attempts, t, highest);
      max := if highest.Some? then highest.value else 0;
    }

    method IncrementWorker(w: Id)
      modifies this`workers
      ensures workers == Occupy(old(workers), w)
      ensures workers.Keys == old(workers).Keys
      ensures forall d :: d in workers && d != w ==> workers[d] == old(workers)[d]
      ensures w in workers ==> var row := old(workers)[w];
        workers[w] == row.(count := row.count + 1, status := if row.count + 1 >= row.concurrency then Busy else Idle)
    {
      if w in workers {
        var row := workers[w];
        workers := workers[w := row.(count := row.count + 1,
                                     status := if row.count + 1 >= row.concurrency then Busy else Idle)];
      }
    }

    /** The three guards and the selection: the claimed task, or nothing when a guard is closed or no
        due queued task of the queue has a requested type with spare capacity. */
    method ChooseTask(queue: string, taskTypes: seq<string>, now: int) returns (chosen: Option<Id>)
      ensures ClaimChoice(cfg, Tables(), queue, taskTypes, now, chosen)
    {
      var globalRunning := CountRunning(Everywhere);
      if globalRunning >= cfg.global {
        return None;
      }
      var qLimit := cfg.QueueLimit(queue);
      if qLimit > 0 {
        var qRunning := CountRunning(InQueue(queue));
        if qRunning >= qLimit {
          return None;
        }
      }
      var eligible := EligibleTypes(taskTypes);
      if |eligible| == 0 {
        return None;
      }
      chosen := SelectBest(queue, eligible, now);
      hide RunningIn;
      assert forall t :: t in tasks ==>
        (Matches(t, queue, eligible, now) <==> Candidate(cfg, Tables(), queue, taskTypes, now, t));
    }

    /** Claims what ChooseTask chooses; in particular it never looks at the worker's own capacity. */
    method ClaimTask(workerId: Id, queue: string, taskTypes: seq<string>, now: int, attemptId: Id)
      returns (claimed: Option<Id>)
      requires Valid() && Fresh(Tables(), attemptId)
      modifies this
      ensures ClaimChoice(cfg, old(Tables()), queue, taskTypes, now, claimed)
      ensures Ledger.ClaimAnswer(cfg, old(tasks), queue, taskTypes, now, claimed)
      ensures Tables() == if claimed.None? then old(Tables())
                          else ClaimTx(old(Tables()), workerId, claimed.value, attemptId, now)
      ensures claimed.Some? ==> var t := claimed.value;
        && t in old(tasks) && tasks == old(tasks)[t := old(tasks)[t].(status := Running, updatedAt := now)]
        && attemptId in attempts && attempts == old(attempts)[attemptId := attempts[attemptId]]
        && attempts[attemptId].taskId == t && attempts[attemptId].workerId == workerId
        && attempts[attemptId].status == AttemptRunning && attempts[attemptId].startedAt == now
        && attempts[attemptId].result == None && attempts[attemptId].error == None
        && attempts[attemptId].finishedAt == None && attempts[attemptId].heartbeatAt == None
        && events == old(events) + [Event(t, EventStarted, Some(attemptId), None, None, now)]
      ensures if taskTypes == [] then claimed.None? && history == old(history) && Valid()
              else Ran(Claim(workerId, queue, taskTypes, now, claimed, attemptId))
    {
      hide Candidate, AtLimit, RunningIn, MaxNum, ClaimChoice, Ledger.ClaimAnswer;
      if |taskTypes| == 0 {
        assert ClaimChoice(cfg, Tables(), queue, taskTypes, now, None) by { NoTypesNoClaim(cfg, Tables(), queue, now); }
        Ledger.ClaimExactly(cfg, Tables(), queue, taskTypes, now, None);
        return None;
      }
      claimed := ChooseTask(queue, taskTypes, now);
      Ledger.ClaimExactly(cfg, Tables(), queue, taskTypes, now, claimed);
      history := Step(history, Claim(workerId, queue, taskTypes, now, claimed, attemptId));
      if claimed.Some? {
        ChosenExists(cfg, Tables(), queue, taskTypes, now, claimed.value);
        var id := claimed.value;
        tasks := tasks[id := tasks[id].(status := Running, updatedAt := now)];
        var prevMax := PreviousMax(id);
        attempts :=
          attempts[attemptId := Attempt(id, prevMax + 1, workerId, AttemptRunning, None, None, now, None, None)];
        IncrementWorker(workerId);
        events := events + [Event(id, EventStarted, Some(attemptId), None, None, now)];
      }
    }

    // ----- Outcomes -----

    method LoadRunningAttempt(a: Id) returns (r: Result<(Id, Id)>)
      ensures r == if a !in attempts then Err(NotFound)
                   else if attempts[a].status != AttemptRunning then Err(AttemptNotRunning)
                   else Ok((attempts[a].taskId, attempts[a].workerId))
    {
      if a !in attempts {
        return Err(NotFound);
      }
      if attempts[a].status != AttemptRunning {
        return Err(AttemptNotRunning);
      }
      return Ok((attempts[a].taskId, attempts[a].workerId));
    }

    method DecrementWorker(w: Id)
      requires w != ""
      modifies this`workers
      ensures workers == Release(old(workers), w)
      ensures workers.Keys == old(workers).Keys
      ensures forall d :: d in workers && d != w ==> workers[d] == old(workers)[d]
      ensures w in workers ==> var row := old(workers)[w];
        workers[w] == row.(count := row.count - 1, status := if row.count - 1 >= row.concurrency then Busy else Idle)
    {
      if w in workers {
        var row := workers[w];
        workers := workers[w := row.(count := row.count - 1,
                                     status := if row.count - 1 < row.concurrency then Idle else Busy)];
      }
    }

    method SucceedAttempt(a: Id, result: string, now: int) returns (r: Status)
      requires Valid()
      modifies this
      ensures Ran(Resolve(a, Success(result), now))
      ensures r == StatusOf(ResolveTx(old(Tables()), a, Success(result), now))
      ensures r == Pass <==> a in old(attempts) && old(attempts)[a].status == AttemptRunning
      ensures r != Pass ==> Tables() == old(Tables())
      ensures r == Pass ==> attempts == old(attempts)[a := old(attempts)[a].(
        status := AttemptSucceeded, result := Some(result), finishedAt := Some(now))]
      ensures r == Pass ==> var t := old(attempts)[a].taskId;
        && t in old(tasks) && tasks == old(tasks)[t := old(tasks)[t].(status := Succeeded, updatedAt := now)]
        && events == old(events) + [Event(t, EventSucceeded, Some(a), None, None, now)]
    {
      KnownTask(cfg, history, a);
      history := Step(history, Resolve(a, Success(result), now));
      var loaded := LoadRunningAttempt(a);
      if loaded.Err? {
        return Fail(loaded.error);
      }
      var (taskId, workerId) := loaded.value;
      attempts :=
        attempts[a := attempts[a].(status := AttemptSucceeded, result := Some(result), finishedAt := Some(now))];
      if taskId in tasks {
        tasks := tasks[taskId := tasks[taskId].(status := Succeeded, updatedAt := now)];
      }
      if workerId != "" {
        DecrementWorker(workerId);
      }
      events := events + [Event(taskId, EventSucceeded, Some(a), None, None, now)];
      return Pass;
    }

    /** The rows of a failed execution, whichever way it failed: the attempt, the task and the worker. Says the
        new retry count if there is going to be a retry. */
    method RecordFailure(a: Id, ghost v: Verdict, errMsg: string, taskId: Id, workerId: Id, now: int)
      returns (again: Option<int>)
      requires a in attempts && taskId in tasks
      requires v == Failure(errMsg) || (v == Lapse && errMsg == HEARTBEAT_TIMEOUT)
      modifies this`tasks, this`attempts, this`workers
      ensures attempts == old(attempts)[a := FinishedAttempt(old(attempts)[a], v, now)]
      ensures tasks == old(tasks)[taskId := SettledTask(old(tasks)[taskId], v, now)]
      ensures workers == Release(old(workers), workerId)
      ensures again == if Retriable(old(tasks)[taskId]) then Some(old(tasks)[taskId].retryCount + 1) else None
    {
      var retryCount, maxRetries := tasks[taskId].retryCount, tasks[taskId].maxRetries;
      attempts := attempts[a := attempts[a].(status := AttemptFailed, error := Some(errMsg), finishedAt := Some(now))];
      again := None;
      if retryCount < maxRetries {
        var delay := Backoff.RetryBackoff(retryCount);
        tasks := tasks[taskId := tasks[taskId].(status := Retrying, retryCount := retryCount + 1,
                                                runAt := now + delay, updatedAt := now)];
        again := Some(retryCount + 1);
      } else {
        tasks := tasks[taskId := tasks[taskId].(status := Dead, updatedAt := now)];
      }
      if workerId != "" {
        DecrementWorker(workerId);
      }
    }

    method FailAttempt(a: Id, errMsg: string, now: int) returns (r: Status)
      requires Valid()
      modifies this
      ensures Ran(Resolve(a, Failure(errMsg), now))
      ensures r == StatusOf(ResolveTx(old(Tables()), a, Failure(errMsg), now))
      ensures r == Pass <==> a in old(attempts) && old(attempts)[a].status == AttemptRunning
      ensures r != Pass ==> Tables() == old(Tables())
      ensures r == Pass ==> attempts == old(attempts)[a := old(attempts)[a].(
        status := AttemptFailed, error := Some(errMsg), finishedAt := Some(now))]
      ensures r == Pass ==> var t := old(attempts)[a].taskId; t in old(tasks) && var row := old(tasks)[t];
        if row.retryCount < row.maxRetries then
          && tasks == old(tasks)[t := row.(status := Retrying, retryCount := row.retryCount + 1,
                                           runAt := now + Backoff.Delay(row.retryCount), updatedAt := now)]
          && events == old(events) + [Event(t, EventRetrying, Some(a), Some(errMsg), Some(row.retryCount + 1), now)]
        else
          && tasks == old(tasks)[t := row.(status := Dead, updatedAt := now)]
          && events == old(events) + [Event(t, EventDead, Some(a), Some(errMsg), None, now)]
    {
      KnownTask(cfg, history, a);
      StepRuns(cfg, history, Resolve(a, Failure(errMsg), now));
      hide Legal, Exec, Fresh, FinishedAttempt, SettledTask, Release;
      history := Step(history, Resolve(a, Failure(errMsg), now));
      var loaded := LoadRunningAttempt(a);
      if loaded.Err? {
        return Fail(loaded.error);
      }
      var (taskId, workerId) := loaded.value;
      if taskId !in tasks {
        return Fail(ReadTaskFailed);
      }
      var again := RecordFailure(a, Failure(errMsg), errMsg, taskId, workerId, now);
      var kind := if again.Some? then EventRetrying else EventDead;
      events := events + [Event(taskId, kind, Some(a), Some(errMsg), again, now)];
      return Pass;
    }

    method CancelAttempt(a: Id, now: int) returns (r: Status)
      requires Valid()
      modifies this
      ensures Ran(Resolve(a, Abort, now))
      ensures r == StatusOf(ResolveTx(old(Tables()), a, Abort, now))
      ensures r == Pass <==> a in old(attempts) && old(attempts)[a].status == AttemptRunning
      ensures r != Pass ==> Tables() == old(Tables())
      ensures r == Pass ==> attempts == old(attempts)[a := old(attempts)[a].(
        status := AttemptCancelled, finishedAt := Some(now))]
      ensures r == Pass ==> var t := old(attempts)[a].taskId;
        && t in old(tasks) && tasks == old(tasks)[t := old(tasks)[t].(status := Cancelled, updatedAt := now)]
        && events == old(events) + [Event(t, EventCancelled, Some(a), None, None, now)]
    {
      KnownTask(cfg, history, a);
      history := Step(history, Resolve(a, Abort, now));
      var loaded := LoadRunningAttempt(a);
      if loaded.Err? {
        return Fail(loaded.error);
      }
      var (taskId, workerId) := loaded.value;
      attempts := attempts[a := attempts[a].(status := AttemptCancelled, finishedAt := Some(now))];
      if taskId in tasks {
        tasks := tasks[taskId := tasks[taskId].(status := Cancelled, updatedAt := now)];
      }
      if workerId != "" {
        DecrementWorker(workerId);
      }
      events := events + [Event(taskId, EventCancelled, Some(a), None, None, now)];
      return Pass;
    }

    method TimeoutAttempt(a: Id, now: int) returns (r: Status)
      requires Valid()
      modifies this
      ensures Ran(Resolve(a, Lapse, now))
      ensures r == StatusOf(ResolveTx(old(Tables()), a, Lapse, now))
      ensures r == Pass <==> a in old(attempts) && old(attempts)[a].status == AttemptRunning
      ensures r != Pass ==> Tables() == old(Tables())
      ensures r == Pass ==> attempts == old(attempts)[a := old(attempts)[a].(
        status := AttemptFailed, error := Some("heartbeat timeout"), finishedAt := Some(now))]
      ensures r == Pass ==> var t := old(attempts)[a].taskId; t in old(tasks) && var row := old(tasks)[t];
        if row.retryCount < row.maxRetries then
          && tasks == old(tasks)[t := row.(status := Retrying, retryCount := row.retryCount + 1,
                                           runAt := now + Backoff.Delay(row.retryCount), updatedAt := now)]
          && events == old(events) + [Event(t, EventHeartbeatTimeout, Some(a), Some("heartbeat timeout"),
                                            Some(row.retryCount + 1), now)]
        else
          && tasks == old(tasks)[t := row.(status := Dead, updatedAt := now)]
          && events == old(events) + [Event(t, EventHeartbeatTimeout, Some(a), Some("heartbeat timeout"), None, now)]
    {
      KnownTask(cfg, history, a);
      StepRuns(cfg, history, Resolve(a, Lapse, now));
      hide Legal, Exec, Fresh, FinishedAttempt, SettledTask, Release;
      history := Step(history, Resolve(a, Lapse, now));
      var loaded := LoadRunningAttempt(a);
      if loaded.Err? {
        return Fail(loaded.error);
      }
      var (taskId, workerId) := loaded.value;
      if taskId !in tasks {
        return Fail(ReadTaskFailed);
      }
      var again := RecordFailure(a, Lapse, HEARTBEAT_TIMEOUT, taskId, workerId, now);
      events := events + [Event(taskId, EventHeartbeatTimeout, Some(a), Some(HEARTBEAT_TIMEOUT), again, now)];
      return Pass;
    }

    method UpdateHeartbeat(a: Id, now: int)
      requires Valid()
      modifies this
      ensures Ran(Heartbeat(a, now))
      ensures tasks == old(tasks) && workers == old(workers) && events == old(events)
      ensures attempts == if a in old(attempts) && old(attempts)[a].status == AttemptRunning
                          then old(attempts)[a := old(attempts)[a].(heartbeatAt := Some(now))] else old(attempts)
    {
      history := Step(history, Heartbeat(a, now));
      if a in attempts && attempts[a].status == AttemptRunning {
        attempts := attempts[a := attempts[a].(heartbeatAt := Some(now))];
      }
    }

    // ----- Control calls -----

    static method TaskStatusOneOf(status: TaskStatus, allowed: seq<TaskStatus>) returns (found: bool)
      ensures found <==> status in allowed
    {
      for i := 0 to |allowed|
        invariant status !in allowed[..i]
      {
        if status == allowed[i] {
          return true;
        }
      }
      return false;
    }

    method ControlTransition(id: Id, from: seq<TaskStatus>, to: TaskStatus, kind: EventKind, now: int)
      returns (r: Status)
      modifies this`tasks, this`events
      ensures r == if id !in old(tasks) then Fail(NotFound)
                   else if old(tasks)[id].status !in from then Fail(InvalidTransition) else Pass
      ensures r == Pass ==> tasks == old(tasks)[id := old(tasks)[id].(status := to, updatedAt := now)]
      ensures r == Pass ==> events == old(events) + [Event(id, kind, None, None, None, now)]
      ensures r != Pass ==> tasks == old(tasks) && events == old(events)
    {
      if id !in tasks {
        return Fail(NotFound);
      }
      var allowed := TaskStatusOneOf(tasks[id].status, from);
      if !allowed {
        return Fail(InvalidTransition);
      }
      tasks := tasks[id := tasks[id].(status := to, updatedAt := now)];
      events := events + [Plain(id, kind, now)];
      return Pass;
    }

    method HaltTask(id: Id, now: int) returns (r: Status)
      requires Valid()
      modifies this
      ensures Ran(Control(id, Halt, now))
      ensures r == StatusOf(ControlTx(old(Tables()), id, Halt, now)) && attempts == old(attempts)
      ensures r == if id !in old(tasks) then Fail(NotFound)
                   else if old(tasks)[id].status == Running then Pass else Fail(InvalidTransition)
      ensures r == Pass ==>
        && tasks == old(tasks)[id := old(tasks)[id].(status := Halted, updatedAt := now)]
        && events == old(events) + [Event(id, EventHalted, None, None, None, now)]
      ensures r != Pass ==> Tables() == old(Tables())
    {
      history := Step(history, Control(id, Halt, now));
      r := ControlTransition(id, [Running], Halted, EventHalted, now);
    }

    method CancelTask(id: Id, now: int) returns (r: Status)
      requires Valid()
      modifies this
      ensures Ran(Control(id, Action.CancelTask, now))
      ensures r == StatusOf(ControlTx(old(Tables()), id, Action.CancelTask, now)) && attempts == old(attempts)
      ensures r == if id !in old(tasks) then Fail(NotFound)
                   else if old(tasks)[id].status in {Queued, Halted} then Pass else Fail(InvalidTransition)
      ensures r == Pass ==>
        && tasks == old(tasks)[id := old(tasks)[id].(status := Cancelled, updatedAt := now)]
        && events == old(events) + [Event(id, EventCancelled, None, None, None, now)]
      ensures r != Pass ==> Tables() == old(Tables())
    {
      history := Step(history, Control(id, Action.CancelTask, now));
      r := ControlTransition(id, [Queued, Halted], Cancelled, EventCancelled, now);
    }

    method ResumeTask(id: Id, now: int) returns (r: Status)
      requires Valid()
      modifies this
      ensures Ran(Control(id, Resume, now))
      ensures r == StatusOf(ControlTx(old(Tables()), id, Resume, now)) && attempts == old(attempts)
      ensures r == if id !in old(tasks) then Fail(NotFound)
                   else if old(tasks)[id].status == Halted then Pass else Fail(InvalidTransition)
      ensures r == Pass ==>
        && tasks == old(tasks)[id := old(tasks)[id].(status := Queued, runAt := now, updatedAt := now)]
        && events == old(events) + [Event(id, EventQueued, None, None, None, now)]
      ensures r != Pass ==> Tables() == old(Tables())
    {
      history := Step(history, Control(id, Resume, now));
      if id !in tasks {
        return Fail(NotFound);
      }
      if tasks[id].status != Halted {
        return Fail(InvalidTransition);
      }
      tasks := tasks[id := tasks[id].(status := Queued, runAt := now, updatedAt := now)];
      events := events + [Plain(id, EventQueued, now)];
      return Pass;
    }

    method RetryTask(id: Id, now: int) returns (r: Status)
      requires Valid()
      modifies this
      ensures Ran(Control(id, Retry, now))
      ensures r == StatusOf(ControlTx(old(Tables()), id, Retry, now)) && attempts == old(attempts)
      ensures r == if id !in old(tasks) then Fail(NotFound)
                   else if old(tasks)[id].status in {Dead, Cancelled} then Pass else Fail(InvalidTransition)
      ensures r == Pass ==>
        && tasks == old(tasks)[id := old(tasks)[id].(status := Queued, retryCount := 0, runAt := now, updatedAt := now)]
        && events == old(events) + [Event(id, EventQueued, None, None, None, now)]
      ensures r != Pass ==> Tables() == old(Tables())
    {
      history := Step(history, Control(id, Retry, now));
      if id !in tasks {
        return Fail(NotFound);
      }
      if tasks[id].status != Dead && tasks[id].status != Cancelled {
        return Fail(InvalidTransition);
      }
      tasks := tasks[id := tasks[id].(status := Queued, retryCount := 0, runAt := now, updatedAt := now)];
      events := events + [Plain(id, EventQueued, now)];
      return Pass;
    }

    method RestartTask(id: Id, now: int, newId: Id) returns (r: Status)
      requires Valid() && Fresh(Tables(), newId)
      modifies this
      ensures Ran(Restart(id, newId, now))
      ensures r == StatusOf(RestartTx(old(Tables()), id, newId, now)) && attempts == old(attempts)
      ensures r == if id !in old(tasks) then Fail(NotFound)
                   else if old(tasks)[id].status in {Queued, Succeeded, Dead, Cancelled, Halted} then Pass
                   else Fail(InvalidTransition)
      ensures r == Pass ==> var was := old(tasks)[id];
        && tasks == old(tasks)[id := was.(status := Superseded, updatedAt := now)]
                     [newId := was.(status := Queued, retryCount := 0, runAt := now, parentId := Some(id),
                                    createdAt := now, updatedAt := now)]
        && events == old(events) + [Event(newId, EventQueued, None, None, None, now)]
      ensures r != Pass ==> Tables() == old(Tables())
    {
      history := Step(history, Restart(id, newId, now));
      if id !in tasks {
        return Fail(NotFound);
      }
      var orig := tasks[id];
      match orig.status {
        case Queued | Succeeded | Dead | Cancelled | Halted =>
        case _ => return Fail(InvalidTransition);
      }
      tasks := tasks[id := orig.(status := Superseded, updatedAt := now)];
      tasks := tasks[newId := Task(orig.typ, orig.queue, orig.payload, Queued, orig.priority, 0, orig.maxRetries,
                                   orig.timeoutSecs, now, Some(id), orig.scheduleId, now, now)];
      events := events + [Plain(newId, EventQueued, now)];
      return Pass;
    }

    // ----- Maintenance -----

    /** Promotes exactly the due retrying tasks and says how many there were; writes no event. */
    method RequeueRetrying(now: int) returns (n: nat)
      requires Valid()
      modifies this
      ensures Ran(Requeue(now))
      ensures n == |set t | t in old(tasks) && old(tasks)[t].status == Retrying && old(tasks)[t].runAt <= now|
      ensures attempts == old(attempts) && workers == old(workers) && events == old(events)
      ensures tasks.Keys == old(tasks).Keys && forall t :: t in tasks ==> var row := old(tasks)[t];
        tasks[t] == if row.status == Retrying && row.runAt <= now then row.(status := Queued, updatedAt := now) else row
    {
      var due := set t | t in tasks && tasks[t].status == Retrying && tasks[t].runAt <= now;
      n := |due|;
      DueRows(tasks, now);
      StepRuns(cfg, history, Requeue(now));
      hide Due, Requeued, Exec, Legal;
      tasks := map t | t in tasks :: if tasks[t].status == Retrying && tasks[t].runAt <= now
                                     then tasks[t].(status := Queued, updatedAt := now) else tasks[t];
      history := Step(history, Requeue(now));
    }

    /** The ids of the stale running attempts, each once. */
    method FindStaleAttempts(cutoff: int) returns (stale: seq<Id>)
      requires Valid()
      ensures Unique(stale) && forall a :: a in stale <==> a in attempts && IsStale(attempts[a], cutoff)
      ensures Lists(stale, attempts, history, cutoff)
    {
      stale := [];
      var rest := attempts.Keys;
      while rest != {}
        invariant rest <= attempts.Keys
        invariant forall a :: a in stale <==> a in attempts && a !in rest && IsStale(attempts[a], cutoff)
        invariant Unique(stale)
      {
        var a :| a in rest;
        rest := rest - {a};
        if IsStale(attempts[a], cutoff) {
          stale := stale + [a];
        }
      }
      forall a | a in attempts
        ensures IsStale(attempts[a], cutoff) <==> Silent(attempts[a], Ledger.Heard(history, a), cutoff)
      {
        Ledger.LastHeard(cfg, history, a);
      }
    }

    /** One turn of the scanner's loop, which goes on whatever the timeout returns. */
    method TimeOutOne(a: Id, now: int)
      requires Valid()
      modifies this
      ensures Ran(Resolve(a, Lapse, now))
    {
      var r := TimeoutAttempt(a, now);
    }

    /** The loop of a sweep. */
    method TimeOutAll(stale: seq<Id>, clock: nat -> int, alive: nat -> bool) returns (done: seq<Id>)
      requires Valid() && Unique(stale) && AllRunning(stale, attempts)
      modifies this
      ensures Valid() && done <= stale && StopsWell(alive, |done|, |stale|)
      ensures history == Swept(old(history), done, clock)
      ensures Lapsed(old(attempts), attempts, done, clock)
    {
      done := [];
      ghost var before := attempts;
      NoneLapsed(before, clock);
      hide Next, Exec, Legal, ResolveTx, FinishedAttempt, Lapsed, Unique;
      while |done| < |stale| && alive(|done|)
        invariant Valid() && done <= stale && WentOn(alive, |done|)
        invariant history == Swept(old(history), done, clock) && Lapsed(before, attempts, done, clock)
      {
        var a := stale[|done|];
        NextLapsed(before, Tables(), cfg, history, stale, done, clock);
        TimeOutOne(a, clock(|done|));
        done := done + [a];
      }
    }

    /** One sweep of the heartbeat scanner: every attempt that was stale is failed, once, at the time read
        for it, unless the scanner is told to stop before it comes to it; no other attempt row changes.
        `clock(i)` is the time read for the i-th timeout, and `alive(i)` whether the scanner goes on to it. */
    method ScanHeartbeats(cutoff: int, clock: nat -> int, alive: nat -> bool) returns (stale: seq<Id>, done: seq<Id>)
      requires Valid()
      modifies this
      ensures Valid() && Unique(stale)
      ensures Lists(stale, old(attempts), old(history), cutoff)
      ensures done <= stale && StopsWell(alive, |done|, |stale|)
      ensures history == Swept(old(history), done, clock)
      ensures Lapsed(old(attempts), attempts, done, clock)
    {
      stale := FindStaleAttempts(cutoff);
      assert AllRunning(stale, attempts);
      hide Exec, Legal, Lapsed, Lists, Unique, AllRunning, IsStale;
      done := TimeOutAll(stale, clock, alive);
    }
  }

  ghost predicate AllRunning(stale: seq<Id>, attempts: map<Id, Attempt>) {
    forall a :: a in stale ==> a in attempts && attempts[a].status == AttemptRunning
  }

  /** The attempts in `done`, and no others, have been failed for a heartbeat timeout, the i-th at `clock(i)`. */
  ghost predicate Lapsed(before: map<Id, Attempt>, after: map<Id, Attempt>, done: seq<Id>, clock: nat -> int) {
    && after.Keys == before.Keys
    && (forall i :: 0 <= i < |done| ==> LapsedAt(before, after, done[i], clock(i)))
    && (forall a :: a in before && a !in done ==> after[a] == before[a])
  }

  predicate LapsedAt(before: map<Id, Attempt>, after: map<Id, Attempt>, a: Id, now: int) {
    && a in before && a in after
    && after[a] == before[a].(status := AttemptFailed, error := Some("heartbeat timeout"), finishedAt := Some(now))
  }

  lemma NoneLapsed(attempts: map<Id, Attempt>, clock: nat -> int)
    ensures Lapsed(attempts, attempts, [], clock)
  {
  }

  /** What the next timeout of a sweep will have done. */
  lemma NextLapsed(before: map<Id, Attempt>, db: Db, cfg: Config, tr: Trace, stale: seq<Id>, done: seq<Id>,
                   clock: nat -> int)
    requires done <= stale && |done| < |stale| && Lapsed(before, db.attempts, done, clock)
    requires Legal(cfg, tr) && Exec(tr) == db && Unique(stale)
    requires stale[|done|] in before && before[stale[|done|]].status == AttemptRunning
    ensures var a, now := stale[|done|], clock(|done|);
            && (done + [a])[..|done|] == done && done + [a] <= stale
            && Legal(cfg, Step(tr, Resolve(a, Lapse, now)))
            && Exec(Step(tr, Resolve(a, Lapse, now))) == Next(db, Resolve(a, Lapse, now))
            && Lapsed(before, Next(db, Resolve(a, Lapse, now)).attempts, done + [a], clock)
  {
    var a := stale[|done|];
    KnownTask(cfg, tr, a);
    StepRuns(cfg, tr, Resolve(a, Lapse, clock(|done|)));
    NotYet(stale, done);
    hide Legal, Exec, Next, FinishedAttempt, ResolveTx;
    LapseRow(db, a, clock(|done|));
    LapsedSnoc(before, db.attempts, done, a, clock);
  }

  lemma NotYet(stale: seq<Id>, done: seq<Id>)
    requires done <= stale && |done| < |stale| && Unique(stale)
    ensures stale[|done|] !in done && (done + [stale[|done|]])[..|done|] == done && done + [stale[|done|]] <= stale
  {
  }

  lemma LapsedSnoc(before: map<Id, Attempt>, attempts: map<Id, Attempt>, done: seq<Id>, a: Id, clock: nat -> int)
    requires Lapsed(before, attempts, done, clock) && a !in done && a in attempts
    ensures Lapsed(before, attempts[a := FinishedAttempt(attempts[a], Lapse, clock(|done|))], done + [a], clock)
  {
  }

  /** The run after a timeout of each attempt in turn, the i-th at time `clock(i)`. */
  ghost function Swept(tr: Trace, stale: seq<Id>, clock: nat -> int): Trace {
    if stale == [] then tr
    else
      var last := |stale| - 1;
      Step(Swept(tr, stale[..last], clock), Resolve(stale[last], Lapse, clock(last)))
  }

  /** The bulk update, row by row. */
  lemma DueRows(tasks: map<Id, Task>, now: int)
    ensures (map t | t in tasks :: Requeued(tasks[t], now)) ==
            map t | t in tasks :: if tasks[t].status == Retrying && tasks[t].runAt <= now
                                  then tasks[t].(status := Queued, updatedAt := now) else tasks[t]
  {
  }

  lemma NoTypesNoClaim(cfg: Config, db: Db, queue: string, now: int)
    ensures ClaimChoice(cfg, db, queue, [], now, None)
  {
  }

  lemma ChosenExists(cfg: Config, db: Db, queue: string, taskTypes: seq<string>, now: int, t: Id)
    requires ClaimChoice(cfg, db, queue, taskTypes, now, Some(t))
    ensures t in db.tasks
  {
  }

  lemma CountOut(all: set<Id>, rest: set<Id>, t: Id)
    requires t in rest
    ensures |all * rest| == |all * (rest - {t})| + if t in all then 1 else 0
  {
    if t in all {
      assert all * rest == all * (rest - {t}) + {t};
    } else {
      assert all * rest == all * (rest - {t});
    }
  }

  lemma HighestIsMax(attempts: map<Id, Attempt>, t: Id, highest: Option<int>)
    requires forall a :: a in attempts && attempts[a].taskId == t ==> highest.Some? && attempts[a].num <= highest.value
    requires highest.Some? ==> highest.value in NumsOf(attempts, t)
    ensures MaxNum(attempts, t) == if highest.Some? then highest.value else 0
  {
    assert IsMaxNum(attempts, t, MaxNum(attempts, t));
    if highest.None? {
      assert NumsOf(attempts, t) == {};
    }
  }

  lemma StepRuns(cfg: Config, tr: Trace, op: Op)
    requires Legal(cfg, tr) && Enabled(cfg, Exec(tr), op)
    ensures Legal(cfg, Step(tr, op)) && Exec(Step(tr, op)) == Next(Exec(tr), op)
  {
  }

  /** A timeout of a running attempt of a known task changes that attempt row and no other. */
  lemma LapseRow(db: Db, a: Id, now: int)
    requires a in db.attempts && db.attempts[a].status == AttemptRunning && db.attempts[a].taskId in db.tasks
    ensures Next(db, Resolve(a, Lapse, now)).attempts == db.attempts[a := FinishedAttempt(db.attempts[a], Lapse, now)]
  {
  }

  lemma KnownTask(cfg: Config, tr: Trace, a: Id)
    requires Legal(cfg, tr)
    ensures a in Exec(tr).attempts ==> Exec(tr).attempts[a].taskId in Exec(tr).tasks
  {
    Soundness.SoundRun(cfg, tr);
  }
}
