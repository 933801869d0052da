/** One task's view of a run: every transaction either leaves a task's lane alone or makes one legal move
    of a small automaton. Whole-run bounds on attempts are then counting arguments over those moves. */
module Lanes {
  import opened Options
  import opened Rows
  import opened Config
  import opened Transitions
  import Backoff
  import opened Soundness

  /** What the counting arguments need to know about a task: its status, its retry count, its retry budget,
      how many of its attempts are running and how many were ever made. */
  datatype Lane = Lane(status: TaskStatus, retries: int, cap: nat, live: nat, made: nat)

  datatype Move =
    | Stay
    | Start
    | Settle(verdict: Verdict)
    | Command(action: Action)
    | Supersede
    | Promote

  ghost function LaneOf(db: Db, t: Id): Lane
    requires t in db.tasks
  {
    var row := db.tasks[t];
    Lane(row.status, row.retryCount, Cap(row), |LiveOf(db.attempts, t)|, |AttemptsOf(db.attempts, t)|)
  }

  ghost predicate Resolves(db: Db, a: Id, t: Id) {
    a in db.attempts && db.attempts[a].status == AttemptRunning && db.attempts[a].taskId == t
  }

  /** The move an operation makes on a task that exists already. */
  ghost function MoveOf(db: Db, op: Op, t: Id): Move
    requires t in db.tasks
  {
    match op
    case Claim(_, _, _, _, chosen, _) => if chosen == Some(t) then Start else Stay
    case Resolve(a, v, _) => if Resolves(db, a, t) then Settle(v) else Stay
    case Control(id, action, _) => if id == t && Permits(action, db.tasks[t].status) then Command(action) else Stay
    case Restart(id, _, _) => if id == t && Restartable(db.tasks[t].status) then Supersede else Stay
    case Requeue(now) => if Due(db.tasks[t], now) then Promote else Stay
    case _ => Stay
  }

  predicate Can(l: Lane, m: Move) {
    match m
    case Stay => true
    case Start => l.status == Queued
    case Settle(_) => l.live > 0
    case Command(action) => Permits(action, l.status)
    case Supersede => Restartable(l.status)
    case Promote => l.status == Retrying
  }

  function Moved(l: Lane, m: Move): Lane
    requires Can(l, m)
  {
    match m
    case Stay => l
    case Start => l.(status := Running, live := l.live + 1, made := l.made + 1)
    case Settle(v) =>
      var less := l.(live := l.live - 1);
      (match v
       case Success(_) => less.(status := Succeeded)
       case Abort => less.(status := Cancelled)
       case _ =>
         if l.retries < l.cap then less.(status := Retrying, retries := l.retries + 1) else less.(status := Dead))
    case Command(Halt) => l.(status := Halted)
    case Command(Resume) => l.(status := Queued)
    case Command(CancelTask) => l.(status := Cancelled)
    case Command(Retry) => l.(status := Queued, retries := 0)
    case Supersede => l.(status := Superseded)
    case Promote => l.(status := Queued)
  }

  // ----- The automaton is what the store does to one task -----

  lemma LaneClaim(cfg: Config, db: Db, op: Op, t: Id)
    requires Sound(db) && Enabled(cfg, db, op) && op.Claim? && t in db.tasks
    ensures Can(LaneOf(db, t), MoveOf(db, op, t))
    ensures LaneOf(Next(db, op), t) == Moved(LaneOf(db, t), MoveOf(db, op, t))
  {
    if op.chosen.Some? {
      var row := Next(db, op).attempts[op.attemptId];
      assert Candidate(cfg, db, op.queue, op.taskTypes, op.now, op.chosen.value);
      InsertAttemptsOf(db.attempts, op.attemptId, row, t);
      InsertLiveOf(db.attempts, op.attemptId, row, t);
      hide LiveOf, AttemptsOf, AtLimit, Fresh, MaxNum, Occupy, EventsRefer;
    }
  }

  lemma SomeLive(attempts: map<Id, Attempt>, a: Id, t: Id)
    ensures a in attempts && attempts[a].status == AttemptRunning && attempts[a].taskId == t ==>
      |LiveOf(attempts, t)| > 0
  {
    if a in attempts && attempts[a].status == AttemptRunning && attempts[a].taskId == t {
      assert a in LiveOf(attempts, t);
    }
  }

  lemma LaneSettles(row: Task, v: Verdict, now: int, live: nat, made: nat)
    requires live > 0 && 0 <= row.retryCount <= Cap(row)
    ensures var was := Lane(row.status, row.retryCount, Cap(row), live, made);
            var settled := SettledTask(row, v, now);
            Moved(was, Settle(v)) == Lane(settled.status, settled.retryCount, Cap(settled), live - 1, made)
  {
  }

  lemma LaneResolve(db: Db, a: Id, v: Verdict, now: int, t: Id)
    requires Sound(db) && t in db.tasks
    ensures Can(LaneOf(db, t), MoveOf(db, Resolve(a, v, now), t))
    ensures LaneOf(Next(db, Resolve(a, v, now)), t) == Moved(LaneOf(db, t), MoveOf(db, Resolve(a, v, now), t))
  {
    if a in db.attempts && db.attempts[a].status == AttemptRunning {
      FinishLiveOf(db.attempts, a, FinishedAttempt(db.attempts[a], v, now), t);
      FinishAttemptsOf(db.attempts, a, FinishedAttempt(db.attempts[a], v, now), t);
      SomeLive(db.attempts, a, t);
      hide LiveOf, AttemptsOf, SettledTask, OutcomeEvent, Release, EventsRefer;
      if db.attempts[a].taskId == t {
        LaneSettles(db.tasks[t], v, now, |LiveOf(db.attempts, t)|, |AttemptsOf(db.attempts, t)|);
      }
    }
  }

  lemma LaneHeartbeat(db: Db, a: Id, now: int, t: Id)
    requires t in db.tasks
    ensures LaneOf(Next(db, Heartbeat(a, now)), t) == LaneOf(db, t)
  {
    if a in db.attempts {
      UpdateAttempt(db.attempts, a, db.attempts[a].(heartbeatAt := Some(now)), t);
    }
  }

  lemma LaneOther(db: Db, op: Op, t: Id)
    requires t in db.tasks && !op.Claim? && !op.Resolve? && !op.Heartbeat?
    requires (op.Restart? ==> op.newId !in db.tasks) && (op.Create? ==> op.id !in db.tasks)
    ensures t in Next(db, op).tasks
    ensures Can(LaneOf(db, t), MoveOf(db, op, t))
    ensures LaneOf(Next(db, op), t) == Moved(LaneOf(db, t), MoveOf(db, op, t))
  {
    assert Next(db, op).attempts == db.attempts;
    hide LiveOf, AttemptsOf;
  }

  /** Refinement: seen from an existing task, every transaction is a legal move of the automaton. */
  lemma LaneStep(cfg: Config, db: Db, op: Op, t: Id)
    requires Sound(db) && Enabled(cfg, db, op) && t in db.tasks
    ensures t in Next(db, op).tasks
    ensures Can(LaneOf(db, t), MoveOf(db, op, t))
    ensures LaneOf(Next(db, op), t) == Moved(LaneOf(db, t), MoveOf(db, op, t))
  {
    RowsStay(db, op);
    match op
    case Claim(_, _, _, _, _, _) => LaneClaim(cfg, db, op, t);
    case Resolve(a, v, now) => LaneResolve(db, a, v, now, t);
    case Heartbeat(a, now) => LaneHeartbeat(db, a, now, t);
    case _ => LaneOther(db, op, t);
  }

  /** A task is born queued, with no retries spent and no attempt. */
  lemma LaneBirth(cfg: Config, db: Db, op: Op, t: Id)
    requires Sound(db) && Enabled(cfg, db, op) && t !in db.tasks && t in Next(db, op).tasks
    ensures LaneOf(Next(db, op), t) == Lane(Queued, 0, Cap(Next(db, op).tasks[t]), 0, 0)
  {
    assert Next(db, op).attempts == db.attempts;
    assert AttemptsOf(db.attempts, t) == {};
    assert LiveOf(db.attempts, t) == {};
  }

  // ----- Counting effective control calls -----

  ghost function MoveIn(db: Db, op: Op, t: Id): Move {
    if t in db.tasks then MoveOf(db, op, t) else Stay
  }

  /** A resume, a cancel of a halted task and a restart of a halted task abandon a running attempt. */
  ghost predicate Orphans(db: Db, op: Op, t: Id) {
    && t in db.tasks
    && db.tasks[t].status == Halted
    && (MoveOf(db, op, t) in {Command(Resume), Command(CancelTask)} || MoveOf(db, op, t) == Supersede)
  }

  ghost function Retries(tr: Trace, t: Id): nat {
    match tr
    case Init => 0
    case Step(p, op) => Retries(p, t) + if MoveIn(Exec(p), op, t) == Command(Retry) then 1 else 0
  }

  ghost function Resumes(tr: Trace, t: Id): nat {
    match tr
    case Init => 0
    case Step(p, op) => Resumes(p, t) + if MoveIn(Exec(p), op, t) == Command(Resume) then 1 else 0
  }

  ghost function Orphanings(tr: Trace, t: Id): nat {
    match tr
    case Init => 0
    case Step(p, op) => Orphanings(p, t) + if Orphans(Exec(p), op, t) then 1 else 0
  }

  function Holds(s: TaskStatus): nat {
    if s == Running || s == Halted then 1 else 0
  }

  function Pending(s: TaskStatus): nat {
    if s == Queued || s == Retrying then 1 else 0
  }

  lemma NothingBeforeBirth(cfg: Config, tr: Trace, t: Id)
    requires Legal(cfg, tr) && t !in Exec(tr).tasks
    ensures Retries(tr, t) == Resumes(tr, t) == Orphanings(tr, t) == 0
  {
    match tr
    case Init =>
    case Step(p, op) =>
      RowsStay(Exec(p), op);
      NothingBeforeBirth(cfg, p, t);
  }

  // ----- Live attempts -----

  /** In every run, a task's running attempts number at most one if it is running or halted, none otherwise,
      plus one for each attempt that a control call orphaned; without orphanings the bound is exact. */
  lemma {:induction false} LiveAttempts(cfg: Config, tr: Trace, t: Id)
    requires Legal(cfg, tr) && t in Exec(tr).tasks
    ensures var l := LaneOf(Exec(tr), t);
            && l.live <= Holds(l.status) + Orphanings(tr, t)
            && (Orphanings(tr, t) == 0 ==> l.live == Holds(l.status))
  {
    hide Next, Sound, Enabled, LiveOf, AttemptsOf;
    match tr
    case Init =>
    case Step(p, op) =>
      var db := Exec(p);
      SoundRun(cfg, p);
      if t in db.tasks {
        LiveAttempts(cfg, p, t);
        LaneStep(cfg, db, op, t);
      } else {
        LaneBirth(cfg, db, op, t);
      }
  }

  /** Exactly the orphaning calls break "one live attempt while running or halted, none otherwise": a resume,
      a cancel or a restart of a task that is halted, which the caller can see before the call. */
  lemma ExclusiveExactly(cfg: Config, db: Db, op: Op, t: Id)
    requires Sound(db) && Enabled(cfg, db, op) && t in db.tasks
    requires LaneOf(db, t).live == Holds(db.tasks[t].status)
    ensures t in Next(db, op).tasks
    ensures LaneOf(Next(db, op), t).live == Holds(Next(db, op).tasks[t].status) <==> !Orphans(db, op, t)
  {
    LaneStep(cfg, db, op, t);
    hide Next, Enabled, Sound, LiveOf, AttemptsOf;
  }

  /** The status changes that can happen while no attempt has been orphaned. */
  predicate Edge(s: TaskStatus, r: TaskStatus) {
    match s
    case Queued => r in {Running, Cancelled, Superseded}
    case Running => r in {Succeeded, Retrying, Dead, Cancelled, Halted}
    case Halted => r in {Succeeded, Retrying, Dead, Cancelled, Queued, Superseded}
    case Retrying => r == Queued
    case Succeeded => r == Superseded
    case Dead => r in {Queued, Superseded}
    case Cancelled => r in {Queued, Superseded}
    case Superseded => false
  }

  lemma MoveFollowsEdge(l: Lane, m: Move)
    requires Can(l, m) && l.live == Holds(l.status)
    ensures Moved(l, m).status == l.status || Edge(l.status, Moved(l, m).status)
  {
  }

  /** In every run without orphanings of a task, each transaction leaves its status alone or follows an edge.
      Witnesses shows that every edge is taken by some run. */
  lemma StatusFollowsEdges(cfg: Config, tr: Trace, op: Op, t: Id)
    requires Legal(cfg, Step(tr, op)) && Orphanings(tr, t) == 0 && t in Exec(tr).tasks
    ensures t in Exec(Step(tr, op)).tasks
    ensures var s, r := Exec(tr).tasks[t].status, Exec(Step(tr, op)).tasks[t].status;
            s == r || Edge(s, r)
  {
    hide Next, Enabled, LiveOf, AttemptsOf, Sound, Edge;
    SoundRun(cfg, tr);
    LiveAttempts(cfg, tr, t);
    LaneStep(cfg, Exec(tr), op, t);
    MoveFollowsEdge(LaneOf(Exec(tr), t), MoveOf(Exec(tr), op, t));
  }

  // ----- The documented state machine -----

  /** The diagram of docs/DESIGN.md, section 8; a restart leads from any other status to superseded. */
  predicate Documented(s: TaskStatus, r: TaskStatus) {
    || (s != Superseded && r == Superseded)
    || match s
       case Queued => r == Running
       case Running => r in {Succeeded, Retrying, Dead, Halted, Cancelled}
       case Retrying => r == Queued
       case Halted => r in {Queued, Cancelled}
       case _ => false
  }

  /** Whether reporting this outcome takes a task of this status off the diagram; `again` says that a failure
      would be retried. Only the outcome of a running task, the cancellation of a halted one, and an outcome
      that leaves the status as it is keep to it. */
  predicate Strays(s: TaskStatus, v: Verdict, again: bool) {
    match s
    case Running => false
    case Halted => !v.Abort?
    case Cancelled => !v.Abort?
    case Succeeded => !v.Success?
    case Dead => again || v.Success? || v.Abort?
    case Retrying => !again || v.Success? || v.Abort?
    case Queued => true
    case Superseded => true
  }

  /** The calls that leave the diagram: an outcome of a running attempt that strays, a RetryTask that is not
      refused, and a CancelTask on a queued task. */
  ghost predicate LeavesDiagram(db: Db, op: Op, t: Id)
    requires t in db.tasks
  {
    var row := db.tasks[t];
    || (op.Resolve? && Resolves(db, op.attemptId, t) && Strays(row.status, op.verdict, Retriable(row)))
    || (op.Control? && op.id == t && op.action == Retry && (row.status == Dead || row.status == Cancelled))
    || (op.Control? && op.id == t && op.action == CancelTask && row.status == Queued)
  }

  lemma MoveIsDocumented(l: Lane, m: Move)
    requires Can(l, m)
    ensures l.status == Moved(l, m).status || Documented(l.status, Moved(l, m).status) <==>
            !(|| (m.Settle? && Strays(l.status, m.verdict, l.retries < l.cap))
              || m == Command(Retry)
              || (m == Command(CancelTask) && l.status == Queued))
  {
  }

  lemma LeavingMoves(db: Db, op: Op, t: Id)
    requires t in db.tasks && 0 <= db.tasks[t].retryCount
    ensures var m, row := MoveOf(db, op, t), db.tasks[t];
            LeavesDiagram(db, op, t) <==>
            || (m.Settle? && Strays(row.status, m.verdict, row.retryCount < Cap(row)))
            || m == Command(Retry)
            || (m == Command(CancelTask) && row.status == Queued)
  {
    hide Due, Restartable, Strays;
  }

  /** In every run a transaction keeps to the documented diagram, as far as a task is concerned, exactly if it is
      none of the calls that leave it, which the rows before the call decide. */
  lemma DocumentedExactly(cfg: Config, tr: Trace, op: Op, t: Id)
    requires Legal(cfg, Step(tr, op)) && t in Exec(tr).tasks
    ensures t in Exec(Step(tr, op)).tasks
    ensures var s, r := Exec(tr).tasks[t].status, Exec(Step(tr, op)).tasks[t].status;
            s == r || Documented(s, r) <==> !LeavesDiagram(Exec(tr), op, t)
  {
    SoundRun(cfg, tr);
    assert 0 <= Exec(tr).tasks[t].retryCount;
    hide Next, Enabled, LiveOf, AttemptsOf, Sound, Documented, LeavesDiagram, Moved, MoveOf, Strays;
    LaneStep(cfg, Exec(tr), op, t);
    MoveIsDocumented(LaneOf(Exec(tr), t), MoveOf(Exec(tr), op, t));
    LeavingMoves(Exec(tr), op, t);
  }

  /** In a run without orphanings of the task the outcomes that stray are those reported, other than as a
      cancellation, for the attempt of a halted task. */
  lemma StraysWithoutOrphans(cfg: Config, tr: Trace, a: Id, v: Verdict, t: Id)
    requires Legal(cfg, tr) && Orphanings(tr, t) == 0 && t in Exec(tr).tasks && Resolves(Exec(tr), a, t)
    ensures var row := Exec(tr).tasks[t];
            Strays(row.status, v, Retriable(row)) <==> row.status == Halted && !v.Abort?
  {
    LiveAttempts(cfg, tr, t);
    SomeLive(Exec(tr).attempts, a, t);
    hide Exec, Legal, LiveOf, AttemptsOf;
  }

  /** The same for runs without orphanings of the task: only reports for a halted task, RetryTask and CancelTask
      leave the diagram. */
  lemma DocumentedWithoutOrphans(cfg: Config, tr: Trace, op: Op, t: Id)
    requires Legal(cfg, Step(tr, op)) && Orphanings(tr, t) == 0 && t in Exec(tr).tasks
    ensures t in Exec(Step(tr, op)).tasks
    ensures var s, r := Exec(tr).tasks[t].status, Exec(Step(tr, op)).tasks[t].status;
            s == r || Documented(s, r) <==>
            !(|| (op.Resolve? && !op.verdict.Abort? && Resolves(Exec(tr), op.attemptId, t) && s == Halted)
              || (op.Control? && op.id == t && op.action == Retry && (s == Dead || s == Cancelled))
              || (op.Control? && op.id == t && op.action == CancelTask && s == Queued))
  {
    DocumentedExactly(cfg, tr, op, t);
    if op.Resolve? && Resolves(Exec(tr), op.attemptId, t) {
      StraysWithoutOrphans(cfg, tr, op.attemptId, op.verdict, t);
    }
    hide Next, Exec, Enabled, Documented, Strays, Resolves;
  }

  /** A halt does not stop the attempt: whatever its worker reports for it, in any run, ends the task as if it
      had not been halted. */
  lemma HaltedCanEnd(cfg: Config, tr: Trace, t: Id) returns (a: Id)
    requires Legal(cfg, tr) && t in Exec(tr).tasks && Exec(tr).tasks[t].status == Halted
    ensures forall v, now :: var next := Exec(Step(tr, Resolve(a, v, now))).tasks;
              t in next && next[t] == SettledTask(Exec(tr).tasks[t], v, now)
  {
    LatestAttemptRuns(cfg, tr, t);
    a :| a in LiveOf(Exec(tr).attempts, t);
    hide Legal, AttemptsOf, SettledTask;
  }

  // ----- Cancelled tasks -----

  /** From `base` to `tr` the task has been cancelled or superseded all the time. */
  ghost predicate StaysDown(tr: Trace, base: Trace, t: Id) {
    && t in Exec(tr).tasks && Exec(tr).tasks[t].status in {Cancelled, Superseded}
    && (tr == base || (tr.Step? && StaysDown(tr.prev, base, t)))
  }

  lemma {:induction false} RetriesGrow(tr: Trace, base: Trace, t: Id)
    requires Extends(tr, base)
    ensures Retries(base, t) <= Retries(tr, t)
  {
    if tr != base {
      RetriesGrow(tr.prev, base, t);
    }
  }

  /** A RetryTask that takes effect, or a success, failure or timeout of a running attempt of the task. */
  predicate Rouses(m: Move) {
    m == Command(Retry) || (m.Settle? && !m.verdict.Abort?)
  }

  ghost predicate Undisturbed(tr: Trace, base: Trace, t: Id) {
    tr == base || (tr.Step? && !Rouses(MoveIn(Exec(tr.prev), tr.op, t)) && Undisturbed(tr.prev, base, t))
  }

  lemma MoveKeepsDown(l: Lane, m: Move)
    requires Can(l, m) && l.status in {Cancelled, Superseded}
    ensures Moved(l, m).status in {Cancelled, Superseded} <==> !Rouses(m)
  {
  }

  /** In every continuation of a run that ends with the task cancelled, it stays cancelled or superseded all
      the time if and only if neither a RetryTask nor an outcome other than a cancellation takes effect on it. */
  lemma {:induction false} StaysDownExactly(cfg: Config, tr: Trace, base: Trace, t: Id)
    requires Legal(cfg, tr) && Extends(tr, base) && t in Exec(base).tasks && Exec(base).tasks[t].status == Cancelled
    ensures StaysDown(tr, base, t) <==> Undisturbed(tr, base, t)
  {
    if tr != base {
      hide Next, Enabled, LiveOf, AttemptsOf, Sound, Moved, MoveOf, Rouses;
      StaysDownExactly(cfg, tr.prev, base, t);
      if StaysDown(tr.prev, base, t) {
        SoundRun(cfg, tr.prev);
        LaneStep(cfg, Exec(tr.prev), tr.op, t);
        MoveKeepsDown(LaneOf(Exec(tr.prev), t), MoveOf(Exec(tr.prev), tr.op, t));
      }
    }
  }

  /** No attempt is left that could fail, or no retry is left for it if it does. */
  predicate Finished(l: Lane) {
    l.status in {Cancelled, Superseded, Succeeded, Dead} && (l.live == 0 || l.retries >= l.cap)
  }

  lemma MoveKeepsFinished(l: Lane, m: Move)
    requires Can(l, m) && Finished(l) && m != Command(Retry)
    ensures Finished(Moved(l, m))
  {
  }

  lemma {:induction false} FinishedRun(cfg: Config, tr: Trace, base: Trace, t: Id)
    requires Legal(cfg, tr) && Extends(tr, base) && t in Exec(base).tasks && Finished(LaneOf(Exec(base), t))
    requires Retries(tr, t) == Retries(base, t)
    ensures t in Exec(tr).tasks && Finished(LaneOf(Exec(tr), t))
  {
    if tr != base {
      hide Next, Enabled, LaneOf, Sound, Moved, MoveOf, Finished;
      RetriesGrow(tr.prev, base, t);
      FinishedRun(cfg, tr.prev, base, t);
      SoundRun(cfg, tr.prev);
      LaneStep(cfg, Exec(tr.prev), tr.op, t);
      MoveKeepsFinished(LaneOf(Exec(tr.prev), t), MoveOf(Exec(tr.prev), tr.op, t));
    }
  }

  ghost predicate IsQueued(tr: Trace, t: Id) {
    t in Exec(tr).tasks && Exec(tr).tasks[t].status == Queued
  }

  /** No continuation in which no RetryTask takes effect on the task queues it. */
  ghost predicate OnlyRetryQueues(cfg: Config, base: Trace, t: Id) {
    forall tr :: Legal(cfg, tr) && Extends(tr, base) && Retries(tr, t) == Retries(base, t) ==> !IsQueued(tr, t)
  }

  /** At any time: an attempt that was left running fails late, and after the backoff the scheduler promotes the
      task that the failure sent to retrying. */
  lemma LateFailureQueues(cfg: Config, base: Trace, a: Id, t: Id, now: int) returns (tr: Trace)
    requires Legal(cfg, base) && t in Exec(base).tasks && Resolves(Exec(base), a, t) && Retriable(Exec(base).tasks[t])
    ensures Legal(cfg, tr) && Extends(tr, base) && Retries(tr, t) == Retries(base, t) && IsQueued(tr, t)
    ensures tr.Step? && tr.prev == Step(base, Resolve(a, Failure(""), now))
    ensures tr.op == Requeue(now + Backoff.Delay(Exec(base).tasks[t].retryCount))
  {
    hide Backoff.Delay;
    var failed := Step(base, Resolve(a, Failure(""), now));
    assert Exec(failed) == Next(Exec(base), Resolve(a, Failure(""), now));
    assert Exec(failed).tasks[t].status == Retrying;
    tr := Step(failed, Requeue(now + Backoff.Delay(Exec(base).tasks[t].retryCount)));
    assert Exec(tr) == Next(Exec(failed), tr.op);
    assert Extends(failed, base) && Legal(cfg, failed);
  }

  /** A cancelled task "will not run again", says the documentation. Apart from RetryTask that is so exactly if
      none of its attempts is still running or its retries are used up: then no continuation without an
      effective RetryTask queues it, and otherwise some continuation does. */
  lemma CancelledExactly(cfg: Config, base: Trace, t: Id)
    requires Legal(cfg, base) && t in Exec(base).tasks && Exec(base).tasks[t].status == Cancelled
    ensures var db := Exec(base);
            OnlyRetryQueues(cfg, base, t) <==>
            LiveOf(db.attempts, t) == {} || db.tasks[t].retryCount >= Cap(db.tasks[t])
  {
    var row, live := Exec(base).tasks[t], LiveOf(Exec(base).attempts, t);
    if live == {} || row.retryCount >= Cap(row) {
      forall tr | Legal(cfg, tr) && Extends(tr, base) && Retries(tr, t) == Retries(base, t)
        ensures !IsQueued(tr, t)
      {
        FinishedRun(cfg, tr, base, t);
      }
    } else {
      SoundRun(cfg, base);
      var a :| a in live;
      var tr := LateFailureQueues(cfg, base, a, t, 0);
    }
  }

  ghost predicate TopRuns(attempts: map<Id, Attempt>, t: Id) {
    exists a :: a in LiveOf(attempts, t) && attempts[a].num == |AttemptsOf(attempts, t)|
  }

  lemma TopRunsUpdate(attempts: map<Id, Attempt>, a: Id, row: Attempt, t: Id)
    requires TopRuns(attempts, t) && a in attempts
    requires row.taskId == attempts[a].taskId && row.num == attempts[a].num && row.workerId == attempts[a].workerId
    requires row.taskId != t || row.status == attempts[a].status
    ensures TopRuns(attempts[a := row], t)
  {
    UpdateAttempt(attempts, a, row, t);
    var b :| b in LiveOf(attempts, t) && attempts[b].num == |AttemptsOf(attempts, t)|;
    assert b in LiveOf(attempts[a := row], t);
  }

  lemma TopRunsInsert(attempts: map<Id, Attempt>, a: Id, row: Attempt, t: Id)
    requires NumberedTask(attempts, t) && a !in attempts && row.status == AttemptRunning
    requires if row.taskId == t then row.num == MaxNum(attempts, t) + 1 else TopRuns(attempts, t)
    ensures TopRuns(attempts[a := row], t)
  {
    InsertAttemptsOf(attempts, a, row, t);
    InsertLiveOf(attempts, a, row, t);
    if row.taskId == t {
      NextNum(attempts, t);
      assert a in LiveOf(attempts[a := row], t);
    } else {
      var b :| b in LiveOf(attempts, t) && attempts[b].num == |AttemptsOf(attempts, t)|;
      assert b in LiveOf(attempts[a := row], t);
    }
  }

  lemma TopRunsStep(cfg: Config, db: Db, op: Op, t: Id)
    requires Sound(db) && Numbered(db.attempts) && Enabled(cfg, db, op)
    requires t in db.tasks && (Holds(db.tasks[t].status) == 1 ==> TopRuns(db.attempts, t))
    requires t in Next(db, op).tasks && Holds(Next(db, op).tasks[t].status) == 1
    ensures TopRuns(Next(db, op).attempts, t)
  {
    hide TopRuns, NumberedTask;
    assert NumberedTask(db.attempts, t);
    match op
    case Claim(_, _, _, _, chosen, a) =>
      if chosen.Some? {
        TopRunsInsert(db.attempts, a, Next(db, op).attempts[a], t);
      }
    case Resolve(a, v, now) =>
      if a in db.attempts && db.attempts[a].status == AttemptRunning {
        TopRunsUpdate(db.attempts, a, FinishedAttempt(db.attempts[a], v, now), t);
      }
    case Heartbeat(a, now) =>
      if a in db.attempts && db.attempts[a].status == AttemptRunning {
        TopRunsUpdate(db.attempts, a, db.attempts[a].(heartbeatAt := Some(now)), t);
      }
    case _ =>
      assert Next(db, op).attempts == db.attempts;
  }

  /** Whenever a task is running or halted, its highest-numbered attempt is running, orphanings or not. */
  lemma {:induction false} LatestAttemptRuns(cfg: Config, tr: Trace, t: Id)
    requires Legal(cfg, tr) && t in Exec(tr).tasks && Exec(tr).tasks[t].status in {Running, Halted}
    ensures TopRuns(Exec(tr).attempts, t)
  {
    match tr
    case Init =>
    case Step(p, op) =>
      SoundRun(cfg, p);
      AttemptNumbers(cfg, p);
      if t in Exec(p).tasks {
        if Exec(p).tasks[t].status in {Running, Halted} {
          LatestAttemptRuns(cfg, p, t);
        }
        TopRunsStep(cfg, Exec(p), op, t);
      }
  }

  // ----- Attempts ever made -----

  ghost predicate Affords(l: Lane, resumes: nat, retries: nat) {
    l.made + Pending(l.status) <= 1 + resumes + retries + l.cap * retries + l.retries
  }

  lemma AffordsMove(l: Lane, m: Move, resumes: nat, retries: nat)
    requires Can(l, m) && 0 <= l.retries <= l.cap && Affords(l, resumes, retries)
    ensures Affords(Moved(l, m), resumes + (if m == Command(Resume) then 1 else 0),
                    retries + (if m == Command(Retry) then 1 else 0))
  {
    assert l.cap * (retries + 1) == l.cap * retries + l.cap;
  }

  /** The potential: a claim pays for one entry into the queue, and entries come from creation, from
      effective resumes and retries, and from the retry budget, which a retry call refills. */
  lemma {:induction false} AttemptPotential(cfg: Config, tr: Trace, t: Id)
    requires Legal(cfg, tr) && t in Exec(tr).tasks
    ensures var l := LaneOf(Exec(tr), t);
            0 <= l.retries <= l.cap && Affords(l, Resumes(tr, t), Retries(tr, t))
  {
    hide Next, Enabled, LiveOf, AttemptsOf, Affords, Moved, Can;
    SoundRun(cfg, tr);
    match tr
    case Init =>
    case Step(p, op) =>
      var db := Exec(p);
      SoundRun(cfg, p);
      if t in db.tasks {
        AttemptPotential(cfg, p, t);
        LaneStep(cfg, db, op, t);
        AffordsMove(LaneOf(db, t), MoveOf(db, op, t), Resumes(p, t), Retries(p, t));
      } else {
        LaneBirth(cfg, db, op, t);
        NothingBeforeBirth(cfg, p, t);
        BirthAffords(Cap(Exec(tr).tasks[t]));
      }
  }

  lemma BirthAffords(cap: nat)
    ensures Affords(Lane(Queued, 0, cap, 0, 0), 0, 0)
  {
  }

  /** In every run, a task never gets more attempts than its budget allows:
      one plus max_retries for its creation and for each effective retry call, and one for each resume. */
  lemma AttemptBudget(cfg: Config, tr: Trace, t: Id)
    requires Legal(cfg, tr) && t in Exec(tr).tasks
    ensures var row := Exec(tr).tasks[t];
            && 0 <= row.retryCount <= Cap(row)
            && |AttemptsOf(Exec(tr).attempts, t)| <= (Cap(row) + 1) * (1 + Retries(tr, t)) + Resumes(tr, t)
  {
    hide Exec, Legal, LiveOf, AttemptsOf, Resumes, Retries;
    AttemptPotential(cfg, tr, t);
    var cap, r := Cap(Exec(tr).tasks[t]), Retries(tr, t);
    assert (cap + 1) * (1 + r) == cap + 1 + cap * r + r;
  }
}
