/** Retries are really spaced out: the backoff written to run_at, the requeue gate and the claim gate
    together keep the attempts of a task apart by the documented delays. */
module Spacing {
  import opened Options
  import opened Rows
  import opened Config
  import opened Transitions
  import Backoff
  import opened Soundness
  import opened Lanes

  /** The delays before retry 0, 1, ... n-1, added up. */
  function Waited(n: nat): nat {
    if n == 0 then 0 else Waited(n - 1) + Backoff.Delay(n - 1)
  }

  // ----- The clock of a run -----

  function After(latest: Option<int>, op: Op): Option<int> {
    if Tick(op).Some? then Tick(op) else latest
  }

  ghost function Latest(tr: Trace): Option<int> {
    match tr
    case Init => None
    case Step(p, op) => After(Latest(p), op)
  }

  predicate NotBefore(earlier: Option<int>, later: Option<int>) {
    earlier.Some? && later.Some? ==> earlier.value <= later.value
  }

  ghost predicate Clocked(tr: Trace) {
    tr.Step? ==> Clocked(tr.prev) && NotBefore(Latest(tr.prev), Tick(tr.op))
  }

  // ----- The invariant of one task -----

  ghost predicate IsAttempt(attempts: map<Id, Attempt>, t: Id, a: Id, num: int) {
    a in attempts && attempts[a].taskId == t && attempts[a].num == num
  }

  /** Every attempt started a full delay after the one before it. */
  ghost predicate StartsApart(attempts: map<Id, Attempt>, t: Id) {
    forall a, b, num: nat :: IsAttempt(attempts, t, a, num) && IsAttempt(attempts, t, b, num + 1) && num >= 1 ==>
      attempts[b].startedAt >= attempts[a].startedAt + Backoff.Delay(num - 1)
  }

  /** Attempt `num` had started by this time. */
  ghost predicate StartedBy(attempts: map<Id, Attempt>, t: Id, num: nat, time: int) {
    forall a :: IsAttempt(attempts, t, a, num) ==> attempts[a].startedAt <= time
  }

  /** This time is a full delay after the start of attempt `num`, if there is one. */
  ghost predicate LateEnough(attempts: map<Id, Attempt>, t: Id, num: nat, time: int) {
    num >= 1 ==> StartedBy(attempts, t, num, time - Backoff.Delay(num - 1))
  }

  ghost predicate Spaced(db: Db, t: Id, latest: Option<int>)
    requires t in db.tasks
  {
    var row := db.tasks[t];
    && row.retryCount >= 0
    && StartsApart(db.attempts, t)
    && (Pending(row.status) == 1 ==>
          && |AttemptsOf(db.attempts, t)| == row.retryCount
          && LateEnough(db.attempts, t, row.retryCount, row.runAt))
    && (Holds(row.status) == 1 ==>
          && |AttemptsOf(db.attempts, t)| == row.retryCount + 1
          && latest.Some?
          && StartedBy(db.attempts, t, row.retryCount + 1, latest.value))
  }

  lemma ClaimStarts(attempts: map<Id, Attempt>, a: Id, row: Attempt, t: Id, n: nat, runAt: int)
    requires NumberedTask(attempts, t) && |AttemptsOf(attempts, t)| == n && a !in attempts
    requires row.taskId == t && row.num == n + 1 && row.startedAt >= runAt
    requires StartsApart(attempts, t) && LateEnough(attempts, t, n, runAt)
    ensures StartsApart(attempts[a := row], t) && StartedBy(attempts[a := row], t, n + 1, row.startedAt)
  {
    var more := attempts[a := row];
    forall b, num: nat | IsAttempt(more, t, b, num)
      ensures if b == a then num == n + 1 else num <= n && IsAttempt(attempts, t, b, num)
    {
      if b != a {
        assert attempts[b].num in NumsOf(attempts, t);
      }
    }
    hide NumberedTask, AttemptsOf, NumsOf, Backoff.Delay;
    forall b, c, num: nat | IsAttempt(more, t, b, num) && IsAttempt(more, t, c, num + 1) && num >= 1
      ensures more[c].startedAt >= more[b].startedAt + Backoff.Delay(num - 1)
    {
      assert IsAttempt(attempts, t, b, num);
    }
  }

  lemma SpacedClaim(cfg: Config, db: Db, op: Op, t: Id, latest: Option<int>)
    requires Numbered(db.attempts) && Enabled(cfg, db, op) && op.Claim? && op.chosen == Some(t)
    requires t in db.tasks && Spaced(db, t, latest)
    ensures Spaced(Next(db, op), t, Tick(op))
  {
    var a, row := op.attemptId, Next(db, op).attempts[op.attemptId];
    assert Candidate(cfg, db, op.queue, op.taskTypes, op.now, t);
    InsertAttemptsOf(db.attempts, a, row, t);
    assert NumberedTask(db.attempts, t);
    NextNum(db.attempts, t);
    hide AttemptsOf, NumberedTask, IsMaxNum, MaxNum, StartsApart, StartedBy, LateEnough, AtLimit;
    ClaimStarts(db.attempts, a, row, t, db.tasks[t].retryCount, db.tasks[t].runAt);
  }

  /** A later time is late enough too, and one more delay is enough for one more retry. */
  lemma Later(attempts: map<Id, Attempt>, t: Id, num: nat, x: int, y: int)
    requires StartedBy(attempts, t, num, x) && x <= y
    ensures StartedBy(attempts, t, num, y)
    ensures num >= 1 ==> LateEnough(attempts, t, num, y + Backoff.Delay(num - 1))
  {
    hide Backoff.Delay;
  }

  lemma SpacedResolve(db: Db, a: Id, v: Verdict, now: int, t: Id, latest: Option<int>)
    requires t in db.tasks && Spaced(db, t, latest) && Resolves(db, a, t)
    requires Holds(db.tasks[t].status) == 1 && NotBefore(latest, Some(now))
    ensures Spaced(Next(db, Resolve(a, v, now)), t, Some(now))
  {
    var more := db.attempts[a := FinishedAttempt(db.attempts[a], v, now)];
    OtherUpdate(db.attempts, a, FinishedAttempt(db.attempts[a], v, now), t);
    Later(more, t, db.tasks[t].retryCount + 1, latest.value, now);
    Resolved(db, a, v, now, t);
    hide Next, AttemptsOf, StartsApart, StartedBy, LateEnough, FinishedAttempt, Backoff.Delay;
  }

  /** What an outcome does to the attempt table and to the row of its task. */
  lemma Resolved(db: Db, a: Id, v: Verdict, now: int, t: Id)
    requires t in db.tasks && Resolves(db, a, t)
    ensures var next := Next(db, Resolve(a, v, now));
            && next.attempts == db.attempts[a := FinishedAttempt(db.attempts[a], v, now)]
            && t in next.tasks && next.tasks[t] == SettledTask(db.tasks[t], v, now)
  {
    hide OutcomeEvent, Release, SettledTask, FinishedAttempt;
  }

  /** The attempt rows of a task, as far as spacing is concerned, are the same in both tables. */
  ghost predicate SameAttempts(attempts: map<Id, Attempt>, more: map<Id, Attempt>, t: Id) {
    && AttemptsOf(more, t) == AttemptsOf(attempts, t)
    && (StartsApart(attempts, t) ==> StartsApart(more, t))
    && (forall n: nat, x :: StartedBy(attempts, t, n, x) ==> StartedBy(more, t, n, x))
    && (forall n: nat, x :: LateEnough(attempts, t, n, x) ==> LateEnough(more, t, n, x))
  }

  lemma SameItself(attempts: map<Id, Attempt>, t: Id)
    ensures SameAttempts(attempts, attempts, t)
  {
  }

  lemma SpacedFrame(db: Db, next: Db, t: Id, latest: Option<int>, later: Option<int>)
    requires t in db.tasks && t in next.tasks && Spaced(db, t, latest)
    requires NotBefore(latest, later) && (latest.Some? ==> later.Some?)
    requires SameAttempts(db.attempts, next.attempts, t)
    requires var was, row := db.tasks[t], next.tasks[t];
             && row.retryCount == was.retryCount
             && (Pending(row.status) == 1 ==> Pending(was.status) == 1 && row.runAt == was.runAt)
             && (Holds(row.status) == 1 ==> Holds(was.status) == 1)
    ensures Spaced(next, t, later)
  {
    hide AttemptsOf, StartsApart, StartedBy, LateEnough, Backoff.Delay;
    if Holds(next.tasks[t].status) == 1 {
      Later(next.attempts, t, next.tasks[t].retryCount + 1, latest.value, later.value);
    }
  }

  lemma SpacedOther(cfg: Config, db: Db, op: Op, t: Id, latest: Option<int>)
    requires AttemptsRefer(db) && Enabled(cfg, db, op) && t in db.tasks && Spaced(db, t, latest)
    requires !Orphans(db, op, t) && MoveOf(db, op, t) != Command(Retry)
    requires !MoveOf(db, op, t).Start? && !MoveOf(db, op, t).Settle?
    requires NotBefore(latest, Tick(op))
    ensures t in Next(db, op).tasks
    ensures Spaced(Next(db, op), t, After(latest, op))
  {
    RowsStay(db, op);
    OthersAttempts(cfg, db, op, t);
    hide AttemptsOf, StartsApart, StartedBy, LateEnough, AtLimit, Spaced, SameAttempts;
    hide Occupy, Release, OutcomeEvent, FinishedAttempt, MaxNum;
    SpacedFrame(db, Next(db, op), t, latest, After(latest, op));
  }

  lemma OthersAttempts(cfg: Config, db: Db, op: Op, t: Id)
    requires AttemptsRefer(db) && Enabled(cfg, db, op) && t in db.tasks
    requires !MoveOf(db, op, t).Start? && !MoveOf(db, op, t).Settle?
    ensures SameAttempts(db.attempts, Next(db, op).attempts, t)
  {
    hide SameAttempts, AtLimit, Occupy, Release, OutcomeEvent, SettledTask;
    SameItself(db.attempts, t);
    var next := Next(db, op);
    match op {
      case Claim(_, _, _, _, chosen, a) =>
        if chosen.Some? {
          OtherAttempt(db.attempts, a, next.attempts[a], t);
        }
      case Resolve(a, v, now) =>
        if a in db.attempts && db.attempts[a].status == AttemptRunning {
          OtherUpdate(db.attempts, a, FinishedAttempt(db.attempts[a], v, now), t);
        }
      case Heartbeat(a, now) =>
        if a in db.attempts && db.attempts[a].status == AttemptRunning {
          OtherUpdate(db.attempts, a, db.attempts[a].(heartbeatAt := Some(now)), t);
        }
      case _ =>
        assert next.attempts == db.attempts;
    }
  }

  lemma Alike(attempts: map<Id, Attempt>, more: map<Id, Attempt>, t: Id)
    requires AttemptsOf(more, t) == AttemptsOf(attempts, t)
    requires forall b, num :: IsAttempt(more, t, b, num) ==>
      IsAttempt(attempts, t, b, num) && more[b].startedAt == attempts[b].startedAt
    ensures SameAttempts(attempts, more, t)
  {
    hide AttemptsOf, Backoff.Delay;
    forall n: nat, x | StartedBy(attempts, t, n, x) ensures StartedBy(more, t, n, x) {
    }
    forall n: nat, x | LateEnough(attempts, t, n, x) ensures LateEnough(more, t, n, x) {
    }
  }

  lemma OtherAttempt(attempts: map<Id, Attempt>, a: Id, row: Attempt, t: Id)
    requires a !in attempts && row.taskId != t && row.status == AttemptRunning
    ensures SameAttempts(attempts, attempts[a := row], t)
  {
    InsertAttemptsOf(attempts, a, row, t);
    Alike(attempts, attempts[a := row], t);
  }

  lemma OtherUpdate(attempts: map<Id, Attempt>, a: Id, row: Attempt, t: Id)
    requires a in attempts && row.workerId == attempts[a].workerId
    requires row.taskId == attempts[a].taskId && row.num == attempts[a].num && row.startedAt == attempts[a].startedAt
    ensures SameAttempts(attempts, attempts[a := row], t)
  {
    UpdateAttempt(attempts, a, row, t);
    Alike(attempts, attempts[a := row], t);
  }

  lemma SpacedBirth(cfg: Config, db: Db, op: Op, t: Id, latest: Option<int>)
    requires Sound(db) && Enabled(cfg, db, op) && t !in db.tasks && t in Next(db, op).tasks
    ensures Spaced(Next(db, op), t, latest)
  {
    LaneBirth(cfg, db, op, t);
    var next := Next(db, op);
    forall a | a in next.attempts ensures next.attempts[a].taskId != t {
      assert next.attempts == db.attempts;
    }
  }

  lemma {:induction false} SpacedRun(cfg: Config, tr: Trace, t: Id)
    requires Legal(cfg, tr) && Clocked(tr) && t in Exec(tr).tasks
    requires Orphanings(tr, t) == 0 && Retries(tr, t) == 0
    ensures Spaced(Exec(tr), t, Latest(tr))
  {
    hide Next, Spaced, LaneOf, Enabled, AttemptsOf, LiveOf, NotBefore, Numbered;
    match tr
    case Init =>
    case Step(p, op) =>
      var db := Exec(p);
      SoundRun(cfg, p);
      AttemptNumbers(cfg, p);
      if t !in db.tasks {
        SpacedBirth(cfg, db, op, t, Latest(tr));
      } else {
        SpacedRun(cfg, p, t);
        SpacedMove(cfg, p, op, t);
      }
  }

  lemma SpacedMove(cfg: Config, p: Trace, op: Op, t: Id)
    requires Legal(cfg, p) && t in Exec(p).tasks && Enabled(cfg, Exec(p), op)
    requires Sound(Exec(p)) && Numbered(Exec(p).attempts) && Orphanings(p, t) == 0
    requires !Orphans(Exec(p), op, t) && MoveOf(Exec(p), op, t) != Command(Retry)
    requires NotBefore(Latest(p), Tick(op)) && Spaced(Exec(p), t, Latest(p))
    ensures t in Next(Exec(p), op).tasks
    ensures Spaced(Next(Exec(p), op), t, After(Latest(p), op))
  {
    var db := Exec(p);
    hide Next, Spaced, Enabled, Exec, Legal, Numbered, Sound;
    if MoveOf(db, op, t).Start? {
      SpacedClaim(cfg, db, op, t, Latest(p));
      LaneStep(cfg, db, op, t);
    } else if MoveOf(db, op, t).Settle? {
      LiveAttempts(cfg, p, t);
      LaneStep(cfg, db, op, t);
      SpacedResolve(db, op.attemptId, op.verdict, op.now, t, Latest(p));
    } else {
      assert Sound(db) ==> AttemptsRefer(db) by { SoundRefers(db); }
      SpacedOther(cfg, db, op, t, Latest(p));
    }
  }

  lemma SoundRefers(db: Db)
    ensures Sound(db) ==> AttemptsRefer(db)
  {
  }

  /** With a clock that does not run backwards, a task that was neither orphaned nor retried by a call has its
      attempt k+1 start at least min(30*2^(k-1), 3600) seconds after attempt k started. */
  lemma ConsecutiveSpacedOut(cfg: Config, tr: Trace, t: Id, a: Id, b: Id, k: nat)
    requires Legal(cfg, tr) && Clocked(tr) && Orphanings(tr, t) == 0 && Retries(tr, t) == 0 && k >= 1
    requires IsAttempt(Exec(tr).attempts, t, a, k) && IsAttempt(Exec(tr).attempts, t, b, k + 1)
    ensures Exec(tr).attempts[b].startedAt >= Exec(tr).attempts[a].startedAt + Backoff.Delay(k - 1)
  {
    hide Next, Exec, Legal, Clocked, Backoff.Delay;
    SoundRun(cfg, tr);
    SpacedRun(cfg, tr, t);
  }

  lemma EarlierAttempt(attempts: map<Id, Attempt>, t: Id, a: Id, num: nat) returns (b: Id)
    requires NumberedTask(attempts, t) && IsAttempt(attempts, t, a, num) && num >= 2
    ensures IsAttempt(attempts, t, b, num - 1)
  {
    assert attempts[a].num in NumsOf(attempts, t);
    assert num - 1 in NumsOf(attempts, t);
    b :| b in attempts && attempts[b].taskId == t && attempts[b].num == num - 1;
  }

  /** And so it starts at least min(30*2^0, 3600) + ... + min(30*2^(k-1), 3600) seconds after attempt 1. */
  lemma {:induction false} AttemptsSpacedOut(cfg: Config, tr: Trace, t: Id, first: Id, a: Id, k: nat)
    requires Legal(cfg, tr) && Clocked(tr) && Orphanings(tr, t) == 0 && Retries(tr, t) == 0
    requires IsAttempt(Exec(tr).attempts, t, first, 1) && IsAttempt(Exec(tr).attempts, t, a, k + 1)
    ensures Exec(tr).attempts[a].startedAt >= Exec(tr).attempts[first].startedAt + Waited(k)
    decreases k
  {
    AttemptNumbers(cfg, tr);
    assert NumberedTask(Exec(tr).attempts, t);
    hide Exec, Legal, Clocked, Orphanings, Retries, Backoff.Delay;
    if k == 0 {
      SameNumber(Exec(tr).attempts, t, first, a, 1);
    } else {
      hide NumberedTask;
      var b := EarlierAttempt(Exec(tr).attempts, t, a, k + 1);
      AttemptsSpacedOut(cfg, tr, t, first, b, k - 1);
      ConsecutiveSpacedOut(cfg, tr, t, b, a, k);
    }
  }

  lemma SameNumber(attempts: map<Id, Attempt>, t: Id, a: Id, b: Id, num: int)
    requires NumberedTask(attempts, t) && IsAttempt(attempts, t, a, num) && IsAttempt(attempts, t, b, num)
    ensures a == b
  {
    assert a in AttemptsOf(attempts, t) && b in AttemptsOf(attempts, t);
  }
}
