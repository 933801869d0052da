/** A worker pool on top of the store: its pollers, their heartbeat goroutines, the scanner and all other
    clients, interleaved one store call at a time. */
module Pool {
  import opened Options
  import opened Rows
  import opened Config
  import opened Transitions
  import Backoff
  import opened Soundness
  import opened Limits

  /** Where a poll goroutine is in RunOnce: between calls, running the handler, waiting for the heartbeat
      goroutine that it has cancelled, about to report the outcome, or returned. A goroutine whose context was
      cancelled while it waited for its claim returns without knowing the attempt it has lost. */
  datatype Poller =
    | Polling
    | Executing(attempt: Id)
    | Stopping(attempt: Id)
    | Reporting(attempt: Id)
    | Lost(attempt: Id)
    | Gone

  datatype CallKind = Claimed | Beat | Reported

  datatype Call = Call(attempt: Id, kind: CallKind)

  /** `store` is the run of the store so far, `log` the calls that this pool made about attempts it claimed. */
  datatype State = State(store: Trace, worker: Id, pollers: seq<Poller>, log: seq<Call>)

  datatype Move =
    | Foreign(op: Op)
    | TryClaim(i: nat, queue: string, taskTypes: seq<string>, now: int, chosen: Option<Id>, attemptId: Id)
    | LoseClaim(i: nat, queue: string, taskTypes: seq<string>, now: int, chosen: Option<Id>, attemptId: Id)
    | Tick(i: nat, now: int)
    | HandlerReturns(i: nat)
    | HeartbeatExits(i: nat)
    | Report(i: nat, cancelled: bool, execErr: Option<string>, result: string, now: int)
    | Quit(i: nat)

  /** The pool asks for at least one goroutine, and registers exactly as many as it starts. */
  function Clamp(concurrency: int): nat {
    if concurrency <= 0 then 1 else concurrency
  }

  /** The outcome RunOnce reports: a cancelled parent context first, then the handler's error, then success. */
  function OutcomeOf(cancelled: bool, execErr: Option<string>, result: string): Verdict {
    if cancelled then Abort
    else if execErr.Some? then Failure(execErr.value)
    else Success(result)
  }

  /** Nobody else claims with the pool's worker id. */
  predicate IsForeign(op: Op, w: Id) {
    op.Claim? ==> op.workerId != w
  }

  ghost predicate Can(cfg: Config, s: State, m: Move) {
    match m
    case Foreign(op) => Enabled(cfg, Exec(s.store), op) && IsForeign(op, s.worker)
    case TryClaim(i, queue, types, now, chosen, a) =>
      && i < |s.pollers| && s.pollers[i] == Polling
      && Enabled(cfg, Exec(s.store), Claim(s.worker, queue, types, now, chosen, a))
    case LoseClaim(i, queue, types, now, chosen, a) =>
      && i < |s.pollers| && s.pollers[i] == Polling && chosen.Some?
      && Enabled(cfg, Exec(s.store), Claim(s.worker, queue, types, now, chosen, a))
    case Tick(i, _) => i < |s.pollers| && (s.pollers[i].Executing? || s.pollers[i].Stopping?)
    case HandlerReturns(i) => i < |s.pollers| && s.pollers[i].Executing?
    case HeartbeatExits(i) => i < |s.pollers| && s.pollers[i].Stopping?
    case Report(i, _, _, _, _) => i < |s.pollers| && s.pollers[i].Reporting?
    case Quit(i) => i < |s.pollers| && s.pollers[i] == Polling
  }

  ghost function After(cfg: Config, s: State, m: Move): State
    requires Can(cfg, s, m)
  {
    match m
    case Foreign(op) => s.(store := Step(s.store, op))
    case TryClaim(i, queue, types, now, chosen, a) =>
      var called := s.(store := Step(s.store, Claim(s.worker, queue, types, now, chosen, a)));
      if chosen.None? then called
      else called.(pollers := s.pollers[i := Executing(a)], log := s.log + [Call(a, Claimed)])
    case LoseClaim(i, queue, types, now, chosen, a) =>
      s.(store := Step(s.store, Claim(s.worker, queue, types, now, chosen, a)), pollers := s.pollers[i := Lost(a)])
    case Tick(i, now) =>
      var a := s.pollers[i].attempt;
      s.(store := Step(s.store, Heartbeat(a, now)), log := s.log + [Call(a, Beat)])
    case HandlerReturns(i) => s.(pollers := s.pollers[i := Stopping(s.pollers[i].attempt)])
    case HeartbeatExits(i) => s.(pollers := s.pollers[i := Reporting(s.pollers[i].attempt)])
    case Report(i, cancelled, execErr, result, now) =>
      var a := s.pollers[i].attempt;
      s.(store := Step(s.store, Resolve(a, OutcomeOf(cancelled, execErr, result), now)),
         pollers := s.pollers[i := Polling], log := s.log + [Call(a, Reported)])
    case Quit(i) => s.(pollers := s.pollers[i := Gone])
  }

  datatype Run = NewPool(store: Trace, worker: Id, input: WorkerInput, now: int) | Then(prev: Run, move: Move)

  /** NewPool normalises the concurrency and registers the worker; Start spawns that many pollers. A move
      that is not possible where it stands changes nothing. */
  ghost function At(cfg: Config, run: Run): State {
    match run
    case NewPool(store, w, input, now) =>
      var c := Clamp(input.concurrency);
      State(Step(store, Enroll(w, input.(concurrency := c), now)), w, seq(c, _ => Polling), [])
    case Then(p, m) => if Can(cfg, At(cfg, p), m) then After(cfg, At(cfg, p), m) else At(cfg, p)
  }

  ghost predicate StartsWell(cfg: Config, run: Run) {
    match run
    case NewPool(store, w, _, _) => Legal(cfg, store) && Fresh(Exec(store), w)
    case Then(p, _) => StartsWell(cfg, p)
  }

  // ----- The invariant -----

  predicate Has(p: Poller, a: Id) {
    !p.Polling? && !p.Gone? && p.attempt == a
  }

  predicate Held(pollers: seq<Poller>, a: Id) {
    exists i :: 0 <= i < |pollers| && Has(pollers[i], a)
  }

  /** Some poller knows that it has the attempt. */
  predicate Worked(pollers: seq<Poller>, a: Id) {
    exists i :: 0 <= i < |pollers| && Has(pollers[i], a) && !pollers[i].Lost?
  }

  ghost predicate Apart(pollers: seq<Poller>) {
    forall i, j, a :: 0 <= i < j < |pollers| && Has(pollers[i], a) ==> !Has(pollers[j], a)
  }

  /** Every running attempt that carries the pool's id is in the hands of one of its pollers. */
  ghost predicate LiveHeld(attempts: map<Id, Attempt>, w: Id, pollers: seq<Poller>) {
    && (forall a :: a in LiveOn(attempts, w) ==> Held(pollers, a))
    && (forall a :: Held(pollers, a) ==> a in attempts && attempts[a].workerId == w)
  }

  ghost predicate Registered(db: Db, w: Id, concurrency: int) {
    w != "" && w in db.workers && db.workers[w].concurrency == concurrency
  }

  ghost predicate Inv(cfg: Config, s: State) {
    && Legal(cfg, s.store)
    && Registered(Exec(s.store), s.worker, |s.pollers|)
    && Apart(s.pollers)
    && LiveHeld(Exec(s.store).attempts, s.worker, s.pollers)
  }

  /** No transaction but a claim with the pool's id makes an attempt of it live. */
  lemma LiveOnStep(cfg: Config, db: Db, op: Op, w: Id)
    requires Enabled(cfg, db, op)
    ensures var next := Next(db, op);
            && (forall a :: a in LiveOn(next.attempts, w) ==>
                  || a in LiveOn(db.attempts, w)
                  || (op.Claim? && op.workerId == w && op.chosen.Some? && a == op.attemptId))
            && (forall a :: a in db.attempts ==>
                  a in next.attempts && next.attempts[a].workerId == db.attempts[a].workerId)
  {
  }

  lemma RegisteredStep(cfg: Config, db: Db, op: Op, w: Id, concurrency: int)
    requires Enabled(cfg, db, op) && Registered(db, w, concurrency)
    ensures Registered(Next(db, op), w, concurrency)
  {
  }

  lemma ReportedIsNotLive(db: Db, a: Id, v: Verdict, now: int, w: Id)
    requires Sound(db)
    ensures a !in LiveOn(Next(db, Resolve(a, v, now)).attempts, w)
  {
  }

  lemma SameHands(before: seq<Poller>, after: seq<Poller>)
    requires |before| == |after|
    requires forall i, a :: 0 <= i < |before| ==>
      (Has(before[i], a) <==> Has(after[i], a)) && before[i].Lost? == after[i].Lost?
    ensures Apart(before) ==> Apart(after)
    ensures forall a :: (Held(before, a) <==> Held(after, a)) && (Worked(before, a) <==> Worked(after, a))
  {
    forall a ensures (Held(before, a) <==> Held(after, a)) && (Worked(before, a) <==> Worked(after, a)) {
      forall i | 0 <= i < |before| ensures Has(before[i], a) <==> Has(after[i], a) {
      }
    }
  }

  lemma OneHand(before: seq<Poller>, i: nat, p: Poller)
    requires i < |before| && Apart(before)
    requires forall a :: Has(p, a) ==> !Held(before, a)
    ensures var after := before[i := p];
            && Apart(after)
            && (forall a :: Held(after, a) <==> Has(p, a) || (Held(before, a) && !Has(before[i], a)))
            && (forall a :: Worked(after, a) <==> (Has(p, a) && !p.Lost?) || (Worked(before, a) && !Has(before[i], a)))
  {
    var after := before[i := p];
    forall a
      ensures Held(after, a) <==> Has(p, a) || (Held(before, a) && !Has(before[i], a))
      ensures Worked(after, a) <==> (Has(p, a) && !p.Lost?) || (Worked(before, a) && !Has(before[i], a))
    {
      if Has(p, a) {
        assert Has(after[i], a);
      }
      if j :| 0 <= j < |before| && Has(before[j], a) && j != i {
        assert Has(after[j], a);
      }
    }
  }

  /** A transaction that brings at most `extra` into the pool's live attempts and takes at least `gone` out,
      while the pollers take up exactly `extra` and let go of exactly `gone`, keeps the invariant. */
  lemma InvWith(cfg: Config, s: State, op: Op, pollers: seq<Poller>, log: seq<Call>, extra: set<Id>, gone: set<Id>)
    requires Inv(cfg, s) && Enabled(cfg, Exec(s.store), op)
    requires Apart(pollers) && |pollers| == |s.pollers|
    requires forall a :: Held(pollers, a) <==> a in extra || (Held(s.pollers, a) && a !in gone)
    requires var more := Next(Exec(s.store), op).attempts;
             && (forall a :: a in extra ==> a in more && more[a].workerId == s.worker)
             && (forall a :: a in gone ==> a !in LiveOn(more, s.worker))
             && (op.Claim? && op.workerId == s.worker && op.chosen.Some? ==> op.attemptId in extra)
    ensures Inv(cfg, State(Step(s.store, op), s.worker, pollers, log))
  {
    var db := Exec(s.store);
    RegisteredStep(cfg, db, op, s.worker, |s.pollers|);
    LiveOnStep(cfg, db, op, s.worker);
    hide Next, LiveOn, Registered, Apart, Enabled, Held;
  }

  lemma InvClaim(cfg: Config, s: State, m: Move)
    requires Inv(cfg, s) && Can(cfg, s, m) && ((m.TryClaim? && m.chosen.Some?) || m.LoseClaim?)
    ensures Inv(cfg, After(cfg, s, m))
  {
    var db, next := Exec(s.store), After(cfg, s, m);
    hide Next, LiveOn, Registered, Apart, LiveHeld, Held, Worked, Legal;
    ClaimedExists(cfg, db, next.store.op);
    HeldExists(cfg, s, m.attemptId);
    OneHand(s.pollers, m.i, next.pollers[m.i]);
    InvWith(cfg, s, next.store.op, next.pollers, next.log, {m.attemptId}, {});
  }

  lemma InvReport(cfg: Config, s: State, m: Move)
    requires Inv(cfg, s) && Can(cfg, s, m) && m.Report?
    ensures Inv(cfg, After(cfg, s, m))
  {
    var a, next := s.pollers[m.i].attempt, After(cfg, s, m);
    SoundRun(cfg, s.store);
    hide Next, LiveOn, Registered, Apart, LiveHeld, Held, Worked, Legal;
    ReportedIsNotLive(Exec(s.store), a, OutcomeOf(m.cancelled, m.execErr, m.result), m.now, s.worker);
    OneHand(s.pollers, m.i, Polling);
    InvWith(cfg, s, next.store.op, next.pollers, next.log, {}, {a});
  }

  lemma InvStep(cfg: Config, s: State, m: Move)
    requires Inv(cfg, s) && Can(cfg, s, m)
    ensures Inv(cfg, After(cfg, s, m))
  {
    if (m.TryClaim? && m.chosen.Some?) || m.LoseClaim? {
      InvClaim(cfg, s, m);
    } else if m.Report? {
      InvReport(cfg, s, m);
    } else {
      var next := After(cfg, s, m);
      hide Next, LiveOn, Registered, Apart, LiveHeld, Held, Worked, Legal;
      if m.Foreign? || m.Tick? || m.TryClaim? {
        InvWith(cfg, s, next.store.op, s.pollers, next.log, {}, {});
      } else {
        SameHands(s.pollers, next.pollers);
        LiveHeldSame(Exec(s.store).attempts, s.worker, s.pollers, next.pollers);
      }
    }
  }

  /** How an attempt and its task end, in columns. */
  predicate Ended(row: Attempt, task: TaskStatus, cancelled: bool, execErr: Option<string>, result: string) {
    if cancelled then row.status == AttemptCancelled && task == Cancelled
    else if execErr.Some? then row.status == AttemptFailed && row.error == execErr && task in {Retrying, Dead}
    else row.status == AttemptSucceeded && row.result == Some(result) && task == Succeeded
  }

  /** What reporting does, in columns: a cancelled context comes before the handler's error, and the error before
      the result; an attempt that somebody else has finished is left alone. */
  lemma ReportWrites(cfg: Config, s: State, m: Move)
    requires Inv(cfg, s) && Can(cfg, s, m) && m.Report?
    ensures var a, was, now := s.pollers[m.i].attempt, Exec(s.store), Exec(After(cfg, s, m).store);
            && a in was.attempts && a in now.attempts
            && (was.attempts[a].status != AttemptRunning ==> now == was)
            && (was.attempts[a].status == AttemptRunning ==>
                  var t := was.attempts[a].taskId;
                  t in now.tasks && Ended(now.attempts[a], now.tasks[t].status, m.cancelled, m.execErr, m.result))
  {
    SoundRun(cfg, s.store);
    HandHeld(cfg, s, m.i);
    hide Inv, LiveHeld, OutcomeEvent, Release, Backoff.Delay;
    assert Exec(After(cfg, s, m).store) == Next(Exec(s.store), After(cfg, s, m).store.op);
  }

  /** What a claim that finds a task leaves behind. */
  ghost predicate HasClaimed(s: State, claim: Move, next: State)
    requires claim.TryClaim? && claim.chosen.Some?
  {
    && next.worker == s.worker && next.log == s.log + [Call(claim.attemptId, Claimed)]
    && claim.i < |s.pollers| && next.pollers == s.pollers[claim.i := Executing(claim.attemptId)]
    && var attempts := Exec(next.store).attempts;
    && claim.attemptId in attempts && attempts[claim.attemptId].status == AttemptRunning
    && attempts[claim.attemptId].taskId == claim.chosen.value && attempts[claim.attemptId].workerId == s.worker
  }

  lemma ClaimGoes(cfg: Config, run: Run, claim: Move)
    requires claim.TryClaim? && claim.chosen.Some?
    requires claim.i < |At(cfg, run).pollers| && At(cfg, run).pollers[claim.i] == Polling
    requires Fresh(Exec(At(cfg, run).store), claim.attemptId)
    requires ClaimChoice(cfg, Exec(At(cfg, run).store), claim.queue, claim.taskTypes, claim.now, claim.chosen)
    ensures HasClaimed(At(cfg, run), claim, At(cfg, Then(run, claim)))
  {
    var s := At(cfg, run);
    assert Can(cfg, s, claim);
    hide ClaimChoice, Can;
    assert Exec(After(cfg, s, claim).store) == Next(Exec(s.store), After(cfg, s, claim).store.op);
  }

  /** What is left of a run after its claim, up to the report. */
  function Ending(claimed: Run, i: nat): Run {
    Then(Then(claimed, HandlerReturns(i)), HeartbeatExits(i))
  }

  lemma HandlerGoes(cfg: Config, claimed: Run, i: nat)
    requires i < |At(cfg, claimed).pollers| && At(cfg, claimed).pollers[i].Executing?
    ensures var s := At(cfg, claimed);
            At(cfg, Ending(claimed, i)) == s.(pollers := s.pollers[i := Reporting(s.pollers[i].attempt)])
    ensures StartsWell(cfg, claimed) ==> StartsWell(cfg, Ending(claimed, i))
  {
    var stopped := Then(claimed, HandlerReturns(i));
    assert At(cfg, stopped) == After(cfg, At(cfg, claimed), HandlerReturns(i));
    assert StartsWell(cfg, stopped) == StartsWell(cfg, claimed);
  }

  /** A poller never gets stuck: from every reachable state, whatever a claim by a polling goroutine answers, its own
      moves bring it through one claim and one report back to polling, with the columns that the handler's result
      asks for. */
  lemma PollerRound(cfg: Config, run: Run, claim: Move, report: Move) returns (after: Run)
    requires StartsWell(cfg, run) && claim.TryClaim? && claim.chosen.Some? && report.Report? && claim.i == report.i
    requires claim.i < |At(cfg, run).pollers| && At(cfg, run).pollers[claim.i] == Polling
    requires Fresh(Exec(At(cfg, run).store), claim.attemptId)
    requires ClaimChoice(cfg, Exec(At(cfg, run).store), claim.queue, claim.taskTypes, claim.now, claim.chosen)
    ensures after == Then(Then(Then(Then(run, claim), HandlerReturns(claim.i)), HeartbeatExits(claim.i)), report)
    ensures var s, end, a, t := At(cfg, run), At(cfg, after), claim.attemptId, claim.chosen.value;
            && end.pollers == s.pollers && end.log == s.log + [Call(a, Claimed), Call(a, Reported)]
            && a in Exec(end.store).attempts && t in Exec(end.store).tasks
            && Ended(Exec(end.store).attempts[a], Exec(end.store).tasks[t].status,
                     report.cancelled, report.execErr, report.result)
  {
    var reporting := Ending(Then(run, claim), claim.i);
    after := Then(reporting, report);
    ClaimGoes(cfg, run, claim);
    HandlerGoes(cfg, Then(run, claim), claim.i);
    InvRun(cfg, reporting);
    var s, before := At(cfg, run), At(cfg, reporting);
    hide Inv, StartsWell, Ended, ClaimChoice, Fresh, Exec;
    assert At(cfg, after) == After(cfg, before, report);
    hide At;
    ReportWrites(cfg, before, report);
  }

  lemma HandHeld(cfg: Config, s: State, i: nat)
    requires Inv(cfg, s) && i < |s.pollers| && !s.pollers[i].Polling? && !s.pollers[i].Gone?
    ensures s.pollers[i].attempt in Exec(s.store).attempts
  {
    assert Has(s.pollers[i], s.pollers[i].attempt);
    assert Held(s.pollers, s.pollers[i].attempt);
  }

  /** A pool registers one idle worker with at least one slot, and starts one goroutine for each slot. */
  lemma NewPoolStarts(cfg: Config, store: Trace, w: Id, input: WorkerInput, now: int)
    ensures var s := At(cfg, NewPool(store, w, input, now)); var workers := Exec(s.store).workers;
            && |s.pollers| == (if input.concurrency <= 0 then 1 else input.concurrency)
            && (forall i :: 0 <= i < |s.pollers| ==> s.pollers[i] == Polling)
            && w in workers && workers[w].concurrency == |s.pollers|
            && workers[w].count == 0 && workers[w].status == Idle
            && workers[w].taskTypes == input.taskTypes
            && workers[w].queue == (if input.queue == "" then "default" else input.queue)
  {
  }

  lemma LiveHeldSame(attempts: map<Id, Attempt>, w: Id, before: seq<Poller>, after: seq<Poller>)
    requires LiveHeld(attempts, w, before) && forall a :: Held(before, a) <==> Held(after, a)
    ensures LiveHeld(attempts, w, after)
  {
  }

  lemma ClaimedExists(cfg: Config, db: Db, op: Op)
    requires Enabled(cfg, db, op) && op.Claim? && op.chosen.Some?
    ensures op.attemptId !in db.attempts && op.attemptId in Next(db, op).attempts
    ensures Next(db, op).attempts[op.attemptId].workerId == op.workerId
  {
  }

  lemma InvStart(cfg: Config, store: Trace, w: Id, input: WorkerInput, now: int)
    requires Legal(cfg, store) && Fresh(Exec(store), w)
    ensures Inv(cfg, At(cfg, NewPool(store, w, input, now)))
  {
    var s := At(cfg, NewPool(store, w, input, now));
    forall a ensures !Held(s.pollers, a) {
    }
    NoLoadBeforeBirth(Exec(store), w);
    assert LiveOn(Exec(s.store).attempts, w) == LiveOn(Exec(store).attempts, w);
  }

  lemma {:induction false} InvRun(cfg: Config, run: Run)
    requires StartsWell(cfg, run)
    ensures Inv(cfg, At(cfg, run))
  {
    hide Inv, After;
    match run
    case NewPool(store, w, input, now) => InvStart(cfg, store, w, input, now);
    case Then(p, m) =>
      InvRun(cfg, p);
      if Can(cfg, At(cfg, p), m) {
        hide Can;
        InvStep(cfg, At(cfg, p), m);
      }
  }

  // ----- Capacity -----

  /** A set of attempts all in the hands of pollers is no bigger than the number of pollers. */
  lemma {:induction false} HandsAreEnough(pollers: seq<Poller>, live: set<Id>)
    requires forall a :: a in live ==> Held(pollers, a)
    ensures |live| <= |pollers|
  {
    if pollers == [] {
      assert live == {};
    } else {
      var last, init := pollers[|pollers| - 1], pollers[..|pollers| - 1];
      var rest := if last.Polling? || last.Gone? then live else live - {last.attempt};
      forall a | a in rest ensures Held(init, a) {
        var i :| 0 <= i < |pollers| && Has(pollers[i], a);
        assert i < |init| && Has(init[i], a);
      }
      HandsAreEnough(init, rest);
    }
  }

  /** ClaimTask never checks capacity, yet in every interleaving the pool's recorded task count is the number
      of running attempts that carry its id and stays within the concurrency it registered. */
  lemma CapacityKept(cfg: Config, run: Run)
    requires StartsWell(cfg, run)
    ensures var s := At(cfg, run); var db := Exec(s.store);
            && s.worker in db.workers
            && 0 <= db.workers[s.worker].count == |LiveOn(db.attempts, s.worker)| <= db.workers[s.worker].concurrency
            && db.workers[s.worker].concurrency == |s.pollers|
  {
    InvRun(cfg, run);
    var s := At(cfg, run);
    hide At, Exec, Legal, StartsWell;
    WorkerLoad(cfg, s.store, s.worker);
    HandsAreEnough(s.pollers, LiveOn(Exec(s.store).attempts, s.worker));
  }

  // ----- One outcome for each claim -----

  function CallsOn(log: seq<Call>, a: Id): seq<CallKind> {
    if log == [] then []
    else
      var last := log[|log| - 1];
      CallsOn(log[..|log| - 1], a) + if last.attempt == a then [last.kind] else []
  }

  lemma CallsOnSnoc(log: seq<Call>, c: Call, a: Id)
    ensures CallsOn(log + [c], a) == CallsOn(log, a) + if c.attempt == a then [c.kind] else []
  {
    assert (log + [c])[..|log|] == log;
  }

  /** A claim, then heartbeats, and then, once the poller has let go, one outcome call. */
  predicate LifeOf(calls: seq<CallKind>, held: bool) {
    && calls != [] && calls[0] == Claimed
    && if held then forall k :: 1 <= k < |calls| ==> calls[k] == Beat
       else
         && |calls| >= 2 && calls[|calls| - 1] == Reported
         && forall k :: 1 <= k < |calls| - 1 ==> calls[k] == Beat
  }

  ghost predicate LogOk(s: State, a: Id) {
    var calls := CallsOn(s.log, a);
    && (calls != [] ==> LifeOf(calls, Worked(s.pollers, a)) && a in Exec(s.store).attempts)
    && (Worked(s.pollers, a) ==> calls != [])
  }

  /** A claim opens the life of an attempt that had none; every other call goes on with one. */
  lemma LogCall(s: State, next: State, c: Call, a: Id)
    requires LogOk(s, a) && next.log == s.log + [c] && Exec(s.store).attempts.Keys <= Exec(next.store).attempts.Keys
    requires c.kind == Claimed ==>
      && !Worked(s.pollers, c.attempt)
      && c.attempt !in Exec(s.store).attempts && c.attempt in Exec(next.store).attempts
    requires c.kind != Claimed ==> Worked(s.pollers, c.attempt)
    requires Worked(next.pollers, c.attempt) <==> c.kind != Reported
    requires a != c.attempt ==> (Worked(next.pollers, a) <==> Worked(s.pollers, a))
    ensures LogOk(next, a)
  {
    CallsOnSnoc(s.log, c, a);
    LifeGoesOn(CallsOn(s.log, a));
    hide CallsOn, LifeOf, Worked, Exec;
  }

  lemma LogClaim(cfg: Config, s: State, m: Move, a: Id)
    requires Inv(cfg, s) && Can(cfg, s, m) && ((m.TryClaim? && m.chosen.Some?) || m.LoseClaim?) && LogOk(s, a)
    ensures LogOk(After(cfg, s, m), a)
  {
    var next := After(cfg, s, m);
    RowsStay(Exec(s.store), next.store.op);
    hide Next, CallsOn, Legal, LiveHeld, Held, Worked, Registered, LifeOf;
    HeldExists(cfg, s, m.attemptId);
    ClaimedExists(cfg, Exec(s.store), next.store.op);
    OneHand(s.pollers, m.i, next.pollers[m.i]);
    if m.TryClaim? {
      hide LogOk, Apart;
      LogCall(s, next, Call(m.attemptId, Claimed), a);
    }
  }

  lemma LogReport(cfg: Config, s: State, m: Move, a: Id)
    requires Inv(cfg, s) && Can(cfg, s, m) && m.Report? && LogOk(s, a)
    ensures LogOk(After(cfg, s, m), a)
  {
    var next := After(cfg, s, m);
    RowsStay(Exec(s.store), next.store.op);
    hide Next, CallsOn, Legal, LiveHeld, Held, Worked, Registered, LifeOf, LogOk;
    HandOf(s.pollers, m.i);
    OneHand(s.pollers, m.i, Polling);
    hide Apart;
    LogCall(s, next, Call(s.pollers[m.i].attempt, Reported), a);
  }

  lemma LogStep(cfg: Config, s: State, m: Move, a: Id)
    requires Inv(cfg, s) && Can(cfg, s, m) && LogOk(s, a)
    ensures LogOk(After(cfg, s, m), a)
  {
    if (m.TryClaim? && m.chosen.Some?) || m.LoseClaim? {
      LogClaim(cfg, s, m, a);
    } else if m.Report? {
      LogReport(cfg, s, m, a);
    } else {
      var next := After(cfg, s, m);
      if next.store != s.store {
        RowsStay(Exec(s.store), next.store.op);
      }
      hide Next, CallsOn, Legal, LiveHeld, Held, Worked, Registered, LifeOf, Apart;
      if m.Tick? {
        HandOf(s.pollers, m.i);
        hide LogOk;
        LogCall(s, next, Call(s.pollers[m.i].attempt, Beat), a);
      } else if !m.Foreign? && !m.TryClaim? {
        SameHands(s.pollers, next.pollers);
      }
    }
  }

  lemma LifeGoesOn(calls: seq<CallKind>)
    ensures LifeOf([Claimed], true) && LifeOf([] + [Claimed], true)
    ensures LifeOf(calls, true) ==> LifeOf(calls + [Beat], true) && LifeOf(calls + [Reported], false)
    ensures calls + [] == calls
  {
  }

  lemma HandOf(pollers: seq<Poller>, i: nat)
    requires i < |pollers| && !pollers[i].Polling? && !pollers[i].Gone? && !pollers[i].Lost?
    ensures Worked(pollers, pollers[i].attempt)
  {
    assert Has(pollers[i], pollers[i].attempt);
  }

  lemma HeldExists(cfg: Config, s: State, a: Id)
    requires Inv(cfg, s) && a !in Exec(s.store).attempts
    ensures !Held(s.pollers, a) && !Worked(s.pollers, a)
  {
  }

  lemma {:induction false} LogRun(cfg: Config, run: Run, a: Id)
    requires StartsWell(cfg, run)
    ensures LogOk(At(cfg, run), a)
  {
    hide LogOk, After, Inv;
    match run
    case NewPool(store, w, input, now) =>
      LogStart(cfg, run, a);
    case Then(p, m) =>
      LogRun(cfg, p, a);
      InvRun(cfg, p);
      if Can(cfg, At(cfg, p), m) {
        hide Can;
        LogStep(cfg, At(cfg, p), m, a);
      }
  }

  lemma LogStart(cfg: Config, run: Run, a: Id)
    requires run.NewPool?
    ensures LogOk(At(cfg, run), a)
  {
    assert !Worked(At(cfg, run).pollers, a);
  }

  /** Every claim that RunOnce was given leads to exactly one outcome call, after the last heartbeat: while a
      poller still has the attempt there have only been heartbeats, and when none has it there was one report. */
  lemma OneReportPerClaim(cfg: Config, run: Run, a: Id)
    requires StartsWell(cfg, run) && CallsOn(At(cfg, run).log, a) != []
    ensures LifeOf(CallsOn(At(cfg, run).log, a), Worked(At(cfg, run).pollers, a))
  {
    LogRun(cfg, run, a);
    hide At, CallsOn, StartsWell;
  }
}
