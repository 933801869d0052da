/** RunOnce as one goroutine executes it: claim, heartbeats while the handler runs, one outcome. Pool has the
    same calls interleaved with everybody else's. */
module Runner {
  import opened Options
  import opened Rows
  import opened Transitions
  import Pool
  import TaskStore

  /** The run after the heartbeats of one attempt at the given times. */
  ghost function Beaten(tr: Trace, a: Id, beats: seq<int>): Trace {
    if beats == [] then tr
    else Step(Beaten(tr, a, beats[..|beats| - 1]), Heartbeat(a, beats[|beats| - 1]))
  }

  /** The claim, the heartbeats and the outcome of one attempt, in that order and with nothing else. */
  ghost function Life(tr: Trace, claim: Op, beats: seq<int>, v: Verdict, at: int): Trace
    requires claim.Claim?
  {
    Step(Beaten(Step(tr, claim), claim.attemptId, beats), Resolve(claim.attemptId, v, at))
  }

  /** Heartbeats touch nothing but the heartbeat time. */
  lemma {:induction false} BeatsChangeLittle(tr: Trace, a: Id, beats: seq<int>)
    requires a in Exec(tr).attempts && Exec(tr).attempts[a].status == AttemptRunning
    ensures var db, next := Exec(tr), Exec(Beaten(tr, a, beats));
            && next.tasks == db.tasks && next.workers == db.workers && next.events == db.events
            && a in next.attempts && next.attempts[a].(heartbeatAt := db.attempts[a].heartbeatAt) == db.attempts[a]
  {
    if beats != [] {
      BeatsChangeLittle(tr, a, beats[..|beats| - 1]);
    }
  }

  /** The outcome switch: a cancelled context comes before the handler's error, and the error before the result. */
  method Report(store: TaskStore.Store, a: Id, cancelled: bool, execErr: Option<string>, result: string, at: int)
    returns (got: bool, err: bool)
    requires store.Valid() && a in store.attempts && store.attempts[a].status == AttemptRunning
    modifies store
    ensures store.Valid() && got == !cancelled && err == cancelled
    ensures store.history == Step(old(store.history), Resolve(a, Pool.OutcomeOf(cancelled, execErr, result), at))
    ensures var t := old(store.attempts)[a].taskId;
            && t in old(store.tasks) && t in store.tasks && |store.events| == |old(store.events)| + 1
            && store.tasks[t] == SettledTask(old(store.tasks)[t], Pool.OutcomeOf(cancelled, execErr, result), at)
            && a in store.attempts && Pool.Ended(store.attempts[a], store.tasks[t].status, cancelled, execErr, result)
  {
    hide Exec, Legal;
    if cancelled {
      var r := store.CancelAttempt(a, at);
      return false, true;
    } else if execErr.Some? {
      var r := store.FailAttempt(a, execErr.value, at);
      return r == Pass, r != Pass;
    } else {
      var r := store.SucceedAttempt(a, result, at);
      return r == Pass, r != Pass;
    }
  }

  /** What a worker does when nobody else calls the store meanwhile: it makes one claim, its heartbeats and one
      outcome call, and the task settles as the handler's result says. `got` is false without an error when
      there was nothing to claim, and false with one when the parent context was cancelled.
      `result` and `execErr` are what the handler returns, `beats` when the heartbeat ticker fired. */
  method RunOnce(store: TaskStore.Store, workerId: Id, queue: string, taskTypes: seq<string>, now: int, attemptId: Id,
                 beats: seq<int>, cancelled: bool, execErr: Option<string>, result: string, at: int)
    returns (got: bool, err: bool, ghost claimed: Option<Id>)
    requires store.Valid() && Fresh(store.Tables(), attemptId)
    modifies store
    ensures store.Valid() && ClaimChoice(store.cfg, old(store.Tables()), queue, taskTypes, now, claimed)
    ensures claimed.None? ==> !got && !err && store.Tables() == old(store.Tables())
    ensures claimed.Some? ==>
      var v := Pool.OutcomeOf(cancelled, execErr, result);
      && got == !cancelled && err == cancelled
      && store.history ==
           Life(old(store.history), Claim(workerId, queue, taskTypes, now, claimed, attemptId), beats, v, at)
      && claimed.value in old(store.tasks) && claimed.value in store.tasks
      && store.tasks[claimed.value] ==
           SettledTask(old(store.tasks)[claimed.value].(status := Running, updatedAt := now), v, at)
      && |store.events| == |old(store.events)| + 2
    ensures claimed.Some? && cancelled ==>
      && attemptId in store.attempts && store.attempts[attemptId].status == AttemptCancelled
      && claimed.value in store.tasks && store.tasks[claimed.value].status == Cancelled
    ensures claimed.Some? && !cancelled && execErr.Some? ==>
      && attemptId in store.attempts && store.attempts[attemptId].status == AttemptFailed
      && store.attempts[attemptId].error == execErr
      && claimed.value in store.tasks && store.tasks[claimed.value].status in {Retrying, Dead}
    ensures claimed.Some? && !cancelled && execErr.None? ==>
      && attemptId in store.attempts && store.attempts[attemptId].status == AttemptSucceeded
      && store.attempts[attemptId].result == Some(result)
      && claimed.value in store.tasks && store.tasks[claimed.value].status == Succeeded
  {
    if |taskTypes| == 0 {
      TaskStore.NoTypesNoClaim(store.cfg, store.Tables(), queue, now);
      return false, false, None;
    }
    var task := store.ClaimTask(workerId, queue, taskTypes, now, attemptId);
    claimed := task;
    if task.None? {
      return false, false, None;
    }
    hide ClaimChoice, MaxNum, Occupy, Legal;
    ghost var start, row := store.history, store.tasks[task.value];
    for i := 0 to |beats|
      invariant store.Valid() && store.history == Beaten(start, attemptId, beats[..i])
    {
      assert beats[..i + 1][..i] == beats[..i];
      store.UpdateHeartbeat(attemptId, beats[i]);
    }
    assert beats[..|beats|] == beats;
    BeatsChangeLittle(start, attemptId, beats);
    hide FinishedAttempt, Beaten, Exec;
    got, err := Report(store, attemptId, cancelled, execErr, result, at);
  }
}
