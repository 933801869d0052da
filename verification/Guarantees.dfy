/** What a client of a store object may rely on at any time, whatever calls were made on it before. */
module Guarantees {
  import opened Rows
  import opened Config
  import opened Transitions
  import Lanes
  import Ledger
  import Limits
  import Replay
  import Soundness
  import TaskStore

  /** Limits, worker load, attempt numbers and the event log, read off the fields of a store. */
  lemma EveryStore(s: TaskStore.Store, scope: Scope, w: Id, a: Id)
    requires s.Valid()
    ensures s.cfg.Valid() ==> Limits.WithinLimit(s.cfg, s.tasks, scope)
    ensures Limits.LoadMatches(s.Tables(), w)
    ensures Soundness.Numbered(s.attempts)
    ensures Replay.TellsStory(s.attempts, a, Replay.Story(s.events, a))
  {
    var tr := s.history;
    hide Exec, Legal;
    hide Limits.WithinLimit, Limits.LoadMatches, Soundness.Numbered, Replay.TellsStory, Replay.Story;
    if s.cfg.Valid() {
      Limits.LimitsHold(s.cfg, tr, scope);
    }
    Limits.WorkerLoad(s.cfg, tr, w);
    Soundness.AttemptNumbers(s.cfg, tr);
    Replay.AttemptStories(s.cfg, tr, a);
  }

  /** How many attempts of a task of a store were made. */
  lemma EveryTask(s: TaskStore.Store, t: Id)
    requires s.Valid() && t in s.tasks
    ensures 0 <= s.tasks[t].retryCount <= Soundness.Cap(s.tasks[t])
    ensures |AttemptsOf(s.attempts, t)| <=
            (Soundness.Cap(s.tasks[t]) + 1) * (1 + Lanes.Retries(s.history, t)) + Lanes.Resumes(s.history, t)
  {
    Lanes.AttemptBudget(s.cfg, s.history, t);
    hide Exec, Legal, AttemptsOf, Soundness.Cap, Lanes.Retries, Lanes.Resumes;
  }

  /** The log rebuilds each task of a store, the newest attempt of a running or halted one is running, and how
      many others can be. */
  lemma EveryLog(s: TaskStore.Store, t: Id)
    requires s.Valid() && t in s.tasks
    ensures Replay.Agrees(Replay.Replayed(s.events, t), s.tasks[t])
    ensures s.tasks[t].status in {Running, Halted} ==> Lanes.TopRuns(s.attempts, t)
    ensures |LiveOf(s.attempts, t)| <= Lanes.Holds(s.tasks[t].status) + Lanes.Orphanings(s.history, t)
  {
    var tr := s.history;
    hide Exec, Legal, Replay.Agrees, Replay.Replayed, Lanes.TopRuns;
    Replay.ReplayRebuilds(s.cfg, tr, t);
    Lanes.LiveAttempts(s.cfg, tr, t);
    hide LiveOf, AttemptsOf, Lanes.Holds, Lanes.Orphanings;
    if s.tasks[t].status in {Running, Halted} {
      Lanes.LatestAttemptRuns(s.cfg, tr, t);
    }
  }

  /** The same limits, and what the columns of an attempt say about the calls made, over columns alone. */
  lemma EveryColumn(s: TaskStore.Store, a: Id)
    requires s.Valid()
    ensures s.cfg.Valid() ==>
      && |Ledger.RunningTasks(s.tasks)| <= s.cfg.global
      && (forall q :: q in s.cfg.queues && s.cfg.queues[q] > 0 ==>
            |Ledger.RunningOfQueue(s.tasks, q)| <= s.cfg.queues[q])
      && (forall y :: y in s.cfg.taskTypes && s.cfg.taskTypes[y] > 0 ==>
            |Ledger.RunningOfType(s.tasks, y)| <= s.cfg.taskTypes[y])
    ensures a in s.attempts ==>
      && Ledger.Records(s.attempts[a], Ledger.Reported(s.history, a))
      && Ledger.HeardAt(s.attempts[a], Ledger.Heard(s.history, a))
  {
    hide Exec, Legal, Ledger.RunningTasks, Ledger.RunningOfQueue, Ledger.RunningOfType, Ledger.Reported, Ledger.Heard;
    if s.cfg.Valid() {
      Ledger.RunningWithinLimits(s.cfg, s.history);
    }
    if a in s.attempts {
      Ledger.OutcomeRecorded(s.cfg, s.history, a);
      Ledger.LastHeard(s.cfg, s.history, a);
    }
  }
}
