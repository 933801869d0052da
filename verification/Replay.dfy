/** The event log as a record: a task's row can be rebuilt from its events, and an attempt's life is
    exactly one started event, then exactly one outcome event. */
module Replay {
  import opened Options
  import opened Rows
  import opened Config
  import opened Transitions
  import opened Soundness

  // ----- Rebuilding a task from its events -----

  datatype Shadow = Unborn | Shadow(status: TaskStatus, retries: int)

  /** How a reader of the log interprets one event of a task. A queued event right after a halted one is a
      resume and keeps the retry count; any other later queued event resets it. */
  function Absorb(s: Shadow, e: Event): Shadow {
    var kept := if s.Unborn? then 0 else s.retries;
    match e.kind
    case EventQueued => Shadow(Queued, if s.Shadow? && s.status == Halted then kept else 0)
    case EventStarted => Shadow(Running, kept)
    case EventSucceeded => Shadow(Succeeded, kept)
    case EventDead => Shadow(Dead, kept)
    case EventHalted => Shadow(Halted, kept)
    case EventCancelled => Shadow(Cancelled, kept)
    case _ => if e.retryCount.Some? then Shadow(Retrying, e.retryCount.value) else Shadow(Dead, kept)
  }

  function Replayed(events: seq<Event>, t: Id): Shadow {
    if events == [] then Unborn
    else
      var e := events[|events| - 1];
      var before := Replayed(events[..|events| - 1], t);
      if e.taskId == t then Absorb(before, e) else before
  }

  /** The retry count is exact; the status is exact up to the two moves that write no event,
      retrying to queued and anything restartable to superseded. */
  predicate Agrees(s: Shadow, row: Task) {
    && s.Shadow?
    && s.retries == row.retryCount
    && (|| row.status == s.status
        || (row.status == Queued && s.status == Retrying)
        || (row.status == Superseded && s.status !in {Running, Superseded}))
  }

  lemma ReplayedSnoc(events: seq<Event>, e: Event, t: Id)
    ensures Replayed(events + [e], t) ==
            if e.taskId == t then Absorb(Replayed(events, t), e) else Replayed(events, t)
  {
    assert (events + [e])[..|events|] == events;
  }

  lemma {:induction false} ReplayedOther(events: seq<Event>, t: Id)
    requires forall e :: e in events ==> e.taskId != t
    ensures Replayed(events, t) == Unborn
  {
    if events != [] {
      ReplayedOther(events[..|events| - 1], t);
    }
  }

  lemma ReplayResolve(db: Db, a: Id, v: Verdict, now: int, t: Id)
    requires Sound(db) && t in db.tasks && Agrees(Replayed(db.events, t), db.tasks[t])
    ensures t in Next(db, Resolve(a, v, now)).tasks
    ensures Agrees(Replayed(Next(db, Resolve(a, v, now)).events, t), Next(db, Resolve(a, v, now)).tasks[t])
  {
    hide Replayed;
    if a in db.attempts && db.attempts[a].status == AttemptRunning {
      var u := db.attempts[a].taskId;
      ReplayedSnoc(db.events, OutcomeEvent(u, db.tasks[u], a, v, now), t);
    }
  }

  lemma ReplayControl(db: Db, id: Id, action: Action, now: int, t: Id)
    requires t in db.tasks && Agrees(Replayed(db.events, t), db.tasks[t])
    ensures t in Next(db, Control(id, action, now)).tasks
    ensures Agrees(Replayed(Next(db, Control(id, action, now)).events, t), Next(db, Control(id, action, now)).tasks[t])
  {
    hide Replayed;
    ReplayedSnoc(db.events, Plain(id, ActionEvent(action), now), t);
  }

  lemma ReplayStep(cfg: Config, db: Db, op: Op, t: Id)
    requires Sound(db) && Enabled(cfg, db, op) && t in Next(db, op).tasks
    requires t in db.tasks ==> Agrees(Replayed(db.events, t), db.tasks[t])
    ensures Agrees(Replayed(Next(db, op).events, t), Next(db, op).tasks[t])
  {
    hide Replayed, AtLimit;
    if t !in db.tasks {
      ReplayedOther(db.events, t);
    }
    match op
    case Create(id, _, now) => ReplayedSnoc(db.events, Plain(id, EventQueued, now), t);
    case Claim(_, _, _, now, chosen, a) =>
      if chosen.Some? {
        ReplayedSnoc(db.events, Event(chosen.value, EventStarted, Some(a), None, None, now), t);
      }
    case Resolve(a, v, now) => ReplayResolve(db, a, v, now, t);
    case Control(id, action, now) => ReplayControl(db, id, action, now, t);
    case Restart(_, newId, now) => ReplayedSnoc(db.events, Plain(newId, EventQueued, now), t);
    case _ =>
  }

  /** In every run the log rebuilds every task: its retry count exactly, its status up to the silent moves. */
  lemma {:induction false} ReplayRebuilds(cfg: Config, tr: Trace, t: Id)
    requires Legal(cfg, tr) && t in Exec(tr).tasks
    ensures Agrees(Replayed(Exec(tr).events, t), Exec(tr).tasks[t])
  {
    hide Next, Agrees, Replayed, Sound, Enabled;
    match tr
    case Init =>
    case Step(p, op) =>
      SoundRun(cfg, p);
      if t in Exec(p).tasks {
        ReplayRebuilds(cfg, p, t);
      }
      ReplayStep(cfg, Exec(p), op, t);
  }

  // ----- The life of an attempt -----

  function Story(events: seq<Event>, a: Id): seq<Event> {
    if events == [] then []
    else
      var e := events[|events| - 1];
      Story(events[..|events| - 1], a) + if e.attemptId == Some(a) then [e] else []
  }

  lemma StorySnoc(events: seq<Event>, e: Event, a: Id)
    ensures Story(events + [e], a) == Story(events, a) + if e.attemptId == Some(a) then [e] else []
  {
    assert (events + [e])[..|events|] == events;
  }

  lemma {:induction false} StoryOther(events: seq<Event>, a: Id)
    requires forall e :: e in events ==> e.attemptId != Some(a)
    ensures Story(events, a) == []
  {
    if events != [] {
      StoryOther(events[..|events| - 1], a);
    }
  }

  predicate Started(e: Event, row: Attempt) {
    e.kind == EventStarted && e.taskId == row.taskId && e.createdAt == row.startedAt
  }

  predicate Ended(e: Event, row: Attempt) {
    && row.finishedAt == Some(e.createdAt)
    && e.taskId == row.taskId
    && e.error == row.error
    && match row.status
       case AttemptRunning => false
       case AttemptSucceeded => e.kind == EventSucceeded
       case AttemptFailed => e.kind in {EventRetrying, EventDead, EventHeartbeatTimeout}
       case AttemptCancelled => e.kind == EventCancelled
  }

  ghost predicate TellsStory(attempts: map<Id, Attempt>, a: Id, story: seq<Event>) {
    if a !in attempts then story == []
    else if attempts[a].status == AttemptRunning then
      attempts[a].error == None && |story| == 1 && Started(story[0], attempts[a])
    else |story| == 2 && Started(story[0], attempts[a]) && Ended(story[1], attempts[a])
  }

  lemma StoryStep(cfg: Config, db: Db, op: Op, a: Id)
    requires Sound(db) && Enabled(cfg, db, op)
    requires TellsStory(db.attempts, a, Story(db.events, a))
    ensures TellsStory(Next(db, op).attempts, a, Story(Next(db, op).events, a))
  {
    hide Story, AtLimit, SettledTask, Retriable, Controlled, Occupy, Release, MaxNum, RetriesBounded;
    var next := Next(db, op);
    if next.events != db.events {
      var e := next.events[|next.events| - 1];
      assert next.events == db.events + [e];
      StorySnoc(db.events, e, a);
    }
  }

  /** In every run each attempt has exactly one started event and, exactly when it is finished, one
      outcome event of the matching kind, with the matching times and error. */
  lemma {:induction false} AttemptStories(cfg: Config, tr: Trace, a: Id)
    requires Legal(cfg, tr)
    ensures TellsStory(Exec(tr).attempts, a, Story(Exec(tr).events, a))
  {
    hide Next, Sound, Enabled;
    match tr
    case Init =>
    case Step(p, op) =>
      SoundRun(cfg, p);
      AttemptStories(cfg, p, a);
      StoryStep(cfg, Exec(p), op, a);
  }

  // ----- Races for one attempt -----

  ghost predicate TakesEffect(db: Db, op: Op, a: Id) {
    op.Resolve? && op.attemptId == a && ResolveTx(db, a, op.verdict, op.now).Ok?
  }

  /** How many outcome calls on an attempt took effect. */
  ghost function Outcomes(tr: Trace, a: Id): nat {
    match tr
    case Init => 0
    case Step(p, op) => Outcomes(p, a) + if TakesEffect(Exec(p), op, a) then 1 else 0
  }

  lemma OutcomeStep(cfg: Config, db: Db, op: Op, a: Id)
    requires Enabled(cfg, db, op) && a in db.attempts
    ensures a in Next(db, op).attempts
    ensures db.attempts[a].status != AttemptRunning ==> Next(db, op).attempts[a] == db.attempts[a]
    ensures TakesEffect(db, op, a) <==>
            db.attempts[a].status == AttemptRunning && Next(db, op).attempts[a].status != AttemptRunning
    ensures op.Resolve? && op.attemptId == a && !TakesEffect(db, op, a) ==> Next(db, op) == db
  {
  }

  /** However many succeed, fail, cancel and timeout calls race for an attempt, in whatever order and
      with whatever else between them, one takes effect if the attempt ever finishes, and none otherwise. */
  lemma {:induction false} OneOutcome(cfg: Config, tr: Trace, a: Id)
    requires Legal(cfg, tr)
    ensures var attempts := Exec(tr).attempts;
            Outcomes(tr, a) == if a in attempts && attempts[a].status != AttemptRunning then 1 else 0
  {
    hide Sound;
    match tr
    case Init =>
    case Step(p, op) =>
      OneOutcome(cfg, p, a);
      if a in Exec(p).attempts {
        OutcomeStep(cfg, Exec(p), op, a);
        hide Next;
      }
  }

  /** Whatever other writers do before, between and after: once the scanner has called a timeout on an attempt
      that exists, refused or not, the attempt is finished and stays as it then was. */
  lemma TimeoutSettles(cfg: Config, tr: Trace, before: Trace, a: Id, now: int)
    requires Legal(cfg, tr) && Legal(cfg, before) && Extends(tr, Step(before, Resolve(a, Lapse, now)))
    requires a in Exec(before).attempts
    ensures var settled := Exec(Step(before, Resolve(a, Lapse, now))).attempts;
            && a in settled && settled[a].status != AttemptRunning
            && a in Exec(tr).attempts && Exec(tr).attempts[a] == settled[a]
  {
    SoundRun(cfg, before);
    FinishedStaysFrozen(cfg, tr, Step(before, Resolve(a, Lapse, now)), a);
  }

  /** Once an attempt has finished, its row is frozen in every continuation of the run. */
  lemma {:induction false} FinishedStaysFrozen(cfg: Config, tr: Trace, base: Trace, a: Id)
    requires Legal(cfg, tr) && Extends(tr, base)
    requires a in Exec(base).attempts && Exec(base).attempts[a].status != AttemptRunning
    ensures a in Exec(tr).attempts && Exec(tr).attempts[a] == Exec(base).attempts[a]
  {
    hide Next;
    if tr != base {
      FinishedStaysFrozen(cfg, tr.prev, base, a);
      OutcomeStep(cfg, Exec(tr.prev), tr.op, a);
    }
  }
}
