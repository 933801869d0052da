/** Restarts replace, they do not multiply: without orphanings every restart lineage is a finite chain
    with one head that is not superseded, and there are as many heads as tasks were submitted. */
module Lineage {
  import opened Options
  import opened Rows
  import opened Config
  import opened Transitions
  import opened Soundness
  import opened Lanes

  ghost predicate OrphanFree(tr: Trace) {
    forall t :: Orphanings(tr, t) == 0
  }

  ghost predicate Restarts(db: Db, op: Op) {
    op.Restart? && op.id in db.tasks && Restartable(db.tasks[op.id].status)
  }

  /** The restarts that took effect, as pairs of superseded task and replacement. */
  ghost function Edges(tr: Trace): set<(Id, Id)> {
    match tr
    case Init => {}
    case Step(p, op) => Edges(p) + if Restarts(Exec(p), op) then {(op.id, op.newId)} else {}
  }

  ghost function Creates(tr: Trace): nat {
    match tr
    case Init => 0
    case Step(p, op) => Creates(p) + if op.Create? then 1 else 0
  }

  ghost function Standing(tasks: map<Id, Task>): set<Id> {
    set t | t in tasks && tasks[t].status != Superseded
  }

  /** Everything a restart copies. */
  predicate SameWork(a: Task, b: Task) {
    && a.typ == b.typ && a.queue == b.queue && a.payload == b.payload && a.priority == b.priority
    && a.maxRetries == b.maxRetries && a.timeoutSecs == b.timeoutSecs && a.scheduleId == b.scheduleId
  }

  // ----- One step -----

  lemma SupersededHasNoLive(cfg: Config, tr: Trace, a: Id)
    requires Legal(cfg, tr) && OrphanFree(tr) && a in Exec(tr).attempts && Exec(tr).attempts[a].status == AttemptRunning
    ensures Exec(tr).attempts[a].taskId in Exec(tr).tasks
    ensures Exec(tr).tasks[Exec(tr).attempts[a].taskId].status in {Running, Halted}
  {
    SoundRun(cfg, tr);
    var t := Exec(tr).attempts[a].taskId;
    SomeLive(Exec(tr).attempts, a, t);
    hide Exec, Legal, LiveOf, AttemptsOf;
    assert Orphanings(tr, t) == 0;
    LiveAttempts(cfg, tr, t);
  }

  ghost predicate OnlyStandingResolve(db: Db) {
    forall a :: a in db.attempts && db.attempts[a].status == AttemptRunning ==>
      db.attempts[a].taskId in db.tasks && db.tasks[db.attempts[a].taskId].status in {Running, Halted}
  }

  /** The task that a transaction revives: the superseded one whose attempt reports late. */
  ghost function Back(db: Db, op: Op): set<Id> {
    if op.Resolve? && op.attemptId in db.attempts && db.attempts[op.attemptId].status == AttemptRunning
       && db.attempts[op.attemptId].taskId in db.tasks
       && db.tasks[db.attempts[op.attemptId].taskId].status == Superseded
    then {db.attempts[op.attemptId].taskId}
    else {}
  }

  /** Only a late outcome brings a superseded row back, and what a restart copies never changes. */
  lemma TaskStep(cfg: Config, db: Db, op: Op, t: Id)
    requires Enabled(cfg, db, op) && t in db.tasks
    ensures t in Next(db, op).tasks
    ensures SameIdentity(Next(db, op).tasks[t], db.tasks[t])
    ensures Next(db, op).tasks[t].status == Superseded <==>
            (db.tasks[t].status == Superseded && t !in Back(db, op)) || (Restarts(db, op) && op.id == t)
  {
    IdentityStep(cfg, db, op, t);
    hide MaxNum, Occupy, Release, FinishedAttempt, OutcomeEvent, AtLimit, SameIdentity;
  }

  lemma NoneBack(db: Db, op: Op)
    requires OnlyStandingResolve(db)
    ensures Back(db, op) == {}
  {
  }

  lemma TaskCount(cfg: Config, db: Db, op: Op)
    requires Enabled(cfg, db, op)
    ensures op.Create? ==> op.id !in db.tasks && Next(db, op).tasks.Keys == db.tasks.Keys + {op.id}
    ensures Restarts(db, op) ==> op.newId !in db.tasks && Next(db, op).tasks.Keys == db.tasks.Keys + {op.newId}
    ensures !op.Create? && !Restarts(db, op) ==> Next(db, op).tasks.Keys == db.tasks.Keys
  {
  }

  lemma NewbornStands(cfg: Config, db: Db, op: Op, t: Id)
    requires Enabled(cfg, db, op) && t !in db.tasks && t in Next(db, op).tasks
    ensures Next(db, op).tasks[t].status == Queued
  {
  }

  lemma StandingShift(tasks: map<Id, Task>, more: map<Id, Task>, gone: set<Id>, born: set<Id>, back: set<Id>)
    requires more.Keys == tasks.Keys + born && born !! tasks.Keys && gone <= Standing(tasks)
    requires back <= tasks.Keys - Standing(tasks)
    requires forall t :: t in more ==>
      (more[t].status == Superseded <==> t in tasks && ((tasks[t].status == Superseded && t !in back) || t in gone))
    ensures |Standing(more)| == |Standing(tasks)| - |gone| + |born| + |back|
  {
    assert Standing(more) == (Standing(tasks) - gone) + born + back;
    assert born !! Standing(tasks) && born !! back;
    hide Standing;
    ShiftSize(Standing(tasks), gone, born, back);
  }

  lemma ShiftSize(s: set<Id>, gone: set<Id>, born: set<Id>, back: set<Id>)
    requires gone <= s && born !! s && back !! s && born !! back
    ensures |(s - gone) + born + back| == |s| - |gone| + |born| + |back|
  {
    assert |s - gone| == |s| - |gone|;
    assert |(s - gone) + born| == |s - gone| + |born|;
  }

  /** The task that a transaction supersedes, and the one that it inserts. */
  ghost function Gone(db: Db, op: Op): set<Id> {
    if Restarts(db, op) then {op.id} else {}
  }

  ghost function Born(db: Db, op: Op): set<Id> {
    if op.Create? then {op.id} else if Restarts(db, op) then {op.newId} else {}
  }

  lemma Replaces(cfg: Config, db: Db, op: Op)
    requires Enabled(cfg, db, op)
    ensures Next(db, op).tasks.Keys == db.tasks.Keys + Born(db, op) && Born(db, op) !! db.tasks.Keys
    ensures Gone(db, op) <= Standing(db.tasks)
    ensures |Born(db, op)| - |Gone(db, op)| == if op.Create? then 1 else 0
  {
    TaskCount(cfg, db, op);
    hide Next, Enabled;
  }

  lemma WhoIsSuperseded(cfg: Config, db: Db, op: Op)
    requires Enabled(cfg, db, op)
    ensures var next := Next(db, op);
            forall t :: t in next.tasks ==>
              (next.tasks[t].status == Superseded <==>
               t in db.tasks && ((db.tasks[t].status == Superseded && t !in Back(db, op)) || t in Gone(db, op)))
  {
    hide Next, Enabled, Back;
    var next := Next(db, op);
    forall t | t in next.tasks
      ensures next.tasks[t].status == Superseded <==>
              t in db.tasks && ((db.tasks[t].status == Superseded && t !in Back(db, op)) || t in Gone(db, op))
    {
      if t in db.tasks {
        TaskStep(cfg, db, op, t);
      } else {
        NewbornStands(cfg, db, op, t);
      }
    }
  }

  lemma BackWasDown(db: Db, op: Op)
    ensures Back(db, op) <= db.tasks.Keys - Standing(db.tasks)
  {
  }

  lemma StandingStep(cfg: Config, db: Db, op: Op)
    requires Enabled(cfg, db, op)
    ensures |Standing(Next(db, op).tasks)| == |Standing(db.tasks)| + (if op.Create? then 1 else 0) + |Back(db, op)|
  {
    Replaces(cfg, db, op);
    WhoIsSuperseded(cfg, db, op);
    BackWasDown(db, op);
    hide Next, Enabled, Standing, Gone, Born, Back;
    StandingShift(db.tasks, Next(db, op).tasks, Gone(db, op), Born(db, op), Back(db, op));
  }

  lemma OrphanFreePrefix(tr: Trace)
    requires OrphanFree(tr) && tr.Step?
    ensures OrphanFree(tr.prev)
  {
    forall t ensures Orphanings(tr.prev, t) == 0 {
      assert Orphanings(tr, t) == 0;
    }
  }

  lemma StandingResolves(cfg: Config, tr: Trace)
    requires Legal(cfg, tr) && OrphanFree(tr)
    ensures OnlyStandingResolve(Exec(tr))
  {
    forall a | a in Exec(tr).attempts && Exec(tr).attempts[a].status == AttemptRunning
      ensures Exec(tr).attempts[a].taskId in Exec(tr).tasks
      ensures Exec(tr).tasks[Exec(tr).attempts[a].taskId].status in {Running, Halted}
    {
      SupersededHasNoLive(cfg, tr, a);
    }
  }

  // ----- Whole runs -----

  /** How often an outcome reported late revived a superseded task. */
  ghost function Revivals(tr: Trace): nat {
    match tr
    case Init => 0
    case Step(p, op) => Revivals(p) + |Back(Exec(p), op)|
  }

  /** Conservation, in every run: the tasks that are not superseded number exactly the CreateTask commits and
      the revivals. */
  lemma {:induction false} StandingCount(cfg: Config, tr: Trace)
    requires Legal(cfg, tr)
    ensures |Standing(Exec(tr).tasks)| == Creates(tr) + Revivals(tr)
  {
    hide Next, Enabled, Back;
    match tr
    case Init =>
      assert Standing(map[]) == {};
    case Step(p, op) =>
      StandingCount(cfg, p);
      StandingStep(cfg, Exec(p), op);
  }

  lemma {:induction false} NoRevivals(cfg: Config, tr: Trace)
    requires Legal(cfg, tr) && OrphanFree(tr)
    ensures Revivals(tr) == 0
  {
    hide Next, Enabled, OnlyStandingResolve, OrphanFree, Back;
    match tr
    case Init =>
    case Step(p, op) =>
      OrphanFreePrefix(tr);
      NoRevivals(cfg, p);
      StandingResolves(cfg, p);
      NoneBack(Exec(p), op);
  }

  /** Without orphanings nothing is revived, and restarts only replace. */
  lemma StandingCountExact(cfg: Config, tr: Trace)
    requires Legal(cfg, tr) && OrphanFree(tr)
    ensures |Standing(Exec(tr).tasks)| == Creates(tr)
  {
    StandingCount(cfg, tr);
    NoRevivals(cfg, tr);
    hide Exec, Legal, OrphanFree;
  }

  lemma MoveKeepsSuperseded(l: Lane, m: Move)
    requires Can(l, m) && l.live == 0 && l.status == Superseded
    ensures Moved(l, m) == l
  {
  }

  /** A superseded task none of whose attempts runs is left alone for good. */
  lemma {:induction false} SupersededStays(cfg: Config, tr: Trace, base: Trace, t: Id)
    requires Legal(cfg, tr) && Extends(tr, base)
    requires t in Exec(base).tasks && Exec(base).tasks[t].status == Superseded && LaneOf(Exec(base), t).live == 0
    ensures t in Exec(tr).tasks && LaneOf(Exec(tr), t) == LaneOf(Exec(base), t)
  {
    hide Next, Enabled, LaneOf, Sound;
    if tr != base {
      SupersededStays(cfg, tr.prev, base, t);
      SoundRun(cfg, tr.prev);
      LaneStep(cfg, Exec(tr.prev), tr.op, t);
      StatusOfLane(Exec(tr.prev), t);
      StatusOfLane(Exec(base), t);
      MoveKeepsSuperseded(LaneOf(Exec(tr.prev), t), MoveOf(Exec(tr.prev), tr.op, t));
    }
  }

  lemma StatusOfLane(db: Db, t: Id)
    requires t in db.tasks
    ensures LaneOf(db, t).status == db.tasks[t].status
  {
  }

  ghost predicate IsSuperseded(tr: Trace, t: Id) {
    t in Exec(tr).tasks && Exec(tr).tasks[t].status == Superseded
  }

  /** Superseded is absorbing exactly when no attempt of the task runs: then every continuation leaves it
      superseded, and otherwise some continuation revives it, by an outcome reported late. */
  lemma SupersededAbsorbsExactly(cfg: Config, base: Trace, t: Id)
    requires Legal(cfg, base) && IsSuperseded(base, t)
    ensures (forall tr :: Legal(cfg, tr) && Extends(tr, base) ==> IsSuperseded(tr, t)) <==>
            LiveOf(Exec(base).attempts, t) == {}
  {
    var live := LiveOf(Exec(base).attempts, t);
    if live == {} {
      forall tr | Legal(cfg, tr) && Extends(tr, base) ensures IsSuperseded(tr, t) {
        SupersededStays(cfg, tr, base, t);
      }
    } else {
      var a :| a in live;
      var late := Step(base, Resolve(a, Success(""), 0));
      assert Legal(cfg, late) && Extends(late.prev, base);
      assert !IsSuperseded(late, t);
    }
  }

  /** In particular it is absorbing for a task that was never orphaned before it was superseded. */
  lemma SupersededAbsorbs(cfg: Config, tr: Trace, base: Trace, t: Id)
    requires Legal(cfg, base) && Legal(cfg, tr) && Extends(tr, base)
    requires IsSuperseded(base, t) && Orphanings(base, t) == 0
    ensures IsSuperseded(tr, t)
  {
    LiveAttempts(cfg, base, t);
    hide LiveOf, AttemptsOf, Legal;
    SupersededStays(cfg, tr, base, t);
  }

  ghost function Births(tr: Trace): nat {
    match tr
    case Init => 0
    case Step(p, op) => Births(p) + if op.Create? || Restarts(Exec(p), op) then 1 else 0
  }

  /** The birth order of tasks. */
  ghost function Rank(tr: Trace): map<Id, nat> {
    match tr
    case Init => map[]
    case Step(p, op) =>
      if op.Create? then Rank(p)[op.id := Births(p)]
      else if Restarts(Exec(p), op) then Rank(p)[op.newId := Births(p)]
      else Rank(p)
  }

  ghost predicate Ranked(tr: Trace) {
    && Rank(tr).Keys == Exec(tr).tasks.Keys
    && (forall t :: t in Rank(tr) ==> Rank(tr)[t] < Births(tr))
  }

  lemma {:induction false} RankedRun(cfg: Config, tr: Trace)
    requires Legal(cfg, tr)
    ensures Ranked(tr)
  {
    hide Next, Enabled, Restarts;
    match tr
    case Init =>
    case Step(p, op) =>
      RankedRun(cfg, p);
      TaskCount(cfg, Exec(p), op);
  }

  /** An edge leads from a superseded task to a younger task that names it as parent and does the same work. */
  ghost predicate GoodEdge(tr: Trace, e: (Id, Id)) {
    var tasks := Exec(tr).tasks;
    && e.0 in tasks && e.1 in tasks
    && tasks[e.0].status == Superseded
    && tasks[e.1].parentId == Some(e.0)
    && SameWork(tasks[e.1], tasks[e.0])
    && e.0 in Rank(tr) && e.1 in Rank(tr) && Rank(tr)[e.0] < Rank(tr)[e.1]
  }

  lemma OldEdgeStep(cfg: Config, p: Trace, op: Op, e: (Id, Id))
    requires Enabled(cfg, Exec(p), op) && OnlyStandingResolve(Exec(p)) && GoodEdge(p, e)
    ensures GoodEdge(Step(p, op), e)
  {
    TaskStep(cfg, Exec(p), op, e.0);
    TaskStep(cfg, Exec(p), op, e.1);
    hide Next;
  }

  lemma NewEdgeStep(cfg: Config, p: Trace, op: Op)
    requires Enabled(cfg, Exec(p), op) && Ranked(p) && Restarts(Exec(p), op)
    ensures GoodEdge(Step(p, op), (op.id, op.newId))
  {
  }

  lemma {:induction false} EdgesGood(cfg: Config, tr: Trace)
    requires Legal(cfg, tr) && OrphanFree(tr)
    ensures forall e :: e in Edges(tr) ==> GoodEdge(tr, e)
  {
    hide Next, Enabled, OnlyStandingResolve, OrphanFree, GoodEdge, Rank, Ranked;
    match tr
    case Init =>
    case Step(p, op) =>
      OrphanFreePrefix(tr);
      EdgesGood(cfg, p);
      StandingResolves(cfg, p);
      RankedRun(cfg, p);
      forall e | e in Edges(tr) ensures GoodEdge(tr, e) {
        if e in Edges(p) {
          OldEdgeStep(cfg, p, op, e);
        } else {
          NewEdgeStep(cfg, p, op);
        }
      }
  }

  ghost predicate OneChild(tr: Trace, t: Id) {
    exists c :: (t, c) in Edges(tr) && forall d :: (t, d) in Edges(tr) ==> d == c
  }

  /** Every superseded task has exactly one restart child, a younger task with the same work that names it. */
  lemma {:induction false} OneRestartChild(cfg: Config, tr: Trace, t: Id)
    requires Legal(cfg, tr) && OrphanFree(tr) && t in Exec(tr).tasks && Exec(tr).tasks[t].status == Superseded
    ensures OneChild(tr, t)
  {
    hide Next, Enabled, OnlyStandingResolve, OrphanFree, GoodEdge, Rank, Ranked;
    match tr
    case Init =>
    case Step(p, op) =>
      OrphanFreePrefix(tr);
      StandingResolves(cfg, p);
      EdgesGood(cfg, p);
      SoundRun(cfg, p);
      if t !in Exec(p).tasks {
        NewbornStands(cfg, Exec(p), op, t);
      } else {
        TaskStep(cfg, Exec(p), op, t);
        if Exec(p).tasks[t].status == Superseded {
          OneRestartChild(cfg, p, t);
          var c :| (t, c) in Edges(p) && forall d :: (t, d) in Edges(p) ==> d == c;
          assert (t, c) in Edges(tr);
        } else {
          assert forall d :: (t, d) !in Edges(p) by { StandingHasNoEdge(p, t); }
          assert (t, op.newId) in Edges(tr);
        }
      }
  }

  lemma StandingHasNoEdge(tr: Trace, t: Id)
    requires t in Exec(tr).tasks && Exec(tr).tasks[t].status != Superseded
    requires forall e :: e in Edges(tr) ==> GoodEdge(tr, e)
    ensures forall d :: (t, d) !in Edges(tr)
  {
    forall e | e in Edges(tr) ensures e.0 != t {
      assert GoodEdge(tr, e);
    }
  }

  /** A path of restarts, from a task through its replacements. */
  ghost predicate IsChain(tr: Trace, path: seq<Id>) {
    forall i :: 0 <= i < |path| - 1 ==> (path[i], path[i + 1]) in Edges(tr)
  }

  /** A chain from `t` to a task that is not superseded: the live head of its lineage. */
  ghost predicate IsLineage(tr: Trace, path: seq<Id>, t: Id) {
    && path != [] && path[0] == t && IsChain(tr, path)
    && path[|path| - 1] in Exec(tr).tasks && Exec(tr).tasks[path[|path| - 1]].status != Superseded
  }

  lemma {:induction false} FollowRestarts(cfg: Config, tr: Trace, t: Id) returns (path: seq<Id>)
    requires Legal(cfg, tr) && OrphanFree(tr) && t in Exec(tr).tasks
    requires t in Rank(tr) && Rank(tr)[t] < Births(tr)
    ensures IsLineage(tr, path, t) && |path| <= Births(tr) - Rank(tr)[t]
    decreases Births(tr) - Rank(tr)[t]
  {
    hide Exec, Legal, OrphanFree, Rank, Edges;
    if Exec(tr).tasks[t].status != Superseded {
      path := [t];
    } else {
      OneRestartChild(cfg, tr, t);
      EdgesGood(cfg, tr);
      RankedRun(cfg, tr);
      var c :| (t, c) in Edges(tr) && forall d :: (t, d) in Edges(tr) ==> d == c;
      assert GoodEdge(tr, (t, c));
      var rest := FollowRestarts(cfg, tr, c);
      path := [t] + rest;
    }
  }

  /** Along a chain the tasks get younger. */
  lemma {:induction false} ChainClimbs(tr: Trace, path: seq<Id>, i: nat, j: nat)
    requires IsChain(tr, path) && (forall e :: e in Edges(tr) ==> GoodEdge(tr, e)) && i < j < |path|
    ensures path[i] in Rank(tr) && path[j] in Rank(tr) && Rank(tr)[path[i]] < Rank(tr)[path[j]]
  {
    hide Exec, Rank, Edges;
    assert GoodEdge(tr, (path[j - 1], path[j]));
    if i < j - 1 {
      ChainClimbs(tr, path, i, j - 1);
    }
  }

  lemma {:induction false} OnePath(cfg: Config, tr: Trace, p: seq<Id>, q: seq<Id>, t: Id)
    requires Legal(cfg, tr) && OrphanFree(tr) && IsLineage(tr, p, t) && IsLineage(tr, q, t)
    ensures p == q
  {
    hide Exec, Legal, OrphanFree, Rank, Edges;
    EdgesGood(cfg, tr);
    if |p| > 1 {
      assert GoodEdge(tr, (p[0], p[1]));
    }
    if |q| > 1 {
      assert GoodEdge(tr, (q[0], q[1]));
    }
    if |p| > 1 && |q| > 1 {
      OneRestartChild(cfg, tr, t);
      OnePath(cfg, tr, p[1..], q[1..], p[1]);
      assert p == [t] + p[1..] && q == [t] + q[1..];
    }
  }

  /** From every task the restarts lead, in at most as many steps as tasks were born and never in a circle,
      to one head that is not superseded; there is no other way and no other head. */
  lemma LineageHead(cfg: Config, tr: Trace, t: Id) returns (path: seq<Id>)
    requires Legal(cfg, tr) && OrphanFree(tr) && t in Exec(tr).tasks
    ensures IsLineage(tr, path, t) && |path| <= Births(tr)
    ensures forall i, j :: 0 <= i < j < |path| ==> path[i] != path[j]
    ensures forall other :: IsLineage(tr, other, t) ==> other == path
  {
    RankedRun(cfg, tr);
    EdgesGood(cfg, tr);
    hide Exec, Legal, OrphanFree, Rank, Edges, GoodEdge;
    path := FollowRestarts(cfg, tr, t);
    forall i, j | 0 <= i < j < |path| ensures path[i] != path[j] {
      ChainClimbs(tr, path, i, j);
    }
    forall other | IsLineage(tr, other, t) ensures other == path {
      OnePath(cfg, tr, other, path, t);
    }
  }
}
