/** The single-writer protocol with the store's own transactions: the database that the writer goroutine leaves
    is the database of the run of transactions that it executed, in dequeue order. */
module StoreWriter {
  import opened Options
  import opened Rows
  import opened Config
  import opened Transitions
  import Drain
  import Writer

  /** What a store method hands to write: a transaction with its arguments. Which task a claim takes is
      decided by the database that it meets. */
  datatype Request =
    | Plainly(op: Op)
    | Claiming(workerId: Id, queue: string, taskTypes: seq<string>, now: int, attemptId: Id)

  /** There is always something that ClaimTask may answer. */
  lemma ChoiceExists(cfg: Config, db: Db, queue: string, taskTypes: seq<string>, now: int)
    ensures exists chosen :: ClaimChoice(cfg, db, queue, taskTypes, now, chosen)
  {
    var group := set t | t in db.tasks && Candidate(cfg, db, queue, taskTypes, now, t);
    if AtLimit(cfg, db.tasks, Everywhere) || AtLimit(cfg, db.tasks, InQueue(queue)) || group == {} {
      assert forall t :: Candidate(cfg, db, queue, taskTypes, now, t) ==> t in group;
      assert ClaimChoice(cfg, db, queue, taskTypes, now, None);
    } else {
      var best := Drain.BestOf(db, group);
      assert forall t :: Candidate(cfg, db, queue, taskTypes, now, t) ==> t in group;
      assert ClaimChoice(cfg, db, queue, taskTypes, now, Some(best));
    }
  }

  /** The transaction that a request is, on this database. */
  ghost function OpOf(cfg: Config, r: Request, db: Db): Op {
    match r
    case Plainly(op) => op
    case Claiming(w, queue, types, now, a) =>
      ChoiceExists(cfg, db, queue, types, now);
      var chosen :| ClaimChoice(cfg, db, queue, types, now, chosen);
      Claim(w, queue, types, now, chosen, a)
  }

  /** The error that a transaction's body returns, if any. */
  ghost function Refusal(db: Db, op: Op): Option<Error> {
    var r := match op
      case Resolve(a, v, now) => ResolveTx(db, a, v, now)
      case Control(t, action, now) => ControlTx(db, t, action, now)
      case Restart(t, newId, now) => RestartTx(db, t, newId, now)
      case _ => Ok(db);
    if r.Err? then Some(r.error) else None
  }

  function Text(e: Error): string {
    match e
    case NotFound => "not found"
    case AttemptNotRunning => "attempt is not running"
    case InvalidTransition => "invalid state transition"
    case ReadTaskFailed => "read task"
  }

  ghost function BodyOf(cfg: Config, r: Request): Db -> Writer.Done<Db> {
    db =>
      var op := OpOf(cfg, r, db);
      var e := Refusal(db, op);
      if e.Some? then Writer.Rollback(Text(e.value)) else Writer.Commit(Next(db, op))
  }

  /** Executing a request's body makes the step that the run of transactions makes. */
  lemma BodySteps(cfg: Config, r: Request, db: Db)
    ensures Writer.After(db, BodyOf(cfg, r)(db)) == Next(db, OpOf(cfg, r, db))
  {
    var op := OpOf(cfg, r, db);
    hide ResolveTx, ControlTx, RestartTx, OpOf, CreateTx, ClaimTx, HeartbeatTx, RequeueTx;
    assert Refusal(db, op).Some? ==> Next(db, op) == db;
  }

  /** The run of the requests executed in this order. */
  ghost function TraceOf(cfg: Config, requests: map<nat, Request>, order: seq<nat>): Trace
    requires forall id :: id in order ==> id in requests
  {
    if order == [] then Init
    else
      var before := TraceOf(cfg, requests, order[..|order| - 1]);
      Step(before, OpOf(cfg, requests[order[|order| - 1]], Exec(before)))
  }

  /** Every call of the protocol so far is one of the store's requests. */
  ghost predicate Serves(cfg: Config, calls: map<nat, Writer.Call<Db>>, requests: map<nat, Request>) {
    forall id :: id in calls ==> id in requests && calls[id].body == BodyOf(cfg, requests[id])
  }

  lemma {:induction false} FoldIsExec(cfg: Config, calls: map<nat, Writer.Call<Db>>, requests: map<nat, Request>,
                                      order: seq<nat>)
    requires Serves(cfg, calls, requests) && forall id :: id in order ==> id in calls
    ensures Writer.Fold(EMPTY, calls, order) == Exec(TraceOf(cfg, requests, order))
  {
    if order != [] {
      var init, last := order[..|order| - 1], order[|order| - 1];
      FoldIsExec(cfg, calls, requests, init);
      assert last in order;
      BodySteps(cfg, requests[last], Exec(TraceOf(cfg, requests, init)));
      hide BodyOf, OpOf, Next;
    }
  }

  /** In every interleaving of callers, writer goroutine and Close, on an empty database, the database is that
      of the run of the executed requests in dequeue order. */
  lemma DatabaseIsRun(cfg: Config, run: Writer.Run<Db>, requests: map<nat, Request>)
    requires Writer.Start(run) == EMPTY && Serves(cfg, Writer.At(run).calls, requests)
    ensures forall id :: id in Writer.At(run).executed ==> id in requests
    ensures Writer.At(run).db == Exec(TraceOf(cfg, requests, Writer.At(run).executed))
  {
    Writer.DatabaseIsFold(run);
    FoldIsExec(cfg, Writer.At(run).calls, requests, Writer.At(run).executed);
  }

  /** The ids that a request brings along are new when it is executed. */
  ghost predicate BringsNew(db: Db, r: Request) {
    match r
    case Claiming(_, _, _, _, a) => Fresh(db, a)
    case Plainly(op) =>
      match op
      case Create(id, _, _) => Fresh(db, id)
      case Enroll(id, _, _) => Fresh(db, id)
      case Restart(_, newId, _) => Fresh(db, newId)
      case Claim(_, _, _, _, _, _) => false
      case _ => true
  }

  ghost predicate AllBringNew(cfg: Config, requests: map<nat, Request>, order: seq<nat>)
    requires forall id :: id in order ==> id in requests
  {
    order != [] ==>
      var init := order[..|order| - 1];
      AllBringNew(cfg, requests, init)
      && BringsNew(Exec(TraceOf(cfg, requests, init)), requests[order[|order| - 1]])
  }

  /** That run is legal, so all that is proved about legal runs holds of the database the writer leaves. */
  lemma {:induction false} RunIsLegal(cfg: Config, requests: map<nat, Request>, order: seq<nat>)
    requires (forall id :: id in order ==> id in requests) && AllBringNew(cfg, requests, order)
    ensures Legal(cfg, TraceOf(cfg, requests, order))
  {
    if order != [] {
      RunIsLegal(cfg, requests, order[..|order| - 1]);
      hide Fresh, ClaimChoice, Exec;
    }
  }
}
