/** The single-writer protocol: any number of write callers, the writer goroutine and Close, interleaved
    one channel operation at a time. */
module Writer {
  import opened Loops

  const BUFFER := 64

  /** A transaction body: it commits a new database or returns an error. */
  datatype Done<+D> = Commit(db: D) | Rollback(error: string)

  datatype Answer = Nil | BodyError(error: string) | StoreClosing

  /** What write returns: an answer from its reply channel, the context's error, or ErrStoreClosing. */
  datatype Return = Answered(answer: Answer) | ContextError

  datatype Stage = Sending | Awaiting | Returned(ret: Return)

  /** Where a call's op is: a history variable that the protocol itself never reads. */
  datatype Fate = Unsent | Buffered | Held | Executed(answer: Answer) | Refused

  datatype Call<!D> = Call(body: D -> Done<D>, stage: Stage, reply: seq<Answer>, sends: nat, fate: Fate)

  /** The writer goroutine: at its select, holding a received op, about to send a reply, draining, or gone. */
  datatype Loop =
    | Selecting
    | Holding(id: nat)
    | Replying(id: nat, answer: Answer)
    | Draining
    | Refusing(id: nat)
    | Stopped

  datatype State<!D> = State(
    db: D, calls: map<nat, Call<D>>, buffer: seq<nat>, closing: bool, loop: Loop, executed: seq<nat>)

  datatype Move<!D> =
    | Invoke(id: nat, body: D -> Done<D>)
    | Send(id: nat)
    | GiveUp(id: nat)
    | SeeClosing(id: nat)
    | Take(id: nat)
    | Close
    | LoopReceive
    | LoopExecute
    | LoopReply
    | LoopSeeClosing
    | DrainReceive
    | DrainReply
    | DrainStop

  function AnswerTo<D>(done: Done<D>): Answer {
    match done
    case Commit(_) => Nil
    case Rollback(e) => BodyError(e)
  }

  function After<D>(db: D, done: Done<D>): D {
    match done
    case Commit(d) => d
    case Rollback(_) => db
  }

  ghost predicate Can<D>(s: State<D>, m: Move<D>) {
    match m
    case Invoke(id, _) => id !in s.calls
    case Send(id) => id in s.calls && s.calls[id].stage == Sending && |s.buffer| < BUFFER
    case GiveUp(id) => id in s.calls && !s.calls[id].stage.Returned?
    case SeeClosing(id) => id in s.calls && s.calls[id].stage == Sending && s.closing
    case Take(id) => id in s.calls && s.calls[id].stage == Awaiting && s.calls[id].reply != []
    case Close => true
    case LoopReceive => s.loop == Selecting && s.buffer != [] && s.buffer[0] in s.calls
    case LoopExecute => s.loop.Holding? && s.loop.id in s.calls
    case LoopReply => s.loop.Replying? && s.loop.id in s.calls && s.calls[s.loop.id].reply == []
    case LoopSeeClosing => s.loop == Selecting && s.closing
    case DrainReceive => s.loop == Draining && s.buffer != [] && s.buffer[0] in s.calls
    case DrainReply => s.loop.Refusing? && s.loop.id in s.calls && s.calls[s.loop.id].reply == []
    case DrainStop => s.loop == Draining && s.buffer == []
  }

  ghost function SetCall<D>(s: State<D>, id: nat, c: Call<D>): State<D> {
    s.(calls := s.calls[id := c])
  }

  ghost function Next<D>(s: State<D>, m: Move<D>): State<D>
    requires Can(s, m)
  {
    match m
    case Invoke(id, body) => SetCall(s, id, Call(body, Sending, [], 0, Unsent))
    case Send(id) =>
      SetCall(s, id, s.calls[id].(stage := Awaiting, fate := Buffered)).(buffer := s.buffer + [id])
    case GiveUp(id) => SetCall(s, id, s.calls[id].(stage := Returned(ContextError)))
    case SeeClosing(id) => SetCall(s, id, s.calls[id].(stage := Returned(Answered(StoreClosing))))
    case Take(id) =>
      var c := s.calls[id];
      SetCall(s, id, c.(stage := Returned(Answered(c.reply[0])), reply := c.reply[1..]))
    case Close => s.(closing := true)
    case LoopReceive =>
      var id := s.buffer[0];
      SetCall(s, id, s.calls[id].(fate := Held)).(buffer := s.buffer[1..], loop := Holding(id))
    case LoopExecute =>
      var id := s.loop.id;
      var done := s.calls[id].body(s.db);
      SetCall(s, id, s.calls[id].(fate := Executed(AnswerTo(done))))
      .(db := After(s.db, done), executed := s.executed + [id], loop := Replying(id, AnswerTo(done)))
    case LoopReply =>
      var c := s.calls[s.loop.id];
      SetCall(s, s.loop.id, c.(reply := [s.loop.answer], sends := c.sends + 1)).(loop := Selecting)
    case LoopSeeClosing => s.(loop := Draining)
    case DrainReceive =>
      var id := s.buffer[0];
      SetCall(s, id, s.calls[id].(fate := Refused)).(buffer := s.buffer[1..], loop := Refusing(id))
    case DrainReply =>
      var c := s.calls[s.loop.id];
      SetCall(s, s.loop.id, c.(reply := [StoreClosing], sends := c.sends + 1)).(loop := Draining)
    case DrainStop => s.(loop := Stopped)
  }

  datatype Run<!D> = Boot(db: D) | Then(prev: Run<D>, move: Move<D>)

  /** The state after a run; a move that is not possible where it stands changes nothing. */
  ghost function At<D>(run: Run<D>): State<D> {
    match run
    case Boot(db) => State(db, map[], [], false, Selecting, [])
    case Then(p, m) => if Can(At(p), m) then Next(At(p), m) else At(p)
  }

  ghost function Start<D>(run: Run<D>): D {
    match run
    case Boot(db) => db
    case Then(p, _) => Start(p)
  }

  ghost predicate Extends<D>(run: Run<D>, base: Run<D>) {
    run == base || (run.Then? && Extends(run.prev, base))
  }

  // ----- The invariant -----

  /** Whether the loop has taken a call's op out of the buffer and not replied to it yet. */
  predicate Busy(loop: Loop, id: nat) {
    (loop.Holding? || loop.Replying? || loop.Refusing?) && loop.id == id
  }

  predicate Unanswered<D>(c: Call<D>) {
    c.reply == [] && c.sends == 0
  }

  /** One reply, in the channel or taken by the caller; a caller that gave up may leave it there. */
  predicate AnsweredWith<D>(c: Call<D>, a: Answer) {
    && c.sends == 1
    && match c.stage
       case Sending => false
       case Awaiting => c.reply == [a]
       case Returned(ContextError) => c.reply == [a]
       case Returned(Answered(b)) => b == a && c.reply == []
  }

  predicate Waits(stage: Stage) {
    stage == Awaiting || stage == Returned(ContextError)
  }

  ghost predicate CallOk<D>(s: State<D>, id: nat)
    requires id in s.calls
  {
    var c := s.calls[id];
    match c.fate
    case Unsent =>
      && Unanswered(c) && !Busy(s.loop, id)
      && c.stage in {Sending, Returned(ContextError), Returned(Answered(StoreClosing))}
    case Buffered => Unanswered(c) && Waits(c.stage) && !Busy(s.loop, id)
    case Held => Unanswered(c) && Waits(c.stage) && s.loop == Holding(id)
    case Executed(a) =>
      && a != StoreClosing
      && if Busy(s.loop, id) then Unanswered(c) && Waits(c.stage) && s.loop == Replying(id, a) else AnsweredWith(c, a)
    case Refused =>
      if Busy(s.loop, id) then Unanswered(c) && Waits(c.stage) && s.loop == Refusing(id)
      else AnsweredWith(c, StoreClosing)
  }

  ghost predicate Inv<D>(s: State<D>) {
    && (forall id :: id in s.calls ==> CallOk(s, id))
    && Unique(s.buffer) && Unique(s.executed)
    && (forall id :: id in s.buffer <==> id in s.calls && s.calls[id].fate == Buffered)
    && (forall id :: id in s.executed <==> id in s.calls && s.calls[id].fate.Executed?)
    && (s.loop.Holding? || s.loop.Replying? || s.loop.Refusing? ==> s.loop.id in s.calls)
  }

  lemma OtherKept<D>(s: State<D>, next: State<D>, d: nat)
    requires d in s.calls && d in next.calls && next.calls[d] == s.calls[d] && CallOk(s, d)
    requires next.loop == s.loop || (!Busy(s.loop, d) && !Busy(next.loop, d))
    ensures CallOk(next, d)
  {
  }

  /** A move that touches one call, and the loop only as far as that call is concerned, keeps every other
      call as it was. */
  lemma OthersKept<D>(s: State<D>, next: State<D>, id: nat)
    requires Inv(s)
    requires id in next.calls && next.calls.Keys == s.calls.Keys + {id}
    requires forall d :: d in s.calls && d != id ==> next.calls[d] == s.calls[d]
    requires next.loop == s.loop || (forall d :: d != id ==> !Busy(s.loop, d) && !Busy(next.loop, d))
    requires CallOk(next, id)
    requires
      || next.buffer == s.buffer
      || next.buffer == s.buffer + [id]
      || (s.buffer != [] && s.buffer[0] == id && next.buffer == s.buffer[1..])
    requires id in next.buffer <==> next.calls[id].fate == Buffered
    requires next.buffer == s.buffer + [id] ==> id !in s.buffer
    requires next.executed == s.executed || (next.executed == s.executed + [id] && id !in s.executed)
    requires id in next.executed <==> next.calls[id].fate.Executed?
    ensures Inv(next)
  {
    CallsOk(s, next, id);
    hide CallOk, Unique;
    if next.loop.Holding? || next.loop.Replying? || next.loop.Refusing? {
      assert Busy(next.loop, next.loop.id);
    }
    QueueKept(s.buffer, next.buffer, id);
    QueueKept(s.executed, next.executed, id);
  }

  /** A queue that changes at most by losing its head `id`, or by gaining `id` at its end. */
  lemma QueueKept(q: seq<nat>, more: seq<nat>, id: nat)
    requires Unique(q)
    requires more == q || (more == q + [id] && id !in q) || (q != [] && q[0] == id && more == q[1..])
    ensures Unique(more)
    ensures forall d :: d != id ==> (d in more <==> d in q)
  {
  }

  lemma CallsOk<D>(s: State<D>, next: State<D>, id: nat)
    requires Inv(s)
    requires id in next.calls && next.calls.Keys == s.calls.Keys + {id}
    requires forall d :: d in s.calls && d != id ==> next.calls[d] == s.calls[d]
    requires next.loop == s.loop || (forall d :: d != id ==> !Busy(s.loop, d) && !Busy(next.loop, d))
    requires CallOk(next, id)
    ensures forall d :: d in next.calls ==> CallOk(next, d)
  {
    forall d | d in next.calls ensures CallOk(next, d) {
      if d != id {
        assert CallOk(s, d);
        OtherKept(s, next, d);
      }
    }
  }

  lemma CallerStep<D>(s: State<D>, m: Move<D>)
    requires Inv(s) && Can(s, m) && (m.Invoke? || m.Send? || m.GiveUp? || m.SeeClosing? || m.Take?)
    ensures Inv(Next(s, m))
  {
    if m.id in s.calls {
      assert CallOk(s, m.id);
    }
    OthersKept(s, Next(s, m), m.id);
  }

  lemma ReceiveStep<D>(s: State<D>, m: Move<D>)
    requires Inv(s) && Can(s, m) && (m.LoopReceive? || m.DrainReceive?)
    ensures Inv(Next(s, m))
  {
    assert CallOk(s, s.buffer[0]);
    OthersKept(s, Next(s, m), s.buffer[0]);
  }

  lemma ReplyStep<D>(s: State<D>, m: Move<D>)
    requires Inv(s) && Can(s, m) && (m.LoopReply? || m.DrainReply?)
    ensures Inv(Next(s, m))
  {
    assert CallOk(s, s.loop.id);
    OthersKept(s, Next(s, m), s.loop.id);
  }

  lemma ExecuteStep<D>(s: State<D>)
    requires Inv(s) && Can(s, LoopExecute)
    ensures Inv(Next(s, LoopExecute))
  {
    assert CallOk(s, s.loop.id);
    OthersKept(s, Next(s, LoopExecute), s.loop.id);
  }

  lemma IdleStep<D>(s: State<D>, m: Move<D>)
    requires Inv(s) && Can(s, m) && (m.Close? || m.LoopSeeClosing? || m.DrainStop?)
    ensures Inv(Next(s, m))
  {
    var next := Next(s, m);
    forall id | id in next.calls ensures CallOk(next, id) {
      assert CallOk(s, id);
    }
  }

  lemma {:induction false} InvRun<D>(run: Run<D>)
    ensures Inv(At(run))
  {
    match run
    case Boot(_) =>
    case Then(p, m) =>
      InvRun(p);
      hide Inv, Next;
      if Can(At(p), m) {
        hide Can;
        if m.Invoke? || m.Send? || m.GiveUp? || m.SeeClosing? || m.Take? {
          CallerStep(At(p), m);
        } else if m.Close? || m.LoopSeeClosing? || m.DrainStop? {
          IdleStep(At(p), m);
        } else if m.LoopReceive? || m.DrainReceive? {
          ReceiveStep(At(p), m);
        } else if m.LoopReply? || m.DrainReply? {
          ReplyStep(At(p), m);
        } else {
          ExecuteStep(At(p));
        }
      }
  }

  // ----- The database is the fold of the executed ops -----

  /** The database after the ops in `order`, each run on the result of the ones before it; an op that
      returned an error leaves it alone. */
  ghost function Fold<D>(db: D, calls: map<nat, Call<D>>, order: seq<nat>): D
    requires forall id :: id in order ==> id in calls
  {
    if order == [] then db
    else
      var before := Fold(db, calls, order[..|order| - 1]);
      After(before, calls[order[|order| - 1]].body(before))
  }

  /** The answer each executed op got is the one its body gives on the fold of the ops before it. */
  ghost predicate Answers<D>(db: D, calls: map<nat, Call<D>>, order: seq<nat>)
    requires forall id :: id in order ==> id in calls
  {
    forall i :: 0 <= i < |order| ==>
      calls[order[i]].fate == Executed(AnswerTo(calls[order[i]].body(Fold(db, calls, order[..i]))))
  }

  lemma {:induction false} FoldSame<D>(db: D, calls: map<nat, Call<D>>, more: map<nat, Call<D>>, order: seq<nat>)
    requires forall id :: id in order ==> id in calls && id in more && calls[id].body == more[id].body
    ensures Fold(db, calls, order) == Fold(db, more, order)
  {
    if order != [] {
      FoldSame(db, calls, more, order[..|order| - 1]);
    }
  }

  ghost predicate Folded<D>(start: D, s: State<D>) {
    && (forall id :: id in s.executed ==> id in s.calls)
    && s.db == Fold(start, s.calls, s.executed)
    && Answers(start, s.calls, s.executed)
  }

  /** No move changes the body of a call or the answer an executed one got. */
  lemma CallsKept<D>(s: State<D>, m: Move<D>, id: nat)
    requires Inv(s) && Can(s, m) && id in s.calls
    ensures id in Next(s, m).calls && Next(s, m).calls[id].body == s.calls[id].body
    ensures s.calls[id].fate.Executed? ==> Next(s, m).calls[id].fate == s.calls[id].fate
    ensures s.calls[id].stage.Returned? ==> Next(s, m).calls[id].stage == s.calls[id].stage
  {
    assert CallOk(s, id);
  }

  lemma FoldedKept<D>(start: D, s: State<D>, next: State<D>)
    requires Folded(start, s) && next.db == s.db && next.executed == s.executed
    requires forall id :: id in s.executed ==>
      id in next.calls && next.calls[id].body == s.calls[id].body && next.calls[id].fate == s.calls[id].fate
    ensures Folded(start, next)
  {
    FoldSame(start, s.calls, next.calls, s.executed);
    forall i | 0 <= i < |s.executed|
      ensures next.calls[s.executed[i]].fate ==
              Executed(AnswerTo(next.calls[s.executed[i]].body(Fold(start, next.calls, s.executed[..i]))))
    {
      FoldSame(start, s.calls, next.calls, s.executed[..i]);
      assert s.executed[i] in s.executed;
    }
  }

  /** Executing one more op on the fold extends the fold. */
  lemma FoldSnoc<D>(start: D, calls: map<nat, Call<D>>, more: map<nat, Call<D>>, order: seq<nat>, id: nat)
    requires forall d :: d in order ==> d in calls && d in more && more[d].body == calls[d].body
    requires id in calls && id in more && more[id].body == calls[id].body
    ensures var before := Fold(start, calls, order);
            Fold(start, more, order + [id]) == After(before, calls[id].body(before))
  {
    FoldSame(start, calls, more, order);
    assert (order + [id])[..|order|] == order;
  }

  lemma AnswersSnoc<D>(start: D, calls: map<nat, Call<D>>, more: map<nat, Call<D>>, order: seq<nat>, id: nat)
    requires forall d :: d in order ==>
      d in calls && d in more && more[d].body == calls[d].body && more[d].fate == calls[d].fate
    requires id in calls && id in more && more[id].body == calls[id].body
    requires Answers(start, calls, order)
    requires more[id].fate == Executed(AnswerTo(calls[id].body(Fold(start, calls, order))))
    ensures Answers(start, more, order + [id])
  {
    var longer := order + [id];
    forall i | 0 <= i < |longer|
      ensures more[longer[i]].fate == Executed(AnswerTo(more[longer[i]].body(Fold(start, more, longer[..i]))))
    {
      assert longer[..i] == order[..i];
      FoldSame(start, calls, more, order[..i]);
      if i < |order| {
        assert longer[i] == order[i] && order[i] in order;
      } else {
        assert order[..i] == order;
      }
    }
  }

  lemma HeldHasNotRun<D>(s: State<D>)
    requires Inv(s) && s.loop.Holding? && s.loop.id in s.calls
    ensures s.loop.id !in s.executed
  {
    assert CallOk(s, s.loop.id);
  }

  /** What executing an op does to the database, the dequeue order and the calls. */
  lemma ExecuteEffect<D>(s: State<D>)
    requires Inv(s) && Can(s, LoopExecute)
    ensures var id, next := s.loop.id, Next(s, LoopExecute); var done := s.calls[id].body(s.db);
            && next.db == After(s.db, done) && next.executed == s.executed + [id] && id !in s.executed
            && next.calls == s.calls[id := s.calls[id].(fate := Executed(AnswerTo(done)))]
  {
    HeldHasNotRun(s);
  }

  /** Running one more op on the fold, and noting its answer, extends the fold and its answers. */
  lemma FoldedSnoc<D>(start: D, calls: map<nat, Call<D>>, order: seq<nat>, id: nat)
    requires (forall d :: d in order ==> d in calls) && id in calls && id !in order && Answers(start, calls, order)
    ensures var before := Fold(start, calls, order); var done := calls[id].body(before);
            var more := calls[id := calls[id].(fate := Executed(AnswerTo(done)))];
            && (forall d :: d in order + [id] ==> d in more)
            && Fold(start, more, order + [id]) == After(before, done)
            && Answers(start, more, order + [id])
  {
    var done := calls[id].body(Fold(start, calls, order));
    var more := calls[id := calls[id].(fate := Executed(AnswerTo(done)))];
    hide Fold, Answers, After, AnswerTo;
    FoldSnoc(start, calls, more, order, id);
    AnswersSnoc(start, calls, more, order, id);
  }

  lemma FoldedExecute<D>(start: D, s: State<D>)
    requires Inv(s) && Folded(start, s) && Can(s, LoopExecute)
    ensures Folded(start, Next(s, LoopExecute))
  {
    ExecuteEffect(s);
    hide Inv, CallOk, Can, Next, Fold, Answers, After, AnswerTo;
    FoldedSnoc(start, s.calls, s.executed, s.loop.id);
  }

  /** In every interleaving the database is the fold, in dequeue order, of the ops executed so far, each of
      them executed once, and each answer is the one that fold gives. */
  lemma {:induction false} DatabaseIsFold<D>(run: Run<D>)
    ensures Folded(Start(run), At(run))
    ensures Unique(At(run).executed)
  {
    InvRun(run);
    match run
    case Boot(_) =>
    case Then(p, m) =>
      DatabaseIsFold(p);
      InvRun(p);
      var s := At(p);
      if Can(s, m) {
        if m.LoopExecute? {
          FoldedExecute(Start(p), s);
        } else {
          forall id | id in s.executed
            ensures id in Next(s, m).calls && Next(s, m).calls[id].body == s.calls[id].body
            ensures Next(s, m).calls[id].fate == s.calls[id].fate
          {
            CallsKept(s, m, id);
          }
          FoldedKept(Start(p), s, Next(s, m));
        }
      }
  }

  // ----- What each return value means -----

  /** A nil return: the op ran, and its body committed there. An error from the body: it ran, and the
      database did not change there. ErrStoreClosing: it has not run. */
  lemma ReturnsMean<D>(run: Run<D>, id: nat)
    requires id in At(run).calls && At(run).calls[id].stage.Returned?
    ensures var s := At(run);
            match s.calls[id].stage.ret
            case Answered(StoreClosing) => id !in s.executed
            case Answered(_) => Ran(run, id)
            case ContextError => true
  {
    InvRun(run);
    DatabaseIsFold(run);
    var s := At(run);
    assert CallOk(s, id);
    if s.calls[id].fate.Executed? && s.calls[id].stage.ret.Answered? {
      assert id in s.executed;
      var i :| 0 <= i < |s.executed| && s.executed[i] == id;
      RanAt(run, id, i);
    }
  }

  /** The op ran at one place of the dequeue order, and the caller's answer says what it did there. */
  ghost predicate Ran<D>(run: Run<D>, id: nat) {
    var s := At(run);
    && (forall d :: d in s.executed ==> d in s.calls)
    && id in s.calls && s.calls[id].stage.Returned? && s.calls[id].stage.ret.Answered?
    && exists i :: 0 <= i < |s.executed| && s.executed[i] == id && Effect(Start(run), s, id, i)
  }

  ghost predicate Effect<D>(start: D, s: State<D>, id: nat, i: nat)
    requires (forall d :: d in s.executed ==> d in s.calls) && i < |s.executed|
    requires id in s.calls && s.calls[id].stage.Returned? && s.calls[id].stage.ret.Answered?
  {
    var before, after := Fold(start, s.calls, s.executed[..i]), Fold(start, s.calls, s.executed[..i + 1]);
    match s.calls[id].stage.ret.answer
    case Nil => s.calls[id].body(before) == Commit(after)
    case BodyError(e) => s.calls[id].body(before) == Rollback(e) && after == before
    case StoreClosing => false
  }

  lemma FoldStep<D>(start: D, calls: map<nat, Call<D>>, order: seq<nat>, i: nat)
    requires (forall d :: d in order ==> d in calls) && i < |order|
    ensures var before := Fold(start, calls, order[..i]);
            Fold(start, calls, order[..i + 1]) == After(before, calls[order[i]].body(before))
  {
    assert order[..i + 1][..i] == order[..i];
  }

  lemma EffectAt<D>(start: D, s: State<D>, id: nat, i: nat)
    requires (forall d :: d in s.executed ==> d in s.calls) && i < |s.executed| && s.executed[i] == id && id in s.calls
    requires s.calls[id].stage.Returned? && s.calls[id].stage.ret.Answered? && s.calls[id].fate.Executed?
    requires CallOk(s, id) && Answers(start, s.calls, s.executed)
    ensures Effect(start, s, id, i)
  {
    FoldStep(start, s.calls, s.executed, i);
    hide Fold;
  }

  lemma RanAt<D>(run: Run<D>, id: nat, i: nat)
    requires var s := At(run);
             && i < |s.executed| && s.executed[i] == id && id in s.calls && CallOk(s, id)
             && Folded(Start(run), s) && s.calls[id].stage.Returned? && s.calls[id].stage.ret.Answered?
             && s.calls[id].fate.Executed?
    ensures Ran(run, id)
  {
    var s := At(run);
    EffectAt(Start(run), s, id, i);
    hide At, Fold, CallOk, Effect, Answers;
  }

  // ----- Through time -----

  lemma ExecutedGrows<D>(run: Run<D>, m: Move<D>)
    ensures At(run).executed <= At(Then(run, m)).executed
  {
  }

  /** The dequeue order only grows, and an op that has not been invoked is not in it. */
  lemma {:induction false} OrderGrows<D>(run: Run<D>, base: Run<D>)
    requires Extends(run, base)
    ensures At(base).executed <= At(run).executed
    ensures forall id :: id in At(base).executed ==> id in At(base).calls
  {
    InvRun(base);
    assert forall id :: id in At(base).executed ==> id in At(base).calls;
    hide Inv;
    if run != base {
      OrderGrows(run.prev, base);
      ExecutedGrows(run.prev, run.move);
      hide At;
    }
  }

  /** ErrStoreClosing is final: an op whose caller got it is not executed in any continuation. */
  lemma {:induction false} ClosingNeverRuns<D>(run: Run<D>, base: Run<D>, id: nat)
    requires Extends(run, base) && id in At(base).calls
    requires At(base).calls[id].stage == Returned(Answered(StoreClosing))
    ensures id in At(run).calls && At(run).calls[id].stage == Returned(Answered(StoreClosing))
    ensures id !in At(run).executed
  {
    if run == base {
      ReturnsMean(base, id);
    } else {
      ClosingNeverRuns(run.prev, base, id);
      InvRun(run.prev);
      if Can(At(run.prev), run.move) {
        CallsKept(At(run.prev), run.move, id);
      }
      hide Next, Can;
      ReturnsMean(run, id);
    }
  }

  /** Somebody has called Close. */
  ghost predicate CloseCalled<D>(run: Run<D>) {
    run.Then? && (run.move.Close? || CloseCalled(run.prev))
  }

  /** In an open store nothing is refused. */
  ghost predicate OpenServes<D>(s: State<D>) {
    !s.closing ==>
      && !s.loop.Draining? && !s.loop.Refusing? && !s.loop.Stopped?
      && forall id :: id in s.calls ==>
           s.calls[id].fate != Refused && s.calls[id].stage != Returned(Answered(StoreClosing))
  }

  lemma OpenServesStep<D>(s: State<D>, m: Move<D>)
    requires Inv(s) && Can(s, m) && OpenServes(s)
    ensures OpenServes(Next(s, m))
  {
    if m.Take? {
      assert CallOk(s, m.id);
    }
  }

  lemma {:induction false} OpenRun<D>(run: Run<D>)
    ensures OpenServes(At(run)) && (At(run).closing <==> CloseCalled(run))
  {
    match run
    case Boot(_) =>
    case Then(p, m) =>
      OpenRun(p);
      InvRun(p);
      hide OpenServes, Inv;
      if Can(At(p), m) {
        OpenServesStep(At(p), m);
      }
  }

  /** ErrStoreClosing is only ever returned after Close was called. */
  lemma ClosingNeedsClose<D>(run: Run<D>, id: nat)
    requires id in At(run).calls && At(run).calls[id].stage == Returned(Answered(StoreClosing))
    ensures CloseCalled(run)
  {
    OpenRun(run);
  }

  /** The write channel never holds more than 64 ops. */
  lemma {:induction false} BufferBounded<D>(run: Run<D>)
    ensures |At(run).buffer| <= 64
  {
    match run
    case Boot(_) =>
    case Then(p, m) => BufferBounded(p);
  }

  /** Real time: if one call returned nil before another was made, its op comes first in the dequeue order;
      and an op that a nil return reports was executed after its call was made. */
  lemma RealTimeOrder<D>(run: Run<D>, base: Run<D>, first: nat, second: nat)
    requires Extends(run, base) && first in At(base).calls && second !in At(base).calls
    requires At(base).calls[first].stage == Returned(Answered(Nil))
    ensures second !in At(base).executed
    ensures second in At(run).executed ==>
      exists i, j :: 0 <= i < j < |At(run).executed| && At(run).executed[i] == first && At(run).executed[j] == second
  {
    OrderGrows(run, base);
    ReturnsMean(base, first);
    var done, order := At(base).executed, At(run).executed;
    var i :| 0 <= i < |done| && done[i] == first;
    if second in order {
      var j :| 0 <= j < |order| && order[j] == second;
      assert forall k :: 0 <= k < |done| ==> order[k] == done[k] && done[k] in done;
      assert order[i] == first && j >= |done|;
    }
  }

  /** Each reply channel gets at most one send, and whatever its callers do the writer goroutine is never
      stuck: unless it has stopped, or waits for work in an open store, it can take its next step. */
  lemma LoopNeverBlocks<D>(run: Run<D>)
    ensures forall id :: id in At(run).calls ==> At(run).calls[id].sends <= 1
    ensures !AtRest(At(run)) ==> exists m :: IsLoopMove(m) && Can(At(run), m)
  {
    InvRun(run);
    var s := At(run);
    forall id | id in s.calls ensures s.calls[id].sends <= 1 {
      assert CallOk(s, id);
    }
    if !AtRest(s) {
      LoopCanMove(s);
    }
  }

  /** The writer goroutine has stopped, or waits for work in an open store. */
  predicate AtRest<D>(s: State<D>) {
    s.loop == Stopped || (s.loop == Selecting && s.buffer == [] && !s.closing)
  }

  predicate IsLoopMove<D>(m: Move<D>) {
    || m.LoopReceive? || m.LoopExecute? || m.LoopReply? || m.LoopSeeClosing?
    || m.DrainReceive? || m.DrainReply? || m.DrainStop?
  }

  lemma LoopCanMove<D>(s: State<D>)
    requires Inv(s) && !AtRest(s)
    ensures exists m :: IsLoopMove(m) && Can(s, m)
  {
    if s.buffer != [] {
      assert s.buffer[0] in s.buffer;
    }
    if s.loop.Holding? || s.loop.Replying? || s.loop.Refusing? {
      assert CallOk(s, s.loop.id);
    }
    var m := match s.loop
      case Selecting => if s.closing then LoopSeeClosing else LoopReceive
      case Holding(_) => LoopExecute
      case Replying(_, _) => LoopReply
      case Draining => if s.buffer == [] then DrainStop else DrainReceive
      case Refusing(_) => DrainReply
      case Stopped => DrainStop;
    assert IsLoopMove(m) && Can(s, m);
  }

  /** `run` goes on from `base` by steps of the writer goroutine only. */
  ghost predicate LoopOnly<D>(run: Run<D>, base: Run<D>) {
    run == base || (run.Then? && IsLoopMove(run.move) && LoopOnly(run.prev, base))
  }

  /** A bound on the steps that the writer goroutine can take by itself. */
  function Todo<D>(s: State<D>): nat {
    4 * |s.buffer| +
    match s.loop
    case Stopped => 0
    case Draining => 1
    case Selecting => 2
    case Refusing(_) => 2
    case Replying(_, _) => 3
    case Holding(_) => 4
  }

  /** The accepted ops that have not been run, in order. */
  function Waiting<D>(s: State<D>): seq<nat> {
    (if s.loop.Holding? then [s.loop.id] else []) + s.buffer
  }

  /** What the writer goroutine leaves alone; in an open store it runs the accepted ops in their order. */
  ghost predicate Serves<D>(s: State<D>, after: State<D>) {
    && after.closing == s.closing && after.calls.Keys == s.calls.Keys
    && (forall id :: id in s.calls ==>
          && after.calls[id].stage == s.calls[id].stage && after.calls[id].body == s.calls[id].body
          && (after.calls[id].fate == Unsent <==> s.calls[id].fate == Unsent))
    && (!s.closing ==> after.executed + Waiting(after) == s.executed + Waiting(s))
  }

  lemma LoopTodo<D>(s: State<D>, m: Move<D>)
    requires IsLoopMove(m) && Can(s, m)
    ensures Todo(Next(s, m)) < Todo(s)
    ensures Next(s, m).loop == Stopped ==> Next(s, m).buffer == []
  {
  }

  lemma LoopOrder<D>(s: State<D>, m: Move<D>)
    requires IsLoopMove(m) && Can(s, m) && !s.loop.Draining? && !s.loop.Refusing? && !m.LoopSeeClosing?
    ensures Next(s, m).executed + Waiting(Next(s, m)) == s.executed + Waiting(s)
  {
    if m.LoopReceive? {
      assert [s.buffer[0]] + s.buffer[1..] == s.buffer;
    }
  }

  lemma LoopStep<D>(s: State<D>, m: Move<D>)
    requires Inv(s) && OpenServes(s) && IsLoopMove(m) && Can(s, m)
    ensures Serves(s, Next(s, m))
  {
    assert !s.closing ==> !s.loop.Draining? && !s.loop.Refusing? && !m.LoopSeeClosing?;
    assert s.buffer != [] ==> s.buffer[0] in s.buffer;
    assert s.buffer != [] ==> s.calls[s.buffer[0]].fate == Buffered;
    assert s.loop.Holding? || s.loop.Replying? || s.loop.Refusing? ==>
        CallOk(s, s.loop.id) && s.calls[s.loop.id].fate != Unsent;
    hide Inv, CallOk, OpenServes, Waiting;
    if !s.closing {
      LoopOrder(s, m);
    }
  }

  lemma ServesThrough<D>(s: State<D>, next: State<D>, after: State<D>)
    requires Serves(s, next) && Serves(next, after)
    ensures Serves(s, after)
  {
  }

  lemma {:induction false} OnlyThrough<D>(run: Run<D>, next: Run<D>, base: Run<D>)
    requires LoopOnly(run, next) && LoopOnly(next, base)
    ensures LoopOnly(run, base)
  {
    if run != next {
      OnlyThrough(run.prev, next, base);
    }
  }

  /** With nothing in the buffer and nothing in hand, every accepted op has its answer. */
  lemma RestAnswers<D>(run: Run<D>)
    requires AtRest(At(run)) && At(run).buffer == []
    ensures Waiting(At(run)) == []
    ensures forall id :: id in At(run).calls ==> Ready(At(run), id)
  {
    InvRun(run);
    hide At;
    var s := At(run);
    forall id | id in s.calls ensures Ready(s, id) {
      assert CallOk(s, id);
      assert id !in s.buffer;
    }
  }

  /** The call's op has its answer if it was accepted; its caller can take it, or send if it has not. */
  ghost predicate Ready<D>(s: State<D>, id: nat)
    requires id in s.calls
  {
    && (s.calls[id].fate != Unsent ==> s.calls[id].sends == 1)
    && (s.calls[id].stage == Awaiting ==> |s.calls[id].reply| == 1 && Can(s, Take(id)))
    && (s.calls[id].stage == Sending ==> Can(s, Send(id)))
  }

  /** The writer goroutine serves everybody: from every reachable state before it has stopped, its own steps lead
      to rest with nothing in the buffer. Then every op that was accepted has its one answer, every caller that
      waits can take it, every other one can send; and an open store has run the accepted ops in their order. */
  lemma {:induction false} LoopServesAll<D>(run: Run<D>) returns (after: Run<D>)
    requires At(run).loop != Stopped
    ensures LoopOnly(after, run) && AtRest(At(after)) && At(after).buffer == []
    ensures Serves(At(run), At(after))
    ensures !At(run).closing ==> At(after).executed == At(run).executed + Waiting(At(run))
    ensures forall id :: id in At(run).calls ==> Ready(At(after), id)
    decreases Todo(At(run))
  {
    InvRun(run);
    OpenRun(run);
    var s := At(run);
    if AtRest(s) {
      after := run;
    } else {
      LoopCanMove(s);
      var m :| IsLoopMove(m) && Can(s, m);
      LoopStep(s, m);
      LoopTodo(s, m);
      hide Inv, OpenServes, Can, Next, IsLoopMove, Serves, Todo;
      var next := Then(run, m);
      if At(next).loop == Stopped {
        after := next;
      } else {
        after := LoopServesAll(next);
      }
      OnlyThrough(after, next, run);
      ServesThrough(s, At(next), At(after));
    }
    RestAnswers(after);
  }
}
