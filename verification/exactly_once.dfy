/** The queue and the handler together: jobs may be reaped and run several times at once,
    handlers may crash anywhere, and still a completed job has had its effect exactly once. */
module ExactlyOnceEffect {
  import opened Schema
  import opened Queue
  import opened Lifecycle
  import Ledger

  datatype World = World(db: Db, ledger: Ledger.State)

  datatype Move =
    | OnQueue(op: Op)
    | OnLedger(step: Ledger.Step)

  const BEGIN: World := World(EMPTY, Ledger.CLEAN)

  /** Some run of `process` on the job's event returned Ok. */
  ghost predicate Processed(ledger: Ledger.State, r: Row) {
    && r.payload.carrierId.Some?
    && exists i :: 0 <= i < |ledger.replies|
                   && ledger.replies[i].key == Ledger.Key(r.payload.carrierId.value, r.payload.eventId)
  }

  /** The only rule handlers follow: mark a job done after `process` returned Ok for it.
      Claims, reaps, retries and dead letters, and the runs of `process`, are unrestricted. */
  ghost predicate CanMove(w: World, m: Move) {
    match m
    case OnLedger(step) => Ledger.CanStep(w.ledger, step)
    case OnQueue(op) =>
      && Enabled(w.db, op)
      && (op.Write? && op.stmt.MarkDone? ==> forall id | id in op.ids :: Processed(w.ledger, w.db.jobs[id]))
  }

  ghost function DoMove(w: World, m: Move): World
    requires CanMove(w, m)
  {
    match m
    case OnLedger(step) => w.(ledger := Ledger.DoStep(w.ledger, step))
    case OnQueue(op) => w.(db := Apply(w.db, op))
  }

  ghost predicate Plays(moves: seq<Move>)
    decreases |moves|, 0
  {
    moves == [] || (Plays(Front(moves)) && CanMove(Now(Front(moves)), Last(moves)))
  }

  ghost function Now(moves: seq<Move>): World
    requires Plays(moves)
    decreases |moves|, 1
  {
    if moves == [] then BEGIN else DoMove(Now(Front(moves)), Last(moves))
  }

  ghost predicate DoneHadEffect(w: World) {
    forall id | id in w.db.jobs && w.db.jobs[id].state == Done :: Processed(w.ledger, w.db.jobs[id])
  }

  lemma LedgerKeepsProcessed(l: Ledger.State, step: Ledger.Step, r: Row)
    requires Ledger.CanStep(l, step) && Processed(l, r)
    ensures Processed(Ledger.DoStep(l, step), r)
  {
    assert l.replies <= Ledger.DoStep(l, step).replies;
    var i :| 0 <= i < |l.replies| && l.replies[i].key == Ledger.Key(r.payload.carrierId.value, r.payload.eventId);
    assert Ledger.DoStep(l, step).replies[i] == l.replies[i];
  }

  lemma QueueKeepsDone(w: World, op: Op)
    requires CanMove(w, OnQueue(op)) && DoneHadEffect(w)
    ensures DoneHadEffect(DoMove(w, OnQueue(op)))
  {
  }

  lemma {:induction false} DoneWasProcessed(moves: seq<Move>)
    requires Plays(moves)
    ensures DoneHadEffect(Now(moves)) && DbOk(Now(moves).db)
  {
    if moves != [] {
      var w := Now(Front(moves));
      DoneWasProcessed(Front(moves));
      match Last(moves) {
        case OnLedger(step) =>
          forall id | id in w.db.jobs && w.db.jobs[id].state == Done
            ensures Processed(Ledger.DoStep(w.ledger, step), w.db.jobs[id])
          {
            LedgerKeepsProcessed(w.ledger, step, w.db.jobs[id]);
          }
        case OnQueue(op) =>
          StepKeepsDbOk(w.db, op);
          QueueKeepsDone(w, op);
      }
    }
  }

  lemma {:induction false} LedgerOk(moves: seq<Move>, key: string)
    requires Plays(moves)
    ensures Ledger.CallsOk(Now(moves).ledger) && Ledger.KeyOk(Now(moves).ledger, key)
  {
    if moves != [] {
      LedgerOk(Front(moves), key);
      if Last(moves).OnLedger? {
        Ledger.StepKeepsCallsOk(Now(Front(moves)).ledger, Last(moves).step);
        Ledger.StepKeepsKeyOk(Now(Front(moves)).ledger, Last(moves).step, key);
      }
    }
  }

  /** End to end: in every run, with double execution by the reaper, crashes, rollbacks and
      lost replies, a job that is done has exactly one effect. */
  lemma DoneMeansExactlyOneEffect(moves: seq<Move>, id: Id)
    requires Plays(moves)
    requires id in Now(moves).db.jobs && Now(moves).db.jobs[id].state == Done
    ensures var p := Now(moves).db.jobs[id].payload;
            && p.carrierId.Some?
            && Ledger.Effects(Now(moves).ledger.effects, Ledger.Key(p.carrierId.value, p.eventId)) == 1
  {
    var r := Now(moves).db.jobs[id];
    DoneWasProcessed(moves);
    LedgerOk(moves, Ledger.Key(r.payload.carrierId.value, r.payload.eventId));
  }

  // ----- The world is the queue and the ledger

  ghost function QueueSteps(moves: seq<Move>): seq<Op> {
    if moves == [] then [] else QueueSteps(Front(moves)) + if Last(moves).OnQueue? then [Last(moves).op] else []
  }

  ghost function LedgerSteps(moves: seq<Move>): seq<Ledger.Step> {
    if moves == [] then [] else LedgerSteps(Front(moves)) + if Last(moves).OnLedger? then [Last(moves).step] else []
  }

  lemma {:induction false} WorldIsParts(moves: seq<Move>)
    requires Plays(moves)
    ensures Legal(QueueSteps(moves)) && Now(moves).db == Exec(QueueSteps(moves))
    ensures Ledger.Runs(LedgerSteps(moves)) && Now(moves).ledger == Ledger.After(LedgerSteps(moves))
  {
    if moves != [] {
      WorldIsParts(Front(moves));
      if Last(moves).OnQueue? {
        assert Front(QueueSteps(moves)) == QueueSteps(Front(moves));
        assert LedgerSteps(moves) == LedgerSteps(Front(moves));
      } else {
        assert Front(LedgerSteps(moves)) == LedgerSteps(Front(moves));
        assert QueueSteps(moves) == QueueSteps(Front(moves));
      }
    }
  }

  lemma MayFollow(moves: seq<Move>, m: Move)
    requires Plays(moves) && CanMove(Now(moves), m)
    ensures Plays(moves + [m])
  {
    assert Front(moves + [m]) == moves && Last(moves + [m]) == m;
  }

  lemma LegalNext(ops: seq<Op>, op: Op)
    requires Legal(ops + [op])
    ensures Enabled(Exec(ops), op)
  {
    assert Front(ops + [op]) == ops && Last(ops + [op]) == op;
  }

  lemma LedgerNext(steps: seq<Ledger.Step>, step: Ledger.Step)
    requires Ledger.Runs(steps) && Ledger.Runs(steps + [step])
    ensures Ledger.CanStep(Ledger.After(steps), step)
  {
    assert Front(steps + [step]) == steps && Last(steps + [step]) == step;
  }

  /** Both parts are runs of their machines with nothing left out, and the rule for mark_done
      is the only restriction: any other statement and any step of a handler may follow. */
  lemma OnlyRuleIsForMarkDone(moves: seq<Move>)
    requires Plays(moves)
    ensures Legal(QueueSteps(moves)) && Now(moves).db == Exec(QueueSteps(moves))
    ensures Ledger.Runs(LedgerSteps(moves)) && Now(moves).ledger == Ledger.After(LedgerSteps(moves))
    ensures forall op | Legal(QueueSteps(moves) + [op]) && !(op.Write? && op.stmt.MarkDone?) ::
              Plays(moves + [OnQueue(op)])
    ensures forall step | Ledger.Runs(LedgerSteps(moves) + [step]) :: Plays(moves + [OnLedger(step)])
  {
    WorldIsParts(moves);
    forall op | Legal(QueueSteps(moves) + [op]) && !(op.Write? && op.stmt.MarkDone?)
      ensures Plays(moves + [OnQueue(op)])
    {
      LegalNext(QueueSteps(moves), op);
      MayFollow(moves, OnQueue(op));
    }
    forall step | Ledger.Runs(LedgerSteps(moves) + [step])
      ensures Plays(moves + [OnLedger(step)])
    {
      LedgerNext(LedgerSteps(moves), step);
      MayFollow(moves, OnLedger(step));
    }
  }

  // ----- Done can always be reached

  ghost function OnLedgerAll(steps: seq<Ledger.Step>): seq<Move> {
    seq(|steps|, i requires 0 <= i < |steps| => OnLedger(steps[i]))
  }

  lemma OneMoreStep(moves: seq<Move>, step: Ledger.Step)
    requires Plays(moves) && Ledger.CanStep(Now(moves).ledger, step)
    ensures Plays(moves + [OnLedger(step)])
    ensures Now(moves + [OnLedger(step)]) == Now(moves).(ledger := Ledger.DoStep(Now(moves).ledger, step))
  {
    assert Front(moves + [OnLedger(step)]) == moves && Last(moves + [OnLedger(step)]) == OnLedger(step);
  }

  lemma {:induction false} LedgerRuns(moves: seq<Move>, steps: seq<Ledger.Step>)
    requires Plays(moves) && Ledger.DoAll(Now(moves).ledger, steps).Some?
    ensures Plays(moves + OnLedgerAll(steps))
    ensures Now(moves + OnLedgerAll(steps)) == Now(moves).(ledger := Ledger.DoAll(Now(moves).ledger, steps).value)
  {
    var all := moves + OnLedgerAll(steps);
    if steps == [] {
      assert all == moves;
    } else {
      LedgerRuns(moves, Front(steps));
      OneMoreStep(moves + OnLedgerAll(Front(steps)), Last(steps));
      assert all == moves + OnLedgerAll(Front(steps)) + [OnLedger(Last(steps))];
    }
  }

  lemma {:induction false} NewCall(used: set<Ledger.CallId>) returns (c: Ledger.CallId)
    ensures forall d | d in used :: d < c
  {
    c := 0;
    if used != {} {
      var d :| d in used;
      var rest := NewCall(used - {d});
      c := if rest > d then rest else d + 1;
      assert forall e | e in used :: e == d || e in used - {d};
    }
  }

  /** From every reachable world every live job that names its carrier can be processed and
      marked done, in whatever state the queue and the handlers have left it. */
  lemma DoneIsReachable(moves: seq<Move>, id: Id) returns (more: seq<Move>)
    requires Plays(moves) && id in Now(moves).db.jobs && Now(moves).db.jobs[id].payload.carrierId.Some?
    ensures Plays(more) && moves <= more
    ensures id in Now(more).db.jobs && Now(more).db.jobs[id].state == Done
  {
    var w := Now(moves);
    var r := w.db.jobs[id];
    LedgerOk(moves, "");
    var c := NewCall(w.ledger.used);
    var steps := Ledger.EventCanBeAnswered(w.ledger, c, r.payload.carrierId.value, r.payload.eventId);
    LedgerRuns(moves, steps);
    var answered := moves + OnLedgerAll(steps);
    ToldMeansProcessed(Now(answered).ledger, c, r);
    var finish := OnQueue(Write(MarkDone(id, ""), {id}, w.db.clock));
    more := answered + [finish];
    assert Front(more) == answered;
  }

  lemma ToldMeansProcessed(ledger: Ledger.State, c: Ledger.CallId, r: Row)
    requires r.payload.carrierId.Some?
    requires exists reply :: reply in ledger.replies && reply.call == c
                             && reply.key == Ledger.Key(r.payload.carrierId.value, r.payload.eventId)
    ensures Processed(ledger, r)
  {
    var reply :| reply in ledger.replies && reply.call == c
                 && reply.key == Ledger.Key(r.payload.carrierId.value, r.payload.eventId);
    var i :| 0 <= i < |ledger.replies| && ledger.replies[i] == reply;
  }
}
