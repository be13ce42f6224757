/** A worker against the queue it claims from: the claims of the loop are committed claims of
    the atomic machine, among whatever every other session commits. */
module Deployment {
  import opened Schema
  import opened Queue
  import opened Lifecycle
  import opened WorkerLoop
  import WorkerTask

  /** `batch` lists the rows that a committed claim of `ids` returned, in any order. */
  ghost predicate IsAnswer(db: Db, ids: set<Id>, batch: seq<Job>) {
    && Jobs(batch) == Returning(db.jobs, ids)
    && forall i, j | 0 <= i < j < |batch| :: batch[i] != batch[j]
  }

  datatype Move =
    | Elsewhere(op: Op)
    | InWorker(e: Event)
    | ClaimCommits(op: Op, batch: seq<Job>)

  /** The queue's run, the worker's run, and the worker. */
  datatype Joint = Joint(ops: seq<Op>, events: seq<Event>, w: Worker)

  ghost predicate IsLoopClaim(cfg: Config, op: Op) {
    op.Write? && op.stmt.ClaimBatch? && op.stmt.limit == cfg.batch
  }

  ghost predicate CanMove(cfg: Config, s: Joint, m: Move) {
    match m
    case Elsewhere(op) => Enabled(Exec(s.ops), op)
    case InWorker(e) => !e.ServerCommits? && Allowed(cfg, s.w, e)
    case ClaimCommits(op, batch) =>
      && IsLoopClaim(cfg, op) && Enabled(Exec(s.ops), op)
      && IsAnswer(Apply(Exec(s.ops), op), op.ids, batch)
      && Allowed(cfg, s.w, ServerCommits(batch))
  }

  ghost function DoMove(cfg: Config, s: Joint, m: Move): Joint
    requires CanMove(cfg, s, m)
  {
    match m
    case Elsewhere(op) => s.(ops := s.ops + [op])
    case InWorker(e) => s.(events := s.events + [e], w := Happen(cfg, s.w, e))
    case ClaimCommits(op, batch) =>
      Joint(s.ops + [op], s.events + [ServerCommits(batch)], Happen(cfg, s.w, ServerCommits(batch)))
  }

  ghost predicate Plays(cfg: Config, moves: seq<Move>)
    decreases |moves|, 0
  {
    moves == [] || (Plays(cfg, Front(moves)) && CanMove(cfg, Now(cfg, Front(moves)), Last(moves)))
  }

  ghost function Now(cfg: Config, moves: seq<Move>): Joint
    requires Plays(cfg, moves)
    decreases |moves|, 1
  {
    if moves == [] then Joint([], [], Begin(cfg)) else DoMove(cfg, Now(cfg, Front(moves)), Last(moves))
  }

  /** What was ever committed for the worker bears attempt numbers up to the current one. */
  ghost predicate KnownAttempts(ops: seq<Op>, w: Worker) {
    forall j | j in w.committed :: j.attempts <= ClaimCount(ops, j.id)
  }

  lemma ClaimReturnsNextAttempt(ops: seq<Op>, op: Op, j: Job)
    requires Legal(ops) && Enabled(Exec(ops), op) && op.Write? && op.stmt.IsClaim()
    requires j in Returning(Apply(Exec(ops), op).jobs, op.ids)
    ensures j.attempts == ClaimCount(ops, j.id) + 1 == ClaimCount(ops + [op], j.id)
  {
    assert Front(ops + [op]) == ops;
    HistoryExplainsRow(ops, j.id);
  }

  /** At most `batch` jobs, each of them new to the worker. */
  lemma ClaimIsFresh(cfg: Config, ops: seq<Op>, w: Worker, op: Op, batch: seq<Job>)
    requires Legal(ops) && Enabled(Exec(ops), op) && IsLoopClaim(cfg, op)
    requires IsAnswer(Apply(Exec(ops), op), op.ids, batch) && KnownAttempts(ops, w)
    ensures |batch| <= cfg.batch && WorkerLoop.Fresh(w, batch)
  {
    forall j | j in Jobs(batch)
      ensures j !in w.committed
    {
      ClaimReturnsNextAttempt(ops, op, j);
    }
    BatchOfClaim(cfg, Exec(ops), op, batch);
  }

  lemma BatchOfClaim(cfg: Config, db: Db, op: Op, batch: seq<Job>)
    requires Enabled(db, op) && IsLoopClaim(cfg, op) && IsAnswer(Apply(db, op), op.ids, batch)
    ensures |batch| <= cfg.batch
  {
    var db' := Apply(db, op);
    forall i | 0 <= i < |batch|
      ensures RowOf(db', op.ids, batch[i])
    {
      assert batch[i] in Jobs(batch);
    }
    ListSize(db', op.ids, batch);
  }

  ghost predicate RowOf(db: Db, ids: set<Id>, j: Job) {
    j.id in ids && j.id in db.jobs && j == Job(j.id, db.jobs[j.id].kind, db.jobs[j.id].payload, db.jobs[j.id].attempts)
  }

  lemma {:induction false} ListSize(db: Db, ids: set<Id>, batch: seq<Job>)
    requires forall i | 0 <= i < |batch| :: RowOf(db, ids, batch[i])
    requires forall i, j | 0 <= i < j < |batch| :: batch[i] != batch[j]
    ensures |batch| <= |ids|
  {
    if batch != [] {
      var rest := ids - {Last(batch).id};
      forall i | 0 <= i < |Front(batch)|
        ensures RowOf(db, rest, Front(batch)[i])
      {
        assert RowOf(db, ids, batch[i]) && RowOf(db, ids, Last(batch));
      }
      ListSize(db, rest, Front(batch));
    }
  }

  lemma {:induction false} ClaimCountsGrow(ops: seq<Op>, op: Op, w: Worker)
    requires KnownAttempts(ops, w)
    ensures KnownAttempts(ops + [op], w)
  {
    assert Front(ops + [op]) == ops;
  }

  /** The queue's part is a legal run, the worker's part is a run of the loop: everything
      proved of either holds in the deployment, with nothing assumed of the claims. */
  lemma {:induction false} PartsAreRuns(cfg: Config, moves: seq<Move>)
    requires Plays(cfg, moves)
    ensures PartsOk(cfg, Now(cfg, moves))
  {
    if moves != [] {
      PartsAreRuns(cfg, Front(moves));
      MoveKeepsParts(cfg, Now(cfg, Front(moves)), Last(moves));
    }
  }

  ghost predicate PartsOk(cfg: Config, s: Joint) {
    && Legal(s.ops) && WorkerLoop.Runs(cfg, s.events) && After(cfg, s.events) == s.w
    && KnownAttempts(s.ops, s.w)
  }

  lemma MoveKeepsParts(cfg: Config, s: Joint, m: Move)
    requires PartsOk(cfg, s) && CanMove(cfg, s, m)
    ensures PartsOk(cfg, DoMove(cfg, s, m))
  {
    match m {
      case Elsewhere(op) =>
        LegalNext(s.ops, op);
        ClaimCountsGrow(s.ops, op, s.w);
      case InWorker(e) =>
        WorkerMoves(cfg, s, e);
      case ClaimCommits(op, batch) =>
        LegalNext(s.ops, op);
        ClaimIsFresh(cfg, s.ops, s.w, op, batch);
        WorkerMoves(cfg, s, ServerCommits(batch));
        ClaimCountsGrow(s.ops, op, s.w);
        forall j | j in Jobs(batch)
          ensures j.attempts <= ClaimCount(s.ops + [op], j.id)
        {
          ClaimReturnsNextAttempt(s.ops, op, j);
        }
    }
  }

  lemma LegalNext(ops: seq<Op>, op: Op)
    requires Legal(ops) && Enabled(Exec(ops), op)
    ensures Legal(ops + [op])
  {
    assert Front(ops + [op]) == ops;
  }

  lemma WorkerMoves(cfg: Config, s: Joint, e: Event)
    requires WorkerLoop.Runs(cfg, s.events) && After(cfg, s.events) == s.w && CanHappen(cfg, s.w, e)
    ensures WorkerLoop.Runs(cfg, s.events + [e]) && After(cfg, s.events + [e]) == Happen(cfg, s.w, e)
    ensures Happen(cfg, s.w, e).committed == s.w.committed + if e.ServerCommits? then Jobs(e.batch) else {}
  {
    var events := WorkerLoop.Next(cfg, s.events, e);
    CommittedGrows(cfg, s.w, e);
  }

  /** All jobs that the committed claims of this worker returned. */
  ghost function ReturnedByClaims(moves: seq<Move>): set<Job> {
    if moves == [] then {}
    else ReturnedByClaims(Front(moves)) + if Last(moves).ClaimCommits? then Jobs(Last(moves).batch) else {}
  }

  /** Drain soundness in the deployment: after a complete drain every job that any committed
      claim of this worker returned was handed to the handler exactly once and has finished,
      or was lost once with the claim that the cancellation dropped; and no other job was. */
  lemma DrainSoundnessInDeployment(cfg: Config, moves: seq<Move>)
    requires Plays(cfg, moves) && cfg.fanout < TWO_TO_THE_32
    requires Now(cfg, moves).w.phase == Returned(Drained)
    ensures var w := Now(cfg, moves).w;
            && w.running == multiset{} && w.handed == w.received && multiset(w.handed) == w.finished
            && forall j :: multiset(w.handed)[j] + multiset(w.lost)[j] == if j in ReturnedByClaims(moves) then 1 else 0
  {
    PartsAreRuns(cfg, moves);
    CommittedByClaims(cfg, moves);
    var w := Now(cfg, moves).w;
    RunKeepsDeliveredOnce(cfg, Now(cfg, moves).events);
    RunKeepsWorkerOk(cfg, Now(cfg, moves).events);
    DrainedIsSettled(cfg, w);
    assert forall j :: Deliveries(w)[j] == multiset(w.handed)[j] + multiset(w.lost)[j];
  }

  lemma {:induction false} CommittedByClaims(cfg: Config, moves: seq<Move>)
    requires Plays(cfg, moves)
    ensures Now(cfg, moves).w.committed == ReturnedByClaims(moves)
  {
    if moves != [] {
      CommittedByClaims(cfg, Front(moves));
      MoveCommits(cfg, Now(cfg, Front(moves)), Last(moves));
    }
  }

  lemma MoveCommits(cfg: Config, s: Joint, m: Move)
    requires CanMove(cfg, s, m)
    ensures DoMove(cfg, s, m).w.committed == s.w.committed + if m.ClaimCommits? then Jobs(m.batch) else {}
  {
    match m {
      case Elsewhere(op) =>
      case InWorker(e) => CommittedGrows(cfg, s.w, e);
      case ClaimCommits(op, batch) => CommittedGrows(cfg, s.w, ServerCommits(batch));
    }
  }

  /** The steps that the moves make the queue take, and the events of the worker. */
  ghost function StepsOf(moves: seq<Move>): seq<Op> {
    if moves == [] then []
    else StepsOf(Front(moves)) + match Last(moves)
                                 case Elsewhere(op) => [op]
                                 case InWorker(_) => []
                                 case ClaimCommits(op, _) => [op]
  }

  ghost function EventsOf(moves: seq<Move>): seq<Event> {
    if moves == [] then []
    else EventsOf(Front(moves)) + match Last(moves)
                                  case Elsewhere(_) => []
                                  case InWorker(e) => [e]
                                  case ClaimCommits(_, batch) => [ServerCommits(batch)]
  }

  /** Nothing is dropped from either part; other sessions may commit whatever the queue
      allows, and the worker may do whatever the loop allows. */
  lemma PartsAreComplete(cfg: Config, moves: seq<Move>)
    requires Plays(cfg, moves)
    ensures Now(cfg, moves).ops == StepsOf(moves) && Now(cfg, moves).events == EventsOf(moves)
    ensures forall op | Legal(StepsOf(moves) + [op]) :: Plays(cfg, moves + [Elsewhere(op)])
    ensures forall e: Event | !e.ServerCommits? && WorkerLoop.Runs(cfg, EventsOf(moves) + [e]) ::
              Plays(cfg, moves + [InWorker(e)])
  {
    NothingDropped(cfg, moves);
    PartsAreRuns(cfg, moves);
    forall op | Legal(StepsOf(moves) + [op])
      ensures Plays(cfg, moves + [Elsewhere(op)])
    {
      QueueMoves(cfg, moves, op);
    }
    forall e: Event | !e.ServerCommits? && WorkerLoop.Runs(cfg, EventsOf(moves) + [e])
      ensures Plays(cfg, moves + [InWorker(e)])
    {
      WorkerMovesOn(cfg, moves, e);
    }
  }

  lemma {:induction false} NothingDropped(cfg: Config, moves: seq<Move>)
    requires Plays(cfg, moves)
    ensures Now(cfg, moves).ops == StepsOf(moves) && Now(cfg, moves).events == EventsOf(moves)
  {
    if moves != [] {
      NothingDropped(cfg, Front(moves));
    }
  }

  lemma QueueMoves(cfg: Config, moves: seq<Move>, op: Op)
    requires Plays(cfg, moves) && Legal(Now(cfg, moves).ops + [op])
    ensures Plays(cfg, moves + [Elsewhere(op)])
  {
    var ops := Now(cfg, moves).ops;
    assert Front(ops + [op]) == ops && Last(ops + [op]) == op;
    assert Front(moves + [Elsewhere(op)]) == moves && Last(moves + [Elsewhere(op)]) == Elsewhere(op);
  }

  lemma WorkerMovesOn(cfg: Config, moves: seq<Move>, e: Event)
    requires Plays(cfg, moves) && PartsOk(cfg, Now(cfg, moves)) && !e.ServerCommits?
    requires WorkerLoop.Runs(cfg, Now(cfg, moves).events + [e])
    ensures Plays(cfg, moves + [InWorker(e)])
  {
    var events := Now(cfg, moves).events;
    assert Front(events + [e]) == events && Last(events + [e]) == e;
    assert Front(moves + [InWorker(e)]) == moves && Last(moves + [InWorker(e)]) == InWorker(e);
  }

  /** Whatever the queue lets a claim of the loop take can be the answer to the claim in
      flight: the deployment excludes none. */
  lemma EveryClaimCanBeAnswered(cfg: Config, moves: seq<Move>, op: Op) returns (batch: seq<Job>)
    requires Plays(cfg, moves) && Now(cfg, moves).w.phase == Claiming(None)
    requires IsLoopClaim(cfg, op) && Enabled(Exec(Now(cfg, moves).ops), op)
    ensures Plays(cfg, moves + [ClaimCommits(op, batch)])
    ensures Jobs(batch) == Returning(Apply(Exec(Now(cfg, moves).ops), op).jobs, op.ids)
  {
    batch := ListOf(Returning(Apply(Exec(Now(cfg, moves).ops), op).jobs, op.ids));
    assert Front(moves + [ClaimCommits(op, batch)]) == moves;
  }

  lemma {:induction false} ListOf(jobs: set<Job>) returns (list: seq<Job>)
    ensures Jobs(list) == jobs && forall i, j | 0 <= i < j < |list| :: list[i] != list[j]
  {
    list := [];
    if jobs != {} {
      var job :| job in jobs;
      var rest := ListOf(jobs - {job});
      assert job !in Jobs(rest);
      list := rest + [job];
      assert Jobs(list) == Jobs(rest) + {job};
    }
  }

  // ----- The answers of the claims, in order

  /** `answers[k]` came from step `at[k]` of the queue's run, or is an error, which has no
      step there. */
  ghost predicate AnswersFrom(cfg: Config, ops: seq<Op>, at: seq<nat>, answers: WorkerTask.Answers) {
    && |at| == |answers|
    && (forall k, l | 0 <= k < l < |at| && answers[k].Some? && answers[l].Some? :: at[k] < at[l])
    && forall k | 0 <= k < |at| && answers[k].Some? ::
      && at[k] < |ops| && IsLoopClaim(cfg, ops[at[k]])
      && IsAnswer(Exec(ops[..at[k] + 1]), ops[at[k]].ids, answers[k].value)
  }

  /** Whatever else the queue does meanwhile, the answers are as `run_worker` needs them. */
  lemma AnswersAreHandouts(cfg: Config, ops: seq<Op>, at: seq<nat>, answers: WorkerTask.Answers)
    requires Legal(ops) && AnswersFrom(cfg, ops, at, answers)
    ensures WorkerTask.Handouts(cfg, answers)
  {
    forall k | 0 <= k < |answers| && answers[k].Some?
      ensures WorkerTask.IsHandout(cfg, Jobs(WorkerTask.Handed(answers[..k])), answers[k].value)
    {
      LegalPrefix(ops, at[k]);
      BatchOfClaim(cfg, Exec(ops[..at[k]]), ops[at[k]], answers[k].value);
      forall j | j in answers[k].value
        ensures j !in WorkerTask.Handed(answers[..k])
      {
        HandedOnce(cfg, ops, at, answers, k, k, j);
      }
    }
  }

  /** A job of answer `k` is in none of the answers before `i`. */
  lemma {:induction false} HandedOnce(cfg: Config, ops: seq<Op>, at: seq<nat>, answers: WorkerTask.Answers,
                                      i: nat, k: nat, j: Job)
    requires Legal(ops) && AnswersFrom(cfg, ops, at, answers) && i <= k < |answers|
    requires answers[k].Some? && j in answers[k].value
    ensures j !in WorkerTask.Handed(answers[..i])
    decreases i
  {
    if i > 0 {
      HandedOnce(cfg, ops, at, answers, i - 1, k, j);
      WorkerTask.HandedNext(answers, i - 1);
      AnswersAreDisjoint(cfg, ops, at, answers, i - 1, k, j);
    }
  }

  lemma AnswersAreDisjoint(cfg: Config, ops: seq<Op>, at: seq<nat>, answers: WorkerTask.Answers,
                           i: nat, k: nat, j: Job)
    requires Legal(ops) && AnswersFrom(cfg, ops, at, answers) && i < k < |answers|
    requires answers[k].Some? && j in answers[k].value
    ensures answers[i].Some? ==> j !in answers[i].value
  {
    if answers[i].Some? {
      NotReturnedTwice(ops, at[i], at[k], answers[i].value, answers[k].value, j);
    }
  }

  lemma NotReturnedTwice(ops: seq<Op>, p: nat, q: nat, first: seq<Job>, second: seq<Job>, j: Job)
    requires Legal(ops) && p < q < |ops|
    requires ops[p].Write? && ops[p].stmt.IsClaim() && IsAnswer(Exec(ops[..p + 1]), ops[p].ids, first)
    requires ops[q].Write? && ops[q].stmt.IsClaim() && IsAnswer(Exec(ops[..q + 1]), ops[q].ids, second)
    ensures j !in first || j !in second
  {
    if j in first && j in second {
      JobOfClaim(ops, p, j, first);
      JobOfClaim(ops, q, j, second);
      HandoutsAreDistinct(ops, j.id, p, q);
    }
  }

  lemma JobOfClaim(ops: seq<Op>, i: nat, j: Job, batch: seq<Job>)
    requires Legal(ops) && i < |ops| && ops[i].Write? && ops[i].stmt.IsClaim()
    requires IsAnswer(Exec(ops[..i + 1]), ops[i].ids, batch) && j in batch
    ensures ops[i].Claims(j.id) && RowOf(Exec(ops[..i + 1]), ops[i].ids, j)
  {
    assert j in Jobs(batch);
  }
}
