/** The fine-grained machine: every statement runs in its own transaction, step by step,
    interleaved with all others.

    Rules assumed of PostgreSQL 16 at Read Committed (its documentation, section 13.2.1,
    section 13.3.2 and "The Locking Clause" of the SELECT page): now() is fixed when the
    transaction opens; a statement finds rows in the snapshot it takes; before it changes a
    row it locks it and checks its WHERE clause again on the newest committed version; locks
    last until the transaction ends; SKIP LOCKED passes over a row another transaction
    holds, every other statement waits for it. A transaction may abort at any step. */
module Transactions {
  import opened Schema
  import opened Queue
  import opened Lifecycle
  import Fairness

  type Tid = nat

  datatype Tx =
    | Opened(stmt: Stmt, now: Time)
      // `order` lists the snapshot's matching rows as they will be visited; `picked` those
      // that passed the second check; `staged` the new rows this transaction will commit.
    | Scanning(stmt: Stmt, now: Time, snap: map<Id, Row>, order: seq<Id>, pos: nat,
               held: set<Id>, picked: seq<Id>, written: bool, staged: map<Id, Row>)
      // A producer's transaction: any number of enqueues, then commit or rollback.
    | Producing(now: Time, rows: map<Id, Row>)
  {
    function HeldIds(): set<Id> { if Scanning? then held else {} }
    function NewIds(): set<Id> { if Producing? then rows.Keys else {} }

    /** The inner select of a claim stops at its LIMIT; every statement stops at the end. */
    predicate ScanDone() {
      Scanning? && (pos >= |order| || (stmt.IsClaim() && |picked| >= stmt.Window()))
    }
  }

  /** `started` keeps transaction ids unique; `nextId` is the identity sequence, which a
      rollback does not wind back. */
  datatype Sys = Sys(db: Db, txs: map<Tid, Tx>, started: set<Tid>, nextId: Id)

  datatype Step =
    | Advance(to: Time)
    | Open(t: Tid, stmt: Stmt)
    | Begin(t: Tid)
    | Enqueue(t: Tid, kind: string, payload: Payload, runAt: Option<Time>)
    | Snapshot(t: Tid, order: seq<Id>)
    | Visit(t: Tid)
    | Outer(t: Tid, rank: seq<Id>)
    | Commit(t: Tid)
    | Abort(t: Tid)

  const START: Sys := Sys(EMPTY, map[], {}, 1)

  ghost function Elems(s: seq<Id>): set<Id> {
    set x | x in s
  }

  ghost predicate NoDup(s: seq<Id>) {
    forall i, j | 0 <= i < j < |s| :: s[i] != s[j]
  }

  ghost predicate OldestFirst(jobs: map<Id, Row>, s: seq<Id>) {
    && (forall x | x in s :: x in jobs)
    && forall i, j | 0 <= i < j < |s| :: jobs[s[i]].runAt <= jobs[s[j]].runAt
  }

  /** The matching rows of a snapshot in the order they are visited. ORDER BY run_at leaves
      ties open, and the other statements have no ORDER BY. */
  ghost predicate IsScanOrder(jobs: map<Id, Row>, s: Stmt, now: Time, order: seq<Id>) {
    NoDup(order) && Elems(order) == Matching(jobs, s, now) && (s.IsClaim() ==> OldestFirst(jobs, order))
  }

  /** The locked rows as row_number() ranks them, by the run_at of the locked versions. */
  ghost predicate IsRanking(jobs: map<Id, Row>, picked: seq<Id>, rank: seq<Id>) {
    NoDup(rank) && Elems(rank) == Elems(picked) && OldestFirst(jobs, rank)
  }

  function Candidates(jobs: map<Id, Row>, rank: seq<Id>): seq<Fairness.Candidate>
    requires forall x | x in rank :: x in jobs
  {
    seq(|rank|, i requires 0 <= i < |rank| => Fairness.CandidateOf(jobs, rank[i]))
  }

  /** The ids the outer UPDATE of a claim writes. */
  ghost function Chosen(s: Stmt, jobs: map<Id, Row>, rank: seq<Id>): set<Id>
    requires s.IsClaim() && forall x | x in rank :: x in jobs
  {
    if s.ClaimBatch? then Elems(rank) else Fairness.KeptIds(Candidates(jobs, rank), s.cap)
  }

  ghost predicate HeldByOther(s: Sys, t: Tid, id: Id) {
    exists u :: u in s.txs && u != t && id in s.txs[u].HeldIds()
  }

  /** The second check: the row is still there and still matches. */
  ghost predicate Rechecks(s: Sys, t: Tid, id: Id)
    requires t in s.txs && s.txs[t].Scanning?
  {
    id in s.db.jobs && Matches(s.txs[t].stmt, id, s.db.jobs[id], s.txs[t].now)
  }

  ghost predicate CanStep(s: Sys, step: Step) {
    match step
    case Advance(to) => s.db.clock <= to
    case Open(t, _) => t !in s.started
    case Begin(t) => t !in s.started
    case Enqueue(t, _, _, _) => t in s.txs && s.txs[t].Producing?
    case Snapshot(t, order) =>
      && t in s.txs && s.txs[t].Opened? && s.txs[t].stmt.Evaluates()
      && IsScanOrder(s.db.jobs, s.txs[t].stmt, s.txs[t].now, order)
    case Visit(t) =>
      && t in s.txs && s.txs[t].Scanning? && !s.txs[t].ScanDone() && !s.txs[t].written
      && (s.txs[t].stmt.IsClaim() || !HeldByOther(s, t, s.txs[t].order[s.txs[t].pos]))
    case Outer(t, rank) =>
      && t in s.txs && s.txs[t].ScanDone() && s.txs[t].stmt.IsClaim() && !s.txs[t].written
      && IsRanking(s.db.jobs, s.txs[t].picked, rank)
    case Commit(t) =>
      && t in s.txs
      && (s.txs[t].Producing? || (s.txs[t].ScanDone() && (s.txs[t].stmt.IsClaim() ==> s.txs[t].written)))
    case Abort(t) => t in s.txs
  }

  ghost function AfterVisit(s: Sys, t: Tid): Tx
    requires CanStep(s, Visit(t))
  {
    var tx := s.txs[t];
    var id := tx.order[tx.pos];
    if HeldByOther(s, t, id) || id !in s.db.jobs then
      tx.(pos := tx.pos + 1)
    else if !Rechecks(s, t, id) then
      tx.(pos := tx.pos + 1, held := tx.held + {id})
    else if tx.stmt.IsClaim() then
      tx.(pos := tx.pos + 1, held := tx.held + {id}, picked := tx.picked + [id])
    else
      tx.(pos := tx.pos + 1, held := tx.held + {id}, picked := tx.picked + [id],
          staged := tx.staged[id := Effect(tx.stmt, s.db.jobs[id], tx.now)])
  }

  ghost function AfterOuter(s: Sys, t: Tid, rank: seq<Id>): Tx
    requires CanStep(s, Outer(t, rank))
  {
    var tx := s.txs[t];
    var ids := Chosen(tx.stmt, s.db.jobs, rank);
    tx.(written := true,
        staged := map id | id in ids && id in s.db.jobs :: Effect(tx.stmt, s.db.jobs[id], tx.now))
  }

  /** Committing installs the staged rows as they were computed, without looking again. */
  ghost function Install(db: Db, tx: Tx): Db {
    match tx
    case Opened(_, _) => db
    case Producing(_, rows) => db.(jobs := db.jobs + rows, issued := db.issued + rows.Keys)
    case Scanning(s, now, _, _, _, _, _, _, staged) =>
      if s.DeadLetter? then
        db.(jobs := db.jobs - staged.Keys,
            dead := db.dead + if s.id in staged then [DeadRow(s.id, staged[s.id], now)] else [])
      else
        db.(jobs := db.jobs + staged)
  }

  ghost function DoStep(s: Sys, step: Step): Sys
    requires CanStep(s, step)
  {
    match step
    case Advance(to) => s.(db := s.db.(clock := to))
    case Open(t, stmt) => s.(txs := s.txs[t := Opened(stmt, s.db.clock)], started := s.started + {t})
    case Begin(t) => s.(txs := s.txs[t := Producing(s.db.clock, map[])], started := s.started + {t})
    case Enqueue(t, kind, payload, runAt) =>
      var due := if runAt.Some? then runAt.value else s.txs[t].now;
      s.(txs := s.txs[t := s.txs[t].(rows := s.txs[t].rows[s.nextId := NewRow(kind, payload, due)])],
         nextId := s.nextId + 1)
    case Snapshot(t, order) =>
      s.(txs := s.txs[t := Scanning(s.txs[t].stmt, s.txs[t].now, s.db.jobs, order, 0, {}, [], false, map[])])
    case Visit(t) => s.(txs := s.txs[t := AfterVisit(s, t)])
    case Outer(t, rank) => s.(txs := s.txs[t := AfterOuter(s, t, rank)])
    case Commit(t) => s.(db := Install(s.db, s.txs[t]), txs := s.txs - {t})
    case Abort(t) => s.(txs := s.txs - {t})
  }

  ghost predicate Runs(steps: seq<Step>)
    decreases |steps|, 0
  {
    steps == [] || (Runs(Front(steps)) && CanStep(SysOf(Front(steps)), Last(steps)))
  }

  ghost function SysOf(steps: seq<Step>): Sys
    requires Runs(steps)
    decreases |steps|, 1
  {
    if steps == [] then START else DoStep(SysOf(Front(steps)), Last(steps))
  }

  // ----- Invariant

  ghost predicate TxOk(db: Db, tx: Tx) {
    && tx.now <= db.clock
    && match tx
       case Opened(_, _) => true
       case Producing(_, rows) =>
         && rows.Keys !! db.issued
         && forall id | id in rows :: rows[id] == NewRow(rows[id].kind, rows[id].payload, rows[id].runAt)
       case Scanning(s, now, _, order, pos, held, picked, _, staged) =>
         && NoDup(order) && pos <= |order| && NoDup(picked)
         && (forall i | pos <= i < |order| :: order[i] !in held)
         && (forall x | x in picked :: x in held)
         && (s.IsClaim() ==> |picked| <= s.Window())
         && (!s.IsClaim() ==> staged.Keys == Elems(picked))
         && PickedOk(db, tx)
  }

  /** What was picked still matches in the newest committed state, and what was staged is
      still its image. */
  ghost predicate PickedOk(db: Db, tx: Tx)
    requires tx.Scanning?
  {
    && (forall x | x in tx.picked :: x in db.jobs && Matches(tx.stmt, x, db.jobs[x], tx.now))
    && (forall x | x in tx.staged ::
          x in tx.picked && x in db.jobs && tx.staged[x] == Effect(tx.stmt, db.jobs[x], tx.now))
  }

  ghost predicate SysOk(s: Sys) {
    && DbOk(s.db)
    && s.txs.Keys <= s.started
    && (forall id | id in s.db.issued :: id < s.nextId)
    && (forall t | t in s.txs :: TxOk(s.db, s.txs[t]))
    && (forall t, id | t in s.txs && id in s.txs[t].NewIds() :: id < s.nextId)
    && (forall t, u | t in s.txs && u in s.txs && t != u ::
          s.txs[t].HeldIds() !! s.txs[u].HeldIds() && s.txs[t].NewIds() !! s.txs[u].NewIds())
  }

  // ----- Refinement

  /** What a commit amounts to. */
  ghost function CommitOp(tx: Tx): Op
    requires !tx.Opened?
  {
    if tx.Producing? then Insert(tx.rows) else Write(tx.stmt, tx.staged.Keys, tx.now)
  }

  /** The atomic step a fine step amounts to; all steps but these change nothing that is
      committed. */
  ghost function Abstract(s: Sys, step: Step): Option<Op>
    requires CanStep(s, step)
  {
    match step
    case Advance(to) => Some(Tick(to))
    case Commit(t) => Some(CommitOp(s.txs[t]))
    case _ => None
  }

  lemma {:induction false} ElemsSize(s: seq<Id>)
    ensures |Elems(s)| <= |s|
  {
    if s != [] {
      ElemsSize(Front(s));
      assert Elems(s) == Elems(Front(s)) + {Last(s)};
    }
  }

  /** What a transaction relies on survives any change to rows it does not hold. */
  lemma TxFrame(db: Db, db': Db, tx: Tx)
    requires TxOk(db, tx) && db.clock <= db'.clock
    requires db'.issued !! tx.NewIds()
    requires forall id | id in tx.HeldIds() && id in db.jobs :: id in db'.jobs && db'.jobs[id] == db.jobs[id]
    ensures TxOk(db', tx)
  {
  }

  /** A commit is an atomic step on the state it commits to. */
  lemma CommitRefines(db: Db, tx: Tx)
    requires !tx.Opened? && TxOk(db, tx)
    ensures Enabled(db, CommitOp(tx)) && Install(db, tx) == Apply(db, CommitOp(tx))
  {
    if tx.Scanning? {
      ElemsSize(tx.picked);
      assert tx.staged.Keys <= Elems(tx.picked);
      Fairness.SubsetSize(tx.staged.Keys, Elems(tx.picked));
      StagedIsWritten(db, tx);
    }
  }

  lemma StagedIsWritten(db: Db, tx: Tx)
    requires tx.Scanning? && PickedOk(db, tx)
    ensures Install(db, tx) == Apply(db, CommitOp(tx))
  {
    if !tx.stmt.DeadLetter? {
      assert db.jobs + tx.staged == Written(db.jobs, tx.stmt, tx.staged.Keys, tx.now);
    }
  }

  /** It leaves all rows but the held ones. */
  lemma CommitFrame(db: Db, tx: Tx)
    requires !tx.Opened? && TxOk(db, tx) && Conserved(db)
    ensures Install(db, tx).clock == db.clock && Install(db, tx).issued == db.issued + tx.NewIds()
    ensures forall id | id in db.jobs && id !in tx.HeldIds() ::
              id in Install(db, tx).jobs && Install(db, tx).jobs[id] == db.jobs[id]
  {
  }

  /** A transaction that ends may change the rows it held and add its new ids. */
  lemma EndKeepsSysOk(s: Sys, t: Tid, db: Db)
    requires SysOk(s) && t in s.txs && DbOk(db) && db.clock == s.db.clock
    requires db.issued == s.db.issued + s.txs[t].NewIds()
    requires forall id | id in s.db.jobs && id !in s.txs[t].HeldIds() :: id in db.jobs && db.jobs[id] == s.db.jobs[id]
    ensures SysOk(s.(db := db, txs := s.txs - {t}))
  {
    forall u | u in s.txs && u != t
      ensures TxOk(db, s.txs[u])
    {
      TxFrame(s.db, db, s.txs[u]);
    }
  }

  lemma CommitKeepsSysOk(s: Sys, t: Tid)
    requires SysOk(s) && CanStep(s, Commit(t))
    ensures SysOk(DoStep(s, Commit(t)))
    ensures Enabled(s.db, CommitOp(s.txs[t])) && DoStep(s, Commit(t)).db == Apply(s.db, CommitOp(s.txs[t]))
  {
    CommitRefines(s.db, s.txs[t]);
    StepKeepsDbOk(s.db, CommitOp(s.txs[t]));
    CommitFrame(s.db, s.txs[t]);
    EndKeepsSysOk(s, t, Install(s.db, s.txs[t]));
  }

  lemma VisitKeepsPickedOk(s: Sys, t: Tid)
    requires SysOk(s) && CanStep(s, Visit(t))
    ensures PickedOk(s.db, AfterVisit(s, t))
    ensures !s.txs[t].stmt.IsClaim() ==> AfterVisit(s, t).staged.Keys == Elems(AfterVisit(s, t).picked)
  {
  }

  lemma VisitKeepsTxOk(s: Sys, t: Tid)
    requires SysOk(s) && CanStep(s, Visit(t))
    ensures TxOk(s.db, AfterVisit(s, t))
    ensures s.txs[t].held <= AfterVisit(s, t).held <= s.txs[t].held + {s.txs[t].order[s.txs[t].pos]}
    ensures AfterVisit(s, t).held != s.txs[t].held ==> !HeldByOther(s, t, s.txs[t].order[s.txs[t].pos])
  {
    VisitKeepsPickedOk(s, t);
    assert s.txs[t].order[s.txs[t].pos] !in s.txs[t].held;
  }

  lemma OuterKeepsTxOk(s: Sys, t: Tid, rank: seq<Id>)
    requires SysOk(s) && CanStep(s, Outer(t, rank))
    ensures TxOk(s.db, AfterOuter(s, t, rank))
    ensures AfterOuter(s, t, rank).staged.Keys == Chosen(s.txs[t].stmt, s.db.jobs, rank)
  {
    var tx := s.txs[t];
    assert forall x | x in Chosen(tx.stmt, s.db.jobs, rank) :: x in Elems(rank);
    assert forall x | x in Elems(rank) :: x in Elems(tx.picked);
  }

  /** Replacing one transaction keeps the invariant if its locks and new ids stay private. */
  lemma ReplaceKeepsSysOk(s: Sys, s': Sys, t: Tid, tx: Tx)
    requires SysOk(s) && s' == s.(txs := s.txs[t := tx], started := s.started + {t}, nextId := s'.nextId)
    requires s.nextId <= s'.nextId && TxOk(s.db, tx)
    requires forall id | id in tx.NewIds() :: id < s'.nextId
    requires forall u | u in s.txs && u != t :: tx.HeldIds() !! s.txs[u].HeldIds() && tx.NewIds() !! s.txs[u].NewIds()
    ensures SysOk(s')
  {
  }

  lemma AdvanceKeepsSysOk(s: Sys, to: Time)
    requires SysOk(s) && CanStep(s, Advance(to))
    ensures SysOk(DoStep(s, Advance(to)))
  {
  }

  lemma BeginKeepsSysOk(s: Sys, step: Step)
    requires SysOk(s) && CanStep(s, step) && (step.Open? || step.Begin?)
    ensures SysOk(DoStep(s, step))
  {
  }

  lemma EnqueueKeepsSysOk(s: Sys, step: Step)
    requires SysOk(s) && CanStep(s, step) && step.Enqueue?
    ensures SysOk(DoStep(s, step))
  {
    var tx := DoStep(s, step).txs[step.t];
    assert tx.NewIds() == s.txs[step.t].NewIds() + {s.nextId};
    ReplaceKeepsSysOk(s, DoStep(s, step), step.t, tx);
  }

  lemma ScanKeepsSysOk(s: Sys, step: Step)
    requires SysOk(s) && CanStep(s, step) && (step.Snapshot? || step.Visit? || step.Outer?)
    ensures SysOk(DoStep(s, step))
  {
    if step.Visit? {
      VisitKeepsTxOk(s, step.t);
    } else if step.Outer? {
      OuterKeepsTxOk(s, step.t, step.rank);
    }
    ReplaceKeepsSysOk(s, DoStep(s, step), step.t, DoStep(s, step).txs[step.t]);
  }

  lemma AbortKeepsSysOk(s: Sys, t: Tid)
    requires SysOk(s) && CanStep(s, Abort(t))
    ensures SysOk(DoStep(s, Abort(t)))
  {
  }

  lemma StepRefines(s: Sys, step: Step)
    requires SysOk(s) && CanStep(s, step)
    ensures SysOk(DoStep(s, step))
    ensures match Abstract(s, step)
            case None => DoStep(s, step).db == s.db
            case Some(op) => Enabled(s.db, op) && DoStep(s, step).db == Apply(s.db, op)
  {
    match step {
      case Advance(to) => AdvanceKeepsSysOk(s, to);
      case Open(_, _) => BeginKeepsSysOk(s, step);
      case Begin(_) => BeginKeepsSysOk(s, step);
      case Enqueue(_, _, _, _) => EnqueueKeepsSysOk(s, step);
      case Snapshot(_, _) => ScanKeepsSysOk(s, step);
      case Visit(_) => ScanKeepsSysOk(s, step);
      case Outer(_, _) => ScanKeepsSysOk(s, step);
      case Commit(t) => CommitKeepsSysOk(s, t);
      case Abort(t) => AbortKeepsSysOk(s, t);
    }
  }

  /** The atomic run that a fine-grained run amounts to. */
  ghost function Trace(steps: seq<Step>): seq<Op>
    requires Runs(steps)
  {
    if steps == [] then []
    else match Abstract(SysOf(Front(steps)), Last(steps))
         case None => Trace(Front(steps))
         case Some(op) => Trace(Front(steps)) + [op]
  }

  /** Every interleaving refines the atomic machine: at each commit every row written still
      matched in the newest committed state and no other row changes. So everything proved
      of atomic runs holds of every interleaving. */
  lemma {:induction false} Refinement(steps: seq<Step>)
    requires Runs(steps)
    ensures SysOk(SysOf(steps))
    ensures Legal(Trace(steps)) && Exec(Trace(steps)) == SysOf(steps).db
  {
    if steps != [] {
      Refinement(Front(steps));
      StepRefines(SysOf(Front(steps)), Last(steps));
      var ops := Trace(steps);
      assert ops != Trace(Front(steps)) ==> Front(ops) == Trace(Front(steps));
    }
  }
}
