/** What every run of the atomic machine keeps: the row invariants, conservation of ids,
    and the exact ledger of attempts. The history of a job is read off the run itself. */
module Lifecycle {
  import opened Schema
  import opened Queue

  // ----- History of one job, defined on the run alone

  /** The number of committed claims of `id`. */
  ghost function ClaimCount(ops: seq<Op>, id: Id): nat {
    if ops == [] then 0 else ClaimCount(Front(ops), id) + if Last(ops).Claims(id) then 1 else 0
  }

  /** The worker of the last claim of `id`, unless a release, a completion or a dead letter
      of `id` came after it. */
  ghost function Holder(ops: seq<Op>, id: Id): Option<string> {
    if ops == [] then None
    else if !Last(ops).Touches(id) || Last(ops).stmt.Heartbeat? then Holder(Front(ops), id)
    else if Last(ops).stmt.IsClaim() then Some(Last(ops).stmt.worker)
    else None
  }

  /** now() of the last claim or heartbeat of `id`. */
  ghost function Stamp(ops: seq<Op>, id: Id): Time {
    if ops == [] then 0
    else if Last(ops).Claims(id) || (Last(ops).Touches(id) && Last(ops).stmt.Heartbeat?) then Last(ops).now
    else Stamp(Front(ops), id)
  }

  /** All ids that committed inserts of the run carried. */
  ghost function Inserted(ops: seq<Op>): set<Id> {
    if ops == [] then {}
    else Inserted(Front(ops)) + if Last(ops).Insert? then Last(ops).rows.Keys else {}
  }

  /** The row that the insert of `id` stored. */
  ghost function Born(ops: seq<Op>, id: Id): Row
    requires id in Inserted(ops)
  {
    if Last(ops).Insert? && id in Last(ops).rows then Last(ops).rows[id] else Born(Front(ops), id)
  }

  // ----- Invariants

  ghost predicate RowOk(r: Row) {
    && r.state != Dead
    && (r.state == Running <==> r.lockedAt.Some?)
    && (r.state == Running <==> r.lockedBy.Some?)
    && r.maxAttempts == DEFAULT_MAX_ATTEMPTS
    && r.attempts <= r.maxAttempts
    && (r.state == Ready ==> r.attempts < r.maxAttempts)
  }

  ghost function DeadIds(dead: seq<DeadRow>): set<Id> {
    set i | 0 <= i < |dead| :: dead[i].id
  }

  ghost predicate OncePerId(dead: seq<DeadRow>) {
    forall i, j | 0 <= i < j < |dead| :: dead[i].id != dead[j].id
  }

  lemma NotDead(dead: seq<DeadRow>, id: Id)
    ensures id !in DeadIds(dead) <==> forall d | d in dead :: d.id != id
  {
  }

  ghost predicate Conserved(db: Db) {
    && db.issued == db.jobs.Keys + DeadIds(db.dead)
    && db.jobs.Keys !! DeadIds(db.dead)
    && OncePerId(db.dead)
  }

  ghost predicate DbOk(db: Db) {
    Conserved(db) && forall id | id in db.jobs :: RowOk(db.jobs[id])
  }

  /** Every enabled step keeps the invariants: `running` goes with both lock columns, the
      identity of ids is conserved, and a ready row has attempts left although no claim
      tests for it. */
  lemma StepKeepsDbOk(db: Db, op: Op)
    requires DbOk(db) && Enabled(db, op)
    ensures DbOk(Apply(db, op))
  {
    if op.Write? && op.stmt.DeadLetter? {
      BurialConserves(db, op);
    } else if op.Insert? {
      assert Apply(db, op).jobs.Keys == db.jobs.Keys + op.rows.Keys;
    } else {
      assert Apply(db, op).jobs.Keys == db.jobs.Keys;
    }
  }

  lemma BurialConserves(db: Db, op: Op)
    requires DbOk(db) && Enabled(db, op) && op.Write? && op.stmt.DeadLetter?
    ensures DbOk(Apply(db, op))
  {
    var db' := Apply(db, op);
    var id := op.stmt.id;
    assert op.ids <= {id};
    if id in op.ids {
      var d := Last(db'.dead);
      assert db'.dead == db.dead + [d] && d.id == id;
      DeadIdsOfAppend(db.dead, d);
      NotDead(db.dead, id);
    } else {
      assert op.ids == {};
      assert db' == db;
    }
  }

  lemma DeadIdsOfAppend(dead: seq<DeadRow>, d: DeadRow)
    ensures DeadIds(dead + [d]) == DeadIds(dead) + {d.id}
  {
    var all := dead + [d];
    assert all[|dead|] == d && forall i | 0 <= i < |dead| :: all[i] == dead[i];
  }

  lemma {:induction false} RunKeepsDbOk(ops: seq<Op>)
    requires Legal(ops)
    ensures DbOk(Exec(ops))
  {
    if ops != [] {
      RunKeepsDbOk(Front(ops));
      StepKeepsDbOk(Exec(Front(ops)), Last(ops));
    }
  }

  /** Conservation over whole runs: the ids ever committed are exactly those now in `jobs`
      or in `jobs_dead`, never in both, and a dead id appears once. */
  lemma {:induction false} Conservation(ops: seq<Op>)
    requires Legal(ops)
    ensures Inserted(ops) == Exec(ops).jobs.Keys + DeadIds(Exec(ops).dead)
    ensures Exec(ops).jobs.Keys !! DeadIds(Exec(ops).dead)
    ensures OncePerId(Exec(ops).dead)
  {
    RunKeepsDbOk(ops);
    InsertedIsIssued(ops);
  }

  lemma {:induction false} InsertedIsIssued(ops: seq<Op>)
    ensures Inserted(ops) == Exec(ops).issued
  {
    if ops != [] {
      InsertedIsIssued(Front(ops));
    }
  }

  ghost predicate SameJob(a: Row, b: Row) {
    a.kind == b.kind && a.payload == b.payload && a.maxAttempts == b.maxAttempts
  }

  /** Kind, payload and max_attempts are those of the insert, in both tables. */
  lemma {:induction false} Immutable(ops: seq<Op>, id: Id)
    requires Legal(ops) && id in Inserted(ops)
    ensures id in Exec(ops).jobs ==> SameJob(Exec(ops).jobs[id], Born(ops, id))
    ensures forall d | d in Exec(ops).dead && d.id == id :: SameJob(d.row, Born(ops, id))
  {
    Conservation(Front(ops));
    if id in Inserted(Front(ops)) {
      Immutable(Front(ops), id);
      InsertedIsIssued(Front(ops));
      StepKeepsJob(Exec(Front(ops)), Last(ops), id, Born(ops, id));
    } else {
      NotDead(Exec(Front(ops)).dead, id);
    }
  }

  lemma StepKeepsJob(db: Db, op: Op, id: Id, born: Row)
    requires Enabled(db, op) && id in db.issued
    requires id in db.jobs ==> SameJob(db.jobs[id], born)
    requires forall d | d in db.dead && d.id == id :: SameJob(d.row, born)
    ensures id in Apply(db, op).jobs ==> SameJob(Apply(db, op).jobs[id], born)
    ensures forall d | d in Apply(db, op).dead && d.id == id :: SameJob(d.row, born)
  {
  }

  // ----- The attempts ledger

  /** The columns of a live row are determined by the history of its id. */
  lemma {:induction false} HistoryExplainsRow(ops: seq<Op>, id: Id)
    requires Legal(ops)
    ensures id !in Exec(ops).issued ==> ClaimCount(ops, id) == 0 && Holder(ops, id).None?
    ensures id in Exec(ops).jobs ==> Exec(ops).jobs[id].attempts == ClaimCount(ops, id)
    ensures id in Exec(ops).jobs ==> Exec(ops).jobs[id].lockedBy == Holder(ops, id)
    ensures Holder(ops, id).Some? <==> id in Exec(ops).jobs && Exec(ops).jobs[id].state == Running
    ensures Holder(ops, id).Some? ==> Exec(ops).jobs[id].lockedAt == Some(Stamp(ops, id))
  {
    if ops != [] {
      HistoryExplainsRow(Front(ops), id);
      RunKeepsDbOk(Front(ops));
      if !Last(ops).Touches(id) {
        UntouchedRow(Exec(Front(ops)), Last(ops), id);
      }
    }
  }

  lemma UntouchedRow(db: Db, op: Op, id: Id)
    requires Enabled(db, op) && !op.Touches(id) && Conserved(db)
    ensures id in db.jobs ==> id in Apply(db, op).jobs && Apply(db, op).jobs[id] == db.jobs[id]
    ensures id in Apply(db, op).jobs && id !in db.jobs ==>
              id !in db.issued && Apply(db, op).jobs[id].attempts == 0
              && Apply(db, op).jobs[id].state == Ready && Apply(db, op).jobs[id].lockedBy.None?
  {
  }

  /** When the job is due: as its insert or its last requeue says. */
  ghost function Due(ops: seq<Op>, id: Id): Time {
    if ops == [] then 0
    else if Last(ops).Insert? && id in Last(ops).rows then Last(ops).rows[id].runAt
    else if Last(ops).Touches(id) && Last(ops).stmt.Requeue? then
      Last(ops).now + Backoff(ClaimCount(Front(ops), id)) * SECOND
    else Due(Front(ops), id)
  }

  /** The error of the last requeue or dead letter. */
  ghost function LastError(ops: seq<Op>, id: Id): Option<string> {
    if ops == [] then None
    else if Last(ops).Insert? && id in Last(ops).rows then None
    else if Last(ops).Touches(id) && (Last(ops).stmt.Requeue? || Last(ops).stmt.DeadLetter?) then
      Some(Last(ops).stmt.error)
    else LastError(Front(ops), id)
  }

  /** No other statement touches run_at or last_error. */
  lemma {:induction false} HistoryExplainsSchedule(ops: seq<Op>, id: Id)
    requires Legal(ops)
    ensures id in Exec(ops).jobs ==> Exec(ops).jobs[id].runAt == Due(ops, id)
    ensures id in Exec(ops).jobs ==> Exec(ops).jobs[id].lastError == LastError(ops, id)
  {
    if ops != [] {
      HistoryExplainsSchedule(Front(ops), id);
      HistoryExplainsRow(Front(ops), id);
      RunKeepsDbOk(Front(ops));
      if !Last(ops).Touches(id) {
        UntouchedRow(Exec(Front(ops)), Last(ops), id);
      }
    }
  }

  /** A dead job is buried as it was, with the error and the time of its dead letter: what
      `jobs_dead` keeps is the last live row and nothing changes it afterwards. */
  lemma {:induction false} BuriedAsItWas(ops: seq<Op>, d: DeadRow)
    requires Legal(ops) && d in Exec(ops).dead
    ensures exists k :: 0 <= k < |ops| && Buries(ops, k, d)
  {
    var pre := Front(ops);
    if d in Exec(pre).dead {
      BuriedAsItWas(pre, d);
      var k :| 0 <= k < |pre| && Buries(pre, k, d);
      assert pre[..k] == ops[..k];
      assert Buries(ops, k, d);
    } else {
      assert ops[..|pre|] == pre;
      assert Buries(ops, |pre|, d);
    }
  }

  ghost predicate Buries(ops: seq<Op>, k: nat, d: DeadRow)
    requires k < |ops|
  {
    && ops[k].Touches(d.id) && ops[k].stmt.DeadLetter? && d.diedAt == ops[k].now
    && d.id in Exec(ops[..k]).jobs
    && d.row == Exec(ops[..k]).jobs[d.id].(state := Dead, lastError := Some(ops[k].stmt.error))
  }

  /** No job is claimed before it is due, nor by a worker that did not ask for its kind. */
  lemma ClaimedWhenDue(ops: seq<Op>, id: Id, k: nat)
    requires Legal(ops) && k < |ops| && ops[k].Claims(id)
    ensures id in Inserted(ops[..k])
    ensures ops[k].now >= Due(ops[..k], id) && Born(ops[..k], id).kind in ops[k].stmt.kinds
  {
    LegalPrefix(ops, k);
    Conservation(ops[..k]);
    Immutable(ops[..k], id);
    HistoryExplainsSchedule(ops[..k], id);
  }

  /** Attempts counts committed claims exactly, for live and dead jobs alike; a ready job
      has attempts left; so no job is ever claimed more than 20 times. */
  lemma {:induction false} AttemptsLedger(ops: seq<Op>, id: Id)
    requires Legal(ops)
    ensures id in Exec(ops).jobs ==> Exec(ops).jobs[id].attempts == ClaimCount(ops, id)
    ensures forall d | d in Exec(ops).dead && d.id == id :: d.row.attempts == ClaimCount(ops, id)
    ensures id in Exec(ops).jobs && Exec(ops).jobs[id].state == Ready ==> ClaimCount(ops, id) < DEFAULT_MAX_ATTEMPTS
    ensures ClaimCount(ops, id) <= DEFAULT_MAX_ATTEMPTS
  {
    RunKeepsDbOk(ops);
    HistoryExplainsRow(ops, id);
    if ops != [] {
      AttemptsLedger(Front(ops), id);
      RunKeepsDbOk(Front(ops));
      HistoryExplainsRow(Front(ops), id);
      forall d | d in Exec(ops).dead && d.id == id
        ensures d.row.attempts == ClaimCount(ops, id)
      {
        if d !in Exec(Front(ops)).dead {
          assert Last(ops).Touches(id);
        }
      }
    }
  }

  /** Rows handed out by all committed claims of ids in `ids`, with multiplicity. */
  ghost function ClaimedRows(ops: seq<Op>, ids: set<Id>): nat {
    if ops == [] then 0
    else ClaimedRows(Front(ops), ids)
         + if Last(ops).Write? && Last(ops).stmt.IsClaim() then |Last(ops).ids * ids| else 0
  }

  lemma {:induction false} ClaimedRowsOfNone(ops: seq<Op>)
    ensures ClaimedRows(ops, {}) == 0
  {
    if ops != [] {
      ClaimedRowsOfNone(Front(ops));
      assert Last(ops).Write? ==> Last(ops).ids * {} == {};
    }
  }

  lemma {:induction false} ClaimedRowsSplit(ops: seq<Op>, ids: set<Id>, id: Id)
    requires id in ids
    ensures ClaimedRows(ops, ids) == ClaimedRows(ops, ids - {id}) + ClaimCount(ops, id)
  {
    if ops != [] {
      ClaimedRowsSplit(Front(ops), ids, id);
      var op := Last(ops);
      if op.Claims(id) {
        assert op.ids * ids == (op.ids * (ids - {id})) + {id};
      } else if op.Write? && op.stmt.IsClaim() {
        assert op.ids * ids == op.ids * (ids - {id});
      }
    }
  }

  lemma {:induction false} ClaimedRowsBound(ops: seq<Op>, ids: set<Id>)
    requires Legal(ops)
    ensures ClaimedRows(ops, ids) <= DEFAULT_MAX_ATTEMPTS * |ids|
    decreases ids
  {
    if ids == {} {
      ClaimedRowsOfNone(ops);
    } else {
      var id :| id in ids;
      ClaimedRowsSplit(ops, ids, id);
      AttemptsLedger(ops, id);
      ClaimedRowsBound(ops, ids - {id});
    }
  }

  /** Everything that all committed claims of a run handed out. */
  ghost function Handouts(ops: seq<Op>): nat {
    if ops == [] then 0
    else Handouts(Front(ops)) + if Last(ops).Write? && Last(ops).stmt.IsClaim() then |Last(ops).ids| else 0
  }

  lemma {:induction false} HandoutsAreClaimedRows(ops: seq<Op>, ids: set<Id>)
    requires Legal(ops) && Exec(ops).issued <= ids
    ensures Handouts(ops) == ClaimedRows(ops, ids)
  {
    if ops != [] {
      HandoutsAreClaimedRows(Front(ops), ids);
      RunKeepsDbOk(Front(ops));
      if Last(ops).Write? {
        assert Last(ops).ids * ids == Last(ops).ids;
      }
    }
  }

  /** At most 20 handouts per committed enqueue, whatever is reaped, retried or raced. */
  lemma TotalClaimsBound(ops: seq<Op>)
    requires Legal(ops)
    ensures Handouts(ops) <= DEFAULT_MAX_ATTEMPTS * |Inserted(ops)|
  {
    InsertedIsIssued(ops);
    HandoutsAreClaimedRows(ops, Exec(ops).issued);
    ClaimedRowsBound(ops, Exec(ops).issued);
  }

  lemma {:induction false} ClaimCountGrows(ops: seq<Op>, id: Id, i: nat)
    requires i <= |ops|
    ensures ClaimCount(ops[..i], id) <= ClaimCount(ops, id)
    decreases |ops|
  {
    if i == |ops| {
      assert ops[..i] == ops;
    } else {
      assert Front(ops)[..i] == ops[..i];
      ClaimCountGrows(Front(ops), id, i);
    }
  }

  /** Two claims of the same job return different attempt numbers, so the pair
      (id, attempts) names one handout for ever. */
  lemma HandoutsAreDistinct(ops: seq<Op>, id: Id, i: nat, j: nat)
    requires Legal(ops) && i < j < |ops|
    requires ops[i].Claims(id) && ops[j].Claims(id)
    ensures id in Exec(ops[..i + 1]).jobs && id in Exec(ops[..j + 1]).jobs
    ensures Exec(ops[..i + 1]).jobs[id].attempts < Exec(ops[..j + 1]).jobs[id].attempts
  {
    AttemptsAfterClaim(ops, id, i);
    AttemptsAfterClaim(ops, id, j);
    assert ops[..j][..i + 1] == ops[..i + 1];
    ClaimCountGrows(ops[..j], id, i + 1);
  }

  lemma AttemptsAfterClaim(ops: seq<Op>, id: Id, i: nat)
    requires Legal(ops) && i < |ops| && ops[i].Claims(id)
    ensures id in Exec(ops[..i + 1]).jobs
    ensures Exec(ops[..i + 1]).jobs[id].attempts == ClaimCount(ops[..i + 1], id) == ClaimCount(ops[..i], id) + 1
  {
    LegalPrefix(ops, i);
    LegalPrefix(ops, i + 1);
    HistoryExplainsRow(ops[..i + 1], id);
    assert Front(ops[..i + 1]) == ops[..i];
  }
}
