/** Retries: what a failed job becomes, which jobs no retry can free, and how late the
    backoff makes the m-th claim of a job. */
module Retries {
  import opened Schema
  import opened Queue
  import opened Lifecycle

  datatype HandlerError = TransientError(message: string) | PermanentError(message: string)
  datatype Class = Transient | Permanent

  function Classify(e: HandlerError): Class {
    match e
    case TransientError(_) => Transient
    case PermanentError(_) => Permanent
  }

  // ----- The failure protocol

  /** A handler failed: requeue if the error is transient, and dead-letter if it is not or
      if the requeue reported zero rows. Other statements, `mid`, may commit in between. */
  ghost function Protocol(pre: seq<Op>, e: HandlerError, id: Id, caller: string,
                          retried: set<Id>, now1: Time, mid: seq<Op>, buried: set<Id>, now2: Time): seq<Op>
  {
    var retry := [Write(Requeue(id, e.message, caller), retried, now1)];
    var bury := [Write(DeadLetter(id, e.message, caller), buried, now2)];
    if Classify(e) == Permanent then pre + mid + bury
    else if retried == {} then pre + retry + mid + bury
    else pre + retry
  }

  ghost predicate ReadyLater(db: Db, id: Id, now: Time) {
    && id in db.jobs && db.jobs[id].state == Ready
    && db.jobs[id].attempts < db.jobs[id].maxAttempts
    && db.jobs[id].runAt > now
  }

  ghost predicate DeadOnce(db: Db, id: Id) {
    && id !in db.jobs
    && exists i :: 0 <= i < |db.dead| && db.dead[i].id == id
                   && forall j | 0 <= j < |db.dead| && db.dead[j].id == id :: j == i
  }

  /** The protocol leaves a failed job either ready for later with attempts left, or dead
      exactly once. It is ready exactly when the error is transient and the job, being in the
      table, has been claimed fewer than 20 times. */
  lemma FailureProtocolEnds(pre: seq<Op>, e: HandlerError, id: Id, caller: string,
                            retried: set<Id>, now1: Time, mid: seq<Op>, buried: set<Id>, now2: Time)
    requires id in Inserted(pre)
    requires Legal(pre) && Legal(Protocol(pre, e, id, caller, retried, now1, mid, buried, now2))
    requires retried == Matching(Exec(pre).jobs, Requeue(id, e.message, caller), now1)
    requires var ops := Protocol(pre, e, id, caller, retried, now1, mid, buried, now2);
             buried == Matching(Exec(Front(ops)).jobs, DeadLetter(id, e.message, caller), now2)
    ensures var db := Exec(Protocol(pre, e, id, caller, retried, now1, mid, buried, now2));
            if e.TransientError? && id in Exec(pre).jobs && ClaimCount(pre, id) < 20
            then ReadyLater(db, id, now1) && db.jobs[id].lastError == Some(e.message) else DeadOnce(db, id)
  {
    var ops := Protocol(pre, e, id, caller, retried, now1, mid, buried, now2);
    RequeueVerdict(pre, id, e.message, caller, retried, now1);
    if Classify(e) == Transient && retried != {} {
      assert Front(ops) == pre;
    } else {
      assert pre <= Front(ops) && Last(ops) == Write(DeadLetter(id, e.message, caller), buried, now2);
      InsertedGrows(Front(ops), pre);
      BurialIsFinal(ops, id, e.message, caller, buried, now2);
    }
  }

  /** A permanent error is never retried: the job, if it is still there, is buried as the
      statements before left it, with the error and the time of the dead letter. */
  lemma PermanentErrorBuries(pre: seq<Op>, e: HandlerError, id: Id, caller: string,
                             retried: set<Id>, now1: Time, mid: seq<Op>, now2: Time)
    requires e.PermanentError? && id in Exec(pre + mid).jobs
    ensures var db := Exec(Protocol(pre, e, id, caller, retried, now1, mid, {id}, now2));
            && db.jobs == Exec(pre + mid).jobs - {id}
            && db.dead == Exec(pre + mid).dead
                          + [DeadRow(id, Exec(pre + mid).jobs[id].(state := Dead, lastError := Some(e.message)), now2)]
  {
    var bury := Write(DeadLetter(id, e.message, caller), {id}, now2);
    assert Front(pre + mid + [bury]) == pre + mid;
  }

  /** A requeue that misses no row reports one row exactly when the job is in the table and
      has been claimed fewer than 20 times, and leaves it ready for a later time. */
  lemma RequeueVerdict(pre: seq<Op>, id: Id, error: string, caller: string, retried: set<Id>, now: Time)
    requires Legal(pre)
    requires retried == Matching(Exec(pre).jobs, Requeue(id, error, caller), now)
    ensures retried == if id in Exec(pre).jobs && ClaimCount(pre, id) < DEFAULT_MAX_ATTEMPTS then {id} else {}
    ensures retried != {} ==> ReadyLater(Apply(Exec(pre), Write(Requeue(id, error, caller), retried, now)), id, now)
  {
    RunKeepsDbOk(pre);
    HistoryExplainsRow(pre, id);
    if id in Exec(pre).jobs {
      BackoffIsPositive(Exec(pre).jobs[id].attempts);
    }
  }

  lemma BackoffIsPositive(a: nat)
    ensures Backoff(a) > 0
  {
    Pow2IsPositive(a);
  }

  lemma {:induction a} Pow2IsPositive(a: nat)
    ensures Pow2(a) > 0
  {
  }

  lemma {:induction false} InsertedGrows(ops: seq<Op>, pre: seq<Op>)
    requires pre <= ops
    ensures Inserted(pre) <= Inserted(ops)
  {
    if pre != ops {
      InsertedGrows(Front(ops), pre);
    }
  }

  lemma BurialIsFinal(ops: seq<Op>, id: Id, error: string, caller: string, buried: set<Id>, now: Time)
    requires Legal(ops) && ops != [] && id in Inserted(Front(ops))
    requires Last(ops) == Write(DeadLetter(id, error, caller), buried, now)
    requires buried == Matching(Exec(Front(ops)).jobs, DeadLetter(id, error, caller), now)
    ensures DeadOnce(Exec(ops), id)
  {
    var db := Exec(ops);
    Conservation(ops);
    assert id in Inserted(ops);
    assert id !in db.jobs;
    assert id in DeadIds(db.dead);
    var i :| 0 <= i < |db.dead| && db.dead[i].id == id;
  }

  // ----- Stranded jobs

  /** Running on its last attempt. */
  ghost predicate Stranded(db: Db, id: Id) {
    id in db.jobs && db.jobs[id].state == Running && db.jobs[id].attempts == db.jobs[id].maxAttempts
  }

  ghost predicate Frees(op: Op, id: Id) {
    op.Touches(id) && (op.stmt.MarkDone? || op.stmt.DeadLetter?)
  }

  lemma StrandedStep(db: Db, op: Op, id: Id)
    requires Enabled(db, op) && Conserved(db) && Stranded(db, id)
    ensures Stranded(Apply(db, op), id) <==> !Frees(op, id)
  {
  }

  /** A job running on its last attempt stays there through every claim, heartbeat, reap and
      requeue: it leaves exactly when a mark_done or a dead letter of it commits. */
  lemma {:induction false} StrandedExactlyUntil(ops: seq<Op>, id: Id, i: nat)
    requires Legal(ops) && i <= |ops| && Stranded(Exec(ops[..i]), id)
    ensures (forall m | i <= m <= |ops| :: Stranded(Exec(ops[..m]), id))
       <==> (forall k | i <= k < |ops| :: !Frees(ops[k], id))
  {
    if forall k | i <= k < |ops| :: !Frees(ops[k], id) {
      forall m | i <= m <= |ops|
        ensures Stranded(Exec(ops[..m]), id)
      {
        StrandedUntil(ops, id, i, m);
      }
    }
    if forall m | i <= m <= |ops| :: Stranded(Exec(ops[..m]), id) {
      forall k | i <= k < |ops|
        ensures !Frees(ops[k], id)
      {
        LegalPrefix(ops, k);
        RunKeepsDbOk(ops[..k]);
        StrandedStep(Exec(ops[..k]), ops[k], id);
        assert Stranded(Exec(ops[..k]), id) && Stranded(Exec(ops[..k + 1]), id);
      }
    }
  }

  lemma {:induction false} StrandedUntil(ops: seq<Op>, id: Id, i: nat, m: nat)
    requires Legal(ops) && i <= m <= |ops| && Stranded(Exec(ops[..i]), id)
    requires forall k | i <= k < m :: !Frees(ops[k], id)
    ensures Stranded(Exec(ops[..m]), id)
  {
    if i < m {
      StrandedUntil(ops, id, i, m - 1);
      LegalPrefix(ops, m - 1);
      RunKeepsDbOk(ops[..m - 1]);
      StrandedStep(Exec(ops[..m - 1]), ops[m - 1], id);
    }
  }

  // ----- Backoff over a whole life

  /** now() of the first and of the last committed claim of `id`. */
  ghost function FirstClaim(ops: seq<Op>, id: Id): Time {
    if ops == [] then 0
    else if ClaimCount(Front(ops), id) == 0 && Last(ops).Claims(id) then Last(ops).now
    else FirstClaim(Front(ops), id)
  }

  ghost function LastClaim(ops: seq<Op>, id: Id): Time {
    if ops == [] then 0
    else if Last(ops).Claims(id) then Last(ops).now
    else LastClaim(Front(ops), id)
  }

  /** No reap takes the job, and no requeue of it carries a now() from before the claim that
      the requeue follows. */
  ghost predicate RetriedOnly(ops: seq<Op>, id: Id) {
    forall k | 0 <= k < |ops| && ops[k].Touches(id) ::
      && !ops[k].stmt.Reap?
      && (ops[k].stmt.Requeue? && ClaimCount(ops[..k], id) > 0 ==> ops[k].now >= LastClaim(ops[..k], id))
  }

  /** The backoff served before the m-th claim, in seconds. */
  function TotalBackoff(m: nat): nat {
    if m <= 1 then 0 else TotalBackoff(m - 1) + Backoff(m - 1)
  }

  lemma {:induction false} BackoffInvariant(ops: seq<Op>, id: Id)
    requires Legal(ops) && RetriedOnly(ops, id) && ClaimCount(ops, id) > 0
    ensures LastClaim(ops, id) - FirstClaim(ops, id) >= TotalBackoff(ClaimCount(ops, id)) * SECOND
    ensures id in Exec(ops).jobs && Exec(ops).jobs[id].state == Ready
            ==> Exec(ops).jobs[id].runAt >= LastClaim(ops, id) + Backoff(ClaimCount(ops, id)) * SECOND
  {
    var pre := Front(ops);
    RetriedOnlyFront(ops, id);
    HistoryExplainsRow(pre, id);
    HistoryExplainsRow(ops, id);
    if ClaimCount(pre, id) > 0 {
      BackoffInvariant(pre, id);
    }
    RunKeepsDbOk(pre);
    if !Last(ops).Touches(id) {
      UntouchedRow(Exec(pre), Last(ops), id);
    }
  }

  lemma RetriedOnlyFront(ops: seq<Op>, id: Id)
    requires ops != [] && RetriedOnly(ops, id)
    ensures RetriedOnly(Front(ops), id)
    ensures Last(ops).Touches(id) ==> !Last(ops).stmt.Reap?
    ensures Last(ops).Touches(id) && Last(ops).stmt.Requeue? && ClaimCount(Front(ops), id) > 0
            ==> Last(ops).now >= LastClaim(Front(ops), id)
  {
    var pre := Front(ops);
    assert forall k | 0 <= k < |pre| :: ops[k] == pre[k] && ops[..k] == pre[..k];
    assert ops[..|pre|] == pre;
  }

  /** The m-th claim of a job that is only ever retried starts at least TotalBackoff(m)
      seconds after its first, however many extra requeues are sent. */
  lemma WholeLifeBackoff(ops: seq<Op>, id: Id, k: nat)
    requires Legal(ops) && k < |ops| && ops[k].Claims(id)
    requires RetriedOnly(ops[..k + 1], id)
    ensures ops[k].now - FirstClaim(ops[..k + 1], id) >= TotalBackoff(ClaimCount(ops[..k + 1], id)) * SECOND
  {
    LegalPrefix(ops, k + 1);
    BackoffInvariant(ops[..k + 1], id);
  }

  // ----- When one requeue serves its backoff

  ghost predicate Untouched(ops: seq<Op>, id: Id) {
    forall k | 0 <= k < |ops| :: !ops[k].Touches(id)
  }

  lemma {:induction false} UntouchedRowOverRun(ops: seq<Op>, more: seq<Op>, id: Id)
    requires Legal(ops + more) && Untouched(more, id) && Legal(ops) && id in Exec(ops).jobs
    ensures id in Exec(ops + more).jobs && Exec(ops + more).jobs[id] == Exec(ops).jobs[id]
  {
    if more == [] {
      assert ops + more == ops;
    } else {
      assert Front(ops + more) == ops + Front(more) && Last(ops + more) == Last(more);
      UntouchedRowOverRun(ops, Front(more), id);
      RunKeepsDbOk(ops + Front(more));
      assert !Last(more).Touches(id);
      UntouchedRow(Exec(ops + Front(more)), Last(more), id);
    }
  }

  /** Whatever else commits, the next statement that touches the job, if it is a claim, does
      not start before `due`. */
  ghost predicate NextClaimNotBefore(ops: seq<Op>, id: Id, due: Time) {
    forall more, claim: Op |
      Untouched(more, id) && claim.Claims(id) && Legal(ops + more + [claim]) :: claim.now >= due
  }

  lemma NextClaimIsDue(ops: seq<Op>, id: Id, more: seq<Op>, claim: Op)
    requires Legal(ops) && id in Exec(ops).jobs
    requires Untouched(more, id) && claim.Claims(id) && Legal(ops + more + [claim])
    ensures claim.now >= Exec(ops).jobs[id].runAt
  {
    assert Front(ops + more + [claim]) == ops + more;
    UntouchedRowOverRun(ops, more, id);
  }

  lemma NextClaimCanBeAtDue(ops: seq<Op>, id: Id) returns (more: seq<Op>, claim: Op)
    requires Legal(ops) && id in Exec(ops).jobs && Exec(ops).jobs[id].state == Ready
    ensures Untouched(more, id) && claim.Claims(id) && Legal(ops + more + [claim])
    ensures claim.now == Exec(ops).jobs[id].runAt
  {
    var db := Exec(ops);
    var r := db.jobs[id];
    more := [Tick(if db.clock < r.runAt then r.runAt else db.clock)];
    claim := Write(ClaimBatch({r.kind}, 1, ""), {id}, r.runAt);
    assert Front(ops + more) == ops && Last(ops + more) == more[0];
    assert Exec(ops + more) == db.(clock := more[0].to) && Legal(ops + more);
    assert Enabled(Exec(ops + more), claim) by {
      assert {id} <= Matching(db.jobs, claim.stmt, r.runAt);
    }
    assert Front(ops + more + [claim]) == ops + more;
  }

  /** The table promises a ready job no more and no less than its run_at. */
  lemma ReadyJobWaitsExactlyUntil(ops: seq<Op>, id: Id, due: Time)
    requires Legal(ops) && id in Exec(ops).jobs && Exec(ops).jobs[id].state == Ready
    ensures NextClaimNotBefore(ops, id, due) <==> Exec(ops).jobs[id].runAt >= due
  {
    if NextClaimNotBefore(ops, id, due) {
      var more, claim := NextClaimCanBeAtDue(ops, id);
    } else {
      var more, claim: Op :| Untouched(more, id) && claim.Claims(id) && Legal(ops + more + [claim]) && claim.now < due;
      NextClaimIsDue(ops, id, more, claim);
    }
  }

  /** The exact condition: a requeue of a claimed job makes the next claim wait the backoff
      counted from the last claim exactly when its transaction opened no earlier than that
      claim's. */
  lemma BackoffServedExactlyWhen(ops: seq<Op>, id: Id, error: string, caller: string, now: Time)
    requires Legal(ops) && Enabled(Exec(ops), Write(Requeue(id, error, caller), {id}, now))
    requires ClaimCount(ops, id) > 0
    ensures NextClaimNotBefore(ops + [Write(Requeue(id, error, caller), {id}, now)], id,
                               LastClaim(ops, id) + Backoff(ClaimCount(ops, id)) * SECOND)
       <==> now >= LastClaim(ops, id)
  {
    var after := ops + [Write(Requeue(id, error, caller), {id}, now)];
    assert Front(after) == ops;
    HistoryExplainsRow(ops, id);
    ReadyJobWaitsExactlyUntil(after, id, LastClaim(ops, id) + Backoff(ClaimCount(ops, id)) * SECOND);
  }

  // ----- Which way a requeue moves a job

  /** A held job was due when it was claimed. */
  lemma {:induction false} HeldJobWasDue(ops: seq<Op>, id: Id)
    requires Legal(ops) && Holder(ops, id).Some?
    ensures ClaimCount(ops, id) > 0 && Due(ops, id) <= LastClaim(ops, id)
  {
    var pre, op := Front(ops), Last(ops);
    HistoryExplainsRow(pre, id);
    HistoryExplainsSchedule(pre, id);
    RunKeepsDbOk(pre);
    if !op.Claims(id) {
      HeldJobWasDue(pre, id);
    }
  }

  /** A requeue makes a job due earlier than it was exactly when the job was due later than
      the backoff from now; and never a held job, if its transaction opened no earlier than
      the claim. */
  lemma RequeueHastensExactlyWhen(ops: seq<Op>, id: Id, error: string, caller: string, now: Time)
    requires Legal(ops) && Enabled(Exec(ops), Write(Requeue(id, error, caller), {id}, now))
    ensures var after := Exec(ops + [Write(Requeue(id, error, caller), {id}, now)]);
            && id in Exec(ops).jobs && id in after.jobs
            && (after.jobs[id].runAt < Exec(ops).jobs[id].runAt
                <==> Due(ops, id) > now + Backoff(ClaimCount(ops, id)) * SECOND)
            && (Holder(ops, id).Some? && now >= LastClaim(ops, id)
                ==> after.jobs[id].runAt > Exec(ops).jobs[id].runAt)
  {
    var op := Write(Requeue(id, error, caller), {id}, now);
    assert Front(ops + [op]) == ops;
    HistoryExplainsRow(ops, id);
    HistoryExplainsSchedule(ops, id);
    BackoffIsPositive(ClaimCount(ops, id));
    if Holder(ops, id).Some? {
      HeldJobWasDue(ops, id);
    }
  }

  lemma {:induction false} Pow2Grows(a: nat, b: nat)
    requires a <= b
    ensures Pow2(a) <= Pow2(b)
  {
    if a < b {
      Pow2Grows(a, b - 1);
    }
  }

  lemma Pow2Of12()
    ensures Pow2(11) == 2048 && Pow2(12) == 4096
  {
  }

  /** Closed form: the sum doubles up to the cap at the twelfth claim and then grows by an
      hour a claim, 32,894 seconds for a job that uses all 20 attempts. */
  lemma {:induction false} TotalBackoffClosedForm(m: nat)
    requires m >= 1
    ensures m <= 12 ==> TotalBackoff(m) == Pow2(m) - 2
    ensures m >= 12 ==> TotalBackoff(m) == 4094 + BACKOFF_CAP * (m - 12)
    ensures m == DEFAULT_MAX_ATTEMPTS ==> TotalBackoff(m) == 32_894
  {
    Pow2Of12();
    if m > 1 {
      TotalBackoffClosedForm(m - 1);
      if m <= 12 {
        Pow2Grows(m - 1, 11);
      } else {
        Pow2Grows(12, m - 1);
      }
    }
  }
}
