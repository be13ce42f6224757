/** Leases over whole runs: one holder at a time, what the reaper and the heartbeat decide
    about a lease, and when a finished job stays finished. */
module Leases {
  import opened Schema
  import opened Queue
  import opened Lifecycle

  // ----- One lease at a time

  /** Between two committed claims of the same job some reap or requeue of it committed,
      whoever calls mark_done, requeue or dead_letter in the meantime. */
  lemma SingleLease(ops: seq<Op>, id: Id, i: nat, j: nat)
    requires Legal(ops) && i < j < |ops|
    requires ops[i].Claims(id) && ops[j].Claims(id)
    ensures exists k :: i < k < j && ops[k].Releases(id)
  {
    ClaimTakes(ops, id, i);
    ClaimTakes(ops, id, j);
    if !exists k :: i < k < j && ops[k].Releases(id) {
      NotReadyUntilReleased(ops, id, i + 1, j);
    }
  }

  lemma ClaimTakes(ops: seq<Op>, id: Id, i: nat)
    requires Legal(ops) && i < |ops| && ops[i].Claims(id)
    ensures Claimable(Exec(ops[..i]), id) && !Claimable(Exec(ops[..i + 1]), id)
  {
    LegalPrefix(ops, i);
    LegalPrefix(ops, i + 1);
    RunKeepsDbOk(ops[..i]);
    RunKeepsDbOk(ops[..i + 1]);
  }

  ghost predicate Claimable(db: Db, id: Id) {
    id !in db.issued || (id in db.jobs && db.jobs[id].state == Ready)
  }

  lemma {:induction false} NotReadyUntilReleased(ops: seq<Op>, id: Id, i: nat, j: nat)
    requires Legal(ops) && i <= j <= |ops|
    requires !Claimable(Exec(ops[..i]), id)
    requires forall k | i <= k < j :: !ops[k].Releases(id)
    ensures !Claimable(Exec(ops[..j]), id)
    decreases j - i
  {
    if i < j {
      LegalPrefix(ops, i);
      RunKeepsDbOk(ops[..i]);
      NotReadyUntilReleased(ops, id, i + 1, j);
    }
  }

  // ----- Done is final

  ghost predicate IsDone(db: Db, id: Id) {
    id in db.jobs && db.jobs[id].state == Done
  }

  /** A step that takes a finished job out of `done`. */
  ghost predicate Undoes(op: Op, id: Id) {
    op.Touches(id) && (op.stmt.Requeue? || op.stmt.DeadLetter?)
  }

  lemma DoneStep(db: Db, op: Op, id: Id)
    requires Enabled(db, op) && Conserved(db) && IsDone(db, id)
    ensures IsDone(Apply(db, op), id) <==> !Undoes(op, id)
  {
  }

  /** Exactly when a finished job stays finished: as long as no requeue and no dead letter
      of it commits. Both filter by id alone, so the table does not stop them. */
  lemma {:induction false} DoneStaysExactlyWhen(ops: seq<Op>, id: Id, i: nat)
    requires Legal(ops) && i <= |ops| && IsDone(Exec(ops[..i]), id)
    ensures (forall m | i <= m <= |ops| :: IsDone(Exec(ops[..m]), id))
       <==> (forall k | i <= k < |ops| :: !Undoes(ops[k], id))
  {
    if forall k | i <= k < |ops| :: !Undoes(ops[k], id) {
      forall m | i <= m <= |ops|
        ensures IsDone(Exec(ops[..m]), id)
      {
        DoneUntil(ops, id, i, m);
      }
    }
    if forall m | i <= m <= |ops| :: IsDone(Exec(ops[..m]), id) {
      forall k | i <= k < |ops|
        ensures !Undoes(ops[k], id)
      {
        LegalPrefix(ops, k);
        RunKeepsDbOk(ops[..k]);
        DoneStep(Exec(ops[..k]), ops[k], id);
        assert IsDone(Exec(ops[..k]), id) && IsDone(Exec(ops[..k + 1]), id);
      }
    }
  }

  lemma {:induction false} DoneUntil(ops: seq<Op>, id: Id, i: nat, m: nat)
    requires Legal(ops) && i <= m <= |ops| && IsDone(Exec(ops[..i]), id)
    requires forall k | i <= k < m :: !Undoes(ops[k], id)
    ensures IsDone(Exec(ops[..m]), id)
  {
    if i < m {
      DoneUntil(ops, id, i, m - 1);
      LegalPrefix(ops, m - 1);
      RunKeepsDbOk(ops[..m - 1]);
      DoneStep(Exec(ops[..m - 1]), ops[m - 1], id);
    }
  }

  /** The discipline on callers: whoever finishes, requeues or dead-letters the job holds
      its lease at that moment. */
  ghost predicate HolderOnly(ops: seq<Op>, id: Id) {
    forall k | 0 <= k < |ops| && ops[k].Touches(id) ::
      ops[k].stmt.MarkDone? || ops[k].stmt.Requeue? || ops[k].stmt.DeadLetter?
      ==> Holder(ops[..k], id) == Some(ops[k].stmt.caller)
  }

  lemma DoneIsFinalUnderDiscipline(ops: seq<Op>, id: Id, i: nat)
    requires Legal(ops) && HolderOnly(ops, id)
    requires i <= |ops| && IsDone(Exec(ops[..i]), id)
    ensures forall m | i <= m <= |ops| :: IsDone(Exec(ops[..m]), id)
  {
    forall m | i <= m <= |ops|
      ensures IsDone(Exec(ops[..m]), id)
    {
      DoneUnderDiscipline(ops, id, i, m);
    }
  }

  lemma {:induction false} DoneUnderDiscipline(ops: seq<Op>, id: Id, i: nat, m: nat)
    requires Legal(ops) && HolderOnly(ops, id)
    requires i <= m <= |ops| && IsDone(Exec(ops[..i]), id)
    ensures IsDone(Exec(ops[..m]), id)
  {
    if i < m {
      DoneUnderDiscipline(ops, id, i, m - 1);
      LegalPrefix(ops, m - 1);
      RunKeepsDbOk(ops[..m - 1]);
      HistoryExplainsRow(ops[..m - 1], id);
      DoneStep(Exec(ops[..m - 1]), ops[m - 1], id);
    }
  }

  // ----- The reaper

  /** What `lease.as_secs() as i64` yields for a lease given in nanoseconds: whole seconds,
      and two's complement wrap-around from 2^63 seconds on. */
  function ReapSecs(lease: nat): int {
    var secs := lease / 1_000_000_000;
    if secs < TWO_TO_THE_63 then secs else secs - 2 * TWO_TO_THE_63
  }

  /** What a reap decides about a job, in terms of its history: it releases only jobs that
      are held, were last claimed or beaten more than `secs` seconds before, and have been
      claimed fewer than 20 times; a reap that misses no row releases all of those. */
  lemma ReapVerdict(ops: seq<Op>, id: Id, secs: int, ids: set<Id>, now: Time)
    requires Legal(ops) && Enabled(Exec(ops), Write(Reap(secs), ids, now))
    ensures id in ids ==> Expired(ops, id, secs, now)
    ensures ids == Matching(Exec(ops).jobs, Reap(secs), now) ==> (id in ids <==> Expired(ops, id, secs, now))
  {
    RunKeepsDbOk(ops);
    HistoryExplainsRow(ops, id);
  }

  ghost predicate Expired(ops: seq<Op>, id: Id, secs: int, now: Time) {
    && Holder(ops, id).Some?
    && now - Stamp(ops, id) > secs * SECOND
    && ClaimCount(ops, id) < DEFAULT_MAX_ATTEMPTS
  }

  /** Every reap of the run that finds the job held finds its last claim or heartbeat at
      most `secs` seconds old. */
  ghost predicate BeatenInTime(ops: seq<Op>, id: Id) {
    forall k | 0 <= k < |ops| && ops[k].Write? && ops[k].stmt.Reap? && Holder(ops[..k], id).Some? ::
      ops[k].now - Stamp(ops[..k], id) <= ops[k].stmt.secs * SECOND
  }

  /** Timed lease safety: a job whose owner beats in time is never taken by a reaper. */
  lemma LeaseSafety(ops: seq<Op>, id: Id)
    requires Legal(ops) && BeatenInTime(ops, id)
    ensures forall k | 0 <= k < |ops| && ops[k].Touches(id) :: !ops[k].stmt.Reap?
  {
    forall k | 0 <= k < |ops| && ops[k].Touches(id) && ops[k].stmt.Reap?
      ensures false
    {
      LegalPrefix(ops, k);
      ReapVerdict(ops[..k], id, ops[k].stmt.secs, ops[k].ids, ops[k].now);
    }
  }

  /** The reaper is early: it releases a job whose last claim or heartbeat is more recent
      than the lease. */
  ghost predicate IsEarlyReap(ops: seq<Op>, id: Id, ids: set<Id>, now: Time, lease: nat) {
    && Legal(ops) && Enabled(Exec(ops), Write(Reap(ReapSecs(lease)), ids, now)) && id in ids
    && (now - Stamp(ops, id)) * 1000 < lease
  }

  /** Which ages below the lease lie beyond the interval that the lease is truncated to. */
  lemma AgesBelowLease(lease: nat)
    requires lease / 1_000_000_000 < 2 * TWO_TO_THE_63
    ensures (exists age: Time :: age > ReapSecs(lease) * SECOND && age * 1000 < lease)
       <==> lease % 1_000_000_000 > 1000 || lease / 1_000_000_000 >= TWO_TO_THE_63
    ensures lease / 1_000_000_000 < TWO_TO_THE_63 ==>
              forall age: Time | age > ReapSecs(lease) * SECOND :: age * 1000 > lease - 1_000_000_000
  {
    assert lease == lease / 1_000_000_000 * 1_000_000_000 + lease % 1_000_000_000;
    if lease % 1_000_000_000 > 1000 || lease / 1_000_000_000 >= TWO_TO_THE_63 {
      var age := ReapSecs(lease) * SECOND + 1;
      assert age > ReapSecs(lease) * SECOND && age * 1000 < lease;
    }
  }

  /** Below the wrap-around an early reap is early by less than a second. */
  lemma EarlyReapBound(ops: seq<Op>, id: Id, ids: set<Id>, now: Time, lease: nat)
    requires lease / 1_000_000_000 < TWO_TO_THE_63 && IsEarlyReap(ops, id, ids, now, lease)
    ensures lease - 1_000_000_000 < (now - Stamp(ops, id)) * 1000 < lease
  {
    ReapVerdict(ops, id, ReapSecs(lease), ids, now);
    AgesBelowLease(lease);
  }

  /** The cast keeps the lease's whole seconds exactly when they fit 63 bits; in any case its
      result is the one signed 64-bit number equal to them modulo 2^64. */
  lemma LeaseCastExactlyWhen(lease: nat)
    requires lease / 1_000_000_000 < 2 * TWO_TO_THE_63
    ensures -TWO_TO_THE_63 <= ReapSecs(lease) < TWO_TO_THE_63
    ensures (lease / 1_000_000_000 - ReapSecs(lease)) % (2 * TWO_TO_THE_63) == 0
    ensures ReapSecs(lease) == lease / 1_000_000_000 <==> lease / 1_000_000_000 < TWO_TO_THE_63
    ensures lease / 1_000_000_000 >= TWO_TO_THE_63 <==> ReapSecs(lease) < 0
  {
  }

  /** The longest lease a Duration can hold, in nanoseconds. */
  const LONGEST_LEASE: nat := (2 * TWO_TO_THE_63 - 1) * 1_000_000_000 + 999_999_999

  /** It is cast to -1 second: a reap that misses no row then releases exactly the held jobs
      with attempts left that were claimed or beaten less than a second after its now(). */
  lemma LongestLeaseReapsAtOnce(ops: seq<Op>, id: Id, ids: set<Id>, now: Time)
    requires Legal(ops) && ids == Matching(Exec(ops).jobs, Reap(ReapSecs(LONGEST_LEASE)), now) && now <= Exec(ops).clock
    ensures id in ids <==>
              && Holder(ops, id).Some? && ClaimCount(ops, id) < DEFAULT_MAX_ATTEMPTS
              && Stamp(ops, id) < now + SECOND
  {
    ReapVerdict(ops, id, ReapSecs(LONGEST_LEASE), ids, now);
  }

  // ----- The heartbeat

  /** The asked jobs whose last claim, release, completion or dead letter is a claim by
      `worker`. */
  ghost function HeldBy(ops: seq<Op>, asked: set<Id>, worker: string): set<Id> {
    set id | id in asked && Holder(ops, id) == Some(worker)
  }

  /** The heartbeat's verdict: it never counts a job its worker has lost, and if it misses
      no row its count is exactly the number of asked jobs the worker still holds. */
  lemma HeartbeatVerdict(ops: seq<Op>, asked: set<Id>, worker: string, ids: set<Id>, now: Time)
    requires Legal(ops) && Enabled(Exec(ops), Write(Heartbeat(asked, worker), ids, now))
    ensures ids <= HeldBy(ops, asked, worker)
    ensures ids == Matching(Exec(ops).jobs, Heartbeat(asked, worker), now) ==> ids == HeldBy(ops, asked, worker)
  {
    forall id | id in asked
      ensures Holder(ops, id) == Some(worker)
         <==> id in Exec(ops).jobs && Matches(Heartbeat(asked, worker), id, Exec(ops).jobs[id], now)
    {
      RunKeepsDbOk(ops);
      HistoryExplainsRow(ops, id);
    }
  }

  /** So a worker that lost all its jobs, to a reap, a retry or another claim, is told zero. */
  lemma PreemptedHeartbeatIsZero(ops: seq<Op>, asked: set<Id>, worker: string, ids: set<Id>, now: Time)
    requires Legal(ops) && Enabled(Exec(ops), Write(Heartbeat(asked, worker), ids, now))
    requires forall id | id in asked :: Holder(ops, id) != Some(worker)
    ensures |ids| == 0
  {
    HeartbeatVerdict(ops, asked, worker, ids, now);
    assert HeldBy(ops, asked, worker) == {};
  }

  /** Step `k` is the only claim of the job under this worker id: ids are not reused. */
  ghost predicate OnlyClaim(ops: seq<Op>, id: Id, worker: string, k: nat) {
    k < |ops| && forall j | 0 <= j < |ops| :: (ops[j].Claims(id) && ops[j].stmt.worker == worker) <==> j == k
  }

  /** Since the claim at step `k` something other than a heartbeat happened to the job. */
  ghost predicate Lost(ops: seq<Op>, id: Id, k: nat) {
    exists j :: k < j < |ops| && ops[j].Touches(id) && !ops[j].stmt.Heartbeat?
  }

  /** The claim of the job at step `k` is by `worker` and not lost. */
  ghost predicate StillHeld(ops: seq<Op>, id: Id, worker: string, k: nat) {
    k < |ops| && ops[k].Claims(id) && ops[k].stmt.worker == worker && !Lost(ops, id, k)
  }

  lemma LostAfterFront(ops: seq<Op>, id: Id, k: nat)
    requires ops != [] && k < |ops|
    ensures Lost(ops, id, k) <==>
              (k < |ops| - 1 && Last(ops).Touches(id) && !Last(ops).stmt.Heartbeat?) || Lost(Front(ops), id, k)
  {
    if Lost(ops, id, k) {
      var j :| k < j < |ops| && ops[j].Touches(id) && !ops[j].stmt.Heartbeat?;
      assert j < |ops| - 1 ==> Front(ops)[j] == ops[j];
    }
    if Lost(Front(ops), id, k) {
      var j :| k < j < |Front(ops)| && Front(ops)[j].Touches(id) && !Front(ops)[j].stmt.Heartbeat?;
      assert Front(ops)[j] == ops[j];
    }
    assert ops[|ops| - 1] == Last(ops);
  }

  lemma StillHeldAfterFront(ops: seq<Op>, id: Id, worker: string, k: nat)
    requires ops != [] && k < |ops| - 1
    ensures StillHeld(ops, id, worker, k) <==>
              StillHeld(Front(ops), id, worker, k) && !(Last(ops).Touches(id) && !Last(ops).stmt.Heartbeat?)
  {
    LostAfterFront(ops, id, k);
    assert Front(ops)[k] == ops[k];
  }

  /** A worker holds a job exactly when one of its claims of it is not lost. */
  lemma {:induction false} HolderIsStillHeld(ops: seq<Op>, id: Id, worker: string)
    ensures Holder(ops, id) == Some(worker) <==> exists k :: StillHeld(ops, id, worker, k)
  {
    if ops != [] {
      var n := |ops| - 1;
      HolderIsStillHeld(Front(ops), id, worker);
      forall k | 0 <= k < n
        ensures StillHeld(ops, id, worker, k) <==>
                  StillHeld(Front(ops), id, worker, k) && !(Last(ops).Touches(id) && !Last(ops).stmt.Heartbeat?)
      {
        StillHeldAfterFront(ops, id, worker, k);
      }
      if Last(ops).Claims(id) {
        assert StillHeld(ops, id, worker, n) <==> Last(ops).stmt.worker == worker;
      }
    }
  }

  /** The job was claimed again by the worker after step `k`, and that claim is not lost. */
  ghost predicate HeldAgain(ops: seq<Op>, id: Id, worker: string, k: nat) {
    exists j :: k < j && StillHeld(ops, id, worker, j)
  }

  /** The claims that a worker beats for: step `claimedAt[id]` is a claim of the job by it. */
  ghost predicate AreClaims(ops: seq<Op>, claimedAt: map<Id, nat>, worker: string) {
    forall id | id in claimedAt ::
      claimedAt[id] < |ops| && ops[claimedAt[id]].Claims(id) && ops[claimedAt[id]].stmt.worker == worker
  }

  lemma HeldIsNotLostOrAgain(ops: seq<Op>, id: Id, worker: string, k: nat)
    requires k < |ops| && ops[k].Claims(id) && ops[k].stmt.worker == worker
    ensures Holder(ops, id) == Some(worker) <==> !Lost(ops, id, k) || HeldAgain(ops, id, worker, k)
    ensures HeldAgain(ops, id, worker, k) ==> Lost(ops, id, k)
  {
    HolderIsStillHeld(ops, id, worker);
    if Holder(ops, id) == Some(worker) {
      var j: nat :| StillHeld(ops, id, worker, j);
      assert j >= k;
    }
    if !Lost(ops, id, k) {
      assert StillHeld(ops, id, worker, k);
    }
  }

  /** Whether a heartbeat that misses no row is right about the claims it beats for: about
      each claim exactly when the same worker does not hold the job again by a later claim,
      and so about all of them, when it reports zero rows for all lost and only then, exactly
      when not all are lost or none is held again. */
  lemma HeartbeatIsRightExactlyWhen(ops: seq<Op>, claimedAt: map<Id, nat>, worker: string, ids: set<Id>, now: Time)
    requires Legal(ops) && Enabled(Exec(ops), Write(Heartbeat(claimedAt.Keys, worker), ids, now))
    requires ids == Matching(Exec(ops).jobs, Heartbeat(claimedAt.Keys, worker), now)
    requires AreClaims(ops, claimedAt, worker)
    ensures forall id | id in claimedAt ::
              (id in ids <==> !Lost(ops, id, claimedAt[id])) <==> !HeldAgain(ops, id, worker, claimedAt[id])
    ensures |ids| == 0 ==> forall id | id in claimedAt :: Lost(ops, id, claimedAt[id])
    ensures (forall id | id in claimedAt :: Lost(ops, id, claimedAt[id])) ==>
              (|ids| == 0 <==> forall id | id in claimedAt :: !HeldAgain(ops, id, worker, claimedAt[id]))
  {
    HeartbeatVerdict(ops, claimedAt.Keys, worker, ids, now);
    forall id | id in claimedAt
      ensures id in ids <==> !Lost(ops, id, claimedAt[id]) || HeldAgain(ops, id, worker, claimedAt[id])
      ensures HeldAgain(ops, id, worker, claimedAt[id]) ==> Lost(ops, id, claimedAt[id])
    {
      HeldIsNotLostOrAgain(ops, id, worker, claimedAt[id]);
    }
    assert |ids| == 0 <==> forall id | id in claimedAt :: id !in ids;
  }

  /** So with worker ids that are not reused for a job, a heartbeat that misses no row updates
      exactly the asked jobs that were not lost since they were claimed; zero rows then mean
      that all of them were, and only then. */
  lemma HeartbeatTellsTheLoss(ops: seq<Op>, claimedAt: map<Id, nat>, worker: string, ids: set<Id>, now: Time)
    requires Legal(ops) && Enabled(Exec(ops), Write(Heartbeat(claimedAt.Keys, worker), ids, now))
    requires ids == Matching(Exec(ops).jobs, Heartbeat(claimedAt.Keys, worker), now)
    requires forall id | id in claimedAt :: OnlyClaim(ops, id, worker, claimedAt[id])
    ensures ids == set id | id in claimedAt && !Lost(ops, id, claimedAt[id])
    ensures |ids| == 0 <==> forall id | id in claimedAt :: Lost(ops, id, claimedAt[id])
  {
    HeartbeatIsRightExactlyWhen(ops, claimedAt, worker, ids, now);
    assert forall id | id in claimedAt :: !HeldAgain(ops, id, worker, claimedAt[id]);
  }
}
