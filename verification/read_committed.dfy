/** What a transaction of the fine-grained machine can rely on: its now() is its start, its
    snapshot is a committed state, its enqueues land all together with the caller's values,
    its end releases everything, and it waits for nothing but a row another one holds. */
module ReadCommitted {
  import opened Schema
  import opened Queue
  import opened Transactions
  import opened Interleavings
  import Verdicts

  // ----- Beginning and end

  lemma OpenIsStarted(steps: seq<Step>, k: nat)
    requires Runs(steps) && k <= |steps|
    ensures At(steps, k).txs.Keys <= At(steps, k).started
  {
    AtOk(steps, k);
  }

  /** Step `k` opened the transaction, which has the clock of that moment as its now(). */
  ghost predicate OpenedAt(steps: seq<Step>, k: nat, t: Tid, tx: Tx)
    requires Runs(steps) && k < |steps|
  {
    && tx.now == At(steps, k).db.clock
    && if tx.Producing? then steps[k] == Begin(t) else steps[k] == Open(t, tx.stmt)
  }

  ghost predicate SameTx(a: Tx, b: Tx) {
    a.now == b.now && (a.Producing? <==> b.Producing?) && (!a.Producing? ==> a.stmt == b.stmt)
  }

  lemma StepKeepsTx(s: Sys, step: Step, t: Tid)
    requires CanStep(s, step) && t in DoStep(s, step).txs && s.txs.Keys <= s.started
    ensures t in s.txs ==> SameTx(DoStep(s, step).txs[t], s.txs[t])
    ensures t !in s.txs ==> var tx := DoStep(s, step).txs[t];
                            && tx.now == s.db.clock
                            && if tx.Producing? then step == Begin(t) else step == Open(t, tx.stmt)
  {
  }

  /** now() is the clock at the step that opened the transaction, and its statement is the
      one it was opened for. */
  lemma {:induction false} NowIsStart(steps: seq<Step>, t: Tid)
    requires Runs(steps) && t in SysOf(steps).txs
    ensures exists k :: 0 <= k < |steps| && OpenedAt(steps, k, t, SysOf(steps).txs[t])
  {
    var n, s, tx := |steps| - 1, SysOf(Front(steps)), SysOf(steps).txs[t];
    assert At(steps, n) == s;
    OpenIsStarted(steps, n);
    StepKeepsTx(s, Last(steps), t);
    if t in s.txs {
      NowIsStart(Front(steps), t);
      var k :| 0 <= k < n && OpenedAt(Front(steps), k, t, s.txs[t]);
      AtFront(steps, k);
      assert OpenedAt(steps, k, t, tx);
    } else {
      assert OpenedAt(steps, n, t, tx);
    }
  }

  ghost predicate SnapshotAt(steps: seq<Step>, k: nat, t: Tid, tx: Tx)
    requires Runs(steps) && k < |steps| && tx.Scanning?
  {
    steps[k] == Snapshot(t, tx.order) && tx.snap == At(steps, k).db.jobs
  }

  /** A statement searches the state that was committed when it took its snapshot. */
  lemma {:induction false} SnapshotIsCommitted(steps: seq<Step>, t: Tid)
    requires Runs(steps) && IsScanning(SysOf(steps), t)
    ensures exists k :: 0 <= k < |steps| && SnapshotAt(steps, k, t, SysOf(steps).txs[t])
  {
    var n, s, tx := |steps| - 1, SysOf(Front(steps)), SysOf(steps).txs[t];
    assert At(steps, n) == s;
    if IsScanning(s, t) {
      SnapshotIsCommitted(Front(steps), t);
      var k :| 0 <= k < n && SnapshotAt(Front(steps), k, t, s.txs[t]);
      AtFront(steps, k);
      SameScan(steps, t, n);
      assert SnapshotAt(steps, k, t, tx);
    } else {
      assert SnapshotAt(steps, n, t, tx);
    }
  }

  /** A transaction that committed or aborted is gone for ever, and with it its locks. */
  lemma {:induction false} EndReleases(steps: seq<Step>, k: nat, m: nat, t: Tid)
    requires Runs(steps) && k < m <= |steps| && (steps[k] == Commit(t) || steps[k] == Abort(t))
    ensures t in At(steps, m).started && t !in At(steps, m).txs
    ensures forall u, id | u != t && HeldByOther(At(steps, m), u, id) ::
              exists v :: v in At(steps, m).txs && v != t && v != u && id in At(steps, m).txs[v].HeldIds()
  {
    AtNext(steps, m - 1);
    OpenIsStarted(steps, m - 1);
    if k < m - 1 {
      EndReleases(steps, k, m - 1, t);
    }
    forall u, id | u != t && HeldByOther(At(steps, m), u, id)
      ensures exists v :: v in At(steps, m).txs && v != t && v != u && id in At(steps, m).txs[v].HeldIds()
    {
      var v :| v in At(steps, m).txs && v != u && id in At(steps, m).txs[v].HeldIds();
      assert v != t;
    }
  }

  /** At step `k` the row could not be locked: another transaction held it or it was gone. */
  ghost predicate CouldNotLock(steps: seq<Step>, k: nat, t: Tid, id: Id)
    requires Runs(steps) && k < |steps|
  {
    steps[k] == Visit(t) && (HeldByOther(At(steps, k), t, id) || id !in At(steps, k).db.jobs)
  }

  /** A scan holds every row it has come to, whether or not it still matched, but for those
      that it could not lock. */
  lemma {:induction false} VisitedRowsAreLocked(steps: seq<Step>, t: Tid, i: nat)
    requires Runs(steps) && IsScanning(SysOf(steps), t)
    requires i < SysOf(steps).txs[t].pos <= |SysOf(steps).txs[t].order|
    ensures var tx := SysOf(steps).txs[t];
            tx.order[i] in tx.held || exists k :: 0 <= k < |steps| && CouldNotLock(steps, k, t, tx.order[i])
  {
    var n, s := |steps| - 1, SysOf(Front(steps));
    assert At(steps, n) == s;
    if Last(steps) == Visit(t) && i == s.txs[t].pos {
      assert s.txs[t].order[i] in SysOf(steps).txs[t].held || CouldNotLock(steps, n, t, s.txs[t].order[i]);
    } else {
      KeepsHeld(s, Last(steps), t);
      VisitedRowsAreLocked(Front(steps), t, i);
      var id := s.txs[t].order[i];
      if id !in s.txs[t].held {
        var k :| 0 <= k < n && CouldNotLock(Front(steps), k, t, id);
        AtFront(steps, k);
        assert CouldNotLock(steps, k, t, id);
      }
    }
  }

  lemma KeepsHeld(s: Sys, step: Step, t: Tid)
    requires CanStep(s, step) && IsScanning(DoStep(s, step), t) && DoStep(s, step).txs[t].pos > 0
    ensures IsScanning(s, t) && DoStep(s, step).txs[t].order == s.txs[t].order
    ensures s.txs[t].held <= DoStep(s, step).txs[t].held
    ensures DoStep(s, step).txs[t].pos == s.txs[t].pos + if step == Visit(t) then 1 else 0
  {
  }

  // ----- Enqueues land together

  /** The transaction will insert this very job under `id`. */
  ghost predicate WillInsert(s: Sys, t: Tid, id: Id, kind: string, payload: Payload, due: Time) {
    && t in s.txs && s.txs[t].Producing?
    && id in s.txs[t].rows && Verdicts.StoredAs(s.txs[t].rows[id], kind, payload, due)
  }

  lemma EnqueueStages(s: Sys, t: Tid, kind: string, payload: Payload, runAt: Option<Time>)
    requires CanStep(s, Enqueue(t, kind, payload, runAt))
    ensures WillInsert(DoStep(s, Enqueue(t, kind, payload, runAt)), t, s.nextId, kind, payload,
                       if runAt.Some? then runAt.value else s.txs[t].now)
  {
  }

  lemma WillInsertStep(s: Sys, step: Step, t: Tid, id: Id, kind: string, payload: Payload, due: Time)
    requires SysOk(s) && CanStep(s, step) && t in DoStep(s, step).txs
    requires WillInsert(s, t, id, kind, payload, due)
    ensures WillInsert(DoStep(s, step), t, id, kind, payload, due)
  {
    if step.Enqueue? && step.t == t {
      assert id in s.txs[t].NewIds();
      assert id < s.nextId;
    }
  }

  lemma {:induction false} StagedUntil(steps: seq<Step>, k: nat, m: nat, t: Tid, id: Id,
                                       kind: string, payload: Payload, due: Time)
    requires Runs(steps) && k <= m <= |steps| && WillInsert(At(steps, k), t, id, kind, payload, due)
    requires t in At(steps, m).txs
    ensures WillInsert(At(steps, m), t, id, kind, payload, due)
  {
    if k < m {
      AtNext(steps, m - 1);
      if t !in At(steps, m - 1).txs {
        StartedFrom(steps, k, m - 1, t);
        assert false;
      }
      StagedUntil(steps, k, m - 1, t, id, kind, payload, due);
      WillInsertStep(At(steps, m - 1), steps[m - 1], t, id, kind, payload, due);
    }
  }

  lemma {:induction false} StartedFrom(steps: seq<Step>, k: nat, m: nat, t: Tid)
    requires Runs(steps) && k <= m <= |steps| && t in At(steps, k).txs
    ensures t in At(steps, m).started
  {
    if k < m {
      StartedFrom(steps, k, m - 1, t);
      AtNext(steps, m - 1);
    } else {
      OpenIsStarted(steps, k);
    }
  }

  /** When a producer commits, every job it enqueued is in the table, with the caller's kind,
      payload and due time, or now() if no time was given, and with all defaults. */
  lemma EnqueuesLandTogether(steps: seq<Step>, k: nat, m: nat, t: Tid,
                             kind: string, payload: Payload, runAt: Option<Time>)
    requires Runs(steps) && k < m < |steps|
    requires steps[k] == Enqueue(t, kind, payload, runAt) && steps[m] == Commit(t)
    ensures t in At(steps, k).txs
    ensures var id := At(steps, k).nextId;
            && id !in At(steps, m).db.jobs && id in At(steps, m + 1).db.jobs
            && Verdicts.StoredAs(At(steps, m + 1).db.jobs[id], kind, payload,
                                 if runAt.Some? then runAt.value else At(steps, k).txs[t].now)
  {
    AtNext(steps, k);
    AtNext(steps, m);
    var id := At(steps, k).nextId;
    EnqueueStages(At(steps, k), t, kind, payload, runAt);
    StagedUntil(steps, k + 1, m, t, id, kind, payload, if runAt.Some? then runAt.value else At(steps, k).txs[t].now);
    assert id in At(steps, m).txs[t].NewIds();
  }

  // ----- Statements commit whole

  /** A statement commits only when it is complete: it has visited all rows of its snapshot,
      or locked as many as it asked for, and a claim has also written what it chose. */
  lemma CommitsComplete(steps: seq<Step>, k: nat, t: Tid)
    requires Runs(steps) && k < |steps| && steps[k] == Commit(t) && IsScanning(At(steps, k), t)
    ensures var tx := At(steps, k).txs[t];
            && (tx.pos == |tx.order|
                || (tx.stmt.ClaimBatch? && |tx.picked| == tx.stmt.limit)
                || (tx.stmt.FairClaim? && |tx.picked| == 4 * tx.stmt.batch))
            && (tx.stmt.ClaimBatch? || tx.stmt.FairClaim? ==> tx.written)
  {
    AtNext(steps, k);
    RunsPrefix(steps, k);
  }

  /** So a row that matches a heartbeat, reap, requeue, completion or dead letter in its
      snapshot and throughout its scan is written by its commit. */
  lemma StableRowsAreCommitted(steps: seq<Step>, k: nat, t: Tid, id: Id)
    requires Runs(steps) && k < |steps| && steps[k] == Commit(t) && IsScanning(At(steps, k), t)
    requires Runs(steps[..k]) && MatchesThroughout(steps[..k], t, id)
    requires var tx := At(steps, k).txs[t]; !tx.stmt.IsClaim() && id in Matching(tx.snap, tx.stmt, tx.now)
    ensures exists op :: Commits(steps, k, op) && op.Touches(id) && op.stmt == At(steps, k).txs[t].stmt
  {
    AtNext(steps, k);
    CommitsComplete(steps, k, t);
    StableRowsAreWritten(steps[..k], t, id);
    assert Commits(steps, k, CommitOp(At(steps, k).txs[t]));
  }

  // ----- Progress

  /** Transactions begin, and time goes on, whatever is open. */
  lemma StartsFreely(steps: seq<Step>, t: Tid, stmt: Stmt, to: Time)
    requires Runs(steps)
    ensures t !in SysOf(steps).started ==> CanStep(SysOf(steps), Open(t, stmt)) && CanStep(SysOf(steps), Begin(t))
    ensures to >= SysOf(steps).db.clock ==> CanStep(SysOf(steps), Advance(to))
    ensures t in SysOf(steps).txs && SysOf(steps).txs[t].Producing? ==>
              forall kind, payload, runAt :: CanStep(SysOf(steps), Enqueue(t, kind, payload, runAt))
  {
  }

  lemma {:induction false} Listed(ids: set<Id>) returns (list: seq<Id>)
    ensures NoDup(list) && Elems(list) == ids
  {
    list := [];
    if ids != {} {
      var id :| id in ids;
      var rest := Listed(ids - {id});
      list := rest + [id];
      assert id !in Elems(rest);
      ElemsOfConcat(rest, [id]);
      assert Elems([id]) == {id};
    }
  }

  /** Every statement finds some order in which to visit its rows. */
  lemma ScanOrderExists(jobs: map<Id, Row>, s: Stmt, now: Time) returns (order: seq<Id>)
    ensures IsScanOrder(jobs, s, now, order)
  {
    var ids := Listed(Matching(jobs, s, now));
    assert forall x | x in ids :: x in Elems(ids);
    RankedIsRanking(jobs, ids);
    order := Ranked(jobs, ids);
  }

  /** A transaction can always abort. A claim can start unless its window overflows 64 bits,
      any other statement always. A scan goes on unless the row it comes to is held by another
      transaction and it is not a claim; and what has come to its end can commit. */
  lemma WaitsOnlyForHeldRows(steps: seq<Step>, t: Tid)
    requires Runs(steps) && t in SysOf(steps).txs
    ensures var s, tx := SysOf(steps), SysOf(steps).txs[t];
            && CanStep(s, Abort(t))
            && (tx.Producing? ==> CanStep(s, Commit(t)))
            && (tx.Opened? ==>
                  ((exists order :: CanStep(s, Snapshot(t, order)))
                   <==> match tx.stmt
                        case ClaimBatch(_, n, _) => n < 0x8000_0000_0000_0000
                        case FairClaim(_, batch, _, _) => 4 * batch < 0x8000_0000_0000_0000
                        case _ => true))
            && (tx.Scanning? && !tx.stmt.IsClaim() && tx.pos < |tx.order| ==>
                  (CanStep(s, Visit(t)) <==> !HeldByOther(s, t, tx.order[tx.pos])))
            && (tx.Scanning? && !tx.stmt.IsClaim() && tx.pos == |tx.order| ==> CanStep(s, Commit(t)))
  {
    var s, tx := SysOf(steps), SysOf(steps).txs[t];
    if tx.Opened? {
      var order := ScanOrderExists(s.db.jobs, tx.stmt, tx.now);
      assert tx.stmt.Evaluates() ==> CanStep(s, Snapshot(t, order));
    }
    if tx.Scanning? && !tx.stmt.IsClaim() {
      NotWrittenUnlessClaim(steps, t);
    }
  }

  lemma {:induction false} NotWrittenUnlessClaim(steps: seq<Step>, t: Tid)
    requires Runs(steps) && IsScanning(SysOf(steps), t) && !SysOf(steps).txs[t].stmt.IsClaim()
    ensures !SysOf(steps).txs[t].written
  {
    var s := SysOf(Front(steps));
    if IsScanning(s, t) {
      SameScan(steps, t, |steps| - 1);
      assert At(steps, |steps| - 1) == s;
      NotWrittenUnlessClaim(Front(steps), t);
    }
  }
}
