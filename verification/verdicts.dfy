/** What every statement decides and writes, in terms of the history of the job alone: which
    rows its WHERE clause finds, and every column of every row after any run. */
module Verdicts {
  import opened Schema
  import opened Queue
  import opened Lifecycle
  import Leases

  // ----- The insert

  /** A row as the INSERT stores it: the caller's values and the column defaults. */
  ghost predicate StoredAs(r: Row, kind: string, payload: Payload, due: Time) {
    && r.kind == kind && r.payload == payload && r.runAt == due
    && r.state == Ready && r.attempts == 0 && r.maxAttempts == 20
    && r.lockedAt.None? && r.lockedBy.None? && r.lastError.None?
  }

  /** Rows can be inserted exactly when their ids are new and all columns that the caller
      does not name have their defaults; what is inserted is then in the table as it is. */
  lemma InsertVerdict(ops: seq<Op>, rows: map<Id, Row>)
    requires Legal(ops)
    ensures Enabled(Exec(ops), Insert(rows)) <==>
              && rows.Keys !! Inserted(ops)
              && forall id | id in rows :: StoredAs(rows[id], rows[id].kind, rows[id].payload, rows[id].runAt)
    ensures Enabled(Exec(ops), Insert(rows)) ==>
              forall id | id in rows :: id in Apply(Exec(ops), Insert(rows)).jobs
                                        && Apply(Exec(ops), Insert(rows)).jobs[id] == rows[id]
  {
    InsertedIsIssued(ops);
  }

  // ----- Where a job is, and in which state

  ghost predicate IsBuried(ops: seq<Op>, id: Id) {
    exists k :: 0 <= k < |ops| && ops[k].Touches(id) && ops[k].stmt.DeadLetter?
  }

  /** In `jobs`: inserted and not dead-lettered since. */
  ghost predicate IsLive(ops: seq<Op>, id: Id) {
    id in Inserted(ops) && !IsBuried(ops, id)
  }

  lemma BuriedFront(ops: seq<Op>, id: Id)
    requires ops != []
    ensures IsBuried(ops, id) <==> IsBuried(Front(ops), id) || (Last(ops).Touches(id) && Last(ops).stmt.DeadLetter?)
  {
    if IsBuried(Front(ops), id) {
      var k :| 0 <= k < |Front(ops)| && Front(ops)[k].Touches(id) && Front(ops)[k].stmt.DeadLetter?;
      assert ops[k] == Front(ops)[k];
    }
    if IsBuried(ops, id) {
      var k :| 0 <= k < |ops| && ops[k].Touches(id) && ops[k].stmt.DeadLetter?;
      assert k < |ops| - 1 ==> Front(ops)[k] == ops[k];
    }
    assert ops[|ops| - 1] == Last(ops);
  }

  lemma {:induction false} LiveIsInTable(ops: seq<Op>, id: Id)
    requires Legal(ops)
    ensures id in Exec(ops).jobs <==> IsLive(ops, id)
    ensures IsBuried(ops, id) ==> id in Inserted(ops)
  {
    if ops != [] {
      LiveIsInTable(Front(ops), id);
      BuriedFront(ops, id);
      InsertedIsIssued(Front(ops));
      RunKeepsDbOk(Front(ops));
    }
  }

  /** What the last insert, claim, release, completion or dead letter made of the job. */
  ghost function Status(ops: seq<Op>, id: Id): State {
    if ops == [] then Ready
    else if Last(ops).Insert? && id in Last(ops).rows then Ready
    else if !Last(ops).Touches(id) then Status(Front(ops), id)
    else match Last(ops).stmt
         case ClaimBatch(_, _, _) => Running
         case FairClaim(_, _, _, _) => Running
         case Heartbeat(_, _) => Status(Front(ops), id)
         case Reap(_) => Ready
         case MarkDone(_, _) => Done
         case Requeue(_, _, _) => Ready
         case DeadLetter(_, _, _) => Dead
  }

  lemma {:induction false} HistoryExplainsState(ops: seq<Op>, id: Id)
    requires Legal(ops) && id in Exec(ops).jobs
    ensures Exec(ops).jobs[id].state == Status(ops, id)
  {
    RunKeepsDbOk(Front(ops));
    if id in Exec(Front(ops)).jobs {
      HistoryExplainsState(Front(ops), id);
      if !Last(ops).Touches(id) {
        UntouchedRow(Exec(Front(ops)), Last(ops), id);
      }
    }
  }

  /** The whole row, column by column, is determined by the run: the table is a fold of its
      history and no statement has any other effect on it. */
  lemma RowIsItsHistory(ops: seq<Op>, id: Id)
    requires Legal(ops)
    ensures id in Exec(ops).jobs <==> IsLive(ops, id)
    ensures IsLive(ops, id) ==>
              var held := Holder(ops, id).Some?;
              Exec(ops).jobs[id] ==
                Row(Born(ops, id).kind, Born(ops, id).payload, Status(ops, id), Due(ops, id),
                    if held then Some(Stamp(ops, id)) else None, Holder(ops, id),
                    ClaimCount(ops, id), 20, LastError(ops, id))
  {
    LiveIsInTable(ops, id);
    if IsLive(ops, id) {
      RunKeepsDbOk(ops);
      Immutable(ops, id);
      HistoryExplainsState(ops, id);
      HistoryExplainsRow(ops, id);
      HistoryExplainsSchedule(ops, id);
    }
  }

  // ----- The claims

  /** Ready, due and of an asked kind. */
  ghost predicate IsDueFor(ops: seq<Op>, id: Id, kinds: set<string>, now: Time) {
    IsLive(ops, id) && Status(ops, id) == Ready && Due(ops, id) <= now && Born(ops, id).kind in kinds
  }

  /** Which jobs a claim finds: exactly the live ones that are ready, due and of an asked
      kind, however often they were claimed, retried or reaped before; and which sets of them
      it may take: any within its limit. */
  lemma ClaimVerdict(ops: seq<Op>, s: Stmt, ids: set<Id>, now: Time)
    requires Legal(ops) && s.IsClaim()
    ensures forall id :: id in Matching(Exec(ops).jobs, s, now) <==> IsDueFor(ops, id, s.kinds, now)
    ensures Enabled(Exec(ops), Write(s, ids, now)) <==>
              && now <= Exec(ops).clock
              && (forall id | id in ids :: IsDueFor(ops, id, s.kinds, now))
              && |ids| <= if s.ClaimBatch? then s.limit else 4 * s.batch
  {
    forall id
      ensures id in Matching(Exec(ops).jobs, s, now) <==> IsDueFor(ops, id, s.kinds, now)
    {
      RowIsItsHistory(ops, id);
    }
  }

  // ----- The statements that filter by id alone

  /** mark_done takes the job whatever its state and whoever holds it, and leaves it done. */
  lemma FinishVerdict(ops: seq<Op>, id: Id, caller: string, ids: set<Id>, now: Time)
    requires Legal(ops)
    ensures Enabled(Exec(ops), Write(MarkDone(id, caller), ids, now)) <==>
              now <= Exec(ops).clock && ids <= {id} && (id in ids ==> IsLive(ops, id))
    ensures Matching(Exec(ops).jobs, MarkDone(id, caller), now) == if IsLive(ops, id) then {id} else {}
    ensures Enabled(Exec(ops), Write(MarkDone(id, caller), {id}, now)) ==>
              Leases.IsDone(Exec(ops + [Write(MarkDone(id, caller), {id}, now)]), id)
  {
    LiveIsInTable(ops, id);
    FinishedIsDone(ops, Write(MarkDone(id, caller), {id}, now), id);
  }

  lemma FinishedIsDone(ops: seq<Op>, op: Op, id: Id)
    requires op.Touches(id) && op.stmt.MarkDone?
    ensures Enabled(Exec(ops), op) ==> Leases.IsDone(Exec(ops + [op]), id)
  {
    assert Front(ops + [op]) == ops;
  }

  /** A dead letter takes the job whatever its state, and buries it. */
  lemma BuryVerdict(ops: seq<Op>, id: Id, error: string, caller: string, ids: set<Id>, now: Time)
    requires Legal(ops)
    ensures Enabled(Exec(ops), Write(DeadLetter(id, error, caller), ids, now)) <==>
              now <= Exec(ops).clock && ids <= {id} && (id in ids ==> IsLive(ops, id))
    ensures Matching(Exec(ops).jobs, DeadLetter(id, error, caller), now) == if IsLive(ops, id) then {id} else {}
  {
    LiveIsInTable(ops, id);
  }
}
