/** The library's calls as they change the tables in place, one statement at a time. Each
    method is proved to perform exactly one step of the atomic machine and to miss no row;
    and what it does is stated column by column, apart from the machine's definitions. */
module Session {
  import opened Schema
  import opened Queue
  import opened Lifecycle
  import opened Transactions
  import opened Interleavings
  import opened Retries
  import opened Leases
  import Fairness
  import opened FairChoice

  /** The id set is determined by the two tables. */
  lemma StepOfTables(before: Db, op: Op, jobs: map<Id, Row>, dead: seq<DeadRow>)
    requires DbOk(before) && Enabled(before, op) && !op.Tick?
    requires jobs == Apply(before, op).jobs && dead == Apply(before, op).dead
    ensures Db(jobs, dead, jobs.Keys + DeadIds(dead), before.clock) == Apply(before, op)
    ensures DbOk(Apply(before, op))
  {
    StepKeepsDbOk(before, op);
  }

  lemma WrittenOneMore(rows: map<Id, Row>, s: Stmt, hit: set<Id>, now: Time, id: Id)
    requires id in rows && id !in hit
    ensures Written(rows, s, hit + {id}, now) == Written(rows, s, hit, now)[id := Effect(s, rows[id], now)]
  {
  }

  function Splice(order: seq<Id>, i: nat, id: Id): seq<Id>
    requires i <= |order|
  {
    order[..i] + [id] + order[i..]
  }

  lemma SpliceElems(order: seq<Id>, i: nat, id: Id)
    requires i <= |order|
    ensures Elems(Splice(order, i, id)) == Elems(order) + {id}
  {
  }

  lemma SpliceNoDup(order: seq<Id>, i: nat, id: Id)
    requires i <= |order| && NoDup(order) && id !in order
    ensures NoDup(Splice(order, i, id))
  {
  }

  lemma SpliceSorted(jobs: map<Id, Row>, order: seq<Id>, i: nat, id: Id)
    requires id in jobs && OldestFirst(jobs, order) && i <= |order|
    requires i > 0 ==> jobs[order[i - 1]].runAt <= jobs[id].runAt
    requires forall k | i <= k < |order| :: jobs[order[k]].runAt > jobs[id].runAt
    ensures OldestFirst(jobs, Splice(order, i, id))
  {
    forall j | 0 <= j < i
      ensures jobs[order[j]].runAt <= jobs[id].runAt
    {
      assert jobs[order[j]].runAt <= jobs[order[i - 1]].runAt;
    }
    SortedConcat(jobs, order[..i], [id]);
    SortedConcat(jobs, order[..i] + [id], order[i..]);
  }

  lemma SortedConcat(jobs: map<Id, Row>, a: seq<Id>, b: seq<Id>)
    requires OldestFirst(jobs, a) && OldestFirst(jobs, b)
    requires forall i, j | 0 <= i < |a| && 0 <= j < |b| :: jobs[a[i]].runAt <= jobs[b[j]].runAt
    ensures OldestFirst(jobs, a + b)
  {
  }

  function Buried(jobs: map<Id, Row>, s: Stmt, now: Time): seq<DeadRow>
    requires s.DeadLetter?
  {
    if s.id in jobs then [DeadRow(s.id, Effect(s, jobs[s.id], now), now)] else []
  }

  lemma BuryApplies(before: Db, s: Stmt)
    requires s.DeadLetter?
    ensures var op := Write(s, {s.id} * before.jobs.Keys, before.clock);
            && Enabled(before, op)
            && Apply(before, op).jobs == before.jobs - {s.id}
            && Apply(before, op).dead == before.dead + Buried(before.jobs, s, before.clock)
  {
  }

  lemma BuryStep(before: Db, s: Stmt)
    requires DbOk(before) && s.DeadLetter?
    ensures var op := Write(s, {s.id} * before.jobs.Keys, before.clock);
            var jobs, dead := before.jobs - {s.id}, before.dead + Buried(before.jobs, s, before.clock);
            && Enabled(before, op) && DbOk(Apply(before, op))
            && Apply(before, op) == Db(jobs, dead, jobs.Keys + DeadIds(dead), before.clock)
  {
    BuryApplies(before, s);
    StepOfTables(before, Write(s, {s.id} * before.jobs.Keys, before.clock),
                 before.jobs - {s.id}, before.dead + Buried(before.jobs, s, before.clock));
  }

  /** An UPDATE midway: the rows outside `todo` are done. */
  ghost predicate Updating(rows: map<Id, Row>, jobs: map<Id, Row>, s: Stmt, now: Time, todo: set<Id>, count: nat) {
    var hit := Matching(rows, s, now) - todo;
    todo <= rows.Keys && jobs == Written(rows, s, hit, now) && count == |hit|
  }

  lemma UpdatingStarts(rows: map<Id, Row>, s: Stmt, now: Time)
    ensures Updating(rows, rows, s, now, rows.Keys, 0)
  {
    assert Matching(rows, s, now) - rows.Keys == {};
  }

  lemma UpdatingEnds(rows: map<Id, Row>, jobs: map<Id, Row>, s: Stmt, now: Time, count: nat)
    requires Updating(rows, jobs, s, now, {}, count)
    ensures jobs == Written(rows, s, Matching(rows, s, now), now) && count == |Matching(rows, s, now)|
  {
    assert Matching(rows, s, now) - {} == Matching(rows, s, now);
  }

  lemma UpdatingNext(rows: map<Id, Row>, jobs: map<Id, Row>, s: Stmt, now: Time, todo: set<Id>, count: nat, id: Id)
    requires Updating(rows, jobs, s, now, todo, count) && id in todo
    ensures if Matches(s, id, rows[id], now)
            then Updating(rows, jobs[id := Effect(s, rows[id], now)], s, now, todo - {id}, count + 1)
            else Updating(rows, jobs, s, now, todo - {id}, count)
  {
    var hit := Matching(rows, s, now) - todo;
    OneLessToDo(Matching(rows, s, now), todo, id);
    if Matches(s, id, rows[id], now) {
      WrittenOneMore(rows, s, hit, now, id);
    }
  }

  lemma OneLessToDo(matching: set<Id>, todo: set<Id>, id: Id)
    requires id in todo
    ensures matching - (todo - {id}) == (matching - todo) + if id in matching then {id} else {}
    ensures |matching - (todo - {id})| == |matching - todo| + if id in matching then 1 else 0
  {
    assert matching - (todo - {id}) == (matching - todo) + if id in matching then {id} else {};
  }

  /** The outer UPDATE of a claim midway: the first `i` ids are leased and returned. */
  ghost predicate Leasing(rows: map<Id, Row>, jobs: map<Id, Row>, s: Stmt, now: Time,
                          ids: seq<Id>, i: nat, batch: set<Job>)
  {
    && i <= |ids|
    && jobs == Written(rows, s, Elems(ids[..i]), now)
    && batch == Returning(jobs, Elems(ids[..i]))
  }

  lemma LeasingNext(rows: map<Id, Row>, jobs: map<Id, Row>, s: Stmt, now: Time, ids: seq<Id>, i: nat, batch: set<Job>)
    requires Leasing(rows, jobs, s, now, ids, i, batch) && i < |ids| && NoDup(ids) && ids[i] in rows
    ensures var row := Effect(s, rows[ids[i]], now);
            Leasing(rows, jobs[ids[i] := row], s, now, ids, i + 1,
                    batch + {Job(ids[i], row.kind, row.payload, row.attempts)})
  {
    var id, done := ids[i], Elems(ids[..i]);
    assert ids[..i + 1] == ids[..i] + [id];
    ElemsOfConcat(ids[..i], [id]);
    assert Elems([id]) == {id};
    assert id !in done;
    WrittenOneMore(rows, s, done, now, id);
    ReturningOneMore(jobs, done, id, Effect(s, rows[id], now));
  }

  lemma ReturningOneMore(jobs: map<Id, Row>, ids: set<Id>, id: Id, row: Row)
    requires id !in ids
    ensures Returning(jobs[id := row], ids + {id})
         == Returning(jobs, ids) + {Job(id, row.kind, row.payload, row.attempts)}
  {
  }

  /** The ranking pass midway: `seen` counts the carriers of the first `i` candidates. */
  ghost predicate Counted(cs: seq<Fairness.Candidate>, i: nat, seen: map<Option<string>, nat>) {
    i <= |cs| && forall c :: Fairness.CountCarrier(cs[..i], c) == if c in seen then seen[c] else 0
  }

  lemma CountedNext(cs: seq<Fairness.Candidate>, i: nat, seen: map<Option<string>, nat>)
    requires Counted(cs, i, seen) && i < |cs|
    ensures var carrier := cs[i].carrierId;
            var rank := (if carrier in seen then seen[carrier] else 0) + 1;
            rank == Fairness.RowNumber(cs, i) && Counted(cs, i + 1, seen[carrier := rank])
  {
    assert cs[..i + 1] == cs[..i] + [cs[i]] && Front(cs[..i + 1]) == cs[..i];
  }

  /** `kept` lists the ids of the first `i` candidates with ranks up to the cap. */
  ghost predicate KeptUpTo(cs: seq<Fairness.Candidate>, window: seq<Id>, cap: nat, i: nat, kept: seq<Id>) {
    && |cs| == |window| && i <= |window| && NoDup(kept) && |kept| <= i
    && Elems(kept) == set k | 0 <= k < i && Fairness.RowNumber(cs, k) <= cap :: window[k]
  }

  lemma KeptNext(cs: seq<Fairness.Candidate>, window: seq<Id>, cap: nat, i: nat, kept: seq<Id>)
    requires KeptUpTo(cs, window, cap, i, kept) && NoDup(window) && i < |window|
    ensures KeptUpTo(cs, window, cap, i + 1, if Fairness.RowNumber(cs, i) <= cap then kept + [window[i]] else kept)
  {
    assert window[i] !in Elems(kept);
    if Fairness.RowNumber(cs, i) <= cap {
      ElemsOfConcat(kept, [window[i]]);
      assert Elems([window[i]]) == {window[i]};
    }
  }

  lemma KeptAll(jobs: map<Id, Row>, window: seq<Id>, cap: nat, kept: seq<Id>)
    requires AllIn(window, jobs) && KeptUpTo(Candidates(jobs, window), window, cap, |window|, kept)
    ensures Elems(kept) == Fairness.KeptIds(Candidates(jobs, window), cap) && Elems(kept) <= Elems(window)
  {
    var cs := Candidates(jobs, window);
    assert forall k | 0 <= k < |window| :: cs[k].id == window[k];
  }

  lemma Unlocked(jobs: map<Id, Row>, locked: set<Id>, s: Stmt, now: Time, order: seq<Id>)
    requires IsScanOrder(jobs - locked, s, now, order)
    ensures AllIn(order, jobs) && Elems(order) == Matching(jobs, s, now) - locked
  {
    assert forall x | x in order :: x in Elems(order);
    assert Matching(jobs - locked, s, now) == Matching(jobs, s, now) - locked;
  }

  // ----- The calls in terms of columns

  /** The rows in `taken` are leased, and nothing else in the table has changed. */
  ghost predicate LeasedTo(before: map<Id, Row>, after: map<Id, Row>, taken: set<Id>, worker: string, now: Time) {
    && after.Keys == before.Keys
    && forall id | id in before ::
      after[id] == if id in taken
                   then before[id].(state := Running, lockedAt := Some(now), lockedBy := Some(worker),
                                    attempts := before[id].attempts + 1)
                   else before[id]
  }

  /** What a claim of `taken` hands back: each job with its new attempt number. */
  ghost function HandedBack(before: map<Id, Row>, taken: set<Id>): set<Job> {
    set id | id in taken && id in before ::
      Job(id, before[id].kind, before[id].payload, before[id].attempts + 1)
  }

  /** `order` lists the rows that are ready, due, of an asked kind and not locked by others,
      each once and oldest first. How often they were claimed before plays no part. */
  ghost predicate ListsReady(jobs: map<Id, Row>, locked: set<Id>, kinds: set<string>, now: Time, order: seq<Id>) {
    && NoDup(order) && AllIn(order, jobs)
    && (forall id | id in jobs ::
          id in order <==> id !in locked && jobs[id].state == Ready && jobs[id].runAt <= now && jobs[id].kind in kinds)
    && forall i, j | 0 <= i < j < |order| :: jobs[order[i]].runAt <= jobs[order[j]].runAt
  }

  lemma ScanListsReady(jobs: map<Id, Row>, locked: set<Id>, s: Stmt, now: Time, order: seq<Id>)
    requires s.IsClaim() && IsScanOrder(jobs - locked, s, now, order)
    ensures ListsReady(jobs, locked, s.kinds, now, order)
  {
    Unlocked(jobs, locked, s, now, order);
    assert forall id :: id in order <==> id in Elems(order);
  }

  lemma LeaseColumns(before: map<Id, Row>, s: Stmt, taken: set<Id>, now: Time)
    requires s.IsClaim() && taken <= before.Keys
    ensures LeasedTo(before, Written(before, s, taken, now), taken, s.worker, now)
    ensures Returning(Written(before, s, taken, now), taken) == HandedBack(before, taken)
  {
    var after := Written(before, s, taken, now);
    forall id | id in taken
      ensures after[id] == Leased(before[id], s.worker, now)
    {
    }
  }

  ghost predicate IsExpired(r: Row, now: Time, secs: int) {
    r.state == Running && r.lockedAt.Some? && now - r.lockedAt.value > secs * 1_000_000 && r.attempts < r.maxAttempts
  }

  ghost predicate IsHeldBy(r: Row, worker: string) {
    r.state == Running && r.lockedBy == Some(worker)
  }

  ghost function BuriedAs(r: Row, id: Id, error: string, now: Time): DeadRow {
    DeadRow(id, r.(state := Dead, lastError := Some(error)), now)
  }

  lemma DoneColumns(before: map<Id, Row>, id: Id, caller: string, now: Time)
    ensures Matching(before, MarkDone(id, caller), now) == {id} * before.Keys
    ensures Written(before, MarkDone(id, caller), {id} * before.Keys, now)
         == if id !in before then before
            else before[id := before[id].(state := Done, lockedAt := None, lockedBy := None)]
  {
  }

  class JobTables {
    var jobs: map<Id, Row>
    var dead: seq<DeadRow>
    var nextId: Id
    var now: Time

    ghost function Tables(): Db
      reads this
    {
      Db(jobs, dead, jobs.Keys + DeadIds(dead), now)
    }

    ghost predicate Valid()
      reads this
    {
      DbOk(Tables()) && forall id | id in Tables().issued :: id < nextId
    }

    /** The migrated, empty tables. */
    constructor ()
      ensures Valid() && Tables() == EMPTY
    {
      jobs, dead, nextId, now := map[], [], 1, 0;
    }

    /** `enqueue_at`, and `enqueue` with run_at left to its default now(). */
    method Enqueue(kind: string, payload: Payload, runAt: Option<Time>) returns (id: Id)
      requires Valid()
      modifies this
      ensures Valid() && id !in old(Tables()).issued
      ensures var due := if runAt.Some? then runAt.value else old(now);
              var op := Insert(map[id := NewRow(kind, payload, due)]);
              Enabled(old(Tables()), op) && Tables() == Apply(old(Tables()), op)
      ensures var due := if runAt.Some? then runAt.value else old(now);
              && jobs == old(jobs)[id := Row(kind, payload, Ready, due, None, None, 0, 20, None)]
              && dead == old(dead) && now == old(now)
    {
      var due := if runAt.Some? then runAt.value else now;
      ghost var before := Tables();
      id := nextId;
      jobs := jobs[id := NewRow(kind, payload, due)];
      nextId := nextId + 1;
      StepOfTables(before, Insert(map[id := NewRow(kind, payload, due)]), jobs, dead);
    }

    /** One UPDATE: visit every row, change those that match, count them. */
    method UpdateRows(s: Stmt) returns (count: nat)
      modifies this`jobs
      ensures jobs == Written(old(jobs), s, Matching(old(jobs), s, now), now)
      ensures count == |Matching(old(jobs), s, now)|
    {
      var rows := jobs;
      var todo := rows.Keys;
      count := 0;
      UpdatingStarts(rows, s, now);
      while todo != {}
        invariant Updating(rows, jobs, s, now, todo, count)
      {
        var id :| id in todo;
        UpdatingNext(rows, jobs, s, now, todo, count, id);
        if Matches(s, id, rows[id], now) {
          jobs := jobs[id := Effect(s, rows[id], now)];
          count := count + 1;
        }
        todo := todo - {id};
      }
      UpdatingEnds(rows, jobs, s, now, count);
    }

    /** The statement run alone: one atomic step that misses no row. */
    method Update(s: Stmt) returns (count: nat)
      requires Valid() && !s.IsClaim() && !s.DeadLetter?
      modifies this
      ensures Valid() && nextId == old(nextId)
      ensures var ids := Matching(old(jobs), s, old(now));
              && count == |ids|
              && Enabled(old(Tables()), Write(s, ids, old(now)))
              && Tables() == Apply(old(Tables()), Write(s, ids, old(now)))
    {
      ghost var before := Tables();
      count := UpdateRows(s);
      StepOfTables(before, Write(s, Matching(before.jobs, s, now), now), jobs, dead);
    }

    /** The count is the number of asked jobs that this worker still holds. */
    method HeartbeatJobs(asked: set<Id>, worker: string) returns (count: nat)
      requires Valid()
      modifies this
      ensures Valid() && count == |Matching(old(jobs), Heartbeat(asked, worker), old(now))|
      ensures Tables() == Apply(old(Tables()), Write(Heartbeat(asked, worker),
                                                     Matching(old(jobs), Heartbeat(asked, worker), old(now)), old(now)))
      ensures count == |set id | id in asked && id in old(jobs) && IsHeldBy(old(jobs)[id], worker)|
      ensures dead == old(dead) && now == old(now)
      ensures jobs == map id | id in old(jobs) ::
                        if id in asked && IsHeldBy(old(jobs)[id], worker)
                        then old(jobs)[id].(lockedAt := Some(old(now))) else old(jobs)[id]
    {
      count := Update(Heartbeat(asked, worker));
      assert Matching(old(jobs), Heartbeat(asked, worker), old(now))
          == set id | id in asked && id in old(jobs) && IsHeldBy(old(jobs)[id], worker);
    }

    /** A lease in nanoseconds. */
    method ReapExpired(lease: nat) returns (count: nat)
      requires Valid()
      modifies this
      ensures Valid() && count == |Matching(old(jobs), Reap(ReapSecs(lease)), old(now))|
      ensures Tables() == Apply(old(Tables()), Write(Reap(ReapSecs(lease)),
                                                     Matching(old(jobs), Reap(ReapSecs(lease)), old(now)), old(now)))
      ensures count == |set id | id in old(jobs) && IsExpired(old(jobs)[id], old(now), ReapSecs(lease))|
      ensures dead == old(dead) && now == old(now)
      ensures jobs == map id | id in old(jobs) ::
                        if IsExpired(old(jobs)[id], old(now), ReapSecs(lease))
                        then old(jobs)[id].(state := Ready, lockedAt := None, lockedBy := None) else old(jobs)[id]
    {
      count := Update(Reap(ReapSecs(lease)));
      assert Matching(old(jobs), Reap(ReapSecs(lease)), old(now))
          == set id | id in old(jobs) && IsExpired(old(jobs)[id], old(now), ReapSecs(lease));
    }

    /** `requeue`. */
    method Retry(id: Id, error: string, caller: string) returns (count: nat)
      requires Valid()
      modifies this
      ensures Valid() && dead == old(dead) && now == old(now)
      ensures count == if id in old(jobs) && old(jobs)[id].attempts < old(jobs)[id].maxAttempts then 1 else 0
      ensures var ids := Matching(old(jobs), Requeue(id, error, caller), old(now));
              Tables() == Apply(old(Tables()), Write(Requeue(id, error, caller), ids, old(now)))
      ensures jobs == if count == 0 then old(jobs)
                      else old(jobs)[id := old(jobs)[id].(
                             state := Ready,
                             runAt := old(now) + Min(Pow2(old(jobs)[id].attempts), 3600) * 1_000_000,
                             lockedAt := None, lockedBy := None, lastError := Some(error))]
    {
      count := Update(Requeue(id, error, caller));
      assert Matching(old(jobs), Requeue(id, error, caller), old(now))
          == if id in old(jobs) && old(jobs)[id].attempts < old(jobs)[id].maxAttempts then {id} else {};
    }

    method Finish(id: Id, caller: string)
      requires Valid()
      modifies this
      ensures Valid()
      ensures Tables() == Apply(old(Tables()), Write(MarkDone(id, caller), {id} * old(jobs).Keys, old(now)))
      ensures dead == old(dead) && now == old(now)
      ensures jobs == if id !in old(jobs) then old(jobs)
                      else old(jobs)[id := old(jobs)[id].(state := Done, lockedAt := None, lockedBy := None)]
    {
      DoneColumns(jobs, id, caller, now);
      var count := Update(MarkDone(id, caller));
    }

    /** DELETE ... RETURNING feeding an INSERT, as one statement. */
    method Bury(id: Id, error: string, caller: string) returns (count: nat)
      requires Valid()
      modifies this
      ensures Valid() && id !in jobs
      ensures count == if id in old(jobs) then 1 else 0
      ensures Tables() == Apply(old(Tables()), Write(DeadLetter(id, error, caller), {id} * old(jobs).Keys, old(now)))
      ensures jobs == old(jobs) - {id} && now == old(now)
      ensures dead == old(dead) + if id in old(jobs) then [BuriedAs(old(jobs)[id], id, error, old(now))] else []
    {
      var s := DeadLetter(id, error, caller);
      BuryStep(Tables(), s);
      dead := dead + Buried(jobs, s, now);
      count := if id in jobs then 1 else 0;
      jobs := jobs - {id};
    }

    /** What a handler's error leads to: requeue, and dead-letter if the error is permanent
        or the requeue reports zero rows. */
    method HandleFailure(id: Id, e: HandlerError, caller: string)
      requires Valid() && id in Tables().issued
      modifies this
      ensures Valid()
      ensures if e.TransientError? && id in old(jobs) && old(jobs)[id].attempts < old(jobs)[id].maxAttempts
              then ReadyLater(Tables(), id, old(now)) && jobs[id].lastError == Some(e.message) && dead == old(dead)
              else
                && id !in jobs && id in DeadIds(dead)
                && dead == old(dead) + if id in old(jobs)
                                       then [BuriedAs(old(jobs)[id], id, e.message, old(now))] else []
      ensures jobs.Keys <= old(jobs).Keys
      ensures forall other | other in old(jobs) && other != id :: other in jobs && jobs[other] == old(jobs)[other]
    {
      if Classify(e) == Transient {
        var retried := Retry(id, e.message, caller);
        if retried != 0 {
          Pow2IsPositive(old(jobs)[id].attempts);
          return;
        }
      }
      var buried := Bury(id, e.message, caller);
    }

    /** SELECT ... WHERE ready and due ... ORDER BY run_at FOR NO KEY UPDATE SKIP LOCKED, by
        insertion; other transactions hold the rows in `locked`. */
    method ScanReady(s: Stmt, locked: set<Id>) returns (order: seq<Id>)
      requires s.IsClaim()
      ensures IsScanOrder(jobs - locked, s, now, order)
      ensures ListsReady(jobs, locked, s.kinds, now, order)
    {
      order := [];
      var todo := jobs.Keys - locked;
      while todo != {}
        invariant todo <= jobs.Keys - locked
        invariant NoDup(order) && OldestFirst(jobs, order)
        invariant Elems(order) == set id | id in Matching(jobs - locked, s, now) && id !in todo
      {
        var id :| id in todo;
        todo := todo - {id};
        if Matches(s, id, jobs[id], now) {
          assert id !in Elems(order);
          order := InsertByRunAt(order, id);
        }
      }
      assert forall x | x in order :: x in Elems(order);
      ScanListsReady(jobs, locked, s, now, order);
    }

    method InsertByRunAt(order: seq<Id>, id: Id) returns (more: seq<Id>)
      requires id in jobs && id !in order && NoDup(order) && OldestFirst(jobs, order)
      ensures NoDup(more) && OldestFirst(jobs, more) && Elems(more) == Elems(order) + {id}
    {
      var i := |order|;
      while i > 0 && jobs[order[i - 1]].runAt > jobs[id].runAt
        invariant 0 <= i <= |order|
        invariant forall k | i <= k < |order| :: jobs[order[k]].runAt > jobs[id].runAt
      {
        i := i - 1;
      }
      more := Splice(order, i, id);
      SpliceElems(order, i, id);
      SpliceNoDup(order, i, id);
      SpliceSorted(jobs, order, i, id);
    }

    /** The outer UPDATE of a claim over the locked ids, and its RETURNING. */
    method LeaseRows(s: Stmt, ids: seq<Id>) returns (batch: set<Job>)
      requires NoDup(ids) && forall x | x in ids :: x in jobs
      modifies this`jobs
      ensures jobs == Written(old(jobs), s, Elems(ids), now)
      ensures batch == Returning(jobs, Elems(ids))
    {
      var rows := jobs;
      var i := 0;
      batch := {};
      while i < |ids|
        invariant Leasing(rows, jobs, s, now, ids, i, batch)
      {
        LeasingNext(rows, jobs, s, now, ids, i, batch);
        var row := Effect(s, rows[ids[i]], now);
        jobs := jobs[ids[i] := row];
        batch := batch + {Job(ids[i], row.kind, row.payload, row.attempts)};
        i := i + 1;
      }
      assert ids[..i] == ids;
    }

    /** The same as one atomic step. */
    method Lease(s: Stmt, ids: seq<Id>) returns (batch: set<Job>)
      requires Valid() && s.IsClaim() && NoDup(ids)
      requires Elems(ids) <= Matching(jobs, s, now) && |ids| <= s.Window()
      modifies this
      ensures Valid() && Enabled(old(Tables()), Write(s, Elems(ids), old(now)))
      ensures Tables() == Apply(old(Tables()), Write(s, Elems(ids), old(now)))
      ensures batch == Returning(jobs, Elems(ids)) && nextId == old(nextId)
    {
      ghost var before := Tables();
      assert forall x | x in ids :: x in Elems(ids);
      batch := LeaseRows(s, ids);
      ElemsSize(ids);
      StepOfTables(before, Write(s, Elems(ids), now), jobs, dead);
    }

    /** `claim_batch`: the first n eligible rows of a scan order become running. The rows
        that other transactions hold are skipped. */
    method Claim(kinds: set<string>, n: nat, worker: string, locked: set<Id>)
      returns (batch: set<Job>, ghost order: seq<Id>)
      requires Valid()
      modifies this
      ensures Valid() && IsScanOrder(old(jobs) - locked, ClaimBatch(kinds, n, worker), old(now), order)
      ensures ListsReady(old(jobs), locked, kinds, old(now), order)
      ensures var ids := Fairness.BatchIds(Candidates(old(jobs), order), n);
              && Enabled(old(Tables()), Write(ClaimBatch(kinds, n, worker), ids, old(now)))
              && Tables() == Apply(old(Tables()), Write(ClaimBatch(kinds, n, worker), ids, old(now)))
              && batch == Returning(jobs, ids)
      ensures var taken := Elems(order[..Min(n, |order|)]);
              && LeasedTo(old(jobs), jobs, taken, worker, old(now))
              && batch == HandedBack(old(jobs), taken)
              && dead == old(dead) && now == old(now)
    {
      var s := ClaimBatch(kinds, n, worker);
      var scanned := ScanReady(s, locked);
      Unlocked(jobs, locked, s, now, scanned);
      order := scanned;
      var first := Fairness.First(scanned, n);
      IdsOfCandidates(jobs, first);
      assert Fairness.First(Candidates(jobs, order), n) == Candidates(jobs, first);
      assert Elems(first) <= Elems(order);
      batch := Lease(s, first);
      assert first == order[..Min(n, |order|)];
      LeaseColumns(old(jobs), s, Elems(first), old(now));
    }

    /** `fair_claim`: lock a window of 4 * batch rows, rank it within each carrier, keep the
        ranks up to the cap. None if the window does not fit a bigint. */
    method ClaimFairly(kinds: set<string>, batch: nat, cap: nat, worker: string, locked: set<Id>)
      returns (result: Option<set<Job>>, ghost order: seq<Id>, ghost taken: set<Id>)
      requires Valid()
      modifies this
      ensures Valid() && (result.None? <==> batch * 4 >= TWO_TO_THE_63)
      ensures result.None? ==> Tables() == old(Tables())
      ensures result.Some? ==>
                && IsScanOrder(old(jobs) - locked, FairClaim(kinds, batch, cap, worker), old(now), order)
                && ListsReady(old(jobs), locked, kinds, old(now), order)
                && var ids := Fairness.FairIds(Candidates(old(jobs), order), batch, cap);
                   && Enabled(old(Tables()), Write(FairClaim(kinds, batch, cap, worker), ids, old(now)))
                   && Tables() == Apply(old(Tables()), Write(FairClaim(kinds, batch, cap, worker), ids, old(now)))
                   && result.value == Returning(jobs, ids)
      ensures result.Some? ==>
                && IsFairChoice(old(jobs), order[..Min(4 * batch, |order|)], cap, taken)
                && LeasedTo(old(jobs), jobs, taken, worker, old(now))
                && result.value == HandedBack(old(jobs), taken)
                && dead == old(dead) && now == old(now)
    {
      var s := FairClaim(kinds, batch, cap, worker);
      if batch * 4 >= TWO_TO_THE_63 {
        result, order, taken := None, [], {};
        return;
      }
      var scanned := ScanReady(s, locked);
      Unlocked(jobs, locked, s, now, scanned);
      order := scanned;
      var window := Fairness.First(scanned, batch * 4);
      assert Elems(window) <= Elems(order);
      assert Fairness.First(Candidates(jobs, order), batch * 4) == Candidates(jobs, window);
      var kept := RankWindow(window, cap);
      taken := Elems(kept);
      assert window == order[..Min(4 * batch, |order|)];
      var claimed := Lease(s, kept);
      LeaseColumns(old(jobs), s, taken, old(now));
      result := Some(claimed);
    }

    /** row_number() over (partition by carrier_id order by run_at), counted per carrier in
        one pass over the locked window. */
    method RankWindow(window: seq<Id>, cap: nat) returns (kept: seq<Id>)
      requires NoDup(window) && forall x | x in window :: x in jobs
      ensures NoDup(kept) && |kept| <= |window| && Elems(kept) <= Elems(window)
      ensures Elems(kept) == Fairness.KeptIds(Candidates(jobs, window), cap)
      ensures IsFairChoice(jobs, window, cap, Elems(kept))
    {
      ghost var cs := Candidates(jobs, window);
      var seen: map<Option<string>, nat> := map[];
      var i := 0;
      kept := [];
      while i < |window|
        invariant Counted(cs, i, seen) && KeptUpTo(cs, window, cap, i, kept)
      {
        var carrier := jobs[window[i]].payload.carrierId;
        var rank := (if carrier in seen then seen[carrier] else 0) + 1;
        CountedNext(cs, i, seen);
        KeptNext(cs, window, cap, i, kept);
        if rank <= cap {
          kept := kept + [window[i]];
        }
        seen := seen[carrier := rank];
        i := i + 1;
      }
      KeptAll(jobs, window, cap, kept);
      KeptIsFairChoice(jobs, window, cap);
    }
  }
}
