/** What holds of every interleaving: the consequences of the refinement, and the properties
    that only exist at the granularity of locks and snapshots. */
module Interleavings {
  import opened Schema
  import opened Queue
  import opened Lifecycle
  import opened Transactions
  import Leases
  import Fairness
  import opened FairChoice

  // ----- Prefixes of a run

  lemma {:induction false} RunsPrefix(steps: seq<Step>, k: nat)
    requires Runs(steps) && k <= |steps|
    ensures Runs(steps[..k])
    ensures k < |steps| ==> Runs(steps[..k + 1]) && CanStep(SysOf(steps[..k]), steps[k])
                            && SysOf(steps[..k + 1]) == DoStep(SysOf(steps[..k]), steps[k])
    decreases |steps|
  {
    if k == |steps| {
      assert steps[..k] == steps;
    } else if k == |steps| - 1 {
      assert steps[..k + 1] == steps;
    } else {
      RunsPrefix(Front(steps), k);
      assert Front(steps)[..k] == steps[..k] && Front(steps)[..k + 1] == steps[..k + 1];
    }
  }

  /** The state before step `k`. */
  ghost function At(steps: seq<Step>, k: nat): Sys
    requires Runs(steps) && k <= |steps|
  {
    RunsPrefix(steps, k);
    SysOf(steps[..k])
  }

  lemma AtFront(steps: seq<Step>, k: nat)
    requires Runs(steps) && steps != [] && k < |steps|
    ensures At(Front(steps), k) == At(steps, k)
  {
    assert Front(steps)[..k] == steps[..k];
  }

  lemma AtOk(steps: seq<Step>, k: nat)
    requires Runs(steps) && k <= |steps|
    ensures SysOk(At(steps, k))
  {
    RunsPrefix(steps, k);
    Refinement(steps[..k]);
  }

  lemma AtNext(steps: seq<Step>, k: nat)
    requires Runs(steps) && k < |steps|
    ensures SysOk(At(steps, k)) && CanStep(At(steps, k), steps[k])
    ensures At(steps, k + 1) == DoStep(At(steps, k), steps[k])
  {
    RunsPrefix(steps, k);
    Refinement(steps[..k]);
  }

  // ----- Disjoint batches

  /** Step `k` commits the atomic step `op`. */
  ghost predicate Commits(steps: seq<Step>, k: nat, op: Op)
    requires Runs(steps) && k < |steps|
  {
    AtNext(steps, k);
    Abstract(At(steps, k), steps[k]) == Some(op)
  }

  ghost function TraceAt(steps: seq<Step>, k: nat): seq<Op>
    requires Runs(steps) && k <= |steps|
  {
    RunsPrefix(steps, k);
    Trace(steps[..k])
  }

  lemma TraceNext(steps: seq<Step>, k: nat)
    requires Runs(steps) && k < |steps|
    ensures TraceAt(steps, k) <= TraceAt(steps, k + 1)
    ensures forall op :: Commits(steps, k, op) ==> TraceAt(steps, k + 1) == TraceAt(steps, k) + [op]
    ensures TraceAt(steps, k + 1) != TraceAt(steps, k)
            ==> Commits(steps, k, Last(TraceAt(steps, k + 1))) && Front(TraceAt(steps, k + 1)) == TraceAt(steps, k)
  {
    RunsPrefix(steps, k);
    assert Front(steps[..k + 1]) == steps[..k];
  }

  lemma {:induction false} TraceGrows(steps: seq<Step>, j: nat, k: nat)
    requires Runs(steps) && j <= k <= |steps|
    ensures TraceAt(steps, j) <= TraceAt(steps, k)
  {
    if j < k {
      TraceGrows(steps, j, k - 1);
      TraceNext(steps, k - 1);
    }
  }

  /** Every atomic step of the trace was committed by some fine step in between. */
  lemma {:induction false} CommitBehind(steps: seq<Step>, j: nat, k: nat, p: nat) returns (r: nat)
    requires Runs(steps) && j <= k <= |steps|
    requires |TraceAt(steps, j)| <= p < |TraceAt(steps, k)|
    ensures j <= r < k && |TraceAt(steps, r)| == p && Commits(steps, r, TraceAt(steps, k)[p])
  {
    TraceNext(steps, k - 1);
    if p < |TraceAt(steps, k - 1)| {
      r := CommitBehind(steps, j, k - 1, p);
    } else {
      r := k - 1;
    }
  }

  /** SKIP LOCKED gives disjoint batches: if two claims commit the same row, whatever their
      snapshots saw and however they overlapped, a reap or requeue of that row committed
      between the two commits. */
  lemma ClaimsAreDisjoint(steps: seq<Step>, i: nat, j: nat, first: Op, second: Op, id: Id) returns (r: nat, release: Op)
    requires Runs(steps) && i < j < |steps|
    requires Commits(steps, i, first) && first.Claims(id)
    requires Commits(steps, j, second) && second.Claims(id)
    ensures i < r < j && Commits(steps, r, release) && release.Releases(id)
  {
    var ops := TraceAt(steps, j + 1);
    var p, q := |TraceAt(steps, i)|, |TraceAt(steps, j)|;
    TwoCommits(steps, i, j, first, second);
    Leases.SingleLease(ops, id, p, q);
    var k :| p < k < q && ops[k].Releases(id);
    release := ops[k];
    assert TraceAt(steps, j)[k] == release;
    r := CommitBehind(steps, i + 1, j, k);
  }

  /** Where two commits stand in the atomic run. */
  lemma TwoCommits(steps: seq<Step>, i: nat, j: nat, first: Op, second: Op)
    requires Runs(steps) && i < j < |steps| && Commits(steps, i, first) && Commits(steps, j, second)
    ensures var ops, p, q := TraceAt(steps, j + 1), |TraceAt(steps, i)|, |TraceAt(steps, j)|;
            && Legal(ops) && p < q < |ops| && ops[p] == first && ops[q] == second
            && |TraceAt(steps, i + 1)| == p + 1 && TraceAt(steps, j) == ops[..q]
  {
    TraceNext(steps, i);
    TraceNext(steps, j);
    TraceGrows(steps, i + 1, j);
    RunsPrefix(steps, j + 1);
    Refinement(steps[..j + 1]);
  }

  // ----- What a scan does with each row

  ghost predicate IsScanning(s: Sys, t: Tid) {
    t in s.txs && s.txs[t].Scanning?
  }

  /** At step `k` the transaction visited `id` and did not pick it: another transaction held
      the row, or it failed the second check. */
  ghost predicate PassedOver(steps: seq<Step>, k: nat, t: Tid, id: Id)
    requires Runs(steps) && k < |steps|
  {
    var s := At(steps, k);
    AtNext(steps, k);
    && steps[k] == Visit(t) && IsScanning(s, t)
    && s.txs[t].order[s.txs[t].pos] == id
    && (HeldByOther(s, t, id) || !Rechecks(s, t, id))
  }

  ghost predicate ShapeOk(tx: Tx)
    requires tx.Scanning?
  {
    && IsScanOrder(tx.snap, tx.stmt, tx.now, tx.order) && tx.pos <= |tx.order|
    && (tx.written ==> tx.ScanDone())
    && forall x | x in tx.picked :: x in tx.order[..tx.pos]
  }

  lemma VisitKeepsShape(s: Sys, t: Tid)
    requires CanStep(s, Visit(t)) && ShapeOk(s.txs[t])
    ensures ShapeOk(AfterVisit(s, t))
  {
  }

  /** A step other than its own visit leaves what a scan has picked so far. */
  lemma OtherStepsKeepScan(s: Sys, step: Step, t: Tid)
    requires CanStep(s, step) && IsScanning(DoStep(s, step), t) && step != Visit(t)
    ensures IsScanning(s, t) || step.Snapshot?
    ensures IsScanning(s, t) ==>
              var tx, tx' := s.txs[t], DoStep(s, step).txs[t];
              tx' == tx || (step.Outer? && step.t == t && tx' == AfterOuter(s, t, step.rank))
    ensures !IsScanning(s, t) ==>
              var tx := DoStep(s, step).txs[t];
              && IsScanOrder(tx.snap, tx.stmt, tx.now, tx.order)
              && tx.pos == 0 && tx.picked == [] && !tx.written && tx.staged == map[]
  {
  }

  lemma {:induction false} ScanShape(steps: seq<Step>, t: Tid)
    requires Runs(steps) && IsScanning(SysOf(steps), t)
    ensures ShapeOk(SysOf(steps).txs[t])
  {
    var s := SysOf(Front(steps));
    if Last(steps) == Visit(t) {
      ScanShape(Front(steps), t);
      VisitKeepsShape(s, t);
    } else {
      OtherStepsKeepScan(s, Last(steps), t);
      if IsScanning(s, t) {
        ScanShape(Front(steps), t);
      }
    }
  }

  lemma VisitOutcome(s: Sys, t: Tid)
    requires CanStep(s, Visit(t))
    ensures var tx, tx' := s.txs[t], AfterVisit(s, t);
            && tx'.order == tx.order && tx'.pos == tx.pos + 1 && tx.pos < |tx.order|
            && (forall x | x in tx.picked :: x in tx'.picked)
            && (tx.order[tx.pos] in tx'.picked
                || HeldByOther(s, t, tx.order[tx.pos]) || !Rechecks(s, t, tx.order[tx.pos]))
  {
  }

  lemma PassedOverFront(steps: seq<Step>, k: nat, t: Tid, id: Id)
    requires Runs(steps) && k < |steps| - 1 && PassedOver(Front(steps), k, t, id)
    ensures PassedOver(steps, k, t, id)
  {
    AtFront(steps, k);
  }

  /** Every row a scan has visited was picked or passed over for a reason. */
  lemma {:induction false} Accounted(steps: seq<Step>, t: Tid, i: nat)
    requires Runs(steps) && IsScanning(SysOf(steps), t)
    requires i < Min(SysOf(steps).txs[t].pos, |SysOf(steps).txs[t].order|)
    ensures var tx := SysOf(steps).txs[t];
            tx.order[i] in tx.picked || exists k :: 0 <= k < |steps| && PassedOver(steps, k, t, tx.order[i])
  {
    var n := |steps| - 1;
    var s := SysOf(Front(steps));
    assert At(steps, n) == s;
    if Last(steps) == Visit(t) {
      VisitOutcome(s, t);
      if i == s.txs[t].pos {
        assert SysOf(steps).txs[t].order[i] in SysOf(steps).txs[t].picked
               || PassedOver(steps, n, t, SysOf(steps).txs[t].order[i]);
        return;
      }
    } else {
      OtherStepsKeepScan(s, Last(steps), t);
    }
    var id := s.txs[t].order[i];
    Accounted(Front(steps), t, i);
    if id !in s.txs[t].picked {
      var k :| 0 <= k < n && PassedOver(Front(steps), k, t, id);
      PassedOverFront(steps, k, t, id);
    }
  }

  /** FIFO up to skipping: a row that was eligible in a claim's snapshot, is strictly older
      there than a row the claim picked, and was not picked itself, was held by another
      transaction or failed the second check when the claim visited it. */
  lemma FifoUpToSkipping(steps: seq<Step>, t: Tid, older: Id, younger: Id)
    requires Runs(steps) && IsScanning(SysOf(steps), t) && SysOf(steps).txs[t].stmt.IsClaim()
    requires var tx := SysOf(steps).txs[t];
             && younger in tx.picked && older !in tx.picked
             && older in Matching(tx.snap, tx.stmt, tx.now)
             && younger in tx.snap && tx.snap[older].runAt < tx.snap[younger].runAt
    ensures exists k :: 0 <= k < |steps| && PassedOver(steps, k, t, older)
  {
    ScanShape(steps, t);
    var o := VisitedBefore(SysOf(steps).txs[t], older, younger);
    Accounted(steps, t, o);
  }

  /** A strictly older row comes earlier in the scan. */
  lemma VisitedBefore(tx: Tx, older: Id, younger: Id) returns (o: nat)
    requires tx.Scanning? && tx.stmt.IsClaim() && ShapeOk(tx) && younger in tx.picked
    requires older in Matching(tx.snap, tx.stmt, tx.now)
    requires younger in tx.snap && tx.snap[older].runAt < tx.snap[younger].runAt
    ensures o < tx.pos <= |tx.order| && tx.order[o] == older
  {
    assert younger in tx.order[..tx.pos] && older in Elems(tx.order);
    var y :| 0 <= y < tx.pos && tx.order[y] == younger;
    o :| o < |tx.order| && tx.order[o] == older;
  }

  /** A claim that locks fewer rows than it asked for has left none out: every eligible row
      of its snapshot was picked, or passed over because another transaction held it or
      because it had changed. */
  lemma ShortClaimSawEverything(steps: seq<Step>, t: Tid, id: Id)
    requires Runs(steps) && IsScanning(SysOf(steps), t) && SysOf(steps).txs[t].ScanDone()
    requires var tx := SysOf(steps).txs[t];
             && tx.stmt.IsClaim() && id in Matching(tx.snap, tx.stmt, tx.now)
             && |tx.picked| < if tx.stmt.ClaimBatch? then tx.stmt.limit else 4 * tx.stmt.batch
    ensures id in SysOf(steps).txs[t].picked || exists k :: 0 <= k < |steps| && PassedOver(steps, k, t, id)
  {
    var tx := SysOf(steps).txs[t];
    ScanShape(steps, t);
    assert id in Elems(tx.order);
    var i :| 0 <= i < |tx.order| && tx.order[i] == id;
    Accounted(steps, t, i);
  }

  // ----- A claim never waits

  ghost function Visits(steps: seq<Step>, t: Tid): nat {
    if steps == [] then 0 else Visits(Front(steps), t) + if Last(steps) == Visit(t) then 1 else 0
  }

  lemma {:induction false} VisitsArePos(steps: seq<Step>, t: Tid)
    requires Runs(steps)
    ensures SysOf(steps).txs.Keys <= SysOf(steps).started
    ensures t !in SysOf(steps).started || (t in SysOf(steps).txs && !SysOf(steps).txs[t].Scanning?)
            ==> Visits(steps, t) == 0
    ensures IsScanning(SysOf(steps), t) ==> Visits(steps, t) == SysOf(steps).txs[t].pos
  {
    if steps != [] {
      VisitsArePos(Front(steps), t);
    }
  }

  lemma {:induction false} NoDupSize(s: seq<Id>)
    requires NoDup(s)
    ensures |Elems(s)| == |s|
  {
    if s != [] {
      NoDupSize(Front(s));
      assert Elems(s) == Elems(Front(s)) + {Last(s)};
    }
  }

  /** A claim never waits: while its scan is not over its next lock attempt is enabled,
      whatever others hold, and after as many attempts as its snapshot has eligible rows the
      scan is over. Then it can rank what it locked and commit. */
  lemma ClaimNeverWaits(steps: seq<Step>, t: Tid)
    requires Runs(steps) && IsScanning(SysOf(steps), t) && SysOf(steps).txs[t].stmt.IsClaim()
    ensures var tx := SysOf(steps).txs[t];
            && Visits(steps, t) <= |Matching(tx.snap, tx.stmt, tx.now)|
            && (Visits(steps, t) == |Matching(tx.snap, tx.stmt, tx.now)| ==> tx.ScanDone())
            && (!tx.ScanDone() ==> CanStep(SysOf(steps), Visit(t)))
            && (tx.ScanDone() && !tx.written ==> exists rank :: CanStep(SysOf(steps), Outer(t, rank)))
            && (tx.ScanDone() && tx.written ==> CanStep(SysOf(steps), Commit(t)))
  {
    var s := SysOf(steps);
    var tx := s.txs[t];
    VisitsArePos(steps, t);
    ScanShape(steps, t);
    NoDupSize(tx.order);
    Refinement(steps);
    var rank := Ranked(s.db.jobs, tx.picked);
    RankedIsRanking(s.db.jobs, tx.picked);
    assert tx.ScanDone() && !tx.written ==> CanStep(s, Outer(t, rank));
  }

  /** ORDER BY run_at, by insertion. */
  ghost function Ranked(jobs: map<Id, Row>, ids: seq<Id>): seq<Id>
    requires forall x | x in ids :: x in jobs
  {
    if ids == [] then [] else Placed(jobs, Ranked(jobs, Front(ids)), Last(ids))
  }

  ghost function Placed(jobs: map<Id, Row>, rank: seq<Id>, id: Id): seq<Id>
    requires id in jobs
  {
    if rank != [] && Last(rank) in jobs && jobs[Last(rank)].runAt > jobs[id].runAt
    then Placed(jobs, Front(rank), id) + [Last(rank)]
    else rank + [id]
  }

  lemma {:induction false} PlacedElems(jobs: map<Id, Row>, rank: seq<Id>, id: Id)
    requires id in jobs
    ensures multiset(Placed(jobs, rank, id)) == multiset(rank) + multiset{id}
  {
    if rank != [] {
      assert rank == Front(rank) + [Last(rank)];
      PlacedElems(jobs, Front(rank), id);
    }
  }

  lemma {:induction false} PlacedIsSorted(jobs: map<Id, Row>, rank: seq<Id>, id: Id)
    requires id in jobs && OldestFirst(jobs, rank)
    ensures OldestFirst(jobs, Placed(jobs, rank, id))
  {
    if rank != [] && jobs[Last(rank)].runAt > jobs[id].runAt {
      PlacedIsSorted(jobs, Front(rank), id);
      PlacedBefore(jobs, rank, id);
      SortedAppend(jobs, Placed(jobs, Front(rank), id), Last(rank));
    } else {
      SortedAppend(jobs, rank, id);
    }
  }

  lemma PlacedBefore(jobs: map<Id, Row>, rank: seq<Id>, id: Id)
    requires id in jobs && rank != [] && OldestFirst(jobs, rank) && jobs[Last(rank)].runAt > jobs[id].runAt
    ensures forall x | x in Placed(jobs, Front(rank), id) :: x in jobs && jobs[x].runAt <= jobs[Last(rank)].runAt
  {
    var front := Placed(jobs, Front(rank), id);
    PlacedElems(jobs, Front(rank), id);
    forall x | x in front
      ensures x in jobs && jobs[x].runAt <= jobs[Last(rank)].runAt
    {
      assert x in multiset(front);
      assert x in Front(rank) || x == id;
    }
  }

  lemma SortedAppend(jobs: map<Id, Row>, s: seq<Id>, id: Id)
    requires id in jobs && OldestFirst(jobs, s)
    requires s != [] ==> jobs[Last(s)].runAt <= jobs[id].runAt || forall x | x in s :: jobs[x].runAt <= jobs[id].runAt
    ensures OldestFirst(jobs, s + [id])
  {
    forall x | x in s
      ensures jobs[x].runAt <= jobs[id].runAt
    {
      var i :| 0 <= i < |s| && s[i] == x;
      assert s[i] == Last(s) || jobs[s[i]].runAt <= jobs[Last(s)].runAt;
    }
  }

  lemma {:induction false} RankedIsSorted(jobs: map<Id, Row>, ids: seq<Id>)
    requires forall x | x in ids :: x in jobs
    ensures OldestFirst(jobs, Ranked(jobs, ids)) && multiset(Ranked(jobs, ids)) == multiset(ids)
  {
    if ids != [] {
      assert ids == Front(ids) + [Last(ids)];
      RankedIsSorted(jobs, Front(ids));
      PlacedIsSorted(jobs, Ranked(jobs, Front(ids)), Last(ids));
      PlacedElems(jobs, Ranked(jobs, Front(ids)), Last(ids));
    }
  }

  lemma {:induction false} NoDupIsMultiplicity(s: seq<Id>)
    ensures NoDup(s) <==> forall x :: multiset(s)[x] <= 1
  {
    if s != [] {
      assert s == Front(s) + [Last(s)];
      NoDupIsMultiplicity(Front(s));
      assert Last(s) in Front(s) <==> Last(s) in multiset(Front(s));
      if NoDup(s) {
        assert Last(s) !in Front(s);
      } else if NoDup(Front(s)) {
        assert Last(s) in Front(s);
        assert multiset(s)[Last(s)] > 1;
      } else {
        var x :| multiset(Front(s))[x] > 1;
        assert multiset(s)[x] > 1;
      }
    }
  }

  lemma RankedIsRanking(jobs: map<Id, Row>, ids: seq<Id>)
    requires NoDup(ids) && forall x | x in ids :: x in jobs
    ensures IsRanking(jobs, ids, Ranked(jobs, ids))
  {
    var rank := Ranked(jobs, ids);
    RankedIsSorted(jobs, ids);
    NoDupIsMultiplicity(ids);
    NoDupIsMultiplicity(rank);
    assert forall x :: x in rank <==> x in multiset(rank);
    assert forall x :: x in ids <==> x in multiset(ids);
  }

  // ----- Rows nobody disturbs are never missed

  /** At every moment of the scan the row matches its statement. */
  ghost predicate MatchesThroughout(steps: seq<Step>, t: Tid, id: Id)
    requires Runs(steps)
  {
    forall k | 0 <= k <= |steps| && IsScanning(At(steps, k), t) :: Rechecks(At(steps, k), t, id)
  }

  /** A heartbeat, reap, requeue, completion or dead letter never misses a row that matched
      in its snapshot and throughout its scan, however long it had to wait for it. */
  lemma StableRowsAreWritten(steps: seq<Step>, t: Tid, id: Id)
    requires Runs(steps) && IsScanning(SysOf(steps), t)
    requires var tx := SysOf(steps).txs[t];
             !tx.stmt.IsClaim() && tx.ScanDone() && id in Matching(tx.snap, tx.stmt, tx.now)
    requires MatchesThroughout(steps, t, id)
    ensures id in SysOf(steps).txs[t].staged
  {
    var tx := SysOf(steps).txs[t];
    ScanShape(steps, t);
    Refinement(steps);
    assert id in Elems(tx.order);
    var i :| 0 <= i < |tx.order| && tx.order[i] == id;
    Accounted(steps, t, i);
    if id !in tx.picked {
      var k :| 0 <= k < |steps| && PassedOver(steps, k, t, id);
      SameScan(steps, t, k);
      PassedOverOnlyByRecheck(steps, k, t, id);
    }
    assert id in Elems(tx.picked);
  }

  lemma PassedOverOnlyByRecheck(steps: seq<Step>, k: nat, t: Tid, id: Id)
    requires Runs(steps) && k < |steps| && PassedOver(steps, k, t, id)
    requires At(steps, k).txs[t].stmt.IsClaim() ==> !HeldByOther(At(steps, k), t, id)
    ensures !Rechecks(At(steps, k), t, id)
  {
    AtNext(steps, k);
  }

  // ----- Run alone

  /** From its snapshot on, nothing commits and nobody else holds a row. */
  ghost predicate Alone(steps: seq<Step>, t: Tid)
    requires Runs(steps)
  {
    forall k | 0 <= k <= |steps| && IsScanning(At(steps, k), t) ::
      At(steps, k).db.jobs == At(steps, k).txs[t].snap && forall id :: !HeldByOther(At(steps, k), t, id)
  }

  /** The snapshot and the statement of a scan are those of its first moment. */
  lemma {:induction false} SameScan(steps: seq<Step>, t: Tid, k: nat)
    requires Runs(steps) && k <= |steps| && IsScanning(At(steps, k), t) && t in SysOf(steps).txs
    ensures IsScanning(SysOf(steps), t)
    ensures At(steps, k).txs[t].snap == SysOf(steps).txs[t].snap
    ensures At(steps, k).txs[t].order == SysOf(steps).txs[t].order
    ensures At(steps, k).txs[t].stmt == SysOf(steps).txs[t].stmt && At(steps, k).txs[t].now == SysOf(steps).txs[t].now
  {
    if k < |steps| {
      AtFront(steps, k);
      VisitsArePos(Front(steps), t);
      StillStarted(Front(steps), t, k);
      SameScan(Front(steps), t, k);
    } else {
      assert steps[..k] == steps;
    }
  }

  lemma {:induction false} StillStarted(steps: seq<Step>, t: Tid, k: nat)
    requires Runs(steps) && k <= |steps| && t in At(steps, k).txs
    ensures t in SysOf(steps).started
  {
    if k < |steps| {
      AtFront(steps, k);
      StillStarted(Front(steps), t, k);
    } else {
      assert steps[..k] == steps;
      VisitsArePos(steps, t);
    }
  }

  lemma AlonePassesNothing(steps: seq<Step>, t: Tid, k: nat, id: Id)
    requires Runs(steps) && IsScanning(SysOf(steps), t) && Alone(steps, t) && k < |steps|
    requires id in Elems(SysOf(steps).txs[t].order)
    ensures !PassedOver(steps, k, t, id)
  {
    if IsScanning(At(steps, k), t) {
      ScanShape(steps, t);
      SameScan(steps, t, k);
    }
  }

  lemma AlonePicksPrefix(steps: seq<Step>, t: Tid)
    requires Runs(steps) && IsScanning(SysOf(steps), t) && SysOf(steps).txs[t].stmt.IsClaim()
    requires Alone(steps, t) && SysOf(steps).txs[t].ScanDone()
    ensures var tx := SysOf(steps).txs[t];
            Elems(tx.picked) == Elems(Fairness.First(tx.order, tx.stmt.Window()))
  {
    var tx := SysOf(steps).txs[t];
    var n := Min(tx.pos, |tx.order|);
    ScanShape(steps, t);
    Refinement(steps);
    forall i | 0 <= i < n
      ensures tx.order[i] in tx.picked
    {
      Accounted(steps, t, i);
      if tx.order[i] !in tx.picked {
        assert tx.order[i] in Elems(tx.order);
        var k :| 0 <= k < |steps| && PassedOver(steps, k, t, tx.order[i]);
        AlonePassesNothing(steps, t, k, tx.order[i]);
      }
    }
    assert Elems(tx.picked) == Elems(tx.order[..n]);
    NoDupSize(tx.picked);
    NoDupSize(tx.order[..n]);
    assert n == Min(tx.stmt.Window(), |tx.order|);
    assert Fairness.First(tx.order, tx.stmt.Window()) == tx.order[..n];
  }

  /** Once written, a claim has ranked exactly the rows it picked. */
  lemma {:induction false} RankedAt(steps: seq<Step>, t: Tid) returns (k: nat, rank: seq<Id>)
    requires Runs(steps) && IsScanning(SysOf(steps), t) && SysOf(steps).txs[t].written
    ensures k < |steps| && steps[k] == Outer(t, rank) && IsScanning(At(steps, k), t)
    ensures At(steps, k).txs[t].stmt.IsClaim() && At(steps, k).txs[t].picked == SysOf(steps).txs[t].picked
    ensures IsRanking(At(steps, k).db.jobs, SysOf(steps).txs[t].picked, rank)
    ensures SysOf(steps).txs[t].staged.Keys == Chosen(At(steps, k).txs[t].stmt, At(steps, k).db.jobs, rank)
  {
    var n := |steps| - 1;
    var s := SysOf(Front(steps));
    assert At(steps, n) == s;
    assert Last(steps) != Visit(t);
    OtherStepsKeepScan(s, Last(steps), t);
    if s.txs[t].written {
      k, rank := RankedAt(Front(steps), t);
      AtFront(steps, k);
    } else {
      k, rank := n, steps[n].rank;
      Refinement(Front(steps));
      OuterKeepsTxOk(s, t, rank);
    }
  }

  /** For claim_batch, which writes all it picked: a row that was eligible and strictly older
      than a claimed one, and was not claimed, was passed over for one of the two reasons. */
  lemma OlderUnclaimedWasPassedOver(steps: seq<Step>, t: Tid, older: Id, younger: Id)
    requires Runs(steps) && IsScanning(SysOf(steps), t)
    requires var tx := SysOf(steps).txs[t];
             && tx.stmt.ClaimBatch? && tx.written && younger in tx.staged && older !in tx.staged
             && older in Matching(tx.snap, tx.stmt, tx.now)
             && younger in tx.snap && tx.snap[older].runAt < tx.snap[younger].runAt
    ensures exists k :: 0 <= k < |steps| && PassedOver(steps, k, t, older)
  {
    var tx := SysOf(steps).txs[t];
    var k, rank := RankedAt(steps, t);
    SameScan(steps, t, k);
    assert younger in Elems(tx.picked) && older !in Elems(tx.picked);
    FifoUpToSkipping(steps, t, older, younger);
  }

  lemma IdsOfCandidates(jobs: map<Id, Row>, ids: seq<Id>)
    requires forall x | x in ids :: x in jobs
    ensures Fairness.Ids(Candidates(jobs, ids)) == Elems(ids)
  {
    var cs := Candidates(jobs, ids);
    forall x | x in Elems(ids)
      ensures x in Fairness.Ids(cs)
    {
      var i :| 0 <= i < |ids| && ids[i] == x;
      assert cs[i].id == x;
    }
  }

  /** Run alone, claim_batch writes exactly the first n rows of the scan order. */
  lemma SoloClaimBatch(steps: seq<Step>, t: Tid)
    requires Runs(steps) && IsScanning(SysOf(steps), t) && SysOf(steps).txs[t].stmt.ClaimBatch?
    requires Alone(steps, t) && SysOf(steps).txs[t].ScanDone() && SysOf(steps).txs[t].written
    ensures var tx := SysOf(steps).txs[t];
            && IsScanOrder(tx.snap, tx.stmt, tx.now, tx.order)
            && tx.staged.Keys == Fairness.BatchIds(Candidates(tx.snap, tx.order), tx.stmt.limit)
            && tx.staged.Keys == Elems(tx.order[..Min(tx.stmt.limit, |tx.order|)])
  {
    var tx := SysOf(steps).txs[t];
    ScanShape(steps, t);
    AlonePicksPrefix(steps, t);
    var k, rank := RankedAt(steps, t);
    SameScan(steps, t, k);
    var first := Fairness.First(tx.order, tx.stmt.limit);
    IdsOfCandidates(tx.snap, first);
    assert Fairness.First(Candidates(tx.snap, tx.order), tx.stmt.limit) == Candidates(tx.snap, first);
  }

  /** Run alone, fair_claim is the fair selection from a scan order: the one it scanned,
      with ties inside the window broken as row_number() broke them. */
  lemma SoloFairClaim(steps: seq<Step>, t: Tid) returns (order: seq<Id>)
    requires Runs(steps) && IsScanning(SysOf(steps), t) && SysOf(steps).txs[t].stmt.FairClaim?
    requires Alone(steps, t) && SysOf(steps).txs[t].ScanDone() && SysOf(steps).txs[t].written
    ensures var tx := SysOf(steps).txs[t];
            && IsScanOrder(tx.snap, tx.stmt, tx.now, order)
            && tx.staged.Keys == Fairness.FairIds(Candidates(tx.snap, order), tx.stmt.batch, tx.stmt.cap)
            && IsFairChoice(tx.snap, order[..Min(4 * tx.stmt.batch, |order|)], tx.stmt.cap, tx.staged.Keys)
  {
    var tx := SysOf(steps).txs[t];
    var n := tx.stmt.Window();
    ScanShape(steps, t);
    AlonePicksPrefix(steps, t);
    var k, rank := RankedAt(steps, t);
    SameScan(steps, t, k);
    order := Reranked(tx.snap, tx.order, n, rank);
    RerankedIsScanOrder(tx.snap, tx.stmt, tx.now, tx.order, n, rank);
    assert Fairness.First(Candidates(tx.snap, order), n) == Candidates(tx.snap, rank);
    assert order[..Min(n, |order|)] == rank;
    KeptIsFairChoice(tx.snap, rank, tx.stmt.cap);
  }

  /** In every interleaving, with others holding rows or not: what a fair claim is about to
      commit is the fair choice among the rows it locked, at most 4 * batch of them. */
  lemma FairInEveryInterleaving(steps: seq<Step>, t: Tid) returns (rank: seq<Id>)
    requires Runs(steps) && IsScanning(SysOf(steps), t) && SysOf(steps).txs[t].stmt.FairClaim?
    requires SysOf(steps).txs[t].written
    ensures var tx, jobs := SysOf(steps).txs[t], SysOf(steps).db.jobs;
            && IsRanking(jobs, tx.picked, rank) && |tx.picked| <= 4 * tx.stmt.batch
            && (forall i, j | 0 <= i < j < |rank| :: jobs[rank[i]].runAt <= jobs[rank[j]].runAt)
            && IsFairChoice(jobs, rank, tx.stmt.cap, tx.staged.Keys)
  {
    var k;
    k, rank := RankedAt(steps, t);
    SameScan(steps, t, k);
    KeptIsFairChoice(At(steps, k).db.jobs, rank, SysOf(steps).txs[t].stmt.cap);
    Refinement(steps);
    RankedRowsSame(steps, t, k, rank);
    assert forall x | x in rank :: x in Elems(rank);
    FairChoiceFrame(At(steps, k).db.jobs, SysOf(steps).db.jobs, rank, SysOf(steps).txs[t].stmt.cap,
                    SysOf(steps).txs[t].staged.Keys);
  }

  lemma WrittenStep(s: Sys, step: Step, t: Tid)
    requires SysOk(s) && CanStep(s, step) && IsScanning(s, t) && IsScanning(DoStep(s, step), t) && s.txs[t].written
    ensures DoStep(s, step).txs[t].written && DoStep(s, step).txs[t].picked == s.txs[t].picked
    ensures forall x | x in s.txs[t].picked ::
              x in s.db.jobs && x in DoStep(s, step).db.jobs && DoStep(s, step).db.jobs[x] == s.db.jobs[x]
  {
    OtherStepsKeepScan(s, step, t);
    forall x | x in s.txs[t].picked
      ensures x in s.db.jobs && x in DoStep(s, step).db.jobs && DoStep(s, step).db.jobs[x] == s.db.jobs[x]
    {
      HeldStep(s, step, t, x);
    }
  }

  /** Since they were ranked the picked rows have not changed. */
  lemma {:induction false} RankedRowsSame(steps: seq<Step>, t: Tid, k: nat, rank: seq<Id>)
    requires Runs(steps) && IsScanning(SysOf(steps), t) && k < |steps|
    requires steps[k] == Outer(t, rank) && IsScanning(At(steps, k), t)
    ensures SysOf(steps).txs[t].written
    ensures forall x | x in SysOf(steps).txs[t].picked ::
              && x in SysOf(steps).db.jobs && x in At(steps, k).db.jobs
              && SysOf(steps).db.jobs[x] == At(steps, k).db.jobs[x]
  {
    var s := SysOf(Front(steps));
    Refinement(Front(steps));
    if k < |steps| - 1 {
      AtFront(steps, k);
      VisitsArePos(Front(steps), t);
      StillStarted(Front(steps), t, k);
      SameScan(Front(steps), t, k);
      RankedRowsSame(Front(steps), t, k, rank);
      WrittenStep(s, Last(steps), t);
    } else {
      assert steps[..k] == Front(steps);
    }
  }

  ghost function Reranked(jobs: map<Id, Row>, order: seq<Id>, n: nat, rank: seq<Id>): seq<Id> {
    rank + order[|Fairness.First(order, n)|..]
  }

  lemma RerankedIsScanOrder(jobs: map<Id, Row>, s: Stmt, now: Time, order: seq<Id>, n: nat, rank: seq<Id>)
    requires s.IsClaim() && IsScanOrder(jobs, s, now, order)
    requires IsRanking(jobs, Fairness.First(order, n), rank)
    ensures IsScanOrder(jobs, s, now, Reranked(jobs, order, n, rank))
    ensures |rank| == |Fairness.First(order, n)|
  {
    var first := Fairness.First(order, n);
    var rest := order[|first|..];
    NoDupSize(rank);
    NoDupSize(first);
    assert order == first + rest;
    RankBeforeRest(jobs, first, rest, rank);
    ElemsOfConcat(rank, rest);
    ElemsOfConcat(first, rest);
  }

  lemma ElemsOfConcat(a: seq<Id>, b: seq<Id>)
    ensures Elems(a + b) == Elems(a) + Elems(b)
  {
  }

  lemma RankBeforeRest(jobs: map<Id, Row>, first: seq<Id>, rest: seq<Id>, rank: seq<Id>)
    requires NoDup(first + rest) && OldestFirst(jobs, first + rest) && IsRanking(jobs, first, rank)
    ensures NoDup(rank + rest) && OldestFirst(jobs, rank + rest)
  {
    var order := first + rest;
    forall i, j | 0 <= i < |rank| && 0 <= j < |rest|
      ensures rank[i] != rest[j] && rest[j] in jobs && jobs[rank[i]].runAt <= jobs[rest[j]].runAt
    {
      assert rank[i] in Elems(rank) && Elems(rank) == Elems(first);
      var f :| 0 <= f < |first| && first[f] == rank[i];
      assert order[f] == rank[i] && order[|first| + j] == rest[j];
    }
    forall i, j | 0 <= i < j < |rest|
      ensures rest[i] != rest[j] && jobs[rest[i]].runAt <= jobs[rest[j]].runAt
    {
      assert order[|first| + i] == rest[i] && order[|first| + j] == rest[j];
    }
  }

  // ----- Rows held but not written

  /** While a transaction holds a row no other transaction changes it, and its own commit
      changes it only if it staged it: the rows of a fair window ranked above the cap are
      hidden until the commit, and then left as they were. */
  lemma HeldRowsFrozen(s: Sys, step: Step, t: Tid, id: Id)
    requires SysOk(s) && CanStep(s, step) && IsScanning(s, t) && id in s.txs[t].held && id in s.db.jobs
    requires !(step == Commit(t) && id in s.txs[t].staged)
    ensures id in DoStep(s, step).db.jobs && DoStep(s, step).db.jobs[id] == s.db.jobs[id]
    ensures step.Visit? && step.t != t ==> (id in DoStep(s, step).txs[step.t].picked <==> id in s.txs[step.t].picked)
  {
    if step.Commit? {
      CommitLeaves(s, step.t, t, id);
    } else if step.Visit? && step.t != t {
      SkippedIsNotPicked(s, step.t, t, id);
    }
  }

  lemma CommitLeaves(s: Sys, u: Tid, t: Tid, id: Id)
    requires SysOk(s) && CanStep(s, Commit(u)) && IsScanning(s, t) && id in s.txs[t].held && id in s.db.jobs
    requires !(u == t && id in s.txs[t].staged)
    ensures id in DoStep(s, Commit(u)).db.jobs && DoStep(s, Commit(u)).db.jobs[id] == s.db.jobs[id]
  {
    if u != t {
      CommitFrame(s.db, s.txs[u]);
    }
  }

  lemma SkippedIsNotPicked(s: Sys, u: Tid, t: Tid, id: Id)
    requires CanStep(s, Visit(u)) && u != t && Holds(s, t, id)
    ensures id in AfterVisit(s, u).picked <==> id in s.txs[u].picked
  {
    assert id in s.txs[t].HeldIds();
  }

  ghost predicate Holds(s: Sys, t: Tid, id: Id) {
    IsScanning(s, t) && id in s.txs[t].held
  }

  lemma HeldStep(s: Sys, step: Step, t: Tid, id: Id)
    requires SysOk(s) && CanStep(s, step) && IsScanning(DoStep(s, step), t)
    requires Holds(s, t, id) && id in s.db.jobs
    ensures Holds(DoStep(s, step), t, id)
    ensures id in DoStep(s, step).db.jobs && DoStep(s, step).db.jobs[id] == s.db.jobs[id]
  {
    HeldRowsFrozen(s, step, t, id);
  }

  lemma HeldByNobodyElse(s: Sys, t: Tid, id: Id)
    requires SysOk(s) && Holds(s, t, id)
    ensures !HeldByOther(s, t, id)
  {
  }

  ghost predicate HeldAs(s: Sys, t: Tid, id: Id, row: Row) {
    Holds(s, t, id) && id in s.db.jobs && s.db.jobs[id] == row
  }

  lemma HeldAsNext(steps: seq<Step>, k: nat, t: Tid, id: Id, row: Row)
    requires Runs(steps) && k < |steps| && HeldAs(At(steps, k), t, id, row) && IsScanning(At(steps, k + 1), t)
    ensures HeldAs(At(steps, k + 1), t, id, row)
  {
    AtNext(steps, k);
    HeldStep(At(steps, k), steps[k], t, id);
  }

  ghost predicate OpenFrom(steps: seq<Step>, j: nat, k: nat, t: Tid)
    requires Runs(steps) && k <= |steps|
  {
    forall m | j <= m <= k :: IsScanning(At(steps, m), t)
  }

  lemma {:induction false} HeldStays(steps: seq<Step>, j: nat, k: nat, t: Tid, id: Id, row: Row)
    requires Runs(steps) && j <= k <= |steps| && OpenFrom(steps, j, k, t)
    requires HeldAs(At(steps, j), t, id, row)
    ensures HeldAs(At(steps, k), t, id, row)
  {
    if j < k {
      HeldStays(steps, j, k - 1, t, id, row);
      assert IsScanning(At(steps, k), t);
      HeldAsNext(steps, k - 1, t, id, row);
    }
  }

  /** The same over any stretch of a run during which the transaction stays open. */
  lemma HeldWhileOpen(steps: seq<Step>, j: nat, k: nat, t: Tid, id: Id, row: Row)
    requires Runs(steps) && j <= k <= |steps| && OpenFrom(steps, j, k, t)
    requires HeldAs(At(steps, j), t, id, row)
    ensures HeldAs(At(steps, k), t, id, row) && !HeldByOther(At(steps, k), t, id)
  {
    HeldStays(steps, j, k, t, id, row);
    AtOk(steps, k);
    HeldByNobodyElse(At(steps, k), t, id);
  }

  // ----- Rolled-back enqueues

  /** An id that was drawn from the sequence and can no longer be committed. */
  ghost predicate Burned(s: Sys, id: Id) {
    && id < s.nextId && id !in s.db.issued
    && forall t | t in s.txs :: id !in s.txs[t].NewIds()
  }

  lemma BurnedStep(s: Sys, step: Step, id: Id)
    requires SysOk(s) && CanStep(s, step) && Burned(s, id)
    ensures Burned(DoStep(s, step), id)
  {
  }

  lemma {:induction false} BurnedForever(steps: seq<Step>, k: nat, m: nat, id: Id)
    requires Runs(steps) && k <= m <= |steps| && Burned(At(steps, k), id)
    ensures Burned(At(steps, m), id)
  {
    if k < m {
      BurnedForever(steps, k, m - 1, id);
      AtNext(steps, m - 1);
      BurnedStep(At(steps, m - 1), steps[m - 1], id);
    }
  }

  /** A rolled-back producer leaves no job: none of its ids ever reaches `jobs` or
      `jobs_dead`. */
  lemma RollbackLeavesNoRow(steps: seq<Step>, k: nat, t: Tid, id: Id)
    requires Runs(steps) && k < |steps| && steps[k] == Abort(t)
    requires t in At(steps, k).txs && id in At(steps, k).txs[t].NewIds()
    ensures id !in SysOf(steps).db.jobs && id !in DeadIds(SysOf(steps).db.dead)
  {
    AtNext(steps, k);
    BurnedForever(steps, k + 1, |steps|, id);
    assert steps[..|steps|] == steps;
    Refinement(steps);
  }

  /** Conservation, immutability of the ledger and the lease columns hold at every moment of
      every interleaving. */
  lemma EveryInterleaving(steps: seq<Step>, id: Id)
    requires Runs(steps)
    ensures DbOk(SysOf(steps).db)
    ensures SysOf(steps).db.issued == Inserted(Trace(steps))
    ensures ClaimCount(Trace(steps), id) <= DEFAULT_MAX_ATTEMPTS
    ensures id in SysOf(steps).db.jobs ==> SysOf(steps).db.jobs[id].attempts == ClaimCount(Trace(steps), id)
    ensures id in SysOf(steps).db.jobs ==> SysOf(steps).db.jobs[id].lockedBy == Holder(Trace(steps), id)
  {
    Refinement(steps);
    RunKeepsDbOk(Trace(steps));
    InsertedIsIssued(Trace(steps));
    AttemptsLedger(Trace(steps), id);
    HistoryExplainsRow(Trace(steps), id);
  }
}
