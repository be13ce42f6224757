/** A run with overlap: two claims open at once, both snapshots see the same two ready rows,
    and they commit one row each. */
module Overlap {
  import opened Schema
  import opened Queue
  import opened Transactions

  const A: Tid := 1
  const B: Tid := 2
  const KINDS: set<string> := {"webhook.normalize"}

  function ClaimOne(worker: string): Stmt {
    ClaimBatch(KINDS, 1, worker)
  }

  function ReadyRow(): Row {
    NewRow("webhook.normalize", Payload(Some("A"), "evt", ""), 0)
  }

  function Two(): map<Id, Row> {
    map[1 := ReadyRow(), 2 := ReadyRow()]
  }

  function Scan(worker: string, pos: nat, held: set<Id>, picked: seq<Id>, written: bool, staged: map<Id, Row>): Tx {
    Scanning(ClaimOne(worker), 0, Two(), [1, 2], pos, held, picked, written, staged)
  }

  function Claimed(worker: string): Row {
    Effect(ClaimOne(worker), ReadyRow(), 0)
  }

  lemma Next(steps: seq<Step>, step: Step) returns (more: seq<Step>)
    requires Runs(steps) && CanStep(SysOf(steps), step)
    ensures more == steps + [step] && Runs(more) && SysOf(more) == DoStep(SysOf(steps), step)
  {
    more := steps + [step];
    assert Front(more) == steps;
  }

  function Both(a: Tx, b: Tx): Sys {
    Sys(Db(Two(), [], {1, 2}, 0), map[A := a, B := b], {0, A, B}, 3)
  }

  /** Two rows enqueued in one transaction. */
  lemma Produced() returns (steps: seq<Step>)
    ensures Runs(steps) && SysOf(steps) == Sys(Db(Two(), [], {1, 2}, 0), map[], {0}, 3)
  {
    steps := Next([], Begin(0));
    steps := EnqueueNext(steps, map[], 1);
    steps := EnqueueNext(steps, map[1 := ReadyRow()], 2);
    assert map[1 := ReadyRow()][2 := ReadyRow()] == Two();
    steps := Next(steps, Commit(0));
  }

  lemma EnqueueNext(before: seq<Step>, rows: map<Id, Row>, id: Id) returns (steps: seq<Step>)
    requires Runs(before) && SysOf(before) == Sys(START.db, map[0 := Producing(0, rows)], {0}, id)
    ensures Runs(steps)
    ensures SysOf(steps) == Sys(START.db, map[0 := Producing(0, rows[id := ReadyRow()])], {0}, id + 1)
  {
    steps := Next(before, Enqueue(0, "webhook.normalize", Payload(Some("A"), "evt", ""), None));
    assert SysOf(steps).txs == map[0 := Producing(0, rows[id := ReadyRow()])];
  }

  lemma Opening() returns (steps: seq<Step>)
    ensures Runs(steps) && SysOf(steps) == Both(Opened(ClaimOne("a"), 0), Opened(ClaimOne("b"), 0))
  {
    steps := Produced();
    steps := Next(steps, Open(A, ClaimOne("a")));
    steps := Next(steps, Open(B, ClaimOne("b")));
    assert SysOf(steps).txs == map[A := Opened(ClaimOne("a"), 0), B := Opened(ClaimOne("b"), 0)];
  }

  function Fresh(worker: string): Tx { Scan(worker, 0, {}, [], false, map[]) }

  lemma OneTwoIsScanOrder(worker: string)
    ensures IsScanOrder(Two(), ClaimOne(worker), 0, [1, 2])
  {
    assert Matching(Two(), ClaimOne(worker), 0) == {1, 2};
    assert Elems([1, 2]) == {1, 2};
  }

  /** Both claims have taken their snapshot of the same two rows. */
  lemma Snapshots() returns (steps: seq<Step>)
    ensures Runs(steps)
    ensures SysOf(steps) == Both(Fresh("a"), Fresh("b"))
  {
    steps := Opening();
    OneTwoIsScanOrder("a");
    OneTwoIsScanOrder("b");
    steps := Next(steps, Snapshot(A, [1, 2]));
    steps := Next(steps, Snapshot(B, [1, 2]));
    assert SysOf(steps).txs == map[A := Fresh("a"), B := Fresh("b")];
  }

  /** Claim A locks row 1. */
  lemma VisitA(before: seq<Step>) returns (steps: seq<Step>)
    requires Runs(before) && SysOf(before) == Both(Fresh("a"), Fresh("b"))
    ensures before <= steps && Runs(steps)
    ensures SysOf(steps) == Both(Scan("a", 1, {1}, [1], false, map[]), Fresh("b"))
  {
    assert !HeldByOther(SysOf(before), A, 1);
    assert AfterVisit(SysOf(before), A) == Scan("a", 1, {1}, [1], false, map[]);
    steps := Next(before, Visit(A));
    assert SysOf(steps).txs == SysOf(before).txs[A := Scan("a", 1, {1}, [1], false, map[])];
  }

  /** Claim B skips it. */
  lemma SkipB(before: seq<Step>) returns (steps: seq<Step>)
    requires Runs(before) && SysOf(before) == Both(Scan("a", 1, {1}, [1], false, map[]), Fresh("b"))
    ensures before <= steps && Runs(steps)
    ensures SysOf(steps) == Both(Scan("a", 1, {1}, [1], false, map[]), Scan("b", 1, {}, [], false, map[]))
  {
    assert 1 in SysOf(before).txs[A].HeldIds();
    assert AfterVisit(SysOf(before), B) == Scan("b", 1, {}, [], false, map[]);
    steps := Next(before, Visit(B));
    assert SysOf(steps).txs == SysOf(before).txs[B := Scan("b", 1, {}, [], false, map[])];
  }

  /** And locks row 2. */
  lemma VisitB(before: seq<Step>) returns (steps: seq<Step>)
    requires Runs(before)
    requires SysOf(before) == Both(Scan("a", 1, {1}, [1], false, map[]), Scan("b", 1, {}, [], false, map[]))
    ensures before <= steps && Runs(steps)
    ensures SysOf(steps) == Both(Scan("a", 1, {1}, [1], false, map[]), Scan("b", 2, {2}, [2], false, map[]))
  {
    assert !HeldByOther(SysOf(before), B, 2);
    assert AfterVisit(SysOf(before), B) == Scan("b", 2, {2}, [2], false, map[]);
    steps := Next(before, Visit(B));
    assert SysOf(steps).txs == SysOf(before).txs[B := Scan("b", 2, {2}, [2], false, map[])];
  }

  lemma OneIsRanking(id: Id)
    requires id in Two()
    ensures IsRanking(Two(), [id], [id]) && Chosen(ClaimOne("a"), Two(), [id]) == {id}
  {
  }

  function WrittenA(): Tx { Scan("a", 1, {1}, [1], true, map[1 := Claimed("a")]) }
  function WrittenB(): Tx { Scan("b", 2, {2}, [2], true, map[2 := Claimed("b")]) }

  lemma OuterA(visited: seq<Step>) returns (steps: seq<Step>)
    requires Runs(visited)
    requires SysOf(visited) == Both(Scan("a", 1, {1}, [1], false, map[]), Scan("b", 2, {2}, [2], false, map[]))
    ensures visited <= steps && Runs(steps)
    ensures SysOf(steps) == Both(WrittenA(), Scan("b", 2, {2}, [2], false, map[]))
  {
    OneIsRanking(1);
    assert AfterOuter(SysOf(visited), A, [1]) == WrittenA();
    steps := Next(visited, Outer(A, [1]));
    assert SysOf(steps).txs == SysOf(visited).txs[A := WrittenA()];
  }

  lemma OuterB(visited: seq<Step>) returns (steps: seq<Step>)
    requires Runs(visited) && SysOf(visited) == Both(WrittenA(), Scan("b", 2, {2}, [2], false, map[]))
    ensures visited <= steps && Runs(steps) && SysOf(steps) == Both(WrittenA(), WrittenB())
  {
    OneIsRanking(2);
    assert AfterOuter(SysOf(visited), B, [2]) == WrittenB();
    steps := Next(visited, Outer(B, [2]));
    assert SysOf(steps).txs == SysOf(visited).txs[B := WrittenB()];
  }

  lemma Commits(written: seq<Step>) returns (steps: seq<Step>)
    requires Runs(written) && SysOf(written) == Both(WrittenA(), WrittenB())
    ensures written <= steps && Runs(steps) && SysOf(steps).txs == map[]
    ensures SysOf(steps).db.jobs == map[1 := Claimed("a"), 2 := Claimed("b")]
  {
    steps := Next(written, Commit(A));
    assert SysOf(steps).txs == map[B := WrittenB()];
    assert SysOf(steps).db.jobs == map[1 := Claimed("a"), 2 := ReadyRow()];
    steps := Next(steps, Commit(B));
  }

  /** Overlapping claims with equal snapshots: each commits one row, and not the same one. */
  lemma TwoClaimsShareTheWork() returns (before: seq<Step>, steps: seq<Step>)
    ensures Runs(before) && before <= steps
    ensures SysOf(before) == Both(Fresh("a"), Fresh("b"))
    ensures Runs(steps) && SysOf(steps).txs == map[]
    ensures SysOf(steps).db.jobs == map[1 := Claimed("a"), 2 := Claimed("b")]
  {
    before := Snapshots();
    steps := VisitA(before);
    steps := SkipB(steps);
    steps := VisitB(steps);
    steps := OuterA(steps);
    steps := OuterB(steps);
    steps := Commits(steps);
  }
}
