/** Runs that show where a guarantee ends: what goes wrong without the discipline that the
    theorems ask of callers. All of them concern one job. */
module Witnesses {
  import opened Schema
  import opened Queue
  import opened Lifecycle
  import Leases
  import Retries

  const JOB: Id := 7

  function Only(r: Row, clock: Time): Db {
    Db(map[JOB := r], [], {JOB}, clock)
  }

  function Fresh(): Row {
    NewRow("webhook.normalize", Payload(Some("A"), "evt-1", ""), 0)
  }

  const ANY_KIND: set<string> := {"webhook.normalize"}

  /** The job is enqueued and the clock moves on. */
  lemma Enqueued(clock: Time) returns (ops: seq<Op>)
    requires clock >= 0
    ensures Legal(ops) && Exec(ops) == Only(Fresh(), clock)
  {
    var insert := JustInserted(Fresh());
    ops := insert + [Tick(clock)];
    assert Front(ops) == insert;
  }

  /** One more statement hits the job. */
  lemma Then(ops: seq<Op>, r: Row, clock: Time, s: Stmt, now: Time) returns (more: seq<Op>)
    requires Legal(ops) && Exec(ops) == Only(r, clock)
    requires now <= clock && Matches(s, JOB, r, now) && !s.DeadLetter? && (s.IsClaim() ==> s.Window() >= 1)
    ensures more == ops + [Write(s, {JOB}, now)]
    ensures Legal(more) && Exec(more) == Only(Effect(s, r, now), clock)
  {
    more := ops + [Write(s, {JOB}, now)];
    assert Front(more) == ops;
    assert Exec(more).jobs == map[JOB := Effect(s, r, now)];
  }

  /** Without the discipline a finished job comes back: worker 1 claims, loses the job to
      the reaper, worker 2 claims it, worker 1's stale mark_done commits, and worker 2's
      requeue makes the done job ready. */
  lemma DoneCanBeUndone() returns (ops: seq<Op>)
    ensures Legal(ops) && |ops| > 1
    ensures Leases.IsDone(Exec(Front(ops)), JOB)
    ensures JOB in Exec(ops).jobs && Exec(ops).jobs[JOB].state == Ready
    ensures Last(ops).Write? && Last(ops).stmt == Requeue(JOB, "timeout", "w2")
  {
    var r, clock := Fresh(), 600 * SECOND;
    var claim1, claim2 := ClaimBatch(ANY_KIND, 1, "w1"), ClaimBatch(ANY_KIND, 1, "w2");
    ops := Enqueued(clock);
    ops := Then(ops, r, clock, claim1, 0);
    r := Effect(claim1, r, 0);
    ops := Then(ops, r, clock, Reap(300), clock);
    r := Effect(Reap(300), r, clock);
    ops := Then(ops, r, clock, claim2, clock);
    r := Effect(claim2, r, clock);
    ops := Then(ops, r, clock, MarkDone(JOB, "w1"), clock);
    r := Effect(MarkDone(JOB, "w1"), r, clock);
    var done := ops;
    ops := Then(ops, r, clock, Requeue(JOB, "timeout", "w2"), clock);
    assert Front(ops) == done;
  }

  /** The owner guard compares worker ids only: after a reap and a re-claim under the same
      id, the first claim's heartbeat still counts the job. */
  lemma SameIdHeartbeatCounts() returns (ops: seq<Op>, released: nat)
    ensures Legal(ops) && 0 < released < |ops| && ops[released].Releases(JOB)
    ensures ops[released - 1].Claims(JOB) && ops[released - 1].stmt.worker == "w"
    ensures Matching(Exec(ops).jobs, Heartbeat({JOB}, "w"), Exec(ops).clock) == {JOB}
  {
    var r, clock := Fresh(), 600 * SECOND;
    var claim := ClaimBatch(ANY_KIND, 1, "w");
    ops := Enqueued(clock);
    ops := Then(ops, r, clock, claim, 0);
    released := |ops|;
    r := Effect(claim, r, 0);
    ops := Then(ops, r, clock, Reap(300), clock);
    r := Effect(Reap(300), r, clock);
    ops := Then(ops, r, clock, claim, clock);
  }

  /** The backoff bound needs the requeue to begin after the claim it follows: a requeue
      that opened ten seconds before the claim, and waited for its row lock, lets the second
      claim start at the same instant as the first. */
  lemma EarlyRequeueSkipsBackoff() returns (ops: seq<Op>)
    ensures Legal(ops) && ops != [] && Last(ops).Claims(JOB)
    ensures ClaimCount(ops, JOB) == 2 && Last(ops).now - Retries.FirstClaim(ops, JOB) == 0
    ensures Retries.TotalBackoff(2) == 2
  {
    var r, clock := Fresh(), 10 * SECOND;
    var claim := ClaimBatch(ANY_KIND, 1, "w");
    var start := Enqueued(clock);
    ops := Then(start, r, clock, claim, clock);
    r := Effect(claim, r, clock);
    var claimed := ops;
    ops := Then(ops, r, clock, Requeue(JOB, "timeout", "w"), 0);
    r := Effect(Requeue(JOB, "timeout", "w"), r, 0);
    assert Pow2(1) == 2;
    var requeued := ops;
    ops := Then(ops, r, clock, claim, clock);
    assert Front(ops) == requeued && Front(requeued) == claimed && Front(claimed) == start;
    HistoryExplainsRow(start, JOB);
    HistoryExplainsRow(claimed, JOB);
    HistoryExplainsRow(ops, JOB);
    assert Retries.FirstClaim(claimed, JOB) == clock;
    assert Retries.FirstClaim(requeued, JOB) == clock;
  }

  /** A requeue can also move a job forward in time: one enqueued for an hour later and never
      claimed becomes due after one second. */
  lemma RequeueHastensDelayedJob() returns (ops: seq<Op>)
    ensures Legal(ops) && ops != [] && Last(ops) == Write(Requeue(JOB, "timeout", "w"), {JOB}, 0)
    ensures ClaimCount(Front(ops), JOB) == 0 && Due(Front(ops), JOB) == 3600 * SECOND && Due(ops, JOB) == SECOND
  {
    var later := Fresh().(runAt := 3600 * SECOND);
    var insert := JustInserted(later);
    ops := Then(insert, later, 0, Requeue(JOB, "timeout", "w"), 0);
    assert Front(ops) == insert;
    HistoryExplainsSchedule(insert, JOB);
    HistoryExplainsRow(insert, JOB);
    assert Pow2(0) == 1;
  }

  lemma JustInserted(r: Row) returns (ops: seq<Op>)
    requires r == NewRow(r.kind, r.payload, r.runAt)
    ensures Legal(ops) && Exec(ops) == Only(r, 0)
  {
    ops := [Insert(map[JOB := r])];
    assert Front(ops) == [];
  }

  // ----- The reaper

  /** A job claimed at time 0 can be reaped at any later time that the interval allows. */
  lemma ReapedAt(age: nat, lease: nat) returns (ops: seq<Op>)
    requires age > Leases.ReapSecs(lease) * SECOND
    ensures Legal(ops) && Enabled(Exec(ops), Write(Reap(Leases.ReapSecs(lease)), {JOB}, age))
    ensures Stamp(ops, JOB) == 0 && ops != [] && Last(ops).Claims(JOB)
  {
    var claim := ClaimBatch(ANY_KIND, 1, "w");
    var start := Enqueued(age);
    ops := Then(start, Fresh(), age, claim, 0);
    assert Front(ops) == start;
    assert JOB in Matching(Exec(ops).jobs, Reap(Leases.ReapSecs(lease)), age);
  }

  /** For which leases, of all that a Duration can hold, some run has a reap that releases a
      job before its lease is over: those with more than a microsecond beyond their whole
      seconds, and those that the cast wraps around. */
  lemma ReapIsEarlyExactlyWhen(lease: nat)
    requires lease / 1_000_000_000 < 2 * TWO_TO_THE_63
    ensures (exists ops, id, ids, now :: Leases.IsEarlyReap(ops, id, ids, now, lease))
       <==> lease % 1_000_000_000 > 1000 || lease / 1_000_000_000 >= TWO_TO_THE_63
  {
    Leases.AgesBelowLease(lease);
    if lease % 1_000_000_000 > 1000 || lease / 1_000_000_000 >= TWO_TO_THE_63 {
      var age := if lease / 1_000_000_000 >= TWO_TO_THE_63 then 0 else Leases.ReapSecs(lease) * SECOND + 1;
      assert lease == lease / 1_000_000_000 * 1_000_000_000 + lease % 1_000_000_000;
      var ops := ReapedAt(age, lease);
      assert Leases.IsEarlyReap(ops, JOB, {JOB}, age, lease);
    } else {
      forall ops, id, ids, now | Leases.IsEarlyReap(ops, id, ids, now, lease)
        ensures false
      {
        Leases.ReapVerdict(ops, id, Leases.ReapSecs(lease), ids, now);
      }
    }
  }

  /** With the longest lease a job is reaped at the instant of its claim. */
  lemma LongestLeaseReapsFreshClaim() returns (ops: seq<Op>, now: Time)
    ensures Legal(ops) && ops != [] && Last(ops).Claims(JOB) && Last(ops).now == now
    ensures Enabled(Exec(ops), Write(Reap(Leases.ReapSecs(Leases.LONGEST_LEASE)), {JOB}, now))
  {
    var start := Enqueued(0);
    now := 0;
    ops := Then(start, Fresh(), now, ClaimBatch(ANY_KIND, 1, "w"), now);
    assert JOB in Matching(Exec(ops).jobs, Reap(Leases.ReapSecs(Leases.LONGEST_LEASE)), now);
    assert Front(ops) == start;
  }
}
