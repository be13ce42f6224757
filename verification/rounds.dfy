/** Repeated fair claims on the table itself: the rounds of the fairness bounds are rounds of
    `fair_claim` on rows. */
module Rounds {
  import opened Schema
  import opened Queue
  import opened Transactions
  import Fairness
  import opened Interleavings

  function IdsIn(cs: seq<Fairness.Candidate>): seq<Id> {
    seq(|cs|, i requires 0 <= i < |cs| => cs[i].id)
  }

  /** A list of candidates that describe rows of the table, oldest first, is read off the
      table again from its ids. */
  lemma CandidatesOfIds(jobs: map<Id, Row>, cs: seq<Fairness.Candidate>)
    requires Fairness.Distinct(cs) && Fairness.ByRunAt(cs)
    requires forall c | c in cs :: c.id in jobs && c == Fairness.CandidateOf(jobs, c.id)
    ensures NoDup(IdsIn(cs)) && OldestFirst(jobs, IdsIn(cs)) && Candidates(jobs, IdsIn(cs)) == cs
    ensures Elems(IdsIn(cs)) == Fairness.Ids(cs)
  {
    var ids := IdsIn(cs);
    assert forall i | 0 <= i < |cs| :: cs[i] in cs && ids[i] == cs[i].id;
    assert forall x | x in ids :: exists i :: 0 <= i < |cs| && cs[i].id == x;
    forall x | x in Fairness.Ids(cs)
      ensures x in Elems(ids)
    {
      var i :| 0 <= i < |cs| && cs[i].id == x;
      assert ids[i] == x;
    }
  }

  lemma ScanOrderOfCandidates(jobs: map<Id, Row>, order: seq<Id>)
    requires NoDup(order) && OldestFirst(jobs, order)
    ensures Fairness.Distinct(Candidates(jobs, order)) && Fairness.ByRunAt(Candidates(jobs, order))
    ensures Fairness.Ids(Candidates(jobs, order)) == Elems(order)
  {
    IdsOfCandidates(jobs, order);
  }

  lemma MatchingAfterClaim(jobs: map<Id, Row>, s: Stmt, now: Time, ids: set<Id>)
    requires s.IsClaim()
    ensures Matching(Written(jobs, s, ids, now), s, now) == Matching(jobs, s, now) - ids
  {
  }

  /** A fair claim run alone leaves exactly the rest of its scan order to the next one. */
  lemma NextRound(jobs: map<Id, Row>, s: Stmt, now: Time, order: seq<Id>) returns (rest: seq<Id>)
    requires s.FairClaim? && IsScanOrder(jobs, s, now, order)
    ensures var ids := Fairness.FairIds(Candidates(jobs, order), s.batch, s.cap);
            && IsScanOrder(Written(jobs, s, ids, now), s, now, rest)
            && Candidates(Written(jobs, s, ids, now), rest) == Fairness.Without(Candidates(jobs, order), ids)
  {
    var ids := Fairness.FairIds(Candidates(jobs, order), s.batch, s.cap);
    var left := Fairness.Without(Candidates(jobs, order), ids);
    ScanOrderOfCandidates(jobs, order);
    Fairness.WithoutKeeps(Candidates(jobs, order), ids);
    Fairness.WithoutIsSorted(Candidates(jobs, order), ids);
    Fairness.WithoutIsPart(Candidates(jobs, order), ids);
    rest := IdsIn(left);
    CandidatesOfIds(Written(jobs, s, ids, now), left);
    MatchingAfterClaim(jobs, s, now, ids);
  }

  /** The table after `r` fair claims in a row, each run alone and seeing the same clock. */
  ghost function TableAfter(jobs: map<Id, Row>, s: Stmt, now: Time,
                            order: seq<Fairness.Candidate>, r: nat): map<Id, Row>
    requires s.FairClaim?
  {
    if r == 0 then jobs
    else
      var left := Fairness.AfterRounds(order, s.batch, s.cap, r - 1);
      Written(TableAfter(jobs, s, now, order, r - 1), s, Fairness.FairIds(left, s.batch, s.cap), now)
  }

  lemma {:induction false} RoundsOnTable(jobs: map<Id, Row>, s: Stmt, now: Time, order: seq<Id>, r: nat)
    returns (rest: seq<Id>)
    requires s.FairClaim? && IsScanOrder(jobs, s, now, order)
    ensures var table := TableAfter(jobs, s, now, Candidates(jobs, order), r);
            && IsScanOrder(table, s, now, rest)
            && Candidates(table, rest) == Fairness.AfterRounds(Candidates(jobs, order), s.batch, s.cap, r)
  {
    if r == 0 {
      rest := order;
    } else {
      rest := RoundsOnTable(jobs, s, now, order, r - 1);
      rest := NextRound(TableAfter(jobs, s, now, Candidates(jobs, order), r - 1), s, now, rest);
    }
  }

  /** A backlog of n eligible rows is claimed completely by ceil(n / min(cap, 4*batch)) fair
      claims, whatever the carrier mix. */
  lemma BacklogDrains(jobs: map<Id, Row>, s: Stmt, now: Time, order: seq<Id>)
    requires s.FairClaim? && s.batch >= 1 && s.cap >= 1 && IsScanOrder(jobs, s, now, order)
    ensures var rounds := Fairness.CeilDiv(|order|, Fairness.Progress(s.batch, s.cap));
            Matching(TableAfter(jobs, s, now, Candidates(jobs, order), rounds), s, now) == {}
  {
    var rounds := Fairness.CeilDiv(|order|, Fairness.Progress(s.batch, s.cap));
    var rest := RoundsOnTable(jobs, s, now, order, rounds);
    Fairness.DrainBound(Candidates(jobs, order), s.batch, s.cap);
    var table := TableAfter(jobs, s, now, Candidates(jobs, order), rounds);
    assert |rest| == |Candidates(table, rest)|;
    assert Elems(rest) == {};
  }

  /** A row still in the backlog has not been touched. */
  lemma {:induction false} WaitingRowUntouched(jobs: map<Id, Row>, s: Stmt, now: Time, order: seq<Id>, id: Id, r: nat)
    requires s.FairClaim? && IsScanOrder(jobs, s, now, order)
    requires id in Fairness.Ids(Fairness.AfterRounds(Candidates(jobs, order), s.batch, s.cap, r))
    ensures id in jobs
    ensures var table := TableAfter(jobs, s, now, Candidates(jobs, order), r);
            id in table && table[id] == jobs[id]
  {
    ScanOrderOfCandidates(jobs, order);
    if r > 0 {
      var left := Fairness.AfterRounds(Candidates(jobs, order), s.batch, s.cap, r - 1);
      Fairness.BacklogStaysDistinct(Candidates(jobs, order), s.batch, s.cap, r - 1);
      Fairness.WithoutKeeps(left, Fairness.FairIds(left, s.batch, s.cap));
      WaitingRowUntouched(jobs, s, now, order, id, r - 1);
    }
  }

  /** What the n-th round does to one row. */
  lemma RoundOnTable(jobs: map<Id, Row>, s: Stmt, now: Time, order: seq<Fairness.Candidate>, id: Id, n: nat)
    requires s.FairClaim? && n > 0 && Fairness.Distinct(order)
    ensures var before := Fairness.AfterRounds(order, s.batch, s.cap, n - 1);
            var taken := Fairness.FairIds(before, s.batch, s.cap);
            var table, table' := TableAfter(jobs, s, now, order, n - 1), TableAfter(jobs, s, now, order, n);
            && taken <= Fairness.Ids(before)
            && Fairness.Ids(Fairness.AfterRounds(order, s.batch, s.cap, n)) == Fairness.Ids(before) - taken
            && (id in table ==>
                  id in table' && table'[id] == if id in taken then Effect(s, table[id], now) else table[id])
  {
    var before := Fairness.AfterRounds(order, s.batch, s.cap, n - 1);
    Fairness.BacklogStaysDistinct(order, s.batch, s.cap, n - 1);
    Fairness.WithoutKeeps(before, Fairness.FairIds(before, s.batch, s.cap));
    FairIdsArePart(before, s.batch, s.cap);
  }

  /** A row claimed in round r carries that lease from then on and is claimed no more. */
  lemma {:induction false} ClaimedRowStays(jobs: map<Id, Row>, s: Stmt, now: Time, order: seq<Id>,
                                           id: Id, r: nat, n: nat)
    requires s.FairClaim? && IsScanOrder(jobs, s, now, order) && r < n
    requires id in Fairness.FairIds(Fairness.AfterRounds(Candidates(jobs, order), s.batch, s.cap, r), s.batch, s.cap)
    ensures id in jobs && id !in Fairness.Ids(Fairness.AfterRounds(Candidates(jobs, order), s.batch, s.cap, n))
    ensures var table := TableAfter(jobs, s, now, Candidates(jobs, order), n);
            id in table && table[id] == Effect(s, jobs[id], now)
  {
    var cs := Candidates(jobs, order);
    ScanOrderOfCandidates(jobs, order);
    RoundOnTable(jobs, s, now, cs, id, n);
    if r == n - 1 {
      assert id in Fairness.Ids(Fairness.AfterRounds(cs, s.batch, s.cap, r));
      WaitingRowUntouched(jobs, s, now, order, id, r);
    } else {
      ClaimedRowStays(jobs, s, now, order, id, r, n - 1);
      assert id !in Fairness.FairIds(Fairness.AfterRounds(cs, s.batch, s.cap, n - 1), s.batch, s.cap);
    }
  }

  lemma FairIdsArePart(left: seq<Fairness.Candidate>, batch: nat, cap: nat)
    ensures Fairness.FairIds(left, batch, cap) <= Fairness.Ids(left)
  {
    Fairness.Sandwich(left, batch, cap);
  }

  /** Bounded waiting on the table: an eligible row with k eligible rows ahead of it in the
      scan order is claimed, once, by the first floor(k / min(cap, 4*batch)) + 1 fair claims. */
  lemma RowIsClaimedInTime(jobs: map<Id, Row>, s: Stmt, now: Time, order: seq<Id>, id: Id, k: nat)
    requires s.FairClaim? && s.batch >= 1 && s.cap >= 1 && IsScanOrder(jobs, s, now, order)
    requires k < |order| && order[k] == id
    ensures var table := TableAfter(jobs, s, now, Candidates(jobs, order), k / Fairness.Progress(s.batch, s.cap) + 1);
            id in jobs && id in table && table[id] == Effect(s, jobs[id], now)
  {
    RowIsClaimedWithin(jobs, s, now, order, id, k, k / Fairness.Progress(s.batch, s.cap) + 1);
  }

  lemma RowIsClaimedWithin(jobs: map<Id, Row>, s: Stmt, now: Time, order: seq<Id>, id: Id, k: nat, n: nat)
    requires s.FairClaim? && s.batch >= 1 && s.cap >= 1 && IsScanOrder(jobs, s, now, order)
    requires k < |order| && order[k] == id && n == k / Fairness.Progress(s.batch, s.cap) + 1
    ensures var table := TableAfter(jobs, s, now, Candidates(jobs, order), n);
            id in jobs && id in table && table[id] == Effect(s, jobs[id], now)
  {
    var cs := Candidates(jobs, order);
    ScanOrderOfCandidates(jobs, order);
    Fairness.AheadSize(cs, k);
    var r := Fairness.BacklogBoundedWaiting(cs, id, s.batch, s.cap, k);
    ClaimedRowStays(jobs, s, now, order, id, r, n);
  }
}
