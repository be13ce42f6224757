/** The fair claim on rows: what the outer UPDATE may take of a locked window, in the words of
    its promise and not of its ranking, and that the promise leaves only one choice. */
module FairChoice {
  import opened Schema
  import opened Queue
  import opened Transactions
  import Fairness

  /** The rows of `ids` whose payload names carrier `c`, or no carrier if `c` is None. */
  ghost function OfCarrier(jobs: map<Id, Row>, ids: set<Id>, c: Option<string>): set<Id> {
    set id | id in ids && id in jobs && jobs[id].payload.carrierId == c
  }

  ghost predicate SameCarrier(jobs: map<Id, Row>, x: Id, y: Id) {
    x in jobs && y in jobs && jobs[x].payload.carrierId == jobs[y].payload.carrierId
  }

  /** Of a locked window, oldest first, every carrier gets min(cap, its rows), and these are
      the oldest of its rows. */
  ghost predicate IsFairChoice(jobs: map<Id, Row>, window: seq<Id>, cap: nat, taken: set<Id>) {
    && taken <= Elems(window)
    && (forall c :: |OfCarrier(jobs, taken, c)| == Min(cap, |OfCarrier(jobs, Elems(window), c)|))
    && (forall i, j | 0 <= i < j < |window| && SameCarrier(jobs, window[i], window[j]) ::
          window[j] in taken ==> window[i] in taken)
  }

  ghost predicate AllIn(order: seq<Id>, jobs: map<Id, Row>) {
    forall x | x in order :: x in jobs
  }

  /** There is only one such choice. */
  lemma FairChoiceIsUnique(jobs: map<Id, Row>, window: seq<Id>, cap: nat, a: set<Id>, b: set<Id>)
    requires AllIn(window, jobs)
    requires IsFairChoice(jobs, window, cap, a) && IsFairChoice(jobs, window, cap, b)
    ensures a == b
  {
    FairChoiceIsPart(jobs, window, cap, a, b);
    FairChoiceIsPart(jobs, window, cap, b, a);
  }

  lemma FairChoiceIsPart(jobs: map<Id, Row>, window: seq<Id>, cap: nat, a: set<Id>, b: set<Id>)
    requires AllIn(window, jobs)
    requires IsFairChoice(jobs, window, cap, a) && IsFairChoice(jobs, window, cap, b)
    ensures a <= b
  {
    forall x | x in a
      ensures x in b
    {
      var i :| 0 <= i < |window| && window[i] == x;
      var c := jobs[x].payload.carrierId;
      var ofA, ofB := OfCarrier(jobs, a, c), OfCarrier(jobs, b, c);
      assert |ofA| == |ofB|;
      if x !in b {
        // a row of the carrier that b takes before x is in a, one after x would bring x along
        forall y | y in ofB
          ensures y in ofA - {x}
        {
          var j :| 0 <= j < |window| && window[j] == y;
          assert SameCarrier(jobs, x, y) && SameCarrier(jobs, y, x);
        }
        Fairness.SubsetSize(ofB, ofA - {x});
        assert false;
      }
    }
  }

  lemma CandidatesOfCarrier(jobs: map<Id, Row>, window: seq<Id>, c: Option<string>)
    requires NoDup(window) && AllIn(window, jobs)
    ensures |OfCarrier(jobs, Elems(window), c)| == |Fairness.RowsOf(Candidates(jobs, window), c)|
  {
    var cs := Candidates(jobs, window);
    var places := Fairness.RowsOf(cs, c);
    Fairness.SameSize(cs, places);
    var ids := set i | i in places :: cs[i].id;
    forall x | x in OfCarrier(jobs, Elems(window), c)
      ensures x in ids
    {
      var i :| 0 <= i < |window| && window[i] == x;
      assert i in places && cs[i].id == x;
    }
    assert OfCarrier(jobs, Elems(window), c) == ids;
  }

  /** row_number() with the cap makes that choice. */
  lemma KeptIsFairChoice(jobs: map<Id, Row>, window: seq<Id>, cap: nat)
    requires NoDup(window) && AllIn(window, jobs)
    ensures IsFairChoice(jobs, window, cap, Fairness.KeptIds(Candidates(jobs, window), cap))
  {
    var cs := Candidates(jobs, window);
    var taken := Fairness.KeptIds(cs, cap);
    assert forall i | 0 <= i < |window| :: cs[i].id == window[i];
    forall c
      ensures |OfCarrier(jobs, taken, c)| == Min(cap, |OfCarrier(jobs, Elems(window), c)|)
    {
      KeptOfCarrier(jobs, window, cap, c);
      Fairness.CarrierQuota(cs, cap, c);
      Fairness.CountIsRows(cs, c);
      CandidatesOfCarrier(jobs, window, c);
    }
    forall i, j | 0 <= i < j < |window| && SameCarrier(jobs, window[i], window[j]) && window[j] in taken
      ensures window[i] in taken
    {
      Fairness.RanksGrow(cs, i, j);
      KeptById(jobs, window, cap, j);
    }
  }

  lemma KeptById(jobs: map<Id, Row>, window: seq<Id>, cap: nat, j: nat)
    requires NoDup(window) && AllIn(window, jobs) && j < |window|
    ensures window[j] in Fairness.KeptIds(Candidates(jobs, window), cap)
       <==> Fairness.RowNumber(Candidates(jobs, window), j) <= cap
  {
    var cs := Candidates(jobs, window);
    assert cs[j].id == window[j];
  }

  lemma KeptOfCarrier(jobs: map<Id, Row>, window: seq<Id>, cap: nat, c: Option<string>)
    requires NoDup(window) && AllIn(window, jobs)
    ensures var cs := Candidates(jobs, window);
            OfCarrier(jobs, Fairness.KeptIds(cs, cap), c) == Fairness.KeptOf(cs, cap, c)
  {
    var cs := Candidates(jobs, window);
    assert forall i | 0 <= i < |window| ::
        cs[i].id == window[i] && cs[i].carrierId == jobs[window[i]].payload.carrierId;
  }

  /** The choice depends on nothing but the carriers of the window's rows. */
  lemma FairChoiceFrame(jobs: map<Id, Row>, jobs': map<Id, Row>, window: seq<Id>, cap: nat, taken: set<Id>)
    requires AllIn(window, jobs) && forall x | x in window :: x in jobs' && jobs'[x] == jobs[x]
    requires IsFairChoice(jobs, window, cap, taken)
    ensures IsFairChoice(jobs', window, cap, taken)
  {
    forall c
      ensures OfCarrier(jobs', taken, c) == OfCarrier(jobs, taken, c)
      ensures OfCarrier(jobs', Elems(window), c) == OfCarrier(jobs, Elems(window), c)
    {
    }
  }
}
