/** The two claims as selections from one scan order, and what they owe to each other, to
    the carriers and to a waiting row. `locked` is the list of candidates that the inner
    select locked, in ranking order. */
module Fairness {
  import opened Schema
  import opened Queue

  /** A row of the `locked` table expression: id, run_at and payload->>'carrier_id'. */
  datatype Candidate = Candidate(id: Id, runAt: Time, carrierId: Option<string>)

  function CandidateOf(jobs: map<Id, Row>, id: Id): Candidate
    requires id in jobs
  {
    Candidate(id, jobs[id].runAt, jobs[id].payload.carrierId)
  }

  ghost function Ids(s: seq<Candidate>): set<Id> {
    set i | 0 <= i < |s| :: s[i].id
  }

  ghost predicate Distinct(s: seq<Candidate>) {
    forall i, j | 0 <= i < j < |s| :: s[i].id != s[j].id
  }

  ghost predicate ByRunAt(s: seq<Candidate>) {
    forall i, j | 0 <= i < j < |s| :: s[i].runAt <= s[j].runAt
  }

  /** LIMIT n. */
  function First<T>(s: seq<T>, n: nat): seq<T> {
    if n < |s| then s[..n] else s
  }

  function CountCarrier(s: seq<Candidate>, c: Option<string>): nat {
    if s == [] then 0 else CountCarrier(Front(s), c) + if Last(s).carrierId == c then 1 else 0
  }

  /** row_number() over (partition by carrier_id order by run_at). A missing carrier is a
      partition of its own. */
  function RowNumber(s: seq<Candidate>, i: nat): nat
    requires i < |s|
  {
    CountCarrier(s[..i], s[i].carrierId) + 1
  }

  /** The ids whose rank within their carrier is at most `cap`. */
  ghost function KeptIds(s: seq<Candidate>, cap: nat): set<Id> {
    set i | 0 <= i < |s| && RowNumber(s, i) <= cap :: s[i].id
  }

  ghost function BatchIds(order: seq<Candidate>, n: nat): set<Id> {
    Ids(First(order, n))
  }

  ghost function FairIds(order: seq<Candidate>, batch: nat, cap: nat): set<Id> {
    KeptIds(First(order, batch * 4), cap)
  }

  // ----- The sandwich

  lemma {:induction false} CountAtMostLength(s: seq<Candidate>, c: Option<string>)
    ensures CountCarrier(s, c) <= |s|
  {
    if s != [] {
      CountAtMostLength(Front(s), c);
    }
  }

  /** With one scan order, claim_batch(min(cap, 4*batch)) is contained in
      fair_claim(batch, cap), which is contained in claim_batch(4*batch), and equals it when
      the cap reaches the window. */
  lemma Sandwich(order: seq<Candidate>, batch: nat, cap: nat)
    ensures BatchIds(order, Min(cap, batch * 4)) <= FairIds(order, batch, cap) <= BatchIds(order, batch * 4)
    ensures cap >= batch * 4 ==> FairIds(order, batch, cap) == BatchIds(order, batch * 4)
  {
    var window := First(order, batch * 4);
    forall i | 0 <= i < |window| && i < cap
      ensures window[i].id in KeptIds(window, cap)
    {
      CountAtMostLength(window[..i], window[i].carrierId);
    }
    var small := First(order, Min(cap, batch * 4));
    assert forall i | 0 <= i < |small| :: i < |window| && small[i] == window[i] && i < cap;
  }

  // ----- Quotas

  ghost function KeptOf(s: seq<Candidate>, cap: nat, c: Option<string>): set<Id> {
    set i | 0 <= i < |s| && s[i].carrierId == c && RowNumber(s, i) <= cap :: s[i].id
  }

  lemma RowNumberOfFront(s: seq<Candidate>, i: nat)
    requires i < |s| - 1
    ensures RowNumber(Front(s), i) == RowNumber(s, i)
  {
    assert Front(s)[..i] == s[..i];
  }

  ghost predicate KeptAt(s: seq<Candidate>, cap: nat, c: Option<string>, i: nat)
    requires i < |s|
  {
    s[i].carrierId == c && RowNumber(s, i) <= cap
  }

  lemma KeptAtFront(s: seq<Candidate>, cap: nat, c: Option<string>)
    requires s != []
    ensures forall i | 0 <= i < |s| - 1 ::
              Front(s)[i] == s[i] && (KeptAt(Front(s), cap, c, i) <==> KeptAt(s, cap, c, i))
    ensures KeptAt(s, cap, c, |s| - 1) <==> Last(s).carrierId == c && CountCarrier(Front(s), c) < cap
  {
    forall i | 0 <= i < |s| - 1
      ensures Front(s)[i] == s[i] && (KeptAt(Front(s), cap, c, i) <==> KeptAt(s, cap, c, i))
    {
      RowNumberOfFront(s, i);
    }
    assert s[..|s| - 1] == Front(s);
  }

  lemma InKeptOf(s: seq<Candidate>, cap: nat, c: Option<string>, id: Id)
    ensures id in KeptOf(s, cap, c) <==> exists i :: 0 <= i < |s| && KeptAt(s, cap, c, i) && s[i].id == id
  {
    if id in KeptOf(s, cap, c) {
      var i :| 0 <= i < |s| && s[i].carrierId == c && RowNumber(s, i) <= cap && s[i].id == id;
      assert KeptAt(s, cap, c, i);
    }
  }

  lemma InKeptOfFront(s: seq<Candidate>, cap: nat, c: Option<string>, id: Id)
    requires s != []
    ensures id in KeptOf(s, cap, c) <==>
              id in KeptOf(Front(s), cap, c) || (KeptAt(s, cap, c, |s| - 1) && id == Last(s).id)
  {
    KeptAtFront(s, cap, c);
    InKeptOf(s, cap, c, id);
    InKeptOf(Front(s), cap, c, id);
    if id in KeptOf(Front(s), cap, c) {
      var i :| 0 <= i < |s| - 1 && KeptAt(Front(s), cap, c, i) && Front(s)[i].id == id;
      assert KeptAt(s, cap, c, i) && s[i].id == id;
    }
  }

  lemma KeptOfFront(s: seq<Candidate>, cap: nat, c: Option<string>)
    requires s != [] && Distinct(s)
    ensures KeptOf(s, cap, c) == KeptOf(Front(s), cap, c)
              + if Last(s).carrierId == c && CountCarrier(Front(s), c) < cap then {Last(s).id} else {}
    ensures Last(s).id !in KeptOf(Front(s), cap, c)
  {
    KeptAtFront(s, cap, c);
    forall id
      ensures id in KeptOf(s, cap, c) <==>
                id in KeptOf(Front(s), cap, c) || (KeptAt(s, cap, c, |s| - 1) && id == Last(s).id)
    {
      InKeptOfFront(s, cap, c, id);
    }
    InKeptOf(Front(s), cap, c, Last(s).id);
  }

  /** Every carrier gets exactly min(cap, its rows in the window). */
  lemma {:induction false} CarrierQuota(s: seq<Candidate>, cap: nat, c: Option<string>)
    requires Distinct(s)
    ensures |KeptOf(s, cap, c)| == Min(cap, CountCarrier(s, c))
  {
    if s != [] {
      CarrierQuota(Front(s), cap, c);
      KeptOfFront(s, cap, c);
    }
  }

  lemma {:induction false} CountGrows(s: seq<Candidate>, i: nat, c: Option<string>)
    requires i <= |s|
    ensures CountCarrier(s[..i], c) <= CountCarrier(s, c)
  {
    if i == |s| {
      assert s[..i] == s;
    } else {
      CountGrows(Front(s), i, c);
      assert Front(s)[..i] == s[..i];
    }
  }

  /** Ranks within a carrier grow along the window. */
  lemma RanksGrow(s: seq<Candidate>, i: nat, j: nat)
    requires i < j < |s| && s[i].carrierId == s[j].carrierId
    ensures RowNumber(s, i) < RowNumber(s, j)
  {
    CountGrows(s[..j], i + 1, s[i].carrierId);
    assert s[..j][..i + 1] == s[..i + 1] && Front(s[..i + 1]) == s[..i];
  }

  // ----- What a fair claim owes the carriers

  /** The window: LIMIT batch * 4. */
  function Window(order: seq<Candidate>, batch: nat): seq<Candidate> {
    order[..Min(|order|, 4 * batch)]
  }

  ghost function RowsOf(s: seq<Candidate>, c: Option<string>): set<nat> {
    set i | 0 <= i < |s| && s[i].carrierId == c
  }

  lemma {:induction false} CountIsRows(s: seq<Candidate>, c: Option<string>)
    ensures CountCarrier(s, c) == |RowsOf(s, c)|
  {
    if s != [] {
      CountIsRows(Front(s), c);
      var n := |s| - 1;
      assert RowsOf(s, c) == RowsOf(Front(s), c) + if Last(s).carrierId == c then {n} else {};
      assert n !in RowsOf(Front(s), c);
    }
  }

  lemma WindowIsFirst(order: seq<Candidate>, batch: nat)
    ensures Window(order, batch) == First(order, batch * 4)
  {
  }

  lemma InFairIds(order: seq<Candidate>, batch: nat, cap: nat, i: nat)
    requires Distinct(order) && i < |Window(order, batch)|
    ensures order[i].id in FairIds(order, batch, cap) <==> RowNumber(Window(order, batch), i) <= cap
  {
    WindowIsFirst(order, batch);
  }

  /** Every carrier, the missing one included, gets exactly min(cap, its rows in the
      window) of the rows that a fair claim takes. */
  lemma FairQuota(order: seq<Candidate>, batch: nat, cap: nat, c: Option<string>)
    requires Distinct(order)
    ensures var window := Window(order, batch);
            var taken := set i | 0 <= i < |window| && window[i].carrierId == c
                                 && window[i].id in FairIds(order, batch, cap);
            |taken| == Min(cap, |set i | 0 <= i < |window| && window[i].carrierId == c|)
  {
    var window := Window(order, batch);
    var taken := set i | 0 <= i < |window| && window[i].carrierId == c && window[i].id in FairIds(order, batch, cap);
    CarrierQuota(window, cap, c);
    CountIsRows(window, c);
    assert RowsOf(window, c) == set i | 0 <= i < |window| && window[i].carrierId == c;
    forall i | 0 <= i < |window|
      ensures i in taken <==> window[i].carrierId == c && RowNumber(window, i) <= cap
    {
      InFairIds(order, batch, cap, i);
    }
    assert KeptOf(window, cap, c) == set i | i in taken :: window[i].id;
    SameSize(window, taken);
  }

  /** So nothing that a fair claim leaves behind in its window is older than a row of the same
      carrier that it takes. */
  lemma OldestOfCarrierKept(order: seq<Candidate>, batch: nat, cap: nat, i: nat, j: nat)
    requires Distinct(order) && ByRunAt(order) && i < Min(|order|, 4 * batch) && j < |order|
    requires order[i].carrierId == order[j].carrierId
    requires order[j].id in FairIds(order, batch, cap) && order[i].id !in FairIds(order, batch, cap)
    ensures j < i && order[j].runAt <= order[i].runAt
  {
    var window := Window(order, batch);
    FairTakesOldest(order, batch, cap);
    TakenIsInWindow(order, batch, cap, j);
    assert window[i] == order[i] && window[j] == order[j];
  }

  lemma TakenIsInWindow(order: seq<Candidate>, batch: nat, cap: nat, j: nat)
    requires Distinct(order) && j < |order| && order[j].id in FairIds(order, batch, cap)
    ensures j < Min(|order|, 4 * batch)
  {
    var window := Window(order, batch);
    FairTakesOldest(order, batch, cap);
    var q :| 0 <= q < |window| && window[q].id == order[j].id;
    assert order[q].id == order[j].id;
  }

  lemma {:induction false} SameSize(s: seq<Candidate>, places: set<nat>)
    requires Distinct(s) && forall i | i in places :: i < |s|
    ensures |set i | i in places :: s[i].id| == |places|
  {
    if places != {} {
      var k :| k in places;
      SameSize(s, places - {k});
      assert (set i | i in places :: s[i].id) == (set i | i in places - {k} :: s[i].id) + {s[k].id};
      assert s[k].id !in set i | i in places - {k} :: s[i].id;
    }
  }

  /** And they are its oldest ones: with a row of the window every earlier row of the same
      carrier is taken. Nothing outside the window is. */
  lemma FairTakesOldest(order: seq<Candidate>, batch: nat, cap: nat)
    requires Distinct(order)
    ensures var window := Window(order, batch);
            && FairIds(order, batch, cap) <= Ids(window)
            && forall i, j | 0 <= i < j < |window| && window[i].carrierId == window[j].carrierId ::
                 window[j].id in FairIds(order, batch, cap) ==> window[i].id in FairIds(order, batch, cap)
  {
    var window := Window(order, batch);
    WindowIsFirst(order, batch);
    forall i, j | 0 <= i < j < |window| && window[i].carrierId == window[j].carrierId
                  && window[j].id in FairIds(order, batch, cap)
      ensures window[i].id in FairIds(order, batch, cap)
    {
      InFairIds(order, batch, cap, i);
      InFairIds(order, batch, cap, j);
      RanksGrow(window, i, j);
    }
  }

  // ----- Size

  ghost function Carriers(s: seq<Candidate>): set<Option<string>> {
    set i | 0 <= i < |s| :: s[i].carrierId
  }

  ghost function KeptAmong(s: seq<Candidate>, cap: nat, cs: set<Option<string>>): set<Id> {
    set i | 0 <= i < |s| && s[i].carrierId in cs && RowNumber(s, i) <= cap :: s[i].id
  }

  ghost function OneOf(cs: set<Option<string>>): Option<string>
    requires cs != {}
  {
    var c :| c in cs; c
  }

  /** The sum over the carriers in `cs` of min(cap, rows of the carrier). */
  ghost function Quotas(s: seq<Candidate>, cap: nat, cs: set<Option<string>>): nat {
    if cs == {} then 0
    else Min(cap, CountCarrier(s, OneOf(cs))) + Quotas(s, cap, cs - {OneOf(cs)})
  }

  /** The sum does not depend on the order in which carriers are taken. */
  lemma {:induction false} QuotasSplit(s: seq<Candidate>, cap: nat, cs: set<Option<string>>, c: Option<string>)
    requires c in cs
    ensures Quotas(s, cap, cs) == Min(cap, CountCarrier(s, c)) + Quotas(s, cap, cs - {c})
    decreases cs
  {
    var d := OneOf(cs);
    if c != d {
      QuotasSplit(s, cap, cs - {d}, c);
      QuotasSplit(s, cap, cs - {c}, d);
      assert cs - {d} - {c} == cs - {c} - {d};
    }
  }

  lemma {:induction false} QuotasBound(s: seq<Candidate>, cap: nat, cs: set<Option<string>>)
    ensures Quotas(s, cap, cs) <= cap * |cs|
    decreases cs
  {
    if cs != {} {
      QuotasBound(s, cap, cs - {OneOf(cs)});
      assert cap * |cs| == cap * |cs - {OneOf(cs)}| + cap;
    }
  }

  lemma {:induction false} KeptAmongSize(s: seq<Candidate>, cap: nat, cs: set<Option<string>>)
    requires Distinct(s)
    ensures |KeptAmong(s, cap, cs)| == Quotas(s, cap, cs)
    decreases cs
  {
    if cs == {} {
      assert KeptAmong(s, cap, cs) == {};
    } else {
      var c := OneOf(cs);
      KeptAmongSize(s, cap, cs - {c});
      CarrierQuota(s, cap, c);
      KeptAmongSplit(s, cap, cs, c);
    }
  }

  lemma KeptAmongSplit(s: seq<Candidate>, cap: nat, cs: set<Option<string>>, c: Option<string>)
    requires Distinct(s) && c in cs
    ensures |KeptAmong(s, cap, cs)| == |KeptAmong(s, cap, cs - {c})| + |KeptOf(s, cap, c)|
  {
    assert KeptAmong(s, cap, cs) == KeptAmong(s, cap, cs - {c}) + KeptOf(s, cap, c);
    assert KeptAmong(s, cap, cs - {c}) !! KeptOf(s, cap, c);
  }

  lemma {:induction false} IdsSize(s: seq<Candidate>)
    requires Distinct(s)
    ensures |Ids(s)| == |s|
  {
    if s != [] {
      DistinctFront(s);
      IdsSize(Front(s));
    }
  }

  /** The exact size of a fair claim: over the carriers in its window, the sum of
      min(cap, rows of the carrier); so at most the window and at most `cap` per carrier. */
  lemma FairSize(order: seq<Candidate>, batch: nat, cap: nat)
    requires Distinct(order)
    ensures var window := First(order, batch * 4);
            && |FairIds(order, batch, cap)| == Quotas(window, cap, Carriers(window))
            && |FairIds(order, batch, cap)| <= Min(batch * 4, cap * |Carriers(window)|)
  {
    var window := First(order, batch * 4);
    IdsSize(window);
    SubsetSize(KeptIds(window, cap), Ids(window));
    KeptAmongSize(window, cap, Carriers(window));
    QuotasBound(window, cap, Carriers(window));
    assert KeptIds(window, cap) == KeptAmong(window, cap, Carriers(window));
  }

  /** The same sum over a list of the carriers. */
  ghost function QuotaSum(s: seq<Candidate>, cap: nat, cs: seq<Option<string>>): nat {
    if cs == [] then 0 else QuotaSum(s, cap, Front(cs)) + Min(cap, CountCarrier(s, Last(cs)))
  }

  lemma {:induction false} QuotasOfList(s: seq<Candidate>, cap: nat, cs: seq<Option<string>>)
    requires forall i, j | 0 <= i < j < |cs| :: cs[i] != cs[j]
    ensures Quotas(s, cap, set c | c in cs) == QuotaSum(s, cap, cs)
  {
    if cs != [] {
      QuotasOfList(s, cap, Front(cs));
      QuotasSplit(s, cap, (set c | c in cs), Last(cs));
      assert cs == Front(cs) + [Last(cs)];
      assert (set c | c in cs) - {Last(cs)} == set c | c in Front(cs);
    }
  }

  /** In whatever order the carriers of the window are listed, the size of a fair claim is
      the sum of their quotas. */
  lemma FairSizeIsQuotaSum(order: seq<Candidate>, batch: nat, cap: nat, carriers: seq<Option<string>>)
    requires Distinct(order) && forall i, j | 0 <= i < j < |carriers| :: carriers[i] != carriers[j]
    requires (set c | c in carriers) == Carriers(First(order, batch * 4))
    ensures |FairIds(order, batch, cap)| == QuotaSum(First(order, batch * 4), cap, carriers)
  {
    FairSize(order, batch, cap);
    QuotasOfList(First(order, batch * 4), cap, carriers);
  }

  lemma {:induction false} SubsetSize<T>(a: set<T>, b: set<T>)
    requires a <= b
    ensures |a| <= |b|
  {
    if a != {} {
      var x :| x in a;
      SubsetSize(a - {x}, b - {x});
    }
  }

  /** A backlog whose window has at most `carriers` carriers. */
  ghost predicate Backlog(order: seq<Candidate>, batch: nat, carriers: nat) {
    Distinct(order) && ByRunAt(order) && |Carriers(First(order, batch * 4))| <= carriers
  }

  /** `batch` is not a bound on the rows of a fair claim. With at most `carriers` carriers
      about it is one exactly when nothing is asked for or the caps add up to no more. */
  lemma FairStaysWithinBatchExactlyWhen(batch: nat, cap: nat, carriers: nat)
    ensures (forall order | Backlog(order, batch, carriers) :: |FairIds(order, batch, cap)| <= batch)
       <==> batch == 0 || cap * carriers <= batch
  {
    if batch == 0 || cap * carriers <= batch {
      forall order | Backlog(order, batch, carriers)
        ensures |FairIds(order, batch, cap)| <= batch
      {
        FairSize(order, batch, cap);
        ProductGrows(cap, |Carriers(First(order, batch * 4))|, carriers);
      }
    } else {
      var order := Blocks(batch + 1, cap);
      BlocksAreKept(batch + 1, cap, cap);
      BlocksAreBacklog(batch, cap, carriers);
      IdsSize(order);
      assert First(order, batch * 4) == order;
    }
  }

  /** So, with no bound on the carriers, only when it claims nothing at all. */
  lemma FairStaysWithinBatchForAllExactlyWhen(batch: nat, cap: nat)
    ensures (forall order | Distinct(order) && ByRunAt(order) :: |FairIds(order, batch, cap)| <= batch)
       <==> batch == 0 || cap == 0
  {
    if batch == 0 || cap == 0 {
      forall order | Distinct(order) && ByRunAt(order)
        ensures |FairIds(order, batch, cap)| <= batch
      {
        FairSize(order, batch, cap);
        NothingTimes(batch, cap, |Carriers(First(order, batch * 4))|);
      }
    } else {
      AtLeastOnce(cap, batch + 1);
      FairStaysWithinBatchExactlyWhen(batch, cap, batch + 1);
      var order :| Backlog(order, batch, batch + 1) && |FairIds(order, batch, cap)| > batch;
    }
  }

  lemma NothingTimes(batch: nat, cap: nat, n: nat)
    requires batch == 0 || cap == 0
    ensures Min(batch * 4, cap * n) <= batch
  {
  }

  lemma AtLeastOnce(cap: nat, n: nat)
    requires cap >= 1
    ensures cap * n >= n
  {
  }

  lemma ProductGrows(a: nat, b: nat, c: nat)
    requires b <= c
    ensures a * b <= a * c
  {
  }

  /** A full window of as many carriers as rows is claimed whole, four times `batch`. */
  lemma FairClaimExceedsBatch(order: seq<Candidate>, batch: nat, cap: nat)
    requires batch >= 1 && cap >= 1 && |order| >= batch * 4 && Distinct(order)
    requires forall i, j | 0 <= i < j < batch * 4 :: order[i].carrierId != order[j].carrierId
    ensures |FairIds(order, batch, cap)| == batch * 4 > batch
  {
    var window := First(order, batch * 4);
    assert window == order[..batch * 4];
    forall i | 0 <= i < |window|
      ensures RowNumber(window, i) == 1
    {
      NoneOfCarrier(window[..i], window[i].carrierId);
    }
    IdsSize(window);
    assert KeptIds(window, cap) == Ids(window);
  }

  lemma {:induction false} NoneOfCarrier(s: seq<Candidate>, c: Option<string>)
    requires forall x | x in s :: x.carrierId != c
    ensures CountCarrier(s, c) == 0
  {
    if s != [] {
      NoneOfCarrier(Front(s), c);
    }
  }

  /** Carrier number k, as an id of its own. */
  function CarrierNo(k: nat): Option<string> {
    Some(seq(k, _ => 'x'))
  }

  /** n rows, `cap` of carrier 0, then `cap` of carrier 1, and so on. */
  function Blocks(n: nat, cap: nat): seq<Candidate>
    requires cap > 0
  {
    seq(n, i requires 0 <= i < n => Candidate(i, 0, CarrierNo(i / cap)))
  }

  lemma {:induction false} CountInBlock(n: nat, cap: nat, k: nat)
    requires cap > 0
    ensures CountCarrier(Blocks(n, cap), CarrierNo(k)) == Min(cap, Max(0, n - k * cap))
  {
    if n > 0 {
      CountInBlock(n - 1, cap, k);
      assert Front(Blocks(n, cap)) == Blocks(n - 1, cap);
      InBlock(n - 1, cap, k);
    }
  }

  lemma InBlock(i: nat, cap: nat, k: nat)
    requires cap > 0
    ensures CarrierNo(i / cap) == CarrierNo(k) <==> k * cap <= i < k * cap + cap
  {
    assert |CarrierNo(i / cap).value| == i / cap && |CarrierNo(k).value| == k;
    QuotientIs(i, cap, k);
  }

  lemma QuotientIs(n: nat, m: nat, k: nat)
    requires m > 0
    ensures n / m == k <==> k * m <= n < k * m + m
  {
    assert n == (n / m) * m + n % m;
    if n / m < k {
      ProductGrows(m, n / m + 1, k);
      assert m * (n / m + 1) == (n / m) * m + m && m * k == k * m;
    } else if n / m > k {
      ProductGrows(m, k + 1, n / m);
      assert m * (k + 1) == k * m + m && m * (n / m) == (n / m) * m;
    }
  }

  lemma BlocksAreKept(n: nat, cap: nat, most: nat)
    requires cap > 0 && most >= cap
    ensures KeptIds(Blocks(n, cap), most) == Ids(Blocks(n, cap)) && Distinct(Blocks(n, cap))
  {
    var s := Blocks(n, cap);
    forall i | 0 <= i < n
      ensures RowNumber(s, i) <= cap
    {
      assert s[..i] == Blocks(i, cap);
      CountInBlock(i, cap, i / cap);
      QuotientIs(i, cap, i / cap);
    }
  }

  lemma BlocksAreBacklog(batch: nat, cap: nat, carriers: nat)
    requires batch >= 1 && cap * carriers > batch
    ensures Backlog(Blocks(batch + 1, cap), batch, carriers)
  {
    var s := Blocks(batch + 1, cap);
    assert First(s, batch * 4) == s;
    forall i | 0 <= i < |s|
      ensures s[i].carrierId in CarrierNos(carriers)
    {
      QuotientIs(i, cap, i / cap);
      if i / cap >= carriers {
        ProductGrows(cap, carriers, i / cap);
      }
      CarrierNosHave(carriers, i / cap);
    }
    CarrierNosHave(carriers, 0);
    SubsetSize(Carriers(s), CarrierNos(carriers));
  }

  ghost function CarrierNos(n: nat): set<Option<string>> {
    if n == 0 then {} else CarrierNos(n - 1) + {CarrierNo(n - 1)}
  }

  lemma {:induction false} CarrierNosHave(n: nat, k: nat)
    ensures |CarrierNos(n)| <= n && (k < n ==> CarrierNo(k) in CarrierNos(n))
  {
    if n > 0 {
      CarrierNosHave(n - 1, k);
    }
  }

  // ----- Bounded waiting

  /** Rows surely served by one round, however the carriers are mixed. */
  function Progress(batch: nat, cap: nat): nat {
    Min(cap, batch * 4)
  }

  function IndexOf(s: seq<Candidate>, id: Id): (p: nat)
    ensures p <= |s|
    ensures forall j | 0 <= j < p :: s[j].id != id
    ensures p < |s| ==> s[p].id == id
  {
    if s == [] || s[0].id == id then 0 else IndexOf(s[1..], id) + 1
  }

  ghost function Ahead(order: seq<Candidate>, id: Id): set<Id> {
    Ids(order[..IndexOf(order, id)])
  }

  lemma AheadSize(order: seq<Candidate>, k: nat)
    requires Distinct(order) && k < |order|
    ensures order[k].id in Ids(order) && |Ahead(order, order[k].id)| == k
  {
    IdsSize(order[..k]);
    assert IndexOf(order, order[k].id) == k;
  }

  /** A round claims the row, or at least Progress rows ahead of it. */
  lemma RoundServes(order: seq<Candidate>, id: Id, batch: nat, cap: nat)
    requires Distinct(order) && id in Ids(order)
    ensures id in FairIds(order, batch, cap)
            || |Ahead(order, id) - FairIds(order, batch, cap)| <= |Ahead(order, id)| - Progress(batch, cap)
  {
    var p, m := IndexOf(order, id), Progress(batch, cap);
    Sandwich(order, batch, cap);
    if p < m {
      assert order[p] == First(order, m)[p];
    } else {
      var served := Ids(order[..m]);
      IdsSize(order[..m]);
      assert First(order, m) == order[..m];
      assert forall i | 0 <= i < m :: order[..p][i] == order[..m][i];
      assert served <= Ahead(order, id);
      SubsetSize(Ahead(order, id) - FairIds(order, batch, cap), Ahead(order, id) - served);
    }
  }

  /** Still waiting when round r begins. */
  ghost predicate Unclaimed(rounds: seq<seq<Candidate>>, id: Id, batch: nat, cap: nat, r: nat)
    requires r <= |rounds|
  {
    forall q | 0 <= q < r :: id !in FairIds(rounds[q], batch, cap)
  }

  /** Consecutive rounds as seen by one waiting row: as long as it is not claimed it stays
      eligible, and only rows that were ahead before and were not claimed are still ahead.
      Rows may come and go behind it, and ties may be broken anew. */
  ghost predicate Waits(rounds: seq<seq<Candidate>>, id: Id, batch: nat, cap: nat) {
    forall r | 0 <= r < |rounds| && Unclaimed(rounds, id, batch, cap, r) ::
      && Distinct(rounds[r]) && id in Ids(rounds[r])
      && (r > 0 ==> Ahead(rounds[r], id) <= Ahead(rounds[r - 1], id) - FairIds(rounds[r - 1], batch, cap))
  }

  lemma {:induction false} AheadShrinks(rounds: seq<seq<Candidate>>, id: Id, batch: nat, cap: nat, r: nat)
    requires Waits(rounds, id, batch, cap) && r < |rounds| && Unclaimed(rounds, id, batch, cap, r)
    ensures |Ahead(rounds[r], id)| <= |Ahead(rounds[0], id)| - r * Progress(batch, cap)
  {
    if r > 0 {
      assert Unclaimed(rounds, id, batch, cap, r - 1);
      AheadShrinks(rounds, id, batch, cap, r - 1);
      RoundServes(rounds[r - 1], id, batch, cap);
      SubsetSize(Ahead(rounds[r], id), Ahead(rounds[r - 1], id) - FairIds(rounds[r - 1], batch, cap));
      OneMoreTime(r, Progress(batch, cap));
    }
  }

  /** Bounded waiting: with k eligible rows ahead, a row is claimed within
      floor(k / min(cap, 4*batch)) + 1 rounds. */
  lemma BoundedWaiting(rounds: seq<seq<Candidate>>, id: Id, batch: nat, cap: nat, k: nat)
    requires batch >= 1 && cap >= 1
    requires |rounds| == k / Progress(batch, cap) + 1
    requires Waits(rounds, id, batch, cap) && |Ahead(rounds[0], id)| == k
    ensures exists r :: 0 <= r < |rounds| && id in FairIds(rounds[r], batch, cap)
  {
    var last := |rounds| - 1;
    if Unclaimed(rounds, id, batch, cap, last) {
      AheadShrinks(rounds, id, batch, cap, last);
      RoundServes(rounds[last], id, batch, cap);
      DivisionLeavesLess(k, Progress(batch, cap));
    }
  }

  lemma OneMoreTime(r: nat, m: nat)
    requires r > 0
    ensures r * m == (r - 1) * m + m
  {
  }

  lemma DivisionLeavesLess(k: nat, m: nat)
    requires m > 0
    ensures k - (k / m) * m < m
  {
  }

  // ----- Draining a backlog

  /** The scan order with the ids in `gone` removed. */
  ghost function Without(s: seq<Candidate>, gone: set<Id>): seq<Candidate> {
    if s == [] then [] else Without(Front(s), gone) + if Last(s).id in gone then [] else [Last(s)]
  }

  lemma IdsOfAppend(s: seq<Candidate>, x: Candidate)
    ensures Ids(s + [x]) == Ids(s) + {x.id}
  {
    var t := s + [x];
    assert forall i | 0 <= i < |s| :: t[i] == s[i];
    assert t[|s|] == x;
    forall id | id in Ids(s)
      ensures id in Ids(t)
    {
      var i :| 0 <= i < |s| && s[i].id == id;
      assert t[i].id == id;
    }
  }

  lemma DistinctFront(s: seq<Candidate>)
    requires s != [] && Distinct(s)
    ensures Distinct(Front(s)) && Last(s).id !in Ids(Front(s)) && Ids(s) == Ids(Front(s)) + {Last(s).id}
  {
  }

  lemma DistinctAppend(s: seq<Candidate>, x: Candidate)
    requires Distinct(s) && x.id !in Ids(s)
    ensures Distinct(s + [x])
  {
  }

  lemma {:induction false} WithoutKeeps(s: seq<Candidate>, gone: set<Id>)
    requires Distinct(s)
    ensures Ids(Without(s, gone)) == Ids(s) - gone && Distinct(Without(s, gone))
  {
    if s != [] {
      var front := Without(Front(s), gone);
      DistinctFront(s);
      WithoutKeeps(Front(s), gone);
      if Last(s).id in gone {
        assert front + [] == front;
      } else {
        IdsOfAppend(front, Last(s));
        DistinctAppend(front, Last(s));
      }
    }
  }

  lemma {:induction false} WithoutIsPart(s: seq<Candidate>, gone: set<Id>)
    ensures forall x | x in Without(s, gone) :: x in s
  {
    if s != [] {
      WithoutIsPart(Front(s), gone);
    }
  }

  lemma {:induction false} WithoutIsSorted(s: seq<Candidate>, gone: set<Id>)
    requires ByRunAt(s)
    ensures ByRunAt(Without(s, gone))
  {
    if s != [] {
      var front := Without(Front(s), gone);
      WithoutIsSorted(Front(s), gone);
      WithoutIsPart(Front(s), gone);
      assert forall i | 0 <= i < |front| :: front[i] in Front(s);
    }
  }

  /** What is left of a fixed backlog after `r` solo rounds. */
  ghost function AfterRounds(order: seq<Candidate>, batch: nat, cap: nat, r: nat): seq<Candidate> {
    if r == 0 then order
    else var left := AfterRounds(order, batch, cap, r - 1); Without(left, FairIds(left, batch, cap))
  }

  lemma {:induction false} BacklogStaysDistinct(order: seq<Candidate>, batch: nat, cap: nat, r: nat)
    requires Distinct(order)
    ensures Distinct(AfterRounds(order, batch, cap, r))
  {
    if r > 0 {
      BacklogStaysDistinct(order, batch, cap, r - 1);
      var left := AfterRounds(order, batch, cap, r - 1);
      WithoutKeeps(left, FairIds(left, batch, cap));
    }
  }

  /** `y` comes before `id`. */
  ghost predicate Precedes(s: seq<Candidate>, y: Id, id: Id) {
    exists i, j :: 0 <= i < j < |s| && s[i].id == y && s[j].id == id
  }

  lemma AheadIsPrecedes(s: seq<Candidate>, id: Id)
    requires Distinct(s) && id in Ids(s)
    ensures forall y :: y in Ahead(s, id) <==> Precedes(s, y, id)
  {
    var p := IndexOf(s, id);
    forall y
      ensures y in Ahead(s, id) <==> Precedes(s, y, id)
    {
      if y in Ahead(s, id) {
        var i :| 0 <= i < p && s[..p][i].id == y;
        assert s[i].id == y && s[p].id == id;
      }
      if Precedes(s, y, id) {
        var i, j :| 0 <= i < j < |s| && s[i].id == y && s[j].id == id;
        assert s[..p][i].id == y;
      }
    }
  }

  /** Removing rows keeps the order of the others. */
  lemma {:induction false} WithoutKeepsOrder(s: seq<Candidate>, gone: set<Id>, y: Id, id: Id)
    requires Distinct(s) && Precedes(Without(s, gone), y, id)
    ensures Precedes(s, y, id) && y !in gone
  {
    var front := Without(Front(s), gone);
    var i, j :| 0 <= i < j < |Without(s, gone)| && Without(s, gone)[i].id == y && Without(s, gone)[j].id == id;
    WithoutKeeps(Front(s), gone);
    if j < |front| {
      assert front[i].id == y && front[j].id == id;
      WithoutKeepsOrder(Front(s), gone, y, id);
      var k, l :| 0 <= k < l < |Front(s)| && Front(s)[k].id == y && Front(s)[l].id == id;
      assert s[k].id == y && s[l].id == id;
    } else {
      assert front[i].id == y && y in Ids(front);
      var k :| 0 <= k < |Front(s)| && Front(s)[k].id == y;
      assert s[k].id == y && s[|s| - 1].id == id;
    }
  }

  lemma AheadWithout(s: seq<Candidate>, gone: set<Id>, id: Id)
    requires Distinct(s) && id in Ids(s) && id !in gone
    ensures id in Ids(Without(s, gone)) && Ahead(Without(s, gone), id) <= Ahead(s, id) - gone
  {
    WithoutKeeps(s, gone);
    AheadIsPrecedes(s, id);
    AheadIsPrecedes(Without(s, gone), id);
    forall y | y in Ahead(Without(s, gone), id)
      ensures y in Ahead(s, id) - gone
    {
      WithoutKeepsOrder(s, gone, y, id);
    }
  }

  ghost function BacklogRounds(order: seq<Candidate>, batch: nat, cap: nat, n: nat): seq<seq<Candidate>> {
    seq(n, r requires 0 <= r < n => AfterRounds(order, batch, cap, r))
  }

  lemma {:induction false} StaysUntilClaimed(order: seq<Candidate>, id: Id, batch: nat, cap: nat, n: nat, r: nat)
    requires Distinct(order) && id in Ids(order) && r < n
    requires Unclaimed(BacklogRounds(order, batch, cap, n), id, batch, cap, r)
    ensures id in Ids(AfterRounds(order, batch, cap, r))
    ensures r > 0 ==> var left := AfterRounds(order, batch, cap, r - 1);
                      Ahead(AfterRounds(order, batch, cap, r), id) <= Ahead(left, id) - FairIds(left, batch, cap)
  {
    if r > 0 {
      var rounds, left := BacklogRounds(order, batch, cap, n), AfterRounds(order, batch, cap, r - 1);
      assert id !in FairIds(rounds[r - 1], batch, cap) && rounds[r - 1] == left;
      assert Unclaimed(rounds, id, batch, cap, r - 1);
      StaysUntilClaimed(order, id, batch, cap, n, r - 1);
      BacklogStaysDistinct(order, batch, cap, r - 1);
      AheadWithout(left, FairIds(left, batch, cap), id);
    }
  }

  /** Bounded waiting in a fixed backlog: a row with k rows ahead of it is claimed within
      floor(k / min(cap, 4*batch)) + 1 rounds. */
  lemma BacklogBoundedWaiting(order: seq<Candidate>, id: Id, batch: nat, cap: nat, k: nat) returns (r: nat)
    requires batch >= 1 && cap >= 1
    requires Distinct(order) && id in Ids(order) && |Ahead(order, id)| == k
    ensures r < k / Progress(batch, cap) + 1 && id in FairIds(AfterRounds(order, batch, cap, r), batch, cap)
  {
    var n := k / Progress(batch, cap) + 1;
    var rounds := BacklogRounds(order, batch, cap, n);
    forall q | 0 <= q < n && Unclaimed(rounds, id, batch, cap, q)
      ensures Distinct(rounds[q]) && id in Ids(rounds[q])
      ensures q > 0 ==> Ahead(rounds[q], id) <= Ahead(rounds[q - 1], id) - FairIds(rounds[q - 1], batch, cap)
    {
      StaysUntilClaimed(order, id, batch, cap, n, q);
      BacklogStaysDistinct(order, batch, cap, q);
    }
    assert rounds[0] == order;
    BoundedWaiting(rounds, id, batch, cap, k);
    r :| 0 <= r < n && id in FairIds(rounds[r], batch, cap);
  }

  /** A round leaves nothing, or takes at least Progress rows. */
  lemma RoundTakes(left: seq<Candidate>, batch: nat, cap: nat)
    requires Distinct(left)
    ensures |Without(left, FairIds(left, batch, cap))| <= |left| - Min(Progress(batch, cap), |left|)
    ensures Distinct(Without(left, FairIds(left, batch, cap)))
  {
    var claimed, served := FairIds(left, batch, cap), First(left, Progress(batch, cap));
    WithoutKeeps(left, claimed);
    IdsSize(Without(left, claimed));
    Sandwich(left, batch, cap);
    FirstIsPart(left, Progress(batch, cap));
    IdsSize(left);
    SizeOfDifference(Ids(left), Ids(served));
    SubsetSize(Ids(left) - claimed, Ids(left) - Ids(served));
  }

  lemma {:induction false} RoundsDrain(order: seq<Candidate>, batch: nat, cap: nat, r: nat, m: nat)
    requires Distinct(order) && m == Progress(batch, cap)
    ensures Distinct(AfterRounds(order, batch, cap, r))
    ensures |AfterRounds(order, batch, cap, r)| <= Max(0, |order| - r * m)
  {
    if r > 0 {
      RoundsDrain(order, batch, cap, r - 1, m);
      RoundTakes(AfterRounds(order, batch, cap, r - 1), batch, cap);
      OneMoreTime(r, m);
    }
  }

  function Max(a: int, b: int): int {
    if a < b then b else a
  }

  function CeilDiv(n: nat, m: nat): nat
    requires m > 0
  {
    (n + m - 1) / m
  }

  lemma CeilDivCovers(n: nat, m: nat)
    requires m > 0
    ensures CeilDiv(n, m) * m >= n
  {
  }

  /** A backlog of n rows drains in at most ceil(n / min(cap, 4*batch)) rounds whatever the
      carrier mix. */
  lemma DrainBound(order: seq<Candidate>, batch: nat, cap: nat)
    requires Distinct(order) && batch >= 1 && cap >= 1
    ensures AfterRounds(order, batch, cap, CeilDiv(|order|, Progress(batch, cap))) == []
  {
    RoundsDrain(order, batch, cap, CeilDiv(|order|, Progress(batch, cap)), Progress(batch, cap));
    CeilDivCovers(|order|, Progress(batch, cap));
  }

  // ----- The bound is attained

  ghost predicate OneCarrier(s: seq<Candidate>, c: Option<string>) {
    forall x | x in s :: x.carrierId == c
  }

  lemma {:induction false} CountAll(s: seq<Candidate>, c: Option<string>)
    requires OneCarrier(s, c)
    ensures CountCarrier(s, c) == |s|
  {
    if s != [] {
      CountAll(Front(s), c);
    }
  }

  /** A backlog of one carrier: a fair claim takes its first min(cap, 4*batch) rows. */
  lemma FloodServesExactly(order: seq<Candidate>, batch: nat, cap: nat, c: Option<string>)
    requires OneCarrier(order, c)
    ensures FairIds(order, batch, cap) == Ids(First(order, Progress(batch, cap)))
  {
    var window, served := First(order, batch * 4), First(order, Progress(batch, cap));
    forall i | 0 <= i < |window|
      ensures RowNumber(window, i) == i + 1 && window[i] == order[i]
    {
      CountAll(window[..i], c);
    }
    forall id | id in FairIds(order, batch, cap)
      ensures id in Ids(served)
    {
      var i :| 0 <= i < |window| && RowNumber(window, i) <= cap && window[i].id == id;
      assert served[i] == window[i];
    }
    Sandwich(order, batch, cap);
  }

  lemma FloodRound(left: seq<Candidate>, batch: nat, cap: nat, c: Option<string>)
    requires Distinct(left) && OneCarrier(left, c)
    ensures var next := Without(left, FairIds(left, batch, cap));
            Distinct(next) && OneCarrier(next, c) && |next| == Max(0, |left| - Progress(batch, cap))
  {
    var claimed, served := FairIds(left, batch, cap), First(left, Progress(batch, cap));
    FloodServesExactly(left, batch, cap, c);
    WithoutKeeps(left, claimed);
    WithoutIsPart(left, claimed);
    FirstIsPart(left, Progress(batch, cap));
    IdsSize(Without(left, claimed));
    IdsSize(left);
    SizeOfDifference(Ids(left), Ids(served));
  }

  lemma SizeOfDifference<T>(a: set<T>, b: set<T>)
    requires b <= a
    ensures |a - b| == |a| - |b|
  {
  }

  lemma FirstIsPart(s: seq<Candidate>, n: nat)
    requires Distinct(s)
    ensures Ids(First(s, n)) <= Ids(s) && |Ids(First(s, n))| == Min(n, |s|)
  {
    IdsSize(First(s, n));
  }

  /** So a flood from one carrier drains no faster than the bound: until r rounds of
      min(cap, 4*batch) rows cover it, something is left. */
  lemma DrainBoundIsTight(order: seq<Candidate>, batch: nat, cap: nat, c: Option<string>, r: nat)
    requires Distinct(order) && OneCarrier(order, c)
    ensures |AfterRounds(order, batch, cap, r)| == Max(0, |order| - r * Progress(batch, cap))
  {
    FloodDrains(order, batch, cap, c, r, Progress(batch, cap));
  }

  lemma {:induction false} FloodDrains(order: seq<Candidate>, batch: nat, cap: nat, c: Option<string>, r: nat, m: nat)
    requires Distinct(order) && OneCarrier(order, c) && m == Progress(batch, cap)
    ensures |AfterRounds(order, batch, cap, r)| == Max(0, |order| - r * m)
    ensures Distinct(AfterRounds(order, batch, cap, r)) && OneCarrier(AfterRounds(order, batch, cap, r), c)
  {
    if r > 0 {
      FloodDrains(order, batch, cap, c, r - 1, m);
      FloodRound(AfterRounds(order, batch, cap, r - 1), batch, cap, c);
      OneMoreTime(r, m);
    }
  }
}
