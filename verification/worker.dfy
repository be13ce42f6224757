/** `run_worker` as a state machine: the biased select, the claim it may drop, the dispatch
    loop with its permits, the spawned handlers, and the drain. */
module WorkerLoop {
  import opened Schema
  import opened Queue

  const TWO_TO_THE_32: nat := 0x1_0000_0000

  datatype Config = Config(batch: nat, fanout: nat) {
    /** `fanout_concurrency as u32`: what the drain asks the semaphore for. */
    function DrainTotal(): nat { fanout % TWO_TO_THE_32 }
  }

  datatype Exit = Drained | TimedOut | ClaimFailed

  /** `answer` is what the server committed for the claim in flight, once it did. */
  datatype Phase =
    | Turn
    | Claiming(answer: Option<seq<Job>>)
    | Dispatching(rest: seq<Job>)
    | Idle
    | Draining
    | Returned(exit: Exit)

  /** `received` are the jobs of claims that returned to the loop, `handed` those passed to
      the handler, `lost` those committed for a claim whose result the loop never saw.
      `orphaned` says that the server may still be running such a claim. */
  datatype Worker = Worker(phase: Phase, cancelled: bool, free: nat, running: multiset<Job>,
                           received: seq<Job>, handed: seq<Job>, finished: multiset<Job>,
                           lost: seq<Job>, orphaned: bool, committed: set<Job>)
  {
    function Rest(): seq<Job> { if phase.Dispatching? then phase.rest else [] }

    function Pending(): seq<Job> {
      if phase.Claiming? && phase.answer.Some? then phase.answer.value else []
    }
  }

  datatype Event =
    | Cancel
    | Poll
    | ServerCommits(batch: seq<Job>)
    | ClaimFails
    | Wake
    | Spawn
    | Finish(job: Job)
    | AllPermits
    | GraceOver

  function Begin(cfg: Config): Worker {
    Worker(Turn, false, cfg.fanout, multiset{}, [], [], multiset{}, [], false, {})
  }

  ghost function Jobs(s: seq<Job>): set<Job> {
    set j | j in s
  }

  ghost predicate Fresh(w: Worker, batch: seq<Job>) {
    && (forall i, j | 0 <= i < j < |batch| :: batch[i] != batch[j])
    && Jobs(batch) !! w.committed
  }

  ghost predicate Allowed(cfg: Config, w: Worker, e: Event) {
    match e
    case Cancel => true
    case Poll => w.phase.Turn? || w.phase.Claiming? || w.phase.Idle?
    case ServerCommits(batch) => w.phase == Claiming(None) || w.orphaned
    case ClaimFails => w.phase.Claiming? && !w.cancelled
    case Wake => w.phase.Idle? && !w.cancelled
    case Spawn => w.phase.Dispatching? && w.phase.rest != [] && w.free > 0
    case Finish(job) => job in w.running
    case AllPermits => w.phase.Draining? && w.free >= cfg.DrainTotal()
    case GraceOver => w.phase.Draining?
  }

  /** A claim commits at most `batch` jobs, and a pair of id and attempt number is handed out
      only once in the life of the queue. Module Deployment derives both from the queue. */
  ghost predicate CanHappen(cfg: Config, w: Worker, e: Event) {
    Allowed(cfg, w, e) && (e.ServerCommits? ==> |e.batch| <= cfg.batch && Fresh(w, e.batch))
  }

  /** Leaving the loop while a claim is in flight drops its future. */
  function Drop(w: Worker, next: Phase): Worker {
    w.(phase := next, lost := w.lost + w.Pending(), orphaned := w.phase == Claiming(None))
  }

  ghost function Happen(cfg: Config, w: Worker, e: Event): Worker
    requires Allowed(cfg, w, e)
  {
    match e
    case Cancel => w.(cancelled := true)
    case Poll =>
      // biased: the cancellation arm is looked at first
      if w.cancelled then Drop(w, Draining)
      else if w.phase.Turn? then w.(phase := Claiming(None))
      else if w.phase.Claiming? && w.phase.answer.Some? then
        w.(phase := if w.Pending() == [] then Idle else Dispatching(w.Pending()), received := w.received + w.Pending())
      else w
    case ServerCommits(batch) =>
      if w.phase == Claiming(None) then w.(phase := Claiming(Some(batch)), committed := w.committed + Jobs(batch))
      else w.(orphaned := false, lost := w.lost + batch, committed := w.committed + Jobs(batch))
    case ClaimFails => Drop(w, Returned(ClaimFailed))
    case Wake => w.(phase := Turn)
    case Spawn =>
      w.(phase := if |w.phase.rest| == 1 then Turn else Dispatching(w.phase.rest[1..]),
         free := w.free - 1, running := w.running + multiset{w.phase.rest[0]}, handed := w.handed + [w.phase.rest[0]])
    case Finish(job) =>
      w.(free := w.free + 1, running := w.running - multiset{job}, finished := w.finished + multiset{job})
    case AllPermits => w.(phase := Returned(Drained))
    case GraceOver => w.(phase := Returned(TimedOut))
  }

  ghost predicate Runs(cfg: Config, events: seq<Event>)
    decreases |events|, 0
  {
    events == [] || (Runs(cfg, Front(events)) && CanHappen(cfg, After(cfg, Front(events)), Last(events)))
  }

  ghost function After(cfg: Config, events: seq<Event>): Worker
    requires Runs(cfg, events)
    decreases |events|, 1
  {
    if events == [] then Begin(cfg) else Happen(cfg, After(cfg, Front(events)), Last(events))
  }

  // ----- Invariant

  ghost predicate Left(w: Worker) {
    w.phase.Draining? || w.phase.Returned?
  }

  /** Permits and jobs are conserved. */
  ghost predicate Conserves(cfg: Config, w: Worker) {
    && w.free + |w.running| == cfg.fanout
    && w.handed + w.Rest() == w.received
    && multiset(w.handed) == w.running + w.finished
  }

  ghost predicate ControlOk(cfg: Config, w: Worker) {
    && |w.Rest()| <= cfg.batch && |w.Pending()| <= cfg.batch
    && (w.phase.Dispatching? ==> w.phase.rest != [])
    && (w.lost != [] || w.orphaned ==> Left(w))
    && (Left(w) && w.phase != Returned(ClaimFailed) ==> w.cancelled)
    && (w.phase == Returned(Drained) ==> w.free >= cfg.DrainTotal())
  }

  ghost predicate WorkerOk(cfg: Config, w: Worker) {
    Conserves(cfg, w) && ControlOk(cfg, w)
  }

  lemma SpawnConserves(cfg: Config, w: Worker)
    requires WorkerOk(cfg, w) && CanHappen(cfg, w, Spawn)
    ensures Conserves(cfg, Happen(cfg, w, Spawn))
  {
    FirstMoves(w.handed, w.phase.rest);
    FirstCounts(w.handed, w.running, w.finished, w.phase.rest[0]);
  }

  lemma FirstCounts(handed: seq<Job>, running: multiset<Job>, finished: multiset<Job>, job: Job)
    requires multiset(handed) == running + finished
    ensures multiset(handed + [job]) == running + multiset{job} + finished
  {
  }

  lemma FirstMoves(a: seq<Job>, b: seq<Job>)
    requires b != []
    ensures a + [b[0]] + b[1..] == a + b
    ensures |b| == 1 ==> a + [b[0]] + [] == a + b
  {
  }

  lemma FinishConserves(cfg: Config, w: Worker, job: Job)
    requires Conserves(cfg, w) && CanHappen(cfg, w, Finish(job))
    ensures Conserves(cfg, Happen(cfg, w, Finish(job)))
  {
    var w' := Happen(cfg, w, Finish(job));
    assert w.running == w'.running + multiset{job};
  }

  lemma PollConserves(cfg: Config, w: Worker)
    requires Conserves(cfg, w) && CanHappen(cfg, w, Poll)
    ensures Conserves(cfg, Happen(cfg, w, Poll))
  {
  }

  lemma OthersConserve(cfg: Config, w: Worker, e: Event)
    requires Conserves(cfg, w) && CanHappen(cfg, w, e) && !e.Spawn? && !e.Finish? && !e.Poll?
    ensures Conserves(cfg, Happen(cfg, w, e))
  {
  }

  lemma PollKeepsControlOk(cfg: Config, w: Worker)
    requires ControlOk(cfg, w) && CanHappen(cfg, w, Poll)
    ensures ControlOk(cfg, Happen(cfg, w, Poll))
  {
  }

  lemma EventKeepsControlOk(cfg: Config, w: Worker, e: Event)
    requires ControlOk(cfg, w) && CanHappen(cfg, w, e)
    ensures ControlOk(cfg, Happen(cfg, w, e))
  {
    if e.Poll? {
      PollKeepsControlOk(cfg, w);
    }
  }

  lemma EventKeepsWorkerOk(cfg: Config, w: Worker, e: Event)
    requires WorkerOk(cfg, w) && CanHappen(cfg, w, e)
    ensures WorkerOk(cfg, Happen(cfg, w, e))
  {
    EventKeepsControlOk(cfg, w, e);
    match e {
      case Spawn => SpawnConserves(cfg, w);
      case Finish(job) => FinishConserves(cfg, w, job);
      case Poll => PollConserves(cfg, w);
      case _ => OthersConserve(cfg, w, e);
    }
  }

  lemma {:induction false} RunKeepsWorkerOk(cfg: Config, events: seq<Event>)
    requires Runs(cfg, events)
    ensures WorkerOk(cfg, After(cfg, events))
  {
    if events != [] {
      RunKeepsWorkerOk(cfg, Front(events));
      EventKeepsWorkerOk(cfg, After(cfg, Front(events)), Last(events));
    }
  }

  ghost function Deliveries(w: Worker): multiset<Job> {
    multiset(w.received) + multiset(w.Pending()) + multiset(w.lost)
  }

  /** Every job the server committed for this worker is pending, received or lost, once. */
  ghost predicate DeliveredOnce(w: Worker) {
    forall j :: Deliveries(w)[j] == if j in w.committed then 1 else 0
  }

  lemma CommittedGrows(cfg: Config, w: Worker, e: Event)
    requires Allowed(cfg, w, e)
    ensures Happen(cfg, w, e).committed == w.committed + if e.ServerCommits? then Jobs(e.batch) else {}
  {
  }

  lemma DeliveriesNext(cfg: Config, w: Worker, e: Event)
    requires ControlOk(cfg, w) && CanHappen(cfg, w, e)
    ensures Deliveries(Happen(cfg, w, e)) == Deliveries(w) + if e.ServerCommits? then multiset(e.batch) else multiset{}
  {
    if e.ServerCommits? {
      CommitDelivers(cfg, w, e.batch);
    } else if e.Poll? || e.ClaimFails? {
      PollMovesDeliveries(cfg, w, e);
    } else {
      assert Happen(cfg, w, e).Pending() == w.Pending();
    }
  }

  lemma CommitDelivers(cfg: Config, w: Worker, batch: seq<Job>)
    requires CanHappen(cfg, w, ServerCommits(batch))
    ensures Deliveries(Happen(cfg, w, ServerCommits(batch))) == Deliveries(w) + multiset(batch)
  {
  }

  lemma PollMovesDeliveries(cfg: Config, w: Worker, e: Event)
    requires CanHappen(cfg, w, e) && (e.Poll? || e.ClaimFails?)
    ensures Deliveries(Happen(cfg, w, e)) == Deliveries(w)
  {
  }

  lemma {:induction false} OnceEach(s: seq<Job>, j: Job)
    requires forall i, k | 0 <= i < k < |s| :: s[i] != s[k]
    ensures multiset(s)[j] == if j in Jobs(s) then 1 else 0
  {
    if s != [] {
      assert s == Front(s) + [Last(s)];
      OnceEach(Front(s), j);
    }
  }

  lemma {:induction false} RunKeepsDeliveredOnce(cfg: Config, events: seq<Event>)
    requires Runs(cfg, events)
    ensures DeliveredOnce(After(cfg, events))
  {
    if events != [] {
      var w, e := After(cfg, Front(events)), Last(events);
      RunKeepsDeliveredOnce(cfg, Front(events));
      RunKeepsWorkerOk(cfg, Front(events));
      DeliveriesNext(cfg, w, e);
      forall j
        ensures Deliveries(Happen(cfg, w, e))[j] == if j in Happen(cfg, w, e).committed then 1 else 0
      {
        if e.ServerCommits? {
          OnceEach(e.batch, j);
        }
      }
    }
  }

  // ----- Backpressure

  /** In every reachable state the free permits and the running handlers make up the
      fan-out, and what this worker has received and not finished is at most one batch more. */
  lemma Backpressure(cfg: Config, events: seq<Event>)
    requires Runs(cfg, events)
    ensures var w := After(cfg, events);
            && w.free + |w.running| == cfg.fanout && |w.running| <= cfg.fanout
            && |w.received| - |w.finished| <= cfg.fanout + cfg.batch
  {
    RunKeepsWorkerOk(cfg, events);
    var w := After(cfg, events);
    assert |w.received| == |w.handed| + |w.Rest()|;
    assert |multiset(w.handed)| == |w.running| + |w.finished|;
  }

  // ----- Drain

  /** When the drain got all its permits: every job of every received claim was handed to
      the handler exactly once and has finished, and what else was committed for this worker
      was lost with the one claim that the cancellation dropped. */
  lemma DrainSoundness(cfg: Config, events: seq<Event>)
    requires Runs(cfg, events) && After(cfg, events).phase == Returned(Drained)
    requires cfg.fanout < TWO_TO_THE_32
    ensures var w := After(cfg, events);
            && w.cancelled && w.running == multiset{}
            && w.handed == w.received && multiset(w.received) == w.finished
            && (forall j | j in w.committed :: multiset(w.handed)[j] + multiset(w.lost)[j] == 1)
  {
    RunKeepsWorkerOk(cfg, events);
    RunKeepsDeliveredOnce(cfg, events);
    DrainedIsSettled(cfg, After(cfg, events));
  }

  lemma DrainedIsSettled(cfg: Config, w: Worker)
    requires WorkerOk(cfg, w) && w.phase == Returned(Drained) && cfg.fanout < TWO_TO_THE_32
    ensures w.running == multiset{} && w.handed == w.received && multiset(w.received) == w.finished
    ensures Deliveries(w) == multiset(w.handed) + multiset(w.lost)
  {
  }

  /** What the drain guarantees, for a configuration: it never succeeds over a handler that
      is still running. */
  ghost predicate DrainIsSound(cfg: Config) {
    forall events | Runs(cfg, events) && After(cfg, events).phase == Returned(Drained) ::
      After(cfg, events).running == multiset{}
  }

  /** It does exactly when the fan-out fits the u32 it is cast to, or nothing is ever
      claimed. */
  lemma DrainSoundExactlyWhen(cfg: Config)
    ensures DrainIsSound(cfg) <==> cfg.fanout < TWO_TO_THE_32 || cfg.batch == 0
  {
    if cfg.fanout < TWO_TO_THE_32 {
      forall events | Runs(cfg, events) && After(cfg, events).phase == Returned(Drained)
        ensures After(cfg, events).running == multiset{}
      {
        DrainSoundness(cfg, events);
      }
    } else if cfg.batch == 0 {
      forall events | Runs(cfg, events) && After(cfg, events).phase == Returned(Drained)
        ensures After(cfg, events).running == multiset{}
      {
        NothingClaimed(cfg, events);
      }
    } else {
      var events := DrainOverRunningHandler(cfg);
    }
  }

  /** Without permits a batch that was received blocks the loop for ever, token or not. */
  lemma {:induction false} NoPermitsNoProgress(cfg: Config, events: seq<Event>, k: nat)
    requires Runs(cfg, events) && cfg.fanout == 0 && k <= |events|
    ensures Runs(cfg, events[..k])
    ensures After(cfg, events[..k]).phase.Dispatching? ==> After(cfg, events).phase == After(cfg, events[..k]).phase
    decreases |events|
  {
    if k == |events| {
      assert events[..k] == events;
    } else {
      assert Front(events)[..k] == events[..k];
      NoPermitsNoProgress(cfg, Front(events), k);
      RunKeepsWorkerOk(cfg, Front(events));
    }
  }

  lemma {:induction false} NothingClaimed(cfg: Config, events: seq<Event>)
    requires Runs(cfg, events) && cfg.batch == 0
    ensures After(cfg, events).running == multiset{} && !After(cfg, events).phase.Dispatching?
  {
    if events != [] {
      NothingClaimed(cfg, Front(events));
      RunKeepsWorkerOk(cfg, Front(events));
      RunKeepsWorkerOk(cfg, events);
    }
  }

  lemma Next(cfg: Config, events: seq<Event>, e: Event) returns (more: seq<Event>)
    requires Runs(cfg, events) && CanHappen(cfg, After(cfg, events), e)
    ensures more == events + [e] && Runs(cfg, more) && After(cfg, more) == Happen(cfg, After(cfg, events), e)
  {
    more := events + [e];
    assert Front(more) == events;
  }

  function SomeJob(): Job {
    Job(1, "webhook.normalize", Payload(Some("A"), "evt-1", ""), 1)
  }

  /** One job claimed and handed to its handler. */
  lemma OneRunning(cfg: Config) returns (events: seq<Event>)
    requires cfg.fanout >= 1 && cfg.batch >= 1
    ensures Runs(cfg, events)
    ensures var w := After(cfg, events);
            && w.phase == Turn && !w.cancelled && w.lost == []
            && w.running == multiset{SomeJob()} && w.free == cfg.fanout - 1
  {
    events := Next(cfg, [], Poll);
    events := Next(cfg, events, ServerCommits([SomeJob()]));
    events := Next(cfg, events, Poll);
    events := Next(cfg, events, Spawn);
  }

  lemma DrainOverRunningHandler(cfg: Config) returns (events: seq<Event>)
    requires cfg.fanout >= TWO_TO_THE_32 && cfg.batch >= 1
    ensures Runs(cfg, events) && After(cfg, events).phase == Returned(Drained)
    ensures After(cfg, events).running == multiset{SomeJob()}
  {
    events := OneRunning(cfg);
    events := Next(cfg, events, Cancel);
    events := Next(cfg, events, Poll);
    events := Next(cfg, events, AllPermits);
  }

  /** Neither the timeout nor a claim error waits for the handlers. */
  lemma OtherExitsLeaveHandlersRunning(cfg: Config) returns (timeout: seq<Event>, failure: seq<Event>)
    requires cfg.fanout >= 1 && cfg.batch >= 1
    ensures Runs(cfg, timeout) && After(cfg, timeout).phase == Returned(TimedOut)
    ensures After(cfg, timeout).running == multiset{SomeJob()}
    ensures Runs(cfg, failure) && After(cfg, failure).phase == Returned(ClaimFailed)
    ensures After(cfg, failure).running == multiset{SomeJob()} && !After(cfg, failure).cancelled
  {
    var busy := OneRunning(cfg);
    timeout := Next(cfg, busy, Cancel);
    timeout := Next(cfg, timeout, Poll);
    timeout := Next(cfg, timeout, GraceOver);
    failure := Next(cfg, busy, Poll);
    failure := Next(cfg, failure, ClaimFails);
  }

  // ----- Cancellation

  ghost predicate DropsClaim(cfg: Config, events: seq<Event>, k: nat)
    requires Runs(cfg, events) && k < |events|
  {
    RunsPrefix(cfg, events, k);
    events[k].Poll? && After(cfg, events[..k]).phase.Claiming? && After(cfg, events[..k]).cancelled
  }

  lemma {:induction false} RunsPrefix(cfg: Config, events: seq<Event>, k: nat)
    requires Runs(cfg, events) && k <= |events|
    ensures Runs(cfg, events[..k])
    decreases |events|
  {
    if k == |events| {
      assert events[..k] == events;
    } else {
      RunsPrefix(cfg, Front(events), k);
      assert Front(events)[..k] == events[..k];
    }
  }

  lemma FirstLoss(cfg: Config, w: Worker, e: Event)
    requires CanHappen(cfg, w, e) && Happen(cfg, w, e).phase != Returned(ClaimFailed)
    ensures w.phase != Returned(ClaimFailed)
    ensures w.lost == [] && !w.orphaned && (Happen(cfg, w, e).lost != [] || Happen(cfg, w, e).orphaned)
            ==> e.Poll? && w.phase.Claiming? && w.cancelled
  {
  }

  /** Committed claims that were never handed out come only from a claim future dropped by
      the cancel arm, unless the loop ended with a claim error. */
  lemma {:induction false} LostOnlyByDroppedClaim(cfg: Config, events: seq<Event>)
    requires Runs(cfg, events) && After(cfg, events).phase != Returned(ClaimFailed)
    requires After(cfg, events).lost != [] || After(cfg, events).orphaned
    ensures exists k :: 0 <= k < |events| && DropsClaim(cfg, events, k)
  {
    var pre, n := Front(events), |events| - 1;
    var w := After(cfg, pre);
    assert events[..n] == pre;
    FirstLoss(cfg, w, Last(events));
    if w.lost != [] || w.orphaned {
      LostOnlyByDroppedClaim(cfg, pre);
      var k :| 0 <= k < n && DropsClaim(cfg, pre, k);
      assert pre[..k] == events[..k];
      assert DropsClaim(cfg, events, k);
    } else {
      assert DropsClaim(cfg, events, n);
    }
  }

  /** And so they can be lost, in a run that ends with a complete drain. */
  lemma ClaimCanBeLost(cfg: Config) returns (events: seq<Event>)
    requires cfg.fanout < TWO_TO_THE_32 && cfg.batch >= 1
    ensures Runs(cfg, events) && After(cfg, events).phase == Returned(Drained)
    ensures After(cfg, events).lost == [SomeJob()] && After(cfg, events).handed == []
  {
    events := Next(cfg, [], Poll);
    events := Next(cfg, events, ServerCommits([SomeJob()]));
    events := Next(cfg, events, Cancel);
    events := Next(cfg, events, Poll);
    events := Next(cfg, events, AllPermits);
  }

  lemma CancelledReceivesNothing(cfg: Config, w: Worker, e: Event)
    requires CanHappen(cfg, w, e) && w.cancelled
    ensures Happen(cfg, w, e).cancelled && Happen(cfg, w, e).received == w.received
    ensures !w.phase.Claiming? ==> !Happen(cfg, w, e).phase.Claiming?
  {
  }

  lemma {:induction false} CancelledStopsClaims(cfg: Config, events: seq<Event>, k: nat)
    requires Runs(cfg, events) && k <= |events| && Runs(cfg, events[..k]) && After(cfg, events[..k]).cancelled
    ensures After(cfg, events).cancelled && After(cfg, events).received == After(cfg, events[..k]).received
    ensures !After(cfg, events[..k]).phase.Claiming? ==> !After(cfg, events).phase.Claiming?
    decreases |events|
  {
    if k == |events| {
      assert events[..k] == events;
    } else {
      assert Front(events)[..k] == events[..k];
      CancelledStopsClaims(cfg, Front(events), k);
      CancelledReceivesNothing(cfg, After(cfg, Front(events)), Last(events));
    }
  }

  /** Once the token has fired the loop starts no claim and receives none. */
  lemma CancelStopsClaims(cfg: Config, events: seq<Event>, k: nat)
    requires Runs(cfg, events) && k <= |events| && Runs(cfg, events[..k]) && Cancel in events[..k]
    ensures After(cfg, events).cancelled && After(cfg, events).received == After(cfg, events[..k]).received
    ensures !After(cfg, events[..k]).phase.Claiming? ==> !After(cfg, events).phase.Claiming?
  {
    CancelledIsFired(cfg, events[..k]);
    CancelledStopsClaims(cfg, events, k);
  }

  /** The token has fired exactly when its event is in the run. */
  lemma {:induction false} CancelledIsFired(cfg: Config, events: seq<Event>)
    requires Runs(cfg, events)
    ensures After(cfg, events).cancelled <==> Cancel in events
  {
    if events != [] {
      CancelledIsFired(cfg, Front(events));
      CancelStays(cfg, After(cfg, Front(events)), Last(events));
      assert Cancel in events <==> Cancel in Front(events) || Last(events) == Cancel;
    }
  }

  lemma CancelStays(cfg: Config, w: Worker, e: Event)
    requires Allowed(cfg, w, e)
    ensures Happen(cfg, w, e).cancelled <==> w.cancelled || e == Cancel
  {
  }

  lemma CancelledLeavesByDrain(cfg: Config, w: Worker, e: Event)
    requires CanHappen(cfg, w, e) && w.cancelled && w.phase != Returned(ClaimFailed)
    ensures Happen(cfg, w, e).cancelled && Happen(cfg, w, e).phase != Returned(ClaimFailed)
  {
  }

  /** The cancellation is looked at first: once the token has fired, in the loop or in the
      drain, the error of a claim in flight does not end the worker. */
  lemma {:induction false} CancelBeatsClaimError(cfg: Config, events: seq<Event>, k: nat)
    requires Runs(cfg, events) && k <= |events| && Runs(cfg, events[..k]) && Cancel in events[..k]
    requires !After(cfg, events[..k]).phase.Returned?
    ensures After(cfg, events).cancelled && After(cfg, events).phase != Returned(ClaimFailed)
    decreases |events|
  {
    if k == |events| {
      assert events[..k] == events;
      CancelledIsFired(cfg, events);
    } else {
      assert Front(events)[..k] == events[..k];
      CancelBeatsClaimError(cfg, Front(events), k);
      CancelledLeavesByDrain(cfg, After(cfg, Front(events)), Last(events));
    }
  }

  /** The drain can succeed exactly when the handlers that still run are no more than the
      part of the fan-out that the cast to 32 bits cuts off: none if the fan-out fits. */
  lemma DrainCanEndExactlyWhen(cfg: Config, events: seq<Event>)
    requires Runs(cfg, events) && After(cfg, events).phase == Draining
    ensures CanHappen(cfg, After(cfg, events), AllPermits)
       <==> |After(cfg, events).running| <= cfg.fanout / 0x1_0000_0000 * 0x1_0000_0000
  {
    RunKeepsWorkerOk(cfg, events);
    assert cfg.fanout == cfg.fanout / 0x1_0000_0000 * 0x1_0000_0000 + cfg.DrainTotal();
  }

  // ----- Idle, and never stuck

  /** After an empty answer the loop makes no claim before it is woken. */
  lemma {:induction false} EmptyAnswerWaits(cfg: Config, events: seq<Event>, k: nat)
    requires Runs(cfg, events) && k < |events| && Runs(cfg, events[..k])
    requires After(cfg, events[..k]).phase == Claiming(Some([])) && !After(cfg, events[..k]).cancelled
    requires events[k] == Poll && forall j | k < j < |events| :: events[j] != Wake
    ensures After(cfg, events).phase == Idle || Left(After(cfg, events))
  {
    if k == |events| - 1 {
      assert events[..k] == Front(events);
    } else {
      assert Front(events)[..k] == events[..k];
      assert Last(events) == events[|events| - 1] != Wake;
      EmptyAnswerWaits(cfg, Front(events), k);
      IdleUnlessWoken(cfg, After(cfg, Front(events)), Last(events));
    }
  }

  lemma IdleUnlessWoken(cfg: Config, w: Worker, e: Event)
    requires Allowed(cfg, w, e) && e != Wake && (w.phase == Idle || Left(w))
    ensures Happen(cfg, w, e).phase == Idle || Left(Happen(cfg, w, e))
  {
  }

  lemma FreePermit(cfg: Config, events: seq<Event>) returns (more: seq<Event>)
    requires Runs(cfg, events) && cfg.fanout >= 1
    ensures events <= more && Runs(cfg, more) && After(cfg, more).free > 0
    ensures After(cfg, more).phase == After(cfg, events).phase
    ensures After(cfg, more).cancelled == After(cfg, events).cancelled
  {
    var w := After(cfg, events);
    RunKeepsWorkerOk(cfg, events);
    more := events;
    if w.free == 0 {
      assert w.running != multiset{};
      var job :| job in w.running;
      more := Next(cfg, events, Finish(job));
    }
  }

  lemma SpawnsNext(cfg: Config, events: seq<Event>) returns (more: seq<Event>)
    requires Runs(cfg, events) && After(cfg, events).phase.Dispatching? && After(cfg, events).free > 0
    ensures events <= more && Runs(cfg, more)
    ensures |After(cfg, more).Rest()| < |After(cfg, events).Rest()|
    ensures After(cfg, more).phase == Turn || After(cfg, more).phase.Dispatching?
    ensures After(cfg, more).cancelled == After(cfg, events).cancelled
  {
    RunKeepsWorkerOk(cfg, events);
    more := Next(cfg, events, Spawn);
  }

  /** With a permit at all, a batch in hand can always be dispatched to its end. */
  lemma {:induction false} CanDispatch(cfg: Config, events: seq<Event>) returns (more: seq<Event>)
    requires Runs(cfg, events) && cfg.fanout >= 1 && After(cfg, events).phase.Dispatching?
    ensures events <= more && Runs(cfg, more) && After(cfg, more).phase == Turn
    ensures After(cfg, more).cancelled == After(cfg, events).cancelled
    decreases |After(cfg, events).Rest()|
  {
    var free := FreePermit(cfg, events);
    more := SpawnsNext(cfg, free);
    if After(cfg, more).phase.Dispatching? {
      more := CanDispatch(cfg, more);
    }
  }

  lemma CanLeaveLoop(cfg: Config, events: seq<Event>) returns (more: seq<Event>)
    requires Runs(cfg, events)
    requires !Left(After(cfg, events)) && !After(cfg, events).phase.Dispatching?
    ensures events <= more && Runs(cfg, more) && After(cfg, more).phase == Draining
  {
    more := Next(cfg, events, Cancel);
    more := Next(cfg, more, Poll);
  }

  lemma {:induction false} CanFinishHandlers(cfg: Config, events: seq<Event>) returns (more: seq<Event>)
    requires Runs(cfg, events) && After(cfg, events).phase == Draining
    ensures events <= more && Runs(cfg, more)
    ensures After(cfg, more).phase == Draining && After(cfg, more).running == multiset{}
    decreases |After(cfg, events).running|
  {
    more := events;
    if After(cfg, events).running != multiset{} {
      var job :| job in After(cfg, events).running;
      more := Next(cfg, events, Finish(job));
      more := CanFinishHandlers(cfg, more);
    }
  }

  /** No reachable state of a worker with permits is a dead end: every run that has not
      returned can be continued to a shutdown in which every handler finishes. */
  lemma CanAlwaysShutDown(cfg: Config, events: seq<Event>) returns (more: seq<Event>)
    requires Runs(cfg, events) && cfg.fanout >= 1 && !After(cfg, events).phase.Returned?
    ensures events <= more && Runs(cfg, more)
    ensures After(cfg, more).phase == Returned(Drained) && After(cfg, more).running == multiset{}
  {
    more := events;
    if After(cfg, more).phase.Dispatching? {
      more := CanDispatch(cfg, more);
    }
    if After(cfg, more).phase != Draining {
      more := CanLeaveLoop(cfg, more);
    }
    more := CanFinishHandlers(cfg, more);
    more := CanEndDrain(cfg, more);
  }

  lemma CanEndDrain(cfg: Config, events: seq<Event>) returns (more: seq<Event>)
    requires Runs(cfg, events) && After(cfg, events).phase == Draining && After(cfg, events).running == multiset{}
    ensures events <= more && Runs(cfg, more)
    ensures After(cfg, more).phase == Returned(Drained) && After(cfg, more).running == multiset{}
  {
    RunKeepsWorkerOk(cfg, events);
    AllPermitsFree(cfg, After(cfg, events));
    more := Next(cfg, events, AllPermits);
  }

  lemma AllPermitsFree(cfg: Config, w: Worker)
    requires Conserves(cfg, w) && w.running == multiset{}
    ensures w.free >= cfg.DrainTotal()
  {
    assert |w.running| == 0;
  }

  /** And until the token fires every run in the loop can be continued to its next claim. */
  lemma CanAlwaysClaim(cfg: Config, events: seq<Event>) returns (more: seq<Event>)
    requires Runs(cfg, events) && cfg.fanout >= 1
    requires Cancel !in events && !Left(After(cfg, events))
    ensures events <= more && Runs(cfg, more) && After(cfg, more).phase == Claiming(None)
  {
    CancelledIsFired(cfg, events);
    more := events;
    if After(cfg, more).phase.Claiming? && After(cfg, more).phase.answer.Some? {
      more := Next(cfg, more, Poll);
    }
    if After(cfg, more).phase.Dispatching? {
      more := CanDispatch(cfg, more);
    }
    if !After(cfg, more).phase.Claiming? {
      more := CanPollAgain(cfg, more);
    }
  }

  lemma CanPollAgain(cfg: Config, events: seq<Event>) returns (more: seq<Event>)
    requires Runs(cfg, events) && !After(cfg, events).cancelled
    requires After(cfg, events).phase == Turn || After(cfg, events).phase == Idle
    ensures events <= more && Runs(cfg, more) && After(cfg, more).phase == Claiming(None)
  {
    more := events;
    if After(cfg, events).phase == Idle {
      more := Next(cfg, events, Wake);
    }
    more := Next(cfg, more, Poll);
  }

  /** The loop restricts nothing around it: the token may fire at any time, and every running
      handler may finish. */
  lemma TokenAndHandlersAreFree(cfg: Config, events: seq<Event>)
    requires Runs(cfg, events)
    ensures Runs(cfg, events + [Cancel])
    ensures forall job | job in After(cfg, events).running :: Runs(cfg, events + [Finish(job)])
  {
    var w := After(cfg, events);
    Follows(cfg, events, w, Cancel);
    forall job | job in w.running
      ensures Runs(cfg, events + [Finish(job)])
    {
      Follows(cfg, events, w, Finish(job));
    }
  }

  /** The server may answer a claim in flight with any fresh batch, and until the token fires
      with an error. */
  lemma ServerIsFree(cfg: Config, events: seq<Event>)
    requires Runs(cfg, events) && After(cfg, events).phase == Claiming(None)
    ensures forall batch | |batch| <= cfg.batch && Fresh(After(cfg, events), batch) ::
              Runs(cfg, events + [ServerCommits(batch)])
    ensures Cancel !in events ==> Runs(cfg, events + [ClaimFails])
  {
    var w := After(cfg, events);
    forall batch | |batch| <= cfg.batch && Fresh(w, batch)
      ensures Runs(cfg, events + [ServerCommits(batch)])
    {
      Follows(cfg, events, w, ServerCommits(batch));
    }
    CancelledIsFired(cfg, events);
    Follows(cfg, events, w, ClaimFails);
  }

  /** The idle loop may be woken until the token fires. */
  lemma IdleMayWake(cfg: Config, events: seq<Event>)
    requires Runs(cfg, events) && After(cfg, events).phase == Idle && Cancel !in events
    ensures Runs(cfg, events + [Wake])
  {
    CancelledIsFired(cfg, events);
    Follows(cfg, events, After(cfg, events), Wake);
  }

  /** The grace may end at any time. */
  lemma GraceMayEnd(cfg: Config, events: seq<Event>)
    requires Runs(cfg, events) && After(cfg, events).phase == Draining
    ensures Runs(cfg, events + [GraceOver])
  {
    Follows(cfg, events, After(cfg, events), GraceOver);
  }

  lemma Follows(cfg: Config, events: seq<Event>, w: Worker, e: Event)
    requires Runs(cfg, events) && After(cfg, events) == w
    ensures CanHappen(cfg, w, e) ==> Runs(cfg, events + [e])
  {
    assert Front(events + [e]) == events;
  }
}
