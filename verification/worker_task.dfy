/** `run_worker` as the loop it is: the turns of the select, the dispatch of a batch under
    permits, the drain. At every await handlers may finish and the token may fire. Every
    statement is one event of the state machine, so a run of the loop is a run of the machine. */
module WorkerTask {
  import opened Schema
  import opened Queue
  import opened WorkerLoop

  /** What the server answers to the claims of the loop, one after the other; None is an error. */
  type Answers = seq<Option<seq<Job>>>

  ghost function Handed(answers: Answers): seq<Job> {
    if answers == [] then []
    else Handed(Front(answers)) + if Last(answers).Some? then Last(answers).value else []
  }

  ghost predicate IsHandout(cfg: Config, before: set<Job>, batch: seq<Job>) {
    && |batch| <= cfg.batch && Jobs(batch) !! before
    && forall i, j | 0 <= i < j < |batch| :: batch[i] != batch[j]
  }

  /** A claim returns at most `batch` jobs, none that was returned before. Module Deployment
      derives this from the queue. */
  ghost predicate Handouts(cfg: Config, answers: Answers) {
    forall k | 0 <= k < |answers| && answers[k].Some? ::
      IsHandout(cfg, Jobs(Handed(answers[..k])), answers[k].value)
  }

  /** With no permits at all the dispatch of a job waits for ever: see NoPermitsNoProgress. */
  predicate Dispatchable(cfg: Config, answer: Option<seq<Job>>) {
    cfg.fanout >= 1 || answer.None? || answer.value == []
  }

  lemma HandedNext(answers: Answers, k: nat)
    requires k < |answers|
    ensures answers[..k + 1] == answers[..k] + [answers[k]]
    ensures Handed(answers[..k + 1]) == Handed(answers[..k]) + if answers[k].Some? then answers[k].value else []
  {
    assert Front(answers[..k + 1]) == answers[..k];
  }

  lemma JobsOfConcat(a: seq<Job>, b: seq<Job>)
    ensures Jobs(a + b) == Jobs(a) + Jobs(b)
  {
  }

  class Task {
    const cfg: Config
    /** Whether the token may fire while there are answers left. */
    const early: bool
    var phase: Phase
    var cancelled: bool
    var free: nat
    var running: multiset<Job>
    var received: seq<Job>
    var handed: seq<Job>
    var finished: multiset<Job>
    ghost var lost: seq<Job>
    ghost var orphaned: bool
    ghost var committed: set<Job>
    ghost var events: seq<Event>

    ghost function State(): Worker
      reads this
    {
      Worker(phase, cancelled, free, running, received, handed, finished, lost, orphaned, committed)
    }

    ghost predicate Valid()
      reads this
    {
      WorkerLoop.Runs(cfg, events) && After(cfg, events) == State()
    }

    /** Between two turns: everything committed was received and handed out. */
    ghost predicate AtTurn()
      reads this
    {
      phase == Turn && handed == received && committed == Jobs(received) && lost == [] && !orphaned
    }

    constructor (cfg: Config, early: bool)
      ensures Valid() && AtTurn() && this.cfg == cfg && this.early == early && fresh(this)
      ensures !cancelled && received == []
    {
      this.cfg, this.early := cfg, early;
      phase, cancelled, free, running := Turn, false, cfg.fanout, multiset{};
      received, handed, finished := [], [], multiset{};
      lost, orphaned, committed, events := [], false, {}, [];
    }

    // ----- The single events

    ghost method Happened(e: Event)
      requires WorkerLoop.Runs(cfg, events) && CanHappen(cfg, After(cfg, events), e)
      requires Happen(cfg, After(cfg, events), e) == State()
      modifies this`events
      ensures Valid()
    {
      events := Next(cfg, events, e);
    }

    lemma Invariant()
      requires Valid()
      ensures WorkerOk(cfg, State())
    {
      RunKeepsWorkerOk(cfg, events);
    }

    method TokenFires()
      requires Valid()
      modifies this`cancelled, this`events
      ensures Valid() && cancelled
    {
      cancelled := true;
      Happened(Cancel);
    }

    /** A handler returns, or panics: its permit is dropped either way. */
    method HandlerFinishes(job: Job)
      requires Valid() && job in running
      modifies this`running, this`free, this`finished, this`events
      ensures Valid() && running == old(running) - multiset{job} && free == old(free) + 1
      ensures finished == old(finished) + multiset{job}
    {
      running := running - multiset{job};
      free := free + 1;
      finished := finished + multiset{job};
      Happened(Finish(job));
    }

    /** The cancellation arm: `break`, which drops a claim in flight. */
    method BreakOut()
      requires Valid() && cancelled && (phase.Turn? || phase.Claiming? || phase.Idle?)
      modifies this`phase, this`lost, this`orphaned, this`events
      ensures Valid() && phase == Draining && orphaned == (old(phase) == Claiming(None))
      ensures lost == match old(phase) case Claiming(Some(batch)) => old(lost) + batch case _ => old(lost)
    {
      lost, orphaned := lost + State().Pending(), phase == Claiming(None);
      phase := Draining;
      Happened(Poll);
    }

    method StartClaim()
      requires Valid() && phase == Turn && !cancelled
      modifies this`phase, this`events
      ensures Valid() && phase == Claiming(None)
    {
      phase := Claiming(None);
      Happened(Poll);
    }

    /** The server commits the claim in flight. */
    method ClaimCommits(batch: seq<Job>)
      requires Valid() && phase == Claiming(None) && IsHandout(cfg, committed, batch)
      modifies this`phase, this`committed, this`events
      ensures Valid() && phase == Claiming(Some(batch)) && committed == old(committed) + Jobs(batch)
    {
      phase := Claiming(Some(batch));
      committed := committed + Jobs(batch);
      Happened(ServerCommits(batch));
    }

    /** The server commits a claim whose result nobody waits for. */
    method OrphanCommits(batch: seq<Job>)
      requires Valid() && orphaned && phase == Draining && IsHandout(cfg, committed, batch)
      modifies this`lost, this`orphaned, this`committed, this`events
      ensures Valid() && lost == old(lost) + batch
    {
      orphaned, lost, committed := false, lost + batch, committed + Jobs(batch);
      Happened(ServerCommits(batch));
    }

    method Receive(batch: seq<Job>)
      requires Valid() && phase == Claiming(Some(batch)) && !cancelled
      modifies this`phase, this`received, this`events
      ensures Valid() && phase == (if batch == [] then Idle else Dispatching(batch))
      ensures received == old(received) + batch
    {
      phase := if batch == [] then Idle else Dispatching(batch);
      received := received + batch;
      Happened(Poll);
    }

    /** The claim comes back as an error: `?` leaves the loop without a drain. */
    method FailedClaim()
      requires Valid() && phase == Claiming(None) && !cancelled
      modifies this`phase, this`lost, this`orphaned, this`events
      ensures Valid() && phase == Returned(ClaimFailed) && lost == old(lost)
    {
      phase, orphaned := Returned(ClaimFailed), true;
      lost := lost + [];
      Happened(ClaimFails);
    }

    /** A notification, or the poll interval. */
    method WakeUp()
      requires Valid() && phase == Idle && !cancelled
      modifies this`phase, this`events
      ensures Valid() && phase == Turn
    {
      phase := Turn;
      Happened(Wake);
    }

    method SpawnNext()
      requires Valid() && phase.Dispatching? && phase.rest != [] && free > 0
      modifies this`phase, this`free, this`running, this`handed, this`events
      ensures Valid() && handed == old(handed) + [old(phase).rest[0]]
      ensures phase == if |old(phase).rest| == 1 then Turn else Dispatching(old(phase).rest[1..])
    {
      var job := phase.rest[0];
      phase := if |phase.rest| == 1 then Turn else Dispatching(phase.rest[1..]);
      free := free - 1;
      running := running + multiset{job};
      handed := handed + [job];
      Happened(Spawn);
    }

    // ----- The loop

    /** What may happen at an await: any handlers finish, the token fires. */
    method Meanwhile()
      requires Valid()
      modifies this`running, this`free, this`finished, this`cancelled, this`events
      ensures Valid() && (old(cancelled) ==> cancelled) && free >= old(free)
      ensures !early ==> cancelled == old(cancelled)
    {
      var more: bool := *;
      while more && running != multiset{}
        invariant Valid() && cancelled == old(cancelled) && free >= old(free)
        decreases |running|
      {
        var job :| job in running;
        HandlerFinishes(job);
        more := *;
      }
      var fires: bool := *;
      if fires && early {
        TokenFires();
      }
    }

    method AwaitPermit()
      requires Valid() && cfg.fanout >= 1
      modifies this`running, this`free, this`finished, this`cancelled, this`events
      ensures Valid() && free > 0 && (old(cancelled) ==> cancelled)
      ensures !early ==> cancelled == old(cancelled)
    {
      Meanwhile();
      if free == 0 {
        Invariant();
        assert running != multiset{};
        var job :| job in running;
        HandlerFinishes(job);
      }
    }

    method HandOutNext()
      requires Valid() && phase.Dispatching? && phase.rest != [] && cfg.fanout >= 1
      modifies this`phase, this`running, this`free, this`handed, this`finished, this`cancelled, this`events
      ensures Valid() && (old(cancelled) ==> cancelled) && (!early ==> cancelled == old(cancelled))
      ensures phase == Turn || (phase.Dispatching? && phase.rest != [])
      ensures |State().Rest()| < |old(phase).rest| && handed + State().Rest() == old(handed + phase.rest)
    {
      AwaitPermit();
      FirstMoves(handed, phase.rest);
      SpawnNext();
    }

    /** `for job in batch`: wait for a permit, then hand the job to its handler. The token
        does not stop it. */
    method Dispatch()
      requires Valid() && phase.Dispatching? && phase.rest != [] && cfg.fanout >= 1
      modifies this`phase, this`running, this`free, this`handed, this`finished, this`cancelled, this`events
      ensures Valid() && phase == Turn && handed == old(handed) + old(phase).rest
      ensures (old(cancelled) ==> cancelled) && (!early ==> cancelled == old(cancelled))
    {
      ghost var all := handed + phase.rest;
      while phase.Dispatching?
        invariant Valid() && (old(cancelled) ==> cancelled) && (!early ==> cancelled == old(cancelled))
        invariant phase == Turn || (phase.Dispatching? && phase.rest != [])
        invariant handed + State().Rest() == all
        decreases |State().Rest()|
      {
        HandOutNext();
      }
    }

    /** One turn of the loop, in which the server answers the claim with `answer`. The token
        may fire before the claim, while it is in flight, between its commit and its return,
        while the loop is idle, and during the dispatch. */
    method OneTurn(answer: Option<seq<Job>>)
      requires Valid() && AtTurn() && Dispatchable(cfg, answer)
      requires answer.Some? ==> IsHandout(cfg, committed, answer.value)
      modifies this
      ensures Valid()
      ensures phase.Turn? || phase.Draining? || phase == Returned(ClaimFailed)
      ensures phase.Turn? ==> AtTurn() && answer.Some? && received == old(received) + answer.value
      ensures !phase.Turn? ==> handed == received == old(received)
      ensures phase.Draining? ==> lost == [] || answer == Some(lost)
      ensures phase.Returned? ==> answer.None? && !cancelled && lost == []
      ensures !early && !old(cancelled) ==> !cancelled && !phase.Draining?
    {
      Meanwhile();
      if cancelled {
        BreakOut();
        return;
      }
      AwaitClaim(answer);
      if phase.Idle? {
        StayIdle();
      } else if phase.Dispatching? {
        Dispatch();
      }
    }

    method AwaitClaim(answer: Option<seq<Job>>)
      requires Valid() && AtTurn() && !cancelled
      requires answer.Some? ==> IsHandout(cfg, committed, answer.value)
      modifies this`phase, this`running, this`free, this`received, this`finished, this`cancelled,
               this`lost, this`orphaned, this`committed, this`events
      ensures Valid()
      ensures phase.Draining? ==> received == old(received) && (lost == [] || answer == Some(lost))
      ensures phase.Returned? ==>
                phase.exit == ClaimFailed && answer.None? && !cancelled && lost == [] && received == old(received)
      ensures !phase.Draining? && !phase.Returned? ==> answer.Some? && Got(answer.value, old(received))
      ensures !early ==> !cancelled && !phase.Draining?
    {
      StartClaim();
      Meanwhile();
      if cancelled {
        DroppedInFlight(answer);
      } else if answer.None? {
        FailedClaim();
      } else {
        AwaitReturn(answer.value);
      }
    }

    /** `batch` came back to the loop, which goes on with it or is idle. */
    ghost predicate Got(batch: seq<Job>, before: seq<Job>)
      reads this
    {
      && phase == (if batch == [] then Idle else Dispatching(batch))
      && received == before + batch && committed == Jobs(received) && lost == [] && !orphaned
    }

    /** The server commits the claim; its answer is received, or dropped by the token. */
    method AwaitReturn(batch: seq<Job>)
      requires Valid() && phase == Claiming(None) && committed == Jobs(received) && lost == [] && !orphaned
      requires !cancelled
      requires IsHandout(cfg, committed, batch)
      modifies this`phase, this`running, this`free, this`received, this`finished, this`cancelled,
               this`lost, this`orphaned, this`committed, this`events
      ensures Valid()
      ensures phase == Draining || Got(batch, old(received))
      ensures phase == Draining ==> lost == batch && received == old(received)
      ensures !early ==> !cancelled && phase != Draining
    {
      ClaimCommits(batch);
      JobsOfConcat(received, batch);
      Meanwhile();
      if cancelled {
        BreakOut();
        assert lost == batch;
      } else {
        Receive(batch);
      }
    }

    /** The claim is dropped before the server committed it; the server may do so later. */
    method DroppedInFlight(answer: Option<seq<Job>>)
      requires Valid() && phase == Claiming(None) && cancelled && lost == []
      requires answer.Some? ==> IsHandout(cfg, committed, answer.value)
      modifies this`phase, this`lost, this`orphaned, this`committed, this`events
      ensures Valid() && phase == Draining && (lost == [] || answer == Some(lost))
    {
      BreakOut();
      var later: bool := *;
      if later && answer.Some? {
        OrphanCommits(answer.value);
        assert lost == answer.value;
      }
    }

    /** Nothing ready: wait for a notification, the poll interval or the token. */
    method StayIdle()
      requires Valid() && phase == Idle
      modifies this`phase, this`running, this`free, this`finished, this`cancelled, this`lost, this`orphaned, this`events
      ensures Valid() && (phase == Turn || phase == Draining)
      ensures lost == old(lost) && (phase == Turn ==> orphaned == old(orphaned))
      ensures !early && !old(cancelled) ==> !cancelled && phase == Turn
    {
      Meanwhile();
      if cancelled {
        BreakOut();
      } else {
        WakeUp();
      }
    }

    /** The bounded grace: `patience` handlers at most finish before the timer does. */
    method Drain(patience: nat) returns (exit: Exit)
      requires Valid() && phase.Draining?
      modifies this`phase, this`running, this`free, this`finished, this`events
      ensures Valid() && phase == Returned(exit) && exit in {Drained, TimedOut}
      ensures exit == TimedOut <==> free < cfg.DrainTotal()
      ensures exit == TimedOut ==> |finished| == |old(finished)| + patience
      ensures exit == Drained && cfg.fanout < TWO_TO_THE_32 ==> running == multiset{} && finished == multiset(handed)
    {
      var left := patience;
      while free < cfg.DrainTotal() && left > 0
        invariant Valid() && phase.Draining?
        invariant 0 <= left <= patience && |finished| + left == |old(finished)| + patience
        decreases left
      {
        var job := SomeRunning();
        HandlerFinishes(job);
        left := left - 1;
      }
      exit := if free >= cfg.DrainTotal() then Drained else TimedOut;
      FinishDrain(exit);
      Settled();
    }

    method SomeRunning() returns (job: Job)
      requires Valid() && free < cfg.DrainTotal()
      ensures job in running
    {
      Invariant();
      assert running != multiset{};
      job :| job in running;
    }

    method FinishDrain(exit: Exit)
      requires Valid() && phase.Draining? && exit == if free >= cfg.DrainTotal() then Drained else TimedOut
      modifies this`phase, this`events
      ensures Valid() && phase == Returned(exit)
    {
      phase := Returned(exit);
      Happened(if exit == Drained then AllPermits else GraceOver);
    }

    lemma Settled()
      requires Valid()
      ensures phase == Returned(Drained) && cfg.fanout < TWO_TO_THE_32
              ==> running == multiset{} && finished == multiset(handed)
    {
      Invariant();
      if phase == Returned(Drained) && cfg.fanout < TWO_TO_THE_32 {
        DrainedIsSettled(cfg, State());
      }
    }

    /** The whole loop against the answers of the server, with the token firing at any point
        if `early`, and at the latest when the answers are used up. It receives `claims` of
        them, all of them if the token does not fire early and there is no error. Their jobs,
        and no others, have been handed to the handler, once and in order; at most the next
        answer is lost, to the cancellation; an error is the next answer and ends the loop
        before the token fired; a complete drain leaves every handed job finished. */
    method Run(answers: Answers, patience: nat) returns (exit: Exit, ghost claims: nat)
      requires Valid() && AtTurn() && received == []
      requires Handouts(cfg, answers) && forall k | 0 <= k < |answers| :: Dispatchable(cfg, answers[k])
      modifies this
      ensures Valid() && phase == Returned(exit)
      ensures claims <= |answers| && None !in answers[..claims] && handed == received == Handed(answers[..claims])
      ensures lost == [] || (claims < |answers| && answers[claims] == Some(lost))
      ensures exit == ClaimFailed ==> claims < |answers| && answers[claims].None?
      ensures exit == ClaimFailed <==> !cancelled
      ensures !early && !old(cancelled) ==>
                lost == [] && if None in answers then exit == ClaimFailed else claims == |answers|
      ensures exit == Drained && cfg.fanout < TWO_TO_THE_32 ==> running == multiset{} && finished == multiset(handed)
    {
      var k := Turns(answers);
      claims := k;
      if phase.Returned? {
        exit := ClaimFailed;
      } else {
        LeaveLoop();
        exit := Drain(patience);
      }
    }

    /** The loop proper. */
    method Turns(answers: Answers) returns (k: nat)
      requires Valid() && AtTurn() && received == []
      requires Handouts(cfg, answers) && forall k | 0 <= k < |answers| :: Dispatchable(cfg, answers[k])
      modifies this
      ensures Valid() && k <= |answers| && None !in answers[..k] && handed == received == Handed(answers[..k])
      ensures Stopped(answers, k) && (phase.Turn? ==> k == |answers|)
      ensures !early && !old(cancelled) ==> !cancelled && !phase.Draining?
    {
      k := 0;
      while k < |answers| && phase.Turn?
        invariant k <= |answers| && None !in answers[..k]
        invariant Valid() && handed == received == Handed(answers[..k]) && Stopped(answers, k)
        invariant !early && !old(cancelled) ==> !cancelled && !phase.Draining?
        decreases |answers| - k, if phase.Turn? then 1 else 0
      {
        HandedNext(answers, k);
        OneTurn(answers[k]);
        if phase.Turn? {
          k := k + 1;
        }
      }
    }

    /** Between two turns, or how the turn with answer `k` ended the loop. */
    ghost predicate Stopped(answers: Answers, k: nat)
      reads this
    {
      match phase
      case Turn => AtTurn()
      case Draining => lost == [] || (k < |answers| && answers[k] == Some(lost))
      case Returned(exit) => exit == ClaimFailed && k < |answers| && answers[k].None? && !cancelled && lost == []
      case _ => false
    }

    /** The token fires at the latest now, at the top of the loop. */
    method LeaveLoop()
      requires Valid() && (phase == Turn || phase == Draining)
      modifies this`cancelled, this`phase, this`lost, this`orphaned, this`events
      ensures Valid() && phase == Draining && cancelled && lost == old(lost)
    {
      Invariant();
      if phase.Turn? {
        TokenFires();
        BreakOut();
      }
    }
  }
}
