/** The idempotent handler: a dedupe row and the effect in one transaction, at the
    granularity of its statements, with any number of concurrent runs and crashes. */
module Ledger {
  import Schema
  import opened Queue

  type CallId = nat

  // ----- Dedupe keys

  const SEP: string := ":"

  function Key(carrier: string, event: string): string {
    carrier + SEP + event
  }

  /** Carrier `b` begins with carrier `a` and the separator. */
  predicate Extends(a: string, b: string) {
    a + SEP <= b
  }

  /** When the keys of two events collide: they are the same event, or one carrier id runs
      through the other's separator into its event id. */
  lemma KeyCollision(c1: string, e1: string, c2: string, e2: string)
    requires |c1| <= |c2|
    ensures Key(c1, e1) == Key(c2, e2)
       <==> (c1 == c2 && e1 == e2) || (Extends(c1, c2) && e1 == c2[|c1| + 1..] + SEP + e2)
  {
    var k1, k2 := Key(c1, e1), Key(c2, e2);
    if k1 == k2 {
      assert c1 == k1[..|c1|] && c2 == k2[..|c2|];
      assert e1 == k1[|c1| + 1..] && e2 == k2[|c2| + 1..];
      if |c1| < |c2| {
        assert c2[..|c1| + 1] == k2[..|c1| + 1] == c1 + SEP;
        assert c2[|c1| + 1..] + SEP + e2 == k2[|c1| + 1..];
      }
    } else if Extends(c1, c2) {
      assert c2 == c1 + SEP + c2[|c1| + 1..];
      assert c1 + SEP + (c2[|c1| + 1..] + SEP + e2) == c2 + SEP + e2;
    }
  }

  ghost predicate KeysInjective(carriers: set<string>) {
    forall c1, e1, c2, e2 | c1 in carriers && c2 in carriers && Key(c1, e1) == Key(c2, e2) :: c1 == c2 && e1 == e2
  }

  /** Keys identify events exactly when no carrier id extends another past the separator. */
  lemma KeysInjectiveExactlyWhen(carriers: set<string>)
    ensures KeysInjective(carriers) <==> forall a, b | a in carriers && b in carriers :: !Extends(a, b)
  {
    forall c1, e1, c2, e2 | c1 in carriers && c2 in carriers && Key(c1, e1) == Key(c2, e2)
      ensures Extends(c1, c2) || Extends(c2, c1) || (c1 == c2 && e1 == e2)
    {
      if |c1| <= |c2| {
        KeyCollision(c1, e1, c2, e2);
      } else {
        KeyCollision(c2, e2, c1, e1);
      }
    }
    forall a, b | a in carriers && b in carriers && Extends(a, b)
      ensures !KeysInjective(carriers)
    {
      KeyCollision(a, b[|a| + 1..] + SEP, b, "");
      assert b[|a| + 1..] + SEP + "" == b[|a| + 1..] + SEP;
    }
  }

  lemma ExtendsHasSeparator(a: string, b: string)
    ensures Extends(a, b) ==> ':' in b
  {
    if Extends(a, b) {
      assert b[|a|] == (a + SEP)[|a|] == ':';
    }
  }

  /** In particular when no carrier id contains the separator. */
  lemma ColonFreeCarriersAreSafe(carriers: set<string>)
    requires forall c | c in carriers :: ':' !in c
    ensures KeysInjective(carriers)
  {
    forall a, b | a in carriers && b in carriers
      ensures !Extends(a, b)
    {
      ExtendsHasSeparator(a, b);
    }
    KeysInjectiveExactlyWhen(carriers);
  }

  // ----- The transaction machine

  datatype Outcome = Applied | Duplicate

  /** Where a run of the handler stands: opened; refused by the ledger; holding the
      uncommitted dedupe row; holding it and the uncommitted effect. */
  datatype Phase = Opened | Refused | Holding | Landed

  datatype Call = Call(key: string, phase: Phase) {
    predicate HoldsKey() { phase == Holding || phase == Landed }
  }

  datatype Reply = Reply(call: CallId, key: string, outcome: Outcome)

  /** Committed tables, runs in progress, and the Ok results that callers received. */
  datatype State = State(processed: set<string>, effects: seq<string>,
                         calls: map<CallId, Call>, used: set<CallId>, replies: seq<Reply>)

  /** `heard` says whether the caller gets to see the result of the commit. */
  datatype Step =
    | Start(c: CallId, carrier: string, event: string)
    | InsertKey(c: CallId)
    | InsertEffect(c: CallId)
    | Commit(c: CallId, heard: bool)
    | Rollback(c: CallId, heard: bool)
    | Crash(c: CallId)

  const CLEAN: State := State({}, [], map[], {}, [])

  /** ON CONFLICT DO NOTHING waits for another run's uncommitted row with the same key. */
  ghost predicate KeyHeldByOther(s: State, c: CallId, key: string) {
    exists d :: d in s.calls && d != c && s.calls[d].HoldsKey() && s.calls[d].key == key
  }

  ghost predicate CanStep(s: State, step: Step) {
    match step
    case Start(c, _, _) => c !in s.used
    case InsertKey(c) => c in s.calls && s.calls[c].phase == Opened && !KeyHeldByOther(s, c, s.calls[c].key)
    case InsertEffect(c) => c in s.calls && s.calls[c].phase == Holding
    case Commit(c, _) => c in s.calls && s.calls[c].phase == Landed
    case Rollback(c, _) => c in s.calls && s.calls[c].phase == Refused
    case Crash(c) => c in s.calls
  }

  ghost function DoStep(s: State, step: Step): State
    requires CanStep(s, step)
  {
    match step
    case Start(c, carrier, event) =>
      s.(calls := s.calls[c := Call(Key(carrier, event), Opened)], used := s.used + {c})
    case InsertKey(c) =>
      var phase := if s.calls[c].key in s.processed then Refused else Holding;
      s.(calls := s.calls[c := s.calls[c].(phase := phase)])
    case InsertEffect(c) => s.(calls := s.calls[c := s.calls[c].(phase := Landed)])
    case Commit(c, heard) =>
      var key := s.calls[c].key;
      s.(processed := s.processed + {key}, effects := s.effects + [key], calls := s.calls - {c},
         replies := s.replies + if heard then [Reply(c, key, Applied)] else [])
    case Rollback(c, heard) =>
      s.(calls := s.calls - {c},
         replies := s.replies + if heard then [Reply(c, s.calls[c].key, Duplicate)] else [])
    case Crash(c) => s.(calls := s.calls - {c})
  }

  ghost predicate Runs(steps: seq<Step>)
    decreases |steps|, 0
  {
    steps == [] || (Runs(Front(steps)) && CanStep(After(Front(steps)), Last(steps)))
  }

  ghost function After(steps: seq<Step>): State
    requires Runs(steps)
    decreases |steps|, 1
  {
    if steps == [] then CLEAN else DoStep(After(Front(steps)), Last(steps))
  }

  // ----- Exactly one effect

  function Effects(log: seq<string>, key: string): nat {
    if log == [] then 0 else Effects(Front(log), key) + if Last(log) == key then 1 else 0
  }

  function AppliedReplies(replies: seq<Reply>, key: string): nat {
    if replies == [] then 0
    else AppliedReplies(Front(replies), key)
         + if Last(replies).key == key && Last(replies).outcome == Applied then 1 else 0
  }

  ghost predicate KeyOk(s: State, key: string) {
    && Effects(s.effects, key) == (if key in s.processed then 1 else 0)
    && AppliedReplies(s.replies, key) <= Effects(s.effects, key)
  }

  ghost predicate CallsOk(s: State) {
    && s.calls.Keys <= s.used
    && (forall c | c in s.calls && s.calls[c].HoldsKey() :: s.calls[c].key !in s.processed)
    && (forall c | c in s.calls && s.calls[c].phase == Refused :: s.calls[c].key in s.processed)
    && (forall c, d | c in s.calls && d in s.calls && c != d && s.calls[c].HoldsKey() && s.calls[d].HoldsKey() ::
          s.calls[c].key != s.calls[d].key)
    && (forall r | r in s.replies :: r.key in s.processed)
  }

  lemma AppendEffects(log: seq<string>, x: string, key: string)
    ensures Effects(log + [x], key) == Effects(log, key) + if x == key then 1 else 0
  {
  }

  lemma AppendReplies(log: seq<Reply>, x: Reply, key: string)
    ensures AppliedReplies(log + [x], key)
         == AppliedReplies(log, key) + if x.key == key && x.outcome == Applied then 1 else 0
  {
  }

  lemma StepKeepsCallsOk(s: State, step: Step)
    requires CallsOk(s) && CanStep(s, step)
    ensures CallsOk(DoStep(s, step))
  {
  }

  lemma StepKeepsKeyOk(s: State, step: Step, key: string)
    requires CallsOk(s) && KeyOk(s, key) && CanStep(s, step)
    ensures KeyOk(DoStep(s, step), key)
  {
    if step.Commit? {
      CommitKeepsKeyOk(s, step.c, step.heard, key);
    } else if step.Rollback? {
      RollbackKeepsKeyOk(s, step.c, step.heard, key);
    }
  }

  lemma CommitKeepsKeyOk(s: State, c: CallId, heard: bool, key: string)
    requires CallsOk(s) && KeyOk(s, key) && CanStep(s, Commit(c, heard))
    ensures KeyOk(DoStep(s, Commit(c, heard)), key)
  {
    var k := s.calls[c].key;
    assert k !in s.processed;
    AppendEffects(s.effects, k, key);
    AppendReplies(s.replies, Reply(c, k, Applied), key);
    assert s.replies + [] == s.replies;
  }

  lemma RollbackKeepsKeyOk(s: State, c: CallId, heard: bool, key: string)
    requires KeyOk(s, key) && CanStep(s, Rollback(c, heard))
    ensures KeyOk(DoStep(s, Rollback(c, heard)), key)
  {
    AppendReplies(s.replies, Reply(c, s.calls[c].key, Duplicate), key);
    assert s.replies + [] == s.replies;
  }

  /** Exactly-once effect in every run: a key has at most one effect and is in the ledger
      exactly when its effect landed; whoever got an Ok for it, there is exactly one; and at
      most one caller is told that it applied the effect. */
  lemma {:induction false} ExactlyOnce(steps: seq<Step>, key: string)
    requires Runs(steps)
    ensures CallsOk(After(steps)) && KeyOk(After(steps), key)
    ensures Effects(After(steps).effects, key) <= 1
    ensures key in After(steps).processed <==> Effects(After(steps).effects, key) == 1
    ensures forall r | r in After(steps).replies && r.key == key :: Effects(After(steps).effects, key) == 1
    ensures AppliedReplies(After(steps).replies, key) <= 1
  {
    if steps != [] {
      ExactlyOnce(Front(steps), key);
      StepKeepsCallsOk(After(Front(steps)), Last(steps));
      StepKeepsKeyOk(After(Front(steps)), Last(steps), key);
    }
  }

  // ----- What callers are told

  /** The run `c` of the handler was started for this event. */
  ghost predicate StartedFor(steps: seq<Step>, c: CallId, key: string) {
    exists k :: 0 <= k < |steps| && steps[k].Start? && steps[k].c == c
                && key == steps[k].carrier + ":" + steps[k].event
  }

  ghost predicate Committed(steps: seq<Step>, c: CallId) {
    exists k, heard :: 0 <= k < |steps| && steps[k] == Commit(c, heard)
  }

  /** A reply says what happened: Applied to a run whose own transaction committed the effect,
      Duplicate to a run whose transaction did not, about the event it was started for. */
  ghost predicate Truthful(steps: seq<Step>, r: Reply) {
    && StartedFor(steps, r.call, r.key)
    && (r.outcome == Applied <==> Committed(steps, r.call))
  }

  ghost predicate CallsExplained(steps: seq<Step>)
    requires Runs(steps)
  {
    && (forall c | c in After(steps).calls ::
          c in After(steps).used && StartedFor(steps, c, After(steps).calls[c].key) && !Committed(steps, c))
    && (forall c | Committed(steps, c) :: c in After(steps).used)
  }

  ghost predicate RepliesExplained(steps: seq<Step>)
    requires Runs(steps)
  {
    forall r | r in After(steps).replies ::
      Truthful(steps, r) && r.call in After(steps).used && r.call !in After(steps).calls
  }

  lemma StartedForGrows(steps: seq<Step>, c: CallId, key: string)
    requires steps != [] && StartedFor(Front(steps), c, key)
    ensures StartedFor(steps, c, key)
  {
    var k :| 0 <= k < |Front(steps)| && Front(steps)[k].Start? && Front(steps)[k].c == c
             && key == Front(steps)[k].carrier + ":" + Front(steps)[k].event;
    assert steps[k] == Front(steps)[k];
  }

  lemma CommittedFront(steps: seq<Step>, c: CallId)
    requires steps != []
    ensures Committed(steps, c) <==> Committed(Front(steps), c) || (Last(steps).Commit? && Last(steps).c == c)
  {
    if Committed(Front(steps), c) {
      var k, heard :| 0 <= k < |Front(steps)| && Front(steps)[k] == Commit(c, heard);
      assert steps[k] == Commit(c, heard);
    }
    if Committed(steps, c) {
      var k, heard :| 0 <= k < |steps| && steps[k] == Commit(c, heard);
      assert k < |steps| - 1 ==> Front(steps)[k] == Commit(c, heard);
    }
    if Last(steps).Commit? && Last(steps).c == c {
      assert steps[|steps| - 1] == Commit(c, Last(steps).heard);
    }
  }

  lemma HistoryGrows(steps: seq<Step>)
    requires steps != []
    ensures forall c ::
              Committed(steps, c) <==> Committed(Front(steps), c) || (Last(steps).Commit? && Last(steps).c == c)
    ensures forall c, key | StartedFor(Front(steps), c, key) :: StartedFor(steps, c, key)
    ensures Last(steps).Start? ==> StartedFor(steps, Last(steps).c, Last(steps).carrier + ":" + Last(steps).event)
  {
    forall c
      ensures Committed(steps, c) <==> Committed(Front(steps), c) || (Last(steps).Commit? && Last(steps).c == c)
    {
      CommittedFront(steps, c);
    }
    forall c, key | StartedFor(Front(steps), c, key)
      ensures StartedFor(steps, c, key)
    {
      StartedForGrows(steps, c, key);
    }
    assert steps[|steps| - 1] == Last(steps);
  }

  lemma {:induction false} CallsAreExplained(steps: seq<Step>)
    requires Runs(steps)
    ensures CallsExplained(steps)
  {
    if steps != [] {
      CallsAreExplained(Front(steps));
      HistoryGrows(steps);
    }
  }

  lemma {:induction false} RepliesAreExplained(steps: seq<Step>)
    requires Runs(steps)
    ensures RepliesExplained(steps)
  {
    if steps != [] {
      RepliesAreExplained(Front(steps));
      CallsAreExplained(Front(steps));
      HistoryGrows(steps);
    }
  }

  ghost predicate Told(replies: seq<Reply>, c: CallId, outcome: Outcome) {
    exists r :: r in replies && r.call == c && r.outcome == outcome
  }

  lemma ToldAfter(s: State, step: Step)
    requires CanStep(s, step)
    ensures forall c, outcome | Told(s.replies, c, outcome) :: Told(DoStep(s, step).replies, c, outcome)
    ensures step.Commit? && step.heard ==> Told(DoStep(s, step).replies, step.c, Applied)
    ensures step.Rollback? && step.heard ==> Told(DoStep(s, step).replies, step.c, Duplicate)
  {
    var more := DoStep(s, step).replies;
    assert s.replies <= more;
    forall c, outcome | Told(s.replies, c, outcome)
      ensures Told(more, c, outcome)
    {
      var r :| r in s.replies && r.call == c && r.outcome == outcome;
      assert r in more;
    }
    if |more| > |s.replies| {
      assert Last(more) in more;
    }
  }

  ghost function Commits(steps: seq<Step>): nat {
    if steps == [] then 0 else Commits(Front(steps)) + if Last(steps).Commit? then 1 else 0
  }

  /** Whoever hears of a commit is told Applied, whoever hears of a rollback Duplicate, each
      about its own event; and every effect has its own commit, heard of or not. */
  lemma {:induction false} RepliesAreTruthful(steps: seq<Step>)
    requires Runs(steps)
    ensures forall r | r in After(steps).replies :: Truthful(steps, r)
    ensures forall k | 0 <= k < |steps| && steps[k].Commit? && steps[k].heard ::
              Told(After(steps).replies, steps[k].c, Applied)
    ensures forall k | 0 <= k < |steps| && steps[k].Rollback? && steps[k].heard ::
              Told(After(steps).replies, steps[k].c, Duplicate)
    ensures |After(steps).effects| == Commits(steps)
  {
    RepliesAreExplained(steps);
    if steps != [] {
      RepliesAreTruthful(Front(steps));
      ToldAfter(After(Front(steps)), Last(steps));
      assert forall k | 0 <= k < |steps| - 1 :: Front(steps)[k] == steps[k];
    }
  }

  // ----- An answer can always be had

  /** The state after all of `steps`, if each of them can happen in turn. */
  ghost function DoAll(s: State, steps: seq<Step>): Schema.Option<State> {
    if steps == [] then Schema.Some(s)
    else match DoAll(s, Front(steps))
         case None => Schema.None
         case Some(m) => if CanStep(m, Last(steps)) then Schema.Some(DoStep(m, Last(steps))) else Schema.None
  }

  lemma Then(s: State, steps: seq<Step>, step: Step) returns (more: seq<Step>)
    requires DoAll(s, steps).Some? && CanStep(DoAll(s, steps).value, step)
    ensures more == steps + [step] && DoAll(s, more) == Schema.Some(DoStep(DoAll(s, steps).value, step))
  {
    more := steps + [step];
    assert Front(more) == steps;
  }

  /** From every state in which calls respect each other's keys an event can be processed to
      an answer: at worst the run that holds its key crashes first. */
  lemma EventCanBeAnswered(s: State, c: CallId, carrier: string, event: string) returns (steps: seq<Step>)
    requires CallsOk(s) && c !in s.used
    ensures DoAll(s, steps).Some?
    ensures exists r :: r in DoAll(s, steps).value.replies && r.call == c && r.key == Key(carrier, event)
  {
    var key := Key(carrier, event);
    steps := KeyCanBeFreed(s, c, key);
    var free := DoAll(s, steps).value;
    steps := Then(s, steps, Start(c, carrier, event));
    var started := DoAll(s, steps).value;
    assert started.calls[c] == Call(key, Opened) && !KeyHeldByOther(started, c, key);
    steps := Then(s, steps, InsertKey(c));
    steps := CanBeTold(s, c, steps);
  }

  lemma KeyCanBeFreed(s: State, c: CallId, key: string) returns (steps: seq<Step>)
    requires CallsOk(s) && c !in s.used
    ensures DoAll(s, steps).Some? && c !in DoAll(s, steps).value.used
    ensures forall d | d in DoAll(s, steps).value.calls && DoAll(s, steps).value.calls[d].HoldsKey() ::
              DoAll(s, steps).value.calls[d].key != key
  {
    steps := [];
    if d :| d in s.calls && s.calls[d].HoldsKey() && s.calls[d].key == key {
      steps := Then(s, steps, Crash(d));
    }
  }

  lemma CanBeTold(s: State, c: CallId, before: seq<Step>) returns (steps: seq<Step>)
    requires DoAll(s, before).Some?
    requires var m := DoAll(s, before).value;
             c in m.calls && (m.calls[c].phase == Refused || m.calls[c].phase == Holding)
    ensures DoAll(s, steps).Some?
    ensures exists r :: r in DoAll(s, steps).value.replies && r.call == c
                        && r.key == DoAll(s, before).value.calls[c].key
  {
    var call := DoAll(s, before).value.calls[c];
    if call.phase == Refused {
      steps := Then(s, before, Rollback(c, true));
      assert Last(DoAll(s, steps).value.replies) == Reply(c, call.key, Duplicate);
    } else {
      steps := Then(s, before, InsertEffect(c));
      steps := Then(s, steps, Commit(c, true));
      assert Last(DoAll(s, steps).value.replies) == Reply(c, call.key, Applied);
    }
  }

  /** Runs start and crash at any time; a run waits for nothing but another run's uncommitted
      row with the same key. */
  lemma WaitsOnlyForSameKey(steps: seq<Step>, c: CallId, carrier: string, event: string)
    requires Runs(steps)
    ensures c !in After(steps).used ==> CanStep(After(steps), Start(c, carrier, event))
    ensures c in After(steps).calls ==>
              && CanStep(After(steps), Crash(c))
              && match After(steps).calls[c].phase
                 case Opened =>
                   CanStep(After(steps), InsertKey(c)) <==>
                     forall d | d in After(steps).calls && d != c && After(steps).calls[d].phase in {Holding, Landed} ::
                       After(steps).calls[d].key != After(steps).calls[c].key
                 case Refused => forall heard :: CanStep(After(steps), Rollback(c, heard))
                 case Holding => CanStep(After(steps), InsertEffect(c))
                 case Landed => forall heard :: CanStep(After(steps), Commit(c, heard))
  {
  }
}
