/** The `jobs` table, its rows, and the WHERE and SET clauses of every statement the
    library sends. Both machines, the session class and all whole-run lemmas share these
    definitions, so a statement is written down once. */
module Schema {

  datatype Option<+T> = None | Some(value: T)

  type Id = nat

  /** Microseconds, the resolution of `timestamptz`. */
  type Time = int

  const SECOND: int := 1_000_000
  const DEFAULT_MAX_ATTEMPTS: nat := 20
  const BACKOFF_CAP: nat := 3600
  const TWO_TO_THE_63: int := 0x8000_0000_0000_0000

  /** The JSON payload, opaque except for the two fields the handlers read. */
  datatype Payload = Payload(carrierId: Option<string>, eventId: string, body: string)

  datatype State = Ready | Running | Done | Dead

  datatype Row = Row(kind: string, payload: Payload, state: State, runAt: Time,
                     lockedAt: Option<Time>, lockedBy: Option<string>,
                     attempts: nat, maxAttempts: nat, lastError: Option<string>)

  datatype DeadRow = DeadRow(id: Id, row: Row, diedAt: Time)

  /** What a claim hands back. */
  datatype Job = Job(id: Id, kind: string, payload: Payload, attempts: nat)

  /** A freshly inserted row: every column not named by the INSERT takes its default. */
  function NewRow(kind: string, payload: Payload, runAt: Time): Row {
    Row(kind, payload, Ready, runAt, None, None, 0, DEFAULT_MAX_ATTEMPTS, None)
  }

  /** The update statements. `caller` is the worker that made the call; three of the
      statements filter by id alone, so no WHERE clause below reads it. */
  datatype Stmt =
    | ClaimBatch(kinds: set<string>, limit: nat, worker: string)
    | FairClaim(kinds: set<string>, batch: nat, cap: nat, worker: string)
    | Heartbeat(asked: set<Id>, worker: string)
    | Reap(secs: int)
    | MarkDone(id: Id, caller: string)
    | Requeue(id: Id, error: string, caller: string)
    | DeadLetter(id: Id, error: string, caller: string)
  {
    predicate IsClaim() { ClaimBatch? || FairClaim? }

    /** A statement that clears the lease and makes the row ready again. */
    predicate IsRelease() { Reap? || Requeue? }

    /** How many rows the inner select of a claim may lock. */
    function Window(): nat
      requires IsClaim()
    {
      if ClaimBatch? then limit else batch * 4
    }

    /** `$2 * 4` is bigint arithmetic: PostgreSQL rejects the statement on overflow. */
    predicate Evaluates() {
      IsClaim() ==> Window() < TWO_TO_THE_63
    }
  }

  predicate Eligible(r: Row, kinds: set<string>, now: Time) {
    r.state == Ready && r.runAt <= now && r.kind in kinds
  }

  /** The WHERE clause. A comparison with a NULL column is never true. */
  predicate Matches(s: Stmt, id: Id, r: Row, now: Time) {
    match s
    case ClaimBatch(kinds, _, _) => Eligible(r, kinds, now)
    case FairClaim(kinds, _, _, _) => Eligible(r, kinds, now)
    case Heartbeat(asked, w) => id in asked && r.lockedBy == Some(w) && r.state == Running
    case Reap(secs) =>
      && r.state == Running
      && r.lockedAt.Some? && r.lockedAt.value < now - secs * SECOND
      && r.attempts < r.maxAttempts
    case MarkDone(i, _) => id == i
    case Requeue(i, _, _) => id == i && r.attempts < r.maxAttempts
    case DeadLetter(i, _, _) => id == i
  }

  /** The SET clause; for a dead letter, the row as it is inserted into `jobs_dead`. */
  function Effect(s: Stmt, r: Row, now: Time): Row {
    match s
    case ClaimBatch(_, _, w) => Leased(r, w, now)
    case FairClaim(_, _, _, w) => Leased(r, w, now)
    case Heartbeat(_, _) => r.(lockedAt := Some(now))
    case Reap(_) => r.(state := Ready, lockedAt := None, lockedBy := None)
    case MarkDone(_, _) => r.(state := Done, lockedAt := None, lockedBy := None)
    case Requeue(_, error, _) =>
      r.(state := Ready, runAt := now + Backoff(r.attempts) * SECOND,
         lockedAt := None, lockedBy := None, lastError := Some(error))
    case DeadLetter(_, error, _) => r.(state := Dead, lastError := Some(error))
  }

  function Leased(r: Row, worker: string, now: Time): Row {
    r.(state := Running, lockedAt := Some(now), lockedBy := Some(worker), attempts := r.attempts + 1)
  }

  function Pow2(n: nat): nat {
    if n == 0 then 1 else 2 * Pow2(n - 1)
  }

  /** `least(power(2, attempts), 3600)`, in seconds. */
  function Backoff(attempts: nat): nat {
    if Pow2(attempts) < BACKOFF_CAP then Pow2(attempts) else BACKOFF_CAP
  }

  function Min(a: int, b: int): int {
    if a < b then a else b
  }
}
