/** The atomic machine: one committed statement is one step. A step names the rows the
    statement wrote; each of them satisfied its WHERE clause in the state the step starts
    from. A step need not write every matching row, because a concurrent statement can miss
    rows that started to match after its snapshot. */
module Queue {
  import opened Schema

  /** `issued` is the set of ids that committed inserts have ever received. */
  datatype Db = Db(jobs: map<Id, Row>, dead: seq<DeadRow>, issued: set<Id>, clock: Time)

  /** `now` is the value of now() in the statement's transaction: its start, which may lie
      before the moment of commit. */
  datatype Op =
    | Tick(to: Time)
    | Insert(rows: map<Id, Row>)
    | Write(stmt: Stmt, ids: set<Id>, now: Time)
  {
    predicate Touches(id: Id) { Write? && id in ids }
    predicate Claims(id: Id) { Touches(id) && stmt.IsClaim() }
    predicate Releases(id: Id) { Touches(id) && stmt.IsRelease() }
  }

  const EMPTY: Db := Db(map[], [], {}, 0)

  ghost function Matching(jobs: map<Id, Row>, s: Stmt, now: Time): set<Id> {
    set id | id in jobs && Matches(s, id, jobs[id], now)
  }

  ghost predicate Enabled(db: Db, op: Op) {
    match op
    case Tick(to) => db.clock <= to
    case Insert(rows) =>
      && rows.Keys !! db.issued
      && forall id | id in rows :: rows[id] == NewRow(rows[id].kind, rows[id].payload, rows[id].runAt)
    case Write(s, ids, now) =>
      && now <= db.clock
      && ids <= Matching(db.jobs, s, now)
      && (s.IsClaim() ==> |ids| <= s.Window())
  }

  ghost function Apply(db: Db, op: Op): Db {
    match op
    case Tick(to) => db.(clock := to)
    case Insert(rows) => db.(jobs := db.jobs + rows, issued := db.issued + rows.Keys)
    case Write(s, ids, now) =>
      if s.DeadLetter? then
        db.(jobs := db.jobs - ids,
            dead := db.dead + if s.id in ids && s.id in db.jobs
                              then [DeadRow(s.id, Effect(s, db.jobs[s.id], now), now)] else [])
      else
        db.(jobs := Written(db.jobs, s, ids, now))
  }

  ghost function Written(jobs: map<Id, Row>, s: Stmt, ids: set<Id>, now: Time): map<Id, Row> {
    map id | id in jobs :: if id in ids then Effect(s, jobs[id], now) else jobs[id]
  }

  function Front<T>(s: seq<T>): seq<T>
    requires s != []
  {
    s[..|s| - 1]
  }

  function Last<T>(s: seq<T>): T
    requires s != []
  {
    s[|s| - 1]
  }

  /** The state after the steps `ops`, from the empty migrated database. */
  ghost function Exec(ops: seq<Op>): Db {
    if ops == [] then EMPTY else Apply(Exec(Front(ops)), Last(ops))
  }

  ghost predicate Legal(ops: seq<Op>) {
    ops == [] || (Legal(Front(ops)) && Enabled(Exec(Front(ops)), Last(ops)))
  }

  lemma {:induction false} LegalPrefix(ops: seq<Op>, i: nat)
    requires Legal(ops) && i <= |ops|
    ensures Legal(ops[..i])
    ensures i < |ops| ==> Enabled(Exec(ops[..i]), ops[i]) && Exec(ops[..i + 1]) == Apply(Exec(ops[..i]), ops[i])
    decreases |ops|
  {
    if i == |ops| {
      assert ops[..i] == ops;
    } else if i == |ops| - 1 {
      assert ops[..i + 1] == ops;
    } else {
      LegalPrefix(Front(ops), i);
      assert Front(ops)[..i] == ops[..i] && Front(ops)[..i + 1] == ops[..i + 1];
    }
  }

  /** The rows a claim of `ids` returns, read back after the update. */
  function Returning(jobs: map<Id, Row>, ids: set<Id>): set<Job> {
    set id | id in ids && id in jobs :: Job(id, jobs[id].kind, jobs[id].payload, jobs[id].attempts)
  }
}
