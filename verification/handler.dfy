/** `process` as it changes its two tables: one transaction that either lands both the
    dedupe row and the effect, or neither. */
module Handler {
  import opened Ledger

  datatype Result<+T> = Ok(value: T) | Err

  /** Where, if anywhere, the connection fails. A commit can also succeed without the caller
      hearing of it. */
  datatype Fault = Never | OnBegin | OnDedupe | OnEffect | OnEnd | AfterCommit

  class EffectTables {
    var processed: set<string>
    var effects: seq<string>

    ghost predicate Valid()
      reads this
    {
      forall key :: Effects(effects, key) == if key in processed then 1 else 0
    }

    constructor ()
      ensures Valid() && processed == {} && effects == []
    {
      processed, effects := {}, [];
    }

    method Process(carrier: string, event: string, fault: Fault) returns (r: Result<Outcome>)
      requires Valid()
      modifies this
      ensures Valid()
      ensures r.Ok? ==> Effects(effects, Key(carrier, event)) == 1
      ensures r == Ok(Applied) <==> fault == Never && Key(carrier, event) !in old(processed)
      ensures r == Ok(Duplicate) <==> fault in {Never, OnEffect, AfterCommit} && Key(carrier, event) in old(processed)
      ensures if Key(carrier, event) !in old(processed) && fault in {Never, AfterCommit}
              then processed == old(processed) + {Key(carrier, event)}
                   && effects == old(effects) + [Key(carrier, event)]
              else processed == old(processed) && effects == old(effects)
    {
      if fault == OnBegin {
        return Err;
      }
      var key := Key(carrier, event);
      var ledger, log := processed, effects;
      var inserted := if key in ledger then 0 else 1;
      ledger := ledger + {key};
      if fault == OnDedupe {
        return Err;
      }
      if inserted == 0 {
        return if fault == OnEnd then Err else Ok(Duplicate);
      }
      log := log + [key];
      if fault == OnEffect || fault == OnEnd {
        return Err;
      }
      processed, effects := ledger, log;
      forall k
        ensures Effects(effects, k) == if k in processed then 1 else 0
      {
        AppendEffects(old(effects), key, k);
      }
      r := if fault == AfterCommit then Err else Ok(Applied);
    }
  }
}
