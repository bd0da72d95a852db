/** A call that runs with nothing in between, as one function on the database; and
    the proof that this is what the step machine does when only that request moves. */
module Solo {
  import opened Lifecycle
  import opened Records
  import opened Tables
  import opened Rules
  import opened Machine

  /** The response of a Get. */
  function Response(db: Db, key: Key): Outcome {
    match Find(db, key)
    case None => Rejected(NotFound)
    case Some(row) => Returned(row, if key.kind == Decision then RevisionsOf(db, key.id) else [])
  }

  /** The audit entry and the response that follow a committed write. */
  function Conclude(db: Db, call: Call, key: Key, current: Row, now: nat, auditFails: bool): (Db, Outcome)
    requires key in db.rows
  {
    var logged := if auditFails then db else AppendAudit(db, EntryFor(call, key, current).(createdAt := now));
    var outcome :=
      if auditFails && ReportsAuditFailure(call.op) then Rejected(AuditFailed)
      else if call.op.Delete? then Dropped
      else if call.op.Create? && call.kind != Decision then Returned(db.rows[key], [])
      else Response(logged, key);
    (logged, outcome)
  }

  function Alone(db: Db, call: Call, now: nat, newId: nat, auditFails: bool): (Db, Outcome) {
    match call.op
    case Fetch => (db, Response(db, KeyOf(call)))
    case Create(_, _) => (
      var key := Key(call.kind, newId);
      match CreateRow(db, call, key, now)
      case Failure(error) => (db, Rejected(error))
      case Success(created) => Conclude(created, call, key, NewRow(call, now), now, auditFails))
    case _ => (
      var key := KeyOf(call);
      match Find(db, key)
      case None => (db, Rejected(NotFound))
      case Some(current) => (
        match Check(call, current)
        case Some(error) => (db, Rejected(error))
        case None => (
          match WriteRow(db, call, key, current, now)
          case Failure(error) => (db, Rejected(error))
          case Success(written) => Conclude(written, call, key, current, now, auditFails))))
  }

  /** The same step taken n times. */
  function Repeat(s: State, step: Step, n: nat): State
    decreases n
  {
    if n == 0 then s else Repeat(Apply(s, step), step, n - 1)
  }

  function Repeated(step: Step, n: nat): seq<Step> {
    if n == 0 then [] else [step] + Repeated(step, n - 1)
  }

  lemma {:induction false} RunRepeated(s: State, step: Step, n: nat)
    ensures Run(s, Repeated(step, n)) == Repeat(s, step, n)
    decreases n
  {
    if n > 0 {
      assert Repeated(step, n)[1..] == Repeated(step, n - 1);
      RunRepeated(Apply(s, step), step, n - 1);
    }
  }

  /** Arrival and six further steps of one request. */
  function SoloSteps(rid: nat, call: Call, now: nat, newId: nat, auditFails: bool): seq<Step> {
    [Arrive(rid, call)] + Repeated(Advance(rid, now, newId, auditFails), 6)
  }

  /** The request is done, with this database and outcome, and no other request moved. */
  predicate Ends(s: State, next: State, rid: nat, db: Db, outcome: Outcome) {
    && next.db == db
    && rid in next.requests && next.requests[rid].phase == Finished(outcome)
    && next.requests.Keys == s.requests.Keys + {rid}
    && forall other <- s.requests :: other != rid ==> next.requests[other] == s.requests[other]
  }

  lemma {:induction false} FinishedStays(s: State, rid: nat, step: Step, n: nat)
    requires rid in s.requests && s.requests[rid].phase.Finished? && step.Advance? && step.rid == rid
    ensures Repeat(s, step, n) == s
    decreases n
  {
    if n > 0 {
      FinishedStays(s, rid, step, n - 1);
    }
  }

  lemma FromRereading(s: State, rid: nat, step: Step, n: nat)
    requires rid in s.requests && s.requests[rid].phase.Rereading? && step.Advance? && step.rid == rid && n >= 2
    requires s.requests[rid].call.kind == s.requests[rid].key.kind
    ensures Ends(s, Repeat(s, step, n), rid, s.db, Response(s.db, s.requests[rid].key))
  {
    var one := Apply(s, step);
    if one.requests[rid].phase.Finished? {
      FinishedStays(one, rid, step, n - 1);
    } else {
      FinishedStays(Apply(one, step), rid, step, n - 2);
    }
  }

  lemma FromAuditing(s: State, rid: nat, step: Step, n: nat, call: Call, key: Key, current: Row)
    requires rid in s.requests && step.Advance? && step.rid == rid && n >= 3
    requires s.requests[rid].call == call && s.requests[rid].key == key && call.kind == key.kind && key in s.db.rows
    requires s.requests[rid].phase
          == Auditing(EntryFor(call, key, current), if call.op.Create? then Some(s.db.rows[key]) else None)
    ensures var end := Conclude(s.db, call, key, current, step.now, step.auditFails);
            Ends(s, Repeat(s, step, n), rid, end.0, end.1)
  {
    var one := Apply(s, step);
    if one.requests[rid].phase.Finished? {
      FinishedStays(one, rid, step, n - 1);
    } else {
      FromRereading(one, rid, step, n - 1);
    }
  }

  lemma FromWriting(s: State, rid: nat, step: Step, n: nat, current: Row)
    requires rid in s.requests && step.Advance? && step.rid == rid && n >= 4
    requires s.requests[rid].phase == Writing(current) && s.requests[rid].key == KeyOf(s.requests[rid].call)
    requires s.requests[rid].call.Versioned() || s.requests[rid].call.op.Delete?
    ensures var call := s.requests[rid].call;
            match WriteRow(s.db, call, KeyOf(call), current, step.now)
            case Failure(error) => Ends(s, Repeat(s, step, n), rid, s.db, Rejected(error))
            case Success(db) =>
              && KeyOf(call) in db.rows
              && var end := Conclude(db, call, KeyOf(call), current, step.now, step.auditFails);
                 Ends(s, Repeat(s, step, n), rid, end.0, end.1)
  {
    var call := s.requests[rid].call;
    var one := Apply(s, step);
    match WriteRow(s.db, call, KeyOf(call), current, step.now)
    case Failure(error) => FinishedStays(one, rid, step, n - 1);
    case Success(db) => FromAuditing(one, rid, step, n - 1, call, KeyOf(call), current);
  }

  lemma FromGuarded(s: State, rid: nat, step: Step, n: nat, current: Row)
    requires rid in s.requests && step.Advance? && step.rid == rid && n >= 4
    requires s.requests[rid].phase == Guarded(s.requests[rid].call, current)
    requires s.requests[rid].key == KeyOf(s.requests[rid].call)
    requires s.requests[rid].call.Versioned() || s.requests[rid].call.op.Delete?
    requires Find(s.db, s.requests[rid].key) == Some(current)
    ensures var end := Alone(s.db, s.requests[rid].call, step.now, step.newId, step.auditFails);
            Ends(s, Repeat(s, step, n), rid, end.0, end.1)
  {
    if s.requests[rid].phase.Finished? {
      FinishedStays(s, rid, step, n);
    } else {
      FromWriting(s, rid, step, n, current);
    }
  }

  lemma CreateAlone(s: State, rid: nat, step: Step)
    requires rid in s.requests && step.Advance? && step.rid == rid
    requires s.requests[rid].phase.Inserting? && s.requests[rid].call.op.Create?
    requires Key(s.requests[rid].call.kind, step.newId) !in s.db.rows
    ensures var end := Alone(s.db, s.requests[rid].call, step.now, step.newId, step.auditFails);
            Ends(s, Repeat(s, step, 6), rid, end.0, end.1)
  {
    var call := s.requests[rid].call;
    var key := Key(call.kind, step.newId);
    var one := Apply(s, step);
    match CreateRow(s.db, call, key, step.now)
    case Failure(_) => FinishedStays(one, rid, step, 5);
    case Success(db) => FromAuditing(one, rid, step, 5, call, key, NewRow(call, step.now));
  }

  lemma WriteAlone(s: State, rid: nat, step: Step)
    requires rid in s.requests && step.Advance? && step.rid == rid
    requires s.requests[rid].phase.Reading? && s.requests[rid].key == KeyOf(s.requests[rid].call)
    requires s.requests[rid].call.Versioned() || s.requests[rid].call.op.Delete?
    ensures var end := Alone(s.db, s.requests[rid].call, step.now, step.newId, step.auditFails);
            Ends(s, Repeat(s, step, 6), rid, end.0, end.1)
  {
    var call := s.requests[rid].call;
    var one := Apply(s, step);
    if Find(s.db, KeyOf(call)).None? {
      FinishedStays(one, rid, step, 5);
    } else {
      var current := Find(s.db, KeyOf(call)).value;
      if call.kind == Decision {
        FromGuarded(Apply(one, step), rid, step, 4, current);
      } else {
        FromGuarded(one, rid, step, 5, current);
      }
    }
  }

  /** Six steps of one request alone carry it from arrival to its response, and do
      exactly what Alone says. */
  lemma SoloRunIsAlone(s: State, rid: nat, call: Call, now: nat, newId: nat, auditFails: bool)
    requires rid !in s.requests
    requires call.op.Create? ==> Key(call.kind, newId) !in s.db.rows
    ensures var end := Alone(s.db, call, now, newId, auditFails);
            Ends(s, Run(s, SoloSteps(rid, call, now, newId, auditFails)), rid, end.0, end.1)
  {
    var step := Advance(rid, now, newId, auditFails);
    var zero := Apply(s, Arrive(rid, call));
    assert SoloSteps(rid, call, now, newId, auditFails)[1..] == Repeated(step, 6);
    RunRepeated(zero, step, 6);
    match call.op
    case Fetch => FromRereading(zero, rid, step, 6);
    case Create(_, _) => CreateAlone(zero, rid, step);
    case _ => WriteAlone(zero, rid, step);
  }

  /** What Alone writes is what the atomic operation writes. */
  lemma AloneWritesAtomically(db: Db, call: Call, now: nat, newId: nat, auditFails: bool)
    ensures var key := if call.op.Create? then Key(call.kind, newId) else KeyOf(call);
            var end := Alone(db, call, now, newId, auditFails);
            match Atomic(db, call, key, now)
            case Success(next) => end.0.rows == next.rows && end.0.revisions == next.revisions
            case Failure(error) => end == (db, Rejected(error))
  {
  }
}
