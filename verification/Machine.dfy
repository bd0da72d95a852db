/** Any number of service calls in flight.  One step is one SQL statement or one
    transaction of one request, so steps of different requests interleave freely
    and a request acts on whatever it read earlier. */
module Machine {
  import opened Lifecycle
  import opened Records
  import opened Tables
  import opened Rules

  /** Where a request stands: the statement it will execute next, with what it
      carries from the statements before. */
  datatype Phase =
    | Reading                                          // the row query of the first Get
    | Preloading(current: Row)                         // its revision query (decisions only)
    | Inserting                                        // the insert of a create
    | Writing(current: Row)                            // the write, all guards passed on current
    | Auditing(entry: AuditEntry, reply: Option<Row>)  // the audit append
    | Rereading                                        // the row query of the response
    | Reloading(item: Row)                             // its revision query (decisions only)
    | Finished(outcome: Outcome)

  /** What became of the audit entry of a committed write. */
  datatype Fate = Unwritten | Pending | Logged | Lost

  /** commit is the position of the request's write in the commit order. */
  datatype Request = Request(call: Call, key: Key, phase: Phase, commit: Option<nat>, fate: Fate)

  /** A write that took effect, with the stored row before and after it. */
  datatype Commit = Commit(rid: nat, call: Call, key: Key, before: Option<Row>, after: Row, now: nat)

  /** history records the writes in commit order; no step reads it. */
  datatype State = State(db: Db, requests: map<nat, Request>, history: seq<Commit>)

  datatype Step =
    | Arrive(rid: nat, call: Call)
    | Advance(rid: nat, now: nat, newId: nat, auditFails: bool)

  function FirstPhase(op: Op): Phase {
    match op
    case Create(_, _) => Inserting
    case Fetch => Rereading
    case _ => Reading
  }

  function Guarded(call: Call, current: Row): Phase {
    match Check(call, current)
    case Some(error) => Finished(Rejected(error))
    case None => Writing(current)
  }

  function AfterRead(request: Request, db: Db): Phase {
    match Find(db, request.key)
    case None => Finished(Rejected(NotFound))
    case Some(row) => if request.call.kind == Decision then Preloading(row) else Guarded(request.call, row)
  }

  function AfterReread(request: Request, db: Db): Phase {
    match Find(db, request.key)
    case None => Finished(Rejected(NotFound))
    case Some(row) => if request.call.kind == Decision then Reloading(row) else Finished(Returned(row, []))
  }

  /** The statements that only read move one request and nothing else. */
  predicate Reads(phase: Phase) {
    phase.Reading? || phase.Preloading? || phase.Rereading? || phase.Reloading?
  }

  function AfterQuery(request: Request, db: Db): Phase
    requires Reads(request.phase)
  {
    match request.phase
    case Reading => AfterRead(request, db)
    case Preloading(current) => Guarded(request.call, current)
    case Rereading => AfterReread(request, db)
    case Reloading(item) => Finished(Returned(item, RevisionsOf(db, request.key.id)))
  }

  /** A create answers with the row it inserted, except that a decision is read back. */
  function AfterAudit(call: Call, reply: Option<Row>): Phase {
    match call.op
    case Create(_, _) => if call.kind == Decision || reply.None? then Rereading else Finished(Returned(reply.value, []))
    case Delete => Finished(Dropped)
    case _ => Rereading
  }

  /** A write that took effect: the database moves, the history grows, and the
      audit entry built from the row the request had read becomes due. */
  function Committed(s: State, rid: nat, request: Request, key: Key, db: Db, current: Row, now: nat): State
    requires key in db.rows
  {
    var after := db.rows[key];
    var before := if key in s.db.rows then Some(s.db.rows[key]) else None;
    var phase := Auditing(EntryFor(request.call, key, current), if request.call.op.Create? then Some(after) else None);
    State(db,
          s.requests[rid := Request(request.call, key, phase, Some(|s.history|), Pending)],
          s.history + [Commit(rid, request.call, key, before, after, now)])
  }

  function Moved(s: State, rid: nat, phase: Phase): State
    requires rid in s.requests
  {
    s.(requests := s.requests[rid := s.requests[rid].(phase := phase)])
  }

  function InsertStep(s: State, rid: nat, now: nat, newId: nat): State
    requires rid in s.requests && s.requests[rid].call.op.Create?
  {
    var request := s.requests[rid];
    var key := Key(request.call.kind, newId);
    if key in s.db.rows then s  // the database never hands out a used id
    else
      match CreateRow(s.db, request.call, key, now)
      case Failure(error) => Moved(s, rid, Finished(Rejected(error)))
      case Success(db) => Committed(s, rid, request, key, db, NewRow(request.call, now), now)
  }

  function WriteStep(s: State, rid: nat, current: Row, now: nat): State
    requires rid in s.requests && (s.requests[rid].call.Versioned() || s.requests[rid].call.op.Delete?)
  {
    var request := s.requests[rid];
    match WriteRow(s.db, request.call, request.key, current, now)
    case Failure(error) => Moved(s, rid, Finished(Rejected(error)))
    case Success(db) => Committed(s, rid, request, request.key, db, current, now)
  }

  function AuditStep(s: State, rid: nat, entry: AuditEntry, reply: Option<Row>, now: nat, fails: bool): State
    requires rid in s.requests
  {
    var request := s.requests[rid];
    var next :=
      if fails && ReportsAuditFailure(request.call.op) then Finished(Rejected(AuditFailed))
      else AfterAudit(request.call, reply);
    State(if fails then s.db else AppendAudit(s.db, entry.(createdAt := now)),
          s.requests[rid := request.(phase := next, fate := if fails then Lost else Logged)],
          s.history)
  }

  /** One step.  Steps that do not apply leave the state unchanged. */
  function Apply(s: State, step: Step): State {
    match step
    case Arrive(rid, call) =>
      if rid in s.requests then s
      else s.(requests := s.requests[rid := Request(call, KeyOf(call), FirstPhase(call.op), None, Unwritten)])
    case Advance(rid, now, newId, auditFails) =>
      if rid !in s.requests then s
      else
        var request := s.requests[rid];
        match request.phase
        case Inserting => if request.call.op.Create? then InsertStep(s, rid, now, newId) else s
        case Writing(current) =>
          if request.call.Versioned() || request.call.op.Delete? then WriteStep(s, rid, current, now) else s
        case Auditing(entry, reply) => AuditStep(s, rid, entry, reply, now, auditFails)
        case Finished(_) => s
        case _ => Moved(s, rid, AfterQuery(request, s.db))
  }

  /** The step is a write that takes effect. */
  predicate WriteLands(s: State, step: Step) {
    && step.Advance? && step.rid in s.requests && s.requests[step.rid].phase.Writing?
    && var request := s.requests[step.rid];
       && (request.call.Versioned() || request.call.op.Delete?)
       && WriteRow(s.db, request.call, request.key, request.phase.current, step.now).Success?
  }

  /** The step is an insert that takes effect. */
  predicate InsertLands(s: State, step: Step) {
    && step.Advance? && step.rid in s.requests && s.requests[step.rid].phase.Inserting?
    && s.requests[step.rid].call.op.Create?
    && var key := Key(s.requests[step.rid].call.kind, step.newId);
       key !in s.db.rows && CreateRow(s.db, s.requests[step.rid].call, key, step.now).Success?
  }

  /** The key a committing step writes. */
  function TargetKey(s: State, step: Step): Key
    requires WriteLands(s, step) || InsertLands(s, step)
  {
    if WriteLands(s, step) then s.requests[step.rid].key else Key(s.requests[step.rid].call.kind, step.newId)
  }

  /** The database a committing step leaves. */
  function NextDb(s: State, step: Step): Db
    requires WriteLands(s, step) || InsertLands(s, step)
  {
    var request := s.requests[step.rid];
    if WriteLands(s, step) then WriteRow(s.db, request.call, request.key, request.phase.current, step.now).value
    else CreateRow(s.db, request.call, TargetKey(s, step), step.now).value
  }

  /** The row a committing step acts on: what it read, or the row it creates. */
  function BasisRow(s: State, step: Step): Row
    requires WriteLands(s, step) || InsertLands(s, step)
  {
    var request := s.requests[step.rid];
    if WriteLands(s, step) then request.phase.current else NewRow(request.call, step.now)
  }

  /** A step that takes effect is one commit. */
  lemma CommittingStep(s: State, step: Step)
    requires WriteLands(s, step) || InsertLands(s, step)
    ensures TargetKey(s, step) in NextDb(s, step).rows
    ensures Apply(s, step)
         == Committed(s, step.rid, s.requests[step.rid],
                      TargetKey(s, step), NextDb(s, step), BasisRow(s, step), step.now)
  {
  }

  /** Every other step leaves the tables and the commit order alone. */
  lemma QuietStep(s: State, step: Step)
    requires !WriteLands(s, step) && !InsertLands(s, step)
    ensures Apply(s, step).db.rows == s.db.rows && Apply(s, step).db.revisions == s.db.revisions
    ensures Apply(s, step).history == s.history
  {
  }

  /** A step moves at most the request it names and never changes its call. */
  lemma StepFrame(s: State, step: Step)
    ensures forall rid <- s.requests :: rid in Apply(s, step).requests
    ensures forall rid <- s.requests :: rid != step.rid ==> Apply(s, step).requests[rid] == s.requests[rid]
    ensures forall rid <- s.requests :: Apply(s, step).requests[rid].call == s.requests[rid].call
    ensures forall rid <- Apply(s, step).requests :: rid in s.requests ||
              (step == Arrive(rid, Apply(s, step).requests[rid].call)
               && Apply(s, step).requests[rid]
               == Request(step.call, KeyOf(step.call), FirstPhase(step.call.op), None, Unwritten))
  {
  }

  function Run(s: State, steps: seq<Step>): State
    decreases |steps|
  {
    if steps == [] then s else Run(Apply(s, steps[0]), steps[1..])
  }

  /** The state before step n of a run. */
  function StateAt(s: State, steps: seq<Step>, n: nat): State
    requires n <= |steps|
  {
    Run(s, steps[..n])
  }

  lemma {:induction false} RunConcat(s: State, first: seq<Step>, second: seq<Step>)
    ensures Run(s, first + second) == Run(Run(s, first), second)
    decreases |first|
  {
    if first == [] {
      assert first + second == second;
    } else {
      assert (first + second)[1..] == first[1..] + second;
      RunConcat(Apply(s, first[0]), first[1..], second);
    }
  }

  lemma StateAtNext(s: State, steps: seq<Step>, n: nat)
    requires n < |steps|
    ensures StateAt(s, steps, n + 1) == Apply(StateAt(s, steps, n), steps[n])
  {
    assert steps[..n + 1] == steps[..n] + [steps[n]];
    RunConcat(s, steps[..n], [steps[n]]);
    var before := StateAt(s, steps, n);
    assert Run(before, [steps[n]]) == Run(Apply(before, steps[n]), []);
  }

  function Boot(db: Db): State {
    State(db, map[], [])
  }
}
