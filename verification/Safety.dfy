/** What holds in every interleaving, whatever versions clients claim. */
module Safety {
  import opened Lifecycle
  import opened Records
  import opened Tables
  import opened Rules
  import opened Machine
  import opened Evolution

  /** The row a request carries from an earlier statement. */
  function Held(phase: Phase): Option<Row> {
    match phase
    case Preloading(current) => Some(current)
    case Writing(current) => Some(current)
    case Auditing(_, reply) => reply
    case Reloading(item) => Some(item)
    case Finished(Returned(row, _)) => Some(row)
    case _ => None
  }

  /** item is a version the live row once had, and its revision is on file. */
  predicate OnFile(db: Db, key: Key, item: Row) {
    && key in db.rows
    && 0 < item.version && !item.deleted
    && Succeeds(item, db.rows[key])
    && (key.kind == Decision ==>
          var history := HistoryOf(db.revisions, key.id);
          item.version <= |history| && Describes(history[item.version - 1], item))
  }

  /** A decision together with revisions read later: an unbroken chain that
      reaches the returned version and tells it exactly. */
  predicate TornReadCoherent(row: Row, revisions: seq<Revision>) {
    && Contiguous(revisions)
    && 0 < row.version <= |revisions|
    && Describes(revisions[row.version - 1], row)
  }

  predicate PhaseFits(call: Call, phase: Phase) {
    match phase
    case Reading => call.Versioned() || call.op.Delete?
    case Preloading(_) => call.Versioned() || call.op.Delete?
    case Writing(current) => (call.Versioned() || call.op.Delete?) && Check(call, current) == None
    case Inserting => call.op.Create?
    case Reloading(_) => call.kind == Decision
    case Auditing(_, _) => !call.op.Fetch?
    case Finished(Returned(row, revisions)) =>
      if call.kind == Decision then TornReadCoherent(row, revisions) else revisions == []
    case _ => true
  }

  /** The revisions of a response are a beginning of the decision's chain. */
  predicate Genuine(db: Db, request: Request) {
    request.phase.Finished? && request.phase.outcome.Returned? && request.key in db.rows ==>
      request.phase.outcome.revisions <= HistoryOf(db.revisions, request.key.id)
  }

  predicate RequestOk(db: Db, request: Request) {
    && request.key.kind == request.call.kind
    && (!request.call.op.Create? ==> request.key == KeyOf(request.call))
    && PhaseFits(request.call, request.phase)
    && Genuine(db, request)
    && (Held(request.phase).Some? ==> OnFile(db, request.key, Held(request.phase).value))
  }

  predicate Safe(s: State) {
    && Good(s.db)
    && forall rid {:trigger RequestOk(s.db, s.requests[rid])} | rid in s.requests :: RequestOk(s.db, s.requests[rid])
  }

  lemma OnFileLasts(db: Db, next: Db, key: Key, item: Row)
    requires OnFile(db, key, item) && Evolves(db, next)
    ensures OnFile(next, key, item)
  {
    assert Follows(db, next, key);
  }

  /** Interference: a request stays well placed while the database evolves under it. */
  lemma Undisturbed(s: State, rid: nat, request: Request, db: Db, history: seq<Commit>)
    requires Safe(s) && Good(db) && Evolves(s.db, db) && RequestOk(db, request)
    ensures Safe(State(db, s.requests[rid := request], history))
  {
    var next := State(db, s.requests[rid := request], history);
    forall other | other in next.requests ensures RequestOk(db, next.requests[other]) {
      if other != rid {
        var there := s.requests[other];
        assert RequestOk(s.db, there);
        if there.key in s.db.rows {
          assert Follows(s.db, db, there.key);
        }
        if Held(there.phase).Some? {
          OnFileLasts(s.db, db, there.key, Held(there.phase).value);
        }
      }
    }
  }

  /** What a row query returns is on file. */
  lemma FoundIsOnFile(db: Db, key: Key)
    requires Good(db) && Find(db, key).Some?
    ensures OnFile(db, key, Find(db, key).value)
  {
    assert RowInOrder(db, key);
  }

  lemma QuerySafe(db: Db, request: Request)
    requires Good(db) && RequestOk(db, request) && Reads(request.phase)
    ensures RequestOk(db, request.(phase := AfterQuery(request, db)))
  {
    match request.phase
    case Reading => if Find(db, request.key).Some? { FoundIsOnFile(db, request.key); }
    case Preloading(_) =>
    case Rereading => if Find(db, request.key).Some? { FoundIsOnFile(db, request.key); }
    case Reloading(item) => ReloadIsCoherent(db, request.key, item);
  }

  /** The second query of a response, however late it runs. */
  lemma ReloadIsCoherent(db: Db, key: Key, item: Row)
    requires Good(db) && OnFile(db, key, item)
    ensures key.kind == Decision ==> TornReadCoherent(item, RevisionsOf(db, key.id))
    ensures key.kind == Decision ==> RevisionsOf(db, key.id) == HistoryOf(db.revisions, key.id)
  {
    if key.kind == Decision {
      var history := HistoryOf(db.revisions, key.id);
      assert RowInOrder(db, key);
      SortKeepsAscending(history);
    }
  }

  lemma InsertSafe(s: State, rid: nat, now: nat, newId: nat)
    requires Safe(s) && rid in s.requests && RequestOk(s.db, s.requests[rid]) && s.requests[rid].phase.Inserting?
    ensures Safe(InsertStep(s, rid, now, newId)) && Evolves(s.db, InsertStep(s, rid, now, newId).db)
  {
    var request := s.requests[rid];
    var key := Key(request.call.kind, newId);
    if key !in s.db.rows {
      CreateKeeps(s.db, request.call, key, now);
      match CreateRow(s.db, request.call, key, now)
      case Failure(error) => Undisturbed(s, rid, request.(phase := Finished(Rejected(error))), s.db, s.history);
      case Success(db) =>
        FoundIsOnFile(db, key);
        var next := InsertStep(s, rid, now, newId);
        Undisturbed(s, rid, next.requests[rid], db, next.history);
    }
  }

  lemma WriteSafe(s: State, rid: nat, now: nat)
    requires Safe(s) && rid in s.requests && RequestOk(s.db, s.requests[rid]) && s.requests[rid].phase.Writing?
    ensures var next := WriteStep(s, rid, s.requests[rid].phase.current, now);
            Safe(next) && Evolves(s.db, next.db)
  {
    var request := s.requests[rid];
    var current := request.phase.current;
    var next := WriteStep(s, rid, current, now);
    if request.call.op.Delete? {
      if SoftDelete(s.db, request.key).Success? {
        DeleteKeeps(s.db, request.key);
      }
    } else {
      SaveOutcome(s.db, request.call, request.key, current, now);
      if next.db != s.db {
        SaveKeeps(s.db, request.call, request.key, current, now);
      }
    }
    Undisturbed(s, rid, next.requests[rid], next.db, next.history);
  }

  lemma AuditSafe(s: State, rid: nat, now: nat, fails: bool)
    requires Safe(s) && rid in s.requests && RequestOk(s.db, s.requests[rid]) && s.requests[rid].phase.Auditing?
    ensures var phase := s.requests[rid].phase;
            var next := AuditStep(s, rid, phase.entry, phase.reply, now, fails);
            Safe(next) && Evolves(s.db, next.db)
  {
    var phase := s.requests[rid].phase;
    var next := AuditStep(s, rid, phase.entry, phase.reply, now, fails);
    SameTables(s.db, next.db);
    Undisturbed(s, rid, next.requests[rid], next.db, next.history);
  }

  /** Every statement of every request keeps the tables and all other requests in order. */
  lemma StepSafe(s: State, step: Step)
    requires Safe(s)
    ensures Safe(Apply(s, step)) && Evolves(s.db, Apply(s, step).db)
  {
    match step
    case Arrive(rid, call) =>
    case Advance(rid, now, newId, fails) =>
      if rid in s.requests {
        assert RequestOk(s.db, s.requests[rid]);
        match s.requests[rid].phase
        case Inserting => InsertSafe(s, rid, now, newId);
        case Writing(_) => WriteSafe(s, rid, now);
        case Auditing(_, _) => AuditSafe(s, rid, now, fails);
        case Finished(_) =>
        case _ =>
          QuerySafe(s.db, s.requests[rid]);
          Undisturbed(s, rid, s.requests[rid].(phase := AfterQuery(s.requests[rid], s.db)), s.db, s.history);
      }
  }

  /** An update or transition that takes effect, in terms of the tables. */
  lemma SaveLands(s: State, step: Step)
    requires Safe(s) && WriteLands(s, step) && s.requests[step.rid].call.Versioned()
    ensures var request := s.requests[step.rid];
            var current := request.phase.current;
            && request.key == KeyOf(request.call) && TargetKey(s, step) == request.key
            && Find(s.db, request.key).Some? && s.db.rows[request.key].version == request.call.op.expected
            && NextDb(s, step) == Saved(s.db, request.call, request.key, current, step.now)
            && OnFile(s.db, request.key, current) && Check(request.call, current) == None
  {
    var request := s.requests[step.rid];
    assert RequestOk(s.db, request);
    SaveOutcome(s.db, request.call, request.key, request.phase.current, step.now);
  }

  /** A delete that takes effect. */
  lemma DeleteLands(s: State, step: Step)
    requires Safe(s) && WriteLands(s, step) && s.requests[step.rid].call.op.Delete?
    ensures var request := s.requests[step.rid];
            && request.key == KeyOf(request.call) && TargetKey(s, step) == request.key
            && Find(s.db, request.key).Some? && Check(request.call, request.phase.current) == None
            && NextDb(s, step) == s.db.(rows := s.db.rows[request.key := s.db.rows[request.key].(deleted := true)])
  {
    assert RequestOk(s.db, s.requests[step.rid]);
  }

  /** A create that takes effect. */
  lemma CreateLands(s: State, step: Step)
    requires Safe(s) && InsertLands(s, step)
    ensures var call := s.requests[step.rid].call;
            var key := Key(call.kind, step.newId);
            var revision := NewRevision(call, step.newId, NewRow(call, step.now), step.now);
            && TargetKey(s, step) == key && key !in s.db.rows && call.op.Create?
            && NextDb(s, step)
               == s.db.(rows := s.db.rows[key := NewRow(call, step.now)],
                        revisions := if call.kind == Decision then s.db.revisions + [revision] else s.db.revisions)
  {
  }

  /** Safety over every run: any interleaving of any number of requests, with any
      claimed versions, keeps every revision chain equal to 1..version ending in the
      row's own state, never moves a version back, never changes a code or a
      preparer, and lets every response carry a coherent chain. */
  lemma {:induction false} RunSafe(s: State, steps: seq<Step>)
    requires Safe(s)
    ensures Safe(Run(s, steps)) && Evolves(s.db, Run(s, steps).db)
    decreases |steps|
  {
    if steps != [] {
      StepSafe(s, steps[0]);
      RunSafe(Apply(s, steps[0]), steps[1..]);
      EvolvesTransitively(s.db, Apply(s, steps[0]).db, Run(s, steps).db);
    }
  }

  /** Torn reads: whatever committed between the row query and the revision query of
      a response, the response shows an unbroken chain 1..w in ascending order with w
      at least the returned version, whose entry for that version tells the returned
      row, and it is a beginning of the chain as it stands at any later time. */
  lemma TornReadsAreCoherent(origin: Db, steps: seq<Step>, rid: nat)
    requires Good(origin) && rid in Run(Boot(origin), steps).requests
    requires var request := Run(Boot(origin), steps).requests[rid];
             request.call.kind == Decision && request.phase.Finished? && request.phase.outcome.Returned?
    ensures var s := Run(Boot(origin), steps);
            var outcome := s.requests[rid].phase.outcome;
            && TornReadCoherent(outcome.row, outcome.revisions)
            && outcome.revisions <= HistoryOf(s.db.revisions, s.requests[rid].key.id)
  {
    RunSafe(Boot(origin), steps);
    var s := Run(Boot(origin), steps);
    assert RequestOk(s.db, s.requests[rid]);
  }
}
