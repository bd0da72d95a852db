/** Interleaved runs against sequential ones. */
module Serial {
  import opened Records
  import opened Tables
  import opened Rules
  import opened Machine
  import opened Evolution
  import opened Safety
  import opened Discipline
  import opened Deletion

  /** The committed calls executed one after the other, each as one atomic
      read-check-write, from the same start. */
  function Replay(db: Db, history: seq<Commit>): Result<Db> {
    if history == [] then Success(db)
    else
      var c := history[|history| - 1];
      match Replay(db, history[..|history| - 1])
      case Success(before) => Atomic(before, c.call, c.key, c.now)
      case Failure(error) => Failure(error)
  }

  /** The audit log plays no part in what a call may write. */
  lemma AtomicIgnoresAudits(db: Db, call: Call, key: Key, now: nat, audits: seq<AuditEntry>)
    ensures match Atomic(db, call, key, now)
            case Success(next) => Atomic(db.(audits := audits), call, key, now) == Success(next.(audits := audits))
            case Failure(error) => Atomic(db.(audits := audits), call, key, now) == Failure(error)
  {
    var other := db.(audits := audits);
    assert Find(other, key) == Find(db, key);
    if call.op.Create? {
      assert CodeTaken(other, call.kind, call.op.code) <==> CodeTaken(db, call.kind, call.op.code);
    }
  }

  ghost predicate Serialised(origin: Db, s: State) {
    Replay(origin, s.history) == Success(s.db.(audits := origin.audits))
  }

  lemma CommitSerialised(origin: Db, s: State, rid: nat, key: Key, db: Db, current: Row, now: nat)
    requires Serialised(origin, s) && rid in s.requests && key in db.rows
    requires Atomic(s.db, s.requests[rid].call, key, now) == Success(db)
    ensures Serialised(origin, Committed(s, rid, s.requests[rid], key, db, current, now))
  {
    var next := Committed(s, rid, s.requests[rid], key, db, current, now);
    assert next.history[..|s.history|] == s.history;
    AtomicIgnoresAudits(s.db, s.requests[rid].call, key, now, origin.audits);
  }

  /** A create is atomic by itself, and a write that fits the live row is too. */
  lemma CommitIsAtomic(s: State, step: Step)
    requires Safe(s) && (WriteLands(s, step) || InsertLands(s, step))
    ensures Atomic(s.db, s.requests[step.rid].call, TargetKey(s, step), step.now) == Success(NextDb(s, step))
       <==> (WriteLands(s, step) ==> Fits(s, step))
  {
    if WriteLands(s, step) {
      WriteIsAtomic(s, step);
    }
  }

  /** A sequential run stays sequential exactly by committing writes that fit. */
  lemma StepSerialised(origin: Db, s: State, step: Step)
    requires Safe(s) && Serialised(origin, s)
    requires WriteLands(s, step) ==> Fits(s, step)
    ensures Serialised(origin, Apply(s, step))
  {
    if WriteLands(s, step) || InsertLands(s, step) {
      CommittingStep(s, step);
      CommitIsAtomic(s, step);
      CommitSerialised(origin, s, step.rid, TargetKey(s, step), NextDb(s, step), BasisRow(s, step), step.now);
    } else {
      QuietStep(s, step);
      assert Apply(s, step).db.(audits := origin.audits) == s.db.(audits := origin.audits);
    }
  }

  lemma LateDeleteRefused(s: State, step: Step)
    requires Safe(s) && !DeleteInTime(s, step)
    ensures WriteLands(s, step) && TargetKey(s, step) == s.requests[step.rid].key
    ensures Atomic(s.db, s.requests[step.rid].call, s.requests[step.rid].key, step.now).Failure?
  {
    assert RequestOk(s.db, s.requests[step.rid]);
  }

  /** A delete that finds a final decision has no place in any sequential run. */
  lemma LateDeleteBreaks(origin: Db, s: State, step: Step)
    requires Safe(s) && Serialised(origin, s) && !DeleteInTime(s, step)
    ensures Replay(origin, Apply(s, step).history).Failure?
  {
    var request := s.requests[step.rid];
    var next := Apply(s, step);
    LateDeleteRefused(s, step);
    CommittingStep(s, step);
    assert next.history[..|s.history|] == s.history;
    AtomicIgnoresAudits(s.db, request.call, request.key, step.now, origin.audits);
  }

  lemma {:induction false} FailureStays(origin: Db, s: State, steps: seq<Step>)
    requires Replay(origin, s.history).Failure?
    ensures Replay(origin, Run(s, steps).history).Failure?
    decreases |steps|
  {
    if steps != [] {
      if WriteLands(s, steps[0]) || InsertLands(s, steps[0]) {
        CommittingStep(s, steps[0]);
        assert Apply(s, steps[0]).history[..|s.history|] == s.history;
      } else {
        QuietStep(s, steps[0]);
      }
      FailureStays(origin, Apply(s, steps[0]), steps[1..]);
    }
  }

  lemma {:induction false} RunSerialised(origin: Db, s: State, steps: seq<Step>)
    requires Safe(s) && Serialised(origin, s) && HonestWins(s, steps)
    ensures if DeletesInTime(s, steps) then Serialised(origin, Run(s, steps))
            else Replay(origin, Run(s, steps).history).Failure?
    decreases |steps|
  {
    if steps != [] {
      if DeleteInTime(s, steps[0]) {
        if WriteLands(s, steps[0]) {
          assert RequestOk(s.db, s.requests[steps[0].rid]);
          HonestFits(s, steps[0]);
        }
        StepSafe(s, steps[0]);
        StepSerialised(origin, s, steps[0]);
        RunSerialised(origin, Apply(s, steps[0]), steps[1..]);
      } else {
        LateDeleteBreaks(origin, s, steps[0]);
        FailureStays(origin, Apply(s, steps[0]), steps[1..]);
      }
    }
  }

  /** The run left what its committed calls leave when executed sequentially, in commit
      order, each with nothing in between; each of them succeeds there too. */
  predicate Sequential(origin: Db, s: State) {
    var replayed := Replay(origin, s.history);
    replayed.Success? && replayed.value.rows == s.db.rows && replayed.value.revisions == s.db.revisions
  }

  /** Serialisability, exactly: a run whose winning saves are not ahead is sequential in
      commit order if and only if no transition of a decision commits between the row
      query and the write of a delete of that decision. */
  lemma RunsAreSerialisable(origin: Db, steps: seq<Step>)
    requires Good(origin) && HonestWins(Boot(origin), steps)
    ensures Sequential(origin, Run(Boot(origin), steps)) <==> NoDeleteOvertaken(Boot(origin), steps)
  {
    DeletesInTimeExactly(origin, steps);
    RunSerialised(origin, Boot(origin), steps);
  }

  // ---- with no hypothesis on clients

  /** The run is sequential at each of its moments. */
  predicate AlwaysSequential(origin: Db, steps: seq<Step>) {
    forall n :: 0 <= n <= |steps| ==> Sequential(origin, StateAt(Boot(origin), steps, n))
  }

  predicate WritesFit(s: State, steps: seq<Step>) {
    forall n :: 0 <= n < |steps| ==> WriteFits(StateAt(s, steps, n), steps[n])
  }

  predicate WriteFits(s: State, step: Step) {
    WriteLands(s, step) ==> Fits(s, step)
  }

  lemma {:induction false} FittingIsSerialised(origin: Db, steps: seq<Step>, n: nat)
    requires Good(origin) && n <= |steps| && WritesFit(Boot(origin), steps)
    ensures Serialised(origin, StateAt(Boot(origin), steps, n))
    decreases n
  {
    if n > 0 {
      FittingIsSerialised(origin, steps, n - 1);
      RunSafe(Boot(origin), steps[..n - 1]);
      StateAtNext(Boot(origin), steps, n - 1);
      assert WriteFits(StateAt(Boot(origin), steps, n - 1), steps[n - 1]);
      StepSerialised(origin, StateAt(Boot(origin), steps, n - 1), steps[n - 1]);
    }
  }

  /** The replay never touches the audit log. */
  lemma {:induction false} ReplayKeepsAudits(origin: Db, history: seq<Commit>)
    requires Replay(origin, history).Success?
    ensures Replay(origin, history).value.audits == origin.audits
  {
    if history != [] {
      ReplayKeepsAudits(origin, history[..|history| - 1]);
    }
  }

  /** Around a commit that leaves a sequential run sequential, the write fits. */
  lemma SequentialStepFits(origin: Db, s: State, step: Step)
    requires Safe(s) && Sequential(origin, s) && Sequential(origin, Apply(s, step)) && WriteLands(s, step)
    ensures Fits(s, step)
  {
    var request := s.requests[step.rid];
    var next := Apply(s, step);
    CommittingStep(s, step);
    assert next.history[..|s.history|] == s.history;
    ReplayKeepsAudits(origin, s.history);
    ReplayKeepsAudits(origin, next.history);
    assert Replay(origin, s.history).value == s.db.(audits := origin.audits);
    AtomicIgnoresAudits(s.db, request.call, request.key, step.now, origin.audits);
    AtomicKeepsAudits(s.db, request.call, request.key, step.now);
    WriteIsAtomic(s, step);
  }

  lemma AtomicKeepsAudits(db: Db, call: Call, key: Key, now: nat)
    ensures Atomic(db, call, key, now).Success? ==> Atomic(db, call, key, now).value.audits == db.audits
  {
  }

  /** Serialisability of any run, whatever its clients claim: it is sequential in commit
      order at each of its moments if and only if every write that takes effect fits the
      row it finds. */
  lemma SerialisableExactly(origin: Db, steps: seq<Step>)
    requires Good(origin)
    ensures AlwaysSequential(origin, steps) <==> WritesFit(Boot(origin), steps)
  {
    var boot := Boot(origin);
    if WritesFit(boot, steps) {
      forall n | 0 <= n <= |steps| ensures Sequential(origin, StateAt(boot, steps, n)) {
        FittingIsSerialised(origin, steps, n);
      }
    }
    if AlwaysSequential(origin, steps) {
      forall n | 0 <= n < |steps| && WriteLands(StateAt(boot, steps, n), steps[n])
        ensures Fits(StateAt(boot, steps, n), steps[n])
      {
        var s := StateAt(boot, steps, n);
        RunSafe(boot, steps[..n]);
        StateAtNext(boot, steps, n);
        assert Sequential(origin, s) && Sequential(origin, StateAt(boot, steps, n + 1));
        SequentialStepFits(origin, s, steps[n]);
      }
    }
  }
}
