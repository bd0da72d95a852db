/** Deleting decisions: the guard looks at the row the request read, the delete
    itself goes by id alone.  What can happen in between, exactly. */
module Deletion {
  import opened Lifecycle
  import opened Records
  import opened Tables
  import opened Rules
  import opened Machine
  import opened Evolution
  import opened Safety
  import opened Discipline
  import opened Decisions
  import opened Necessity

  /** The step is the row query of this request. */
  predicate Queries(s: State, step: Step, rid: nat) {
    step.Advance? && step.rid == rid && rid in s.requests && s.requests[rid].phase.Reading?
  }

  /** The step commits a transition of this key. */
  predicate Finalises(s: State, step: Step, key: Key) {
    WriteLands(s, step) && s.requests[step.rid].key == key && s.requests[step.rid].call.op.Transition?
  }

  /** The step deletes a decision. */
  predicate DeletesDecision(s: State, step: Step) {
    WriteLands(s, step) && s.requests[step.rid].call.op.Delete? && s.requests[step.rid].call.kind == Decision
  }

  /** Step k deletes a decision whose row the same request queried at step i, and at
      step j in between a transition of that decision commits. */
  predicate OvertakenAt(s: State, steps: seq<Step>, i: nat, j: nat, k: nat)
    requires i < j < k < |steps|
  {
    var deleting := StateAt(s, steps, k);
    && DeletesDecision(deleting, steps[k])
    && Queries(StateAt(s, steps, i), steps[i], steps[k].rid)
    && Finalises(StateAt(s, steps, j), steps[j], deleting.requests[steps[k].rid].key)
  }

  predicate Overtaken(s: State, steps: seq<Step>, k: nat)
    requires k < |steps|
  {
    exists i, j :: 0 <= i < j < k && OvertakenAt(s, steps, i, j, k)
  }

  predicate NoDeleteOvertaken(s: State, steps: seq<Step>) {
    forall k :: 0 <= k < |steps| ==> !Overtaken(s, steps, k)
  }

  predicate Holds(s: State, rid: nat, key: Key, current: Row) {
    && rid in s.requests && s.requests[rid].key == key
    && (s.requests[rid].phase == Preloading(current) || s.requests[rid].phase == Writing(current))
  }

  /** A row a request holds is one it held before the step, or the step's query found it. */
  lemma HeldOrQueried(s: State, step: Step, rid: nat, key: Key, current: Row)
    requires Holds(Apply(s, step), rid, key, current)
    ensures Holds(s, rid, key, current) || (Queries(s, step, rid) && Find(s.db, key) == Some(current))
  {
    StepFrame(s, step);
  }

  /** The row query behind the row a request holds. */
  lemma {:induction false} QueriedEarlier(s: State, steps: seq<Step>, n: nat, rid: nat, key: Key, current: Row)
    returns (i: nat)
    requires s.requests == map[] && n <= |steps| && Holds(StateAt(s, steps, n), rid, key, current)
    ensures i < n && Queries(StateAt(s, steps, i), steps[i], rid) && Find(StateAt(s, steps, i).db, key) == Some(current)
    decreases n
  {
    if n == 0 {
      assert false;
    } else {
      var before := StateAt(s, steps, n - 1);
      StateAtNext(s, steps, n - 1);
      HeldOrQueried(before, steps[n - 1], rid, key, current);
      if Holds(before, rid, key, current) {
        i := QueriedEarlier(s, steps, n - 1, rid, key, current);
      } else {
        i := n - 1;
      }
    }
  }

  /** One commit takes a decision out of draft exactly when it is its transition. */
  lemma DraftCommit(s: State, step: Step, key: Key)
    requires Safe(s) && key.kind == Decision && key in s.db.rows && s.db.rows[key].status == Draft
    requires WriteLands(s, step) || InsertLands(s, step)
    ensures key in NextDb(s, step).rows
    ensures NextDb(s, step).rows[key].status != Draft <==> Finalises(s, step, key)
  {
    var request := s.requests[step.rid];
    if InsertLands(s, step) {
      CreateLands(s, step);
    } else if request.call.Versioned() {
      SaveLands(s, step);
      if request.call.op.Transition? && request.call.kind == Decision {
        DecisionMoves(request.phase.current.status, request.call.op.target);
      }
    } else {
      DeleteLands(s, step);
    }
  }

  /** A transition of a decision leaves it final, also one built from a stale read. */
  lemma FinalisesToFinal(s: State, step: Step, key: Key)
    requires Safe(s) && Finalises(s, step, key) && key.kind == Decision
    ensures Final(Apply(s, step).db, key)
  {
    CommittingStep(s, step);
    SaveLands(s, step);
    DecisionMoves(s.requests[step.rid].phase.current.status, s.requests[step.rid].call.op.target);
  }

  /** A decision that went from draft to final was taken there by a transition. */
  lemma {:induction false} FinalisedBetween(s: State, steps: seq<Step>, i: nat, n: nat, key: Key) returns (j: nat)
    requires Safe(s) && i <= n <= |steps| && key.kind == Decision
    requires key in StateAt(s, steps, i).db.rows && StateAt(s, steps, i).db.rows[key].status == Draft
    requires Final(StateAt(s, steps, n).db, key)
    ensures i <= j < n && Finalises(StateAt(s, steps, j), steps[j], key)
    decreases n
  {
    assert i < n;
    var before := StateAt(s, steps, n - 1);
    RunSafe(s, steps[..n - 1]);
    StateAtNext(s, steps, n - 1);
    KeyStays(s, steps, i, n - 1, key);
    if Final(before.db, key) {
      j := FinalisedBetween(s, steps, i, n - 1, key);
    } else {
      j := n - 1;
      if WriteLands(before, steps[n - 1]) || InsertLands(before, steps[n - 1]) {
        CommittingStep(before, steps[n - 1]);
        DraftCommit(before, steps[n - 1], key);
      } else {
        QuietStep(before, steps[n - 1]);
      }
    }
  }

  lemma KeyStays(s: State, steps: seq<Step>, i: nat, n: nat, key: Key)
    requires Safe(s) && i <= n <= |steps| && key in StateAt(s, steps, i).db.rows
    ensures key in StateAt(s, steps, n).db.rows
  {
    Onward(s, steps, i, n);
    RunSafe(s, steps[..i]);
    RunSafe(StateAt(s, steps, i), steps[i..n]);
    assert Follows(StateAt(s, steps, i).db, StateAt(s, steps, n).db, key);
  }

  lemma Onward(s: State, steps: seq<Step>, i: nat, n: nat)
    requires i <= n <= |steps|
    ensures StateAt(s, steps, n) == Run(StateAt(s, steps, i), steps[i..n])
  {
    assert steps[..n] == steps[..i] + steps[i..n];
    RunConcat(s, steps[..i], steps[i..n]);
  }

  /** A delete that finds a final decision was overtaken. */
  lemma LateIsOvertaken(origin: Db, steps: seq<Step>, k: nat)
    requires Good(origin) && k < |steps| && !DeleteInTime(StateAt(Boot(origin), steps, k), steps[k])
    ensures Overtaken(Boot(origin), steps, k)
  {
    var boot := Boot(origin);
    var s := StateAt(boot, steps, k);
    RunSafe(boot, steps[..k]);
    var request := s.requests[steps[k].rid];
    assert RequestOk(s.db, request);
    var i := QueriedEarlier(boot, steps, k, steps[k].rid, request.key, request.phase.current);
    var j := FinalisedBetween(boot, steps, i, k, request.key);
    assert OvertakenAt(boot, steps, i, j, k);
  }

  /** A final decision stays final as long as the saves that win are not ahead. */
  lemma FinalStep(s: State, step: Step, key: Key)
    requires Safe(s) && WinsHonestly(s, step) && Final(s.db, key)
    ensures Final(Apply(s, step).db, key)
  {
    if InsertLands(s, step) {
      CommittingStep(s, step);
      CreateLands(s, step);
    } else if WriteLands(s, step) {
      CommittingStep(s, step);
      FinalWrite(s, step, key);
    } else {
      QuietStep(s, step);
    }
  }

  lemma FinalWrite(s: State, step: Step, key: Key)
    requires Safe(s) && WriteLands(s, step) && NotAhead(s.requests[step.rid]) && Final(s.db, key)
    ensures Final(NextDb(s, step), key)
  {
    if s.requests[step.rid].call.Versioned() {
      SaveLands(s, step);
      if s.requests[step.rid].key == key {
        OnlyDraftsAreSaved(s, step);
        assert false;
      }
    } else {
      DeleteLands(s, step);
    }
  }

  /** A decision some transition finalised is final ever after. */
  lemma {:induction false} FinalFrom(origin: Db, steps: seq<Step>, j: nat, k: nat, key: Key)
    requires Good(origin) && HonestWins(Boot(origin), steps) && j < k <= |steps| && key.kind == Decision
    requires Finalises(StateAt(Boot(origin), steps, j), steps[j], key)
    ensures Final(StateAt(Boot(origin), steps, k).db, key)
    decreases k
  {
    var boot := Boot(origin);
    var s := StateAt(boot, steps, k - 1);
    RunSafe(boot, steps[..k - 1]);
    StateAtNext(boot, steps, k - 1);
    if k == j + 1 {
      FinalisesToFinal(s, steps[j], key);
    } else {
      FinalFrom(origin, steps, j, k - 1, key);
      WinsHonestlyAt(boot, steps, k - 1);
      FinalStep(s, steps[k - 1], key);
    }
  }

  /** An overtaken delete finds a final decision, if no save wins ahead of its read. */
  lemma OvertakenIsLate(origin: Db, steps: seq<Step>, i: nat, j: nat, k: nat)
    requires Good(origin) && HonestWins(Boot(origin), steps)
    requires i < j < k < |steps| && OvertakenAt(Boot(origin), steps, i, j, k)
    ensures !DeleteInTime(StateAt(Boot(origin), steps, k), steps[k])
  {
    var s := StateAt(Boot(origin), steps, k);
    RunSafe(Boot(origin), steps[..k]);
    DeletesAKey(s, steps[k]);
    FinalFrom(origin, steps, j, k, s.requests[steps[k].rid].key);
  }

  lemma DeletesAKey(s: State, step: Step)
    requires Safe(s) && DeletesDecision(s, step)
    ensures s.requests[step.rid].key.kind == Decision && Find(s.db, s.requests[step.rid].key).Some?
  {
    DeleteLands(s, step);
  }

  /** Deletes, exactly.  In an honest run the delete of a decision finds a draft -- and
      so has the effect of reading, checking and deleting at once -- if and only if no
      transition of that decision commits between its row query and its write. */
  lemma DeleteInTimeExactly(origin: Db, steps: seq<Step>, k: nat)
    requires Good(origin) && HonestWins(Boot(origin), steps) && k < |steps|
    ensures var s := StateAt(Boot(origin), steps, k);
            && (DeleteInTime(s, steps[k]) <==> !Overtaken(Boot(origin), steps, k))
            && (DeletesDecision(s, steps[k]) ==>
                  var request := s.requests[steps[k].rid];
                  (Atomic(s.db, request.call, request.key, steps[k].now) == Success(NextDb(s, steps[k])))
                  <==> !Overtaken(Boot(origin), steps, k))
  {
    var s := StateAt(Boot(origin), steps, k);
    if !DeleteInTime(s, steps[k]) {
      LateIsOvertaken(origin, steps, k);
    } else if Overtaken(Boot(origin), steps, k) {
      var i, j :| 0 <= i < j < k && OvertakenAt(Boot(origin), steps, i, j, k);
      OvertakenIsLate(origin, steps, i, j, k);
    }
    if DeletesDecision(s, steps[k]) {
      RunSafe(Boot(origin), steps[..k]);
      WriteIsAtomic(s, steps[k]);
      HonestFits(s, steps[k]);
    }
  }

  lemma {:induction false} DeletesInTimeAt(s: State, steps: seq<Step>)
    ensures DeletesInTime(s, steps) <==> forall k :: 0 <= k < |steps| ==> DeleteInTime(StateAt(s, steps, k), steps[k])
    decreases |steps|
  {
    if steps != [] {
      var next := Apply(s, steps[0]);
      DeletesInTimeAt(next, steps[1..]);
      assert StateAt(s, steps, 0) == s;
      forall k | 0 < k < |steps| ensures StateAt(s, steps, k) == StateAt(next, steps[1..], k - 1) {
        assert steps[..k][1..] == steps[1..][..k - 1];
      }
      forall k | 0 <= k < |steps| - 1 ensures StateAt(next, steps[1..], k) == StateAt(s, steps, k + 1) {
      }
    }
  }

  /** All deletes of an honest run are in time if and only if none is overtaken. */
  lemma DeletesInTimeExactly(origin: Db, steps: seq<Step>)
    requires Good(origin) && HonestWins(Boot(origin), steps)
    ensures DeletesInTime(Boot(origin), steps) <==> NoDeleteOvertaken(Boot(origin), steps)
  {
    DeletesInTimeAt(Boot(origin), steps);
    forall k | 0 <= k < |steps|
      ensures DeleteInTime(StateAt(Boot(origin), steps, k), steps[k]) <==> !Overtaken(Boot(origin), steps, k)
    {
      DeleteInTimeExactly(origin, steps, k);
    }
  }

  /** The claim that final decisions are never deleted fails: in this run, along which
      no request ever claims ahead of its read, a delete that saw a draft waits on a
      decision that has become final, and deletes it. */
  lemma FinalDecisionCanVanish() returns (steps: seq<Step>, rid: nat)
    ensures HonestRun(Boot(EMPTY), steps)
    ensures var s := Run(Boot(EMPTY), steps);
            var next := Apply(s, Advance(rid, 0, 0, false));
            && Final(s.db, KEY) && Find(s.db, KEY).Some?
            && rid in s.requests && s.requests[rid].phase.Writing? && s.requests[rid].phase.current.status == Draft
            && Find(next.db, KEY).None? && Final(next.db, KEY)
  {
    var row;
    steps, rid, row := ReaderOvertaken(1, 2, DELETE_CALL);
  }
}
