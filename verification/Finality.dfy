/** When a final decision stays as it is, whatever happens next: exactly when no
    request still in flight has already passed its guards on an earlier draft. */
module Finality {
  import opened Lifecycle
  import opened Records
  import opened Tables
  import opened Rules
  import opened Machine
  import opened Evolution
  import opened Safety
  import opened Discipline
  import opened Decisions

  /** The row, up to the deletion mark, and the revisions are the same. */
  predicate Frozen(db: Db, next: Db, key: Key)
    requires key in db.rows
  {
    && key in next.rows
    && next.rows[key] == db.rows[key].(deleted := next.rows[key].deleted)
    && HistoryOf(next.revisions, key.id) == HistoryOf(db.revisions, key.id)
  }

  predicate Kept(db: Db, next: Db, key: Key)
    requires key in db.rows
  {
    Frozen(db, next, key) && next.rows[key] == db.rows[key]
  }

  /** The request has read a row of this key, its guards pass on that row, and nothing
      about the live row will stop its write: it deletes, or its claim is current. */
  predicate Threat(s: State, rid: nat, key: Key)
    requires rid in s.requests
  {
    var request := s.requests[rid];
    && request.key == key && Find(s.db, key).Some?
    && (request.phase.Preloading? || request.phase.Writing?)
    && Check(request.call, request.phase.current) == None
    && (request.call.Versioned() ==> request.call.op.expected == s.db.rows[key].version)
  }

  predicate SaveThreat(s: State, rid: nat, key: Key)
    requires rid in s.requests
  {
    Threat(s, rid, key) && s.requests[rid].call.Versioned()
  }

  predicate Unthreatened(s: State, key: Key) {
    forall rid <- s.requests :: !Threat(s, rid, key)
  }

  predicate SafeFromSaves(s: State, key: Key) {
    forall rid <- s.requests :: !SaveThreat(s, rid, key)
  }

  /** No guard lets a request through that reads a final decision. */
  lemma FinalRefuses(call: Call, row: Row)
    requires call.kind == Decision && row.status != Draft && (call.Versioned() || call.op.Delete?)
    ensures Check(call, row).Some?
  {
    if call.op.Transition? {
      DecisionMoves(row.status, call.op.target);
    }
  }

  lemma CommitFreezes(s: State, step: Step, key: Key)
    requires Safe(s) && Final(s.db, key) && SafeFromSaves(s, key) && (WriteLands(s, step) || InsertLands(s, step))
    ensures Frozen(s.db, NextDb(s, step), key)
    ensures Unthreatened(s, key) ==> Kept(s.db, NextDb(s, step), key)
  {
    var request := s.requests[step.rid];
    if InsertLands(s, step) {
      CreateLands(s, step);
      HistoriesAppend(s.db.revisions, NewRevision(request.call, step.newId, NewRow(request.call, step.now), step.now));
    } else if request.call.Versioned() {
      SaveLands(s, step);
      var item := Patch(request.call, request.phase.current, step.now);
      HistoriesAppend(s.db.revisions, NewRevision(request.call, request.key.id, item, step.now));
      assert !SaveThreat(s, step.rid, key);
    } else {
      DeleteLands(s, step);
      assert Unthreatened(s, key) ==> !Threat(s, step.rid, key);
    }
  }

  /** A request that threatens after a step threatened before it: reading a final
      decision leads nowhere, and a claim that was not current stays so. */
  lemma NoNewThreat(s: State, step: Step, key: Key, rid: nat)
    requires Safe(s) && Final(s.db, key) && Frozen(s.db, Apply(s, step).db, key)
    requires rid in Apply(s, step).requests && Threat(Apply(s, step), rid, key)
    ensures rid in s.requests && Threat(s, rid, key) && Apply(s, step).requests[rid].call == s.requests[rid].call
  {
    StepSafe(s, step);
    StepFrame(s, step);
    assert Follows(s.db, Apply(s, step).db, key);
    if rid in s.requests && rid == step.rid {
      var request := s.requests[rid];
      assert RequestOk(s.db, request);
      if request.phase.Reading? && Find(s.db, key).Some? && request.key == key {
        FinalRefuses(request.call, s.db.rows[key]);
      }
    }
  }

  lemma StepFreezes(s: State, step: Step, key: Key)
    requires Safe(s) && Final(s.db, key) && SafeFromSaves(s, key)
    ensures Frozen(s.db, Apply(s, step).db, key) && SafeFromSaves(Apply(s, step), key)
    ensures Unthreatened(s, key) ==> Kept(s.db, Apply(s, step).db, key) && Unthreatened(Apply(s, step), key)
  {
    var next := Apply(s, step);
    if WriteLands(s, step) || InsertLands(s, step) {
      CommittingStep(s, step);
      CommitFreezes(s, step, key);
    } else {
      QuietStep(s, step);
    }
    forall rid | rid in next.requests && Threat(next, rid, key)
      ensures !SaveThreat(next, rid, key) && !Unthreatened(s, key)
    {
      NoNewThreat(s, step, key, rid);
      assert !SaveThreat(s, rid, key);
    }
  }

  lemma {:induction false} RunFreezes(s: State, steps: seq<Step>, key: Key)
    requires Safe(s) && Final(s.db, key) && SafeFromSaves(s, key)
    ensures Frozen(s.db, Run(s, steps).db, key)
    ensures Unthreatened(s, key) ==> Kept(s.db, Run(s, steps).db, key)
    decreases |steps|
  {
    if steps != [] {
      StepSafe(s, steps[0]);
      StepFreezes(s, steps[0], key);
      RunFreezes(Apply(s, steps[0]), steps[1..], key);
    }
  }

  /** Let the request take the steps up to its write, with nothing in between. */
  function Strike(s: State, rid: nat): seq<Step>
    requires rid in s.requests
  {
    if s.requests[rid].phase.Preloading? then [Advance(rid, 0, 0, false), Advance(rid, 0, 0, false)]
    else [Advance(rid, 0, 0, false)]
  }

  /** A threat can be carried out. */
  lemma ThreatStrikes(s: State, rid: nat, key: Key)
    requires Safe(s) && rid in s.requests && Threat(s, rid, key)
    ensures var next := Run(s, Strike(s, rid)).db;
            && key in next.rows
            && if s.requests[rid].call.Versioned() then next.rows[key].version == s.db.rows[key].version + 1
               else next.rows[key] == s.db.rows[key].(deleted := true)
  {
    var step := Advance(rid, 0, 0, false);
    assert RequestOk(s.db, s.requests[rid]);
    if s.requests[rid].phase.Preloading? {
      var one := Apply(s, step);
      StepSafe(s, step);
      WriteStrikes(one, rid, key);
      assert Strike(s, rid)[1..] == [step];
      assert Run(s, Strike(s, rid)) == Run(one, [step]);
    } else {
      WriteStrikes(s, rid, key);
    }
  }

  lemma WriteStrikes(s: State, rid: nat, key: Key)
    requires Safe(s) && rid in s.requests && Threat(s, rid, key) && s.requests[rid].phase.Writing?
    ensures var next := Run(s, [Advance(rid, 0, 0, false)]).db;
            && key in next.rows
            && if s.requests[rid].call.Versioned() then next.rows[key].version == s.db.rows[key].version + 1
               else next.rows[key] == s.db.rows[key].(deleted := true)
  {
    var step := Advance(rid, 0, 0, false);
    var request := s.requests[rid];
    assert RequestOk(s.db, request);
    if request.call.Versioned() {
      SaveOutcome(s.db, request.call, key, request.phase.current, 0);
    }
    CommittingStep(s, step);
    assert Run(s, [step]) == Run(Apply(s, step), []);
  }

  /** Finality, exactly.  A final decision keeps its row and its revisions through
      every continuation -- any number of new requests, with any claims -- if and only
      if no request in flight is a threat; and it keeps them up to being deleted if and
      only if no update or transition is one. */
  lemma FinalForever(s: State, key: Key)
    requires Safe(s) && Final(s.db, key)
    ensures (forall steps :: Kept(s.db, Run(s, steps).db, key)) <==> Unthreatened(s, key)
    ensures (forall steps :: Frozen(s.db, Run(s, steps).db, key)) <==> SafeFromSaves(s, key)
  {
    if SafeFromSaves(s, key) {
      forall steps ensures Frozen(s.db, Run(s, steps).db, key) { RunFreezes(s, steps, key); }
    } else {
      var rid :| rid in s.requests && SaveThreat(s, rid, key);
      ThreatStrikes(s, rid, key);
      assert !Frozen(s.db, Run(s, Strike(s, rid)).db, key);
    }
    if Unthreatened(s, key) {
      forall steps ensures Kept(s.db, Run(s, steps).db, key) { RunFreezes(s, steps, key); }
    } else {
      var rid :| rid in s.requests && Threat(s, rid, key);
      ThreatStrikes(s, rid, key);
      assert !Kept(s.db, Run(s, Strike(s, rid)).db, key);
    }
  }

  /** If no request is ahead of its read when the decision becomes final, no update or
      transition threatens it -- and requests that arrive later may claim anything. */
  lemma HonestySparesFinal(s: State, steps: seq<Step>, key: Key)
    requires Safe(s) && Honest(s) && Final(s.db, key)
    ensures SafeFromSaves(s, key) && Frozen(s.db, Run(s, steps).db, key)
  {
    forall rid | rid in s.requests && SaveThreat(s, rid, key) ensures false {
      var request := s.requests[rid];
      assert RequestOk(s.db, request) && NotAhead(request);
      FinalRefuses(request.call, s.db.rows[key]);
    }
    RunFreezes(s, steps, key);
  }

  /** Later arrivals are harmless: a final decision no request has read yet stays as
      it is, whatever arrives and whatever it claims. */
  lemma UnreadFinalStays(s: State, steps: seq<Step>, key: Key)
    requires Safe(s) && Final(s.db, key)
    requires forall rid <- s.requests :: s.requests[rid].key == key ==>
               !s.requests[rid].phase.Preloading? && !s.requests[rid].phase.Writing?
    ensures Kept(s.db, Run(s, steps).db, key)
  {
    RunFreezes(s, steps, key);
  }
}
