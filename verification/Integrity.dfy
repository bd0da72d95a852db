/** Two more guarantees of every interleaving: required fields are never blank, and
    a response is never older than the write it answers. */
module Integrity {
  import opened Lifecycle
  import opened Records
  import opened Rules
  import opened Machine
  import opened Evolution
  import opened Safety
  import opened Commits
  import opened Exclusivity

  predicate FilledRow(kind: Kind, row: Row) {
    ValidFields(kind, row.code, row.fields)
  }

  /** Stored rows and the rows requests still carry all have their required fields. */
  predicate Filled(s: State) {
    && (forall key {:trigger FilledRow(key.kind, s.db.rows[key])} | key in s.db.rows ::
          FilledRow(key.kind, s.db.rows[key]))
    && (forall rid {:trigger CarriesFilled(s.requests[rid])} | rid in s.requests :: CarriesFilled(s.requests[rid]))
  }

  predicate CarriesFilled(request: Request) {
    Held(request.phase).Some? ==> FilledRow(request.call.kind, Held(request.phase).value)
  }

  lemma CommitFilled(s: State, step: Step)
    requires Safe(s) && Filled(s) && (WriteLands(s, step) || InsertLands(s, step))
    ensures TargetKey(s, step) in NextDb(s, step).rows
    ensures FilledRow(TargetKey(s, step).kind, NextDb(s, step).rows[TargetKey(s, step)])
    ensures TargetKey(s, step).kind == s.requests[step.rid].call.kind
    ensures NextDb(s, step).rows == s.db.rows[TargetKey(s, step) := NextDb(s, step).rows[TargetKey(s, step)]]
  {
    var request := s.requests[step.rid];
    assert CarriesFilled(request);
    if InsertLands(s, step) {
      CreateLands(s, step);
    } else if request.call.Versioned() {
      SaveLands(s, step);
    } else {
      DeleteLands(s, step);
      assert FilledRow(request.key.kind, s.db.rows[request.key]);
    }
  }

  lemma StepFilled(s: State, step: Step)
    requires Safe(s) && Filled(s)
    ensures Filled(Apply(s, step))
  {
    StepFrame(s, step);
    var next := Apply(s, step);
    if WriteLands(s, step) || InsertLands(s, step) {
      CommittingStep(s, step);
      CommitFilled(s, step);
    } else {
      QuietStep(s, step);
    }
    forall key | key in next.db.rows ensures FilledRow(key.kind, next.db.rows[key]) {
      assert key in s.db.rows ==> FilledRow(key.kind, s.db.rows[key]);
    }
    forall rid | rid in next.requests ensures CarriesFilled(next.requests[rid]) {
      if rid in s.requests {
        assert CarriesFilled(s.requests[rid]);
        if rid == step.rid {
          MovesFilled(s, step);
        }
      }
    }
  }

  lemma MovesFilled(s: State, step: Step)
    requires Safe(s) && Filled(s) && step.rid in s.requests
    ensures CarriesFilled(Apply(s, step).requests[step.rid])
  {
    var request := s.requests[step.rid];
    assert RequestOk(s.db, request) && CarriesFilled(request);
    if request.key in s.db.rows {
      assert FilledRow(request.key.kind, s.db.rows[request.key]);
    }
  }

  /** No blanks: although a transition writes back the fields of a row read earlier,
      no run ever stores a row without its required fields. */
  lemma {:induction false} RowsStayFilled(s: State, steps: seq<Step>)
    requires Safe(s) && Filled(s)
    ensures Filled(Run(s, steps))
    decreases |steps|
  {
    if steps != [] {
      StepSafe(s, steps[0]);
      StepFilled(s, steps[0]);
      RowsStayFilled(Apply(s, steps[0]), steps[1..]);
    }
  }

  // ---- codes

  predicate SameCode(db: Db, a: Key, b: Key)
    requires a in db.rows && b in db.rows
  {
    a.kind == b.kind && db.rows[a].code == db.rows[b].code
  }

  /** No two rows of a table share a code, deleted rows included. */
  predicate UniqueCodes(db: Db) {
    forall a, b {:trigger SameCode(db, a, b)} | a in db.rows && b in db.rows :: SameCode(db, a, b) ==> a == b
  }

  lemma StepUniqueCodes(s: State, step: Step)
    requires Safe(s) && UniqueCodes(s.db)
    ensures UniqueCodes(Apply(s, step).db)
  {
    var next := Apply(s, step).db;
    StepSafe(s, step);
    forall a, b | a in next.rows && b in next.rows && SameCode(next, a, b) ensures a == b {
      CodeBefore(s, step, a);
      CodeBefore(s, step, b);
      if a in s.db.rows && b in s.db.rows {
        assert SameCode(s.db, a, b);
      }
    }
  }

  /** A row after a step had its code before, or was inserted under a code no row had. */
  lemma CodeBefore(s: State, step: Step, key: Key)
    requires Safe(s) && key in Apply(s, step).db.rows
    ensures if key in s.db.rows then Apply(s, step).db.rows[key].code == s.db.rows[key].code
            else
              && InsertLands(s, step) && key == TargetKey(s, step)
              && forall other <- s.db.rows :: other.kind == key.kind ==>
                   s.db.rows[other].code != Apply(s, step).db.rows[key].code
  {
    if key in s.db.rows {
      StepSafe(s, step);
      assert Follows(s.db, Apply(s, step).db, key);
    } else if InsertLands(s, step) {
      CommittingStep(s, step);
      CreateLands(s, step);
    } else if WriteLands(s, step) {
      CommittingStep(s, step);
      CommitCounted(s, step);
    } else {
      QuietStep(s, step);
    }
  }

  /** In every interleaving codes stay unique: of concurrent creates with one code at
      most one succeeds, and the code of a deleted row is never given out again. */
  lemma {:induction false} CodesStayUnique(s: State, steps: seq<Step>)
    requires Safe(s) && UniqueCodes(s.db)
    ensures UniqueCodes(Run(s, steps).db)
    decreases |steps|
  {
    if steps != [] {
      StepSafe(s, steps[0]);
      StepUniqueCodes(s, steps[0]);
      CodesStayUnique(Apply(s, steps[0]), steps[1..]);
    }
  }

  // ---- reading one's own writes

  predicate AnswersOwnWrite(s: State, rid: nat)
    requires rid in s.requests
  {
    var request := s.requests[rid];
    request.commit.Some? && Held(request.phase).Some? ==>
      request.commit.value < |s.history|
        && s.history[request.commit.value].after.version <= Held(request.phase).value.version
  }

  predicate AllAnswer(s: State) {
    forall rid {:trigger AnswersOwnWrite(s, rid)} | rid in s.requests :: AnswersOwnWrite(s, rid)
  }

  /** A row query after the write sees the written version or a later one. */
  lemma RowAtLeastWritten(origin: Db, s: State, rid: nat)
    requires Recorded(origin, s) && rid in s.requests && s.requests[rid].commit.Some?
    ensures var i := s.requests[rid].commit.value;
            && i < |s.history| && s.requests[rid].key in s.db.rows
            && s.history[i].after.version <= s.db.rows[s.requests[rid].key].version
  {
    assert Placed(s, rid);
    var i := s.requests[rid].commit.value;
    assert WrittenBy(s, i);
    LaterVersions(origin, s.history, i);
    assert RowAfter(origin, s.history, s.history[i].key) == Lookup(s.db, s.history[i].key);
  }

  lemma MoverAnswers(origin: Db, s: State, step: Step)
    requires Safe(s) && Recorded(origin, s) && AllAnswer(s) && step.rid in s.requests
    requires !WriteLands(s, step) && !InsertLands(s, step)
    ensures AnswersOwnWrite(Apply(s, step), step.rid)
  {
    assert AnswersOwnWrite(s, step.rid) && Placed(s, step.rid);
    QuietStep(s, step);
    if s.requests[step.rid].commit.Some? {
      RowAtLeastWritten(origin, s, step.rid);
    }
  }

  lemma StepAnswers(origin: Db, s: State, step: Step)
    requires Safe(s) && Recorded(origin, s) && AllAnswer(s)
    ensures AllAnswer(Apply(s, step))
  {
    StepFrame(s, step);
    var next := Apply(s, step);
    if WriteLands(s, step) || InsertLands(s, step) {
      CommittingStep(s, step);
    } else {
      QuietStep(s, step);
    }
    forall rid | rid in next.requests ensures AnswersOwnWrite(next, rid) {
      if rid in s.requests {
        assert AnswersOwnWrite(s, rid);
        if rid == step.rid && !WriteLands(s, step) && !InsertLands(s, step) {
          MoverAnswers(origin, s, step);
        } else if rid != step.rid && s.requests[rid].commit.Some? {
          RowAtLeastWritten(origin, s, rid);
          assert next.history[s.requests[rid].commit.value] == s.history[s.requests[rid].commit.value];
        }
      }
    }
  }

  lemma {:induction false} RunAnswers(origin: Db, s: State, steps: seq<Step>)
    requires Safe(s) && Recorded(origin, s) && AllAnswer(s)
    ensures AllAnswer(Run(s, steps))
    decreases |steps|
  {
    if steps != [] {
      StepSafe(s, steps[0]);
      StepRecorded(origin, s, steps[0]);
      StepAnswers(origin, s, steps[0]);
      RunAnswers(origin, Apply(s, steps[0]), steps[1..]);
    }
  }

  /** Reading one's own write: the row a successful write answers with is at the
      written version or a later one, never an older one. */
  lemma ResponsesIncludeOwnWrite(origin: Db, steps: seq<Step>, rid: nat)
    requires Good(origin) && rid in Run(Boot(origin), steps).requests
    requires var request := Run(Boot(origin), steps).requests[rid];
             request.commit.Some? && request.phase.Finished? && request.phase.outcome.Returned?
    ensures var s := Run(Boot(origin), steps);
            var request := s.requests[rid];
            && request.commit.value < |s.history|
            && s.history[request.commit.value].after.version <= request.phase.outcome.row.version
            && (request.call.Versioned() ==> request.call.op.expected < request.phase.outcome.row.version)
  {
    BootRecorded(origin);
    RunRecorded(origin, Boot(origin), steps);
    RunAnswers(origin, Boot(origin), steps);
    var s := Run(Boot(origin), steps);
    assert AnswersOwnWrite(s, rid) && Placed(s, rid);
    var i := s.requests[rid].commit.value;
    assert WrittenBy(s, i) && Counted(s.history[i]);
  }
}
