/** The client discipline is not only sufficient.  For every claim ahead of a read
    there is a run in which the stale write reopens a final decision. */
module Necessity {
  import opened Lifecycle
  import opened Records
  import opened Tables
  import opened Rules
  import opened Machine
  import opened Evolution
  import opened Safety
  import opened Discipline
  import opened Decisions
  import opened Solo

  const EMPTY: Db := Db(map[], [], [])
  const KEY: Key := Key(Decision, 1)
  const FIELDS: Fields := Fields("n", "", "f", "o", "", "low", 0.0, "", 0, "e", "r")

  function CreateCall(): Call {
    Call(Decision, 0, Create("c", FIELDS), "preparer", Operator, "q")
  }

  function UpdateCall(expected: nat): Call {
    Call(Decision, 1, Update(expected, FIELDS), "preparer", Operator, "q")
  }

  const DELETE_CALL: Call := Call(Decision, 1, Delete, "admin", Admin, "q")

  function FinalCall(expected: nat): Call {
    Call(Decision, 1, Transition(expected, Urgent, "why"), "reviewer", Reviewer, "q")
  }

  /** The decision is live, in draft, at this version. */
  predicate DraftAt(db: Db, version: nat) {
    && Good(db)
    && Find(db, KEY).Some?
    && db.rows[KEY].status == Draft && db.rows[KEY].version == version
    && db.rows[KEY].preparedBy == "preparer" && db.rows[KEY].code != ""
  }

  predicate Below(s: State, bound: nat) {
    forall rid <- s.requests :: rid < bound
  }

  lemma DraftCreated()
    ensures DraftAt(Alone(EMPTY, CreateCall(), 0, 1, false).0, 1)
  {
    var created := CreateRow(EMPTY, CreateCall(), KEY, 0);
    CreateKeeps(EMPTY, CreateCall(), KEY, 0);
    assert created.Success?;
  }

  /** A permitted save that runs alone. */
  lemma SavedAlone(db: Db, call: Call, current: Row, now: nat)
    requires Good(db) && call.Versioned() && Find(db, KeyOf(call)) == Some(current)
    requires current.version == call.op.expected && Check(call, current) == None
    ensures var next := Alone(db, call, now, 0, false).0;
            Good(next) && next.rows == Saved(db, call, KeyOf(call), current, now).rows
  {
    SaveOutcome(db, call, KeyOf(call), current, now);
    SaveKeeps(db, call, KeyOf(call), current, now);
    var saved := Saved(db, call, KeyOf(call), current, now);
    assert Atomic(db, call, KeyOf(call), now) == Success(saved);
    AloneWritesAtomically(db, call, now, 0, false);
    var next := Alone(db, call, now, 0, false).0;
    SameTables(saved, next);
  }

  lemma DraftUpdated(db: Db, version: nat)
    requires DraftAt(db, version)
    ensures DraftAt(Alone(db, UpdateCall(version), 0, 0, false).0, version + 1)
  {
    SavedAlone(db, UpdateCall(version), db.rows[KEY], 0);
  }

  lemma DraftFinalised(db: Db, version: nat)
    requires DraftAt(db, version)
    ensures var next := Alone(db, FinalCall(version), 0, 0, false).0;
            Good(next) && Find(next, KEY).Some? && next.rows[KEY].status == Urgent
              && next.rows[KEY].version == version + 1
  {
    DecisionMoves(Draft, Urgent);
    SavedAlone(db, FinalCall(version), db.rows[KEY], 0);
  }

  lemma {:induction false} AdvancesEcho(s: State, shown: Shown, step: Step, n: nat)
    requires step.Advance?
    ensures EchoRun(s, shown, Repeated(step, n), {})
    decreases n
  {
    if n > 0 {
      assert Repeated(step, n)[1..] == Repeated(step, n - 1);
      AdvancesEcho(Apply(s, step), shown + Showing(s.db), step, n - 1);
    }
  }

  /** A call that runs alone and claims the version it finds keeps the discipline. */
  lemma SoloEchoes(s: State, rid: nat, call: Call, now: nat, newId: nat)
    requires call.Versioned() ==> Find(s.db, KeyOf(call)).Some? && call.op.expected == s.db.rows[KeyOf(call)].version
    ensures EchoRun(s, {}, SoloSteps(rid, call, now, newId, false), {})
  {
    var steps := SoloSteps(rid, call, now, newId, false);
    assert steps[1..] == Repeated(Advance(rid, now, newId, false), 6);
    assert call.Versioned() ==> (KeyOf(call), call.op.expected) in Showing(s.db);
    AdvancesEcho(Apply(s, steps[0]), {} + Showing(s.db), Advance(rid, now, newId, false), 6);
  }

  lemma OneDrafts(s: State, version: nat, rid: nat)
    requires DraftAt(s.db, version) && Below(s, rid)
    ensures var next := Run(s, SoloSteps(rid, UpdateCall(version), 0, 0, false));
            && DraftAt(next.db, version + 1) && Below(next, rid + 1)
            && forall other <- s.requests :: other in next.requests && next.requests[other] == s.requests[other]
    ensures EchoRun(s, {}, SoloSteps(rid, UpdateCall(version), 0, 0, false), {})
  {
    SoloRunIsAlone(s, rid, UpdateCall(version), 0, 0, false);
    DraftUpdated(s.db, version);
    SoloEchoes(s, rid, UpdateCall(version), 0, 0);
  }

  /** Undisturbed updates carry the draft from one version to a later one. */
  lemma DraftUpTo(s: State, version: nat, goal: nat, bound: nat) returns (steps: seq<Step>, last: nat)
    requires DraftAt(s.db, version) && version <= goal && Below(s, bound)
    ensures var next := Run(s, steps);
            && DraftAt(next.db, goal) && Below(next, last)
            && (forall rid <- s.requests :: rid in next.requests && next.requests[rid] == s.requests[rid])
    ensures EchoRun(s, {}, steps, {})
    decreases goal - version
  {
    if version == goal {
      steps, last := [], bound;
    } else {
      var once := SoloSteps(bound, UpdateCall(version), 0, 0, false);
      var middle := Run(s, once);
      OneDrafts(s, version, bound);
      var rest;
      rest, last := DraftUpTo(middle, version + 1, goal, bound + 1);
      RunConcat(s, once, rest);
      EchoConcat(s, {}, once, rest, {});
      steps := once + rest;
    }
  }

  /** After this run the next step of rid turns a final decision back into a draft;
      rid read version read and claims version claim. */
  predicate Reopens(origin: Db, steps: seq<Step>, rid: nat, now: nat, read: nat, claim: nat) {
    var s := Run(Boot(origin), steps);
    var next := Apply(s, Advance(rid, now, 0, false));
    && rid in s.requests
    && s.requests[rid].phase.Writing? && s.requests[rid].phase.current.version == read
    && s.requests[rid].call.Versioned() && s.requests[rid].call.op.expected == claim
    && Final(s.db, s.requests[rid].key)
    && s.requests[rid].key in next.db.rows && next.db.rows[s.requests[rid].key].status == Draft
  }

  /** The same although no other request ever claims ahead of its read, from the start
      of the run to its end. */
  predicate ReopensAlone(origin: Db, steps: seq<Step>, rid: nat, now: nat, read: nat, claim: nat) {
    Good(origin) && HonestRunExcept(Boot(origin), steps, {rid}) && Reopens(origin, steps, rid, now, read, claim)
  }

  /** The reading half of a call on the decision: arrival, row query, revision query. */
  function ReadSteps(rid: nat, call: Call): seq<Step> {
    [Arrive(rid, call)] + Repeated(Advance(rid, 0, 0, false), 2)
  }

  function Parked(row: Row, call: Call): Request {
    Request(call, KEY, Writing(row), None, Unwritten)
  }

  /** The calls of the runs below whose guards pass on the draft. */
  predicate PassesOnDraft(call: Call) {
    (call.op.Update? && call == UpdateCall(call.op.expected)) || call == DELETE_CALL
  }

  lemma ReadsDraft(s: State, rid: nat, read: nat, call: Call)
    requires DraftAt(s.db, read) && rid !in s.requests && PassesOnDraft(call)
    ensures Run(s, ReadSteps(rid, call)) == s.(requests := s.requests[rid := Parked(s.db.rows[KEY], call)])
  {
    var step := Advance(rid, 0, 0, false);
    var one := Apply(s, Arrive(rid, call));
    assert ReadSteps(rid, call)[1..] == Repeated(step, 2);
    RunRepeated(one, step, 2);
    assert Repeat(one, step, 2) == Apply(Apply(one, step), step);
  }

  /** The request that may claim ahead, if its call claims a version at all. */
  function Exempt(rid: nat, call: Call): set<nat> {
    if call.Versioned() then {rid} else {}
  }

  lemma OnlyReaderExempt(s: State, rid: nat, call: Call)
    ensures EchoRun(s, {}, ReadSteps(rid, call), Exempt(rid, call))
  {
    var step := Advance(rid, 0, 0, false);
    assert ReadSteps(rid, call)[1..] == Repeated(step, 2);
    AdvancesEcho(Apply(s, Arrive(rid, call)), {} + Showing(s.db), step, 2);
    var shown := {} + Showing(s.db);
    EchoWider(Apply(s, Arrive(rid, call)), shown, shown, Repeated(step, 2), {}, Exempt(rid, call));
  }

  const CREATE_STEPS: seq<Step> := SoloSteps(0, CreateCall(), 0, 1, false)

  /** The first call on an idle service. */
  lemma FirstAlone(db: Db, call: Call, newId: nat)
    requires call.op.Create? ==> Key(call.kind, newId) !in db.rows
    ensures var next := Run(Boot(db), SoloSteps(0, call, 0, newId, false));
            next.db == Alone(db, call, 0, newId, false).0 && Below(next, 1)
  {
    SoloRunIsAlone(Boot(db), 0, call, 0, newId, false);
  }

  lemma OneCreates()
    ensures var next := Run(Boot(EMPTY), CREATE_STEPS); DraftAt(next.db, 1) && Below(next, 1)
  {
    FirstAlone(EMPTY, CreateCall(), 1);
    DraftCreated();
  }

  lemma DraftStarts(read: nat) returns (steps: seq<Step>, bound: nat)
    requires 1 <= read
    ensures var s := Run(Boot(EMPTY), steps); DraftAt(s.db, read) && Below(s, bound)
    ensures EchoRun(Boot(EMPTY), {}, steps, {})
  {
    OneCreates();
    var drafting;
    drafting, bound := DraftUpTo(Run(Boot(EMPTY), CREATE_STEPS), 1, read, 1);
    steps := CREATE_STEPS + drafting;
    RunConcat(Boot(EMPTY), CREATE_STEPS, drafting);
    SoloEchoes(Boot(EMPTY), 0, CreateCall(), 0, 1);
    EchoConcat(Boot(EMPTY), {}, CREATE_STEPS, drafting, {});
  }

  /** A run that leaves a reader of version read waiting to write. */
  lemma ReaderParks(read: nat, call: Call) returns (steps: seq<Step>, rid: nat, row: Row)
    requires 1 <= read && PassesOnDraft(call)
    ensures var s := Run(Boot(EMPTY), steps);
            && DraftAt(s.db, read) && Below(s, rid + 1)
            && rid in s.requests && s.requests[rid] == Parked(row, call) && row.version == read && row.status == Draft
    ensures EchoRun(Boot(EMPTY), {}, steps, Exempt(rid, call))
  {
    var start;
    start, rid := DraftStarts(read);
    var drafted := Run(Boot(EMPTY), start);
    row := drafted.db.rows[KEY];
    steps := start + ReadSteps(rid, call);
    RunConcat(Boot(EMPTY), start, ReadSteps(rid, call));
    ReadsDraft(drafted, rid, read, call);
    OnlyReaderExempt(drafted, rid, call);
    EchoWider(Boot(EMPTY), {}, {}, start, {}, Exempt(rid, call));
    EchoConcat(Boot(EMPTY), {}, start, ReadSteps(rid, call), Exempt(rid, call));
  }

  lemma OneFinalises(s: State, rid: nat, version: nat)
    requires DraftAt(s.db, version) && rid !in s.requests
    ensures var next := Run(s, SoloSteps(rid, FinalCall(version), 0, 0, false));
            && Good(next.db) && Find(next.db, KEY).Some?
            && next.db.rows[KEY].status == Urgent && next.db.rows[KEY].version == version + 1
            && (forall other <- s.requests :: other in next.requests && next.requests[other] == s.requests[other])
    ensures EchoRun(s, {}, SoloSteps(rid, FinalCall(version), 0, 0, false), {})
  {
    SoloEchoes(s, rid, FinalCall(version), 0, 0);
    SoloRunIsAlone(s, rid, FinalCall(version), 0, 0, false);
    DraftFinalised(s.db, version);
  }

  /** Others carry the draft on and finalise it, as version goal, under a parked reader. */
  lemma OthersFinalise(s: State, rid: nat, read: nat, goal: nat) returns (steps: seq<Step>)
    requires DraftAt(s.db, read) && Below(s, rid + 1) && rid in s.requests && read < goal
    ensures var next := Run(s, steps);
            && Good(next.db) && Find(next.db, KEY).Some?
            && next.db.rows[KEY].status == Urgent && next.db.rows[KEY].version == goal
            && rid in next.requests && next.requests[rid] == s.requests[rid]
    ensures EchoRun(s, {}, steps, {})
  {
    var moving, last := DraftUpTo(s, read, goal - 1, rid + 1);
    var moved := Run(s, moving);
    var closing := SoloSteps(last, FinalCall(goal - 1), 0, 0, false);
    OneFinalises(moved, last, goal - 1);
    steps := moving + closing;
    RunConcat(s, moving, closing);
    EchoConcat(s, {}, moving, closing, {});
  }

  /** Both halves in a row: a reader of version read waits on the final version goal. */
  lemma ReaderOvertaken(read: nat, goal: nat, call: Call) returns (steps: seq<Step>, rid: nat, row: Row)
    requires 1 <= read < goal && PassesOnDraft(call)
    ensures var s := Run(Boot(EMPTY), steps);
            && Good(s.db) && Find(s.db, KEY).Some? && s.db.rows[KEY].status == Urgent && s.db.rows[KEY].version == goal
            && rid in s.requests && s.requests[rid] == Parked(row, call) && row.version == read && row.status == Draft
    ensures HonestRunExcept(Boot(EMPTY), steps, Exempt(rid, call))
  {
    var before;
    before, rid, row := ReaderParks(read, call);
    var parked := Run(Boot(EMPTY), before);
    var after := OthersFinalise(parked, rid, read, goal);
    steps := before + after;
    RunConcat(Boot(EMPTY), before, after);
    EchoWider(parked, {}, {}, after, {}, Exempt(rid, call));
    EchoConcat(Boot(EMPTY), {}, before, after, Exempt(rid, call));
    EchoingClientsAreHonest(EMPTY, {}, steps, Exempt(rid, call));
  }

  /** The parked write wins its swap over the final row. */
  lemma ParkedWrites(s: State, rid: nat, row: Row, claim: nat)
    requires Good(s.db) && Find(s.db, KEY).Some? && s.db.rows[KEY].version == claim
    requires rid in s.requests && s.requests[rid] == Parked(row, UpdateCall(claim)) && row.status == Draft
    ensures var next := Apply(s, Advance(rid, 0, 0, false));
            KEY in next.db.rows && next.db.rows[KEY].status == Draft
  {
    SaveOutcome(s.db, UpdateCall(claim), KEY, row, 0);
  }

  /** For every claim ahead of a read there is a run in which the one stale write
      reopens a final decision while every other request keeps the discipline. */
  lemma StaleWriteReopens(read: nat, claim: nat) returns (steps: seq<Step>, rid: nat)
    requires 1 <= read < claim
    ensures ReopensAlone(EMPTY, steps, rid, 0, read, claim)
  {
    var row;
    steps, rid, row := ReaderOvertaken(read, claim, UpdateCall(claim));
    ParkedWrites(Run(Boot(EMPTY), steps), rid, row, claim);
  }

  /** A claim at or behind the read never reopens a final decision, from any start and
      whatever the other requests claim. */
  lemma TimelyWriteNeverReopens(origin: Db, steps: seq<Step>, rid: nat, now: nat, read: nat, claim: nat)
    requires Good(origin) && claim <= read
    ensures !Reopens(origin, steps, rid, now, read, claim)
  {
    RunSafe(Boot(origin), steps);
    var s := Run(Boot(origin), steps);
    if Reopens(origin, steps, rid, now, read, claim) {
      var request := s.requests[rid];
      assert RequestOk(s.db, request) && NotAhead(request);
      var step := Advance(rid, now, 0, false);
      if WriteLands(s, step) {
        OnlyDraftsAreSaved(s, step);
      } else {
        QuietStep(s, step);
      }
    }
  }

  /** The code accepts any ExpectedVersion that is current at commit time.  Among
      requests that otherwise keep the discipline, one can reopen a final decision if
      and only if its claim is ahead of the version it read. */
  lemma DisciplineIsExact(read: nat, claim: nat)
    requires 1 <= read && 1 <= claim
    ensures (exists origin, steps, rid, now :: ReopensAlone(origin, steps, rid, now, read, claim)) <==> read < claim
  {
    if read < claim {
      var steps, rid := StaleWriteReopens(read, claim);
    } else {
      forall origin, steps, rid, now ensures !ReopensAlone(origin, steps, rid, now, read, claim) {
        if Good(origin) {
          TimelyWriteNeverReopens(origin, steps, rid, now, read, claim);
        }
      }
    }
  }
}
