/** What one undisturbed call answers and stores, said without the functions that
    compute it: exactly when it succeeds, which error it meets otherwise, and what it
    leaves in the three groups of tables. */
module Answers {
  import opened Lifecycle
  import opened Records
  import opened Tables
  import opened Rules
  import opened Evolution
  import opened Solo

  predicate IsLive(db: Db, key: Key) {
    key in db.rows && !db.rows[key].deleted
  }

  // ---- the calls as clients make them

  function Transitioning(key: Key, expected: nat, target: Status, reason: string, actor: string, role: Role,
                         requestID: string): Call {
    Call(key.kind, key.id, Op.Transition(expected, target, reason), actor, role, requestID)
  }

  function Updating(key: Key, expected: nat, input: Fields, actor: string, role: Role, requestID: string): Call {
    Call(key.kind, key.id, Op.Update(expected, input), actor, role, requestID)
  }

  function Creating(kind: Kind, code: string, input: Fields, actor: string, role: Role, requestID: string): Call {
    Call(kind, 0, Op.Create(code, input), actor, role, requestID)
  }

  function Deleting(key: Key, actor: string, role: Role, requestID: string): Call {
    Call(key.kind, key.id, Op.Delete, actor, role, requestID)
  }

  /** The answer with the audit log available. */
  function Answer(db: Db, call: Call, now: nat, newId: nat): Outcome {
    Alone(db, call, now, newId, false).1
  }

  /** A save that no guard stops. */
  lemma SavesAlone(db: Db, call: Call, now: nat, down: bool)
    requires Good(db) && call.Versioned() && IsLive(db, KeyOf(call)) && Check(call, db.rows[KeyOf(call)]) == None
    ensures var row := db.rows[KeyOf(call)];
            Alone(db, call, now, 0, down)
            == if row.version == call.op.expected
               then Conclude(Saved(db, call, KeyOf(call), row, now), call, KeyOf(call), row, now, down)
               else (db, Rejected(VersionConflict))
  {
    SaveOutcome(db, call, KeyOf(call), db.rows[KeyOf(call)], now);
  }

  // ---- when calls succeed, and with which error they fail

  /** Finalising a decision succeeds exactly for an independent reviewer or admin, a
      draft, a final status and the current version; of several errors the role comes
      first, then separation of duty, then the graph, then the version. */
  lemma DecisionTransitionAnswer(db: Db, id: nat, expected: nat, target: Status, reason: string, actor: string,
                                 role: Role, requestID: string, now: nat)
    requires Good(db)
    ensures var key := Key(Decision, id);
            var answer := Answer(db, Transitioning(key, expected, target, reason, actor, role, requestID), now, 0);
            if !IsLive(db, key) then answer == Rejected(NotFound)
            else
              var row := db.rows[key];
              var reviews := role == Reviewer || role == Admin;
              var independent := actor != row.preparedBy;
              var decides := row.status == Draft && (target == Observe || target == Restrict || target == Urgent);
              && (answer.Returned? <==> reviews && independent && decides && row.version == expected)
              && (answer == Rejected(ReviewRole) <==> !reviews)
              && (answer == Rejected(SeparationOfDuty) <==> reviews && !independent)
              && (answer == Rejected(InvalidTransition) <==> reviews && independent && !decides)
              && (answer == Rejected(VersionConflict) <==>
                    reviews && independent && decides && row.version != expected)
  {
    var call := Transitioning(Key(Decision, id), expected, target, reason, actor, role, requestID);
    if IsLive(db, KeyOf(call)) {
      DecisionMoves(db.rows[KeyOf(call)].status, target);
      if Check(call, db.rows[KeyOf(call)]) == None {
        SavesAlone(db, call, now, false);
      }
    }
  }

  /** Editing a decision succeeds exactly for its preparer or an admin, on a draft, with
      all six required fields and the current version; the lock comes before ownership,
      ownership before validation, validation before the version. */
  lemma DecisionUpdateAnswer(db: Db, id: nat, expected: nat, input: Fields, actor: string, role: Role,
                             requestID: string, now: nat)
    requires Good(db)
    ensures var key := Key(Decision, id);
            var answer := Answer(db, Updating(key, expected, input, actor, role, requestID), now, 0);
            if !IsLive(db, key) then answer == Rejected(NotFound)
            else
              var row := db.rows[key];
              var owns := actor == row.preparedBy || role == Admin;
              var filled := row.code != "" && input.name != "" && input.facility != "" && input.owner != ""
                            && input.evidence != "" && input.relatedCode != "";
              && (answer.Returned? <==> row.status == Draft && owns && filled && row.version == expected)
              && (answer == Rejected(DecisionLocked) <==> row.status != Draft)
              && (answer == Rejected(NotDecisionOwner) <==> row.status == Draft && !owns)
              && (answer == Rejected(InvalidInput) <==> row.status == Draft && owns && !filled)
              && (answer == Rejected(VersionConflict) <==>
                    row.status == Draft && owns && filled && row.version != expected)
  {
    var call := Updating(Key(Decision, id), expected, input, actor, role, requestID);
    if IsLive(db, KeyOf(call)) && Check(call, db.rows[KeyOf(call)]) == None {
      SavesAlone(db, call, now, false);
    }
  }

  /** A record of the three cyclic kinds moves exactly along its lifecycle, one or two
      places on or one back, at the current version, for anyone. */
  lemma RecordTransitionAnswer(db: Db, key: Key, expected: nat, target: Status, reason: string, actor: string,
                               role: Role, requestID: string, now: nat)
    requires Good(db) && key.kind != Decision
    ensures var answer := Answer(db, Transitioning(key, expected, target, reason, actor, role, requestID), now, 0);
            if !IsLive(db, key) then answer == Rejected(NotFound)
            else
              var row := db.rows[key];
              var moves := MovesOnLine(key.kind, row.status, target);
              && (answer.Returned? <==> moves && row.version == expected)
              && (answer == Rejected(InvalidTransition) <==> !moves)
              && (answer == Rejected(VersionConflict) <==> moves && row.version != expected)
  {
    var call := Transitioning(key, expected, target, reason, actor, role, requestID);
    if IsLive(db, key) {
      GraphsFollowTheLine(key.kind, db.rows[key].status, target);
      if Check(call, db.rows[key]) == None {
        SavesAlone(db, call, now, false);
      }
    }
  }

  lemma RecordUpdateAnswer(db: Db, key: Key, expected: nat, input: Fields, actor: string, role: Role,
                           requestID: string, now: nat)
    requires Good(db) && key.kind != Decision
    ensures var answer := Answer(db, Updating(key, expected, input, actor, role, requestID), now, 0);
            if !IsLive(db, key) then answer == Rejected(NotFound)
            else
              var row := db.rows[key];
              var filled := row.code != "" && input.name != "" && input.facility != "" && input.owner != "";
              && (answer.Returned? <==> filled && row.version == expected)
              && (answer == Rejected(InvalidInput) <==> !filled)
              && (answer == Rejected(VersionConflict) <==> filled && row.version != expected)
  {
    var call := Updating(key, expected, input, actor, role, requestID);
    if IsLive(db, key) && Check(call, db.rows[key]) == None {
      SavesAlone(db, call, now, false);
    }
  }

  /** Only drafts among the decisions can be deleted, and any live record; no role and
      no version is asked for. */
  lemma DeleteAnswer(db: Db, key: Key, actor: string, role: Role, requestID: string, now: nat)
    ensures var answer := Answer(db, Deleting(key, actor, role, requestID), now, 0);
            var locked := key.kind == Decision && IsLive(db, key) && db.rows[key].status != Draft;
            && (answer == Dropped <==> IsLive(db, key) && !locked)
            && (answer == Rejected(NotFound) <==> !IsLive(db, key))
            && (answer == Rejected(DecisionLocked) <==> locked)
  {
  }

  /** A create succeeds exactly with its required fields -- four, or six for a decision --
      and a code no row of the kind has, deleted rows included. */
  lemma CreateAnswer(db: Db, kind: Kind, code: string, input: Fields, actor: string, role: Role, requestID: string,
                     now: nat, newId: nat)
    requires Good(db) && Key(kind, newId) !in db.rows
    ensures var answer := Answer(db, Creating(kind, code, input, actor, role, requestID), now, newId);
            var filled := code != "" && input.name != "" && input.facility != "" && input.owner != ""
                          && (kind == Decision ==> input.evidence != "" && input.relatedCode != "");
            var taken := exists key <- db.rows :: key.kind == kind && db.rows[key].code == code;
            && (answer.Returned? <==> filled && !taken)
            && (answer == Rejected(InvalidInput) <==> !filled)
            && (answer == Rejected(DuplicateCode) <==> filled && taken)
  {
    var call := Creating(kind, code, input, actor, role, requestID);
    CreateKeeps(db, call, Key(kind, newId), now);
  }

  /** The response of a decision carries its whole chain, the new revision included. */
  lemma ChainIsReturned(db: Db, key: Key, audits: seq<AuditEntry>)
    requires Good(db) && IsLive(db, key)
    ensures Response(db.(audits := audits), key)
         == Returned(db.rows[key], if key.kind == Decision then HistoryOf(db.revisions, key.id) else [])
  {
    if key.kind == Decision {
      assert RowInOrder(db, key);
      SortKeepsAscending(HistoryOf(db.revisions, key.id));
    }
  }

  lemma FetchAnswer(db: Db, key: Key, actor: string, role: Role, requestID: string, now: nat)
    requires Good(db)
    ensures var end := Alone(db, Call(key.kind, key.id, Fetch, actor, role, requestID), now, 0, false);
            && end.0 == db
            && end.1 == if !IsLive(db, key) then Rejected(NotFound)
                        else Returned(db.rows[key],
                                      if key.kind == Decision then HistoryOf(db.revisions, key.id) else [])
  {
    if IsLive(db, key) {
      ChainIsReturned(db, key, db.audits);
      assert db.(audits := db.audits) == db;
    }
  }

  // ---- what calls leave behind

  /** A refused call changes nothing. */
  lemma RefusedChangesNothing(db: Db, call: Call, now: nat, newId: nat, down: bool)
    requires Answer(db, call, now, newId).Rejected?
    ensures Alone(db, call, now, newId, down) == (db, Answer(db, call, now, newId))
  {
  }

  function Who(actor: string): string {
    if actor == "" then "system" else actor
  }

  function Which(requestID: string): string {
    if requestID == "" then "untracked" else requestID
  }

  /** The log a call leaves: one more entry, unless the log is unavailable. */
  predicate Logs(db: Db, next: Db, entry: AuditEntry, down: bool) {
    next.audits == if down then db.audits else db.audits + [entry]
  }

  /** The revisions a call leaves: one more for a decision, telling the stored row. */
  predicate Revises(db: Db, next: Db, key: Key, item: Row, reason: Note, call: Call, now: nat) {
    next.revisions
    == if key.kind != Decision then db.revisions
       else db.revisions
            + [Revision(key.id, item.version, item.status, item.fields.evidence, reason, call.actor, call.requestID,
                        RowSnapshot(item.code, item.status, item.version, item.fields, item.preparedBy), now)]
  }

  /** What any save leaves, in terms of the row it stores. */
  lemma SaveEffect(db: Db, call: Call, item: Row, now: nat, down: bool)
    requires Good(db) && call.Versioned() && Answer(db, call, now, 0).Returned?
    requires IsLive(db, KeyOf(call)) ==> item == Stored(Patch(call, db.rows[KeyOf(call)], now), db.rows[KeyOf(call)])
    ensures var key := KeyOf(call);
            var end := Alone(db, call, now, 0, down);
            && IsLive(db, key) && db.rows[key].version == call.op.expected
            && end.0.rows == db.rows[key := item]
            && Revises(db, end.0, key, item, ReasonOf(call.op), call, now)
            && Logs(db, end.0, EntryFor(call, key, db.rows[key]).(createdAt := now), down)
            && end.1 == if down && ReportsAuditFailure(call.op) then Rejected(AuditFailed)
                        else Returned(item, if key.kind == Decision then HistoryOf(end.0.revisions, key.id) else [])
  {
    var key := KeyOf(call);
    SavesAlone(db, call, now, false);
    SavesAlone(db, call, now, down);
    var saved := Saved(db, call, key, db.rows[key], now);
    SaveKeeps(db, call, key, db.rows[key], now);
    ChainIsReturned(saved, key, Alone(db, call, now, 0, down).0.audits);
  }

  /** A successful update stores the input and nothing else but the next version and the
      time; a lost audit entry does not show. */
  lemma UpdateEffect(db: Db, key: Key, expected: nat, input: Fields, actor: string, role: Role, requestID: string,
                     now: nat, down: bool)
    requires Good(db) && Answer(db, Updating(key, expected, input, actor, role, requestID), now, 0).Returned?
    ensures key in db.rows
    ensures var call := Updating(key, expected, input, actor, role, requestID);
            var end := Alone(db, call, now, 0, down);
            var was := db.rows[key];
            var item := Row(was.code, was.status, was.version + 1, input, was.preparedBy, was.createdAt, now, false);
            && end.0.rows == db.rows[key := item]
            && Revises(db, end.0, key, item, DraftUpdated, call, now)
            && Logs(db, end.0, AuditEntry(Who(actor), Which(requestID), Updated, key, At(was.status), At(was.status),
                                          FieldsUpdated, now), down)
            && end.1 == Returned(item, if key.kind == Decision then HistoryOf(end.0.revisions, key.id) else [])
  {
    var call := Updating(key, expected, input, actor, role, requestID);
    assert KeyOf(call) == key && key in db.rows;
    var was := db.rows[key];
    var item := Row(was.code, was.status, expected + 1, input, was.preparedBy, was.createdAt, now, false);
    SaveEffect(db, call, item, now, down);
  }

  /** A successful transition changes the status, the version and the time only; a lost
      audit entry fails the call after the row has changed. */
  lemma TransitionEffect(db: Db, key: Key, expected: nat, target: Status, reason: string, actor: string, role: Role,
                         requestID: string, now: nat, down: bool)
    requires Good(db)
    requires Answer(db, Transitioning(key, expected, target, reason, actor, role, requestID), now, 0).Returned?
    ensures key in db.rows
    ensures var call := Transitioning(key, expected, target, reason, actor, role, requestID);
            var end := Alone(db, call, now, 0, down);
            var was := db.rows[key];
            var item := Row(was.code, target, was.version + 1, was.fields, was.preparedBy, was.createdAt, now, false);
            && end.0.rows == db.rows[key := item]
            && Revises(db, end.0, key, item, Given(reason), call, now)
            && Logs(db, end.0, AuditEntry(Who(actor), Which(requestID), Transitioned, key, At(was.status), At(target),
                                          Given(reason), now), down)
            && end.1 == if down then Rejected(AuditFailed)
                        else Returned(item, if key.kind == Decision then HistoryOf(end.0.revisions, key.id) else [])
  {
    var call := Transitioning(key, expected, target, reason, actor, role, requestID);
    assert KeyOf(call) == key && key in db.rows;
    var was := db.rows[key];
    var item := Row(was.code, target, expected + 1, was.fields, was.preparedBy, was.createdAt, now, false);
    SaveEffect(db, call, item, now, down);
  }

  /** A successful create stores every field in its own column; a lost audit entry does
      not show. */
  lemma CreateEffect(db: Db, kind: Kind, code: string, input: Fields, actor: string, role: Role, requestID: string,
                     now: nat, newId: nat, down: bool)
    requires Good(db) && Key(kind, newId) !in db.rows
    requires Answer(db, Creating(kind, code, input, actor, role, requestID), now, newId).Returned?
    ensures var call := Creating(kind, code, input, actor, role, requestID);
            var key := Key(kind, newId);
            var end := Alone(db, call, now, newId, down);
            var item := Row(code, Line(kind)[0], 1, input, if kind == Decision then actor else "", now, now, false);
            && end.0.rows == db.rows[key := item]
            && Revises(db, end.0, key, item, DraftCreated, call, now)
            && Logs(db, end.0, AuditEntry(Who(actor), Which(requestID), Created, key, Blank, At(item.status),
                                          RowCreated, now), down)
            && end.1 == Returned(item, if kind == Decision then HistoryOf(end.0.revisions, newId) else [])
  {
    var call := Creating(kind, code, input, actor, role, requestID);
    var key := Key(kind, newId);
    RowsStartTheLine(kind);
    CreateKeeps(db, call, key, now);
    ChainIsReturned(CreateRow(db, call, key, now).value, key, Alone(db, call, now, newId, down).0.audits);
  }

  /** A successful delete marks the row and keeps everything else; a lost audit entry
      fails the call after the row is gone. */
  lemma DeleteEffect(db: Db, key: Key, actor: string, role: Role, requestID: string, now: nat, down: bool)
    requires Answer(db, Deleting(key, actor, role, requestID), now, 0) == Dropped
    ensures key in db.rows
    ensures var end := Alone(db, Deleting(key, actor, role, requestID), now, 0, down);
            var was := db.rows[key];
            && end.0.rows == db.rows[key := was.(deleted := true)] && end.0.revisions == db.revisions
            && Logs(db, end.0, AuditEntry(Who(actor), Which(requestID), Removed, key, At(was.status), Tombstone,
                                          SoftDeleted, now), down)
            && end.1 == if down then Rejected(AuditFailed) else Dropped
  {
  }
}
