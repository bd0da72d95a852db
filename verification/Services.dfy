/** The services as objects whose methods run one statement at a time: they read a
    row, overwrite the fields of their copy one by one, write it back and append to the
    audit log.  Each method, run alone, is proved to do what Alone says, and so are the
    steps of one request of the machine; that a method's statements are the machine's
    steps one by one is by inspection. */
module Services {
  import opened Lifecycle
  import opened Records
  import opened Tables
  import opened Rules
  import opened Evolution
  import opened Solo
  import opened Persistence

  /** The single writer of the audit log.  down models an unavailable audit table. */
  class AuditService {
    const db: Database

    constructor (db: Database)
      ensures this.db == db
    {
      this.db := db;
    }

    method Audit(actor: string, requestID: string, action: Action, key: Key, before: Mark, after: Mark,
                 detail: Note, now: nat, down: bool) returns (error: Option<Error>)
      requires db.Valid()
      modifies db
      ensures db.Valid() && db.lastId == old(db.lastId)
      ensures error == if down then Some(AuditFailed) else None
      ensures db.Value() ==
              if down then old(db.Value())
              else Tables.AppendAudit(old(db.Value()), AuditEntry(
                if actor == "" then "system" else actor, if requestID == "" then "untracked" else requestID,
                action, key, before, after, detail, now))
    {
      var who, which := actor, requestID;
      if who == "" {
        who := "system";
      }
      if which == "" {
        which := "untracked";
      }
      if down {
        return Some(AuditFailed);
      }
      db.AppendAudit(AuditEntry(who, which, action, key, before, after, detail, now));
      error := None;
    }
  }

  /** The editable fields of a record, overwritten one by one. */
  method Overwrite(current: Fields, input: Fields) returns (fields: Fields)
    ensures fields == input
  {
    fields := current.(name := input.name);
    fields := fields.(description := input.description);
    fields := fields.(facility := input.facility);
    fields := fields.(owner := input.owner);
    fields := fields.(category := input.category);
    fields := fields.(riskLevel := input.riskLevel);
    fields := fields.(metricValue := input.metricValue);
    fields := fields.(metricUnit := input.metricUnit);
    fields := fields.(effectiveAt := input.effectiveAt);
    fields := fields.(evidence := input.evidence);
    fields := fields.(relatedCode := input.relatedCode);
  }

  lemma SavedIsConcluded(db: Db, call: Call, row: Row, now: nat, auditDown: bool)
    requires call.Versioned() && Find(db, KeyOf(call)) == Some(row) && Check(call, row) == None
    requires SaveRow(db, call, KeyOf(call), row, now).Success?
    ensures Alone(db, call, now, 0, auditDown)
         == Conclude(SaveRow(db, call, KeyOf(call), row, now).value, call, KeyOf(call), row, now, auditDown)
  {
  }

  /** Bridges, inspections and defects: one protocol over three graphs. */
  class RecordService {
    const db: Database
    const store: Store
    const audit: AuditService

    constructor (db: Database, kind: Kind)
      requires kind != Decision && db.Valid()
      ensures Valid() && this.db == db && store.kind == kind
    {
      this.db := db;
      store := new Store(db, kind);
      audit := new AuditService(db);
    }

    predicate Valid()
      reads db
    {
      store.db == db && audit.db == db && store.kind != Decision && db.Valid()
    }

    method Create(code: string, input: Fields, actor: string, requestID: string, now: nat, auditDown: bool)
      returns (outcome: Outcome)
      requires Valid()
      modifies db
      ensures Valid()
      ensures (db.Value(), outcome)
           == Alone(old(db.Value()), Call(store.kind, 0, Op.Create(code, input), actor, UnknownRole, requestID),
                    now, old(db.NextId(store.kind)), auditDown)
    {
      if code == "" || input.name == "" || input.facility == "" || input.owner == "" {
        return Rejected(InvalidInput);
      }
      var item := Row(code, InitialStatus(store.kind), 1, input, "", now, now, false);
      var created := store.Create(item);
      if created.Failure? {
        return Rejected(created.error);
      }
      var _ := audit.Audit(actor, requestID, Created, Key(store.kind, created.value), Blank, At(item.status),
                           RowCreated, now, auditDown);
      outcome := Returned(item, []);
    }

    method Get(id: nat) returns (outcome: Outcome)
      requires Valid()
      ensures outcome == Response(db.Value(), Key(store.kind, id))
    {
      var item := store.Get(id);
      outcome := if item.None? then Rejected(NotFound) else Returned(item.value, []);
    }

    method Update(id: nat, expected: nat, input: Fields, actor: string, requestID: string, now: nat, auditDown: bool)
      returns (outcome: Outcome)
      requires Valid()
      modifies db
      ensures Valid() && db.lastId == old(db.lastId)
      ensures (db.Value(), outcome)
           == Alone(old(db.Value()), Call(store.kind, id, Op.Update(expected, input), actor, UnknownRole, requestID),
                    now, 0, auditDown)
    {
      var found := store.Get(id);
      if found.None? {
        return Rejected(NotFound);
      }
      var current := found.value;
      if current.code == "" || input.name == "" || input.facility == "" || input.owner == "" {
        return Rejected(InvalidInput);
      }
      var fields := Overwrite(current.fields, input);
      current := current.(fields := fields);
      current := current.(version := expected + 1);
      current := current.(updatedAt := now);
      var conflict := store.Update(id, expected, current);
      if conflict.Some? {
        return Rejected(conflict.value);
      }
      var _ := audit.Audit(actor, requestID, Updated, Key(store.kind, id), At(current.status), At(current.status),
                           FieldsUpdated, now, auditDown);
      outcome := Get(id);
    }

    method Transition(id: nat, expected: nat, target: Status, reason: string, actor: string, requestID: string,
                      now: nat, auditDown: bool)
      returns (outcome: Outcome)
      requires Valid()
      modifies db
      ensures Valid() && db.lastId == old(db.lastId)
      ensures (db.Value(), outcome)
           == Alone(old(db.Value()),
                    Call(store.kind, id, Op.Transition(expected, target, reason), actor, UnknownRole, requestID),
                    now, 0, auditDown)
    {
      var found := store.Get(id);
      if found.None? {
        return Rejected(NotFound);
      }
      var current := found.value;
      if !CanTransition(Transitions(store.kind), current.status, target) {
        return Rejected(InvalidTransition);
      }
      ghost var was := db.Value();
      ghost var call := Call(store.kind, id, Op.Transition(expected, target, reason), actor, UnknownRole, requestID);
      assert Check(call, current) == None;
      var before := current.status;
      current := current.(status := target);
      current := current.(version := expected + 1);
      current := current.(updatedAt := now);
      var conflict := store.Update(id, expected, current);
      if conflict.Some? {
        return Rejected(conflict.value);
      }
      assert SaveRow(was, call, KeyOf(call), found.value, now) == Success(db.Value());
      SavedIsConcluded(was, call, found.value, now, auditDown);
      var lost := audit.Audit(actor, requestID, Transitioned, Key(store.kind, id), At(before), At(target),
                              Given(reason), now, auditDown);
      if lost.Some? {
        return Rejected(lost.value);
      }
      outcome := Get(id);
    }

    method Delete(id: nat, actor: string, requestID: string, now: nat, auditDown: bool) returns (outcome: Outcome)
      requires Valid()
      modifies db
      ensures Valid() && db.lastId == old(db.lastId)
      ensures (db.Value(), outcome)
           == Alone(old(db.Value()), Call(store.kind, id, Op.Delete, actor, UnknownRole, requestID), now, 0, auditDown)
    {
      var found := store.Get(id);
      if found.None? {
        return Rejected(NotFound);
      }
      var gone := store.Delete(id);
      if gone.Some? {
        return Rejected(NotFound);
      }
      var lost := audit.Audit(actor, requestID, Removed, Key(store.kind, id), At(found.value.status), Tombstone,
                              SoftDeleted, now, auditDown);
      outcome := if lost.Some? then Rejected(lost.value) else Dropped;
    }
  }

  /** The revision the rules prescribe is the one whose clauses NewPriorityRevision
      promises. */
  lemma RevisionFits(call: Call, id: nat, item: Row, now: nat, revision: Revision)
    requires Describes(revision, item) && revision.snapshot.RowSnapshot? && revision.version == item.version
    requires revision.reason == ReasonOf(call.op) && revision.createdAt == now
    requires revision.actor == call.actor && revision.requestID == call.requestID
    ensures revision.(decision := id) == NewRevision(call, id, item, now)
  {
  }

  /** Priority decisions: revisions, ownership and separation of duty on top. */
  class PriorityDecisionService {
    const db: Database
    const repository: DecisionRepository
    const audit: AuditService

    constructor (db: Database)
      requires db.Valid()
      ensures Valid() && this.db == db
    {
      this.db := db;
      repository := new DecisionRepository(db);
      audit := new AuditService(db);
    }

    predicate Valid()
      reads db
    {
      repository.db == db && audit.db == db && repository.Valid()
    }

    method Get(id: nat) returns (outcome: Outcome)
      requires Valid()
      ensures outcome == Response(db.Value(), Key(Decision, id))
    {
      var item := repository.Get(id);
      outcome := if item.None? then Rejected(NotFound) else Returned(item.value.0, item.value.1);
    }

    /** The revision of an item, complete but for its decision, which the repository
        fills in.  It remembers the whole row, and it is the link that extends any
        unbroken chain of the earlier versions to the chain of the item. */
    method NewPriorityRevision(item: Row, reason: Note, actor: string, requestID: string, now: nat)
      returns (revision: Revision)
      ensures Describes(revision, item) && revision.snapshot.RowSnapshot?
      ensures forall chain {:trigger Contiguous(chain)} ::
                Contiguous(chain) && |chain| + 1 == item.version ==> Chain(chain + [revision], item)
      ensures revision.version == item.version && revision.decision == 0
      ensures revision.reason == reason && revision.createdAt == now
      ensures revision.actor == actor && revision.requestID == requestID
    {
      var snapshot := RowSnapshot(item.code, item.status, item.version, item.fields, item.preparedBy);
      revision := Revision(0, item.version, item.status, item.fields.evidence, reason, actor, requestID, snapshot, now);
    }

    /** How Create, Update and Transition end: an audit entry, whose failure only a
        Transition reports, and a Get. */
    method AuditAndGet(ghost call: Call, ghost row: Row, action: Action, id: nat, before: Mark, after: Mark,
                       detail: Note, actor: string, requestID: string, now: nat, required: bool, auditDown: bool)
      returns (outcome: Outcome)
      requires Valid() && Key(Decision, id) in db.rows
      requires call.kind == Decision && actor == call.actor && requestID == call.requestID
      requires !call.op.Delete? && (required <==> ReportsAuditFailure(call.op))
      requires var entry := EntryFor(call, Key(Decision, id), row);
               (entry.action, entry.before, entry.after, entry.detail) == (action, before, after, detail)
      modifies db
      ensures Valid() && db.lastId == old(db.lastId)
      ensures (db.Value(), outcome) == Conclude(old(db.Value()), call, Key(Decision, id), row, now, auditDown)
    {
      var lost := audit.Audit(actor, requestID, action, Key(Decision, id), before, after, detail, now, auditDown);
      if required && lost.Some? {
        return Rejected(lost.value);
      }
      outcome := Get(id);
    }

    method Create(code: string, input: Fields, actor: string, role: Role, requestID: string, now: nat, auditDown: bool)
      returns (outcome: Outcome)
      requires Valid()
      modifies db
      ensures Valid()
      ensures (db.Value(), outcome)
           == Alone(old(db.Value()), Call(Decision, 0, Op.Create(code, input), actor, role, requestID),
                    now, old(db.NextId(Decision)), auditDown)
    {
      if code == "" || input.name == "" || input.facility == "" || input.owner == "" || input.evidence == ""
         || input.relatedCode == ""
      {
        return Rejected(InvalidInput);
      }
      ghost var was := db.Value();
      ghost var call := Call(Decision, 0, Op.Create(code, input), actor, role, requestID);
      var item := Row(code, Draft, 1, input, actor, now, now, false);
      assert item == NewRow(call, now);
      var revision := NewPriorityRevision(item, DraftCreated, actor, requestID, now);
      var created := repository.CreateWithRevision(item, revision);
      if created.Failure? {
        return Rejected(created.error);
      }
      assert CreateRow(was, call, Key(Decision, created.value), now) == Success(db.Value());
      outcome := AuditAndGet(call, item, Created, created.value, Blank, At(item.status), RowCreated,
                             actor, requestID, now, false, auditDown);
    }

    method Update(id: nat, expected: nat, input: Fields, actor: string, role: Role, requestID: string, now: nat,
                  auditDown: bool)
      returns (outcome: Outcome)
      requires Valid()
      modifies db
      ensures Valid() && db.lastId == old(db.lastId)
      ensures (db.Value(), outcome)
           == Alone(old(db.Value()), Call(Decision, id, Op.Update(expected, input), actor, role, requestID),
                    now, 0, auditDown)
    {
      var found := repository.Get(id);
      if found.None? {
        return Rejected(NotFound);
      }
      var current := found.value.0;
      if current.status != Draft {
        return Rejected(DecisionLocked);
      }
      if actor != current.preparedBy && role != Admin {
        return Rejected(NotDecisionOwner);
      }
      if current.code == "" || input.name == "" || input.facility == "" || input.owner == "" || input.evidence == ""
         || input.relatedCode == ""
      {
        return Rejected(InvalidInput);
      }
      ghost var was := db.Value();
      ghost var call := Call(Decision, id, Op.Update(expected, input), actor, role, requestID);
      assert Check(call, current) == None;
      var fields := Overwrite(current.fields, input);
      current := current.(fields := fields);
      current := current.(version := expected + 1);
      current := current.(updatedAt := now);
      var revision := NewPriorityRevision(current, DraftUpdated, actor, requestID, now);
      assert current == Patch(call, found.value.0, now);
      RevisionFits(call, id, current, now, revision);
      var conflict := repository.UpdateWithRevision(id, expected, current, revision);
      if conflict.Some? {
        assert SaveRow(was, call, KeyOf(call), found.value.0, now) == Failure(conflict.value);
        return Rejected(conflict.value);
      }
      assert SaveRow(was, call, KeyOf(call), found.value.0, now) == Success(db.Value());
      SavedIsConcluded(was, call, found.value.0, now, auditDown);
      outcome := AuditAndGet(call, found.value.0, Updated, id, At(current.status), At(current.status), FieldsUpdated,
                             actor, requestID, now, false, auditDown);
    }

    method Transition(id: nat, expected: nat, target: Status, reason: string, actor: string, role: Role,
                      requestID: string, now: nat, auditDown: bool)
      returns (outcome: Outcome)
      requires Valid()
      modifies db
      ensures Valid() && db.lastId == old(db.lastId)
      ensures (db.Value(), outcome)
           == Alone(old(db.Value()),
                    Call(Decision, id, Op.Transition(expected, target, reason), actor, role, requestID),
                    now, 0, auditDown)
    {
      var found := repository.Get(id);
      if found.None? {
        return Rejected(NotFound);
      }
      var current := found.value.0;
      if role != Reviewer && role != Admin {
        return Rejected(ReviewRole);
      }
      if actor == current.preparedBy {
        return Rejected(SeparationOfDuty);
      }
      if !CanTransition(Transitions(Decision), current.status, target) {
        return Rejected(InvalidTransition);
      }
      ghost var was := db.Value();
      ghost var call := Call(Decision, id, Op.Transition(expected, target, reason), actor, role, requestID);
      assert Check(call, current) == None;
      var before := current.status;
      current := current.(status := target);
      current := current.(version := expected + 1);
      current := current.(updatedAt := now);
      var revision := NewPriorityRevision(current, Given(reason), actor, requestID, now);
      assert current == Patch(call, found.value.0, now);
      RevisionFits(call, id, current, now, revision);
      var conflict := repository.UpdateWithRevision(id, expected, current, revision);
      if conflict.Some? {
        return Rejected(conflict.value);
      }
      assert SaveRow(was, call, KeyOf(call), found.value.0, now) == Success(db.Value());
      SavedIsConcluded(was, call, found.value.0, now, auditDown);
      outcome := AuditAndGet(call, found.value.0, Transitioned, id, At(before), At(target), Given(reason),
                             actor, requestID, now, true, auditDown);
    }

    method Delete(id: nat, actor: string, role: Role, requestID: string, now: nat, auditDown: bool)
      returns (outcome: Outcome)
      requires Valid()
      modifies db
      ensures Valid() && db.lastId == old(db.lastId)
      ensures (db.Value(), outcome)
           == Alone(old(db.Value()), Call(Decision, id, Op.Delete, actor, role, requestID), now, 0, auditDown)
    {
      var found := repository.Get(id);
      if found.None? {
        return Rejected(NotFound);
      }
      var current := found.value.0;
      if current.status != Draft {
        return Rejected(DecisionLocked);
      }
      var gone := repository.Delete(id);
      if gone.Some? {
        return Rejected(NotFound);
      }
      var lost := audit.Audit(actor, requestID, Removed, Key(Decision, id), At(current.status), Tombstone,
                              SoftDeleted, now, auditDown);
      outcome := if lost.Some? then Rejected(lost.value) else Dropped;
    }
  }
}
