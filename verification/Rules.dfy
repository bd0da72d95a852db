/** The business rules of the services: validation, guards, and the row and
    revision a permitted write stores. */
module Rules {
  import opened Lifecycle
  import opened Records
  import opened Tables

  function KeyOf(call: Call): Key {
    Key(call.kind, call.id)
  }

  /** Decisions must also name their evidence and the defect they relate to. */
  predicate ValidFields(kind: Kind, code: string, fields: Fields) {
    && code != "" && fields.name != "" && fields.facility != "" && fields.owner != ""
    && (kind == Decision ==> fields.evidence != "" && fields.relatedCode != "")
  }

  /** The guards of Update, Transition and Delete, in the order the services
      evaluate them, on the row they read. */
  function Check(call: Call, current: Row): Option<Error> {
    match call.op
    case Update(_, fields) =>
      if call.kind == Decision && current.status != Draft then Some(DecisionLocked)
      else if call.kind == Decision && call.actor != current.preparedBy && call.role != Admin
      then Some(NotDecisionOwner)
      else if !ValidFields(call.kind, current.code, fields) then Some(InvalidInput)
      else None
    case Transition(_, target, _) =>
      if call.kind == Decision && call.role != Reviewer && call.role != Admin then Some(ReviewRole)
      else if call.kind == Decision && call.actor == current.preparedBy then Some(SeparationOfDuty)
      else if !CanTransition(Transitions(call.kind), current.status, target) then Some(InvalidTransition)
      else None
    case Delete =>
      if call.kind == Decision && current.status != Draft then Some(DecisionLocked) else None
    case _ => None
  }

  /** The row a create inserts. */
  function NewRow(call: Call, now: nat): Row
    requires call.op.Create?
  {
    Row(call.op.code, InitialStatus(call.kind), 1, call.op.fields,
        if call.kind == Decision then call.actor else "", now, now, false)
  }

  /** The whole row an Update or Transition writes back: the row it read with the
      requested change, stamped with the client's version plus one. */
  function Patch(call: Call, current: Row, now: nat): Row
    requires call.Versioned()
  {
    match call.op
    case Update(expected, fields) => current.(fields := fields, version := expected + 1, updatedAt := now)
    case Transition(expected, target, _) => current.(status := target, version := expected + 1, updatedAt := now)
  }

  function SnapshotOf(item: Row): Snapshot {
    RowSnapshot(item.code, item.status, item.version, item.fields, item.preparedBy)
  }

  function ReasonOf(op: Op): Note {
    match op
    case Create(_, _) => DraftCreated
    case Transition(_, _, reason) => Given(reason)
    case _ => DraftUpdated
  }

  function NewRevision(call: Call, id: nat, item: Row, now: nat): Revision {
    Revision(id, item.version, item.status, item.fields.evidence, ReasonOf(call.op),
             call.actor, call.requestID, SnapshotOf(item), now)
  }

  /** One statement or transaction: insert, with the first revision of a decision. */
  function CreateRow(db: Db, call: Call, key: Key, now: nat): Result<Db>
    requires call.op.Create?
  {
    var item := NewRow(call, now);
    if !ValidFields(call.kind, call.op.code, call.op.fields) then Failure(InvalidInput)
    else
      match Insert(db, key, item)
      case Failure(error) => Failure(error)
      case Success(inserted) =>
        if call.kind == Decision then AppendRevision(inserted, NewRevision(call, key.id, item, now))
        else Success(inserted)
  }

  /** One statement or transaction: compare-and-swap, with a revision for decisions. */
  function SaveRow(db: Db, call: Call, key: Key, current: Row, now: nat): Result<Db>
    requires call.Versioned()
  {
    var item := Patch(call, current, now);
    match CompareAndSwap(db, key, call.op.expected, item)
    case None => Failure(VersionConflict)
    case Some(swapped) =>
      if call.kind == Decision then AppendRevision(swapped, NewRevision(call, key.id, item, now)) else Success(swapped)
  }

  /** The write statement of a call that has read current. */
  function WriteRow(db: Db, call: Call, key: Key, current: Row, now: nat): Result<Db>
    requires call.Versioned() || call.op.Delete?
  {
    if call.op.Delete? then SoftDelete(db, key) else SaveRow(db, call, key, current, now)
  }

  /** Read, check and write with nothing in between. */
  function Atomic(db: Db, call: Call, key: Key, now: nat): Result<Db> {
    match call.op
    case Create(_, _) => CreateRow(db, call, key, now)
    case Fetch => Success(db)
    case _ =>
      match Find(db, key)
      case None => Failure(NotFound)
      case Some(current) =>
        match Check(call, current)
        case Some(error) => Failure(error)
        case None => WriteRow(db, call, key, current, now)
  }

  function DetailOf(call: Call): Note {
    match call.op
    case Create(_, _) => RowCreated
    case Update(_, _) => FieldsUpdated
    case Transition(_, _, reason) => Given(reason)
    case _ => SoftDeleted
  }

  /** What the services ask the audit log to record; the entry's time is set when
      it is appended.  An anonymous actor or request gets a default name. */
  function EntryFor(call: Call, key: Key, current: Row): AuditEntry {
    var actor := if call.actor == "" then "system" else call.actor;
    var requestID := if call.requestID == "" then "untracked" else call.requestID;
    match call.op
    case Create(_, _) => AuditEntry(actor, requestID, Created, key, Blank, At(current.status), DetailOf(call), 0)
    case Update(_, _) =>
      AuditEntry(actor, requestID, Updated, key, At(current.status), At(current.status), DetailOf(call), 0)
    case Transition(_, target, _) =>
      AuditEntry(actor, requestID, Transitioned, key, At(current.status), At(target), DetailOf(call), 0)
    case _ => AuditEntry(actor, requestID, Removed, key, At(current.status), Tombstone, DetailOf(call), 0)
  }

  /** A lost audit entry is reported by Transition and Delete only. */
  predicate ReportsAuditFailure(op: Op) {
    op.Transition? || op.Delete?
  }
}
