/** The persisted records and the messages exchanged with the services.
    Input strings are taken after the services' trimming and upper-casing. */
module Records {
  import opened Lifecycle

  datatype Option<+T> = None | Some(value: T)

  datatype Result<+T> = Success(value: T) | Failure(error: Error)

  datatype Error =
    | NotFound
    | InvalidInput
    | DecisionLocked
    | NotDecisionOwner
    | ReviewRole
    | SeparationOfDuty
    | InvalidTransition
    | VersionConflict
    | DuplicateCode
    | DuplicateRevision
    | AuditFailed

  datatype Role = Viewer | Operator | Reviewer | Admin | UnknownRole

  /** The business fields a client may edit. */
  datatype Fields = Fields(
    name: string, description: string, facility: string, owner: string,
    category: string, riskLevel: string, metricValue: real, metricUnit: string,
    effectiveAt: int, evidence: string, relatedCode: string)

  /** One stored aggregate.  Only decisions have a preparer; it is "" elsewhere. */
  datatype Row = Row(
    code: string, status: Status, version: nat, fields: Fields, preparedBy: string,
    createdAt: nat, updatedAt: nat, deleted: bool)

  /** The fixed texts the services write, or a client's own words. */
  datatype Note =
    | DraftCreated | DraftUpdated | SeededDraft | SeededReview
    | RowCreated | FieldsUpdated | SoftDeleted
    | Given(text: string)

  /** What a revision remembers of its decision.  Seeded revisions remember less. */
  datatype Snapshot =
    | SeedSnapshot(code: string, status: Status, evidence: string)
    | RowSnapshot(code: string, status: Status, version: nat, fields: Fields, preparedBy: string)

  datatype Revision = Revision(
    decision: nat, version: nat, status: Status, evidence: string,
    reason: Note, actor: string, requestID: string, snapshot: Snapshot, createdAt: nat)

  datatype Action = Created | Updated | Transitioned | Removed

  /** The before/after column of an audit entry: "", a status, or "deleted". */
  datatype Mark = Blank | At(status: Status) | Tombstone

  datatype AuditEntry = AuditEntry(
    actor: string, requestID: string, action: Action, key: Key,
    before: Mark, after: Mark, detail: Note, createdAt: nat)

  datatype Key = Key(kind: Kind, id: nat)

  /** Three groups of tables.  Soft-deleted rows stay in rows. */
  datatype Db = Db(rows: map<Key, Row>, revisions: seq<Revision>, audits: seq<AuditEntry>)

  datatype Op =
    | Create(code: string, fields: Fields)
    | Update(expected: nat, fields: Fields)
    | Transition(expected: nat, target: Status, reason: string)
    | Delete
    | Fetch

  /** One service call as the handler issues it.  A create ignores id. */
  datatype Call = Call(kind: Kind, id: nat, op: Op, actor: string, role: Role, requestID: string)
  {
    /** The calls that carry an ExpectedVersion. */
    predicate Versioned() {
      op.Update? || op.Transition?
    }
  }

  datatype Outcome =
    | Returned(row: Row, revisions: seq<Revision>)
    | Dropped
    | Rejected(error: Error)
}
