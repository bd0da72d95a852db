/** The atomic statements of the repositories, as functions on the database value. */
module Tables {
  import opened Lifecycle
  import opened Records

  /** SELECT by primary key: soft-deleted rows are invisible. */
  function Find(db: Db, key: Key): Option<Row> {
    if key in db.rows && !db.rows[key].deleted then Some(db.rows[key]) else None
  }

  /** The columns an UPDATE leaves alone keep their stored values. */
  function Stored(item: Row, stored: Row): Row {
    item.(code := stored.code, preparedBy := stored.preparedBy, createdAt := stored.createdAt,
          deleted := stored.deleted)
  }

  /** UPDATE ... WHERE id = ? AND version = ?; None when no row matches. */
  function CompareAndSwap(db: Db, key: Key, expected: nat, item: Row): Option<Db> {
    match Find(db, key)
    case Some(row) =>
      if row.version == expected then Some(db.(rows := db.rows[key := Stored(item, row)])) else None
    case None => None
  }

  predicate CodeTaken(db: Db, kind: Kind, code: string) {
    exists key <- db.rows :: key.kind == kind && db.rows[key].code == code
  }

  /** INSERT; the unique index on code also covers soft-deleted rows. */
  function Insert(db: Db, key: Key, item: Row): Result<Db> {
    if CodeTaken(db, key.kind, item.code) then Failure(DuplicateCode)
    else Success(db.(rows := db.rows[key := item]))
  }

  /** INSERT into the revision table under its unique (decision, version) index. */
  function AppendRevision(db: Db, revision: Revision): Result<Db> {
    if exists r <- db.revisions :: r.decision == revision.decision && r.version == revision.version
    then Failure(DuplicateRevision)
    else Success(db.(revisions := db.revisions + [revision]))
  }

  function SoftDelete(db: Db, key: Key): Result<Db> {
    match Find(db, key)
    case Some(row) => Success(db.(rows := db.rows[key := row.(deleted := true)]))
    case None => Failure(NotFound)
  }

  function AppendAudit(db: Db, entry: AuditEntry): Db {
    db.(audits := db.audits + [entry])
  }

  /** The revisions of one decision, in insertion order. */
  function HistoryOf(revisions: seq<Revision>, id: nat): seq<Revision> {
    if revisions == [] then []
    else
      var last := revisions[|revisions| - 1];
      var earlier := HistoryOf(revisions[..|revisions| - 1], id);
      if last.decision == id then earlier + [last] else earlier
  }

  function InsertByVersion(revision: Revision, sorted: seq<Revision>): seq<Revision> {
    if sorted == [] || sorted[|sorted| - 1].version <= revision.version then sorted + [revision]
    else InsertByVersion(revision, sorted[..|sorted| - 1]) + [sorted[|sorted| - 1]]
  }

  /** ORDER BY version ASC. */
  function SortByVersion(revisions: seq<Revision>): seq<Revision> {
    if revisions == [] then []
    else InsertByVersion(revisions[|revisions| - 1], SortByVersion(revisions[..|revisions| - 1]))
  }

  /** The preload query of a decision. */
  function RevisionsOf(db: Db, id: nat): seq<Revision> {
    SortByVersion(HistoryOf(db.revisions, id))
  }

  predicate Ascending(revisions: seq<Revision>) {
    forall i, j :: 0 <= i < j < |revisions| ==> revisions[i].version <= revisions[j].version
  }

  lemma {:induction false} InsertByVersionKeeps(revision: Revision, sorted: seq<Revision>)
    ensures multiset(InsertByVersion(revision, sorted)) == multiset(sorted) + multiset{revision}
  {
    if sorted != [] && sorted[|sorted| - 1].version > revision.version {
      var n := |sorted| - 1;
      InsertByVersionKeeps(revision, sorted[..n]);
      assert sorted == sorted[..n] + [sorted[n]];
    }
  }

  lemma {:induction false} InsertByVersionSorts(revision: Revision, sorted: seq<Revision>)
    requires Ascending(sorted)
    ensures Ascending(InsertByVersion(revision, sorted))
    ensures forall r <- InsertByVersion(revision, sorted) :: r == revision || r in sorted
  {
    if sorted != [] && sorted[|sorted| - 1].version > revision.version {
      var n := |sorted| - 1;
      InsertByVersionSorts(revision, sorted[..n]);
      forall r | r in sorted[..n] ensures r in sorted && r.version <= sorted[n].version {
        var i :| 0 <= i < n && sorted[i] == r;
      }
    }
  }

  /** The preload query returns the same revisions, in ascending version order. */
  lemma {:induction false} SortByVersionSorts(revisions: seq<Revision>)
    ensures Ascending(SortByVersion(revisions))
    ensures multiset(SortByVersion(revisions)) == multiset(revisions)
  {
    if revisions != [] {
      var n := |revisions| - 1;
      SortByVersionSorts(revisions[..n]);
      InsertByVersionSorts(revisions[n], SortByVersion(revisions[..n]));
      InsertByVersionKeeps(revisions[n], SortByVersion(revisions[..n]));
      assert revisions == revisions[..n] + [revisions[n]];
    }
  }

  lemma {:induction false} SortKeepsAscending(revisions: seq<Revision>)
    requires Ascending(revisions)
    ensures SortByVersion(revisions) == revisions
  {
    if revisions != [] {
      var n := |revisions| - 1;
      SortKeepsAscending(revisions[..n]);
      assert revisions == revisions[..n] + [revisions[n]];
    }
  }

  lemma HistoryAppend(revisions: seq<Revision>, revision: Revision, id: nat)
    ensures HistoryOf(revisions + [revision], id)
         == if revision.decision == id then HistoryOf(revisions, id) + [revision] else HistoryOf(revisions, id)
  {
    assert (revisions + [revision])[..|revisions|] == revisions;
  }

  lemma {:induction false} HistoryMembers(revisions: seq<Revision>, id: nat)
    ensures forall r :: r in HistoryOf(revisions, id) <==> r in revisions && r.decision == id
  {
    if revisions != [] {
      var n := |revisions| - 1;
      HistoryMembers(revisions[..n], id);
      assert revisions == revisions[..n] + [revisions[n]];
    }
  }
}
