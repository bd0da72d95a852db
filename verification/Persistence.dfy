/** The repositories as objects over one shared database: each method is one
    statement or one transaction. */
module Persistence {
  import opened Lifecycle
  import opened Records
  import opened Tables
  import opened Listing

  /** The shared tables.  lastId is the auto-increment counter of each aggregate table. */
  class Database {
    var rows: map<Key, Row>
    var revisions: seq<Revision>
    var audits: seq<AuditEntry>
    var lastId: map<Kind, nat>

    constructor ()
      ensures Valid() && Value() == Db(map[], [], []) && forall kind: Kind :: lastId[kind] == 0
    {
      rows, revisions, audits := map[], [], [];
      lastId := map[Bridge := 0, Inspection := 0, Defect := 0, Decision := 0];
      new;
      forall kind: Kind ensures kind in lastId && lastId[kind] == 0 {
        match kind { case Bridge => case Inspection => case Defect => case Decision => }
      }
    }

    predicate Valid()
      reads this
    {
      && (forall kind: Kind :: kind in lastId)
      && (forall key <- rows :: key.id <= lastId[key.kind])
    }

    /** The database value the specifications talk about. */
    function Value(): Db
      reads this
    {
      Db(rows, revisions, audits)
    }

    function NextId(kind: Kind): nat
      requires Valid()
      reads this
    {
      lastId[kind] + 1
    }

    method AppendAudit(entry: AuditEntry)
      requires Valid()
      modifies this
      ensures Valid() && lastId == old(lastId)
      ensures Value() == Tables.AppendAudit(old(Value()), entry)
    {
      audits := audits + [entry];
    }
  }

  datatype Page = Page(items: seq<Key>, total: nat, page: nat, pageSize: nat)

  /** Paging, optimistic locking and soft deletion for one aggregate table. */
  class Store {
    const db: Database
    const kind: Kind

    constructor (db: Database, kind: Kind)
      ensures this.db == db && this.kind == kind
    {
      this.db, this.kind := db, kind;
    }

    method Get(id: nat) returns (item: Option<Row>)
      ensures item == Find(db.Value(), Key(kind, id))
    {
      var key := Key(kind, id);
      item := if key in db.rows && !db.rows[key].deleted then Some(db.rows[key]) else None;
    }

    method Create(item: Row) returns (result: Result<nat>)
      requires db.Valid()
      modifies db
      ensures db.Valid()
      ensures var key := Key(kind, old(db.NextId(kind)));
              match Insert(old(db.Value()), key, item)
              case Success(next) =>
                db.Value() == next && db.lastId == old(db.lastId)[kind := key.id] && result == Success(key.id)
              case Failure(error) =>
                db.Value() == old(db.Value()) && db.lastId == old(db.lastId) && result == Failure(error)
    {
      var taken := set key | key in db.rows && key.kind == kind && db.rows[key].code == item.code;
      if taken != {} {
        assert CodeTaken(db.Value(), kind, item.code);
        return Failure(DuplicateCode);
      }
      forall key | key in db.rows ensures !(key.kind == kind && db.rows[key].code == item.code) {
        assert key !in taken;
      }
      var id := db.lastId[kind] + 1;
      db.lastId := db.lastId[kind := id];
      db.rows := db.rows[Key(kind, id) := item];
      result := Success(id);
    }

    /** UPDATE every column but the immutable ones WHERE id and version match. */
    method Update(id: nat, expected: nat, item: Row) returns (error: Option<Error>)
      requires db.Valid()
      modifies db
      ensures db.Valid() && db.lastId == old(db.lastId)
      ensures match CompareAndSwap(old(db.Value()), Key(kind, id), expected, item)
              case Some(next) => db.Value() == next && error == None
              case None => db.Value() == old(db.Value()) && error == Some(VersionConflict)
    {
      var key := Key(kind, id);
      var rowsAffected := 0;
      if key in db.rows && !db.rows[key].deleted && db.rows[key].version == expected {
        db.rows := db.rows[key := Stored(item, db.rows[key])];
        rowsAffected := 1;
      }
      error := if rowsAffected == 0 then Some(VersionConflict) else None;
    }

    method Delete(id: nat) returns (error: Option<Error>)
      requires db.Valid()
      modifies db
      ensures db.Valid() && db.lastId == old(db.lastId)
      ensures match SoftDelete(old(db.Value()), Key(kind, id))
              case Success(next) => db.Value() == next && error == None
              case Failure(e) => db.Value() == old(db.Value()) && error == Some(e)
    {
      var key := Key(kind, id);
      var rowsAffected := 0;
      if key in db.rows && !db.rows[key].deleted {
        db.rows := db.rows[key := db.rows[key].(deleted := true)];
        rowsAffected := 1;
      }
      error := if rowsAffected == 0 then Some(NotFound) else None;
    }

    /** Count, then sort, skip and take. */
    method List(filter: Filter, page: int, pageSize: int) returns (result: Page)
      ensures result.total == |Matching(db.rows, kind, filter)|
      ensures result.page >= 1 && 1 <= result.pageSize <= 100
      ensures page >= 1 && 1 <= pageSize <= 100 ==> result.page == page && result.pageSize == pageSize
      ensures forall listing :: IsListing(db.rows, Matching(db.rows, kind, filter), listing) ==>
                result.items == PageOf(listing, result.page, result.pageSize)
      ensures forall key <- result.items ::
                && key in db.rows && key.kind == kind && !db.rows[key].deleted
                && filter.like(db.rows[key].code, db.rows[key].fields.name)
                && (filter.status == None || filter.status == Some(db.rows[key].status))
      ensures forall i, j :: 0 <= i < j < |result.items| ==>
                var a, b := db.rows[result.items[i]], db.rows[result.items[j]];
                a.updatedAt >= b.updatedAt && (a.updatedAt == b.updatedAt ==> result.items[i].id > result.items[j].id)
    {
      var p, size := NormalizePage(page, pageSize);
      var keys := Matching(db.rows, kind, filter);
      var sorted := SortKeys(db.rows, kind, keys);
      ListingIsNewestFirst(db.rows, kind, filter, sorted);
      result := Page(PageOf(sorted, p, size), |keys|, p, size);
      forall listing | IsListing(db.rows, keys, listing) ensures listing == sorted {
        ListingIsUnique(db.rows, kind, keys, listing, sorted);
      }
    }

    method CountByStatus() returns (counts: map<Status, nat>)
      ensures forall status :: status in counts <==> Population(db.rows, kind, status) != {}
      ensures forall status <- counts :: counts[status] == |Population(db.rows, kind, status)|
    {
      var groups := GroupByStatus(db.rows, kind);
      counts := ScanGroups(db.rows, kind, groups);
    }
  }

  /** Decisions are stored together with their revisions. */
  class DecisionRepository {
    const db: Database
    const store: Store

    constructor (db: Database)
      ensures this.db == db && store.db == db && store.kind == Decision
    {
      this.db := db;
      store := new Store(db, Decision);
    }

    predicate Valid()
      reads db
    {
      store.db == db && store.kind == Decision && db.Valid()
    }

    /** The row query, then the revision query in version order. */
    method Get(id: nat) returns (item: Option<(Row, seq<Revision>)>)
      requires Valid()
      ensures match Find(db.Value(), Key(Decision, id))
              case None => item == None
              case Some(row) => item == Some((row, RevisionsOf(db.Value(), id)))
    {
      var row := store.Get(id);
      if row == None {
        return None;
      }
      item := Some((row.value, RevisionsOf(db.Value(), id)));
    }

    method InsertRevision(revision: Revision) returns (error: Option<Error>)
      requires Valid()
      modifies db
      ensures Valid() && db.lastId == old(db.lastId)
      ensures match AppendRevision(old(db.Value()), revision)
              case Success(next) => db.Value() == next && error == None
              case Failure(e) => db.Value() == old(db.Value()) && error == Some(e)
    {
      var same := set i | 0 <= i < |db.revisions|
        && db.revisions[i].decision == revision.decision && db.revisions[i].version == revision.version;
      if same != {} {
        var i :| i in same;
        assert db.revisions[i] in db.revisions;
        return Some(DuplicateRevision);
      }
      forall r | r in db.revisions ensures !(r.decision == revision.decision && r.version == revision.version) {
        var i :| 0 <= i < |db.revisions| && db.revisions[i] == r;
        assert i !in same;
      }
      db.revisions := db.revisions + [revision];
      error := None;
    }

    /** One transaction; either both rows are stored or none. */
    method CreateWithRevision(item: Row, revision: Revision) returns (result: Result<nat>)
      requires Valid()
      modifies db
      ensures Valid()
      ensures var key := Key(Decision, old(db.NextId(Decision)));
              match Insert(old(db.Value()), key, item)
              case Failure(error) => db.Value() == old(db.Value()) && result == Failure(error)
              case Success(inserted) =>
                match AppendRevision(inserted, revision.(decision := key.id))
                case Success(next) => db.Value() == next && result == Success(key.id)
                case Failure(error) => db.Value() == old(db.Value()) && result == Failure(error)
    {
      var rows, lastId := db.rows, db.lastId;
      result := store.Create(item);
      if result.Success? {
        var error := InsertRevision(revision.(decision := result.value));
        if error.Some? {
          db.rows, db.lastId := rows, lastId;  // rollback
          result := Failure(error.value);
        }
      }
    }

    /** One transaction: compare-and-swap the row, then append its revision. */
    method UpdateWithRevision(id: nat, expected: nat, item: Row, revision: Revision) returns (error: Option<Error>)
      requires Valid()
      modifies db
      ensures Valid() && db.lastId == old(db.lastId)
      ensures match CompareAndSwap(old(db.Value()), Key(Decision, id), expected, item)
              case None => db.Value() == old(db.Value()) && error == Some(VersionConflict)
              case Some(swapped) =>
                match AppendRevision(swapped, revision.(decision := id))
                case Success(next) => db.Value() == next && error == None
                case Failure(e) => db.Value() == old(db.Value()) && error == Some(e)
    {
      var rows := db.rows;
      error := store.Update(id, expected, item);
      if error == None {
        error := InsertRevision(revision.(decision := id));
        if error.Some? {
          db.rows := rows;  // rollback
        }
      }
    }

    method Delete(id: nat) returns (error: Option<Error>)
      requires Valid()
      modifies db
      ensures Valid() && db.lastId == old(db.lastId)
      ensures match SoftDelete(old(db.Value()), Key(Decision, id))
              case Success(next) => db.Value() == next && error == None
              case Failure(e) => db.Value() == old(db.Value()) && error == Some(e)
    {
      error := store.Delete(id);
    }
  }
}
