/** What every statement keeps about the tables, and how one database value may
    follow another.  Nothing here depends on how clients choose versions. */
module Evolution {
  import opened Lifecycle
  import opened Records
  import opened Tables
  import opened Rules

  /** A revision tells the same story as a row. */
  predicate Describes(revision: Revision, row: Row) {
    && revision.status == row.status
    && revision.evidence == row.fields.evidence
    && match revision.snapshot
       case SeedSnapshot(code, status, evidence) =>
         code == row.code && status == row.status && evidence == row.fields.evidence
       case RowSnapshot(_, _, _, _, _) => revision.snapshot == SnapshotOf(row)
  }

  predicate Contiguous(revisions: seq<Revision>) {
    forall i :: 0 <= i < |revisions| ==> revisions[i].version == i + 1
  }

  /** The chain of a decision: versions 1..row.version, the last one telling the
      row's own state. */
  predicate Chain(revisions: seq<Revision>, row: Row) {
    && Contiguous(revisions)
    && |revisions| == row.version > 0
    && Describes(revisions[row.version - 1], row)
  }

  predicate RowInOrder(db: Db, key: Key)
    requires key in db.rows
  {
    && db.rows[key].version > 0
    && (key.kind == Decision ==> Chain(HistoryOf(db.revisions, key.id), db.rows[key]))
  }

  predicate NoOrphans(db: Db) {
    forall r <- db.revisions :: Key(Decision, r.decision) in db.rows
  }

  predicate Good(db: Db) {
    && (forall key {:trigger RowInOrder(db, key)} | key in db.rows :: RowInOrder(db, key))
    && NoOrphans(db)
  }

  /** Rows only move to higher versions; the immutable columns stay; within one
      version only the deletion mark can change, and it is never taken back. */
  predicate Succeeds(earlier: Row, later: Row) {
    && earlier.version <= later.version
    && earlier.code == later.code
    && earlier.preparedBy == later.preparedBy
    && earlier.createdAt == later.createdAt
    && (earlier.version == later.version ==> later == earlier.(deleted := later.deleted))
    && (earlier.deleted ==> later == earlier)
  }

  predicate Follows(db: Db, next: Db, key: Key)
    requires key in db.rows
  {
    && key in next.rows
    && Succeeds(db.rows[key], next.rows[key])
    && HistoryOf(db.revisions, key.id) <= HistoryOf(next.revisions, key.id)
  }

  predicate Evolves(db: Db, next: Db) {
    && (forall key {:trigger Follows(db, next, key)} | key in db.rows :: Follows(db, next, key))
    && db.audits <= next.audits
  }

  lemma EvolvesTransitively(a: Db, b: Db, c: Db)
    requires Evolves(a, b) && Evolves(b, c)
    ensures Evolves(a, c)
  {
    forall key | key in a.rows ensures Follows(a, c, key) {
      assert Follows(a, b, key) && Follows(b, c, key);
    }
  }

  /** Only the audit log may differ. */
  lemma SameTables(db: Db, next: Db)
    requires Good(db) && next.rows == db.rows && next.revisions == db.revisions
    ensures Good(next) && (db.audits <= next.audits ==> Evolves(db, next))
  {
    forall key | key in next.rows ensures RowInOrder(next, key) && Follows(db, next, key) {
      assert RowInOrder(db, key);
    }
  }

  /** A key that was never handed out has no revisions. */
  lemma {:induction false} NoHistory(revisions: seq<Revision>, id: nat)
    requires forall r <- revisions :: r.decision != id
    ensures HistoryOf(revisions, id) == []
  {
    if revisions != [] {
      NoHistory(revisions[..|revisions| - 1], id);
    }
  }

  /** The next version of a decision is free, so the unique (decision, version)
      index never rejects the revision of a row that was just swapped. */
  lemma NextVersionFree(db: Db, id: nat, r: Revision)
    requires Good(db) && Key(Decision, id) in db.rows
    requires r in db.revisions && r.decision == id
    ensures r.version <= db.rows[Key(Decision, id)].version
  {
    HistoryMembers(db.revisions, id);
    assert r in HistoryOf(db.revisions, id);
    assert RowInOrder(db, Key(Decision, id));
  }

  lemma HistoriesAppend(revisions: seq<Revision>, revision: Revision)
    ensures forall id ::
              HistoryOf(revisions + [revision], id)
              == if revision.decision == id then HistoryOf(revisions, id) + [revision] else HistoryOf(revisions, id)
  {
    forall id
      ensures HistoryOf(revisions + [revision], id)
           == if revision.decision == id then HistoryOf(revisions, id) + [revision] else HistoryOf(revisions, id)
    {
      HistoryAppend(revisions, revision, id);
    }
  }

  /** Create: a valid call with an unused code always succeeds, and the new row
      starts its chain. */
  lemma CreateKeeps(db: Db, call: Call, key: Key, now: nat)
    requires Good(db) && call.op.Create? && key.kind == call.kind && key !in db.rows
    ensures CreateRow(db, call, key, now).Failure? <==>
            !ValidFields(call.kind, call.op.code, call.op.fields) || CodeTaken(db, call.kind, call.op.code)
    ensures CreateRow(db, call, key, now).Success? ==>
              var next := CreateRow(db, call, key, now).value;
              && Good(next) && Evolves(db, next)
              && next.rows == db.rows[key := NewRow(call, now)] && next.audits == db.audits
  {
    var item := NewRow(call, now);
    var created := CreateRow(db, call, key, now);
    if call.kind == Decision {
      NoHistory(db.revisions, key.id);
      HistoriesAppend(db.revisions, NewRevision(call, key.id, item, now));
    }
    if created.Success? {
      var next := created.value;
      forall other | other in next.rows
        ensures RowInOrder(next, other) && (other in db.rows ==> Follows(db, next, other))
      {
        if other != key {
          assert RowInOrder(db, other);
        }
      }
    }
  }

  /** Update and Transition: the swap happens exactly when a live row still has the
      expected version, and the revision index never gets in its way. */
  lemma SaveOutcome(db: Db, call: Call, key: Key, current: Row, now: nat)
    requires Good(db) && call.Versioned() && key.kind == call.kind
    ensures SaveRow(db, call, key, current, now)
         == if Find(db, key).Some? && Find(db, key).value.version == call.op.expected
            then Success(Saved(db, call, key, current, now)) else Failure(VersionConflict)
  {
    var item := Patch(call, current, now);
    var swap := CompareAndSwap(db, key, call.op.expected, item);
    if swap.Some? && call.kind == Decision {
      forall r | r in db.revisions && r.decision == key.id ensures r.version != item.version {
        NextVersionFree(db, key.id, r);
      }
    }
  }

  /** The database after a save that won its swap. */
  function Saved(db: Db, call: Call, key: Key, current: Row, now: nat): Db
    requires call.Versioned() && key in db.rows
  {
    var item := Patch(call, current, now);
    db.(rows := db.rows[key := Stored(item, db.rows[key])],
        revisions := if call.kind == Decision then db.revisions + [NewRevision(call, key.id, item, now)]
                     else db.revisions)
  }

  /** A won save raises the version by one and extends the chain by one revision
      that tells the stored row, even though the row was built from a stale read. */
  lemma SaveKeeps(db: Db, call: Call, key: Key, current: Row, now: nat)
    requires Good(db) && call.Versioned() && key.kind == call.kind
    requires Find(db, key).Some? && db.rows[key].version == call.op.expected
    requires current.code == db.rows[key].code && current.preparedBy == db.rows[key].preparedBy
    ensures Good(Saved(db, call, key, current, now)) && Evolves(db, Saved(db, call, key, current, now))
  {
    var item := Patch(call, current, now);
    var next := Saved(db, call, key, current, now);
    assert RowInOrder(db, key);
    if call.kind == Decision {
      HistoriesAppend(db.revisions, NewRevision(call, key.id, item, now));
    }
    forall other | other in next.rows ensures RowInOrder(next, other) && Follows(db, next, other) {
      if other != key {
        assert RowInOrder(db, other);
      }
    }
  }

  lemma DeleteKeeps(db: Db, key: Key)
    requires Good(db) && SoftDelete(db, key).Success?
    ensures Good(SoftDelete(db, key).value) && Evolves(db, SoftDelete(db, key).value)
    ensures SoftDelete(db, key).value.rows == db.rows[key := db.rows[key].(deleted := true)]
  {
    var next := SoftDelete(db, key).value;
    forall other | other in next.rows ensures RowInOrder(next, other) && Follows(db, next, other) {
      assert RowInOrder(db, other);
    }
  }
}
