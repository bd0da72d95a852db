/** Who stands behind each revision: every revision traces back to one committed
    call, and final decisions have two pairs of eyes on them. */
module Provenance {
  import opened Lifecycle
  import opened Records
  import opened Tables
  import opened Machine
  import opened Evolution
  import opened Safety
  import opened Commits
  import opened Exclusivity
  import opened Discipline
  import opened Decisions
  import Fidelity

  /** The revision is the one this commit wrote: its evidence, snapshot, reason, actor,
      request and time. */
  predicate Traces(r: Revision, c: Commit) {
    && c.key == Key(Decision, r.decision)
    && !c.call.op.Delete?
    && r.version == c.after.version && r.status == c.after.status
    && r.evidence == c.after.fields.evidence
    && r.snapshot == RowSnapshot(c.after.code, c.after.status, c.after.version, c.after.fields, c.after.preparedBy)
    && r.actor == c.call.actor && r.requestID == c.call.requestID && r.createdAt == c.now
    && match c.call.op
       case Create(_, _) => r.reason == DraftCreated
       case Transition(_, _, reason) => r.reason == Given(reason)
       case _ => r.reason == DraftUpdated
  }

  predicate Traced(r: Revision, history: seq<Commit>) {
    exists i :: 0 <= i < |history| && Traces(r, history[i])
  }

  predicate AllTraced(origin: Db, s: State) {
    forall r <- s.db.revisions :: r in origin.revisions || Traced(r, s.history)
  }

  lemma TracedLonger(r: Revision, history: seq<Commit>, c: Commit)
    requires Traced(r, history)
    ensures Traced(r, history + [c])
  {
    var i :| 0 <= i < |history| && Traces(r, history[i]);
    assert (history + [c])[i] == history[i];
  }

  lemma CommitTraced(origin: Db, s: State, rid: nat, key: Key, db: Db, current: Row, now: nat)
    requires AllTraced(origin, s) && rid in s.requests && key in db.rows
    requires var c := Commit(rid, s.requests[rid].call, key, Lookup(s.db, key), db.rows[key], now);
             forall r <- db.revisions :: r in s.db.revisions || Traces(r, c)
    ensures AllTraced(origin, Committed(s, rid, s.requests[rid], key, db, current, now))
  {
    var next := Committed(s, rid, s.requests[rid], key, db, current, now);
    var c := next.history[|s.history|];
    forall r | r in db.revisions ensures r in origin.revisions || Traced(r, next.history) {
      if r in s.db.revisions {
        if r !in origin.revisions {
          TracedLonger(r, s.history, c);
        }
      } else {
        assert Traces(r, next.history[|s.history|]);
      }
    }
  }

  lemma NewRevisionsTraced(s: State, step: Step)
    requires Safe(s) && (WriteLands(s, step) || InsertLands(s, step))
    ensures TargetKey(s, step) in NextDb(s, step).rows
    ensures var key := TargetKey(s, step);
            var call := s.requests[step.rid].call;
            var c := Commit(step.rid, call, key, Lookup(s.db, key), NextDb(s, step).rows[key], step.now);
            forall r <- NextDb(s, step).revisions :: r in s.db.revisions || Traces(r, c)
  {
    if InsertLands(s, step) {
      CreateLands(s, step);
    } else if s.requests[step.rid].call.Versioned() {
      SaveLands(s, step);
    } else {
      DeleteLands(s, step);
    }
  }

  lemma StepTraced(origin: Db, s: State, step: Step)
    requires Safe(s) && AllTraced(origin, s)
    ensures AllTraced(origin, Apply(s, step))
  {
    if WriteLands(s, step) || InsertLands(s, step) {
      CommittingStep(s, step);
      NewRevisionsTraced(s, step);
      CommitTraced(origin, s, step.rid, TargetKey(s, step), NextDb(s, step), BasisRow(s, step), step.now);
    } else {
      QuietStep(s, step);
    }
  }

  lemma {:induction false} RunTraced(origin: Db, s: State, steps: seq<Step>)
    requires Safe(s) && AllTraced(origin, s)
    ensures AllTraced(origin, Run(s, steps))
    decreases |steps|
  {
    if steps != [] {
      StepSafe(s, steps[0]);
      StepTraced(origin, s, steps[0]);
      RunTraced(origin, Apply(s, steps[0]), steps[1..]);
    }
  }

  /** The code and the preparer a write stored are the ones the row still has. */
  lemma {:induction false} ColumnsNeverChange(origin: Db, history: seq<Commit>, i: nat)
    requires Linked(origin, history) && AllCounted(history) && i < |history|
    ensures var row := RowAfter(origin, history, history[i].key);
            row.Some? && row.value.code == history[i].after.code && row.value.preparedBy == history[i].after.preparedBy
  {
    var n := |history| - 1;
    if i < n {
      assert Counted(history[n]);
      ColumnsNeverChange(origin, history[..n], i);
      assert history[..n][i] == history[i];
    }
  }

  /** The call behind a revision was entitled to write it. */
  predicate Entitled(r: Revision, c: Commit, preparedBy: string) {
    && Traces(r, c)
    && (c.call.op.Transition? <==> r.status != Draft)
    && (r.status == Draft ==> r.actor == preparedBy || c.call.role == Admin)
    && (r.status != Draft ==> r.actor != preparedBy && c.call.role in {Reviewer, Admin})
  }

  /** Every revision of a decision the service created was written by a committed
      call entitled to it: drafts by the preparer or an admin, a final one by another
      reviewer or admin -- although each guard ran on a row that may have been stale. */
  lemma RevisionsAreEntitled(origin: Db, steps: seq<Step>, id: nat, r: Revision)
    requires Good(origin) && Key(Decision, id) !in origin.rows
    requires var s := Run(Boot(origin), steps);
             Key(Decision, id) in s.db.rows && r in HistoryOf(s.db.revisions, id)
    ensures var s := Run(Boot(origin), steps);
            IsEntitled(r, s.history, s.db.rows[Key(Decision, id)].preparedBy)
  {
    BootRecorded(origin);
    RunRecorded(origin, Boot(origin), steps);
    RunTraced(origin, Boot(origin), steps);
    var s := Run(Boot(origin), steps);
    HistoryMembers(s.db.revisions, id);
    assert r !in origin.revisions;
    var i :| 0 <= i < |s.history| && Traces(r, s.history[i]);
    assert Counted(s.history[i]) && Authorised(s.history[i]);
    ColumnsNeverChange(origin, s.history, i);
    assert RowAfter(origin, s.history, s.history[i].key) == Lookup(s.db, s.history[i].key);
    assert Entitled(r, s.history[i], s.db.rows[Key(Decision, id)].preparedBy);
  }

  /** A decision the service created starts in draft, so a final one was written
      at least twice. */
  lemma FinalIsWritten(origin: Db, steps: seq<Step>, key: Key)
    requires Good(origin) && key !in origin.rows
    requires HonestWins(Boot(origin), steps) && Final(Run(Boot(origin), steps).db, key)
    ensures Run(Boot(origin), steps).db.rows[key].version >= 2
  {
    Fidelity.StatusesWalkTheGraph(origin, steps, key);
  }

  lemma OneFinalRevision(db: Db, id: nat)
    requires Good(db) && DraftChains(db) && Final(db, Key(Decision, id))
    ensures var row := db.rows[Key(Decision, id)];
            var chain := HistoryOf(db.revisions, id);
            && |chain| == row.version > 0 && chain[row.version - 1].status == row.status
            && forall k :: 0 <= k < |chain| ==> (chain[k].status != Draft <==> k == |chain| - 1)
  {
    var chain := HistoryOf(db.revisions, id);
    assert RowInOrder(db, Key(Decision, id)) && DraftChain(db, Key(Decision, id));
  }

  /** Exactly one non-draft revision, the last, independent of the preparer; and
      every revision written by a call entitled to it. */
  ghost predicate Separated(row: Row, chain: seq<Revision>, history: seq<Commit>) {
    && |chain| == row.version >= 2
    && (forall k :: 0 <= k < |chain| ==> (chain[k].status != Draft <==> k == |chain| - 1))
    && chain[|chain| - 1].status == row.status
    && chain[|chain| - 1].actor != row.preparedBy
    && (forall r <- chain :: IsEntitled(r, history, row.preparedBy))
  }

  ghost predicate IsEntitled(r: Revision, history: seq<Commit>, preparedBy: string) {
    exists i :: 0 <= i < |history| && Entitled(r, history[i], preparedBy)
  }

  lemma ChainIsSeparated(db: Db, history: seq<Commit>, id: nat)
    requires Good(db) && DraftChains(db) && Final(db, Key(Decision, id)) && db.rows[Key(Decision, id)].version >= 2
    requires forall r <- HistoryOf(db.revisions, id) :: IsEntitled(r, history, db.rows[Key(Decision, id)].preparedBy)
    ensures Separated(db.rows[Key(Decision, id)], HistoryOf(db.revisions, id), history)
  {
    OneFinalRevision(db, id);
    var chain := HistoryOf(db.revisions, id);
    assert IsEntitled(chain[|chain| - 1], history, db.rows[Key(Decision, id)].preparedBy);
  }

  /** Separation of duty: a final decision the service created has exactly one
      non-draft revision, the last, written by someone other than its preparer who
      held reviewer or admin; all revisions before it are the preparer's or an admin's. */
  lemma SeparationHolds(origin: Db, steps: seq<Step>, id: nat)
    requires Good(origin) && DraftChains(origin) && Key(Decision, id) !in origin.rows
    requires HonestWins(Boot(origin), steps) && Final(Run(Boot(origin), steps).db, Key(Decision, id))
    ensures var s := Run(Boot(origin), steps);
            Separated(s.db.rows[Key(Decision, id)], HistoryOf(s.db.revisions, id), s.history)
  {
    var s := Run(Boot(origin), steps);
    RunSafe(Boot(origin), steps);
    RunDraftChains(Boot(origin), steps);
    FinalIsWritten(origin, steps, Key(Decision, id));
    forall r | r in HistoryOf(s.db.revisions, id)
      ensures IsEntitled(r, s.history, s.db.rows[Key(Decision, id)].preparedBy)
    {
      RevisionsAreEntitled(origin, steps, id, r);
    }
    ChainIsSeparated(s.db, s.history, id);
  }
}
