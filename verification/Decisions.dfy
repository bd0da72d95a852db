/** Priority decisions: which writes may touch them and the shape of the revision
    chain. */
module Decisions {
  import opened Lifecycle
  import opened Records
  import opened Tables
  import opened Rules
  import opened Machine
  import opened Evolution
  import opened Safety
  import opened Discipline

  predicate Final(db: Db, key: Key) {
    key.kind == Decision && key in db.rows && db.rows[key].status != Draft
  }

  /** An honest save that commits to a decision found it in draft. */
  lemma OnlyDraftsAreSaved(s: State, step: Step)
    requires Safe(s) && WriteLands(s, step) && s.requests[step.rid].call.Versioned()
    requires NotAhead(s.requests[step.rid]) && s.requests[step.rid].call.kind == Decision
    ensures s.requests[step.rid].key in s.db.rows && s.db.rows[s.requests[step.rid].key].status == Draft
  {
    var request := s.requests[step.rid];
    SaveLands(s, step);
    ActsOnLiveRow(s, step.rid);
    if request.call.op.Transition? {
      DecisionMoves(request.phase.current.status, request.call.op.target);
    }
  }

  /** All revisions but the last are drafts. */
  predicate DraftsThenOne(revisions: seq<Revision>) {
    forall i :: 0 <= i < |revisions| - 1 ==> revisions[i].status == Draft
  }

  predicate DraftChain(db: Db, key: Key) {
    key.kind == Decision ==> DraftsThenOne(HistoryOf(db.revisions, key.id))
  }

  predicate DraftChains(db: Db) {
    forall key {:trigger DraftChain(db, key)} | key in db.rows :: DraftChain(db, key)
  }

  lemma SaveKeepsDraftChains(db: Db, call: Call, key: Key, current: Row, now: nat)
    requires Good(db) && DraftChains(db) && call.Versioned() && key.kind == call.kind && key in db.rows
    requires call.kind == Decision ==> db.rows[key].status == Draft
    ensures DraftChains(Saved(db, call, key, current, now))
  {
    var next := Saved(db, call, key, current, now);
    var revision := NewRevision(call, key.id, Patch(call, current, now), now);
    HistoriesAppend(db.revisions, revision);
    assert RowInOrder(db, key);
    forall other | other in next.rows ensures DraftChain(next, other) {
      assert DraftChain(db, other);
    }
  }

  lemma InsertKeepsDraftChains(db: Db, call: Call, key: Key, now: nat)
    requires Good(db) && DraftChains(db) && call.op.Create? && key.kind == call.kind && key !in db.rows
    requires CreateRow(db, call, key, now).Success?
    ensures DraftChains(CreateRow(db, call, key, now).value)
  {
    CreateKeeps(db, call, key, now);
    HistoriesAppend(db.revisions, NewRevision(call, key.id, NewRow(call, now), now));
    if call.kind == Decision {
      NoHistory(db.revisions, key.id);
    }
    var next := CreateRow(db, call, key, now).value;
    forall other | other in next.rows ensures DraftChain(next, other) {
      if other != key {
        assert DraftChain(db, other);
      }
    }
  }

  lemma SameDraftChains(db: Db, next: Db)
    requires DraftChains(db) && next.rows.Keys == db.rows.Keys && next.revisions == db.revisions
    ensures DraftChains(next)
  {
    forall key | key in next.rows ensures DraftChain(next, key) {
      assert DraftChain(db, key);
    }
  }

  lemma StepDraftChains(s: State, step: Step)
    requires Safe(s) && WinsHonestly(s, step) && DraftChains(s.db)
    ensures DraftChains(Apply(s, step).db)
  {
    if WriteLands(s, step) || InsertLands(s, step) {
      CommittingStep(s, step);
      CommitDraftChains(s, step);
    } else {
      QuietStep(s, step);
      SameDraftChains(s.db, Apply(s, step).db);
    }
  }

  lemma CommitDraftChains(s: State, step: Step)
    requires Safe(s) && WinsHonestly(s, step) && DraftChains(s.db) && (WriteLands(s, step) || InsertLands(s, step))
    ensures DraftChains(NextDb(s, step))
  {
    var request := s.requests[step.rid];
    if InsertLands(s, step) {
      CreateLands(s, step);
      InsertKeepsDraftChains(s.db, request.call, Key(request.call.kind, step.newId), step.now);
    } else if request.call.Versioned() {
      SaveLands(s, step);
      if request.call.kind == Decision {
        OnlyDraftsAreSaved(s, step);
      }
      SaveKeepsDraftChains(s.db, request.call, request.key, request.phase.current, step.now);
    } else {
      DeleteLands(s, step);
      SameDraftChains(s.db, NextDb(s, step));
    }
  }

  lemma {:induction false} RunDraftChains(s: State, steps: seq<Step>)
    requires Safe(s) && HonestWins(s, steps) && DraftChains(s.db)
    ensures DraftChains(Run(s, steps).db)
    decreases |steps|
  {
    if steps != [] {
      StepSafe(s, steps[0]);
      StepDraftChains(s, steps[0]);
      RunDraftChains(Apply(s, steps[0]), steps[1..]);
    }
  }

  /** The revision chain: in every interleaving a decision's revisions carry exactly
      the versions 1..version and end in the row's own state; in an honest run they
      are drafts followed by at most one final revision. */
  lemma RevisionChainHolds(origin: Db, steps: seq<Step>, id: nat)
    requires Good(origin) && Key(Decision, id) in Run(Boot(origin), steps).db.rows
    ensures var s := Run(Boot(origin), steps);
            Chain(HistoryOf(s.db.revisions, id), s.db.rows[Key(Decision, id)])
    ensures DraftChains(origin) && HonestWins(Boot(origin), steps) ==>
              DraftsThenOne(HistoryOf(Run(Boot(origin), steps).db.revisions, id))
  {
    RunSafe(Boot(origin), steps);
    assert RowInOrder(Run(Boot(origin), steps).db, Key(Decision, id));
    if DraftChains(origin) && HonestWins(Boot(origin), steps) {
      RunDraftChains(Boot(origin), steps);
      assert DraftChain(Run(Boot(origin), steps).db, Key(Decision, id));
    }
  }
}
