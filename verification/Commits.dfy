/** The commit order as a log: how consecutive writes of one row connect, and what
    they add up to. */
module Commits {
  import opened Lifecycle
  import opened Records
  import opened Rules
  import opened Machine
  import opened Safety

  function Lookup(db: Db, key: Key): Option<Row> {
    if key in db.rows then Some(db.rows[key]) else None
  }

  /** The row a key holds after a prefix of the commit order. */
  function RowAfter(origin: Db, history: seq<Commit>, key: Key): Option<Row> {
    if history == [] then Lookup(origin, key)
    else
      var last := history[|history| - 1];
      if last.key == key then Some(last.after) else RowAfter(origin, history[..|history| - 1], key)
  }

  /** Each write starts from the row the previous write of its key left. */
  predicate Linked(origin: Db, history: seq<Commit>) {
    history == [] ||
    var n := |history| - 1;
    Linked(origin, history[..n]) && history[n].before == RowAfter(origin, history[..n], history[n].key)
  }

  /** What any committed write does to the stored row, however stale its read. */
  predicate Counted(c: Commit) {
    && c.key.kind == c.call.kind
    && (!c.call.op.Create? ==> c.key == KeyOf(c.call))
    && match c.call.op
       case Create(code, fields) =>
         && c.before == None
         && c.after == Row(code, InitialStatus(c.key.kind), 1, fields,
                           if c.key.kind == Decision then c.call.actor else "", c.now, c.now, false)
       case Delete => c.before.Some? && !c.before.value.deleted && c.after == c.before.value.(deleted := true)
       case Fetch => false
       case _ =>
         && c.before.Some? && !c.before.value.deleted && !c.after.deleted
         && c.before.value.version == c.call.op.expected
         && c.after.version == c.call.op.expected + 1
         && c.after.code == c.before.value.code
         && c.after.preparedBy == c.before.value.preparedBy
         && c.after.createdAt == c.before.value.createdAt
         && (c.call.op.Update? ==> c.after.fields == c.call.op.fields)
         && (c.call.op.Transition? ==> c.after.status == c.call.op.target)
  }

  /** Who may write a decision, judged on the decision as stored. */
  predicate Authorised(c: Commit) {
    c.key.kind == Decision ==>
      match c.call.op
      case Create(_, _) => c.after.preparedBy == c.call.actor && c.after.status == Draft
      case Update(_, _) => (c.call.actor == c.after.preparedBy || c.call.role == Admin) && c.after.status == Draft
      case Transition(_, _, _) =>
        c.call.actor != c.after.preparedBy && c.call.role in {Reviewer, Admin}
          && c.after.status in {Observe, Restrict, Urgent}
      case _ => true
  }

  /** The stored row is the replaced row with exactly the requested change. */
  predicate Faithful(c: Commit) {
    c.call.Versioned() ==>
      && c.before.Some?
      && c.after == Patch(c.call, c.before.value, c.now)
      && Check(c.call, c.before.value) == None
  }

  /** The log agrees with the tables and with the requests that wrote it. */
  ghost predicate Recorded(origin: Db, s: State) {
    && Linked(origin, s.history)
    && (forall key :: RowAfter(origin, s.history, key) == Lookup(s.db, key))
    && (forall i :: 0 <= i < |s.history| ==> Counted(s.history[i]) && Authorised(s.history[i]))
    && (forall i :: 0 <= i < |s.history| ==> WrittenBy(s, i))
    && (forall rid {:trigger Placed(s, rid)} | rid in s.requests :: Placed(s, rid))
  }

  predicate WrittenBy(s: State, i: nat)
    requires i < |s.history|
  {
    var c := s.history[i];
    && c.rid in s.requests
    && s.requests[c.rid].commit == Some(i)
    && s.requests[c.rid].call == c.call
    && s.requests[c.rid].key == c.key
  }

  /** Only a request past its write has a place in the commit order. */
  predicate Placed(s: State, rid: nat)
    requires rid in s.requests
  {
    var request := s.requests[rid];
    && (request.commit.Some? ==> request.commit.value < |s.history| && s.history[request.commit.value].rid == rid)
    && (request.phase.Reading? || request.phase.Preloading? || request.phase.Inserting? || request.phase.Writing? ==>
          request.commit == None)
    && (request.phase.Auditing? ==> request.commit.Some?)
    && (request.fate == Pending <==> request.phase.Auditing?)
    && (request.fate == Unwritten <==> request.commit == None)
  }

  lemma RowAfterAppend(origin: Db, history: seq<Commit>, c: Commit)
    ensures forall key ::
              RowAfter(origin, history + [c], key)
              == if c.key == key then Some(c.after) else RowAfter(origin, history, key)
    ensures Linked(origin, history + [c]) <==> Linked(origin, history) && c.before == RowAfter(origin, history, c.key)
  {
    assert (history + [c])[..|history|] == history;
  }

  /** A step that commits nothing leaves the log as it was. */
  lemma NothingCommitted(origin: Db, s: State, rid: nat, request: Request, db: Db)
    requires Recorded(origin, s) && db.rows == s.db.rows
    requires rid in s.requests ==> request.commit == s.requests[rid].commit && request.call == s.requests[rid].call
    requires rid in s.requests && request.commit.Some? ==> request.key == s.requests[rid].key
    requires rid !in s.requests ==> request.commit == None
    requires Placed(s.(requests := s.requests[rid := request]), rid)
    ensures Recorded(origin, State(db, s.requests[rid := request], s.history))
  {
    var next := State(db, s.requests[rid := request], s.history);
    forall i | 0 <= i < |s.history| ensures WrittenBy(next, i) {
      assert WrittenBy(s, i);
    }
    forall other | other in next.requests ensures Placed(next, other) {
      if other != rid { assert Placed(s, other); }
    }
    assert forall key :: Lookup(db, key) == Lookup(s.db, key);
  }

  /** The rows after the longer log. */
  lemma CommitLinks(origin: Db, s: State, key: Key, db: Db, c: Commit)
    requires Linked(origin, s.history) && forall k :: RowAfter(origin, s.history, k) == Lookup(s.db, k)
    requires key in db.rows && db.rows == s.db.rows[key := db.rows[key]]
    requires c.key == key && c.before == Lookup(s.db, key) && c.after == db.rows[key]
    ensures Linked(origin, s.history + [c]) && forall k :: RowAfter(origin, s.history + [c], k) == Lookup(db, k)
  {
    RowAfterAppend(origin, s.history, c);
    forall k ensures RowAfter(origin, s.history + [c], k) == Lookup(db, k) {
      assert RowAfter(origin, s.history, k) == Lookup(s.db, k);
    }
  }

  /** The places in the longer log. */
  lemma CommitPlaced(s: State, rid: nat, key: Key, db: Db, current: Row, now: nat)
    requires rid in s.requests && s.requests[rid].commit == None && key in db.rows
    requires forall i :: 0 <= i < |s.history| ==> WrittenBy(s, i)
    requires forall other {:trigger Placed(s, other)} | other in s.requests :: Placed(s, other)
    ensures var next := Committed(s, rid, s.requests[rid], key, db, current, now);
            && (forall i :: 0 <= i < |next.history| ==> WrittenBy(next, i))
            && (forall other {:trigger Placed(next, other)} | other in next.requests :: Placed(next, other))
  {
    var next := Committed(s, rid, s.requests[rid], key, db, current, now);
    forall i | 0 <= i < |next.history| ensures WrittenBy(next, i) {
      if i < |s.history| {
        assert next.history[i] == s.history[i];
        assert WrittenBy(s, i);
      }
    }
    forall other | other in next.requests ensures Placed(next, other) {
      if other != rid {
        assert Placed(s, other);
        assert s.requests[other].commit.Some? ==>
          next.history[s.requests[other].commit.value] == s.history[s.requests[other].commit.value];
      }
    }
  }

  lemma CommitRecorded(origin: Db, s: State, rid: nat, key: Key, db: Db, current: Row, now: nat)
    requires Recorded(origin, s) && rid in s.requests && s.requests[rid].commit == None
    requires key in db.rows && db.rows == s.db.rows[key := db.rows[key]]
    requires var next := Committed(s, rid, s.requests[rid], key, db, current, now);
             Counted(next.history[|s.history|]) && Authorised(next.history[|s.history|])
    ensures Recorded(origin, Committed(s, rid, s.requests[rid], key, db, current, now))
  {
    var next := Committed(s, rid, s.requests[rid], key, db, current, now);
    CommitLinks(origin, s, key, db, next.history[|s.history|]);
    CommitPlaced(s, rid, key, db, current, now);
    forall i | 0 <= i < |next.history| ensures Counted(next.history[i]) && Authorised(next.history[i]) {
      if i < |s.history| {
        assert next.history[i] == s.history[i];
      }
    }
  }

  /** The record a commit leaves, judged on what the request had read. */
  lemma CommitCounted(s: State, step: Step)
    requires Safe(s) && (WriteLands(s, step) || InsertLands(s, step))
    ensures TargetKey(s, step) in NextDb(s, step).rows
    ensures var key := TargetKey(s, step);
            var call := s.requests[step.rid].call;
            var c := Commit(step.rid, call, key, Lookup(s.db, key), NextDb(s, step).rows[key], step.now);
            && Counted(c) && Authorised(c)
            && NextDb(s, step).rows == s.db.rows[key := NextDb(s, step).rows[key]]
  {
    var call := s.requests[step.rid].call;
    if InsertLands(s, step) {
      CreateLands(s, step);
    } else if call.Versioned() {
      SaveLands(s, step);
      if call.kind == Decision && call.op.Transition? {
        DecisionMoves(s.requests[step.rid].phase.current.status, call.op.target);
      }
    } else {
      DeleteLands(s, step);
    }
  }

  lemma StepRecorded(origin: Db, s: State, step: Step)
    requires Safe(s) && Recorded(origin, s)
    ensures Recorded(origin, Apply(s, step))
  {
    if step.rid in s.requests {
      assert Placed(s, step.rid);
    }
    if WriteLands(s, step) || InsertLands(s, step) {
      CommittingStep(s, step);
      CommitCounted(s, step);
      CommitRecorded(origin, s, step.rid, TargetKey(s, step), NextDb(s, step), BasisRow(s, step), step.now);
    } else {
      QuietStep(s, step);
      QuietRequest(s, step);
      var next := Apply(s, step);
      if step.rid in next.requests {
        NothingCommitted(origin, s, step.rid, next.requests[step.rid], next.db);
      }
    }
  }

  /** A step that commits nothing keeps its request's place in the commit order. */
  lemma QuietRequest(s: State, step: Step)
    requires !WriteLands(s, step) && !InsertLands(s, step)
    requires step.rid in s.requests ==> Placed(s, step.rid)
    ensures var next := Apply(s, step);
            if step.rid in next.requests then
              && next == State(next.db, s.requests[step.rid := next.requests[step.rid]], s.history)
              && Placed(s.(requests := s.requests[step.rid := next.requests[step.rid]]), step.rid)
              && (if step.rid in s.requests then
                    && next.requests[step.rid].commit == s.requests[step.rid].commit
                    && next.requests[step.rid].call == s.requests[step.rid].call
                    && next.requests[step.rid].key == s.requests[step.rid].key
                  else next.requests[step.rid].commit == None)
            else next == s
  {
    assert step.rid in s.requests ==> s.requests[step.rid := s.requests[step.rid]] == s.requests;
  }

  lemma {:induction false} RunRecorded(origin: Db, s: State, steps: seq<Step>)
    requires Safe(s) && Recorded(origin, s)
    ensures Safe(Run(s, steps)) && Recorded(origin, Run(s, steps))
    decreases |steps|
  {
    if steps != [] {
      StepSafe(s, steps[0]);
      StepRecorded(origin, s, steps[0]);
      RunRecorded(origin, Apply(s, steps[0]), steps[1..]);
    }
  }
}
