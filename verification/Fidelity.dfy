/** No lost updates, and the walks the committed statuses trace, in honest runs. */
module Fidelity {
  import opened Lifecycle
  import opened Records
  import opened Rules
  import opened Machine
  import opened Evolution
  import opened Safety
  import opened Commits
  import opened Exclusivity
  import opened Discipline

  predicate AllFaithful(history: seq<Commit>) {
    forall i :: 0 <= i < |history| ==> Faithful(history[i])
  }

  /** An honest save stores the live row with exactly the requested change. */
  lemma SaveIsFaithful(s: State, step: Step)
    requires Safe(s) && WriteLands(s, step) && NotAhead(s.requests[step.rid]) && s.requests[step.rid].call.Versioned()
    ensures var request := s.requests[step.rid];
            && NextDb(s, step).rows[request.key] == Patch(request.call, s.db.rows[request.key], step.now)
            && Check(request.call, s.db.rows[request.key]) == None
  {
    SaveLands(s, step);
    ActsOnLiveRow(s, step.rid);
  }

  lemma StepFaithful(s: State, step: Step)
    requires Safe(s) && WinsHonestly(s, step) && AllFaithful(s.history)
    ensures AllFaithful(Apply(s, step).history)
  {
    if WriteLands(s, step) || InsertLands(s, step) {
      CommittingStep(s, step);
      var request := s.requests[step.rid];
      assert NotAhead(request);
      if request.call.Versioned() {
        SaveLands(s, step);
        SaveIsFaithful(s, step);
      }
      assert Faithful(Commit(step.rid, request.call, TargetKey(s, step), Lookup(s.db, TargetKey(s, step)),
                             NextDb(s, step).rows[TargetKey(s, step)], step.now));
    } else {
      QuietStep(s, step);
    }
  }

  lemma {:induction false} RunFaithful(s: State, steps: seq<Step>)
    requires Safe(s) && HonestWins(s, steps) && AllFaithful(s.history)
    ensures AllFaithful(Run(s, steps).history)
    decreases |steps|
  {
    if steps != [] {
      StepSafe(s, steps[0]);
      StepFaithful(s, steps[0]);
      RunFaithful(Apply(s, steps[0]), steps[1..]);
    }
  }

  /** No lost update: although every write stores a whole row read earlier, each
      committed transition keeps every business field of the row it replaced, each
      committed update keeps its status, and what it replaced is what the previous
      write of that row had stored. */
  lemma NoLostUpdate(origin: Db, steps: seq<Step>, i: nat)
    requires Good(origin) && HonestWins(Boot(origin), steps)
    requires i < |Run(Boot(origin), steps).history|
    ensures var h := Run(Boot(origin), steps).history;
            var c := h[i];
            && c.before == RowAfter(origin, h[..i], c.key)
            && (c.call.op.Transition? ==> c.before.Some? && var was := c.before.value;
                  c.after == was.(status := c.call.op.target, version := was.version + 1, updatedAt := c.now))
            && (c.call.op.Update? ==> c.before.Some? && var was := c.before.value;
                  c.after == was.(fields := c.call.op.fields, version := was.version + 1, updatedAt := c.now))
  {
    BootRecorded(origin);
    RunRecorded(origin, Boot(origin), steps);
    RunFaithful(Boot(origin), steps);
    var h := Run(Boot(origin), steps).history;
    assert Faithful(h[i]) && Counted(h[i]);
    PrefixLinked(origin, h, i + 1);
    assert h[..i + 1][..i] == h[..i];
  }

  function BirthStatus(origin: Db, key: Key): Status {
    if key in origin.rows then origin.rows[key].status else InitialStatus(key.kind)
  }

  /** The statuses a row took, one per version. */
  function StatusPath(origin: Db, history: seq<Commit>, key: Key): seq<Status> {
    if history == [] then if key in origin.rows then [origin.rows[key].status] else []
    else
      var c := history[|history| - 1];
      var earlier := StatusPath(origin, history[..|history| - 1], key);
      if c.key != key || c.call.op.Delete? then earlier else earlier + [c.after.status]
  }

  lemma {:induction false} PathFollowsRow(origin: Db, history: seq<Commit>, key: Key)
    requires Linked(origin, history) && AllCounted(history)
    ensures var path := StatusPath(origin, history, key);
            match RowAfter(origin, history, key)
            case None => path == [] && key !in origin.rows
            case Some(row) =>
              |path| == Writes(history, key) + 1 && path[0] == BirthStatus(origin, key)
                && path[|path| - 1] == row.status
  {
    if history != [] {
      var n := |history| - 1;
      PathFollowsRow(origin, history[..n], key);
      VersionCountsWrites(origin, history[..n], key);
      assert Counted(history[n]);
    }
  }

  lemma {:induction false} PathIsWalk(origin: Db, history: seq<Commit>, key: Key)
    requires Linked(origin, history) && AllCounted(history) && AllFaithful(history)
    ensures Walk(Transitions(key.kind), StatusPath(origin, history, key))
  {
    if history != [] {
      var n := |history| - 1;
      var c := history[n];
      PathIsWalk(origin, history[..n], key);
      if c.key == key && !c.call.op.Delete? {
        PathFollowsRow(origin, history[..n], key);
        assert Counted(c) && Faithful(c);
        WalkExtends(Transitions(key.kind), StatusPath(origin, history[..n], key), c.after.status);
      }
    }
  }

  /** Graph walk: the committed statuses of any row form a walk in its graph from
      its birth status, one step per version, so a row is never further from its
      birth status than its version allows. */
  lemma StatusesWalkTheGraph(origin: Db, steps: seq<Step>, key: Key)
    requires Good(origin) && HonestWins(Boot(origin), steps) && key in Run(Boot(origin), steps).db.rows
    ensures var s := Run(Boot(origin), steps);
            var row := s.db.rows[key];
            var path := StatusPath(origin, s.history, key);
            && row.version >= BirthVersion(origin, key)
            && |path| == row.version - BirthVersion(origin, key) + 1
            && path[0] == BirthStatus(origin, key) && path[|path| - 1] == row.status
            && Walk(Transitions(key.kind), path)
            && Within(Transitions(key.kind), path[0], row.status, row.version - BirthVersion(origin, key))
  {
    BootRecorded(origin);
    RunRecorded(origin, Boot(origin), steps);
    RunFaithful(Boot(origin), steps);
    var s := Run(Boot(origin), steps);
    assert RowAfter(origin, s.history, key) == Lookup(s.db, key);
    PathFollowsRow(origin, s.history, key);
    PathIsWalk(origin, s.history, key);
    VersionCountsWrites(origin, s.history, key);
    WalkStaysWithin(Transitions(key.kind), StatusPath(origin, s.history, key));
  }

  /** Progress costs versions: a row the service created that stands j places along its
      lifecycle has been written at least j / 2 times since. */
  lemma VersionBoundsProgress(origin: Db, steps: seq<Step>, key: Key, j: nat)
    requires Good(origin) && HonestWins(Boot(origin), steps) && key.kind != Decision && key !in origin.rows
    requires var s := Run(Boot(origin), steps);
             key in s.db.rows && j < |Line(key.kind)| && s.db.rows[key].status == Line(key.kind)[j]
    ensures j <= 2 * (Run(Boot(origin), steps).db.rows[key].version - 1)
  {
    StatusesWalkTheGraph(origin, steps, key);
    RowsStartTheLine(key.kind);
    ReachIsBounded(key.kind, 0, j, Run(Boot(origin), steps).db.rows[key].version - 1);
  }

  /** Closed defects, retired bridges and completed rounds have been written at
      least twice since the service created them. */
  lemma EndsTakeTwoMoves(origin: Db, steps: seq<Step>, key: Key)
    requires Good(origin) && HonestWins(Boot(origin), steps)
    requires key in Run(Boot(origin), steps).db.rows && key !in origin.rows
    ensures var row := Run(Boot(origin), steps).db.rows[key];
            (key.kind == Defect && row.status == Closed)
            || (key.kind == Bridge && row.status == Retired)
            || (key.kind == Inspection && row.status == Completed)
            ==> row.version >= 3
  {
    var status := Run(Boot(origin), steps).db.rows[key].status;
    if key.kind != Decision && status in Line(key.kind) {
      var j :| 0 <= j < |Line(key.kind)| && Line(key.kind)[j] == status;
      VersionBoundsProgress(origin, steps, key, j);
    }
  }
}
