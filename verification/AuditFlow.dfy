/** The audit log is appended after the commits it reports, possibly out of their
    order.  Read as flows between statuses it still determines every current status. */
module AuditFlow {
  import opened Lifecycle
  import opened Numbers
  import opened Records
  import opened Rules
  import opened Machine
  import opened Evolution
  import opened Safety
  import opened Commits
  import opened Exclusivity
  import opened Discipline
  import opened Fidelity

  predicate Moves(action: Action) {
    action == Updated || action == Transitioned
  }

  function EntryDelta(e: AuditEntry, key: Key, status: Status): int {
    if e.key == key && Moves(e.action) then Indicator(e.after == At(status)) - Indicator(e.before == At(status)) else 0
  }

  /** Update and transition entries of a key entering a status, minus those leaving it. */
  function Flow(audits: seq<AuditEntry>, key: Key, status: Status): int {
    if audits == [] then 0
    else Flow(audits[..|audits| - 1], key, status) + EntryDelta(audits[|audits| - 1], key, status)
  }

  function CommitDelta(c: Commit, key: Key, status: Status): int {
    if c.key == key && c.call.Versioned() && c.before.Some?
    then Indicator(c.after.status == status) - Indicator(c.before.value.status == status) else 0
  }

  function CommitFlow(history: seq<Commit>, key: Key, status: Status): int {
    if history == [] then 0
    else CommitFlow(history[..|history| - 1], key, status) + CommitDelta(history[|history| - 1], key, status)
  }

  /** The part of the commit flow whose audit entries have been appended. */
  function LoggedFlow(history: seq<Commit>, requests: map<nat, Request>, key: Key, status: Status): int {
    if history == [] then 0
    else
      var c := history[|history| - 1];
      LoggedFlow(history[..|history| - 1], requests, key, status)
      + if c.rid in requests && requests[c.rid].fate == Logged then CommitDelta(c, key, status) else 0
  }

  /** The part whose audit entries are pending or were lost. */
  function OwedFlow(history: seq<Commit>, requests: map<nat, Request>, key: Key, status: Status): int {
    if history == [] then 0
    else
      var c := history[|history| - 1];
      OwedFlow(history[..|history| - 1], requests, key, status)
      + if c.rid in requests && requests[c.rid].fate == Logged then 0 else CommitDelta(c, key, status)
  }

  lemma {:induction false} LoggedOrOwed(history: seq<Commit>, requests: map<nat, Request>, key: Key, status: Status)
    ensures LoggedFlow(history, requests, key, status) + OwedFlow(history, requests, key, status)
         == CommitFlow(history, key, status)
  {
    if history != [] {
      LoggedOrOwed(history[..|history| - 1], requests, key, status);
    }
  }

  /** What the commits of a row add up to telescopes to its first and last status. */
  lemma {:induction false} CommitFlowTelescopes(origin: Db, history: seq<Commit>, key: Key, status: Status)
    requires Linked(origin, history) && AllCounted(history)
    ensures match RowAfter(origin, history, key)
            case Some(row) =>
              CommitFlow(history, key, status)
                == Indicator(row.status == status) - Indicator(BirthStatus(origin, key) == status)
            case None => CommitFlow(history, key, status) == 0 && key !in origin.rows
  {
    if history != [] {
      var n := |history| - 1;
      assert Counted(history[n]);
      CommitFlowTelescopes(origin, history[..n], key, status);
    }
  }

  /** The entry reports the commit it belongs to. */
  predicate Reports(entry: AuditEntry, c: Commit) {
    && entry.key == c.key
    && entry.actor == (if c.call.actor == "" then "system" else c.call.actor)
    && entry.requestID == (if c.call.requestID == "" then "untracked" else c.call.requestID)
    && match c.call.op
       case Create(_, _) =>
         && entry.action == Created && entry.detail == RowCreated
         && entry.before == Blank && entry.after == At(c.after.status)
       case Update(_, _) =>
         && entry.action == Updated && entry.detail == FieldsUpdated
         && c.before.Some? && entry.before == At(c.before.value.status) && entry.after == At(c.after.status)
       case Transition(_, _, reason) =>
         && entry.action == Transitioned && entry.detail == Given(reason)
         && c.before.Some? && entry.before == At(c.before.value.status) && entry.after == At(c.after.status)
       case Delete =>
         && entry.action == Removed && entry.detail == SoftDeleted && entry.after == Tombstone
       case Fetch => false
  }

  predicate PendingReports(s: State) {
    forall rid <- s.requests :: s.requests[rid].phase.Auditing? ==>
      var commit := s.requests[rid].commit;
      commit.Some? && commit.value < |s.history| && Reports(s.requests[rid].phase.entry, s.history[commit.value])
  }

  /** What the run has added to the log weighs what the logged commits weigh. */
  predicate Weighs(origin: Db, audits: seq<AuditEntry>, history: seq<Commit>, requests: map<nat, Request>, key: Key,
                   status: Status) {
    Flow(audits, key, status) == Flow(origin.audits, key, status) + LoggedFlow(history, requests, key, status)
  }

  ghost predicate Balanced(origin: Db, s: State) {
    && PendingReports(s)
    && forall key, status :: Weighs(origin, s.db.audits, s.history, s.requests, key, status)
  }

  lemma {:induction false} LoggedFlowKept(history: seq<Commit>, requests: map<nat, Request>, other: map<nat, Request>,
                                          key: Key, status: Status)
    requires forall c <- history ::
               (c.rid in requests && requests[c.rid].fate == Logged)
               <==> (c.rid in other && other[c.rid].fate == Logged)
    ensures LoggedFlow(history, requests, key, status) == LoggedFlow(history, other, key, status)
  {
    if history != [] {
      LoggedFlowKept(history[..|history| - 1], requests, other, key, status);
    }
  }

  /** Logging the entry of one commit adds that commit's delta, wherever it stands. */
  lemma {:induction false} LoggedFlowGrows(history: seq<Commit>, requests: map<nat, Request>, rid: nat,
                                           logged: Request, i: nat, key: Key, status: Status)
    requires i < |history| && history[i].rid == rid && rid in requests
    requires requests[rid].fate != Logged && logged.fate == Logged
    requires forall j :: 0 <= j < |history| && history[j].rid == rid ==> j == i
    ensures LoggedFlow(history, requests[rid := logged], key, status)
         == LoggedFlow(history, requests, key, status) + CommitDelta(history[i], key, status)
  {
    var n := |history| - 1;
    if i == n {
      LoggedFlowKept(history[..n], requests, requests[rid := logged], key, status);
    } else {
      LoggedFlowGrows(history[..n], requests, rid, logged, i, key, status);
    }
  }

  lemma FlowAppend(audits: seq<AuditEntry>, e: AuditEntry, key: Key, status: Status)
    ensures Flow(audits + [e], key, status) == Flow(audits, key, status) + EntryDelta(e, key, status)
  {
    assert (audits + [e])[..|audits|] == audits;
  }

  /** A step that neither commits nor logs leaves both sides as they were. */
  lemma QuietBalanced(origin: Db, s: State, rid: nat, request: Request, db: Db)
    requires Balanced(origin, s) && db.audits == s.db.audits && !request.phase.Auditing?
    requires rid in s.requests ==> (request.fate == Logged <==> s.requests[rid].fate == Logged)
    requires rid !in s.requests ==> request.fate != Logged
    ensures Balanced(origin, State(db, s.requests[rid := request], s.history))
  {
    var next := State(db, s.requests[rid := request], s.history);
    forall key, status ensures Weighs(origin, db.audits, s.history, next.requests, key, status) {
      assert Weighs(origin, s.db.audits, s.history, s.requests, key, status);
      LoggedFlowKept(s.history, s.requests, next.requests, key, status);
    }
  }

  lemma AuditBalanced(origin: Db, s: State, rid: nat, now: nat, fails: bool)
    requires Recorded(origin, s) && Balanced(origin, s) && rid in s.requests && s.requests[rid].phase.Auditing?
    ensures var phase := s.requests[rid].phase;
            Balanced(origin, AuditStep(s, rid, phase.entry, phase.reply, now, fails))
  {
    var phase := s.requests[rid].phase;
    var next := AuditStep(s, rid, phase.entry, phase.reply, now, fails);
    assert Placed(s, rid);
    var request := next.requests[rid];
    if fails {
      QuietBalanced(origin, s, rid, request, s.db);
    } else {
      var i := s.requests[rid].commit.value;
      var entry := phase.entry.(createdAt := now);
      forall j | 0 <= j < |s.history| && s.history[j].rid == rid ensures j == i {
        assert WrittenBy(s, j);
      }
      forall key, status ensures Weighs(origin, next.db.audits, s.history, next.requests, key, status) {
        EntryBalances(origin, s, rid, request, i, entry, key, status);
      }
    }
  }

  /** The appended entry and the newly logged commit weigh the same. */
  lemma EntryBalances(origin: Db, s: State, rid: nat, logged: Request, i: nat, entry: AuditEntry, key: Key,
                      status: Status)
    requires Weighs(origin, s.db.audits, s.history, s.requests, key, status)
    requires i < |s.history| && s.history[i].rid == rid && rid in s.requests
    requires s.requests[rid].fate != Logged && logged.fate == Logged
    requires forall j :: 0 <= j < |s.history| && s.history[j].rid == rid ==> j == i
    requires Reports(entry, s.history[i])
    ensures Weighs(origin, s.db.audits + [entry], s.history, s.requests[rid := logged], key, status)
  {
    FlowAppend(s.db.audits, entry, key, status);
    LoggedFlowGrows(s.history, s.requests, rid, logged, i, key, status);
  }

  lemma CommitBalanced(origin: Db, s: State, rid: nat, key: Key, db: Db, current: Row, now: nat)
    requires Recorded(origin, s) && Balanced(origin, s) && rid in s.requests && s.requests[rid].commit == None
    requires key in db.rows && db.audits == s.db.audits
    requires Reports(EntryFor(s.requests[rid].call, key, current),
                     Commit(rid, s.requests[rid].call, key, Lookup(s.db, key), db.rows[key], now))
    ensures Balanced(origin, Committed(s, rid, s.requests[rid], key, db, current, now))
  {
    var next := Committed(s, rid, s.requests[rid], key, db, current, now);
    assert Placed(s, rid);
    forall c | c in s.history ensures c.rid != rid {
      var j :| 0 <= j < |s.history| && s.history[j] == c;
      assert WrittenBy(s, j);
    }
    forall k, status ensures Weighs(origin, db.audits, next.history, next.requests, k, status) {
      assert Weighs(origin, s.db.audits, s.history, s.requests, k, status);
      LoggedFlowKept(s.history, s.requests, next.requests, k, status);
      assert next.history[..|s.history|] == s.history;
    }
    forall other | other in next.requests && next.requests[other].phase.Auditing?
      ensures var commit := next.requests[other].commit;
              commit.Some? && commit.value < |next.history|
                && Reports(next.requests[other].phase.entry, next.history[commit.value])
    {
      if other != rid {
        assert next.history[next.requests[other].commit.value] == s.history[s.requests[other].commit.value];
      }
    }
  }

  /** The entry an honest commit makes due reports that commit. */
  lemma CommitReports(s: State, step: Step)
    requires Safe(s) && WinsHonestly(s, step) && (WriteLands(s, step) || InsertLands(s, step))
    ensures TargetKey(s, step) in NextDb(s, step).rows && NextDb(s, step).audits == s.db.audits
    ensures var key := TargetKey(s, step);
            var call := s.requests[step.rid].call;
            Reports(EntryFor(call, key, BasisRow(s, step)),
                    Commit(step.rid, call, key, Lookup(s.db, key), NextDb(s, step).rows[key], step.now))
  {
    assert NotAhead(s.requests[step.rid]);
    if InsertLands(s, step) {
      CreateLands(s, step);
    } else if s.requests[step.rid].call.Versioned() {
      SaveLands(s, step);
      ActsOnLiveRow(s, step.rid);
    } else {
      DeleteLands(s, step);
    }
  }

  lemma StepBalanced(origin: Db, s: State, step: Step)
    requires Safe(s) && Recorded(origin, s) && WinsHonestly(s, step) && Balanced(origin, s)
    ensures Balanced(origin, Apply(s, step))
  {
    if step.rid in s.requests {
      assert Placed(s, step.rid);
    }
    if WriteLands(s, step) || InsertLands(s, step) {
      CommittingStep(s, step);
      CommitReports(s, step);
      CommitBalanced(origin, s, step.rid, TargetKey(s, step), NextDb(s, step), BasisRow(s, step), step.now);
    } else if step.Advance? && step.rid in s.requests && s.requests[step.rid].phase.Auditing? {
      AuditBalanced(origin, s, step.rid, step.now, step.auditFails);
    } else {
      QuietFate(s, step);
      var next := Apply(s, step);
      if step.rid in next.requests && !(step.Arrive? && step.rid in s.requests) {
        QuietBalanced(origin, s, step.rid, next.requests[step.rid], next.db);
      }
    }
  }

  /** Outside the audit step no request's fate turns to logged. */
  lemma QuietFate(s: State, step: Step)
    requires !WriteLands(s, step) && !InsertLands(s, step)
    requires !(step.Advance? && step.rid in s.requests && s.requests[step.rid].phase.Auditing?)
    ensures var next := Apply(s, step);
            if step.rid in next.requests && !(step.Arrive? && step.rid in s.requests) then
              && next == State(s.db, s.requests[step.rid := next.requests[step.rid]], s.history)
              && !next.requests[step.rid].phase.Auditing?
              && (if step.rid in s.requests then next.requests[step.rid].fate == s.requests[step.rid].fate
                  else next.requests[step.rid].fate == Unwritten)
            else next == s
  {
    assert step.rid in s.requests ==> s.requests[step.rid := s.requests[step.rid]] == s.requests;
  }

  lemma {:induction false} RunBalanced(origin: Db, s: State, steps: seq<Step>)
    requires Safe(s) && Recorded(origin, s) && HonestWins(s, steps) && Balanced(origin, s)
    ensures Balanced(origin, Run(s, steps))
    decreases |steps|
  {
    if steps != [] {
      StepSafe(s, steps[0]);
      StepRecorded(origin, s, steps[0]);
      StepBalanced(origin, s, steps[0]);
      RunBalanced(origin, Apply(s, steps[0]), steps[1..]);
    }
  }

  // ---- every entry tells the truth

  predicate Witnessed(e: AuditEntry, history: seq<Commit>) {
    exists i :: 0 <= i < |history| && Reports(e, history[i])
  }

  function LoggedRequests(s: State): set<nat> {
    set rid <- s.requests | s.requests[rid].fate == Logged
  }

  /** The log only grew, by one true entry for each logged commit. */
  predicate Truthful(origin: Db, s: State) {
    && origin.audits <= s.db.audits
    && (forall k :: |origin.audits| <= k < |s.db.audits| ==> Witnessed(s.db.audits[k], s.history))
    && |s.db.audits| == |origin.audits| + |LoggedRequests(s)|
  }

  lemma WitnessedLonger(e: AuditEntry, history: seq<Commit>, c: Commit)
    requires Witnessed(e, history)
    ensures Witnessed(e, history + [c])
  {
    var i :| 0 <= i < |history| && Reports(e, history[i]);
    assert (history + [c])[i] == history[i];
  }

  lemma CommitTruthful(origin: Db, s: State, rid: nat, key: Key, db: Db, current: Row, now: nat)
    requires Truthful(origin, s) && rid in s.requests && s.requests[rid].fate == Unwritten
    requires key in db.rows && db.audits == s.db.audits
    ensures Truthful(origin, Committed(s, rid, s.requests[rid], key, db, current, now))
  {
    var next := Committed(s, rid, s.requests[rid], key, db, current, now);
    forall k | |origin.audits| <= k < |db.audits| ensures Witnessed(db.audits[k], next.history) {
      WitnessedLonger(s.db.audits[k], s.history, next.history[|s.history|]);
    }
    assert LoggedRequests(next) == LoggedRequests(s);
  }

  lemma AuditTruthful(origin: Db, s: State, rid: nat, now: nat, fails: bool)
    requires Truthful(origin, s) && PendingReports(s)
    requires rid in s.requests && s.requests[rid].phase.Auditing? && s.requests[rid].fate == Pending
    ensures var phase := s.requests[rid].phase;
            Truthful(origin, AuditStep(s, rid, phase.entry, phase.reply, now, fails))
  {
    var phase := s.requests[rid].phase;
    var next := AuditStep(s, rid, phase.entry, phase.reply, now, fails);
    if fails {
      assert LoggedRequests(next) == LoggedRequests(s);
    } else {
      assert LoggedRequests(next) == LoggedRequests(s) + {rid};
      assert Reports(phase.entry.(createdAt := now), s.history[s.requests[rid].commit.value]);
    }
  }

  lemma StepTruthful(origin: Db, s: State, step: Step)
    requires Recorded(origin, s) && PendingReports(s) && Truthful(origin, s)
    requires (WriteLands(s, step) || InsertLands(s, step)) ==> NextDb(s, step).audits == s.db.audits
    ensures Truthful(origin, Apply(s, step))
  {
    if step.rid in s.requests {
      assert Placed(s, step.rid);
    }
    if WriteLands(s, step) || InsertLands(s, step) {
      CommittingStep(s, step);
      CommitTruthful(origin, s, step.rid, TargetKey(s, step), NextDb(s, step), BasisRow(s, step), step.now);
    } else if step.Advance? && step.rid in s.requests && s.requests[step.rid].phase.Auditing? {
      AuditTruthful(origin, s, step.rid, step.now, step.auditFails);
    } else {
      QuietFate(s, step);
      assert LoggedRequests(Apply(s, step)) == LoggedRequests(s);
    }
  }

  lemma {:induction false} RunTruthful(origin: Db, s: State, steps: seq<Step>)
    requires Safe(s) && Recorded(origin, s) && HonestWins(s, steps) && Balanced(origin, s) && Truthful(origin, s)
    ensures Truthful(origin, Run(s, steps))
    decreases |steps|
  {
    if steps != [] {
      if WriteLands(s, steps[0]) || InsertLands(s, steps[0]) {
        CommitReports(s, steps[0]);
      }
      StepSafe(s, steps[0]);
      StepRecorded(origin, s, steps[0]);
      StepBalanced(origin, s, steps[0]);
      StepTruthful(origin, s, steps[0]);
      RunTruthful(origin, Apply(s, steps[0]), steps[1..]);
    }
  }

  /** A truthful log: along any honest run it only grows, every entry it gains reports a
      committed call -- its key, actor, request, action, both statuses and reason -- and
      there is one entry for each committed call whose append did not fail. */
  lemma LogIsTruthful(origin: Db, steps: seq<Step>)
    requires Good(origin) && HonestWins(Boot(origin), steps)
    ensures Truthful(origin, Run(Boot(origin), steps))
  {
    BootRecorded(origin);
    assert LoggedRequests(Boot(origin)) == {};
    RunTruthful(origin, Boot(origin), steps);
  }

  /** Conservation at every moment of an honest run: what the log gained, plus the
      entries still due or lost, is exactly [it is the current status] minus [it is the
      birth status]. */
  lemma FlowAccounts(origin: Db, steps: seq<Step>, key: Key, status: Status)
    requires Good(origin) && HonestWins(Boot(origin), steps) && key in Run(Boot(origin), steps).db.rows
    ensures var s := Run(Boot(origin), steps);
            Flow(s.db.audits, key, status) - Flow(origin.audits, key, status)
              + OwedFlow(s.history, s.requests, key, status)
            == Indicator(s.db.rows[key].status == status) - Indicator(BirthStatus(origin, key) == status)
  {
    BootRecorded(origin);
    RunRecorded(origin, Boot(origin), steps);
    RunBalanced(origin, Boot(origin), steps);
    var s := Run(Boot(origin), steps);
    assert Weighs(origin, s.db.audits, s.history, s.requests, key, status);
    LoggedOrOwed(s.history, s.requests, key, status);
    CommitFlowTelescopes(origin, s.history, key, status);
    assert RowAfter(origin, s.history, key) == Lookup(s.db, key);
  }

  /** No transition of this key still owes the log an entry, and none was lost.  What
      became of the entries of creates, updates and deletes does not matter. */
  predicate Settled(s: State, key: Key) {
    forall rid <- s.requests :: s.requests[rid].key == key && s.requests[rid].call.op.Transition? ==>
      s.requests[rid].fate == Unwritten || s.requests[rid].fate == Logged
  }

  lemma {:induction false} NothingOwed(origin: Db, s: State, n: nat, key: Key, status: Status)
    requires Recorded(origin, s) && AllFaithful(s.history) && Settled(s, key) && n <= |s.history|
    ensures OwedFlow(s.history[..n], s.requests, key, status) == 0
  {
    if n > 0 {
      NothingOwed(origin, s, n - 1, key, status);
      assert s.history[..n][..n - 1] == s.history[..n - 1];
      assert WrittenBy(s, n - 1) && Faithful(s.history[n - 1]);
      assert Placed(s, s.history[n - 1].rid);
    }
  }

  /** Flow conservation: once the transitions of a key are settled, for every status
      the entries the log gained that enter it minus those that leave it are exactly
      [it is the current status] minus [it is the birth status]. */
  lemma FlowIsConserved(origin: Db, steps: seq<Step>, key: Key, status: Status)
    requires Good(origin) && HonestWins(Boot(origin), steps)
    requires var s := Run(Boot(origin), steps); key in s.db.rows && Settled(s, key)
    ensures var s := Run(Boot(origin), steps);
            Flow(s.db.audits, key, status) - Flow(origin.audits, key, status)
            == Indicator(s.db.rows[key].status == status) - Indicator(BirthStatus(origin, key) == status)
  {
    FlowAccounts(origin, steps, key, status);
    BootRecorded(origin);
    RunRecorded(origin, Boot(origin), steps);
    RunFaithful(Boot(origin), steps);
    var s := Run(Boot(origin), steps);
    NothingOwed(origin, s, |s.history|, key, status);
    assert s.history[..|s.history|] == s.history;
  }

  /** The flow does not depend on the order of the entries. */
  lemma {:induction false} FlowIgnoresOrder(a: seq<AuditEntry>, b: seq<AuditEntry>, key: Key, status: Status)
    requires multiset(a) == multiset(b)
    ensures Flow(a, key, status) == Flow(b, key, status)
  {
    if a != [] {
      var n := |a| - 1;
      assert a[n] in multiset(b);
      var i :| 0 <= i < |b| && b[i] == a[n];
      SameRest(a, b, i);
      FlowIgnoresOrder(a[..n], b[..i] + b[i + 1..], key, status);
      FlowWithout(b, i, key, status);
    } else {
      assert |multiset(b)| == 0;
    }
  }

  lemma SameRest<T>(a: seq<T>, b: seq<T>, i: nat)
    requires multiset(a) == multiset(b) && i < |b| && |a| > 0 && b[i] == a[|a| - 1]
    ensures multiset(a[..|a| - 1]) == multiset(b[..i] + b[i + 1..])
  {
    assert a == a[..|a| - 1] + [b[i]];
    assert b == b[..i] + [b[i]] + b[i + 1..];
    calc {
      multiset(a[..|a| - 1]);
      multiset(a) - multiset{b[i]};
      multiset(b) - multiset{b[i]};
      multiset(b[..i] + b[i + 1..]);
    }
  }

  lemma {:induction false} FlowWithout(b: seq<AuditEntry>, i: nat, key: Key, status: Status)
    requires i < |b|
    ensures Flow(b, key, status) == Flow(b[..i] + b[i + 1..], key, status) + EntryDelta(b[i], key, status)
  {
    var n := |b| - 1;
    if i == n {
      assert b[..i] + b[i + 1..] == b[..n];
    } else {
      var rest := b[..n][..i] + b[..n][i + 1..];
      FlowWithout(b[..n], i, key, status);
      assert b[..i] + b[i + 1..] == rest + [b[n]];
      FlowAppend(rest, b[n], key, status);
    }
  }

  /** Any reordering of the log still names the current status of a settled row. */
  lemma ShuffledLogNamesStatus(origin: Db, steps: seq<Step>, key: Key, shuffled: seq<AuditEntry>, status: Status)
    requires Good(origin) && HonestWins(Boot(origin), steps)
    requires var s := Run(Boot(origin), steps);
             key in s.db.rows && Settled(s, key) && multiset(shuffled) == multiset(s.db.audits)
    ensures Run(Boot(origin), steps).db.rows[key].status == status <==>
            Flow(shuffled, key, status) - Flow(origin.audits, key, status)
              + Indicator(BirthStatus(origin, key) == status) == 1
  {
    FlowIsConserved(origin, steps, key, status);
    FlowIgnoresOrder(shuffled, Run(Boot(origin), steps).db.audits, key, status);
  }
}
