/** The client discipline, and what it buys: every committed write acts on the row
    as it stands at commit time. */
module Discipline {
  import opened Lifecycle
  import opened Records
  import opened Tables
  import opened Rules
  import opened Machine
  import opened Evolution
  import opened Safety

  /** The request does not claim a version newer than the one its own Get read. */
  predicate NotAhead(request: Request) {
    request.call.Versioned() ==>
      match request.phase
      case Preloading(current) => request.call.op.expected <= current.version
      case Writing(current) => request.call.op.expected <= current.version
      case _ => true
  }

  predicate HonestExcept(s: State, exempt: set<nat>) {
    forall rid <- s.requests :: rid !in exempt ==> NotAhead(s.requests[rid])
  }

  /** Along the run no request outside exempt claims a version newer than the one it
      read. */
  predicate HonestRunExcept(s: State, steps: seq<Step>, exempt: set<nat>)
    decreases |steps|
  {
    HonestExcept(s, exempt) && (steps != [] ==> HonestRunExcept(Apply(s, steps[0]), steps[1..], exempt))
  }

  predicate Honest(s: State) {
    HonestExcept(s, {})
  }

  /** No request ever claims ahead. */
  predicate HonestRun(s: State, steps: seq<Step>) {
    HonestRunExcept(s, steps, {})
  }

  /** The step is not a save that wins its swap with a claim ahead of its read. */
  predicate WinsHonestly(s: State, step: Step) {
    WriteLands(s, step) ==> NotAhead(s.requests[step.rid])
  }

  /** The named hypothesis of the results about honest runs: the saves that win their
      swap are not ahead.  Requests that claim ahead and are refused or lose do not
      matter. */
  predicate HonestWins(s: State, steps: seq<Step>)
    decreases |steps|
  {
    steps != [] ==> WinsHonestly(s, steps[0]) && HonestWins(Apply(s, steps[0]), steps[1..])
  }

  lemma {:induction false} HonestRunWinsHonestly(s: State, steps: seq<Step>)
    requires HonestRun(s, steps)
    ensures HonestWins(s, steps)
    decreases |steps|
  {
    if steps != [] {
      HonestRunWinsHonestly(Apply(s, steps[0]), steps[1..]);
    }
  }

  lemma {:induction false} WinsHonestlyAt(s: State, steps: seq<Step>, n: nat)
    requires HonestWins(s, steps) && n < |steps|
    ensures WinsHonestly(StateAt(s, steps, n), steps[n])
    decreases n
  {
    if n > 0 {
      assert steps[..n][1..] == steps[1..][..n - 1];
      WinsHonestlyAt(Apply(s, steps[0]), steps[1..], n - 1);
    }
  }

  // ---- clients that send back a version they were given

  type Shown = set<(Key, nat)>

  /** The versions a query at this moment can show, be it a Get or a list. */
  function Showing(db: Db): Shown {
    set key <- db.rows | !db.rows[key].deleted :: (key, db.rows[key].version)
  }

  /** Everything queries could show up to and including the end of a run. */
  function ShownBy(s: State, shown: Shown, steps: seq<Step>): Shown
    decreases |steps|
  {
    if steps == [] then shown + Showing(s.db)
    else ShownBy(Apply(s, steps[0]), shown + Showing(s.db), steps[1..])
  }

  /** What the frontend does: it sends back a version some response showed it. */
  predicate Echoes(shown: Shown, step: Step) {
    step.Arrive? && step.call.Versioned() ==> (KeyOf(step.call), step.call.op.expected) in shown
  }

  predicate EchoRun(s: State, shown: Shown, steps: seq<Step>, exempt: set<nat>)
    decreases |steps|
  {
    steps != [] ==>
      && (steps[0].rid in exempt || Echoes(shown + Showing(s.db), steps[0]))
      && EchoRun(Apply(s, steps[0]), shown + Showing(s.db), steps[1..], exempt)
  }

  lemma {:induction false} EchoWider(s: State, shown: Shown, more: Shown, steps: seq<Step>, exempt: set<nat>,
                                     wider: set<nat>)
    requires shown <= more && exempt <= wider && EchoRun(s, shown, steps, exempt)
    ensures EchoRun(s, more, steps, wider)
    decreases |steps|
  {
    if steps != [] {
      EchoWider(Apply(s, steps[0]), shown + Showing(s.db), more + Showing(s.db), steps[1..], exempt, wider);
    }
  }

  lemma {:induction false} EchoConcat(s: State, shown: Shown, first: seq<Step>, second: seq<Step>, exempt: set<nat>)
    requires EchoRun(s, shown, first, exempt) && EchoRun(Run(s, first), {}, second, exempt)
    ensures EchoRun(s, shown, first + second, exempt)
    decreases |first|
  {
    if first == [] {
      assert first + second == second;
      EchoWider(s, {}, shown, second, exempt, exempt);
    } else {
      assert (first + second)[1..] == first[1..] + second;
      EchoConcat(Apply(s, first[0]), shown + Showing(s.db), first[1..], second, exempt);
    }
  }

  /** A version once shown can only be at or behind the live row. */
  predicate ShownBehind(db: Db, shown: Shown) {
    forall seen <- shown :: seen.0 in db.rows && seen.1 <= db.rows[seen.0].version
  }

  predicate ClaimBehind(db: Db, request: Request) {
    request.call.Versioned() ==>
      request.key in db.rows && request.call.op.expected <= db.rows[request.key].version
  }

  predicate ClaimsBehind(s: State, exempt: set<nat>) {
    forall rid <- s.requests :: rid !in exempt ==> ClaimBehind(s.db, s.requests[rid])
  }

  lemma ClaimBehindLasts(db: Db, next: Db, request: Request)
    requires ClaimBehind(db, request) && Evolves(db, next)
    ensures ClaimBehind(next, request)
  {
    if request.call.Versioned() {
      assert Follows(db, next, request.key);
    }
  }

  lemma ShownStaysBehind(db: Db, next: Db, shown: Shown)
    requires ShownBehind(db, shown) && Evolves(db, next)
    ensures ShownBehind(next, shown)
  {
    forall seen | seen in shown ensures seen.0 in next.rows && seen.1 <= next.rows[seen.0].version {
      assert Follows(db, next, seen.0);
    }
  }

  /** The first Get of a request reads at or ahead of its claim. */
  lemma NotAheadAfter(s: State, step: Step)
    requires Safe(s) && step.rid in s.requests
    requires NotAhead(s.requests[step.rid]) && ClaimBehind(s.db, s.requests[step.rid])
    ensures NotAhead(Apply(s, step).requests[step.rid])
    ensures s.requests[step.rid].call.Versioned() ==> Apply(s, step).requests[step.rid].key == s.requests[step.rid].key
  {
    assert RequestOk(s.db, s.requests[step.rid]);
  }

  lemma EchoStep(s: State, shown: Shown, step: Step, exempt: set<nat>)
    requires Safe(s) && HonestExcept(s, exempt) && ClaimsBehind(s, exempt) && ShownBehind(s.db, shown)
    requires step.rid in exempt || Echoes(shown, step)
    ensures HonestExcept(Apply(s, step), exempt) && ClaimsBehind(Apply(s, step), exempt)
  {
    StepSafe(s, step);
    StepFrame(s, step);
    var next := Apply(s, step);
    forall rid | rid in next.requests && rid !in exempt
      ensures ClaimBehind(next.db, next.requests[rid]) && NotAhead(next.requests[rid])
    {
      if rid in s.requests {
        ClaimBehindLasts(s.db, next.db, s.requests[rid]);
        if rid == step.rid {
          NotAheadAfter(s, step);
        }
      }
    }
  }

  /** Requests that only send back versions they were shown never claim ahead,
      whatever the exempt ones do. */
  lemma {:induction false} EchoImpliesHonest(s: State, shown: Shown, steps: seq<Step>, exempt: set<nat>)
    requires Safe(s) && HonestExcept(s, exempt) && ClaimsBehind(s, exempt) && ShownBehind(s.db, shown)
    requires EchoRun(s, shown, steps, exempt)
    ensures HonestRunExcept(s, steps, exempt)
    decreases |steps|
  {
    if steps != [] {
      var now := shown + Showing(s.db);
      StepSafe(s, steps[0]);
      EchoStep(s, now, steps[0], exempt);
      ShownStaysBehind(s.db, Apply(s, steps[0]).db, now);
      EchoImpliesHonest(Apply(s, steps[0]), now, steps[1..], exempt);
    }
  }

  lemma {:induction false} ShownByBehind(s: State, shown: Shown, steps: seq<Step>)
    requires Safe(s) && ShownBehind(s.db, shown)
    ensures ShownBehind(Run(s, steps).db, ShownBy(s, shown, steps))
    decreases |steps|
  {
    if steps != [] {
      StepSafe(s, steps[0]);
      ShownStaysBehind(s.db, Apply(s, steps[0]).db, shown + Showing(s.db));
      ShownByBehind(Apply(s, steps[0]), shown + Showing(s.db), steps[1..]);
    }
  }

  /** From any orderly start, with no request in flight; what clients were shown before
      it may be sent back too, also across several lifetimes of the service. */
  lemma EchoingClientsAreHonest(origin: Db, shown: Shown, steps: seq<Step>, exempt: set<nat>)
    requires Good(origin) && ShownBehind(origin, shown) && EchoRun(Boot(origin), shown, steps, exempt)
    ensures HonestRunExcept(Boot(origin), steps, exempt)
    ensures ShownBehind(Run(Boot(origin), steps).db, ShownBy(Boot(origin), shown, steps))
  {
    EchoImpliesHonest(Boot(origin), shown, steps, exempt);
    ShownByBehind(Boot(origin), shown, steps);
  }

  predicate HoldsShown(request: Request, shown: Shown) {
    Held(request.phase).Some? ==> (request.key, Held(request.phase).value.version) in shown
  }

  predicate AllHoldShown(s: State, shown: Shown) {
    forall rid <- s.requests :: HoldsShown(s.requests[rid], shown)
  }

  /** A row a request carries was carried before the step, or found or stored by it. */
  lemma HeldFrom(s: State, step: Step)
    requires Safe(s) && step.rid in s.requests
    ensures var was := s.requests[step.rid];
            var now := Apply(s, step).requests[step.rid];
            Held(now.phase).Some? ==>
              || (InsertLands(s, step) && now.key == TargetKey(s, step) && Held(now.phase).value.version == 1)
              || (now.key == was.key && (Held(now.phase) == Held(was.phase) || Held(now.phase) == Find(s.db, was.key)))
  {
    if InsertLands(s, step) {
      CreateLands(s, step);
    }
    if WriteLands(s, step) || InsertLands(s, step) {
      CommittingStep(s, step);
    }
  }

  lemma InsertShows(s: State, step: Step)
    requires Safe(s) && InsertLands(s, step)
    ensures (TargetKey(s, step), 1) in Showing(Apply(s, step).db)
  {
    CreateLands(s, step);
    CommittingStep(s, step);
  }

  lemma StepHoldsShown(s: State, step: Step, shown: Shown)
    requires Safe(s) && AllHoldShown(s, shown) && Showing(s.db) <= shown
    ensures AllHoldShown(Apply(s, step), shown + Showing(Apply(s, step).db))
  {
    StepFrame(s, step);
    var next := Apply(s, step);
    if InsertLands(s, step) {
      InsertShows(s, step);
    }
    forall rid | rid in next.requests ensures HoldsShown(next.requests[rid], shown + Showing(next.db)) {
      if rid in s.requests {
        assert HoldsShown(s.requests[rid], shown);
        if rid == step.rid {
          HeldFrom(s, step);
          FoundIsShown(s.db, s.requests[rid].key);
        }
      }
    }
  }

  lemma FoundIsShown(db: Db, key: Key)
    ensures Find(db, key).Some? ==> (key, Find(db, key).value.version) in Showing(db)
  {
  }

  lemma {:induction false} RunHoldsShown(s: State, shown: Shown, steps: seq<Step>)
    requires Safe(s) && AllHoldShown(s, shown + Showing(s.db))
    ensures AllHoldShown(Run(s, steps), ShownBy(s, shown, steps))
    decreases |steps|
  {
    if steps != [] {
      StepSafe(s, steps[0]);
      StepHoldsShown(s, steps[0], shown + Showing(s.db));
      RunHoldsShown(Apply(s, steps[0]), shown + Showing(s.db), steps[1..]);
    }
  }

  /** Every version a response carries is one that was shown, so sending back the
      version of any response is echoing. */
  lemma ResponsesAreShown(origin: Db, steps: seq<Step>, rid: nat)
    requires Good(origin) && rid in Run(Boot(origin), steps).requests
    requires var phase := Run(Boot(origin), steps).requests[rid].phase;
             phase.Finished? && phase.outcome.Returned?
    ensures var request := Run(Boot(origin), steps).requests[rid];
            (request.key, request.phase.outcome.row.version) in ShownBy(Boot(origin), {}, steps)
  {
    RunHoldsShown(Boot(origin), {}, steps);
    assert HoldsShown(Run(Boot(origin), steps).requests[rid], ShownBy(Boot(origin), {}, steps));
  }

  // ---- what the discipline buys

  /** The exact reach of the hypothesis: a write that is about to win its swap acts
      on the live row itself if and only if its claim is not ahead of its read. */
  lemma ActsOnLiveRow(s: State, rid: nat)
    requires Safe(s) && rid in s.requests && s.requests[rid].phase.Writing? && s.requests[rid].call.Versioned()
    requires var found := Find(s.db, s.requests[rid].key);
             found.Some? && found.value.version == s.requests[rid].call.op.expected
    ensures s.requests[rid].phase.current == s.db.rows[s.requests[rid].key] <==> NotAhead(s.requests[rid])
  {
    assert RequestOk(s.db, s.requests[rid]);
  }

  /** A decision's delete checks the status it read and then deletes by id alone. */
  predicate DeleteInTime(s: State, step: Step) {
    step.Advance? && step.rid in s.requests && s.requests[step.rid].phase.Writing?
    && s.requests[step.rid].call.op.Delete? && s.requests[step.rid].call.kind == Decision
    && Find(s.db, s.requests[step.rid].key).Some?
    ==> Find(s.db, s.requests[step.rid].key).value.status == Draft
  }

  predicate DeletesInTime(s: State, steps: seq<Step>)
    decreases |steps|
  {
    steps != [] ==> DeleteInTime(s, steps[0]) && DeletesInTime(Apply(s, steps[0]), steps[1..])
  }

  /** What a write finds on the live row: its guards pass there too, and the columns it
      writes back unasked are the live ones. */
  predicate Fits(s: State, step: Step)
    requires WriteLands(s, step)
  {
    var request := s.requests[step.rid];
    var current := request.phase.current;
    match Find(s.db, request.key)
    case None => false
    case Some(live) =>
      && Check(request.call, live) == None
      && (request.call.op.Update? ==> current.status == live.status)
      && (request.call.op.Transition? ==> current.fields == live.fields)
  }

  /** Atomicity, exactly.  A write that takes effect has the effect of reading, checking
      and writing at once if and only if it fits the live row. */
  lemma WriteIsAtomic(s: State, step: Step)
    requires Safe(s) && WriteLands(s, step)
    ensures var request := s.requests[step.rid];
            Atomic(s.db, request.call, request.key, step.now) == Success(NextDb(s, step)) <==> Fits(s, step)
  {
    var request := s.requests[step.rid];
    var current := request.phase.current;
    assert RequestOk(s.db, request);
    if request.call.Versioned() {
      SaveLands(s, step);
      var live := s.db.rows[request.key];
      SaveOutcome(s.db, request.call, request.key, live, step.now);
      SameSave(s.db, request.call, current, live, step.now);
    } else {
      DeleteLands(s, step);
    }
  }

  /** Two rows lead to the same save exactly when they agree on what it writes back. */
  lemma SameSave(db: Db, call: Call, current: Row, live: Row, now: nat)
    requires call.Versioned() && Find(db, KeyOf(call)) == Some(live)
    requires current.code == live.code && current.preparedBy == live.preparedBy
    ensures Saved(db, call, KeyOf(call), current, now) == Saved(db, call, KeyOf(call), live, now)
       <==> if call.op.Update? then current.status == live.status else current.fields == live.fields
  {
    var key := KeyOf(call);
    var a, b := Saved(db, call, key, current, now), Saved(db, call, key, live, now);
    assert a.rows[key] == Stored(Patch(call, current, now), live);
    assert b.rows[key] == Stored(Patch(call, live, now), live);
  }

  /** A save that is not ahead fits, and a delete fits when it is in time. */
  lemma HonestFits(s: State, step: Step)
    requires Safe(s) && WriteLands(s, step)
    ensures s.requests[step.rid].call.Versioned() && NotAhead(s.requests[step.rid]) ==> Fits(s, step)
    ensures s.requests[step.rid].call.op.Delete? ==> (Fits(s, step) <==> DeleteInTime(s, step))
  {
    var request := s.requests[step.rid];
    assert RequestOk(s.db, request);
    if request.call.Versioned() {
      SaveLands(s, step);
      ActsOnLiveRow(s, step.rid);
    } else {
      DeleteLands(s, step);
    }
  }
}
