/** The decisions a new installation starts with.  Two of them are final already,
    so the start of every run is not trivial. */
module Seeding {
  import opened Lifecycle
  import opened Records
  import opened Tables
  import opened Machine
  import opened Evolution
  import opened Decisions
  import opened Persistence
  import Finality
  import Integrity
  import Safety

  const SEED_EVIDENCE := "evidence checked"

  function SeedFields(suffix: string, owner: string, category: string, risk: string, metric: real, unit: string,
                      effectiveAt: int): Fields
  {
    Fields("decision sample " + suffix, "sample record", "area " + suffix, owner, category, risk, metric, unit,
           effectiveAt, SEED_EVIDENCE, "DF-00" + suffix)
  }

  const SEEDS: seq<Row> := [
    Row("PD-001", Draft, 1, SeedFields("1", "operations", "routine", "low", 12.5, "unit", 0), "operator", 0, 0, false),
    Row("PD-002", Observe, 2, SeedFields("2", "quality", "major", "medium", 25.0, "%", 3), "operator", 0, 0, false),
    Row("PD-003", Restrict, 2, SeedFields("3", "safety", "review", "high", 37.5, "score", 6), "operator", 0, 0, false)]

  /** The revisions stored with a seeded decision: a draft, and for a final decision
      its review under the decision's own version.  The request id is cut to the code. */
  function SeedRevisions(item: Row, id: nat, now: nat): seq<Revision> {
    var evidence := item.fields.evidence;
    var draft := Revision(id, 1, Draft, evidence, SeededDraft, "operator", item.code,
                          SeedSnapshot(item.code, Draft, evidence), now);
    if item.status == Draft then [draft]
    else [draft,
          Revision(id, item.version, item.status, evidence, SeededReview, "reviewer", item.code,
                   SeedSnapshot(item.code, item.status, evidence), now + 60)]
  }

  /** A seeded decision is consistent exactly when its version says how many
      revisions it comes with. */
  predicate SeedShape(item: Row) {
    item.version == if item.status == Draft then 1 else 2
  }

  predicate InOrder(db: Db) {
    Good(db) && DraftChains(db)
  }

  function Seeded(db: Db, key: Key, item: Row, now: nat): Db {
    db.(rows := db.rows[key := item], revisions := db.revisions + SeedRevisions(item, key.id, now))
  }

  lemma HistoriesAppendSeeds(revisions: seq<Revision>, item: Row, id: nat, now: nat)
    ensures forall other ::
              HistoryOf(revisions + SeedRevisions(item, id, now), other)
              == if other == id then HistoryOf(revisions, id) + SeedRevisions(item, id, now)
                else HistoryOf(revisions, other)
  {
    var seeds := SeedRevisions(item, id, now);
    HistoriesAppend(revisions, seeds[0]);
    if |seeds| == 2 {
      HistoriesAppend(revisions + [seeds[0]], seeds[1]);
      assert revisions + seeds == revisions + [seeds[0]] + [seeds[1]];
    } else {
      assert revisions + seeds == revisions + [seeds[0]];
    }
  }

  lemma SeedChain(item: Row, id: nat, now: nat)
    ensures Chain(SeedRevisions(item, id, now), item) <==> SeedShape(item)
    ensures DraftsThenOne(SeedRevisions(item, id, now))
  {
  }

  lemma HistoriesAfterSeed(db: Db, key: Key, item: Row, now: nat)
    requires NoOrphans(db) && key.kind == Decision && key !in db.rows
    ensures var next := Seeded(db, key, item, now);
            && HistoryOf(next.revisions, key.id) == SeedRevisions(item, key.id, now)
            && forall id :: id != key.id ==> HistoryOf(next.revisions, id) == HistoryOf(db.revisions, id)
  {
    NoHistory(db.revisions, key.id);
    HistoriesAppendSeeds(db.revisions, item, key.id, now);
  }

  lemma SeedKeeps(db: Db, key: Key, item: Row, now: nat)
    requires InOrder(db) && key.kind == Decision && key !in db.rows && SeedShape(item)
    ensures InOrder(Seeded(db, key, item, now))
  {
    var next := Seeded(db, key, item, now);
    HistoriesAfterSeed(db, key, item, now);
    SeedChain(item, key.id, now);
    forall other | other in next.rows ensures RowInOrder(next, other) && DraftChain(next, other) {
      if other != key {
        assert RowInOrder(db, other) && DraftChain(db, other);
      }
    }
    SeedsHaveOwner(item, key.id, now);
    assert NoOrphans(next);
  }

  lemma SeedsHaveOwner(item: Row, id: nat, now: nat)
    ensures forall r <- SeedRevisions(item, id, now) :: r.decision == id
  {
  }

  /** Seeding a decision keeps the tables in order if and only if its version fits. */
  lemma SeedKeepsExactly(db: Db, key: Key, item: Row, now: nat)
    requires InOrder(db) && key.kind == Decision && key !in db.rows
    ensures InOrder(Seeded(db, key, item, now)) <==> SeedShape(item)
  {
    if SeedShape(item) {
      SeedKeeps(db, key, item, now);
    } else {
      var next := Seeded(db, key, item, now);
      HistoriesAfterSeed(db, key, item, now);
      SeedChain(item, key.id, now);
      assert key in next.rows && !RowInOrder(next, key);
    }
  }

  predicate LiveDecision(db: Db) {
    exists key <- db.rows :: key.kind == Decision && !db.rows[key].deleted
  }

  /** The database once the first n items are stored under consecutive ids. */
  function SeededAll(db: Db, first: nat, items: seq<Row>, n: nat, now: nat): Db
    requires n <= |items|
  {
    if n == 0 then db
    else Seeded(SeededAll(db, first, items, n - 1, now), Key(Decision, first + n - 1), items[n - 1], now)
  }

  /** Every decision id below first is free to hand out from first on. */
  predicate IdsBelow(rows: map<Key, Row>, first: nat) {
    forall key <- rows :: key.kind == Decision ==> key.id < first
  }

  /** Items stored so far block only their own codes. */
  lemma {:induction false} CodesInUse(db: Db, first: nat, items: seq<Row>, n: nat, now: nat, code: string)
    requires n <= |items| && IdsBelow(db.rows, first)
    requires forall i :: 0 <= i < n ==> items[i].code != code
    ensures IdsBelow(SeededAll(db, first, items, n, now).rows, first + n)
    ensures CodeTaken(SeededAll(db, first, items, n, now), Decision, code) <==> CodeTaken(db, Decision, code)
  {
    if n > 0 {
      CodesInUse(db, first, items, n - 1, now, code);
      var fewer := SeededAll(db, first, items, n - 1, now);
      var key := Key(Decision, first + n - 1);
      assert key !in fewer.rows;
      if CodeTaken(fewer, Decision, code) {
        var k :| k in fewer.rows && k.kind == Decision && fewer.rows[k].code == code;
        assert Seeded(fewer, key, items[n - 1], now).rows[k] == fewer.rows[k];
      }
    }
  }

  lemma {:induction false} SeededFrame(db: Db, first: nat, items: seq<Row>, n: nat, now: nat)
    requires n <= |items| && IdsBelow(db.rows, first)
    ensures IdsBelow(SeededAll(db, first, items, n, now).rows, first + n)
  {
    if n > 0 {
      SeededFrame(db, first, items, n - 1, now);
    }
  }

  /** next is db with one more consistent item. */
  ghost predicate AddsItem(db: Db, next: Db) {
    exists id, item, now ::
      SeedShape(item) && Key(Decision, id) !in db.rows && next == Seeded(db, Key(Decision, id), item, now)
  }

  lemma ItemKeepsOrder(db: Db, next: Db)
    requires InOrder(db) && AddsItem(db, next)
    ensures InOrder(next)
  {
    var id, item, now :|
      SeedShape(item) && Key(Decision, id) !in db.rows && next == Seeded(db, Key(Decision, id), item, now);
    SeedKeeps(db, Key(Decision, id), item, now);
  }

  lemma AllAdd(db: Db, first: nat, items: seq<Row>, n: nat, now: nat)
    requires 0 < n <= |items| && IdsBelow(db.rows, first) && SeedShape(items[n - 1])
    ensures AddsItem(SeededAll(db, first, items, n - 1, now), SeededAll(db, first, items, n, now))
  {
    SeededFrame(db, first, items, n - 1, now);
    assert Key(Decision, first + n - 1) !in SeededAll(db, first, items, n - 1, now).rows;
  }

  /** Seeding consistent items keeps the tables in order. */
  lemma {:induction false} AllInOrder(db: Db, first: nat, items: seq<Row>, n: nat, now: nat)
    requires n <= |items| && InOrder(db) && IdsBelow(db.rows, first)
    requires forall i :: 0 <= i < n ==> SeedShape(items[i])
    ensures InOrder(SeededAll(db, first, items, n, now))
  {
    if n > 0 {
      AllInOrder(db, first, items, n - 1, now);
      AllAdd(db, first, items, n, now);
      ItemKeepsOrder(SeededAll(db, first, items, n - 1, now), SeededAll(db, first, items, n, now));
    }
  }

  /** Store one decision with its revisions. */
  method SeedOne(db: Database, item: Row, now: nat) returns (error: Option<Error>)
    requires db.Valid()
    modifies db
    ensures db.Valid()
    ensures CodeTaken(old(db.Value()), Decision, item.code) ==>
              error == Some(DuplicateCode) && db.Value() == old(db.Value()) && db.lastId == old(db.lastId)
    ensures !CodeTaken(old(db.Value()), Decision, item.code) ==>
              && error == None && db.lastId[Decision] == old(db.lastId)[Decision] + 1
              && db.Value() == Seeded(old(db.Value()), Key(Decision, old(db.NextId(Decision))), item, now)
  {
    var store := new Store(db, Decision);
    var created := store.Create(item);
    if created.Failure? {
      return Some(created.error);
    }
    db.revisions := db.revisions + SeedRevisions(item, created.value, now);
    error := None;
  }

  predicate DistinctCodes(items: seq<Row>) {
    forall i, j :: 0 <= i < j < |items| ==> items[i].code != items[j].code
  }

  predicate NoneTaken(db: Db, items: seq<Row>, n: nat)
    requires n <= |items|
  {
    forall i :: 0 <= i < n ==> !CodeTaken(db, Decision, items[i].code)
  }

  /** One iteration: the next item is refused exactly if its code was taken before the
      first one. */
  method SeedNext(db: Database, ghost was: Db, ghost first: nat, items: seq<Row>, index: nat, now: nat)
    returns (error: Option<Error>)
    requires db.Valid() && DistinctCodes(items) && index < |items| && IdsBelow(was.rows, first)
    requires db.lastId[Decision] + 1 == first + index && db.Value() == SeededAll(was, first, items, index, now)
    requires NoneTaken(was, items, index)
    modifies db
    ensures db.Valid() && db.audits == old(db.audits)
    ensures error.Some? ==> CodeTaken(was, Decision, items[index].code)
    ensures error == None ==>
              && NoneTaken(was, items, index + 1)
              && db.lastId[Decision] + 1 == first + index + 1
              && db.Value() == SeededAll(was, first, items, index + 1, now)
  {
    CodesInUse(was, first, items, index, now, items[index].code);
    error := SeedOne(db, items[index], now);
  }

  /** The loop of the transaction: store the items one by one until one is refused. */
  method SeedUntilRefused(db: Database, items: seq<Row>, now: nat) returns (error: Option<Error>)
    requires db.Valid() && DistinctCodes(items)
    modifies db
    ensures db.Valid() && db.audits == old(db.audits)
    ensures error.Some? ==> exists i :: 0 <= i < |items| && CodeTaken(old(db.Value()), Decision, items[i].code)
    ensures error == None ==>
              && db.Value() == SeededAll(old(db.Value()), old(db.NextId(Decision)), items, |items|, now)
              && NoneTaken(old(db.Value()), items, |items|)
  {
    ghost var was, first := db.Value(), db.NextId(Decision);
    assert IdsBelow(was.rows, first);
    for index := 0 to |items|
      invariant db.Valid() && db.lastId[Decision] + 1 == first + index
      invariant db.Value() == SeededAll(was, first, items, index, now) && db.audits == was.audits
      invariant NoneTaken(was, items, index)
    {
      error := SeedNext(db, was, first, items, index, now);
      if error.Some? {
        assert CodeTaken(was, Decision, items[index].code);
        return;
      }
    }
    error := None;
  }

  /** One transaction: store every item with its revisions, or nothing at all. */
  method SeedAll(db: Database, items: seq<Row>, now: nat) returns (error: Option<Error>)
    requires db.Valid() && DistinctCodes(items)
    modifies db
    ensures db.Valid() && db.audits == old(db.audits)
    ensures error.Some? <==> exists i :: 0 <= i < |items| && CodeTaken(old(db.Value()), Decision, items[i].code)
    ensures db.Value() ==
            if error.Some? then old(db.Value())
            else SeededAll(old(db.Value()), old(db.NextId(Decision)), items, |items|, now)
  {
    var rows, revisions, lastId := db.rows, db.revisions, db.lastId;
    error := SeedUntilRefused(db, items, now);
    if error.Some? {
      db.rows, db.revisions, db.lastId := rows, revisions, lastId;  // rollback
    }
  }

  /** Seed unless some decision is live.  A code still held by a soft-deleted
      decision makes the start fail. */
  method SeedPriorityDecisions(db: Database, items: seq<Row>, now: nat) returns (error: Option<Error>)
    requires db.Valid() && DistinctCodes(items) && forall i :: 0 <= i < |items| ==> SeedShape(items[i])
    modifies db
    ensures db.Valid() && db.audits == old(db.audits)
    ensures InOrder(old(db.Value())) ==> InOrder(db.Value())
    ensures (exists key <- old(db.rows) :: key.kind == Decision && !old(db.rows)[key].deleted) ==>
              error == None && db.Value() == old(db.Value())
    ensures error.Some? <==>
            && !LiveDecision(old(db.Value()))
            && exists i :: 0 <= i < |items| && CodeTaken(old(db.Value()), Decision, items[i].code)
    ensures db.Value() ==
            if LiveDecision(old(db.Value())) || error.Some? then old(db.Value())
            else SeededAll(old(db.Value()), old(db.NextId(Decision)), items, |items|, now)
  {
    var count := set key | key in db.rows && key.kind == Decision && !db.rows[key].deleted;
    if count != {} {
      var key :| key in count;
      assert LiveDecision(db.Value());
      return None;
    }
    forall key | key in db.rows ensures !(key.kind == Decision && !db.rows[key].deleted) {
      assert key !in count;
    }
    if InOrder(db.Value()) {
      AllInOrder(db.Value(), db.NextId(Decision), items, |items|, now);
    }
    error := SeedAll(db, items, now);
  }

  /** Seeding filled items leaves no blank field. */
  lemma {:induction false} AllFilled(db: Db, first: nat, items: seq<Row>, n: nat, now: nat)
    requires n <= |items| && Integrity.Filled(Boot(db))
    requires forall i :: 0 <= i < n ==> Integrity.FilledRow(Decision, items[i])
    ensures Integrity.Filled(Boot(SeededAll(db, first, items, n, now)))
  {
    if n > 0 {
      AllFilled(db, first, items, n - 1, now);
      var fewer := SeededAll(db, first, items, n - 1, now);
      var seeded := SeededAll(db, first, items, n, now);
      forall key | key in seeded.rows ensures Integrity.FilledRow(key.kind, seeded.rows[key]) {
        assert key in fewer.rows ==> Integrity.FilledRow(key.kind, fewer.rows[key]);
      }
    }
  }

  /** Some decision is live and final. */
  predicate HasLiveFinal(db: Db) {
    exists key <- db.rows :: Final(db, key) && !db.rows[key].deleted
  }

  const NOTHING: Db := Db(map[], [], [])

  /** The start on an empty database, whatever its consistent items. */
  method StartWith(items: seq<Row>, now: nat) returns (db: Database)
    requires DistinctCodes(items) && forall i :: 0 <= i < |items| ==> SeedShape(items[i])
    ensures fresh(db) && db.Valid() && InOrder(db.Value())
    ensures db.Value() == SeededAll(NOTHING, 1, items, |items|, now) && db.audits == []
  {
    db := new Database();
    var error := SeedPriorityDecisions(db, items, now);
  }

  lemma SeedsFilled(now: nat)
    ensures Integrity.Filled(Boot(SeededAll(NOTHING, 1, SEEDS, |SEEDS|, now)))
  {
    AllFilled(NOTHING, 1, SEEDS, |SEEDS|, now);
  }

  lemma SecondIsFinal(db: Db, now: nat)
    ensures HasLiveFinal(SeededAll(db, 1, SEEDS, |SEEDS|, now))
  {
    var two := SeededAll(db, 1, SEEDS, 2, now);
    var three := SeededAll(db, 1, SEEDS, |SEEDS|, now);
    assert two == Seeded(SeededAll(db, 1, SEEDS, 1, now), Key(Decision, 2), SEEDS[1], now);
    assert three.rows[Key(Decision, 2)] == SEEDS[1];
  }

  /** The three seeds: one draft and two final decisions, each final one reviewed by
      someone other than its preparer. */
  lemma SeedsAreReviewed(i: nat, id: nat, now: nat)
    requires i < |SEEDS|
    ensures |SEEDS| == 3
    ensures SEEDS[i].code == ["PD-001", "PD-002", "PD-003"][i] && SEEDS[i].status == [Draft, Observe, Restrict][i]
    ensures SEEDS[i].preparedBy == "operator" && !SEEDS[i].deleted
    ensures SEEDS[i].fields.riskLevel == ["low", "medium", "high"][i]
    ensures SEEDS[i].fields.metricValue == [12.5, 25.0, 37.5][i]
    ensures var chain := SeedRevisions(SEEDS[i], id, now);
            && |chain| == (if i == 0 then 1 else 2)
            && chain[0].status == Draft && chain[0].actor == SEEDS[i].preparedBy
            && (i > 0 ==> chain[1].status == SEEDS[i].status && chain[1].actor != SEEDS[i].preparedBy)
            && forall r <- chain :: r.decision == id && r.evidence == SEEDS[i].fields.evidence != ""
  {
  }

  lemma SeedsFit()
    ensures DistinctCodes(SEEDS) && forall i :: 0 <= i < |SEEDS| ==> SeedShape(SEEDS[i])
  {
  }

  /** A first start: the seeded database satisfies what every result about runs asks
      of its start, and two of its decisions are final. */
  method FirstStart(now: nat) returns (db: Database)
    ensures fresh(db) && db.Valid() && InOrder(db.Value()) && db.audits == []
    ensures db.Value() == SeededAll(NOTHING, 1, SEEDS, |SEEDS|, now)
    ensures Integrity.Filled(Boot(db.Value())) && HasLiveFinal(db.Value())
  {
    SeedsFit();
    db := StartWith(SEEDS, now);
    SeedsFilled(now);
    SecondIsFinal(NOTHING, now);
  }

  /** The database after several lifetimes of the service; requests in flight at a
      stop are gone at the next start. */
  function AfterLifetimes(db: Db, lifetimes: seq<seq<Step>>): Db
    decreases |lifetimes|
  {
    if lifetimes == [] then db else AfterLifetimes(Run(Boot(db), lifetimes[0]).db, lifetimes[1..])
  }

  /** A decision that is final before the service starts is live and unchanged after
      any number of lifetimes, with any interleavings and any claims. */
  lemma {:induction false} BornFinalStays(db: Db, lifetimes: seq<seq<Step>>, key: Key)
    requires Good(db) && Final(db, key)
    ensures Good(AfterLifetimes(db, lifetimes)) && Finality.Kept(db, AfterLifetimes(db, lifetimes), key)
    decreases |lifetimes|
  {
    if lifetimes != [] {
      var next := Run(Boot(db), lifetimes[0]);
      Finality.UnreadFinalStays(Boot(db), lifetimes[0], key);
      Safety.RunSafe(Boot(db), lifetimes[0]);
      BornFinalStays(next.db, lifetimes[1..], key);
    }
  }

  /** Every later start finds a live decision, so it succeeds and changes nothing. */
  method Restart(db: Database, ghost origin: Db, ghost lifetimes: seq<seq<Step>>, now: nat)
    returns (error: Option<Error>)
    requires db.Valid() && Good(origin) && HasLiveFinal(origin) && db.Value() == AfterLifetimes(origin, lifetimes)
    modifies db
    ensures error == None && db.Valid() && db.Value() == old(db.Value())
  {
    ghost var key :| key in origin.rows && Final(origin, key) && !origin.rows[key].deleted;
    BornFinalStays(origin, lifetimes, key);
    assert key in db.rows && !db.rows[key].deleted;
    error := SeedPriorityDecisions(db, SEEDS, now);
  }
}
