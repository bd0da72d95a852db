/** Optimistic locking pays off: consequences of the commit log that need no
    cooperation from clients. */
module Exclusivity {
  import opened Records
  import opened Machine
  import opened Evolution
  import opened Safety
  import opened Commits

  /** How many updates and transitions of a key have committed. */
  function Writes(history: seq<Commit>, key: Key): nat {
    if history == [] then 0
    else
      var last := history[|history| - 1];
      Writes(history[..|history| - 1], key) + (if last.key == key && last.call.Versioned() then 1 else 0)
  }

  function BirthVersion(origin: Db, key: Key): nat {
    if key in origin.rows then origin.rows[key].version else 1
  }

  predicate AllCounted(history: seq<Commit>) {
    forall i :: 0 <= i < |history| ==> Counted(history[i])
  }

  lemma {:induction false} VersionCountsWrites(origin: Db, history: seq<Commit>, key: Key)
    requires Linked(origin, history) && AllCounted(history)
    ensures match RowAfter(origin, history, key)
            case Some(row) => row.version == BirthVersion(origin, key) + Writes(history, key)
            case None => Writes(history, key) == 0 && key !in origin.rows
  {
    if history != [] {
      var n := |history| - 1;
      assert Counted(history[n]);
      VersionCountsWrites(origin, history[..n], key);
    }
  }

  lemma {:induction false} PrefixLinked(origin: Db, history: seq<Commit>, n: nat)
    requires Linked(origin, history) && n <= |history|
    ensures Linked(origin, history[..n])
  {
    if n < |history| {
      PrefixLinked(origin, history[..|history| - 1], n);
      assert history[..|history| - 1][..n] == history[..n];
    } else {
      assert history[..n] == history;
    }
  }

  lemma {:induction false} LaterVersions(origin: Db, history: seq<Commit>, i: nat)
    requires Linked(origin, history) && AllCounted(history) && i < |history|
    ensures RowAfter(origin, history, history[i].key).Some?
    ensures history[i].after.version <= RowAfter(origin, history, history[i].key).value.version
  {
    var n := |history| - 1;
    if i < n {
      assert Counted(history[n]);
      LaterVersions(origin, history[..n], i);
      assert history[..n][i] == history[i];
    }
  }

  /** Two writes of one key never claim the same version. */
  lemma ClaimsIncrease(origin: Db, history: seq<Commit>, i: nat, j: nat)
    requires Linked(origin, history) && AllCounted(history) && i < j < |history|
    requires history[i].key == history[j].key && history[i].call.Versioned() && history[j].call.Versioned()
    ensures history[i].call.op.expected < history[j].call.op.expected
  {
    PrefixLinked(origin, history, j + 1);
    PrefixLinked(origin, history, j);
    assert history[..j + 1][..j] == history[..j];
    assert Counted(history[i]) && Counted(history[j]);
    LaterVersions(origin, history[..j], i);
  }

  lemma BootRecorded(origin: Db)
    requires Good(origin)
    ensures Safe(Boot(origin)) && Recorded(origin, Boot(origin))
  {
  }

  /** Of any number of requests that carry the same key and ExpectedVersion, in any
      interleaving, at most one commits. */
  lemma AtMostOneWinner(origin: Db, steps: seq<Step>, a: nat, b: nat)
    requires Good(origin)
    requires var s := Run(Boot(origin), steps);
             && a in s.requests && b in s.requests
             && s.requests[a].commit.Some? && s.requests[b].commit.Some?
             && s.requests[a].key == s.requests[b].key
             && s.requests[a].call.Versioned() && s.requests[b].call.Versioned()
             && s.requests[a].call.op.expected == s.requests[b].call.op.expected
    ensures a == b
  {
    BootRecorded(origin);
    RunRecorded(origin, Boot(origin), steps);
    var s := Run(Boot(origin), steps);
    assert Placed(s, a) && Placed(s, b);
    var i, j := s.requests[a].commit.value, s.requests[b].commit.value;
    assert WrittenBy(s, i) && WrittenBy(s, j);
    if i < j {
      ClaimsIncrease(origin, s.history, i, j);
    } else if j < i {
      ClaimsIncrease(origin, s.history, j, i);
    }
  }

  /** The version of a row is its version at birth plus its committed writes. */
  lemma VersionIsWriteCount(origin: Db, steps: seq<Step>, key: Key)
    requires Good(origin)
    ensures var s := Run(Boot(origin), steps);
            key in s.db.rows ==> s.db.rows[key].version == BirthVersion(origin, key) + Writes(s.history, key)
  {
    BootRecorded(origin);
    RunRecorded(origin, Boot(origin), steps);
    var s := Run(Boot(origin), steps);
    VersionCountsWrites(origin, s.history, key);
    assert RowAfter(origin, s.history, key) == Lookup(s.db, key);
  }
}
