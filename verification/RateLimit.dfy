/** The per-minute rate limiter: an in-memory counter with lazy eviction behind a
    Redis counter with expiry.  Times are nanoseconds. */
module RateLimit {
  import opened Numbers

  const MINUTE: nat := 60_000_000_000
  const CLEANUP_THRESHOLD: nat := 512

  datatype Bucket = Bucket(window: nat, count: nat)

  type Local = map<string, Bucket>

  /** The start of the minute a moment lies in. */
  function Window(at: nat): nat {
    at - at % MINUTE
  }

  lemma WindowBounds(at: nat)
    ensures Window(at) <= at < Window(at) + MINUTE && Window(at) % MINUTE == 0
  {
    var q := at / MINUTE;
    assert at == q * MINUTE + at % MINUTE;
  }

  /** Once the map is large, buckets of earlier minutes go. */
  function Cleaned(local: Local, window: nat): Local {
    if |local| < CLEANUP_THRESHOLD then local
    else map key | key in local && local[key].window >= window :: local[key]
  }

  /** One call: the new map and the count it returns. */
  function Bumped(local: Local, key: string, now: nat): (Local, nat) {
    var window := Window(now);
    var kept := Cleaned(local, window);
    var count := 1 + if key in kept && kept[key].window == window then kept[key].count else 0;
    (kept[key := Bucket(window, count)], count)
  }

  datatype Hit = Hit(key: string, at: nat)

  /** The map after a log of calls. */
  function LocalAfter(hits: seq<Hit>): Local {
    if hits == [] then map[]
    else
      var last := hits[|hits| - 1];
      Bumped(LocalAfter(hits[..|hits| - 1]), last.key, last.at).0
  }

  /** The count returned to the last call of a log. */
  function LastCount(hits: seq<Hit>): nat
    requires hits != []
  {
    var last := hits[|hits| - 1];
    Bumped(LocalAfter(hits[..|hits| - 1]), last.key, last.at).1
  }

  /** The simple specification: how often a key was seen in a minute. */
  function Sightings(hits: seq<Hit>, key: string, window: nat): nat {
    if hits == [] then 0
    else
      var last := hits[|hits| - 1];
      Sightings(hits[..|hits| - 1], key, window) + if last.key == key && Window(last.at) == window then 1 else 0
  }

  predicate Chronological(hits: seq<Hit>) {
    forall i :: 0 < i < |hits| ==> hits[i - 1].at <= hits[i].at
  }

  /** The map knows everything about the given minute and nothing about later ones. */
  ghost predicate Tracks(local: Local, hits: seq<Hit>, window: nat) {
    && (forall key <- local :: local[key].window <= window && local[key].count > 0)
    && (forall key :: Sightings(hits, key, window)
                      == if key in local && local[key].window == window then local[key].count else 0)
  }

  lemma WindowMonotone(a: nat, b: nat)
    requires a <= b
    ensures Window(a) <= Window(b)
  {
    WindowBounds(a);
    WindowBounds(b);
    var q, p := Window(a) / MINUTE, Window(b) / MINUTE;
    assert Window(a) == q * MINUTE && Window(b) == p * MINUTE;
  }

  lemma {:induction false} NothingSeenYet(hits: seq<Hit>, key: string, window: nat)
    requires forall hit <- hits :: Window(hit.at) < window
    ensures Sightings(hits, key, window) == 0
  {
    if hits != [] {
      NothingSeenYet(hits[..|hits| - 1], key, window);
    }
  }

  lemma {:induction false} EarlierHits(hits: seq<Hit>)
    requires Chronological(hits) && hits != []
    ensures forall hit <- hits :: hit.at <= hits[|hits| - 1].at
  {
    var n := |hits| - 1;
    if n > 0 {
      EarlierHits(hits[..n]);
      assert hits == hits[..n] + [hits[n]];
    }
  }

  /** What the map tracked it still tracks when a later minute begins. */
  lemma TracksLater(local: Local, hits: seq<Hit>, window: nat, later: nat)
    requires Tracks(local, hits, window) && window <= later
    requires forall hit <- hits :: Window(hit.at) <= window
    ensures Tracks(local, hits, later)
  {
    if window < later {
      forall key ensures Sightings(hits, key, later) == 0 {
        NothingSeenYet(hits, key, later);
      }
    }
  }

  /** Eviction drops only buckets of past minutes, so it cannot be observed. */
  lemma CleaningUnobservable(local: Local, hits: seq<Hit>, window: nat)
    requires Tracks(local, hits, window)
    ensures Tracks(Cleaned(local, window), hits, window)
    ensures forall key <- local :: local[key].window == window ==> key in Cleaned(local, window)
  {
    var kept := Cleaned(local, window);
    forall key ensures (key in kept && kept[key].window == window) <==> (key in local && local[key].window == window) {
    }
  }

  /** One call keeps the map in step with the log. */
  lemma BumpTracks(local: Local, hits: seq<Hit>, hit: Hit)
    requires Tracks(local, hits, Window(hit.at))
    ensures var next := Bumped(local, hit.key, hit.at);
            && Tracks(next.0, hits + [hit], Window(hit.at))
            && next.1 == Sightings(hits + [hit], hit.key, Window(hit.at))
  {
    var window := Window(hit.at);
    var kept := Cleaned(local, window);
    CleaningUnobservable(local, hits, window);
    var next := Bumped(local, hit.key, hit.at).0;
    assert (hits + [hit])[..|hits|] == hits;
    forall key
      ensures Sightings(hits + [hit], key, window)
           == if key in next && next[key].window == window then next[key].count else 0
    {
      assert Sightings(hits, key, window) == if key in kept && kept[key].window == window then kept[key].count else 0;
    }
  }

  lemma {:induction false} LocalTracksLog(hits: seq<Hit>)
    requires Chronological(hits) && hits != []
    ensures Tracks(LocalAfter(hits), hits, Window(hits[|hits| - 1].at))
    ensures LastCount(hits) == Sightings(hits, hits[|hits| - 1].key, Window(hits[|hits| - 1].at))
  {
    var n := |hits| - 1;
    var before := hits[..n];
    var window := Window(hits[n].at);
    assert Tracks(LocalAfter(before), before, window) by {
      if n > 0 {
        LocalTracksLog(before);
        EarlierHits(before);
        WindowMonotone(before[n - 1].at, hits[n].at);
        forall hit | hit in before ensures Window(hit.at) <= Window(before[n - 1].at) {
          WindowMonotone(hit.at, before[n - 1].at);
        }
        TracksLater(LocalAfter(before), before, Window(before[n - 1].at), window);
      }
    }
    BumpTracks(LocalAfter(before), before, hits[n]);
    assert hits == before + [hits[n]];
  }

  /** Refinement: with a clock that never goes back, every call returns exactly the
      number of calls with its key in its minute so far, as the full log counts them;
      bucket resets and evictions cannot be observed. */
  lemma LimiterCountsTheLog(hits: seq<Hit>, i: nat)
    requires Chronological(hits) && i < |hits|
    ensures LastCount(hits[..i + 1]) == Sightings(hits[..i + 1], hits[i].key, Window(hits[i].at))
  {
    LocalTracksLog(hits[..i + 1]);
  }

  /** A minute is sixty seconds of a billion nanoseconds, aligned. */
  lemma WindowsAreMinutes(a: nat, b: nat)
    ensures Window(a) == Window(b) <==> a / 60_000_000_000 == b / 60_000_000_000
    ensures Window(a) == a / 60_000_000_000 * 60_000_000_000
  {
    assert a == a / MINUTE * MINUTE + a % MINUTE;
    assert b == b / MINUTE * MINUTE + b % MINUTE;
  }

  predicate Alike(a: Hit, b: Hit) {
    a.key == b.key && a.at / 60_000_000_000 == b.at / 60_000_000_000
  }

  /** The calls of a log that count together with a given call. */
  function Together(hits: seq<Hit>, hit: Hit): set<nat> {
    set i | 0 <= i < |hits| && Alike(hits[i], hit)
  }

  lemma {:induction false} SightingsAreCalls(hits: seq<Hit>, hit: Hit)
    ensures Sightings(hits, hit.key, Window(hit.at)) == |Together(hits, hit)|
  {
    if hits != [] {
      var n := |hits| - 1;
      SightingsAreCalls(hits[..n], hit);
      WindowsAreMinutes(hits[n].at, hit.at);
      assert Together(hits, hit) == Together(hits[..n], hit) + if Alike(hits[n], hit) then {n} else {};
    }
  }

  /** The same in plain terms: the count returned is the number of calls so far with the
      same key in the same sixty seconds of the clock. */
  lemma LimiterCountsCalls(hits: seq<Hit>, i: nat)
    requires Chronological(hits) && i < |hits|
    ensures LastCount(hits[..i + 1]) == |Together(hits[..i + 1], hits[i])|
  {
    LimiterCountsTheLog(hits, i);
    SightingsAreCalls(hits[..i + 1], hits[i]);
  }

  /** The last nanosecond of a minute still counts with its first, the next does not. */
  lemma MinuteEnds(key: string)
    ensures LastCount([Hit(key, 0), Hit(key, 59_999_999_999)]) == 2
    ensures LastCount([Hit(key, 0), Hit(key, 60_000_000_000)]) == 1
  {
    var inside, outside := [Hit(key, 0), Hit(key, 59_999_999_999)], [Hit(key, 0), Hit(key, 60_000_000_000)];
    LimiterCountsCalls(inside, 1);
    LimiterCountsCalls(outside, 1);
    assert inside[..2] == inside && outside[..2] == outside;
    assert Together(inside, inside[1]) == {0, 1};
    assert Together(outside, outside[1]) == {1};
  }

  // ---- memory

  /** The distinct keys of a minute. */
  function KeysSeen(hits: seq<Hit>, window: nat): set<string> {
    set hit | hit in hits && Window(hit.at) == window :: hit.key
  }

  lemma {:induction false} SeenMeansSighted(hits: seq<Hit>, key: string, window: nat)
    ensures Sightings(hits, key, window) > 0 <==> key in KeysSeen(hits, window)
  {
    if hits != [] {
      var n := |hits| - 1;
      SeenMeansSighted(hits[..n], key, window);
      assert hits == hits[..n] + [hits[n]];
    }
  }

  /** Memory: after every call the map holds at most max(512, keys of the current
      minute) buckets, and none of the current minute has been evicted. */
  lemma LimiterMemoryIsBounded(hits: seq<Hit>)
    requires Chronological(hits) && hits != []
    ensures var window := Window(hits[|hits| - 1].at);
            && (|LocalAfter(hits)| <= 512 || |LocalAfter(hits)| <= |KeysSeen(hits, window)|)
            && forall key <- KeysSeen(hits, window) ::
                 key in LocalAfter(hits) && LocalAfter(hits)[key] == Bucket(window, Sightings(hits, key, window))
  {
    var n := |hits| - 1;
    var window := Window(hits[n].at);
    var before := LocalAfter(hits[..n]);
    var local := LocalAfter(hits);
    LocalTracksLog(hits);
    forall key ensures Sightings(hits, key, window) > 0 <==> key in KeysSeen(hits, window) {
      SeenMeansSighted(hits, key, window);
    }
    if |before| < CLEANUP_THRESHOLD {
      assert local.Keys == before.Keys + {hits[n].key};
    } else {
      assert local.Keys <= KeysSeen(hits, window) by {
        forall key | key in local ensures key in KeysSeen(hits, window) {
          assert local[key].window == window;
        }
      }
      SubsetSize(local.Keys, KeysSeen(hits, window));
    }
    assert |local| == |local.Keys|;
  }

  lemma {:induction false} SubsetSize(a: set<string>, b: set<string>)
    requires a <= b
    ensures |a| <= |b|
  {
    if a != {} {
      var x :| x in a;
      SubsetSize(a - {x}, b - {x});
    }
  }

  // ---- admission with the local counter alone

  function Quota(limit: int): nat {
    if limit < 0 then 0 else limit
  }

  /** How many calls with this key in this minute were let through. */
  function Admitted(hits: seq<Hit>, limit: int, key: string, window: nat): nat {
    if hits == [] then 0
    else
      var last := hits[|hits| - 1];
      Admitted(hits[..|hits| - 1], limit, key, window)
      + if last.key == key && Window(last.at) == window && LastCount(hits) <= limit then 1 else 0
  }

  /** Exactly the first limit calls of a key in a minute are admitted. */
  lemma {:induction false} AdmitsExactlyTheLimit(hits: seq<Hit>, limit: int, key: string, window: nat)
    requires Chronological(hits)
    ensures Admitted(hits, limit, key, window) == Min(Quota(limit), Sightings(hits, key, window))
  {
    if hits != [] {
      AdmitsExactlyTheLimit(hits[..|hits| - 1], limit, key, window);
      LocalTracksLog(hits);
    }
  }

  /** How many calls with this key were let through in a stretch of time. */
  function AdmittedDuring(hits: seq<Hit>, limit: int, key: string, from: nat, until: nat): nat {
    if hits == [] then 0
    else
      var last := hits[|hits| - 1];
      AdmittedDuring(hits[..|hits| - 1], limit, key, from, until)
      + if last.key == key && from <= last.at < until && LastCount(hits) <= limit then 1 else 0
  }

  lemma {:induction false} StretchSpansTwoWindows(hits: seq<Hit>, limit: int, key: string, from: nat)
    ensures AdmittedDuring(hits, limit, key, from, from + MINUTE)
         <= Admitted(hits, limit, key, Window(from)) + Admitted(hits, limit, key, Window(from) + MINUTE)
  {
    if hits != [] {
      var last := hits[|hits| - 1];
      StretchSpansTwoWindows(hits[..|hits| - 1], limit, key, from);
      if from <= last.at < from + MINUTE {
        WindowBounds(from);
        WindowBounds(last.at);
        var p, q := Window(from) / MINUTE, Window(last.at) / MINUTE;
        assert Window(from) == p * MINUTE && Window(last.at) == q * MINUTE;
        assert q == p || q == p + 1;
      }
    }
  }

  /** No sixty seconds, wherever they start, admit more than twice the limit. */
  lemma AnyMinuteAdmitsTwiceTheLimit(hits: seq<Hit>, limit: int, key: string, from: nat)
    requires Chronological(hits)
    ensures AdmittedDuring(hits, limit, key, from, from + MINUTE) <= 2 * Quota(limit)
  {
    StretchSpansTwoWindows(hits, limit, key, from);
    AdmitsExactlyTheLimit(hits, limit, key, Window(from));
    AdmitsExactlyTheLimit(hits, limit, key, Window(from) + MINUTE);
  }

  // ---- Redis in front

  /** A Redis key names a minute and a client; its counter expires. */
  datatype Name = Name(minute: nat, key: string)
  datatype Counter = Counter(count: nat, expires: nat)
  type Counters = map<Name, Counter>

  /** MULTI INCR EXPIRE EXEC at one moment of the server. */
  function Incremented(counters: Counters, name: Name, at: nat): (Counters, nat) {
    var count := 1 + if name in counters && at < counters[name].expires then counters[name].count else 0;
    (counters[name := Counter(count, at + 2 * MINUTE)], count)
  }

  /** What happens at the two counters.  A remote increment may take effect and
      still be reported as an error; the request then also counts locally. */
  datatype Event =
    | Remote(key: string, keyedAt: nat, executedAt: nat, lost: bool)
    | Fallback(key: string, at: nat)

  function CountersAfter(events: seq<Event>): Counters {
    if events == [] then map[]
    else
      var before := CountersAfter(events[..|events| - 1]);
      match events[|events| - 1]
      case Remote(key, keyedAt, executedAt, _) => Incremented(before, Name(Window(keyedAt), key), executedAt).0
      case Fallback(_, _) => before
  }

  /** The calls of the local counter. */
  function LocalHits(events: seq<Event>): seq<Hit> {
    if events == [] then []
    else
      var before := LocalHits(events[..|events| - 1]);
      match events[|events| - 1]
      case Remote(_, _, _, _) => before
      case Fallback(key, at) => before + [Hit(key, at)]
  }

  /** The counter that never expires. */
  function RemoteSightings(events: seq<Event>, key: string, window: nat): nat {
    if events == [] then 0
    else
      var last := events[|events| - 1];
      RemoteSightings(events[..|events| - 1], key, window)
      + if last.Remote? && last.key == key && Window(last.keyedAt) == window then 1 else 0
  }

  /** The count the last event returned. */
  function EventCount(events: seq<Event>): nat
    requires events != []
  {
    var before := events[..|events| - 1];
    match events[|events| - 1]
    case Remote(key, keyedAt, executedAt, _) =>
      Incremented(CountersAfter(before), Name(Window(keyedAt), key), executedAt).1
    case Fallback(key, at) => Bumped(LocalAfter(LocalHits(before)), key, at).1
  }

  predicate Names(e: Event, name: Name) {
    e.Remote? && Name(Window(e.keyedAt), e.key) == name
  }

  /** The last command found its counter already expired. */
  predicate Lapses(events: seq<Event>, name: Name)
    requires events != []
  {
    var last := events[|events| - 1];
    var counters := CountersAfter(events[..|events| - 1]);
    Names(last, name) && name in counters && counters[name].expires <= last.executedAt
  }

  /** How often a counter was lost: a command on the name ran two minutes or more after
      the previous one. */
  function LapseCount(events: seq<Event>, name: Name): nat {
    if events == [] then 0 else LapseCount(events[..|events| - 1], name) + if Lapses(events, name) then 1 else 0
  }

  predicate NeverLapses(events: seq<Event>, name: Name) {
    forall n :: 0 < n <= |events| ==> !Lapses(events[..n], name)
  }

  lemma {:induction false} NoLapses(events: seq<Event>, name: Name)
    ensures NeverLapses(events, name) <==> LapseCount(events, name) == 0
  {
    if events != [] {
      var n := |events| - 1;
      NoLapses(events[..n], name);
      assert events[..|events|] == events;
      forall m | 0 < m <= n ensures events[..n][..m] == events[..m] {
      }
    }
  }

  /** Every command on the name returned its count among all commands on the name. */
  predicate CountsAll(events: seq<Event>, name: Name) {
    forall n :: 0 < n <= |events| && Names(events[n - 1], name) ==> CountsRight(events[..n])
  }

  predicate CountsRight(events: seq<Event>)
    requires events != [] && events[|events| - 1].Remote?
  {
    var last := events[|events| - 1];
    EventCount(events) == RemoteSightings(events, last.key, Window(last.keyedAt))
  }

  /** A counter exists once its name was used, and holds at most the true count. */
  lemma {:induction false} CounterBounds(events: seq<Event>, name: Name)
    ensures var counters := CountersAfter(events);
            var n := RemoteSightings(events, name.key, name.minute);
            && (name in counters <==> n > 0)
            && (name in counters ==> 1 <= counters[name].count <= n)
            && (name in counters && NeverLapses(events, name) ==> counters[name].count == n)
  {
    if events != [] {
      var n := |events| - 1;
      CounterBounds(events[..n], name);
      assert events[..|events|] == events;
      if NeverLapses(events, name) {
        NeverLapsedBefore(events, name, n);
        assert !Lapses(events[..|events|], name);
      }
    }
  }

  /** One command returns the true count if and only if its counter had not lapsed,
      provided none had before it. */
  lemma CountIsRight(events: seq<Event>, name: Name)
    requires events != [] && Names(events[|events| - 1], name) && NeverLapses(events[..|events| - 1], name)
    ensures CountsRight(events) <==> !Lapses(events, name)
  {
    CounterBounds(events[..|events| - 1], name);
  }

  lemma {:induction false} CountsUpTo(events: seq<Event>, name: Name, n: nat)
    requires n <= |events| && CountsAll(events, name)
    ensures NeverLapses(events[..n], name)
    decreases n
  {
    if n > 0 {
      CountsUpTo(events, name, n - 1);
      assert events[..n][..n - 1] == events[..n - 1];
      if Names(events[n - 1], name) {
        CountIsRight(events[..n], name);
      }
      forall m | 0 < m <= n ensures !Lapses(events[..n][..m], name) {
        assert events[..n][..m] == events[..m];
        assert m < n ==> events[..n - 1][..m] == events[..m];
      }
    }
  }

  lemma NeverLapsedBefore(events: seq<Event>, name: Name, n: nat)
    requires NeverLapses(events, name) && n <= |events|
    ensures NeverLapses(events[..n], name)
  {
    forall m | 0 < m <= n ensures !Lapses(events[..n][..m], name) {
      assert events[..n][..m] == events[..m];
    }
  }

  /** Expiry, exactly: all counts returned on a name are the counts of a counter that
      never expires if and only if no command on the name finds its counter expired. */
  lemma CountsAreExact(events: seq<Event>, name: Name)
    ensures CountsAll(events, name) <==> NeverLapses(events, name)
  {
    if NeverLapses(events, name) {
      forall n | 0 < n <= |events| && Names(events[n - 1], name) ensures CountsRight(events[..n]) {
        assert events[..n][..n - 1] == events[..n - 1];
        NeverLapsedBefore(events, name, n - 1);
        CountIsRight(events[..n], name);
      }
    }
    if CountsAll(events, name) {
      CountsUpTo(events, name, |events|);
      assert events[..|events|] == events;
    }
  }

  /** Each command runs less than a minute after its key was computed. */
  predicate Timely(events: seq<Event>) {
    forall e <- events :: e.Remote? ==> e.keyedAt <= e.executedAt < e.keyedAt + MINUTE
  }

  lemma {:induction false} CountersNeverLapse(events: seq<Event>, name: Name)
    requires Timely(events)
    ensures name in CountersAfter(events) ==> CountersAfter(events)[name].expires >= name.minute + 2 * MINUTE
    ensures LapseCount(events, name) == 0
  {
    if events != [] {
      var n := |events| - 1;
      CountersNeverLapse(events[..n], name);
      if events[n].Remote? {
        WindowBounds(events[n].keyedAt);
        assert events[n] in events;
      }
    }
  }

  /** The two-minute expiry of the minute-keyed counters loses no count as long as each
      command runs within a minute of computing its key. */
  lemma ExpiryUnobservable(events: seq<Event>, name: Name)
    requires Timely(events)
    ensures NeverLapses(events, name) && CountsAll(events, name)
  {
    CountersNeverLapse(events, name);
    NoLapses(events, name);
    CountsAreExact(events, name);
  }

  /** The minute an event is attributed to. */
  function MinuteOf(e: Event): nat {
    match e
    case Remote(_, keyedAt, _, _) => Window(keyedAt)
    case Fallback(_, at) => Window(at)
  }

  /** Requests let through, by either counter, on behalf of a key and minute. */
  function AdmittedBy(events: seq<Event>, remote: bool, limit: int, key: string, window: nat): nat {
    if events == [] then 0
    else
      var last := events[|events| - 1];
      AdmittedBy(events[..|events| - 1], remote, limit, key, window)
      + if last.Remote? == remote && !(last.Remote? && last.lost) && last.key == key && MinuteOf(last) == window
           && EventCount(events) <= limit then 1 else 0
  }

  /** One limit for each lapse. */
  function Allowance(events: seq<Event>, limit: int, name: Name): nat {
    if events == [] then 0
    else Allowance(events[..|events| - 1], limit, name) + if Lapses(events, name) then Quota(limit) else 0
  }

  lemma {:induction false} AllowanceCounts(events: seq<Event>, limit: int, name: Name)
    ensures Allowance(events, limit, name) == LapseCount(events, name) * Quota(limit)
  {
    if events != [] {
      var before := LapseCount(events[..|events| - 1], name);
      AllowanceCounts(events[..|events| - 1], limit, name);
      assert (before + 1) * Quota(limit) == before * Quota(limit) + Quota(limit);
    }
  }

  /** Each lapse lets at most one more limit through. */
  lemma {:induction false} RemoteAdmitsPerLapse(events: seq<Event>, limit: int, name: Name)
    ensures AdmittedBy(events, true, limit, name.key, name.minute)
         <= Allowance(events, limit, name)
            + if name in CountersAfter(events) then Min(Quota(limit), CountersAfter(events)[name].count) else 0
  {
    if events != [] {
      RemoteAdmitsPerLapse(events[..|events| - 1], limit, name);
      CounterBounds(events[..|events| - 1], name);
    }
  }

  predicate AllAnswered(events: seq<Event>) {
    forall e <- events :: e.Remote? ==> !e.lost
  }

  /** With a limit of one, the first command and each command after a lapse pass. */
  lemma {:induction false} EachLapseAdmits(events: seq<Event>, name: Name)
    requires AllAnswered(events)
    ensures AdmittedBy(events, true, 1, name.key, name.minute)
         == LapseCount(events, name) + if name in CountersAfter(events) then 1 else 0
  {
    if events != [] {
      EachLapseAdmits(events[..|events| - 1], name);
      CounterBounds(events[..|events| - 1], name);
      assert events[|events| - 1] in events;
    }
  }

  /** The Redis half admits at most the limit, whatever the limit, if and only if no
      counter of the name lapses -- provided no answer is lost, since a request whose
      answer is lost is not admitted there. */
  lemma RemoteLimitIsExact(events: seq<Event>, name: Name)
    requires AllAnswered(events)
    ensures (forall limit :: AdmittedBy(events, true, limit, name.key, name.minute) <= Quota(limit))
       <==> NeverLapses(events, name)
  {
    NoLapses(events, name);
    if NeverLapses(events, name) {
      forall limit ensures AdmittedBy(events, true, limit, name.key, name.minute) <= Quota(limit) {
        RemoteAdmitsPerLapse(events, limit, name);
        AllowanceCounts(events, limit, name);
      }
    } else {
      EachLapseAdmits(events, name);
      CounterBounds(events, name);
      LapsedWasUsed(events, name);
      assert AdmittedBy(events, true, 1, name.key, name.minute) > Quota(1);
    }
  }

  lemma {:induction false} LapsedWasUsed(events: seq<Event>, name: Name)
    requires LapseCount(events, name) > 0
    ensures name in CountersAfter(events)
  {
    if !Lapses(events, name) {
      LapsedWasUsed(events[..|events| - 1], name);
    }
  }

  lemma {:induction false} FallbackAdmitsAsLocal(events: seq<Event>, limit: int, key: string, window: nat)
    ensures AdmittedBy(events, false, limit, key, window) == Admitted(LocalHits(events), limit, key, window)
  {
    if events != [] {
      var n := |events| - 1;
      FallbackAdmitsAsLocal(events[..n], limit, key, window);
      if events[n].Fallback? {
        var before := LocalHits(events[..n]);
        assert LocalHits(events)[..|before|] == before;
      }
    }
  }

  /** Whatever pattern of Redis failures sends requests to the local counter, and
      however late commands run, at most twice the limit plus one limit for each lapse
      is admitted on behalf of one key and minute. */
  lemma FailoverAdmitsPerLapse(events: seq<Event>, limit: int, name: Name)
    requires Chronological(LocalHits(events))
    ensures AdmittedBy(events, true, limit, name.key, name.minute)
          + AdmittedBy(events, false, limit, name.key, name.minute)
         <= (2 + LapseCount(events, name)) * Quota(limit)
  {
    RemoteAdmitsPerLapse(events, limit, name);
    FallbackAdmitsAsLocal(events, limit, name.key, name.minute);
    AdmitsExactlyTheLimit(LocalHits(events), limit, name.key, name.minute);
    AllowanceCounts(events, limit, name);
    Doubled(LapseCount(events, name), Quota(limit));
  }

  lemma Doubled(lapses: nat, quota: nat)
    ensures (2 + lapses) * quota == 2 * quota + lapses * quota
  {
  }

  /** Hence at most twice the limit as long as no counter lapses. */
  lemma FailoverAdmitsTwiceTheLimit(events: seq<Event>, limit: int, name: Name)
    requires NeverLapses(events, name) && Chronological(LocalHits(events))
    ensures AdmittedBy(events, true, limit, name.key, name.minute)
          + AdmittedBy(events, false, limit, name.key, name.minute) <= 2 * Quota(limit)
  {
    NoLapses(events, name);
    FailoverAdmitsPerLapse(events, limit, name);
  }

  /** The bound fails without that: three commands for one minute that run at minutes 0,
      2 and 4 each find their counter expired, and a limit of one admits three. */
  lemma LateCommandsAdmitMore(key: string)
    ensures var events := [Remote(key, 0, 0, false), Remote(key, 0, 120_000_000_000, false),
                           Remote(key, 0, 240_000_000_000, false)];
            AdmittedBy(events, true, 1, key, 0) == 3 && LapseCount(events, Name(0, key)) == 2
  {
    var one := [Remote(key, 0, 0, false)];
    var two := one + [Remote(key, 0, 2 * MINUTE, false)];
    var three := two + [Remote(key, 0, 4 * MINUTE, false)];
    assert Window(0) == 0;
    assert one[..0] == [] && two[..1] == one && three[..2] == two;
    assert CountersAfter([]) == map[];
    assert CountersAfter(one) == map[Name(0, key) := Counter(1, 2 * MINUTE)];
    assert CountersAfter(two) == map[Name(0, key) := Counter(1, 4 * MINUTE)];
    EachLapseAdmits(three, Name(0, key));
    assert LapseCount(one, Name(0, key)) == 0;
    assert LapseCount(two, Name(0, key)) == 1;
    assert three
        == [Remote(key, 0, 0, false), Remote(key, 0, 2 * MINUTE, false), Remote(key, 0, 4 * MINUTE, false)];
  }

  /** Timely commands are enough. */
  lemma TimelyFailoverAdmitsTwiceTheLimit(events: seq<Event>, limit: int, name: Name)
    requires Timely(events) && Chronological(LocalHits(events))
    ensures AdmittedBy(events, true, limit, name.key, name.minute)
          + AdmittedBy(events, false, limit, name.key, name.minute) <= 2 * Quota(limit)
  {
    ExpiryUnobservable(events, name);
    FailoverAdmitsTwiceTheLimit(events, limit, name);
  }

  // ---- the limiter object

  /** How a Redis command can end: answered, never executed, or executed with the
      answer lost. */
  datatype Fault = Answered | Refused | AnswerLost

  /** The events one request causes. */
  function EventsOf(key: string, keyedAt: nat, executedAt: nat, localAt: nat, redis: bool, fault: Fault): seq<Event> {
    if !redis || fault == Refused then [Fallback(key, localAt)]
    else if fault == AnswerLost then [Remote(key, keyedAt, executedAt, true), Fallback(key, localAt)]
    else [Remote(key, keyedAt, executedAt, false)]
  }

  lemma Joined<T>(s: seq<T>, a: T, b: T)
    ensures s + [a] + [b] == s + [a, b]
  {
  }

  class Limiter {
    const limit: int
    const redis: bool
    var local: map<string, Bucket>
    var counters: map<Name, Counter>
    ghost var log: seq<Event>

    constructor (limit: int, redis: bool)
      ensures this.limit == limit && this.redis == redis && Valid() && log == []
    {
      this.limit, this.redis := limit, redis;
      local, counters, log := map[], map[], [];
    }

    /** The object's maps are those of its log. */
    ghost predicate Valid()
      reads this
    {
      local == LocalAfter(LocalHits(log)) && counters == CountersAfter(log)
    }

    method CleanupLocal(window: nat)
      modifies this`local
      ensures local == Cleaned(old(local), window)
    {
      if |local| < CLEANUP_THRESHOLD {
        return;
      }
      var rest := local.Keys;
      while rest != {}
        invariant rest <= local.Keys <= old(local).Keys
        invariant forall key <- local :: local[key] == old(local)[key]
        invariant forall key <- old(local) :: key in rest || (key in local <==> old(local)[key].window >= window)
        decreases rest
      {
        var key :| key in rest;
        if local[key].window < window {
          local := local - {key};
        }
        rest := rest - {key};
      }
    }

    method IncrementLocal(key: string, now: nat) returns (count: nat)
      requires Valid()
      modifies this
      ensures Valid() && log == old(log) + [Fallback(key, now)]
      ensures (local, count) == Bumped(old(local), key, now) && counters == old(counters)
      ensures count == EventCount(log)
    {
      FallbackLogged(log, key, now);
      var window := Window(now);
      CleanupLocal(window);
      var value := if key in local then local[key] else Bucket(0, 0);
      if key !in local || value.window != window {
        value := Bucket(window, 0);
      }
      value := value.(count := value.count + 1);
      local := local[key := value];
      count := value.count;
      log := log + [Fallback(key, now)];
    }

    /** The Redis half; a command that took effect is logged even if its answer is lost. */
    method Increment(key: string, keyedAt: nat, executedAt: nat, fault: Fault) returns (count: nat, failed: bool)
      requires Valid()
      modifies this
      ensures Valid() && local == old(local)
      ensures failed <==> !redis || fault != Answered
      ensures log
           == if redis && fault != Refused then old(log) + [Remote(key, keyedAt, executedAt, failed)] else old(log)
      ensures !failed ==> count == EventCount(log)
    {
      count, failed := 0, true;
      if !redis || fault == Refused {
        return;
      }
      failed := fault == AnswerLost;
      RemoteLogged(log, key, keyedAt, executedAt, failed);
      var done := Incremented(counters, Name(Window(keyedAt), key), executedAt);
      counters := done.0;
      if !failed {
        count := done.1;
      }
      log := log + [Remote(key, keyedAt, executedAt, failed)];
    }

    /** Redis first, the local counter when it fails. */
    method Count(key: string, keyedAt: nat, executedAt: nat, localAt: nat, fault: Fault) returns (count: nat)
      requires Valid()
      modifies this
      ensures Valid()
      ensures log == old(log) + EventsOf(key, keyedAt, executedAt, localAt, redis, fault)
      ensures count == EventCount(log)
    {
      var failed;
      ghost var was := log;
      count, failed := Increment(key, keyedAt, executedAt, fault);
      if failed {
        count := IncrementLocal(key, localAt);
        Joined(was, Remote(key, keyedAt, executedAt, true), Fallback(key, localAt));
      }
    }

    /** One request through the middleware: it is admitted if and only if the last
        event it causes returned a count within the limit. */
    method Handle(key: string, keyedAt: nat, executedAt: nat, localAt: nat, fault: Fault)
      returns (admitted: bool, remaining: nat)
      requires Valid()
      modifies this
      ensures Valid()
      ensures log == old(log) + EventsOf(key, keyedAt, executedAt, localAt, redis, fault)
      ensures redis && fault == Answered ==> log == old(log) + [Remote(key, keyedAt, executedAt, false)]
      ensures !redis || fault != Answered ==> log != [] && log[|log| - 1] == Fallback(key, localAt)
      ensures admitted <==> EventCount(log) <= limit
      ensures remaining == if EventCount(log) < limit then limit - EventCount(log) else 0
    {
      var count := Count(key, keyedAt, executedAt, localAt, fault);
      remaining := if limit - count < 0 then 0 else limit - count;
      admitted := !(count > limit);
    }
  }

  lemma RemoteLogged(log: seq<Event>, key: string, keyedAt: nat, executedAt: nat, lost: bool)
    ensures var next := log + [Remote(key, keyedAt, executedAt, lost)];
            var done := Incremented(CountersAfter(log), Name(Window(keyedAt), key), executedAt);
            && LocalHits(next) == LocalHits(log)
            && CountersAfter(next) == done.0 && EventCount(next) == done.1
  {
    assert (log + [Remote(key, keyedAt, executedAt, lost)])[..|log|] == log;
  }

  lemma FallbackLogged(log: seq<Event>, key: string, at: nat)
    ensures var next := log + [Fallback(key, at)];
            var done := Bumped(LocalAfter(LocalHits(log)), key, at);
            && CountersAfter(next) == CountersAfter(log)
            && LocalAfter(LocalHits(next)) == done.0 && EventCount(next) == done.1
  {
    assert (log + [Fallback(key, at)])[..|log|] == log;
    var hits := LocalHits(log);
    assert (hits + [Hit(key, at)])[..|hits|] == hits;
  }
}
