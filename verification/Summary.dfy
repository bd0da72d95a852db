/** The audit summary: five queries, one after the other, over a log that may grow
    between them. */
module Summary {
  import opened Records
  import Lifecycle

  /** What a group-by query returns for one label. */
  datatype Tally<L> = Tally(tag: L, count: nat)

  datatype AuditSummary<A, E> = AuditSummary(
    since: int, total: nat, transitions: nat, uniqueActors: nat, actions: seq<Tally<A>>, entityTypes: seq<Tally<E>>)

  function Occurrences<L(==)>(labels: seq<L>, tag: L): nat {
    multiset(labels)[tag]
  }

  /** Different labels, by falling count. */
  predicate Falling<L(==)>(tallies: seq<Tally<L>>) {
    forall i, j :: 0 <= i < j < |tallies| ==>
      tallies[i].tag != tallies[j].tag && tallies[i].count >= tallies[j].count
  }

  /** GROUP BY ... ORDER BY count DESC: every label once, with its count. */
  ghost predicate IsTally<L(!new)>(tallies: seq<Tally<L>>, labels: seq<L>) {
    && Falling(tallies)
    && (forall t <- tallies :: t.count == Occurrences(labels, t.tag) > 0)
    && (forall tag <- labels :: exists t <- tallies :: t.tag == tag)
  }

  function Sum<L>(tallies: seq<Tally<L>>): nat {
    if tallies == [] then 0 else Sum(tallies[..|tallies| - 1]) + tallies[|tallies| - 1].count
  }

  /** What a summary says of one label, 0 if it is not listed. */
  function CountOf<L(==)>(tallies: seq<Tally<L>>, tag: L): nat {
    if tallies == [] then 0
    else if tallies[|tallies| - 1].tag == tag then tallies[|tallies| - 1].count
    else CountOf(tallies[..|tallies| - 1], tag)
  }

  lemma {:induction false} SumIsTotal<L(!new)>(tallies: seq<Tally<L>>, labels: multiset<L>)
    requires forall i, j :: 0 <= i < j < |tallies| ==> tallies[i].tag != tallies[j].tag
    requires forall t <- tallies :: t.count == labels[t.tag]
    requires forall tag <- labels :: exists t <- tallies :: t.tag == tag
    ensures Sum(tallies) == |labels|
  {
    if tallies == [] {
      assert labels == multiset{};
    } else {
      var n := |tallies| - 1;
      var t := tallies[n];
      var rest := labels[t.tag := 0];
      assert tallies == tallies[..n] + [t];
      assert t in tallies;
      forall tag | tag in rest ensures exists u <- tallies[..n] :: u.tag == tag {
        assert tag in labels;
        var u :| u in tallies && u.tag == tag;
        assert u in tallies[..n];
      }
      forall u | u in tallies[..n] ensures u.count == rest[u.tag] {
        var i :| 0 <= i < n && tallies[i] == u;
        assert u in tallies && tallies[i].tag != t.tag;
      }
      SumIsTotal(tallies[..n], rest);
      LabelsWithout(labels, t.tag);
    }
  }

  lemma LabelsWithout<L>(labels: multiset<L>, tag: L)
    ensures |labels| == |labels[tag := 0]| + labels[tag]
  {
    var rest := labels[tag := 0];
    var all := multiset{}[tag := labels[tag]];
    assert labels == rest + all;
    assert |all| == labels[tag];
  }

  lemma {:induction false} CountOfIsOccurrences<L(!new)>(tallies: seq<Tally<L>>, labels: seq<L>, tag: L)
    requires IsTally(tallies, labels)
    ensures CountOf(tallies, tag) == Occurrences(labels, tag)
  {
    if exists t <- tallies :: t.tag == tag {
      var i :| 0 <= i < |tallies| && tallies[i].tag == tag;
      CountOfListed(tallies, i);
      assert tallies[i] in tallies;
    } else {
      CountOfUnlisted(tallies, tag);
      assert tag !in labels;
      assert tag !in multiset(labels);
    }
  }

  lemma {:induction false} CountOfListed<L>(tallies: seq<Tally<L>>, i: nat)
    requires i < |tallies| && forall j, k :: 0 <= j < k < |tallies| ==> tallies[j].tag != tallies[k].tag
    ensures CountOf(tallies, tallies[i].tag) == tallies[i].count
  {
    if i < |tallies| - 1 {
      CountOfListed(tallies[..|tallies| - 1], i);
    }
  }

  lemma {:induction false} CountOfUnlisted<L>(tallies: seq<Tally<L>>, tag: L)
    requires forall t <- tallies :: t.tag != tag
    ensures CountOf(tallies, tag) == 0
  {
    if tallies != [] {
      CountOfUnlisted(tallies[..|tallies| - 1], tag);
    }
  }

  // ---- the log itself

  /** What a count may ask of a log. */
  datatype Question = Anything | OfAction(action: Action) | OnKind(kind: Lifecycle.Kind)

  /** The entry is from since on and is asked for. */
  predicate Asked(e: AuditEntry, since: int, question: Question) {
    && since <= e.createdAt
    && match question
       case Anything => true
       case OfAction(action) => e.action == action
       case OnKind(kind) => e.key.kind == kind
  }

  function HowMany(audits: seq<AuditEntry>, since: int, question: Question): nat {
    if audits == [] then 0
    else
      var n := |audits| - 1;
      HowMany(audits[..n], since, question) + if Asked(audits[n], since, question) then 1 else 0
  }

  // ---- the queries

  /** WHERE created_at >= since. */
  function Recent(audits: seq<AuditEntry>, since: int): seq<AuditEntry> {
    if audits == [] then []
    else
      var last := audits[|audits| - 1];
      var earlier := Recent(audits[..|audits| - 1], since);
      if last.createdAt >= since then earlier + [last] else earlier
  }

  function Actions(entries: seq<AuditEntry>): seq<Action> {
    seq(|entries|, i requires 0 <= i < |entries| => entries[i].action)
  }

  function Kinds(entries: seq<AuditEntry>): seq<Lifecycle.Kind> {
    seq(|entries|, i requires 0 <= i < |entries| => entries[i].key.kind)
  }

  function Actors(entries: seq<AuditEntry>): set<string> {
    set e | e in entries :: e.actor
  }

  function TransitionCount(entries: seq<AuditEntry>): nat {
    Occurrences(Actions(entries), Transitioned)
  }

  lemma {:induction false} RecentConcat(a: seq<AuditEntry>, b: seq<AuditEntry>, since: int)
    ensures Recent(a + b, since) == Recent(a, since) + Recent(b, since)
  {
    if b == [] {
      assert a + b == a;
    } else {
      assert (a + b)[..|a + b| - 1] == a + b[..|b| - 1];
      RecentConcat(a, b[..|b| - 1], since);
    }
  }

  /** Recent is the filter by time: every entry from since on as often as the log has
      it, and no other. */
  lemma {:induction false} RecentIsFromSinceOn(audits: seq<AuditEntry>, since: int, e: AuditEntry)
    ensures multiset(Recent(audits, since))[e] == if e.createdAt >= since then multiset(audits)[e] else 0
  {
    if audits != [] {
      var n := |audits| - 1;
      RecentIsFromSinceOn(audits[..n], since, e);
      assert audits == audits[..n] + [audits[n]];
    }
  }

  lemma LabelsGrow(entries: seq<AuditEntry>, e: AuditEntry, action: Action, kind: Lifecycle.Kind)
    ensures Occurrences(Actions(entries + [e]), action)
         == Occurrences(Actions(entries), action) + if e.action == action then 1 else 0
    ensures Occurrences(Kinds(entries + [e]), kind)
         == Occurrences(Kinds(entries), kind) + if e.key.kind == kind then 1 else 0
  {
    assert Actions(entries + [e]) == Actions(entries) + [e.action];
    assert Kinds(entries + [e]) == Kinds(entries) + [e.key.kind];
  }

  /** The labels of the recent entries occur as often as the log itself says. */
  lemma {:induction false} RecentCounts(audits: seq<AuditEntry>, since: int, action: Action, kind: Lifecycle.Kind)
    ensures |Recent(audits, since)| == HowMany(audits, since, Anything)
    ensures Occurrences(Actions(Recent(audits, since)), action) == HowMany(audits, since, OfAction(action))
    ensures Occurrences(Kinds(Recent(audits, since)), kind) == HowMany(audits, since, OnKind(kind))
  {
    if audits != [] {
      var n := |audits| - 1;
      RecentCounts(audits[..n], since, action, kind);
      LabelsGrow(Recent(audits[..n], since), audits[n], action, kind);
    }
  }

  lemma RecentActors(audits: seq<AuditEntry>, since: int)
    ensures Actors(Recent(audits, since)) == set e | e in audits && e.createdAt >= since :: e.actor
  {
    forall e ensures e in Recent(audits, since) <==> e in audits && e.createdAt >= since {
      RecentIsFromSinceOn(audits, since, e);
      assert e in Recent(audits, since) <==> e in multiset(Recent(audits, since));
      assert e in audits <==> e in multiset(audits);
    }
  }

  /** Some labels are tallied, the rest still wait, none of them more frequent. */
  ghost predicate TalliedSoFar<L(!new)>(tallies: seq<Tally<L>>, all: multiset<L>, rest: multiset<L>) {
    && Falling(tallies)
    && (forall i :: 0 <= i < |tallies| ==> tallies[i].count == all[tallies[i].tag] > 0 && tallies[i].tag !in rest)
    && (tallies != [] ==> forall tag <- rest :: rest[tag] <= tallies[|tallies| - 1].count)
    && (forall tag <- rest :: rest[tag] == all[tag])
    && (forall tag <- all :: tag in rest || Tallied(tallies, tag))
  }

  ghost predicate Tallied<L(!new)>(tallies: seq<Tally<L>>, tag: L) {
    exists i :: 0 <= i < |tallies| && tallies[i].tag == tag
  }

  lemma FallsOn<L(!new)>(tallies: seq<Tally<L>>, last: Tally<L>)
    requires Falling(tallies)
    requires forall i :: 0 <= i < |tallies| ==> tallies[i].tag != last.tag && tallies[i].count >= last.count
    ensures Falling(tallies + [last])
  {
  }

  lemma TallyNext<L(!new)>(tallies: seq<Tally<L>>, all: multiset<L>, rest: multiset<L>, top: L)
    requires TalliedSoFar(tallies, all, rest) && top in rest && forall tag <- rest :: rest[tag] <= rest[top]
    ensures TalliedSoFar(tallies + [Tally(top, rest[top])], all, rest[top := 0])
  {
    var longer := tallies + [Tally(top, rest[top])];
    assert Falling(longer) by {
      assert forall i :: 0 <= i < |tallies| ==> tallies[i].count >= tallies[|tallies| - 1].count;
      FallsOn(tallies, Tally(top, rest[top]));
    }
    forall tag | tag in all ensures tag in rest[top := 0] || Tallied(longer, tag) {
      if tag == top {
        assert longer[|tallies|].tag == tag;
      } else if tag !in rest {
        var i :| 0 <= i < |tallies| && tallies[i].tag == tag;
        assert longer[i].tag == tag;
      }
    }
  }

  /** The grouping query: labels by falling frequency. */
  method GroupLabels<L(==, !new)>(labels: seq<L>) returns (tallies: seq<Tally<L>>)
    ensures IsTally(tallies, labels)
  {
    tallies := [];
    var rest := multiset(labels);
    while rest != multiset{}
      invariant TalliedSoFar(tallies, multiset(labels), rest)
      decreases |rest|
    {
      var top := MostFrequent(rest);
      TallyNext(tallies, multiset(labels), rest, top);
      LabelsWithout(rest, top);
      tallies := tallies + [Tally(top, rest[top])];
      rest := rest[top := 0];
    }
    forall tag | tag in labels ensures exists t <- tallies :: t.tag == tag {
      assert tag in multiset(labels) && Tallied(tallies, tag);
      var i :| 0 <= i < |tallies| && tallies[i].tag == tag;
      assert tallies[i] in tallies;
    }
  }

  method MostFrequent<L(==, !new)>(labels: multiset<L>) returns (top: L)
    requires labels != multiset{}
    ensures top in labels && forall tag :: labels[tag] <= labels[top]
  {
    top :| top in labels;
    var rest := labels[top := 0];
    while rest != multiset{}
      invariant top in labels && rest[top] == 0
      invariant forall tag :: rest[tag] == 0 || rest[tag] == labels[tag]
      invariant forall tag :: rest[tag] == 0 ==> labels[tag] <= labels[top]
      decreases |rest|
    {
      var next :| next in rest;
      LabelsWithout(rest, next);
      if labels[next] > labels[top] {
        top := next;
      }
      rest := rest[next := 0];
    }
  }

  const HOUR: int := 3_600_000_000_000

  /** The audit table.  arrivals[i] is what other requests append before query i + 1. */
  class AuditTable {
    var audits: seq<AuditEntry>

    constructor ()
      ensures audits == []
    {
      audits := [];
    }

    method Append(entries: seq<AuditEntry>)
      modifies this
      ensures audits == old(audits) + entries
    {
      audits := audits + entries;
    }

    /** The window of the request in nanoseconds, clamped: under an hour means a day,
        and ninety days is the most. */
    method ClampWindow(requested: int) returns (window: int)
      ensures 3_600_000_000_000 <= window <= 7_776_000_000_000_000
      ensures 3_600_000_000_000 <= requested <= 7_776_000_000_000_000 <==> window == requested
      ensures requested < 3_600_000_000_000 ==> window == 86_400_000_000_000
      ensures requested > 7_776_000_000_000_000 ==> window == 7_776_000_000_000_000
    {
      window := requested;
      if window < HOUR {
        window := 24 * HOUR;
      }
      if window > 90 * 24 * HOUR {
        window := 90 * 24 * HOUR;
      }
    }

    method SummarizeAudits(since: int, arrivals: seq<seq<AuditEntry>>)
      returns (summary: AuditSummary<Action, Lifecycle.Kind>)
      requires |arrivals| == 4
      modifies this
      ensures audits == old(audits) + arrivals[0] + arrivals[1] + arrivals[2] + arrivals[3]
      ensures Summarizes(summary, since, old(audits), arrivals)
      ensures CountsTheLog(summary, since, old(audits), arrivals)
    {
      var entries := Recent(audits, since);
      var total := |entries|;
      Append(arrivals[0]);
      entries := Recent(audits, since);
      var transitions := TransitionCount(entries);
      Append(arrivals[1]);
      entries := Recent(audits, since);
      var actors := Actors(entries);
      Append(arrivals[2]);
      entries := Recent(audits, since);
      var actions := GroupLabels(Actions(entries));
      Append(arrivals[3]);
      entries := Recent(audits, since);
      var kinds := GroupLabels(Kinds(entries));
      summary := AuditSummary(since, total, transitions, |actors|, actions, kinds);
      SummaryCountsTheLog(summary, since, old(audits), arrivals);
    }
  }

  /** Each field reports the log as its own query saw it. */
  ghost predicate Summarizes(summary: AuditSummary<Action, Lifecycle.Kind>, since: int, audits: seq<AuditEntry>,
                             arrivals: seq<seq<AuditEntry>>)
    requires |arrivals| == 4
  {
    && summary.since == since
    && summary.total == |Recent(audits, since)|
    && summary.transitions == TransitionCount(Recent(audits + arrivals[0], since))
    && summary.uniqueActors == |Actors(Recent(audits + arrivals[0] + arrivals[1], since))|
    && IsTally(summary.actions, Actions(Recent(audits + arrivals[0] + arrivals[1] + arrivals[2], since)))
    && IsTally(summary.entityTypes,
               Kinds(Recent(audits + arrivals[0] + arrivals[1] + arrivals[2] + arrivals[3], since)))
  }

  /** The same as counts over the log, entry by entry: how many entries are from since
      on, how many of these are transitions, who made them, how many there are of each
      action and of each kind -- each at the moment of its own query. */
  ghost predicate CountsTheLog(summary: AuditSummary<Action, Lifecycle.Kind>, since: int, audits: seq<AuditEntry>,
                               arrivals: seq<seq<AuditEntry>>)
    requires |arrivals| == 4
  {
    var second := audits + arrivals[0];
    var third := second + arrivals[1];
    var fourth := third + arrivals[2];
    var fifth := fourth + arrivals[3];
    && summary.total == HowMany(audits, since, Anything)
    && summary.transitions == HowMany(second, since, OfAction(Transitioned))
    && summary.uniqueActors == |set e | e in third && e.createdAt >= since :: e.actor|
    && (forall action :: CountOf(summary.actions, action) == HowMany(fourth, since, OfAction(action)))
    && (forall kind :: CountOf(summary.entityTypes, kind) == HowMany(fifth, since, OnKind(kind)))
    && (forall t <- summary.actions :: t.count > 0) && (forall t <- summary.entityTypes :: t.count > 0)
    && (forall i, j :: 0 <= i < j < |summary.actions| ==>
          summary.actions[i].tag != summary.actions[j].tag && summary.actions[i].count >= summary.actions[j].count)
    && (forall i, j :: 0 <= i < j < |summary.entityTypes| ==>
          && summary.entityTypes[i].tag != summary.entityTypes[j].tag
          && summary.entityTypes[i].count >= summary.entityTypes[j].count)
  }

  lemma SummaryCountsTheLog(summary: AuditSummary<Action, Lifecycle.Kind>, since: int, audits: seq<AuditEntry>,
                            arrivals: seq<seq<AuditEntry>>)
    requires |arrivals| == 4 && Summarizes(summary, since, audits, arrivals)
    ensures CountsTheLog(summary, since, audits, arrivals)
  {
    var second := audits + arrivals[0];
    var third := second + arrivals[1];
    var fourth := third + arrivals[2];
    var fifth := fourth + arrivals[3];
    RecentCounts(audits, since, Transitioned, Lifecycle.Decision);
    RecentCounts(second, since, Transitioned, Lifecycle.Decision);
    RecentActors(third, since);
    forall action ensures CountOf(summary.actions, action) == HowMany(fourth, since, OfAction(action)) {
      RecentCounts(fourth, since, action, Lifecycle.Decision);
      CountOfIsOccurrences(summary.actions, Actions(Recent(fourth, since)), action);
    }
    forall kind ensures CountOf(summary.entityTypes, kind) == HowMany(fifth, since, OnKind(kind)) {
      RecentCounts(fifth, since, Transitioned, kind);
      CountOfIsOccurrences(summary.entityTypes, Kinds(Recent(fifth, since)), kind);
    }
  }

  lemma TallySumsToLength<L(!new)>(tallies: seq<Tally<L>>, labels: seq<L>)
    requires IsTally(tallies, labels)
    ensures Sum(tallies) == |labels|
  {
    forall tag | tag in multiset(labels) ensures exists t <- tallies :: t.tag == tag {
      assert tag in labels;
    }
    SumIsTotal(tallies, multiset(labels));
  }

  lemma TransitionsConcat(a: seq<AuditEntry>, b: seq<AuditEntry>)
    ensures TransitionCount(a + b) == TransitionCount(a) + TransitionCount(b)
  {
    assert Actions(a + b) == Actions(a) + Actions(b);
  }

  lemma {:induction false} ActorsAreFew(entries: seq<AuditEntry>)
    ensures |Actors(entries)| <= |entries|
  {
    if entries == [] {
      assert Actors(entries) == {};
    } else {
      var n := |entries| - 1;
      ActorsAreFew(entries[..n]);
      assert entries == entries[..n] + [entries[n]];
      assert Actors(entries) == Actors(entries[..n]) + {entries[n].actor};
    }
  }

  /** Skew: the fields of one summary can disagree only in one direction, and they
      agree exactly when nothing recent arrived between the queries they compare. */
  lemma SummarySkew(summary: AuditSummary<Action, Lifecycle.Kind>, since: int, audits: seq<AuditEntry>,
                    arrivals: seq<seq<AuditEntry>>)
    requires |arrivals| == 4 && Summarizes(summary, since, audits, arrivals)
    ensures summary.total <= Sum(summary.actions) <= Sum(summary.entityTypes)
    ensures summary.total == Sum(summary.actions) <==> Recent(arrivals[0] + arrivals[1] + arrivals[2], since) == []
    ensures Sum(summary.actions) == Sum(summary.entityTypes) <==> Recent(arrivals[3], since) == []
    ensures summary.transitions <= CountOf(summary.actions, Transitioned)
    ensures summary.transitions == CountOf(summary.actions, Transitioned) <==>
            TransitionCount(Recent(arrivals[1] + arrivals[2], since)) == 0
    ensures summary.uniqueActors <= Sum(summary.actions)
  {
    var a, b, c, d := arrivals[0], arrivals[1], arrivals[2], arrivals[3];
    RecentConcat(audits, a, since);
    RecentConcat(audits + a, b, since);
    RecentConcat(audits + a + b, c, since);
    RecentConcat(audits + a + b + c, d, since);
    RecentConcat(a, b, since);
    RecentConcat(a + b, c, since);
    TallySumsToLength(summary.actions, Actions(Recent(audits + a + b + c, since)));
    TallySumsToLength(summary.entityTypes, Kinds(Recent(audits + a + b + c + d, since)));
    ActorsAreFew(Recent(audits + a + b, since));
    TransitionSkew(summary, since, audits, arrivals);
  }

  lemma TransitionSkew(summary: AuditSummary<Action, Lifecycle.Kind>, since: int, audits: seq<AuditEntry>,
                       arrivals: seq<seq<AuditEntry>>)
    requires |arrivals| == 4 && Summarizes(summary, since, audits, arrivals)
    ensures CountOf(summary.actions, Transitioned)
         == summary.transitions + TransitionCount(Recent(arrivals[1] + arrivals[2], since))
  {
    var before := audits + arrivals[0];
    var between := arrivals[1] + arrivals[2];
    assert audits + arrivals[0] + arrivals[1] + arrivals[2] == before + between;
    CountOfIsOccurrences(summary.actions, Actions(Recent(before + between, since)), Transitioned);
    RecentConcat(before, between, since);
    TransitionsConcat(Recent(before, since), Recent(between, since));
  }
}
