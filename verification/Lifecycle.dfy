/** The four lifecycles: which aggregates exist, which statuses they take, and
    which moves the service allows.  A string outside the vocabulary is Unlisted. */
module Lifecycle {

  datatype Kind = Bridge | Inspection | Defect | Decision

  datatype Status =
    | Active | Restricted | Closed | Retired
    | Planned | Running | Review | Completed
    | New | Verified | Monitoring | Mitigated
    | Draft | Observe | Restrict | Urgent
    | Unlisted(text: string)

  type Graph = map<Status, set<Status>>

  /** The moves the services allow, one graph per aggregate. */
  function Transitions(kind: Kind): Graph {
    match kind
    case Bridge => map[
      Active := {Restricted, Closed},
      Restricted := {Closed, Retired, Active},
      Closed := {Retired, Restricted},
      Retired := {Closed}]
    case Inspection => map[
      Planned := {Running, Review},
      Running := {Review, Completed, Planned},
      Review := {Completed, Running},
      Completed := {Review}]
    case Defect => map[
      New := {Verified, Monitoring},
      Verified := {Monitoring, Mitigated, New},
      Monitoring := {Mitigated, Closed, Verified},
      Mitigated := {Closed, Monitoring},
      Closed := {Mitigated}]
    case Decision => map[
      Draft := {Observe, Restrict, Urgent},
      Observe := {},
      Restrict := {},
      Urgent := {}]
  }

  function InitialStatus(kind: Kind): Status {
    match kind
    case Bridge => Active
    case Inspection => Planned
    case Defect => New
    case Decision => Draft
  }

  predicate CanTransition(graph: Graph, from: Status, to: Status) {
    from in graph && to in graph[from]
  }

  /** A decision leaves draft for a final status and never returns: the only
      moves of its graph start in draft and end outside it. */
  lemma DecisionMoves(from: Status, to: Status)
    ensures CanTransition(Transitions(Decision), from, to) <==> from == Draft && to in {Observe, Restrict, Urgent}
  {
  }

  /** The statuses of a cyclic lifecycle in their natural order. */
  function Line(kind: Kind): seq<Status> {
    match kind
    case Bridge => [Active, Restricted, Closed, Retired]
    case Inspection => [Planned, Running, Review, Completed]
    case Defect => [New, Verified, Monitoring, Mitigated, Closed]
    case Decision => [Draft]
  }

  /** A move goes one or two places on, or one place back. */
  predicate Reaches(i: int, j: int) {
    j == i + 1 || j == i + 2 || j == i - 1
  }

  predicate MovesAt(kind: Kind, from: Status, to: Status, i: nat, j: nat) {
    && i < |Line(kind)| && j < |Line(kind)|
    && from == Line(kind)[i] && to == Line(kind)[j] && Reaches(i, j)
  }

  ghost predicate MovesOnLine(kind: Kind, from: Status, to: Status) {
    exists i, j :: MovesAt(kind, from, to, i, j)
  }

  lemma EdgeAt(kind: Kind, i: nat, j: nat)
    requires kind != Decision && i < |Line(kind)| && j < |Line(kind)|
    ensures CanTransition(Transitions(kind), Line(kind)[i], Line(kind)[j]) <==> Reaches(i, j)
  {
    match kind
    case Bridge =>
    case Inspection =>
    case Defect =>
  }

  function OnLine(kind: Kind): set<Status> {
    match kind
    case Bridge => {Active, Restricted, Closed, Retired}
    case Inspection => {Planned, Running, Review, Completed}
    case Defect => {New, Verified, Monitoring, Mitigated, Closed}
    case Decision => {Draft}
  }

  lemma LineHolds(kind: Kind, status: Status)
    ensures status in OnLine(kind) <==> status in Line(kind)
  {
  }

  lemma EdgesJoinLine(kind: Kind, from: Status, to: Status)
    requires kind != Decision && CanTransition(Transitions(kind), from, to)
    ensures from in OnLine(kind) && to in OnLine(kind)
  {
  }

  lemma EdgesAreOnLine(kind: Kind, from: Status, to: Status)
    requires kind != Decision && CanTransition(Transitions(kind), from, to)
    ensures MovesOnLine(kind, from, to)
  {
    EdgesJoinLine(kind, from, to);
    LineHolds(kind, from);
    LineHolds(kind, to);
    var line := Line(kind);
    var i :| 0 <= i < |line| && line[i] == from;
    var j :| 0 <= j < |line| && line[j] == to;
    EdgeAt(kind, i, j);
    assert MovesAt(kind, from, to, i, j);
  }

  /** The three cyclic graphs are one law over three orders: a move is allowed if and
      only if both statuses are in the order and it goes one or two places on, or one
      place back. */
  lemma GraphsFollowTheLine(kind: Kind, from: Status, to: Status)
    requires kind != Decision
    ensures CanTransition(Transitions(kind), from, to) <==> MovesOnLine(kind, from, to)
  {
    if CanTransition(Transitions(kind), from, to) {
      EdgesAreOnLine(kind, from, to);
    }
    if MovesOnLine(kind, from, to) {
      var i, j :| MovesAt(kind, from, to, i, j);
      EdgeAt(kind, i, j);
    }
  }

  /** Every row starts in the first status of its lifecycle. */
  lemma RowsStartTheLine(kind: Kind)
    ensures InitialStatus(kind) == Line(kind)[0]
  {
    match kind
    case Bridge =>
    case Inspection =>
    case Defect =>
    case Decision =>
  }

  /** One committed write keeps the status or follows an edge. */
  predicate Move(graph: Graph, from: Status, to: Status) {
    from == to || CanTransition(graph, from, to)
  }

  predicate Walk(graph: Graph, path: seq<Status>) {
    forall i :: 0 < i < |path| ==> Move(graph, path[i - 1], path[i])
  }

  lemma WalkExtends(graph: Graph, path: seq<Status>, next: Status)
    requires Walk(graph, path) && (path != [] ==> Move(graph, path[|path| - 1], next))
    ensures Walk(graph, path + [next])
  {
  }

  /** to can be reached from from along at most n edges. */
  ghost predicate Within(graph: Graph, from: Status, to: Status, n: nat)
    decreases n
  {
    from == to || (n > 0 && exists mid :: Within(graph, from, mid, n - 1) && CanTransition(graph, mid, to))
  }

  lemma {:induction false} WithinGrows(graph: Graph, from: Status, to: Status, n: nat)
    requires Within(graph, from, to, n)
    ensures Within(graph, from, to, n + 1)
    decreases n
  {
    if from != to {
      var mid :| Within(graph, from, mid, n - 1) && CanTransition(graph, mid, to);
      WithinGrows(graph, from, mid, n - 1);
    }
  }

  /** A walk with n steps stays inside the ball of radius n around its start. */
  lemma {:induction false} WalkStaysWithin(graph: Graph, path: seq<Status>)
    requires |path| > 0 && Walk(graph, path)
    ensures Within(graph, path[0], path[|path| - 1], |path| - 1)
  {
    var n := |path| - 1;
    if n > 0 {
      var shorter := path[..n];
      WalkStaysWithin(graph, shorter);
      assert Move(graph, path[n - 1], path[n]);
      if path[n] == path[n - 1] {
        WithinGrows(graph, path[0], path[n], n - 1);
      }
    }
  }

  /** Within n moves a status is at most 2n places further on and n places back. */
  lemma {:induction false} ReachIsBounded(kind: Kind, i: nat, j: nat, n: nat)
    requires kind != Decision && i < |Line(kind)| && j < |Line(kind)|
    requires Within(Transitions(kind), Line(kind)[i], Line(kind)[j], n)
    ensures j <= i + 2 * n && i <= j + n
    decreases n
  {
    if Line(kind)[i] == Line(kind)[j] {
      LineIsDistinct(kind, i, j);
    } else {
      var graph, from, to := Transitions(kind), Line(kind)[i], Line(kind)[j];
      var mid :| Within(graph, from, mid, n - 1) && CanTransition(graph, mid, to);
      EdgesAreOnLine(kind, mid, to);
      var k, l :| MovesAt(kind, mid, to, k, l);
      LineIsDistinct(kind, j, l);
      ReachIsBounded(kind, i, k, n - 1);
    }
  }

  lemma LineIsDistinct(kind: Kind, i: nat, j: nat)
    requires i < |Line(kind)| && j < |Line(kind)| && Line(kind)[i] == Line(kind)[j]
    ensures i == j
  {
    match kind
    case Bridge =>
    case Inspection =>
    case Defect =>
    case Decision =>
  }
}
