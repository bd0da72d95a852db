/** The query layer: paging and counting over one table at one moment. */
module Listing {
  import opened Lifecycle
  import opened Numbers
  import opened Records
  import opened Machine
  import opened Commits
  import opened Exclusivity
  import Discipline
  import Evolution
  import Fidelity

  /** What a list request filters by: LIKE on code and name, and a status. */
  datatype Filter = Filter(like: (string, string) -> bool, status: Option<Status>)

  type Rows = map<Key, Row>

  predicate Matches(rows: Rows, kind: Kind, filter: Filter, key: Key)
    requires key in rows
  {
    && key.kind == kind && !rows[key].deleted
    && filter.like(rows[key].code, rows[key].fields.name)
    && (filter.status.Some? ==> rows[key].status == filter.status.value)
  }

  function Matching(rows: Rows, kind: Kind, filter: Filter): set<Key> {
    set key | key in rows && Matches(rows, kind, filter, key)
  }

  /** ORDER BY updated_at DESC, id DESC. */
  predicate Before(rows: Rows, a: Key, b: Key)
    requires a in rows && b in rows
  {
    rows[a].updatedAt > rows[b].updatedAt || (rows[a].updatedAt == rows[b].updatedAt && a.id > b.id)
  }

  predicate Ordered(rows: Rows, keys: seq<Key>)
    requires forall key <- keys :: key in rows
  {
    forall i, j :: 0 <= i < j < |keys| ==> Before(rows, keys[i], keys[j])
  }

  function InsertKey(rows: Rows, key: Key, keys: seq<Key>): seq<Key>
    requires key in rows && forall k <- keys :: k in rows
  {
    if keys == [] || Before(rows, key, keys[0]) then [key] + keys
    else [keys[0]] + InsertKey(rows, key, keys[1..])
  }

  lemma {:induction false} InsertKeyKeepsOrder(rows: Rows, key: Key, keys: seq<Key>)
    requires key in rows && (forall k <- keys :: k in rows && k.kind == key.kind && k != key) && Ordered(rows, keys)
    ensures var longer := InsertKey(rows, key, keys);
            && (forall k :: k in longer <==> k in keys || k == key)
            && Ordered(rows, longer)
            && |longer| == |keys| + 1
  {
    if keys != [] && !Before(rows, key, keys[0]) {
      InsertKeyKeepsOrder(rows, key, keys[1..]);
      assert keys == [keys[0]] + keys[1..];
      var rest := InsertKey(rows, key, keys[1..]);
      forall j | 0 <= j < |rest| ensures Before(rows, keys[0], rest[j]) {
        assert rest[j] in rest;
        if rest[j] != key {
          var i :| 0 <= i < |keys[1..]| && keys[1..][i] == rest[j];
          assert keys[i + 1] == rest[j];
        }
      }
    }
  }

  /** The whole result of a list query: every matching key once, in order. */
  predicate IsListing(rows: Rows, keys: set<Key>, listing: seq<Key>) {
    && (forall key <- listing :: key in rows)
    && (forall key <- listing :: key in keys)
    && (forall key <- keys :: key in listing)
    && Ordered(rows, listing)
  }

  predicate OneTable(rows: Rows, kind: Kind, keys: set<Key>) {
    keys <= rows.Keys && forall key <- keys :: key.kind == kind
  }

  /** The order by (updated_at, id) is strict and total on one table. */
  lemma OrderIsStrictAndTotal(rows: Rows, a: Key, b: Key, c: Key)
    requires a in rows && b in rows && c in rows && a.kind == b.kind
    ensures !Before(rows, a, a)
    ensures a != b ==> (Before(rows, a, b) <==> !Before(rows, b, a))
    ensures Before(rows, a, b) && Before(rows, b, c) ==> Before(rows, a, c)
  {
  }

  /** The listing said plainly: it holds exactly the live rows of the kind that pass the
      search and have the requested status if one is given, the last updated first and,
      of rows updated at the same time, the higher id first. */
  lemma ListingIsNewestFirst(rows: Rows, kind: Kind, filter: Filter, listing: seq<Key>)
    requires IsListing(rows, Matching(rows, kind, filter), listing)
    ensures forall key :: key in listing <==>
              && key in rows && key.kind == kind && !rows[key].deleted
              && filter.like(rows[key].code, rows[key].fields.name)
              && (filter.status == None || filter.status == Some(rows[key].status))
    ensures forall i, j :: 0 <= i < j < |listing| ==>
              && listing[i] in rows && listing[j] in rows
              && rows[listing[i]].updatedAt >= rows[listing[j]].updatedAt
              && (rows[listing[i]].updatedAt == rows[listing[j]].updatedAt ==> listing[i].id > listing[j].id)
  {
    forall i, j | 0 <= i < j < |listing|
      ensures && listing[i] in rows && listing[j] in rows
              && rows[listing[i]].updatedAt >= rows[listing[j]].updatedAt
              && (rows[listing[i]].updatedAt == rows[listing[j]].updatedAt ==> listing[i].id > listing[j].id)
    {
      assert listing[i] in listing && listing[j] in listing;
      assert Before(rows, listing[i], listing[j]);
    }
  }

  /** Hence a list query has exactly one possible result, however it is computed. */
  lemma {:induction false} ListingIsUnique(rows: Rows, kind: Kind, keys: set<Key>, a: seq<Key>, b: seq<Key>)
    requires OneTable(rows, kind, keys) && IsListing(rows, keys, a) && IsListing(rows, keys, b)
    ensures a == b
    decreases |a|
  {
    if a == [] {
      ListingSize(rows, keys, a);
      ListingSize(rows, keys, b);
    } else {
      assert a[0] in b && (|b| > 0 ==> b[0] in a);
      var i :| 0 <= i < |a| && a[i] == b[0];
      var j :| 0 <= j < |b| && b[j] == a[0];
      assert i == 0;
      TailListing(rows, keys, a);
      TailListing(rows, keys, b);
      ListingIsUnique(rows, kind, keys - {a[0]}, a[1..], b[1..]);
    }
  }

  lemma TailListing(rows: Rows, keys: set<Key>, listing: seq<Key>)
    requires IsListing(rows, keys, listing) && listing != []
    ensures IsListing(rows, keys - {listing[0]}, listing[1..])
  {
    var tail := listing[1..];
    forall key ensures key in tail <==> key in keys - {listing[0]} {
      if key in tail {
        var i :| 0 <= i < |tail| && tail[i] == key;
        assert listing[i + 1] == key;
      }
      if key in keys && key != listing[0] {
        var i :| 0 <= i < |listing| && listing[i] == key;
        assert tail[i - 1] == key;
      }
    }
  }

  lemma {:induction false} ListingSize(rows: Rows, keys: set<Key>, listing: seq<Key>)
    requires IsListing(rows, keys, listing)
    ensures |listing| == |keys|
    decreases |listing|
  {
    if listing == [] {
      assert forall key :: key in keys ==> key in listing;
      assert keys == {};
    } else {
      assert listing[0] in keys;
      TailListing(rows, keys, listing);
      ListingSize(rows, keys - {listing[0]}, listing[1..]);
    }
  }

  /** The sort of the list query, one key at a time. */
  method SortKeys(rows: Rows, kind: Kind, keys: set<Key>) returns (listing: seq<Key>)
    requires OneTable(rows, kind, keys)
    ensures IsListing(rows, keys, listing)
  {
    listing := [];
    var rest := keys;
    while rest != {}
      invariant rest <= keys && IsListing(rows, keys - rest, listing)
      decreases rest
    {
      var key :| key in rest;
      InsertKeyKeepsOrder(rows, key, listing);
      listing := InsertKey(rows, key, listing);
      rest := rest - {key};
    }
    assert keys - rest == keys;
  }

  // ---- paging

  /** OFFSET (page - 1) * size LIMIT size. */
  function PageOf<T>(listing: seq<T>, page: nat, size: nat): seq<T>
    requires page >= 1
  {
    listing[Min((page - 1) * size, |listing|)..Min((page - 1) * size + size, |listing|)]
  }

  function FirstPages<T>(listing: seq<T>, pages: nat, size: nat): seq<T> {
    if pages == 0 then [] else FirstPages(listing, pages - 1, size) + PageOf(listing, pages, size)
  }

  /** The pager of the frontend: max(1, ceil(total / size)). */
  function PageCount(total: nat, size: nat): nat
    requires size >= 1
  {
    var pages := (total + size - 1) / size;
    if pages < 1 then 1 else pages
  }

  lemma {:induction false} FirstPagesArePrefix<T>(listing: seq<T>, pages: nat, size: nat)
    ensures FirstPages(listing, pages, size) == listing[..Min(pages * size, |listing|)]
  {
    if pages > 0 {
      FirstPagesArePrefix(listing, pages - 1, size);
      assert pages * size == (pages - 1) * size + size;
      var low := Min((pages - 1) * size, |listing|);
      var high := Min(pages * size, |listing|);
      assert listing[..low] + listing[low..high] == listing[..high];
    }
  }

  lemma PageCountCovers(total: nat, size: nat)
    requires size >= 1
    ensures PageCount(total, size) * size >= total
    ensures PageCount(total, size) > 1 ==> (PageCount(total, size) - 1) * size < total
  {
    var quotient := (total + size - 1) / size;
    var remainder := (total + size - 1) % size;
    assert total + size - 1 == quotient * size + remainder;
    if quotient >= 1 {
      assert (quotient - 1) * size == quotient * size - size;
    }
  }

  lemma {:induction false} ListedOnce(rows: Rows, keys: set<Key>, listing: seq<Key>)
    requires IsListing(rows, keys, listing)
    ensures multiset(listing) == multiset(keys)
    decreases |listing|
  {
    if listing == [] {
      assert forall key :: key in keys ==> key in listing;
      assert keys == {};
    } else {
      TailListing(rows, keys, listing);
      ListedOnce(rows, keys - {listing[0]}, listing[1..]);
      AddOne(keys, listing);
    }
  }

  lemma AddOne<T>(items: set<T>, listing: seq<T>)
    requires listing != [] && listing[0] in items && multiset(listing[1..]) == multiset(items - {listing[0]})
    ensures multiset(listing) == multiset(items)
  {
    assert listing == [listing[0]] + listing[1..];
  }

  lemma PagesCover<T>(listing: seq<T>, total: nat, size: nat)
    requires size >= 1 && total == |listing|
    ensures var pages := PageCount(total, size);
            && FirstPages(listing, pages, size) == listing
            && (pages > 1 ==> |FirstPages(listing, pages - 1, size)| < |listing|)
  {
    var pages := PageCount(total, size);
    PageCountCovers(total, size);
    FirstPagesArePrefix(listing, pages, size);
    if pages > 1 {
      FirstPagesArePrefix(listing, pages - 1, size);
    }
  }

  /** Paging partitions the listing: pages 1..PageCount concatenate to the whole
      query result, so every matching live row is shown exactly once, in order; and
      with one page fewer some row would be missing. */
  lemma PagesPartitionListing(rows: Rows, kind: Kind, filter: Filter, listing: seq<Key>, size: nat)
    requires size >= 1 && IsListing(rows, Matching(rows, kind, filter), listing)
    ensures var pages := PageCount(|Matching(rows, kind, filter)|, size);
            && FirstPages(listing, pages, size) == listing
            && multiset(FirstPages(listing, pages, size)) == multiset(Matching(rows, kind, filter))
            && (pages > 1 ==> |FirstPages(listing, pages - 1, size)| < |listing|)
  {
    ListingSize(rows, Matching(rows, kind, filter), listing);
    PagesCover(listing, |Matching(rows, kind, filter)|, size);
    ListedOnce(rows, Matching(rows, kind, filter), listing);
  }

  /** The versions a list response carries are shown by its query, so clients that send
      back a listed version echo just as those that send back a fetched one. */
  lemma ListedVersionsAreShown(db: Db, kind: Kind, filter: Filter, listing: seq<Key>)
    requires IsListing(db.rows, Matching(db.rows, kind, filter), listing)
    ensures forall key <- listing :: (key, db.rows[key].version) in Discipline.Showing(db)
  {
    forall key | key in listing ensures (key, db.rows[key].version) in Discipline.Showing(db) {
      assert key in Matching(db.rows, kind, filter);
    }
  }

  /** Page parameters in range: a page from 1 on, of 1 to 100 rows, 20 if not given. */
  function Normalized(page: int, pageSize: int): (int, int) {
    (if page < 1 then 1 else page, if pageSize < 1 then 20 else if pageSize > 100 then 100 else pageSize)
  }

  /** The repository's last word on page parameters. */
  method NormalizePage(page: int, pageSize: int) returns (p: int, size: int)
    ensures (p, size) == Normalized(page, pageSize)
    ensures p >= 1 && 1 <= size <= 100
    ensures (p, size) == (page, pageSize) <==> page >= 1 && 1 <= pageSize <= 100
    ensures Normalized(p, size) == (p, size)
    ensures page < 1 ==> p == 1
    ensures pageSize < 1 ==> size == 20
    ensures pageSize > 100 ==> size == 100
    ensures page >= 1 ==> p == page
    ensures 1 <= pageSize <= 100 ==> size == pageSize
  {
    p, size := page, pageSize;
    if p < 1 {
      p := 1;
    }
    if size < 1 {
      size := 20;
    }
    if size > 100 {
      size := 100;
    }
  }

  /** The handler's defaults; normalising them again changes nothing. */
  method BindPage(page: int, pageSize: int) returns (p: int, size: int)
    ensures p == if page >= 1 then page else 1
    ensures size == if 1 <= pageSize <= 100 then pageSize else 20
    ensures page >= 1 && 1 <= pageSize <= 100 <==> (p, size) == (page, pageSize)
    ensures Normalized(p, size) == (p, size)
  {
    p, size := page, pageSize;
    if p < 1 {
      p := 1;
    }
    if size < 1 || size > 100 {
      size := 20;
    }
  }

  // ---- counting by status

  /** The live rows of one table in one status. */
  function Population(rows: Rows, kind: Kind, status: Status): set<Key> {
    set key | key in rows && key.kind == kind && !rows[key].deleted && rows[key].status == status
  }

  function Live(rows: Rows, kind: Kind): set<Key> {
    set key | key in rows && key.kind == kind && !rows[key].deleted
  }

  datatype Group = Group(status: Status, total: nat)

  /** The rows of SELECT status, COUNT(*) GROUP BY status, in any order. */
  predicate IsGrouping(rows: Rows, kind: Kind, groups: seq<Group>) {
    && (forall i, j :: 0 <= i < j < |groups| ==> groups[i].status != groups[j].status)
    && (forall g <- groups :: g.total == |Population(rows, kind, g.status)| > 0)
    && (forall key <- Live(rows, kind) :: exists g <- groups :: g.status == rows[key].status)
  }

  /** The grouping query: one row per status that some live row has. */
  method GroupByStatus(rows: Rows, kind: Kind) returns (groups: seq<Group>)
    ensures IsGrouping(rows, kind, groups)
  {
    groups := [];
    var rest := Live(rows, kind);
    while rest != {}
      invariant rest <= Live(rows, kind)
      invariant forall i, j :: 0 <= i < j < |groups| ==> groups[i].status != groups[j].status
      invariant forall g <- groups :: g.total == |Population(rows, kind, g.status)| > 0
      invariant forall key <- Live(rows, kind) :: key in rest || exists g <- groups :: g.status == rows[key].status
      invariant forall key <- rest, g <- groups :: g.status != rows[key].status
      decreases rest
    {
      var key :| key in rest;
      var status := rows[key].status;
      assert key in Population(rows, kind, status);
      var group := Group(status, |Population(rows, kind, status)|);
      var longer := groups + [group];
      assert forall g :: g in longer <==> g in groups || g == group;
      groups := longer;
      rest := set k | k in rest && rows[k].status != status;
    }
  }

  /** The scan loop that turns the group rows into a map. */
  method ScanGroups(rows: Rows, kind: Kind, groups: seq<Group>) returns (counts: map<Status, nat>)
    requires IsGrouping(rows, kind, groups)
    ensures forall status :: status in counts <==> Population(rows, kind, status) != {}
    ensures forall status <- counts :: counts[status] == |Population(rows, kind, status)|
  {
    counts := map[];
    for i := 0 to |groups|
      invariant forall status :: status in counts <==> exists j :: 0 <= j < i && groups[j].status == status
      invariant forall status <- counts :: counts[status] == |Population(rows, kind, status)|
    {
      counts := counts[groups[i].status := groups[i].total];
    }
    forall status ensures status in counts <==> Population(rows, kind, status) != {} {
      if Population(rows, kind, status) != {} {
        var key :| key in Population(rows, kind, status);
        assert key in Live(rows, kind);
        var g :| g in groups && g.status == rows[key].status;
        var j :| 0 <= j < |groups| && groups[j] == g;
        assert groups[j].status == status;
      }
      if status in counts {
        var j :| 0 <= j < |groups| && groups[j].status == status;
        assert groups[j] in groups;
      }
    }
  }

  function Total(groups: seq<Group>): nat {
    if groups == [] then 0 else Total(groups[..|groups| - 1]) + groups[|groups| - 1].total
  }

  /** The live rows whose status is among the first groups. */
  function Covered(rows: Rows, kind: Kind, groups: seq<Group>): set<Key> {
    set key | key in Live(rows, kind) && exists g <- groups :: g.status == rows[key].status
  }

  lemma {:induction false} TotalCountsCovered(rows: Rows, kind: Kind, groups: seq<Group>)
    requires forall i, j :: 0 <= i < j < |groups| ==> groups[i].status != groups[j].status
    requires forall g <- groups :: g.total == |Population(rows, kind, g.status)|
    ensures Total(groups) == |Covered(rows, kind, groups)|
  {
    if groups == [] {
      assert Covered(rows, kind, groups) == {};
    } else {
      var n := |groups| - 1;
      TotalCountsCovered(rows, kind, groups[..n]);
      CoveredSplits(rows, kind, groups);
      assert groups[n] in groups;
    }
  }

  lemma CoveredSplits(rows: Rows, kind: Kind, groups: seq<Group>)
    requires groups != [] && forall i, j :: 0 <= i < j < |groups| ==> groups[i].status != groups[j].status
    ensures var n := |groups| - 1;
            |Covered(rows, kind, groups)|
              == |Covered(rows, kind, groups[..n])| + |Population(rows, kind, groups[n].status)|
  {
    var n := |groups| - 1;
    var g := groups[n];
    assert groups == groups[..n] + [g];
    var covered := Covered(rows, kind, groups[..n]);
    var population := Population(rows, kind, g.status);
    assert covered !! population by {
      forall key | key in covered ensures key !in population {
        var h :| h in groups[..n] && h.status == rows[key].status;
        var j :| 0 <= j < n && groups[j] == h;
      }
    }
    assert Covered(rows, kind, groups) == covered + population;
  }

  /** The counts agree with the list query: each status counts what the listing
      filtered by it shows, and together they count the unfiltered listing. */
  lemma CountsAgreeWithListing(rows: Rows, kind: Kind, groups: seq<Group>, all: seq<Key>, status: Status,
                               some: seq<Key>)
    requires IsGrouping(rows, kind, groups)
    requires IsListing(rows, Matching(rows, kind, Filter((code, name) => true, None)), all)
    requires IsListing(rows, Matching(rows, kind, Filter((code, name) => true, Some(status))), some)
    ensures Total(groups) == |all|
    ensures |some| == |Population(rows, kind, status)|
  {
    TotalCountsCovered(rows, kind, groups);
    assert Covered(rows, kind, groups) == Live(rows, kind);
    assert Matching(rows, kind, Filter((code, name) => true, None)) == Live(rows, kind);
    assert Matching(rows, kind, Filter((code, name) => true, Some(status))) == Population(rows, kind, status);
    ListingSize(rows, Live(rows, kind), all);
    ListingSize(rows, Population(rows, kind, status), some);
  }

  // ---- counts over runs

  /** The rows after a prefix of the commit order. */
  function RowsAfter(origin: Db, history: seq<Commit>): Rows {
    if history == [] then origin.rows
    else
      var c := history[|history| - 1];
      RowsAfter(origin, history[..|history| - 1])[c.key := c.after]
  }

  /** What one commit adds to the population of a status. */
  function Shift(c: Commit, kind: Kind, status: Status): int {
    if c.key.kind != kind then 0
    else
      (if !c.after.deleted && c.after.status == status then 1 else 0)
      - (if c.before.Some? && !c.before.value.deleted && c.before.value.status == status then 1 else 0)
  }

  function Shifts(history: seq<Commit>, kind: Kind, status: Status): int {
    if history == [] then 0
    else Shifts(history[..|history| - 1], kind, status) + Shift(history[|history| - 1], kind, status)
  }

  lemma {:induction false} RowsAfterLooksUp(origin: Db, history: seq<Commit>, key: Key)
    ensures RowAfter(origin, history, key)
         == if key in RowsAfter(origin, history) then Some(RowsAfter(origin, history)[key]) else None
  {
    if history != [] {
      RowsAfterLooksUp(origin, history[..|history| - 1], key);
    }
  }

  lemma {:induction false} PopulationShifts(origin: Db, history: seq<Commit>, kind: Kind, status: Status)
    requires Linked(origin, history)
    ensures |Population(RowsAfter(origin, history), kind, status)|
         == |Population(origin.rows, kind, status)| + Shifts(history, kind, status)
  {
    if history != [] {
      var n := |history| - 1;
      var c := history[n];
      PopulationShifts(origin, history[..n], kind, status);
      RowsAfterLooksUp(origin, history[..n], c.key);
      PopulationAfter(RowsAfter(origin, history[..n]), c, kind, status);
    }
  }

  lemma PopulationAfter(rows: Rows, c: Commit, kind: Kind, status: Status)
    requires c.before == if c.key in rows then Some(rows[c.key]) else None
    ensures |Population(rows[c.key := c.after], kind, status)|
         == |Population(rows, kind, status)| + Shift(c, kind, status)
  {
    OthersStay(rows, c.key, c.after, kind, status);
    if c.key in rows {
      PopulationWithout(rows, c.key, kind, status);
    } else {
      assert Population(rows, kind, status) - {c.key} == Population(rows, kind, status);
    }
    PopulationWithout(rows[c.key := c.after], c.key, kind, status);
  }

  lemma PopulationWithout(rows: Rows, key: Key, kind: Kind, status: Status)
    requires key in rows
    ensures |Population(rows, kind, status)| == |Population(rows, kind, status) - {key}|
         + if key.kind == kind && !rows[key].deleted && rows[key].status == status then 1 else 0
  {
    SizeWithout(Population(rows, kind, status), key);
  }

  lemma OthersStay(rows: Rows, key: Key, row: Row, kind: Kind, status: Status)
    ensures Population(rows[key := row], kind, status) - {key} == Population(rows, kind, status) - {key}
  {
  }

  lemma SizeWithout<T>(s: set<T>, x: T)
    ensures |s| == |s - {x}| + if x in s then 1 else 0
  {
    if x in s {
      assert s == (s - {x}) + {x};
    } else {
      assert s == s - {x};
    }
  }

  /** Over any run the count of a status is its initial count plus what the
      commits moved in and out of it. */
  lemma CountsFollowCommits(origin: Db, steps: seq<Step>, kind: Kind, status: Status)
    requires Evolution.Good(origin)
    ensures var s := Run(Boot(origin), steps);
            |Population(s.db.rows, kind, status)|
              == |Population(origin.rows, kind, status)| + Shifts(s.history, kind, status)
  {
    BootRecorded(origin);
    RunRecorded(origin, Boot(origin), steps);
    var s := Run(Boot(origin), steps);
    PopulationShifts(origin, s.history, kind, status);
    var rows := RowsAfter(origin, s.history);
    forall key ensures Lookup(s.db, key) == if key in rows then Some(rows[key]) else None {
      RowsAfterLooksUp(origin, s.history, key);
      assert RowAfter(origin, s.history, key) == Lookup(s.db, key);
    }
    assert s.db.rows == rows by {
      forall key ensures key in s.db.rows <==> key in rows {
        assert Lookup(s.db, key) == if key in rows then Some(rows[key]) else None;
      }
      forall key | key in s.db.rows ensures s.db.rows[key] == rows[key] {
        assert Lookup(s.db, key) == Some(s.db.rows[key]);
      }
    }
  }

  /** What can happen to the number of rows in a status. */
  datatype Change = Birth | Entry | Exit | Death

  predicate Makes(c: Commit, change: Change, kind: Kind, status: Status) {
    && c.key.kind == kind
    && match change
       case Birth => c.call.op.Create? && status == InitialStatus(kind)
       case Entry => c.call.op.Transition? && status == c.call.op.target
       case Exit => c.call.op.Transition? && c.before.Some? && status == c.before.value.status
       case Death => c.call.op.Delete? && c.before.Some? && status == c.before.value.status
  }

  /** How many committed calls made this change. */
  function HowMany(history: seq<Commit>, change: Change, kind: Kind, status: Status): nat {
    if history == [] then 0
    else
      var n := |history| - 1;
      HowMany(history[..n], change, kind, status) + Indicator(Makes(history[n], change, kind, status))
  }

  /** A faithful update moves nothing; every other call makes the changes it names. */
  lemma ShiftIsItsChanges(c: Commit, kind: Kind, status: Status)
    requires Counted(c) && Faithful(c)
    ensures Shift(c, kind, status)
         == Indicator(Makes(c, Birth, kind, status)) + Indicator(Makes(c, Entry, kind, status))
            - Indicator(Makes(c, Exit, kind, status)) - Indicator(Makes(c, Death, kind, status))
  {
    match c.call.op
    case Create(_, _) =>
    case Update(_, _) =>
    case Transition(_, _, _) =>
    case Delete =>
  }

  lemma {:induction false} ShiftsAreChanges(history: seq<Commit>, kind: Kind, status: Status)
    requires AllCounted(history) && Fidelity.AllFaithful(history)
    ensures Shifts(history, kind, status)
         == HowMany(history, Birth, kind, status) + HowMany(history, Entry, kind, status)
            - HowMany(history, Exit, kind, status) - HowMany(history, Death, kind, status)
  {
    if history != [] {
      var n := |history| - 1;
      ShiftsAreChanges(history[..n], kind, status);
      assert Counted(history[n]) && Faithful(history[n]);
      ShiftIsItsChanges(history[n], kind, status);
    }
  }

  /** Population law: along any honest run the number of live rows in a status is its
      initial number, plus the creates that start in it and the transitions into it,
      minus the transitions out of it and the deletes of rows in it.  Updates, however
      stale their reads, move nothing. */
  lemma PopulationsBalance(origin: Db, steps: seq<Step>, kind: Kind, status: Status)
    requires Evolution.Good(origin) && Discipline.HonestWins(Boot(origin), steps)
    ensures var s := Run(Boot(origin), steps);
            |Population(s.db.rows, kind, status)|
            == |Population(origin.rows, kind, status)|
               + HowMany(s.history, Birth, kind, status) + HowMany(s.history, Entry, kind, status)
               - HowMany(s.history, Exit, kind, status) - HowMany(s.history, Death, kind, status)
  {
    CountsFollowCommits(origin, steps, kind, status);
    BootRecorded(origin);
    RunRecorded(origin, Boot(origin), steps);
    Fidelity.RunFaithful(Boot(origin), steps);
    ShiftsAreChanges(Run(Boot(origin), steps).history, kind, status);
  }
}
