/** What following cursors through the query log guarantees. Tables are snapshots of one history
    of rows: ids are never reused and a logged row never changes. */
module KeysetPaging {
  import opened Common
  import opened DomainPaging

  // ---------- Histories, snapshots and ranks ----------

  predicate UniqueIds(history: set<Row>) {
    forall a, b :: a in history && b in history && a.id == b.id ==> a == b
  }

  predicate Snapshot(table: seq<Row>, history: set<Row>) {
    && UniqueRows(table)
    && (forall r :: r in table ==> r in history)
  }

  /** Ids read in the direction of an order. */
  function Rank(descending: bool, r: Row): int {
    if descending then 0 - r.id else r.id
  }

  predicate Ranked(descending: bool, s: seq<Row>) {
    forall i, j :: 0 <= i < j < |s| ==> Rank(descending, s[i]) < Rank(descending, s[j])
  }

  /** Among the rows a query selects, a later id has no earlier time. */
  predicate TimesFollowIds(q: Query, like: Like, history: set<Row>) {
    forall a, b :: a in history && b in history && a.id < b.id ==>
      Matches(q.clauses, a, like) && Matches(q.clauses, b, like) ==> a.timestamp <= b.timestamp
  }

  lemma SelectedRanks(table: seq<Row>, q: Query, like: Like, history: set<Row>)
    requires Snapshot(table, history) && (q.ordering.timestampFirst ==> TimesFollowIds(q, like, history))
    ensures Ranked(q.ordering.descending, Selected(table, q, like))
    ensures forall r :: r in Selected(table, q, like) <==> r in table && Matches(q.clauses, r, like)
  {
    SelectedSorts(table, q, like);
    var s := Selected(table, q, like);
    forall i, j | 0 <= i < j < |s|
      ensures Rank(q.ordering.descending, s[i]) < Rank(q.ordering.descending, s[j])
    {
      assert s[i] in s && s[j] in s && Precedes(q.ordering, s[i], s[j]);
    }
  }

  lemma RankedTail(descending: bool, s: seq<Row>, r: Row)
    requires Ranked(descending, s) && s != []
    ensures r in s[1..] <==> r in s && Rank(descending, s[0]) < Rank(descending, r)
    ensures Ranked(descending, s[1..])
  {
    if r in s {
      var i :| 0 <= i < |s| && s[i] == r;
      assert i > 0 ==> s[1..][i - 1] == r;
    }
  }

  /** A ranked sequence is determined by its members. */
  lemma {:induction false} RankedIsUnique(descending: bool, a: seq<Row>, b: seq<Row>)
    requires Ranked(descending, a) && Ranked(descending, b)
    requires forall r :: r in a <==> r in b
    ensures a == b
    decreases |a|
  {
    if a == [] {
      assert forall i :: 0 <= i < |b| ==> b[i] in b;
    } else {
      assert a[0] in a && a[0] in b && b[0] in b && b[0] in a;
      RankedTail(descending, a, b[0]);
      RankedTail(descending, b, a[0]);
      SameHead(descending, a, b);
      forall r ensures r in a[1..] <==> r in b[1..] {
        RankedTail(descending, a, r);
        RankedTail(descending, b, r);
      }
      RankedIsUnique(descending, a[1..], b[1..]);
      assert a == [a[0]] + a[1..] && b == [b[0]] + b[1..];
    }
  }

  lemma SameHead(descending: bool, a: seq<Row>, b: seq<Row>)
    requires Ranked(descending, a) && Ranked(descending, b) && a != [] && b != []
    requires a[0] in b && b[0] in a
    ensures a[0] == b[0]
  {
    var i :| 0 <= i < |b| && b[i] == a[0];
    var j :| 0 <= j < |a| && a[j] == b[0];
  }

  // ---------- What the pages ask for ----------

  function FirstOf(p: Param): Param {
    p.(cursor := None, pageNum := 1)
  }

  function NextOf(p: Param, id: nat): Param {
    p.(cursor := Some(Cursor(Some(id), NextPage)), pageNum := 1)
  }

  function PrevOf(p: Param, id: nat): Param {
    p.(cursor := Some(Cursor(Some(id), PrevPage)), pageNum := 1)
  }

  predicate WellAsked(p: Param) {
    p.order != Some(BadOrder) && !(p.domain.Some? && p.domainMode == Some(BadMode)) && p.pageSize >= 1
  }

  /** The rows the first page is taken from. */
  predicate Wanted(p: Param, r: Row, like: Like)
    requires WellAsked(p)
  {
    Matches(Compile(FirstOf(p)).value.clauses, r, like)
  }

  predicate InBounds(p: Param, r: Row) {
    (p.before.Some? ==> r.timestamp <= p.before.value) && (p.after.Some? ==> r.timestamp >= p.after.value)
  }

  /** A listed row, and a row that matches but perhaps for the time bounds. */
  predicate Beside(p: Param, c: Row, r: Row, like: Like, history: set<Row>)
    requires WellAsked(p)
  {
    c in history && r in history && Wanted(p, c, like) && Agrees(p, r, like)
  }

  /** A page sorted by time is sorted by id as well. */
  predicate FirstInOrder(p: Param, like: Like, history: set<Row>)
    requires WellAsked(p)
  {
    TimestampFirst(FirstOf(p)) ==> TimesFollowIds(Compile(FirstOf(p)).value, like, history)
  }

  /** The time bound a next cursor stands in for holds of every row beyond the cursor. */
  ghost predicate NextKeepsBounds(p: Param, like: Like, history: set<Row>)
    requires WellAsked(p)
  {
    if Ascending(p) then
      p.after.Some? ==> forall c, r :: Beside(p, c, r, like, history) && c.id < r.id ==> r.timestamp >= p.after.value
    else
      p.before.Some? ==> forall c, r :: Beside(p, c, r, like, history) && r.id < c.id ==> r.timestamp <= p.before.value
  }

  /** The time bound a previous cursor stands in for holds of every row before the cursor. */
  ghost predicate PrevKeepsBounds(p: Param, like: Like, history: set<Row>)
    requires WellAsked(p)
  {
    if Ascending(p) then
      p.before.Some? ==> forall c, r :: Beside(p, c, r, like, history) && r.id < c.id ==> r.timestamp <= p.before.value
    else
      p.after.Some? ==> forall c, r :: Beside(p, c, r, like, history) && c.id < r.id ==> r.timestamp >= p.after.value
  }

  /** In ascending order an upper bound turns next cursors round, and a lower bound previous ones. */
  predicate NextGoesOn(p: Param) {
    !(Ascending(p) && p.before.Some?)
  }

  predicate PrevGoesBack(p: Param) {
    !(Ascending(p) && p.after.Some?)
  }

  /** When following next cursors is sound; the module PagingLimits shows that nothing less will do. */
  ghost predicate Steady(p: Param, like: Like, history: set<Row>) {
    WellAsked(p) && NextGoesOn(p) && FirstInOrder(p, like, history) && NextKeepsBounds(p, like, history)
  }

  /** When previous cursors are sound, too. */
  ghost predicate Reversible(p: Param, like: Like, history: set<Row>) {
    Steady(p, like, history) && PrevGoesBack(p) && PrevKeepsBounds(p, like, history)
  }

  /** A row is wanted when it agrees with every field given and lies in the time bounds. */
  lemma WantedIs(p: Param, r: Row, like: Like)
    requires WellAsked(p)
    ensures Wanted(p, r, like) <==> Agrees(p, r, like) && InBounds(p, r)
  {
    CompiledAgrees(FirstOf(p), r, like);
  }

  lemma NextHolds(p: Param, r: Row, c: Row)
    requires NextGoesOn(p) && InBounds(p, c)
    requires Ascending(p) && p.after.Some? && c.id < r.id ==> r.timestamp >= p.after.value
    requires !Ascending(p) && p.before.Some? && r.id < c.id ==> r.timestamp <= p.before.value
    ensures BoundsHold(NextOf(p, c.id), r) && CursorHolds(NextOf(p, c.id), r) <==>
            InBounds(p, r) && Rank(!Ascending(p), c) < Rank(!Ascending(p), r)
  {
  }

  lemma PrevHolds(p: Param, r: Row, c: Row)
    requires PrevGoesBack(p) && InBounds(p, c)
    requires Ascending(p) && p.before.Some? && r.id < c.id ==> r.timestamp <= p.before.value
    requires !Ascending(p) && p.after.Some? && c.id < r.id ==> r.timestamp >= p.after.value
    ensures BoundsHold(PrevOf(p, c.id), r) && CursorHolds(PrevOf(p, c.id), r) <==>
            InBounds(p, r) && Rank(!Ascending(p), r) < Rank(!Ascending(p), c)
  {
  }

  /** What a query with a cursor matches, in terms of its bounds and its cursor. */
  lemma CursorQueryMatches(p: Param, cursor: Cursor, r: Row, like: Like)
    requires WellAsked(p) && cursor.direction != BadDirection
    ensures var q := p.(cursor := Some(cursor), pageNum := 1);
            Matches(Compile(q).value.clauses, r, like) <==> Agrees(p, r, like) && BoundsHold(q, r) && CursorHolds(q, r)
  {
    var q := p.(cursor := Some(cursor), pageNum := 1);
    CompiledAgrees(q, r, like);
  }

  /** A next page draws from the wanted rows beyond its cursor, the cursor being a wanted row. */
  lemma NextMatches(p: Param, r: Row, c: Row, like: Like, history: set<Row>)
    requires WellAsked(p) && NextGoesOn(p) && NextKeepsBounds(p, like, history)
    requires r in history && c in history && Wanted(p, c, like)
    ensures Matches(Compile(NextOf(p, c.id)).value.clauses, r, like) <==>
            Wanted(p, r, like) && Rank(!Ascending(p), c) < Rank(!Ascending(p), r)
  {
    WantedIs(p, r, like);
    WantedIs(p, c, like);
    CursorQueryMatches(p, Cursor(Some(c.id), NextPage), r, like);
    if Agrees(p, r, like) {
      assert Beside(p, c, r, like, history);
      NextHolds(p, r, c);
    }
  }

  /** A previous page draws from the wanted rows before its cursor. */
  lemma PrevMatches(p: Param, r: Row, c: Row, like: Like, history: set<Row>)
    requires WellAsked(p) && PrevGoesBack(p) && PrevKeepsBounds(p, like, history)
    requires r in history && c in history && Wanted(p, c, like)
    ensures Matches(Compile(PrevOf(p, c.id)).value.clauses, r, like) <==>
            Wanted(p, r, like) && Rank(!Ascending(p), r) < Rank(!Ascending(p), c)
  {
    WantedIs(p, r, like);
    WantedIs(p, c, like);
    CursorQueryMatches(p, Cursor(Some(c.id), PrevPage), r, like);
    if Agrees(p, r, like) {
      assert Beside(p, c, r, like, history);
      PrevHolds(p, r, c);
    }
  }

  // ---------- Single pages ----------

  /** All wanted rows of a table in the order of the listing. */
  function Listing(p: Param, table: seq<Row>, like: Like): seq<Row>
    requires WellAsked(p)
  {
    Selected(table, Compile(FirstOf(p)).value, like)
  }

  lemma ListingRanks(p: Param, table: seq<Row>, like: Like, history: set<Row>)
    requires WellAsked(p) && FirstInOrder(p, like, history) && Snapshot(table, history)
    ensures Ranked(!Ascending(p), Listing(p, table, like))
    ensures forall r :: r in Listing(p, table, like) <==> r in table && Wanted(p, r, like)
  {
    SelectedRanks(table, Compile(FirstOf(p)).value, like, history);
  }

  /** Where the rows beyond a cursor start in a listing, whether or not its row is still there. */
  function Beyond(descending: bool, listing: seq<Row>, c: Row): seq<Row> {
    if listing == [] || Rank(descending, c) < Rank(descending, listing[0]) then listing
    else Beyond(descending, listing[1..], c)
  }

  lemma {:induction false} BeyondIs(descending: bool, listing: seq<Row>, c: Row)
    requires Ranked(descending, listing)
    ensures Ranked(descending, Beyond(descending, listing, c))
    ensures forall r :: r in Beyond(descending, listing, c) <==>
                        r in listing && Rank(descending, c) < Rank(descending, r)
    decreases |listing|
  {
    if listing == [] {
    } else if Rank(descending, c) < Rank(descending, listing[0]) {
      forall r | r in listing ensures Rank(descending, c) < Rank(descending, r) {
        var i :| 0 <= i < |listing| && listing[i] == r;
      }
    } else {
      BeyondIs(descending, listing[1..], c);
      assert listing == [listing[0]] + listing[1..];
    }
  }

  lemma NextIsBeyond(p: Param, table: seq<Row>, c: Row, like: Like, history: set<Row>)
    requires Steady(p, like, history) && Snapshot(table, history) && c in history && Wanted(p, c, like)
    ensures var rows := Beyond(!Ascending(p), Listing(p, table, like), c);
            Fetch(table, NextOf(p, c.id), like) == Ok(Window(rows, 0, p.pageSize))
  {
    var q := Compile(NextOf(p, c.id)).value;
    SelectedRanks(table, q, like, history);
    ListingRanks(p, table, like, history);
    BeyondIs(!Ascending(p), Listing(p, table, like), c);
    forall r ensures r in Selected(table, q, like) <==> r in Beyond(!Ascending(p), Listing(p, table, like), c) {
      if r in table {
        NextMatches(p, r, c, like, history);
      }
    }
    RankedIsUnique(!Ascending(p), Selected(table, q, like), Beyond(!Ascending(p), Listing(p, table, like), c));
  }

  lemma PageIs(table: seq<Row>, q: Param, like: Like)
    requires Compile(q).Ok? && !Backwards(q) && q.pageNum == 1
    ensures Fetch(table, q, like) == Ok(Window(Selected(table, Compile(q).value, like), 0, q.pageSize))
  {
  }

  lemma CompileIgnoresPage(p: Param, pageNum: nat)
    ensures Compile(FirstOf(p).(pageNum := pageNum)) == Compile(FirstOf(p))
  {
  }

  lemma FirstIsListing(p: Param, pageNum: nat, table: seq<Row>, like: Like)
    requires WellAsked(p) && pageNum >= 1
    ensures Fetch(table, FirstOf(p).(pageNum := pageNum), like) ==
            Ok(Window(Listing(p, table, like), (pageNum - 1) * p.pageSize, p.pageSize))
  {
    CompileIgnoresPage(p, pageNum);
  }

  function Last<T>(page: seq<T>): T
    requires page != []
  {
    page[|page| - 1]
  }

  lemma WindowCovers(descending: bool, rows: seq<Row>, limit: nat)
    requires Ranked(descending, rows) && limit >= 1
    ensures var page := Window(rows, 0, limit);
            && Ranked(descending, page)
            && (forall r :: r in page ==> r in rows)
            && (forall r :: r in rows ==>
                  r in page || (|page| == limit && Rank(descending, Last(page)) < Rank(descending, r)))
  {
    var page := Window(rows, 0, limit);
    assert rows[0..] == rows;
    forall r | r in rows && r !in page
      ensures |page| == limit && Rank(descending, Last(page)) < Rank(descending, r)
    {
      var i :| 0 <= i < |rows| && rows[i] == r;
      if i < |page| {
        assert false;
      }
    }
  }

  // ---------- Walking through changing listings ----------

  function Flat(pages: seq<seq<Row>>): seq<Row> {
    if pages == [] then [] else Flat(pages[..|pages| - 1]) + pages[|pages| - 1]
  }

  /** Page k is a window of the listing as it is by then, beyond the last row of page k - 1. */
  predicate Stepped(descending: bool, limit: nat, listing: seq<Row>, previous: seq<Row>, k: nat, page: seq<Row>) {
    if k == 0 then page == Window(listing, 0, limit)
    else previous != [] && page == Window(Beyond(descending, listing, Last(previous)), 0, limit)
  }

  function Before(pages: seq<seq<Row>>, k: nat): seq<Row>
    requires k < |pages|
  {
    if k == 0 then [] else pages[k - 1]
  }

  predicate StepAt(descending: bool, limit: nat, listings: seq<seq<Row>>, pages: seq<seq<Row>>, k: nat)
    requires |listings| == |pages|
  {
    k < |pages| ==> Stepped(descending, limit, listings[k], Before(pages, k), k, pages[k])
  }

  ghost predicate Walk(descending: bool, limit: nat, listings: seq<seq<Row>>, pages: seq<seq<Row>>) {
    |listings| == |pages| > 0 && forall k: nat :: StepAt(descending, limit, listings, pages, k)
  }

  /** What holds of the rows listed so far, the last page being given. */
  predicate Listed(descending: bool, flat: seq<Row>, last: seq<Row>, allowed: set<Row>) {
    && Ranked(descending, flat)
    && (last != [] ==> flat != [] && Last(flat) == Last(last))
    && (forall r :: r in flat ==> r in allowed)
  }

  /** A row is listed already, or a full last page stopped short of it. */
  predicate Reached(descending: bool, limit: nat, flat: seq<Row>, last: seq<Row>, r: Row)
    requires limit >= 1
  {
    r in flat || (|last| == limit && Rank(descending, Last(last)) < Rank(descending, r))
  }

  lemma RankedJoin(descending: bool, a: seq<Row>, b: seq<Row>)
    requires Ranked(descending, a) && Ranked(descending, b) && a != []
    requires forall r :: r in b ==> Rank(descending, Last(a)) < Rank(descending, r)
    ensures Ranked(descending, a + b)
  {
    assert forall j :: 0 <= j < |b| ==> b[j] in b;
  }

  lemma StepLists(descending: bool, limit: nat, listing: seq<Row>, previous: seq<Row>, k: nat, page: seq<Row>,
                  flat: seq<Row>, allowed: set<Row>)
    requires limit >= 1 && Ranked(descending, listing) && forall r :: r in listing ==> r in allowed
    requires Stepped(descending, limit, listing, previous, k, page)
    requires if k == 0 then flat == [] else Listed(descending, flat, previous, allowed)
    ensures Listed(descending, flat + page, page, allowed)
  {
    if k == 0 {
      WindowCovers(descending, listing, limit);
      assert flat + page == page;
    } else {
      var c := Last(previous);
      BeyondIs(descending, listing, c);
      WindowCovers(descending, Beyond(descending, listing, c), limit);
      RankedJoin(descending, flat, page);
    }
  }

  lemma StepReaches(descending: bool, limit: nat, listing: seq<Row>, previous: seq<Row>, k: nat, page: seq<Row>,
                    flat: seq<Row>, r: Row)
    requires limit >= 1 && Ranked(descending, listing) && r in listing
    requires Stepped(descending, limit, listing, previous, k, page)
    requires if k == 0 then flat == [] else Reached(descending, limit, flat, previous, r)
    ensures Reached(descending, limit, flat + page, page, r)
  {
    if k == 0 {
      WindowCovers(descending, listing, limit);
    } else if r !in flat {
      var c := Last(previous);
      BeyondIs(descending, listing, c);
      WindowCovers(descending, Beyond(descending, listing, c), limit);
    }
  }

  lemma FlatStep(pages: seq<seq<Row>>, k: nat)
    requires k < |pages|
    ensures Flat(pages[..k + 1]) == Flat(pages[..k]) + pages[k]
  {
    assert pages[..k + 1][..k] == pages[..k];
  }

  lemma {:induction false} WalkLists(descending: bool, limit: nat, listings: seq<seq<Row>>, pages: seq<seq<Row>>,
                                     k: nat, allowed: set<Row>)
    requires limit >= 1 && Walk(descending, limit, listings, pages) && k < |pages|
    requires forall l :: l in listings ==> Ranked(descending, l) && forall r :: r in l ==> r in allowed
    ensures Listed(descending, Flat(pages[..k + 1]), pages[k], allowed)
    decreases k
  {
    if k > 0 {
      WalkLists(descending, limit, listings, pages, k - 1, allowed);
    }
    FlatStep(pages, k);
    assert StepAt(descending, limit, listings, pages, k) && listings[k] in listings;
    StepLists(descending, limit, listings[k], Before(pages, k), k, pages[k], Flat(pages[..k]), allowed);
  }

  lemma {:induction false} WalkReaches(descending: bool, limit: nat, listings: seq<seq<Row>>, pages: seq<seq<Row>>,
                                       k: nat, r: Row)
    requires limit >= 1 && Walk(descending, limit, listings, pages) && k < |pages|
    requires forall l :: l in listings ==> Ranked(descending, l) && r in l
    ensures Reached(descending, limit, Flat(pages[..k + 1]), pages[k], r)
    decreases k
  {
    if k > 0 {
      WalkReaches(descending, limit, listings, pages, k - 1, r);
    }
    FlatStep(pages, k);
    assert StepAt(descending, limit, listings, pages, k) && listings[k] in listings;
    StepReaches(descending, limit, listings[k], Before(pages, k), k, pages[k], Flat(pages[..k]), r);
  }

  lemma RankedOnce(descending: bool, s: seq<Row>, r: Row)
    requires Ranked(descending, s) && r in s
    ensures multiset(s)[r] == 1
  {
    var i :| 0 <= i < |s| && s[i] == r;
    assert s == s[..i] + [r] + s[i + 1..];
    assert r !in s[..i] && r !in s[i + 1..];
  }

  lemma {:induction false} BeyondAt(descending: bool, listing: seq<Row>, k: nat)
    requires Ranked(descending, listing) && k < |listing|
    ensures Beyond(descending, listing, listing[k]) == listing[k + 1..]
    decreases k
  {
    if k > 0 {
      BeyondAt(descending, listing[1..], k - 1);
      assert listing[1..][k..] == listing[k + 1..];
    } else if |listing| > 1 {
      assert Rank(descending, listing[0]) < Rank(descending, listing[1]);
    }
  }

  lemma NextMultiple(k: nat, limit: nat)
    requires k > 0
    ensures 0 <= (k - 1) * limit && k * limit == (k - 1) * limit + limit
  {
  }

  /** Walking through one unchanged listing cuts it into consecutive windows. */
  lemma {:induction false} WalkIsOffset(descending: bool, limit: nat, listing: seq<Row>, listings: seq<seq<Row>>,
                                        pages: seq<seq<Row>>, k: nat)
    requires limit >= 1 && Ranked(descending, listing) && Walk(descending, limit, listings, pages) && k < |pages|
    requires forall i :: 0 <= i < |listings| ==> listings[i] == listing
    ensures pages[k] == Window(listing, k * limit, limit)
    decreases k
  {
    assert StepAt(descending, limit, listings, pages, k);
    if k > 0 {
      WalkIsOffset(descending, limit, listing, listings, pages, k - 1);
      NextMultiple(k, limit);
      StepIsOffset(descending, limit, listing, pages[k - 1], pages[k], (k - 1) * limit, k * limit);
    }
  }

  lemma StepIsOffset(descending: bool, limit: nat, listing: seq<Row>, previous: seq<Row>, page: seq<Row>,
                     from: nat, to: nat)
    requires limit >= 1 && Ranked(descending, listing) && to == from + limit
    requires previous == Window(listing, from, limit) && previous != []
    requires page == Window(Beyond(descending, listing, Last(previous)), 0, limit)
    ensures page == Window(listing, to, limit)
  {
    WindowAfterWindow(descending, limit, listing, from, previous);
  }

  lemma WindowAfterWindow(descending: bool, limit: nat, listing: seq<Row>, from: nat, previous: seq<Row>)
    requires limit >= 1 && Ranked(descending, listing)
    requires previous == Window(listing, from, limit) && previous != []
    ensures Window(Beyond(descending, listing, Last(previous)), 0, limit) == Window(listing, from + limit, limit)
  {
    var k := from + |previous| - 1;
    assert Last(previous) == listing[k];
    BeyondAt(descending, listing, k);
    WindowWithin(listing, k + 1, limit);
  }

  lemma WindowWithin(listing: seq<Row>, from: nat, limit: nat)
    requires from <= |listing|
    ensures Window(listing[from..], 0, limit) == Window(listing, from, limit)
  {
    assert listing[from..][0..] == listing[from..];
  }

  lemma SteppedWithin(descending: bool, limit: nat, listing: seq<Row>, previous: seq<Row>, k: nat, page: seq<Row>)
    requires limit >= 1 && Ranked(descending, listing) && Stepped(descending, limit, listing, previous, k, page)
    ensures forall r :: r in page ==> r in listing
  {
    if k == 0 {
      WindowCovers(descending, listing, limit);
    } else {
      BeyondIs(descending, listing, Last(previous));
      WindowCovers(descending, Beyond(descending, listing, Last(previous)), limit);
    }
  }

  // ---------- Following next cursors ----------

  /** How page k came about: from the table as it is by then, after the last row of page k - 1. */
  predicate Fetched(p: Param, table: seq<Row>, previous: seq<Row>, k: nat, page: seq<Row>, like: Like) {
    if k == 0 then Fetch(table, FirstOf(p), like) == Ok(page)
    else previous != [] && Fetch(table, NextOf(p, Last(previous).id), like) == Ok(page)
  }

  predicate FetchedAt(p: Param, tables: seq<seq<Row>>, pages: seq<seq<Row>>, like: Like, k: nat)
    requires |tables| == |pages|
  {
    k < |pages| ==> Fetched(p, tables[k], Before(pages, k), k, pages[k], like)
  }

  ghost predicate Followed(p: Param, tables: seq<seq<Row>>, pages: seq<seq<Row>>, like: Like) {
    |tables| == |pages| > 0 && forall k: nat :: FetchedAt(p, tables, pages, like, k)
  }

  function Listings(p: Param, tables: seq<seq<Row>>, like: Like): seq<seq<Row>>
    requires WellAsked(p)
  {
    seq(|tables|, i requires 0 <= i < |tables| => Listing(p, tables[i], like))
  }

  lemma FirstPageIs(p: Param, table: seq<Row>, page: seq<Row>, like: Like)
    requires WellAsked(p) && Fetch(table, FirstOf(p), like) == Ok(page)
    ensures page == Window(Listing(p, table, like), 0, p.pageSize)
  {
    PageIs(table, FirstOf(p), like);
  }

  lemma NextPageIs(p: Param, table: seq<Row>, c: Row, page: seq<Row>, like: Like, history: set<Row>)
    requires Steady(p, like, history) && Snapshot(table, history) && c in history && Wanted(p, c, like)
    requires Fetch(table, NextOf(p, c.id), like) == Ok(page)
    ensures page == Window(Beyond(!Ascending(p), Listing(p, table, like), c), 0, p.pageSize)
  {
    NextIsBeyond(p, table, c, like, history);
  }

  predicate AllWanted(p: Param, page: seq<Row>, like: Like, history: set<Row>)
    requires WellAsked(p)
  {
    forall r :: r in page ==> r in history && Wanted(p, r, like)
  }

  lemma FetchedSteps(p: Param, table: seq<Row>, previous: seq<Row>, k: nat, page: seq<Row>, like: Like,
                     history: set<Row>)
    requires Steady(p, like, history) && Snapshot(table, history) && Fetched(p, table, previous, k, page, like)
    requires k > 0 ==> AllWanted(p, previous, like, history)
    ensures Stepped(!Ascending(p), p.pageSize, Listing(p, table, like), previous, k, page)
    ensures AllWanted(p, page, like, history)
  {
    if k == 0 {
      FirstPageIs(p, table, page, like);
    } else {
      assert Last(previous) in previous;
      NextPageIs(p, table, Last(previous), page, like, history);
    }
    ListingRanks(p, table, like, history);
    SteppedWithin(!Ascending(p), p.pageSize, Listing(p, table, like), previous, k, page);
  }

  ghost predicate Snapshots(tables: seq<seq<Row>>, history: set<Row>) {
    forall t :: t in tables ==> Snapshot(t, history)
  }

  /** One step of a run, the page before it being of wanted rows. */
  lemma FollowedStep(p: Param, tables: seq<seq<Row>>, pages: seq<seq<Row>>, like: Like, history: set<Row>, k: nat)
    requires Steady(p, like, history) && Followed(p, tables, pages, like) && Snapshots(tables, history)
    requires k < |pages| && (k > 0 ==> AllWanted(p, pages[k - 1], like, history))
    ensures Stepped(!Ascending(p), p.pageSize, Listing(p, tables[k], like), Before(pages, k), k, pages[k])
    ensures AllWanted(p, pages[k], like, history)
  {
    assert FetchedAt(p, tables, pages, like, k) && tables[k] in tables;
    FetchedSteps(p, tables[k], Before(pages, k), k, pages[k], like, history);
  }

  lemma {:induction false} FollowedWanted(p: Param, tables: seq<seq<Row>>, pages: seq<seq<Row>>, like: Like,
                                          history: set<Row>, k: nat)
    requires Steady(p, like, history) && Followed(p, tables, pages, like) && Snapshots(tables, history)
    requires k < |pages|
    ensures AllWanted(p, pages[k], like, history)
    decreases k
  {
    if k > 0 {
      FollowedWanted(p, tables, pages, like, history, k - 1);
    }
    FollowedStep(p, tables, pages, like, history, k);
  }

  lemma FollowedSteps(p: Param, tables: seq<seq<Row>>, pages: seq<seq<Row>>, like: Like, history: set<Row>, k: nat)
    requires Steady(p, like, history) && Followed(p, tables, pages, like) && Snapshots(tables, history)
    requires k < |pages|
    ensures Stepped(!Ascending(p), p.pageSize, Listing(p, tables[k], like), Before(pages, k), k, pages[k])
  {
    if k > 0 {
      FollowedWanted(p, tables, pages, like, history, k - 1);
    }
    FollowedStep(p, tables, pages, like, history, k);
  }

  lemma FollowedWalks(p: Param, tables: seq<seq<Row>>, pages: seq<seq<Row>>, like: Like, history: set<Row>)
    requires Steady(p, like, history) && Followed(p, tables, pages, like)
    requires Snapshots(tables, history)
    ensures Walk(!Ascending(p), p.pageSize, Listings(p, tables, like), pages)
  {
    var listings, descending := Listings(p, tables, like), !Ascending(p);
    forall k: nat ensures StepAt(descending, p.pageSize, listings, pages, k) {
      if k < |pages| {
        FollowedSteps(p, tables, pages, like, history, k);
      }
    }
  }

  lemma ListingsRank(p: Param, tables: seq<seq<Row>>, like: Like, history: set<Row>, l: seq<Row>)
    requires Steady(p, like, history) && l in Listings(p, tables, like)
    requires Snapshots(tables, history)
    ensures Ranked(!Ascending(p), l)
    ensures forall r :: r in l ==> r in history && Wanted(p, r, like)
    ensures forall r :: InAll(r, tables) && Wanted(p, r, like) ==> r in l
  {
    var i :| 0 <= i < |tables| && Listings(p, tables, like)[i] == l;
    assert tables[i] in tables;
    ListingRanks(p, tables[i], like, history);
  }

  predicate InAll(r: Row, tables: seq<seq<Row>>) {
    forall t :: t in tables ==> r in t
  }

  /** The ids of the pages run strictly one way, only wanted rows are listed, and once a page is
      short every wanted row that was present throughout has been listed exactly once. */
  ghost predicate Orderly(p: Param, tables: seq<seq<Row>>, pages: seq<seq<Row>>, like: Like)
    requires WellAsked(p) && pages != []
  {
    && Ranked(!Ascending(p), Flat(pages))
    && (forall r :: r in Flat(pages) ==> Wanted(p, r, like))
    && (|Last(pages)| < p.pageSize ==>
          forall r :: InAll(r, tables) && Wanted(p, r, like) ==> multiset(Flat(pages))[r] == 1)
  }

  lemma RunLists(p: Param, tables: seq<seq<Row>>, pages: seq<seq<Row>>, like: Like, history: set<Row>)
    requires Steady(p, like, history) && Followed(p, tables, pages, like) && Snapshots(tables, history)
    ensures Ranked(!Ascending(p), Flat(pages)) && forall r :: r in Flat(pages) ==> Wanted(p, r, like)
  {
    var listings, last := Listings(p, tables, like), |pages| - 1;
    var wanted := set r | r in history && Wanted(p, r, like);
    FollowedWalks(p, tables, pages, like, history);
    forall l | l in listings ensures Ranked(!Ascending(p), l) && forall r :: r in l ==> r in wanted {
      ListingsRank(p, tables, like, history, l);
    }
    WalkLists(!Ascending(p), p.pageSize, listings, pages, last, wanted);
    assert pages[..last + 1] == pages;
  }

  lemma RunReaches(p: Param, tables: seq<seq<Row>>, pages: seq<seq<Row>>, like: Like, history: set<Row>, r: Row)
    requires Steady(p, like, history) && Followed(p, tables, pages, like) && Snapshots(tables, history)
    requires InAll(r, tables) && Wanted(p, r, like) && |Last(pages)| < p.pageSize
    ensures r in Flat(pages)
  {
    var listings, last := Listings(p, tables, like), |pages| - 1;
    FollowedWalks(p, tables, pages, like, history);
    forall l | l in listings ensures Ranked(!Ascending(p), l) && r in l {
      ListingsRank(p, tables, like, history, l);
    }
    WalkReaches(!Ascending(p), p.pageSize, listings, pages, last, r);
    assert pages[..last + 1] == pages;
  }

  /** Whatever rows come and go between the fetches, the run is orderly. */
  lemma PagingUnderChange(p: Param, tables: seq<seq<Row>>, pages: seq<seq<Row>>, like: Like, history: set<Row>)
    requires Steady(p, like, history) && Followed(p, tables, pages, like) && Snapshots(tables, history)
    ensures Orderly(p, tables, pages, like)
  {
    RunLists(p, tables, pages, like, history);
    if |Last(pages)| < p.pageSize {
      forall r | InAll(r, tables) && Wanted(p, r, like) ensures multiset(Flat(pages))[r] == 1 {
        RunReaches(p, tables, pages, like, history, r);
        RankedOnce(!Ascending(p), Flat(pages), r);
      }
    }
  }

  // ---------- An unchanged table ----------

  lemma OffsetOfRun(p: Param, table: seq<Row>, pages: seq<seq<Row>>, like: Like, history: set<Row>)
    requires Steady(p, like, history) && Snapshot(table, history)
    requires Followed(p, seq(|pages|, _ => table), pages, like)
    ensures pages[|pages| - 1] == Window(Listing(p, table, like), (|pages| - 1) * p.pageSize, p.pageSize)
  {
    var tables := seq(|pages|, _ => table);
    FollowedWalks(p, tables, pages, like, history);
    ListingRanks(p, table, like, history);
    WalkIsOffset(!Ascending(p), p.pageSize, Listing(p, table, like), Listings(p, tables, like), pages, |pages| - 1);
  }

  /** On an unchanged table, following cursors m times is the same as asking for page m + 1. */
  lemma KeysetIsOffset(p: Param, table: seq<Row>, pages: seq<seq<Row>>, like: Like, history: set<Row>)
    requires Steady(p, like, history) && Snapshot(table, history)
    requires Followed(p, seq(|pages|, _ => table), pages, like)
    ensures Fetch(table, FirstOf(p).(pageNum := |pages|), like) == Ok(pages[|pages| - 1])
  {
    OffsetOfRun(p, table, pages, like, history);
    FirstIsListing(p, |pages|, table, like);
  }

  lemma {:induction false} ReversedRanks(descending: bool, s: seq<Row>)
    requires Ranked(descending, s)
    ensures Ranked(!descending, Reversed(s)) && forall r :: r in Reversed(s) <==> r in s
  {
    forall r | r in s ensures r in Reversed(s) {
      var i :| 0 <= i < |s| && s[i] == r;
      assert Reversed(s)[|s| - 1 - i] == r;
    }
    forall r | r in Reversed(s) ensures r in s {
      var i :| 0 <= i < |s| && Reversed(s)[i] == r;
      assert s[|s| - 1 - i] == r;
    }
  }

  lemma BeforeAt(descending: bool, listing: seq<Row>, k: nat, r: Row)
    requires Ranked(descending, listing) && k < |listing|
    ensures r in listing[..k] <==> r in listing && Rank(descending, r) < Rank(descending, listing[k])
  {
    if r in listing {
      var i :| 0 <= i < |listing| && listing[i] == r;
      assert i < k ==> listing[..k][i] == r;
    }
  }

  /** What a previous query selects: the rows listed before the cursor, the nearest first. */
  lemma PrevSelects(p: Param, table: seq<Row>, k: nat, like: Like, history: set<Row>)
    requires Reversible(p, like, history)
    requires Snapshot(table, history) && k < |Listing(p, table, like)|
    ensures var listing := Listing(p, table, like);
            Selected(table, Compile(PrevOf(p, listing[k].id)).value, like) == Reversed(listing[..k])
  {
    var listing, descending := Listing(p, table, like), !Ascending(p);
    var c, q := listing[k], Compile(PrevOf(p, listing[k].id)).value;
    ListingRanks(p, table, like, history);
    SelectedRanks(table, q, like, history);
    ReversedRanks(descending, listing[..k]);
    assert c in listing;
    forall r ensures r in Selected(table, q, like) <==> r in Reversed(listing[..k]) {
      if r in table {
        PrevMatches(p, r, c, like, history);
      }
      BeforeAt(descending, listing, k, r);
    }
    RankedIsUnique(!descending, Selected(table, q, like), Reversed(listing[..k]));
  }

  lemma ReversedAt<T>(s: seq<T>, i: nat)
    requires i < |s|
    ensures |Reversed(s)| == |s| && Reversed(s)[i] == s[|s| - 1 - i]
  {
  }

  /** Turning round, taking the first and turning round again leaves the last, in order. */
  lemma ReversedTail<T>(s: seq<T>, limit: nat)
    requires limit <= |s|
    ensures Reversed(Reversed(s)[..limit]) == s[|s| - limit..]
  {
    var page := Reversed(s)[..limit];
    forall i: nat | i < limit ensures Reversed(page)[i] == s[|s| - limit..][i] {
      ReversedAt(page, i);
      ReversedAt(s, limit - 1 - i);
    }
  }

  lemma BackwardsWindow(listing: seq<Row>, k: nat, limit: nat)
    requires limit <= k <= |listing|
    ensures Reversed(Window(Reversed(listing[..k]), 0, limit)) == listing[k - limit..k]
  {
    var before := Reversed(listing[..k]);
    assert before[0..] == before;
    ReversedTail(listing[..k], limit);
    assert listing[..k][k - limit..] == listing[k - limit..k];
  }

  lemma BackFetch(p: Param, table: seq<Row>, id: nat, rows: seq<Row>, like: Like)
    requires WellAsked(p) && Selected(table, Compile(PrevOf(p, id)).value, like) == rows
    ensures Fetch(table, PrevOf(p, id), like) == Ok(Reversed(Window(rows, 0, p.pageSize)))
  {
  }

  lemma PrevPageIs(p: Param, table: seq<Row>, k: nat, like: Like, history: set<Row>)
    requires Reversible(p, like, history)
    requires Snapshot(table, history) && p.pageSize <= k < |Listing(p, table, like)|
    ensures var listing := Listing(p, table, like);
            Fetch(table, PrevOf(p, listing[k].id), like) == Ok(listing[k - p.pageSize..k])
  {
    var listing := Listing(p, table, like);
    PrevSelects(p, table, k, like, history);
    BackwardsWindow(listing, k, p.pageSize);
    BackFetch(p, table, listing[k].id, Reversed(listing[..k]), like);
  }

  lemma NextPageAt(p: Param, table: seq<Row>, k: nat, like: Like, history: set<Row>)
    requires Steady(p, like, history) && Snapshot(table, history) && k < |Listing(p, table, like)|
    ensures var listing := Listing(p, table, like);
            Fetch(table, NextOf(p, listing[k].id), like) == Ok(Window(listing, k + 1, p.pageSize))
  {
    var listing := Listing(p, table, like);
    ListingRanks(p, table, like, history);
    assert listing[k] in listing;
    NextIsBeyond(p, table, listing[k], like, history);
    BeyondAt(!Ascending(p), listing, k);
    WindowWithin(listing, k + 1, p.pageSize);
  }

  // ---------- One step forward and one back ----------

  /** A table as what its pages are. */
  type Pager = Param -> Result<seq<Row>>

  function PagerOf(table: seq<Row>, like: Like): Pager {
    (q: Param) => if q.pageNum >= 1 then Fetch(table, q, like) else Err("page number")
  }

  /** Next and previous pages of a listing are its windows. */
  ghost predicate Windows(fetch: Pager, p: Param, listing: seq<Row>) {
    && (forall k :: 0 <= k < |listing| ==>
          fetch(NextOf(p, listing[k].id)) == Ok(Window(listing, k + 1, p.pageSize)))
    && (forall k :: p.pageSize <= k < |listing| ==>
          fetch(PrevOf(p, listing[k].id)) == Ok(listing[k - p.pageSize..k]))
  }

  lemma PagesAreWindows(p: Param, table: seq<Row>, like: Like, history: set<Row>)
    requires Reversible(p, like, history) && Snapshot(table, history)
    ensures Windows(PagerOf(table, like), p, Listing(p, table, like))
  {
    var listing, fetch := Listing(p, table, like), PagerOf(table, like);
    forall k | 0 <= k < |listing|
      ensures fetch(NextOf(p, listing[k].id)) == Ok(Window(listing, k + 1, p.pageSize))
    {
      NextPageAt(p, table, k, like, history);
    }
    forall k | p.pageSize <= k < |listing|
      ensures fetch(PrevOf(p, listing[k].id)) == Ok(listing[k - p.pageSize..k])
    {
      PrevPageIs(p, table, k, like, history);
    }
  }

  lemma NextWindow(listing: seq<Row>, from: nat, limit: nat, page: seq<Row>, next: seq<Row>)
    requires page == Window(listing, from, limit) && |page| == limit >= 1
    requires next == Window(listing, from + limit, limit) && next != []
    ensures limit <= from + limit < |listing| && next[0] == listing[from + limit]
    ensures page == listing[from..from + limit] && Last(page) == listing[from + limit - 1]
  {
  }

  lemma StepAndBack(fetch: Pager, p: Param, listing: seq<Row>, from: nat, page: seq<Row>, next: seq<Row>)
    requires Windows(fetch, p, listing) && p.pageSize >= 1
    requires page == Window(listing, from, p.pageSize) && |page| == p.pageSize
    requires fetch(NextOf(p, Last(page).id)) == Ok(next) && next != []
    ensures fetch(PrevOf(p, next[0].id)) == Ok(page)
  {
    var k := from + p.pageSize - 1;
    assert k < |listing| && Last(page) == listing[k];
    assert fetch(NextOf(p, listing[k].id)) == Ok(Window(listing, k + 1, p.pageSize));
    NextWindow(listing, from, p.pageSize, page, next);
  }

  /** Previous undoes next: from a full first page, one step forward and one step back give the
      same page in the same order. */
  lemma PreviousUndoesNextFromFirst(p: Param, table: seq<Row>, page: seq<Row>, next: seq<Row>, like: Like,
                                    history: set<Row>)
    requires Reversible(p, like, history) && Snapshot(table, history)
    requires Fetch(table, FirstOf(p), like) == Ok(page) && |page| == p.pageSize
    requires Fetch(table, NextOf(p, Last(page).id), like) == Ok(next) && next != []
    ensures Fetch(table, PrevOf(p, next[0].id), like) == Ok(page)
  {
    FirstPageIs(p, table, page, like);
    PagesAreWindows(p, table, like, history);
    StepAndBack(PagerOf(table, like), p, Listing(p, table, like), 0, page, next);
  }

  /** The same from a full page that itself followed a listed row. */
  lemma PreviousUndoesNext(p: Param, table: seq<Row>, c: Row, page: seq<Row>, next: seq<Row>, like: Like,
                           history: set<Row>)
    requires Reversible(p, like, history) && Snapshot(table, history)
    requires c in Listing(p, table, like)
    requires Fetch(table, NextOf(p, c.id), like) == Ok(page) && |page| == p.pageSize
    requires Fetch(table, NextOf(p, Last(page).id), like) == Ok(next) && next != []
    ensures Fetch(table, PrevOf(p, next[0].id), like) == Ok(page)
  {
    PagesAreWindows(p, table, like, history);
    StepAndBackFrom(PagerOf(table, like), p, Listing(p, table, like), c, page, next);
  }

  lemma StepAndBackFrom(fetch: Pager, p: Param, listing: seq<Row>, c: Row, page: seq<Row>, next: seq<Row>)
    requires Windows(fetch, p, listing) && p.pageSize >= 1 && c in listing
    requires fetch(NextOf(p, c.id)) == Ok(page) && |page| == p.pageSize
    requires fetch(NextOf(p, Last(page).id)) == Ok(next) && next != []
    ensures fetch(PrevOf(p, next[0].id)) == Ok(page)
  {
    var k :| 0 <= k < |listing| && listing[k] == c;
    assert fetch(NextOf(p, listing[k].id)) == Ok(Window(listing, k + 1, p.pageSize));
    StepAndBack(fetch, p, listing, k + 1, page, next);
  }
}
