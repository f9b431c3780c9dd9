/** Where following next cursors is sound, and what goes wrong everywhere else. */
module PagingLimits {
  import opened Common
  import opened DomainPaging
  import opened KeysetPaging

  /** Every run of pages over every sequence of snapshots is orderly. */
  ghost predicate Sound(p: Param, like: Like, history: set<Row>)
    requires WellAsked(p)
  {
    forall tables, pages :: Snapshots(tables, history) && Followed(p, tables, pages, like) ==>
                              Orderly(p, tables, pages, like)
  }

  function WantedIn(p: Param, like: Like, history: set<Row>): set<Row>
    requires WellAsked(p)
  {
    set r | r in history && Wanted(p, r, like)
  }

  /** Time order agrees with id order where a page is sorted by time, and a cursor stands in for a
      time bound only where the bound holds. In ascending order an upper bound leaves next cursors
      nothing or the wrong side: all has to fit on one page, and nothing may lie below a listed row. */
  ghost predicate Pageable(p: Param, like: Like, history: set<Row>)
    requires WellAsked(p)
  {
    && FirstInOrder(p, like, history)
    && if NextGoesOn(p) then NextKeepsBounds(p, like, history)
       else if p.after.Some? then |WantedIn(p, like, history)| <= p.pageSize
       else NothingBelow(p, like, history)
  }

  ghost predicate NothingBelow(p: Param, like: Like, history: set<Row>)
    requires WellAsked(p)
  {
    forall c, r :: Beside(p, c, r, like, history) ==> c.id <= r.id
  }

  // ---------- Small tables ----------

  lemma SelectedTwo(a: Row, b: Row, q: Query, like: Like)
    ensures var ma, mb := Matches(q.clauses, a, like), Matches(q.clauses, b, like);
            Selected([a, b], q, like) ==
            if ma && mb then (if Precedes(q.ordering, a, b) then [a, b] else [b, a])
            else if ma then [a] else if mb then [b] else []
  {
    assert [a, b][1..] == [b] && [b][1..] == [];
    assert Selected([b], q, like) == if Matches(q.clauses, b, like) then [b] else [];
    assert Place(a, [], q.ordering) == [a];
    assert [b] + [a] == [b, a] && [a] + [b] == [a, b];
  }

  lemma OneRow(x: Row, limit: nat)
    requires limit >= 1
    ensures Window([x], 0, limit) == [x]
  {
    assert [x][0..] == [x] && [x][..1] == [x];
  }

  /** From a table of two rows of which one matches, that row is the page. */
  lemma PairGives(a: Row, b: Row, q: Param, like: Like, x: Row)
    requires Compile(q).Ok? && !Backwards(q) && q.pageNum == 1 && q.pageSize >= 1
    requires x == a || x == b
    requires Matches(Compile(q).value.clauses, a, like) <==> a == x
    requires Matches(Compile(q).value.clauses, b, like) <==> b == x
    requires a != b
    ensures Fetch([a, b], q, like) == Ok([x])
  {
    PageIs([a, b], q, like);
    SelectedTwo(a, b, Compile(q).value, like);
    OneRow(x, q.pageSize);
  }

  lemma FollowedTwo(p: Param, s: seq<Row>, t: seq<Row>, first: seq<Row>, next: seq<Row>, like: Like)
    requires WellAsked(p) && first != []
    requires Fetch(s, FirstOf(p), like) == Ok(first) && Fetch(t, NextOf(p, Last(first).id), like) == Ok(next)
    ensures Followed(p, [s, t], [first, next], like)
    ensures Flat([first, next]) == first + next && Last([first, next]) == next
  {
    var tables, pages := [s, t], [first, next];
    forall k: nat ensures FetchedAt(p, tables, pages, like, k) {
      if k < |pages| {
        assert Fetched(p, tables[k], Before(pages, k), k, pages[k], like);
      }
    }
    FlatOfOne(first);
    assert pages[..1] == [first];
  }

  lemma FollowedOne(p: Param, table: seq<Row>, first: seq<Row>, like: Like)
    requires WellAsked(p) && Fetch(table, FirstOf(p), like) == Ok(first)
    ensures Followed(p, [table], [first], like) && Flat([first]) == first
  {
    var tables, pages := [table], [first];
    assert Fetched(p, table, [], 0, first, like);
    forall k: nat ensures FetchedAt(p, tables, pages, like, k) {
    }
    FlatOfOne(first);
  }

  lemma TwoSnapshots(s: seq<Row>, t: seq<Row>, history: set<Row>)
    requires Snapshot(s, history) && Snapshot(t, history)
    ensures Snapshots([s, t], history) && Snapshots([s], history)
  {
  }

  // ---------- Where runs go wrong ----------

  /** A row beyond the cursor and outside the time bound that the cursor stands in for. */
  predicate Leaves(p: Param, c: Row, r: Row) {
    if Ascending(p) then p.after.Some? && c.id < r.id && r.timestamp < p.after.value
    else p.before.Some? && r.id < c.id && r.timestamp > p.before.value
  }

  lemma LeavingRowMatches(p: Param, c: Row, r: Row, like: Like)
    requires WellAsked(p) && NextGoesOn(p) && Wanted(p, c, like) && Agrees(p, r, like) && Leaves(p, c, r)
    ensures !Wanted(p, r, like) && r != c
    ensures var clauses := Compile(NextOf(p, c.id)).value.clauses;
            Matches(clauses, r, like) && !Matches(clauses, c, like)
  {
    WantedIs(p, c, like);
    WantedIs(p, r, like);
    CursorQueryMatches(p, Cursor(Some(c.id), NextPage), c, like);
    CursorQueryMatches(p, Cursor(Some(c.id), NextPage), r, like);
  }

  lemma LeavingPages(p: Param, c: Row, r: Row, like: Like)
    requires WellAsked(p) && NextGoesOn(p) && Wanted(p, c, like) && Agrees(p, r, like) && Leaves(p, c, r)
    ensures Fetch([r, c], FirstOf(p), like) == Ok([c]) && Fetch([r, c], NextOf(p, c.id), like) == Ok([r])
    ensures !Wanted(p, r, like)
  {
    LeavingRowMatches(p, c, r, like);
    PairGives(r, c, FirstOf(p), like, c);
    PairGives(r, c, NextOf(p, c.id), like, r);
  }

  /** A row beyond a listed one and outside the time bound the cursor stands in for is listed next,
      though it is not wanted. */
  lemma CursorLeavesTimeBound(p: Param, c: Row, r: Row, like: Like)
    requires WellAsked(p) && NextGoesOn(p) && Wanted(p, c, like) && Agrees(p, r, like)
    requires Leaves(p, c, r)
    ensures Followed(p, [[r, c], [r, c]], [[c], [r]], like) && !Wanted(p, r, like)
    ensures !Orderly(p, [[r, c], [r, c]], [[c], [r]], like)
  {
    LeavingPages(p, c, r, like);
    FollowedTwo(p, [r, c], [r, c], [c], [r], like);
    assert r in [c] + [r];
  }

  /** In ascending order with an upper bound alone, a next cursor brings back a row below it. */
  lemma AscendingBoundTurnsBack(p: Param, c: Row, r: Row, like: Like)
    requires WellAsked(p) && !NextGoesOn(p) && p.after.None? && Wanted(p, c, like) && Agrees(p, r, like) && r.id < c.id
    ensures Followed(p, [[c], [r, c]], [[c], [r]], like) && !Orderly(p, [[c], [r, c]], [[c], [r]], like)
  {
    WantedIs(p, c, like);
    CursorQueryMatches(p, Cursor(Some(c.id), NextPage), c, like);
    CursorQueryMatches(p, Cursor(Some(c.id), NextPage), r, like);
    OneRowGives(c, FirstOf(p), like);
    PairGives(r, c, NextOf(p, c.id), like, r);
    FollowedTwo(p, [c], [r, c], [c], [r], like);
    var flat := [c] + [r];
    assert Rank(false, flat[0]) > Rank(false, flat[1]);
  }

  lemma OneRowGives(x: Row, q: Param, like: Like)
    requires Compile(q).Ok? && !Backwards(q) && q.pageNum == 1 && q.pageSize >= 1
    requires Matches(Compile(q).value.clauses, x, like)
    ensures Fetch([x], q, like) == Ok([x])
  {
    PageIs([x], q, like);
    assert [x][1..] == [];
    assert Place(x, [], Compile(q).value.ordering) == [x];
    OneRow(x, q.pageSize);
  }

  /** With an upper bound, no row beyond the cursor is ever listed in ascending order. */
  lemma AscendingBoundLosesRows(p: Param, c: Row, r: Row, like: Like)
    requires WellAsked(p) && !NextGoesOn(p) && c.id <= r.id
    ensures !Matches(Compile(NextOf(p, c.id)).value.clauses, r, like)
  {
    CursorQueryMatches(p, Cursor(Some(c.id), NextPage), r, like);
  }

  /** Two wanted rows whose ids and times disagree, in the order of a page sorted by time. */
  lemma DisagreeingPair(p: Param, a: Row, b: Row, like: Like) returns (x: Row, y: Row)
    requires WellAsked(p) && TimestampFirst(FirstOf(p)) && Wanted(p, a, like) && Wanted(p, b, like)
    requires a.id < b.id && a.timestamp > b.timestamp
    ensures Listing(p, [a, b], like) == [x, y] && Rank(!Ascending(p), x) > Rank(!Ascending(p), y)
    ensures (x == a && y == b) || (x == b && y == a)
  {
    SelectedTwo(a, b, Compile(FirstOf(p)).value, like);
    if Ascending(p) {
      x, y := b, a;
    } else {
      x, y := a, b;
    }
  }

  lemma PairOnOnePage(p: Param, a: Row, b: Row, x: Row, y: Row, like: Like)
    requires WellAsked(p) && p.pageSize >= 2 && Listing(p, [a, b], like) == [x, y]
    requires Rank(!Ascending(p), x) > Rank(!Ascending(p), y)
    ensures Followed(p, [[a, b]], [[x, y]], like) && !Orderly(p, [[a, b]], [[x, y]], like)
  {
    PageIs([a, b], FirstOf(p), like);
    var flat := [x, y];
    assert flat[0..] == flat && Window(flat, 0, p.pageSize) == flat;
    FollowedOne(p, [a, b], flat, like);
    assert Rank(!Ascending(p), flat[0]) > Rank(!Ascending(p), flat[1]);
  }

  lemma NextFromPair(p: Param, a: Row, b: Row, id: nat, like: Like) returns (next: seq<Row>)
    requires WellAsked(p)
    ensures Fetch([a, b], NextOf(p, id), like) == Ok(next) && forall r :: r in next ==> r == a || r == b
  {
    PageIs([a, b], NextOf(p, id), like);
    SelectedTwo(a, b, Compile(NextOf(p, id)).value, like);
    next := Fetch([a, b], NextOf(p, id), like).value;
  }

  lemma FirstOfPair(p: Param, a: Row, b: Row, x: Row, y: Row, like: Like)
    requires WellAsked(p) && p.pageSize == 1 && Listing(p, [a, b], like) == [x, y]
    ensures Fetch([a, b], FirstOf(p), like) == Ok([x])
  {
    PageIs([a, b], FirstOf(p), like);
    assert [x, y][0..] == [x, y] && [x, y][..1] == [x];
  }

  lemma PairOnTwoPages(p: Param, a: Row, b: Row, x: Row, y: Row, like: Like) returns (next: seq<Row>)
    requires WellAsked(p) && p.pageSize == 1 && Listing(p, [a, b], like) == [x, y]
    requires Rank(!Ascending(p), x) > Rank(!Ascending(p), y) && (y == a || y == b) && (x == a || x == b)
    requires Wanted(p, y, like) && a != b
    ensures Followed(p, [[a, b], [a, b]], [[x], next], like) && !Orderly(p, [[a, b], [a, b]], [[x], next], like)
  {
    FirstOfPair(p, a, b, x, y, like);
    next := NextFromPair(p, a, b, x.id, like);
    FollowedTwo(p, [a, b], [a, b], [x], next, like);
    RestMisorders(p, x, y, next, like);
    assert InAll(y, [[a, b], [a, b]]);
  }

  /** After the later of the two, a page of at most one row is no help. */
  lemma RestMisorders(p: Param, x: Row, y: Row, next: seq<Row>, like: Like)
    requires Rank(!Ascending(p), x) > Rank(!Ascending(p), y)
    requires forall r :: r in next ==> r == x || r == y
    ensures next == [] ==> multiset([x] + next)[y] == 0
    ensures next != [] ==> !Ranked(!Ascending(p), [x] + next)
  {
    if next != [] {
      var flat := [x] + next;
      assert next[0] in next;
      assert Rank(!Ascending(p), flat[0]) >= Rank(!Ascending(p), flat[1]);
    } else {
      assert [x] + next == [x];
    }
  }

  /** They come out of order on one page, or on two, or one of them is lost. */
  lemma TimeOrderMisordersIds(p: Param, a: Row, b: Row, like: Like)
    returns (tables: seq<seq<Row>>, pages: seq<seq<Row>>)
    requires WellAsked(p) && TimestampFirst(FirstOf(p)) && Wanted(p, a, like) && Wanted(p, b, like)
    requires a.id < b.id && a.timestamp > b.timestamp
    ensures (forall t :: t in tables ==> t == [a, b]) && Followed(p, tables, pages, like)
    ensures !Orderly(p, tables, pages, like)
  {
    var x, y := DisagreeingPair(p, a, b, like);
    if p.pageSize >= 2 {
      PairOnOnePage(p, a, b, x, y, like);
      tables, pages := [[a, b]], [[x, y]];
    } else {
      var next := PairOnTwoPages(p, a, b, x, y, like);
      tables, pages := [[a, b], [a, b]], [[x], next];
    }
  }

  lemma {:induction false} Enumerate(rows: set<Row>) returns (table: seq<Row>)
    ensures |table| == |rows| && forall r :: r in table <==> r in rows
    ensures forall i, j :: 0 <= i < j < |table| ==> table[i] != table[j]
  {
    table := [];
    if rows != {} {
      var r :| r in rows;
      var rest := Enumerate(rows - {r});
      table := [r] + rest;
    }
  }

  lemma {:induction false} AtMostItsLength(rows: set<Row>, s: seq<Row>)
    requires forall r :: r in rows ==> r in s
    ensures |rows| <= |s|
    decreases |s|
  {
    if s == [] {
      assert rows == {};
    } else {
      forall r | r in rows - {s[0]} ensures r in s[1..] {
      }
      AtMostItsLength(rows - {s[0]}, s[1..]);
    }
  }

  /** In ascending order with both bounds the second page is always empty. */
  lemma AscendingBoundsEndRun(p: Param, table: seq<Row>, id: nat, like: Like)
    requires WellAsked(p) && !NextGoesOn(p) && p.after.Some?
    ensures Fetch(table, NextOf(p, id), like) == Ok([])
  {
    var q := Compile(NextOf(p, id)).value;
    forall r ensures !Matches(q.clauses, r, like) {
      CursorQueryMatches(p, Cursor(Some(id), NextPage), r, like);
    }
    NothingSelected(table, q, like);
  }

  lemma {:induction false} NothingSelected(table: seq<Row>, q: Query, like: Like)
    requires forall r :: r in table ==> !Matches(q.clauses, r, like)
    ensures Selected(table, q, like) == []
  {
    if table != [] {
      NothingSelected(table[1..], q, like);
    }
  }

  /** With more wanted rows than fit on a page, the run that shows them all loses some. */
  lemma AscendingBoundsLoseRows(p: Param, like: Like, history: set<Row>) returns (table: seq<Row>, first: seq<Row>)
    requires WellAsked(p) && !NextGoesOn(p) && p.after.Some? && UniqueIds(history)
    requires |WantedIn(p, like, history)| > p.pageSize
    ensures Snapshot(table, history) && Followed(p, [table, table], [first, []], like)
    ensures !Orderly(p, [table, table], [first, []], like)
  {
    var wanted := WantedIn(p, like, history);
    table := Enumerate(wanted);
    forall i, j | 0 <= i < j < |table| ensures table[i].id != table[j].id {
      assert table[i] in table && table[j] in table;
    }
    SelectedSorts(table, Compile(FirstOf(p)).value, like);
    var listing := Listing(p, table, like);
    AtMostItsLength(wanted, listing);
    first := listing[..p.pageSize];
    FullWindow(listing, p.pageSize);
    PageIs(table, FirstOf(p), like);
    AscendingBoundsEndRun(p, table, Last(first).id, like);
    FollowedTwo(p, table, table, first, [], like);
    FirstLeftOut(p, table, listing, like);
  }

  lemma FullWindow<T>(rows: seq<T>, limit: nat)
    requires limit <= |rows|
    ensures Window(rows, 0, limit) == rows[..limit]
  {
    assert rows[0..] == rows;
  }

  lemma FirstLeftOut(p: Param, table: seq<Row>, listing: seq<Row>, like: Like)
    requires WellAsked(p) && p.pageSize < |listing| && Sorted(Compile(FirstOf(p)).value.ordering, listing)
    requires forall r :: r in listing ==> r in table && Wanted(p, r, like)
    requires Flat([listing[..p.pageSize], []]) == listing[..p.pageSize] + []
    ensures !Orderly(p, [table, table], [listing[..p.pageSize], []], like)
  {
    var first, r := listing[..p.pageSize], listing[p.pageSize];
    assert r in listing && r !in first && InAll(r, [table, table]);
    assert first + [] == first;
  }

  // ---------- Sound all the same ----------

  lemma FewWanted(p: Param, like: Like, history: set<Row>)
    requires WellAsked(p) && UniqueIds(history) && Pageable(p, like, history) && !NextGoesOn(p)
    ensures |WantedIn(p, like, history)| <= p.pageSize
  {
    var wanted := WantedIn(p, like, history);
    if p.after.None? && wanted != {} {
      var c :| c in wanted;
      forall r | r in wanted ensures r == c {
        WantedIs(p, r, like);
        WantedIs(p, c, like);
        assert Beside(p, c, r, like, history) && Beside(p, r, c, like, history);
      }
      assert wanted == {c};
    }
  }

  /** Then no row is ever listed after the first page. */
  lemma NextIsEmpty(p: Param, table: seq<Row>, c: Row, like: Like, history: set<Row>)
    requires WellAsked(p) && Pageable(p, like, history) && !NextGoesOn(p)
    requires Snapshot(table, history) && c in history && Wanted(p, c, like)
    ensures Fetch(table, NextOf(p, c.id), like) == Ok([])
  {
    if p.after.Some? {
      AscendingBoundsEndRun(p, table, c.id, like);
    } else {
      var q := Compile(NextOf(p, c.id)).value;
      forall r | r in table ensures !Matches(q.clauses, r, like) {
        CursorQueryMatches(p, Cursor(Some(c.id), NextPage), r, like);
        assert Agrees(p, r, like) ==> Beside(p, c, r, like, history);
      }
      NothingSelected(table, q, like);
    }
  }

  lemma {:induction false} RankedLength(descending: bool, s: seq<Row>, rows: set<Row>)
    requires Ranked(descending, s) && forall r :: r in s ==> r in rows
    ensures |s| <= |rows|
    decreases |s|
  {
    if s != [] {
      forall r | r in s[1..] ensures r in rows - {s[0]} {
        RankedTail(descending, s, r);
      }
      RankedTail(descending, s, s[0]);
      RankedLength(descending, s[1..], rows - {s[0]});
    }
  }

  lemma FirstShowsAll(p: Param, table: seq<Row>, first: seq<Row>, like: Like, history: set<Row>)
    requires WellAsked(p) && UniqueIds(history) && Pageable(p, like, history) && !NextGoesOn(p)
    requires Snapshot(table, history) && Fetch(table, FirstOf(p), like) == Ok(first)
    ensures first == Listing(p, table, like) && |first| <= p.pageSize
  {
    var listing := Listing(p, table, like);
    FewWanted(p, like, history);
    ListingRanks(p, table, like, history);
    RankedLength(!Ascending(p), listing, WantedIn(p, like, history));
    FirstPageIs(p, table, first, like);
    assert listing[0..] == listing;
  }

  lemma TurnedRunIsOrderly(p: Param, tables: seq<seq<Row>>, pages: seq<seq<Row>>, like: Like, history: set<Row>)
    requires WellAsked(p) && UniqueIds(history) && Pageable(p, like, history) && !NextGoesOn(p)
    requires Snapshots(tables, history) && Followed(p, tables, pages, like)
    ensures Orderly(p, tables, pages, like)
  {
    assert FetchedAt(p, tables, pages, like, 0) && tables[0] in tables;
    var first := pages[0];
    FirstShowsAll(p, tables[0], first, like, history);
    ListingRanks(p, tables[0], like, history);
    RunIsFirst(p, tables, pages, like, history);
    forall r | InAll(r, tables) && Wanted(p, r, like) ensures multiset(first)[r] == 1 {
      RankedOnce(!Ascending(p), first, r);
    }
  }

  lemma FlatOfOne(first: seq<Row>)
    ensures Flat([first]) == first && Flat([first, []]) == first
  {
    assert [first][..0] == [] && [first, []][..1] == [first];
    assert Flat([first]) == [] + first == first;
  }

  lemma SecondIsEmpty(p: Param, tables: seq<seq<Row>>, pages: seq<seq<Row>>, like: Like, history: set<Row>)
    requires WellAsked(p) && UniqueIds(history) && Pageable(p, like, history) && !NextGoesOn(p)
    requires Snapshots(tables, history) && Followed(p, tables, pages, like) && |pages| > 1
    requires forall r :: r in pages[0] ==> r in history && Wanted(p, r, like)
    ensures pages[1] == []
  {
    assert FetchedAt(p, tables, pages, like, 1) && tables[1] in tables;
    NextIsEmpty(p, tables[1], Last(pages[0]), like, history);
  }

  lemma NothingFollowsEmpty(p: Param, tables: seq<seq<Row>>, pages: seq<seq<Row>>, like: Like)
    requires Followed(p, tables, pages, like) && |pages| > 1 && pages[1] == []
    ensures |pages| == 2
  {
    assert FetchedAt(p, tables, pages, like, 2);
  }

  lemma RunIsFirst(p: Param, tables: seq<seq<Row>>, pages: seq<seq<Row>>, like: Like, history: set<Row>)
    requires WellAsked(p) && UniqueIds(history) && Pageable(p, like, history) && !NextGoesOn(p)
    requires Snapshots(tables, history) && Followed(p, tables, pages, like)
    requires forall r :: r in pages[0] ==> r in history && Wanted(p, r, like)
    ensures Flat(pages) == pages[0] && |pages| <= 2 && (|pages| == 2 ==> pages[1] == [])
  {
    FlatOfOne(pages[0]);
    if |pages| > 1 {
      SecondIsEmpty(p, tables, pages, like, history);
      NothingFollowsEmpty(p, tables, pages, like);
      assert pages == [pages[0], []];
    } else {
      assert pages == [pages[0]];
    }
  }

  // ---------- Exactly where paging is sound ----------

  /** Following next cursors is orderly, whatever the snapshots, if and only if the rows of the
      history meet the condition of their parameters. */
  lemma PagingIsSoundIff(p: Param, like: Like, history: set<Row>)
    requires WellAsked(p) && UniqueIds(history)
    ensures Sound(p, like, history) <==> Pageable(p, like, history)
  {
    if Pageable(p, like, history) {
      forall tables, pages | Snapshots(tables, history) && Followed(p, tables, pages, like)
        ensures Orderly(p, tables, pages, like)
      {
        if NextGoesOn(p) {
          PagingUnderChange(p, tables, pages, like, history);
        } else {
          TurnedRunIsOrderly(p, tables, pages, like, history);
        }
      }
    }
    if Sound(p, like, history) {
      SoundNeedsOrder(p, like, history);
      SoundNeedsBounds(p, like, history);
      if !NextGoesOn(p) {
        SoundNeedsRoom(p, like, history);
      }
    }
  }

  /** And wherever it is sound, following cursors on an unchanged table is asking for pages by offset. */
  lemma SoundKeysetIsOffset(p: Param, table: seq<Row>, pages: seq<seq<Row>>, like: Like, history: set<Row>)
    requires WellAsked(p) && UniqueIds(history) && Sound(p, like, history) && Snapshot(table, history)
    requires Followed(p, seq(|pages|, _ => table), pages, like)
    ensures Fetch(table, FirstOf(p).(pageNum := |pages|), like) == Ok(pages[|pages| - 1])
  {
    PagingIsSoundIff(p, like, history);
    if NextGoesOn(p) {
      KeysetIsOffset(p, table, pages, like, history);
    } else {
      TurnedKeysetIsOffset(p, table, pages, like, history);
    }
  }

  lemma ShortWindows<T>(rows: seq<T>, limit: nat)
    requires |rows| <= limit
    ensures Window(rows, 0, limit) == rows && Window(rows, limit, limit) == []
  {
    assert rows[0..] == rows;
  }

  lemma TurnedFirst(p: Param, table: seq<Row>, tables: seq<seq<Row>>, pages: seq<seq<Row>>, like: Like,
                    history: set<Row>)
    requires WellAsked(p) && UniqueIds(history) && Pageable(p, like, history) && !NextGoesOn(p)
    requires Snapshot(table, history) && Followed(p, tables, pages, like) && tables[0] == table
    ensures pages[0] == Listing(p, table, like) && |pages[0]| <= p.pageSize
  {
    assert FetchedAt(p, tables, pages, like, 0);
    FirstShowsAll(p, table, pages[0], like, history);
  }

  lemma TurnedPages(p: Param, table: seq<Row>, pages: seq<seq<Row>>, like: Like, history: set<Row>)
    requires WellAsked(p) && UniqueIds(history) && Pageable(p, like, history) && !NextGoesOn(p)
    requires Snapshot(table, history) && Followed(p, seq(|pages|, _ => table), pages, like)
    ensures pages == [Listing(p, table, like)] || pages == [Listing(p, table, like), []]
    ensures |Listing(p, table, like)| <= p.pageSize
  {
    var tables := seq(|pages|, _ => table);
    TurnedFirst(p, table, tables, pages, like, history);
    ListingRanks(p, table, like, history);
    assert Snapshots(tables, history);
    RunIsFirst(p, tables, pages, like, history);
  }

  lemma OffsetWindow(pages: seq<seq<Row>>, listing: seq<Row>, limit: nat)
    requires (pages == [listing] || pages == [listing, []]) && |listing| <= limit
    ensures Window(listing, (|pages| - 1) * limit, limit) == pages[|pages| - 1]
  {
    ShortWindows(listing, limit);
    assert |pages| == 2 ==> (|pages| - 1) * limit == limit;
  }

  lemma TurnedKeysetIsOffset(p: Param, table: seq<Row>, pages: seq<seq<Row>>, like: Like, history: set<Row>)
    requires WellAsked(p) && UniqueIds(history) && Pageable(p, like, history) && !NextGoesOn(p)
    requires Snapshot(table, history) && Followed(p, seq(|pages|, _ => table), pages, like)
    ensures Fetch(table, FirstOf(p).(pageNum := |pages|), like) == Ok(pages[|pages| - 1])
  {
    TurnedPages(p, table, pages, like, history);
    OffsetWindow(pages, Listing(p, table, like), p.pageSize);
    FirstIsListing(p, |pages|, table, like);
  }

  lemma SoundNeedsOrder(p: Param, like: Like, history: set<Row>)
    requires WellAsked(p) && UniqueIds(history) && Sound(p, like, history)
    ensures FirstInOrder(p, like, history)
  {
    if TimestampFirst(FirstOf(p)) {
      forall a, b | a in history && b in history && a.id < b.id && Wanted(p, a, like) && Wanted(p, b, like)
        ensures a.timestamp <= b.timestamp
      {
        if a.timestamp > b.timestamp {
          var tables, pages := TimeOrderMisordersIds(p, a, b, like);
          assert Snapshots(tables, history);
        }
      }
    }
  }

  lemma SoundNeedsBounds(p: Param, like: Like, history: set<Row>)
    requires WellAsked(p) && Sound(p, like, history)
    ensures NextGoesOn(p) ==> NextKeepsBounds(p, like, history)
  {
    if NextGoesOn(p) {
      forall c, r | Beside(p, c, r, like, history) ensures !Leaves(p, c, r) {
        if Leaves(p, c, r) {
          CursorLeavesTimeBound(p, c, r, like);
          TwoSnapshots([r, c], [r, c], history);
        }
      }
    }
  }

  lemma SoundNeedsRoom(p: Param, like: Like, history: set<Row>)
    requires WellAsked(p) && UniqueIds(history) && Sound(p, like, history) && !NextGoesOn(p)
    ensures p.after.Some? ==> |WantedIn(p, like, history)| <= p.pageSize
    ensures p.after.None? ==> NothingBelow(p, like, history)
  {
    if p.after.Some? && |WantedIn(p, like, history)| > p.pageSize {
      var table, first := AscendingBoundsLoseRows(p, like, history);
      TwoSnapshots(table, table, history);
    }
    if p.after.None? {
      forall c, r | Beside(p, c, r, like, history) ensures c.id <= r.id {
        if r.id < c.id {
          AscendingBoundTurnsBack(p, c, r, like);
          TwoSnapshots([c], [r, c], history);
        }
      }
    }
  }

  // ---------- Previous pages ----------

  /** Every previous query draws exactly the wanted rows before its cursor. */
  ghost predicate PrevIsExact(p: Param, like: Like, history: set<Row>)
    requires WellAsked(p)
  {
    forall c, r :: c in history && r in history && Wanted(p, c, like) ==> PrevDrawsRight(p, c, r, like)
  }

  predicate PrevDrawsRight(p: Param, c: Row, r: Row, like: Like)
    requires WellAsked(p)
  {
    Matches(Compile(PrevOf(p, c.id)).value.clauses, r, like) <==>
    Wanted(p, r, like) && Rank(!Ascending(p), r) < Rank(!Ascending(p), c)
  }

  ghost predicate NothingAbove(p: Param, like: Like, history: set<Row>)
    requires WellAsked(p)
  {
    forall c, r :: Beside(p, c, r, like, history) ==> r.id <= c.id
  }

  ghost predicate OneWanted(p: Param, like: Like, history: set<Row>)
    requires WellAsked(p)
  {
    forall c, r :: c in history && r in history && Wanted(p, c, like) && Wanted(p, r, like) ==> c.id <= r.id
  }

  /** The condition for one cursor row and one other row. */
  predicate RightBeside(p: Param, c: Row, r: Row, like: Like)
    requires WellAsked(p)
  {
    if !PrevGoesBack(p) then
      if p.before.Some? then Wanted(p, r, like) ==> c.id <= r.id
      else (Agrees(p, r, like) ==> r.id <= c.id) && (Wanted(p, r, like) ==> c.id <= r.id)
    else Agrees(p, r, like) ==> !Returns(p, c, r)
  }

  /** A row before the cursor and outside the time bound that the cursor stands in for. */
  predicate Returns(p: Param, c: Row, r: Row) {
    if Ascending(p) then p.before.Some? && r.id < c.id && r.timestamp > p.before.value
    else p.after.Some? && c.id < r.id && r.timestamp < p.after.value
  }

  lemma DrawsRightIff(p: Param, c: Row, r: Row, like: Like)
    requires WellAsked(p) && Wanted(p, c, like)
    ensures PrevDrawsRight(p, c, r, like) <==> RightBeside(p, c, r, like)
  {
    WantedIs(p, c, like);
    WantedIs(p, r, like);
    CursorQueryMatches(p, Cursor(Some(c.id), PrevPage), r, like);
  }

  ghost predicate AllRight(p: Param, like: Like, history: set<Row>)
    requires WellAsked(p)
  {
    forall c, r :: c in history && r in history && Wanted(p, c, like) ==> RightBeside(p, c, r, like)
  }

  lemma AllRightIff(p: Param, like: Like, history: set<Row>)
    requires WellAsked(p)
    ensures PrevGoesBack(p) ==> (AllRight(p, like, history) <==> PrevKeepsBounds(p, like, history))
    ensures !PrevGoesBack(p) && p.before.Some? ==> (AllRight(p, like, history) <==> OneWanted(p, like, history))
  {
    if AllRight(p, like, history) && PrevGoesBack(p) {
      forall c, r | Beside(p, c, r, like, history) ensures !Returns(p, c, r) {
        assert RightBeside(p, c, r, like);
      }
    }
    if PrevKeepsBounds(p, like, history) && PrevGoesBack(p) {
      forall c, r | c in history && r in history && Wanted(p, c, like) ensures RightBeside(p, c, r, like) {
        assert Agrees(p, r, like) ==> Beside(p, c, r, like, history);
      }
    }
  }

  lemma TurnedRightIff(p: Param, like: Like, history: set<Row>)
    requires WellAsked(p) && !PrevGoesBack(p) && p.before.None?
    ensures AllRight(p, like, history) <==> NothingAbove(p, like, history)
  {
    if NothingAbove(p, like, history) {
      forall c, r | c in history && r in history && Wanted(p, c, like) ensures RightBeside(p, c, r, like) {
        WantedIs(p, c, like);
        assert Agrees(p, r, like) ==> Beside(p, c, r, like, history);
        assert Wanted(p, r, like) ==> Beside(p, r, c, like, history);
      }
    }
    if AllRight(p, like, history) {
      forall c, r | Beside(p, c, r, like, history) ensures r.id <= c.id {
        assert RightBeside(p, c, r, like);
      }
    }
  }

  /** Previous queries are exact if and only if the bound their cursor stands in for holds before the
      cursor; in ascending order with a lower bound, which turns them round, only for single rows. */
  lemma PrevIsExactIff(p: Param, like: Like, history: set<Row>)
    requires WellAsked(p)
    ensures PrevIsExact(p, like, history) <==>
            if PrevGoesBack(p) then PrevKeepsBounds(p, like, history)
            else if p.before.Some? then OneWanted(p, like, history) else NothingAbove(p, like, history)
  {
    forall c, r | c in history && r in history && Wanted(p, c, like)
      ensures PrevDrawsRight(p, c, r, like) <==> RightBeside(p, c, r, like)
    {
      DrawsRightIff(p, c, r, like);
    }
    assert PrevIsExact(p, like, history) <==> AllRight(p, like, history);
    AllRightIff(p, like, history);
    if !PrevGoesBack(p) && p.before.None? {
      TurnedRightIff(p, like, history);
    }
  }
}
