/** Listing the query log: a parameter record is compiled into a filter, an order and a limit, and
    pages are followed by cursor ids (keyset paging). A query is a conjunction of clauses, an order
    and a window over a table whose ids are unique and never reused. */
module DomainPaging {
  import opened Common

  // ---------- Parameters and queries ----------

  datatype Row = Row(id: nat, timestamp: nat, domain: string, domainType: nat, client: string,
                     group: string, replyCode: nat, blocked: bool, cached: bool)

  // Keywords are matched without regard to case; every other text is an error.
  datatype Order = Asc | Desc | BadOrder
  datatype Direction = NextPage | PrevPage | BadDirection
  datatype FilterMode = EndsWith | StartsWith | Contains | Equals | NotEmpty | BadMode

  datatype Cursor = Cursor(id: Option<nat>, direction: Direction)

  datatype Param = Param(
    id: Option<nat>, order: Option<Order>, pageNum: nat, pageSize: nat,
    domain: Option<string>, domainMode: Option<FilterMode>, domainType: Option<nat>,
    client: Option<string>, group: Option<string>, replyCode: Option<nat>,
    before: Option<nat>, after: Option<nat>, blocked: Option<bool>, cached: Option<bool>,
    cursor: Option<Cursor>)

  datatype Clause =
    | IdIs(id: nat) | IdBelow(id: nat) | IdAbove(id: nat)
    | DomainIs(text: string) | DomainLike(pattern: string) | DomainPresent
    | TypeIs(domainType: nat) | ClientIs(client: string) | GroupIs(group: string) | ReplyIs(code: nat)
    | UpTo(timestamp: nat) | From(timestamp: nat)
    | BlockedIs(flag: bool) | CachedIs(flag: bool)

  /** The pattern operator of the database, which stays uninterpreted. */
  type Like = (string, string) -> bool

  predicate Holds(c: Clause, r: Row, like: Like) {
    match c
    case IdIs(id) => r.id == id
    case IdBelow(id) => r.id < id
    case IdAbove(id) => r.id > id
    case DomainIs(text) => r.domain == text
    case DomainLike(pattern) => like(r.domain, pattern)
    case DomainPresent => r.domain != ""
    case TypeIs(t) => r.domainType == t
    case ClientIs(client) => r.client == client
    case GroupIs(group) => r.group == group
    case ReplyIs(code) => r.replyCode == code
    case UpTo(t) => r.timestamp <= t
    case From(t) => r.timestamp >= t
    case BlockedIs(flag) => r.blocked == flag
    case CachedIs(flag) => r.cached == flag
  }

  predicate Matches(clauses: seq<Clause>, r: Row, like: Like) {
    forall c :: c in clauses ==> Holds(c, r, like)
  }

  datatype Ordering = Ordering(descending: bool, timestampFirst: bool)

  datatype Query = Query(clauses: seq<Clause>, ordering: Ordering)

  // ---------- Compiling parameters ----------

  function When<T>(option: Option<T>, clause: T -> Clause): seq<Clause> {
    if option.Some? then [clause(option.value)] else []
  }

  function DomainClauses(p: Param): seq<Clause> {
    if p.domain.None? then []
    else if p.domainMode.None? then [DomainIs(p.domain.value)]
    else
      match p.domainMode.value
      case EndsWith => [DomainLike(p.domain.value + "%")]
      case StartsWith => [DomainLike("%" + p.domain.value)]
      case Contains => [DomainLike("%" + p.domain.value + "%")]
      case Equals => [DomainIs(p.domain.value)]
      case NotEmpty => [DomainPresent]
      case BadMode => []
  }

  function CursorId(p: Param): Option<nat> {
    if p.cursor.Some? then p.cursor.value.id else None
  }

  predicate Ascending(p: Param) {
    p.order == Some(Asc)
  }

  predicate Backwards(p: Param) {
    p.cursor.Some? && p.cursor.value.direction == PrevPage
  }

  /** With a cursor id, a time bound on the side the cursor moves towards gives way to the id. */
  predicate CursorReplacesBefore(p: Param) {
    p.before.Some? && CursorId(p).Some? && (!Backwards(p) || Ascending(p))
  }

  predicate CursorReplacesAfter(p: Param) {
    p.after.Some? && CursorId(p).Some? && (Backwards(p) || Ascending(p))
  }

  function BoundClauses(p: Param): seq<Clause> {
    (if CursorReplacesBefore(p) then [IdBelow(CursorId(p).value)] else When(p.before, t => UpTo(t))) +
    (if CursorReplacesAfter(p) then [IdAbove(CursorId(p).value)] else When(p.after, t => From(t)))
  }

  function CursorClauses(p: Param): seq<Clause> {
    if CursorReplacesBefore(p) || CursorReplacesAfter(p) || CursorId(p).None? then []
    else if Ascending(p) == Backwards(p) then [IdBelow(CursorId(p).value)]
    else [IdAbove(CursorId(p).value)]
  }

  function RowClauses(p: Param): seq<Clause> {
    When(p.domainType, t => TypeIs(t)) + When(p.client, c => ClientIs(c)) +
    When(p.group, g => GroupIs(g)) + When(p.replyCode, c => ReplyIs(c))
  }

  function FlagClauses(p: Param): seq<Clause> {
    When(p.blocked, b => BlockedIs(b)) + When(p.cached, b => CachedIs(b))
  }

  predicate TimestampFirst(p: Param) {
    p.id.None? && (p.domain.None? || p.domainMode.Some?) && p.domainType.None? && p.client.None? &&
    p.group.None? && p.replyCode.None? && p.blocked.None? && p.cached.None? && CursorId(p).None?
  }

  function Compile(p: Param): Result<Query> {
    if p.order == Some(BadOrder) then Err("order param error")
    else if p.cursor.Some? && p.cursor.value.direction == BadDirection then Err("cursor direction param error")
    else if p.domain.Some? && p.domainMode == Some(BadMode) then Err("domain_filter_mode param error")
    else
      Ok(Query(When(p.id, id => IdIs(id)) + DomainClauses(p) + RowClauses(p) + BoundClauses(p) +
               CursorClauses(p) + FlagClauses(p),
               Ordering(Ascending(p) == Backwards(p), TimestampFirst(p))))
  }

  /** The clause vector and the flags, updated step by step; the stages below do one part each. */
  method CompileQuery(p: Param) returns (result: Result<Query>)
    ensures result == Compile(p)
  {
    var isDescending, isAscendingOrder, timestampFirst := true, false, true;
    var clauses: seq<Clause> := [];
    if p.id.Some? {
      clauses, timestampFirst := [IdIs(p.id.value)], false;
    }
    if p.order.Some? {
      match p.order.value {
        case Asc => isAscendingOrder := true;
        case Desc => isAscendingOrder := false;
        case BadOrder => return Err("order param error");
      }
    }
    if p.cursor.Some? {
      match p.cursor.value.direction {
        case PrevPage => isDescending := !isDescending;
        case NextPage =>
        case BadDirection => return Err("cursor direction param error");
      }
    }
    if p.domain.Some? {
      if p.domainMode.Some? {
        if p.domainMode.value.BadMode? {
          return Err("domain_filter_mode param error");
        }
      } else {
        timestampFirst := false;
      }
      clauses := clauses + DomainClauses(p);
    }
    assert clauses == When(p.id, id => IdIs(id)) + DomainClauses(p);
    clauses, timestampFirst := PushRowClauses(p, clauses, timestampFirst);
    clauses, timestampFirst := PushBounds(p, clauses, timestampFirst, isDescending, isAscendingOrder);
    clauses, timestampFirst := PushFlags(p, clauses, timestampFirst);
    if isAscendingOrder {
      isDescending := !isDescending;
    }
    result := Ok(Query(clauses, Ordering(isDescending, timestampFirst)));
  }

  method PushRowClauses(p: Param, given: seq<Clause>, first: bool) returns (clauses: seq<Clause>, timestampFirst: bool)
    ensures clauses == given + RowClauses(p)
    ensures timestampFirst == (first && p.domainType.None? && p.client.None? && p.group.None? && p.replyCode.None?)
  {
    clauses, timestampFirst := given, first;
    if p.domainType.Some? {
      clauses, timestampFirst := clauses + [TypeIs(p.domainType.value)], false;
    }
    if p.client.Some? {
      clauses, timestampFirst := clauses + [ClientIs(p.client.value)], false;
    }
    if p.group.Some? {
      clauses, timestampFirst := clauses + [GroupIs(p.group.value)], false;
    }
    if p.replyCode.Some? {
      clauses, timestampFirst := clauses + [ReplyIs(p.replyCode.value)], false;
    }
  }

  method PushBounds(p: Param, given: seq<Clause>, first: bool, isDescending: bool, isAscendingOrder: bool)
    returns (clauses: seq<Clause>, timestampFirst: bool)
    requires isDescending == !Backwards(p) && isAscendingOrder == Ascending(p)
    ensures clauses == given + BoundClauses(p) + CursorClauses(p)
    ensures timestampFirst == (first && CursorId(p).None?)
  {
    clauses, timestampFirst := given, first;
    var cursorWithTimestamp := false;
    if p.before.Some? {
      var useCursor := false;
      if p.cursor.Some? && (isDescending || isAscendingOrder) {
        if p.cursor.value.id.Some? {
          clauses := clauses + [IdBelow(p.cursor.value.id.value)];
          useCursor, timestampFirst, cursorWithTimestamp := true, false, true;
        }
      }
      if !useCursor {
        clauses := clauses + [UpTo(p.before.value)];
      }
    }
    if p.after.Some? {
      var useCursor := false;
      if p.cursor.Some? && (!isDescending || isAscendingOrder) {
        if p.cursor.value.id.Some? {
          clauses := clauses + [IdAbove(p.cursor.value.id.value)];
          useCursor, timestampFirst, cursorWithTimestamp := true, false, true;
        }
      }
      if !useCursor {
        clauses := clauses + [From(p.after.value)];
      }
    }
    if !cursorWithTimestamp && p.cursor.Some? && p.cursor.value.id.Some? {
      var id := p.cursor.value.id.value;
      if isAscendingOrder {
        clauses := clauses + [if isDescending then IdAbove(id) else IdBelow(id)];
      } else {
        clauses := clauses + [if isDescending then IdBelow(id) else IdAbove(id)];
      }
      timestampFirst := false;
    }
  }

  method PushFlags(p: Param, given: seq<Clause>, first: bool) returns (clauses: seq<Clause>, timestampFirst: bool)
    ensures clauses == given + FlagClauses(p)
    ensures timestampFirst == (first && p.blocked.None? && p.cached.None?)
  {
    clauses, timestampFirst := given, first;
    if p.blocked.Some? {
      clauses, timestampFirst := clauses + [BlockedIs(p.blocked.value)], false;
    }
    if p.cached.Some? {
      clauses, timestampFirst := clauses + [CachedIs(p.cached.value)], false;
    }
  }

  // ---------- What a query means ----------

  lemma MatchesWhen<T>(option: Option<T>, clause: T -> Clause, r: Row, like: Like)
    ensures Matches(When(option, clause), r, like) <==> (option.Some? ==> Holds(clause(option.value), r, like))
  {
    assert option.Some? ==> When(option, clause)[0] in When(option, clause);
  }

  lemma MatchesBoth(a: seq<Clause>, b: seq<Clause>, r: Row, like: Like)
    ensures Matches(a + b, r, like) <==> Matches(a, r, like) && Matches(b, r, like)
  {
    assert forall c :: c in a ==> c in a + b;
    assert forall c :: c in b ==> c in a + b;
  }

  /** What the bound and cursor clauses of a query say about a row. */
  predicate BoundsHold(p: Param, r: Row) {
    && (p.before.Some? ==>
          if CursorReplacesBefore(p) then r.id < CursorId(p).value else r.timestamp <= p.before.value)
    && (p.after.Some? ==>
          if CursorReplacesAfter(p) then r.id > CursorId(p).value else r.timestamp >= p.after.value)
  }

  predicate CursorHolds(p: Param, r: Row) {
    CursorReplacesBefore(p) || CursorReplacesAfter(p) || CursorId(p).None? ||
    if Ascending(p) == Backwards(p) then r.id < CursorId(p).value else r.id > CursorId(p).value
  }

  lemma BoundsMatch(p: Param, r: Row, like: Like)
    ensures Matches(BoundClauses(p), r, like) <==> BoundsHold(p, r)
  {
    var upper := if CursorReplacesBefore(p) then [IdBelow(CursorId(p).value)] else When(p.before, t => UpTo(t));
    var lower := if CursorReplacesAfter(p) then [IdAbove(CursorId(p).value)] else When(p.after, t => From(t));
    MatchesBoth(upper, lower, r, like);
    assert upper != [] ==> upper[0] in upper;
    assert lower != [] ==> lower[0] in lower;
  }

  lemma CursorMatches(p: Param, r: Row, like: Like)
    ensures Matches(CursorClauses(p), r, like) <==> CursorHolds(p, r)
  {
    assert CursorClauses(p) != [] ==> CursorClauses(p)[0] in CursorClauses(p);
  }

  /** The domain filter by its mode; without a mode the domains are equal. */
  predicate DomainAgrees(text: string, mode: Option<FilterMode>, domain: string, like: Like) {
    match mode
    case None => domain == text
    case Some(Equals) => domain == text
    case Some(NotEmpty) => domain != ""
    case Some(EndsWith) => like(domain, text + "%")
    case Some(StartsWith) => like(domain, "%" + text)
    case Some(Contains) => like(domain, "%" + text + "%")
    case Some(BadMode) => true
  }

  /** A row agrees with every field given but for the time bounds. */
  predicate Agrees(p: Param, r: Row, like: Like) {
    && (p.id.Some? ==> r.id == p.id.value)
    && (p.domain.Some? ==> DomainAgrees(p.domain.value, p.domainMode, r.domain, like))
    && (p.domainType.Some? ==> r.domainType == p.domainType.value)
    && (p.client.Some? ==> r.client == p.client.value)
    && (p.group.Some? ==> r.group == p.group.value)
    && (p.replyCode.Some? ==> r.replyCode == p.replyCode.value)
    && (p.blocked.Some? ==> r.blocked == p.blocked.value)
    && (p.cached.Some? ==> r.cached == p.cached.value)
  }

  lemma RowMatches(p: Param, r: Row, like: Like)
    ensures Matches(RowClauses(p), r, like) <==>
            && (p.domainType.Some? ==> r.domainType == p.domainType.value)
            && (p.client.Some? ==> r.client == p.client.value)
            && (p.group.Some? ==> r.group == p.group.value)
            && (p.replyCode.Some? ==> r.replyCode == p.replyCode.value)
  {
    var a, b := When(p.domainType, t => TypeIs(t)), When(p.client, c => ClientIs(c));
    var c, d := When(p.group, g => GroupIs(g)), When(p.replyCode, c => ReplyIs(c));
    MatchesBoth(a, b, r, like);
    MatchesBoth(a + b, c, r, like);
    MatchesBoth(a + b + c, d, r, like);
    MatchesWhen(p.domainType, t => TypeIs(t), r, like);
    MatchesWhen(p.client, c => ClientIs(c), r, like);
    MatchesWhen(p.group, g => GroupIs(g), r, like);
    MatchesWhen(p.replyCode, c => ReplyIs(c), r, like);
  }

  lemma FlagMatches(p: Param, r: Row, like: Like)
    ensures Matches(FlagClauses(p), r, like) <==>
            (p.blocked.Some? ==> r.blocked == p.blocked.value) && (p.cached.Some? ==> r.cached == p.cached.value)
  {
    MatchesBoth(When(p.blocked, b => BlockedIs(b)), When(p.cached, b => CachedIs(b)), r, like);
    MatchesWhen(p.blocked, b => BlockedIs(b), r, like);
    MatchesWhen(p.cached, b => CachedIs(b), r, like);
  }

  lemma DomainMatches(p: Param, r: Row, like: Like)
    ensures Matches(DomainClauses(p), r, like) <==>
            (p.domain.Some? ==> DomainAgrees(p.domain.value, p.domainMode, r.domain, like))
  {
    assert DomainClauses(p) != [] ==> DomainClauses(p)[0] in DomainClauses(p);
  }

  /** A compiled query matches exactly the rows that agree with the fields given and with the bounds
      and the cursor. */
  lemma CompiledAgrees(p: Param, r: Row, like: Like)
    requires Compile(p).Ok?
    ensures Matches(Compile(p).value.clauses, r, like) <==> Agrees(p, r, like) && BoundsHold(p, r) && CursorHolds(p, r)
  {
    var id, rows := When(p.id, id => IdIs(id)), RowClauses(p);
    var plain := id + DomainClauses(p) + rows;
    MatchesBoth(id, DomainClauses(p), r, like);
    MatchesBoth(id + DomainClauses(p), rows, r, like);
    MatchesBoth(plain, BoundClauses(p), r, like);
    MatchesBoth(plain + BoundClauses(p), CursorClauses(p), r, like);
    MatchesBoth(plain + BoundClauses(p) + CursorClauses(p), FlagClauses(p), r, like);
    MatchesWhen(p.id, id => IdIs(id), r, like);
    DomainMatches(p, r, like);
    RowMatches(p, r, like);
    FlagMatches(p, r, like);
    BoundsMatch(p, r, like);
    CursorMatches(p, r, like);
  }

  // ---------- Running a query ----------

  predicate Precedes(o: Ordering, a: Row, b: Row) {
    if o.timestampFirst && a.timestamp != b.timestamp then
      if o.descending then a.timestamp > b.timestamp else a.timestamp < b.timestamp
    else if o.descending then a.id > b.id
    else a.id < b.id
  }

  function Place(r: Row, sorted: seq<Row>, o: Ordering): seq<Row> {
    if sorted == [] || Precedes(o, r, sorted[0]) then [r] + sorted
    else [sorted[0]] + Place(r, sorted[1..], o)
  }

  /** All matching rows in the order asked for. */
  function Selected(table: seq<Row>, q: Query, like: Like): seq<Row> {
    if table == [] then []
    else
      var rest := Selected(table[1..], q, like);
      if Matches(q.clauses, table[0], like) then Place(table[0], rest, q.ordering) else rest
  }

  function Window<T>(s: seq<T>, offset: nat, limit: nat): seq<T> {
    var from := if offset <= |s| then s[offset..] else [];
    if limit <= |from| then from[..limit] else from
  }

  function Reversed<T>(s: seq<T>): seq<T> {
    seq(|s|, i requires 0 <= i < |s| => s[|s| - 1 - i])
  }

  function Offset(p: Param): nat
    requires p.pageNum >= 1
  {
    if CursorId(p).Some? then 0 else (p.pageNum - 1) * p.pageSize
  }

  function Fetch(table: seq<Row>, p: Param, like: Like): Result<seq<Row>>
    requires p.pageNum >= 1
  {
    match Compile(p)
    case Err(message) => Err(message)
    case Ok(q) =>
      var page := Window(Selected(table, q, like), Offset(p), p.pageSize);
      Ok(if Backwards(p) then Reversed(page) else page)
  }

  // ---------- What a page holds ----------

  predicate UniqueRows(table: seq<Row>) {
    forall i, j :: 0 <= i < j < |table| ==> table[i].id != table[j].id
  }

  predicate Sorted(o: Ordering, s: seq<Row>) {
    forall i, j :: 0 <= i < j < |s| ==> Precedes(o, s[i], s[j])
  }

  lemma {:induction false} PlaceSorts(r: Row, sorted: seq<Row>, o: Ordering)
    requires Sorted(o, sorted) && forall x :: x in sorted ==> x.id != r.id
    ensures Sorted(o, Place(r, sorted, o))
    ensures forall x :: x in Place(r, sorted, o) <==> x == r || x in sorted
    decreases |sorted|
  {
    if sorted == [] || Precedes(o, r, sorted[0]) {
      assert Place(r, sorted, o) == [r] + sorted;
    } else {
      PlaceSorts(r, sorted[1..], o);
      var rest := Place(r, sorted[1..], o);
      forall x | x in rest ensures Precedes(o, sorted[0], x) {
        if x != r {
          assert x in sorted[1..];
        }
      }
      assert forall i :: 0 <= i < |rest| ==> rest[i] in rest;
      assert sorted == [sorted[0]] + sorted[1..];
    }
  }

  lemma {:induction false} SelectedSorts(table: seq<Row>, q: Query, like: Like)
    requires UniqueRows(table)
    ensures Sorted(q.ordering, Selected(table, q, like))
    ensures forall r :: r in Selected(table, q, like) <==> r in table && Matches(q.clauses, r, like)
    decreases |table|
  {
    if table != [] {
      SelectedSorts(table[1..], q, like);
      assert table == [table[0]] + table[1..];
      forall x | x in Selected(table[1..], q, like) ensures x.id != table[0].id {
        assert x in table[1..];
      }
      if Matches(q.clauses, table[0], like) {
        PlaceSorts(table[0], Selected(table[1..], q, like), q.ordering);
      }
    }
  }

  /** Which of two rows is listed first. Only a request that asks for no id, no whole domain, no type,
      client, group, reply code or flag and has no cursor id is listed by time. */
  predicate ListedFirst(p: Param, a: Row, b: Row) {
    if a.timestamp != b.timestamp && p.id.None? && (p.domain.Some? ==> p.domainMode.Some?) && p.domainType.None? &&
       p.client.None? && p.group.None? && p.replyCode.None? && p.blocked.None? && p.cached.None? &&
       (p.cursor.Some? ==> p.cursor.value.id.None?)
    then if p.order == Some(Asc) then a.timestamp < b.timestamp else b.timestamp < a.timestamp
    else if p.order == Some(Asc) then a.id < b.id
    else b.id < a.id
  }

  /** What a row must be to be on a page. */
  predicate Eligible(p: Param, r: Row, like: Like) {
    Agrees(p, r, like) && BoundsHold(p, r) && CursorHolds(p, r)
  }

  /** The rows of a page are eligible and in order, and a short page that starts at the front lacks
      none that are. */
  ghost predicate PageHolds(table: seq<Row>, p: Param, like: Like, page: seq<Row>) {
    && |page| <= p.pageSize
    && (forall r :: r in page ==> r in table && Eligible(p, r, like))
    && (forall i, j :: 0 <= i < j < |page| ==> ListedFirst(p, page[i], page[j]))
    && (|page| < p.pageSize && (p.pageNum == 1 || (p.cursor.Some? && p.cursor.value.id.Some?)) ==>
          forall r :: r in table && Eligible(p, r, like) ==> r in page)
  }

  lemma WindowIs<T>(s: seq<T>, offset: nat, limit: nat)
    ensures var w := Window(s, offset, limit);
            && |w| <= limit
            && (forall i :: 0 <= i < |w| ==> offset + i < |s| && w[i] == s[offset + i])
            && (|w| < limit && offset == 0 ==> w == s)
  {
    assert s[0..] == s;
  }

  lemma ReversedIs<T>(s: seq<T>)
    ensures |Reversed(s)| == |s| && forall i :: 0 <= i < |s| ==> Reversed(s)[i] == s[|s| - 1 - i]
    ensures forall x :: x in Reversed(s) <==> x in s
  {
    forall x | x in s ensures x in Reversed(s) {
      var i :| 0 <= i < |s| && s[i] == x;
      assert Reversed(s)[|s| - 1 - i] == x;
    }
  }

  /** Backwards or not, a row listed first precedes in the order of the query or follows in it. */
  lemma OrderingMeans(p: Param, a: Row, b: Row)
    requires Compile(p).Ok?
    ensures Precedes(Compile(p).value.ordering, a, b) <==>
            if Backwards(p) then ListedFirst(p, b, a) else ListedFirst(p, a, b)
  {
  }

  lemma SelectedAre(table: seq<Row>, p: Param, like: Like)
    requires UniqueRows(table) && Compile(p).Ok?
    ensures Sorted(Compile(p).value.ordering, Selected(table, Compile(p).value, like))
    ensures forall r :: r in Selected(table, Compile(p).value, like) <==> r in table && Eligible(p, r, like)
  {
    SelectedSorts(table, Compile(p).value, like);
    forall r ensures Matches(Compile(p).value.clauses, r, like) <==> Eligible(p, r, like) {
      CompiledAgrees(p, r, like);
    }
  }

  lemma WindowMembers<T>(s: seq<T>, offset: nat, limit: nat)
    ensures |Window(s, offset, limit)| <= limit
    ensures forall x :: x in Window(s, offset, limit) ==> x in s
    ensures |Window(s, offset, limit)| < limit && offset == 0 ==> forall x :: x in s ==> x in Window(s, offset, limit)
  {
    WindowIs(s, offset, limit);
  }

  lemma FetchHolds(table: seq<Row>, p: Param, like: Like)
    requires p.pageNum >= 1 && UniqueRows(table) && Fetch(table, p, like).Ok?
    ensures PageHolds(table, p, like, Fetch(table, p, like).value)
  {
    var all, page := Selected(table, Compile(p).value, like), Fetch(table, p, like).value;
    var window := Window(all, Offset(p), p.pageSize);
    SelectedAre(table, p, like);
    WindowMembers(all, Offset(p), p.pageSize);
    ReversedIs(window);
    PageOrdered(p, all, window, page);
  }

  lemma PageOrdered(p: Param, all: seq<Row>, window: seq<Row>, page: seq<Row>)
    requires Compile(p).Ok? && p.pageNum >= 1 && Sorted(Compile(p).value.ordering, all)
    requires window == Window(all, Offset(p), p.pageSize) && page == if Backwards(p) then Reversed(window) else window
    ensures forall i, j :: 0 <= i < j < |page| ==> ListedFirst(p, page[i], page[j])
  {
    WindowIs(all, Offset(p), p.pageSize);
    ReversedIs(window);
    forall i, j | 0 <= i < j < |page| ensures ListedFirst(p, page[i], page[j]) {
      OrderingMeans(p, page[i], page[j]);
      OrderingMeans(p, page[j], page[i]);
    }
  }

  /** Some keyword of the request is unknown. */
  predicate BadlyAsked(p: Param) {
    || p.order == Some(BadOrder)
    || (p.cursor.Some? && p.cursor.value.direction == BadDirection)
    || (p.domain.Some? && p.domainMode == Some(BadMode))
  }

  /** One call of the listing: compile, select, collect the rows, and turn a backward page round. */
  method GetDomainList(table: seq<Row>, p: Param, like: Like) returns (result: Result<seq<Row>>)
    requires p.pageNum >= 1
    ensures result == Fetch(table, p, like)
    ensures result.Err? <==> BadlyAsked(p)
    ensures result.Ok? && UniqueRows(table) ==> PageHolds(table, p, like, result.value)
  {
    if UniqueRows(table) && Fetch(table, p, like).Ok? {
      FetchHolds(table, p, like);
    }
    var query := CompileQuery(p);
    if query.Err? {
      return Err(query.message);
    }
    var withOffset, cursorReverse := true, false;
    if p.cursor.Some? {
      if p.cursor.value.id.Some? {
        withOffset := false;
      }
      if p.cursor.value.direction == PrevPage {
        cursorReverse := true;
      }
    }
    var offset := if withOffset then (p.pageNum - 1) * p.pageSize else 0;
    assert offset == Offset(p) && cursorReverse == Backwards(p);
    var list := Collect(Window(Selected(table, query.value, like), offset, p.pageSize));
    if cursorReverse {
      list := Reversed(list);
    }
    result := Ok(list);
  }

  method Collect(rows: seq<Row>) returns (list: seq<Row>)
    ensures list == rows
  {
    list := [];
    for i := 0 to |rows|
      invariant list == rows[..i]
    {
      list := list + [rows[i]];
    }
  }
}
