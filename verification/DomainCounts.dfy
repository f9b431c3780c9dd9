/** The query log's insert: rows go into the log and into hourly and daily counters, keyed by the
    start of the local hour or day in UTC milliseconds, in wrapping 64-bit arithmetic. */
module DomainCounts {
  import DomainPaging

  const U64: nat := 0x1_0000_0000_0000_0000
  const HOUR: nat := 3600000
  const DAY: nat := 86400000

  // ---------- Bucket keys ----------

  function Wrap(x: int): nat {
    x % U64
  }

  /** A signed offset in seconds, sign-extended to 64 bits and scaled to milliseconds. */
  function OffsetMillis(offset: int): nat {
    Wrap(Wrap(offset) * 1000)
  }

  predicate IsWidth(width: nat) {
    width == HOUR || width == DAY
  }

  function BucketKey(timestamp: nat, offset: int, width: nat): nat
    requires IsWidth(width)
  {
    var local := Wrap(timestamp + OffsetMillis(offset));
    Wrap(local - local % width - OffsetMillis(offset))
  }

  /** An offset of less than a day, in seconds, as every time zone has. */
  predicate ZoneOffset(offset: int) {
    -86400 < offset < 86400
  }

  /** What a bucket key is for: it starts the bucket its time stamp lies in, on a local boundary. */
  predicate StartsBucket(key: nat, timestamp: nat, offset: int, width: nat)
    requires IsWidth(width)
  {
    key <= timestamp < key + width && (key + offset * 1000) % width == 0
  }

  lemma OffsetWraps(offset: int)
    requires ZoneOffset(offset)
    ensures OffsetMillis(offset) == if offset >= 0 then offset * 1000 else U64 + offset * 1000
  {
  }

  lemma LocalTimeWraps(timestamp: nat, offset: int)
    requires ZoneOffset(offset) && timestamp < U64 / 2
    ensures var local := timestamp + offset * 1000;
            Wrap(timestamp + OffsetMillis(offset)) == if local >= 0 then local else U64 + local
  {
    OffsetWraps(offset);
  }

  lemma KeyWraps(timestamp: nat, offset: int, width: nat)
    requires ZoneOffset(offset) && IsWidth(width) && timestamp < U64 / 2
    ensures var local := timestamp + offset * 1000;
            var past := (if local >= 0 then local else U64 + local) % width;
            BucketKey(timestamp, offset, width) ==
            if past <= timestamp then timestamp - past else U64 + timestamp - past
  {
    OffsetWraps(offset);
    LocalTimeWraps(timestamp, offset);
  }

  /** The key starts the bucket exactly when the local time and the bucket's start are not before
      the epoch. */
  lemma BucketKeyStartsBucket(timestamp: nat, offset: int, width: nat)
    requires ZoneOffset(offset) && IsWidth(width) && timestamp < U64 / 2
    ensures var local := timestamp + offset * 1000;
            StartsBucket(BucketKey(timestamp, offset, width), timestamp, offset, width) <==>
            local >= 0 && local - local % width >= offset * 1000
  {
    KeyWraps(timestamp, offset, width);
    FloorIsAligned(timestamp + offset * 1000);
  }

  /** Every time stamp from two days after the epoch has sound hour and day keys, and its day
      starts no later than its hour. */
  lemma RecentKeys(timestamp: nat, offset: int)
    requires ZoneOffset(offset) && 2 * DAY <= timestamp < U64 / 4
    ensures StartsBucket(BucketKey(timestamp, offset, HOUR), timestamp, offset, HOUR)
    ensures StartsBucket(BucketKey(timestamp, offset, DAY), timestamp, offset, DAY)
    ensures BucketKey(timestamp, offset, DAY) <= BucketKey(timestamp, offset, HOUR)
  {
    KeyWraps(timestamp, offset, HOUR);
    KeyWraps(timestamp, offset, DAY);
    FloorIsAligned(timestamp + offset * 1000);
  }

  // ---------- Counters ----------

  /** A logged row; only its time stamp takes part in the counting. */
  type Row = DomainPaging.Row

  function Get(counts: map<nat, nat>, key: nat): nat {
    if key in counts then counts[key] else 0
  }

  function Bump(counts: map<nat, nat>, key: nat, amount: nat): map<nat, nat> {
    counts[key := Get(counts, key) + amount]
  }

  /** The number of rows in one bucket. */
  function Count(rows: seq<Row>, offset: int, width: nat, key: nat): nat
    requires IsWidth(width)
  {
    if rows == [] then 0
    else
      var last := rows[|rows| - 1];
      Count(rows[..|rows| - 1], offset, width, key) + if BucketKey(last.timestamp, offset, width) == key then 1 else 0
  }

  /** A counter table agrees with the rows when each entry is its bucket's number of rows. */
  ghost predicate Agrees(counts: map<nat, nat>, rows: seq<Row>, offset: int, width: nat)
    requires IsWidth(width)
  {
    forall key: nat :: Get(counts, key) == Count(rows, offset, width, key)
                       && (key in counts <==> Count(rows, offset, width, key) > 0)
  }

  lemma AgreesWithOneMore(counts: map<nat, nat>, rows: seq<Row>, row: Row, offset: int, width: nat)
    requires IsWidth(width) && Agrees(counts, rows, offset, width)
    ensures Agrees(Bump(counts, BucketKey(row.timestamp, offset, width), 1), rows + [row], offset, width)
  {
    assert (rows + [row])[..|rows|] == rows;
  }

  lemma {:induction false} CountConcat(a: seq<Row>, b: seq<Row>, offset: int, width: nat, key: nat)
    requires IsWidth(width)
    ensures Count(a + b, offset, width, key) == Count(a, offset, width, key) + Count(b, offset, width, key)
    decreases |b|
  {
    if b == [] {
      assert a + b == a;
    } else {
      var init := b[..|b| - 1];
      assert (a + b)[..|a + b| - 1] == a + init;
      CountConcat(a, init, offset, width, key);
    }
  }

  /** Adding one table into another entry by entry. */
  function Added(counts: map<nat, nat>, more: map<nat, nat>): map<nat, nat> {
    map key | key in counts.Keys + more.Keys :: Get(counts, key) + Get(more, key)
  }

  lemma AgreesWithMore(counts: map<nat, nat>, more: map<nat, nat>, rows: seq<Row>, data: seq<Row>, offset: int,
                       width: nat)
    requires IsWidth(width)
    requires Agrees(counts, rows, offset, width) && Agrees(more, data, offset, width)
    ensures Agrees(Added(counts, more), rows + data, offset, width)
  {
    forall key: nat
      ensures Count(rows + data, offset, width, key) ==
              Count(rows, offset, width, key) + Count(data, offset, width, key)
    {
      CountConcat(rows, data, offset, width, key);
    }
  }

  /** Agreement determines the table: however the rows were batched, the counters are the same. */
  lemma AgreementIsUnique(a: map<nat, nat>, b: map<nat, nat>, rows: seq<Row>, offset: int, width: nat)
    requires IsWidth(width) && Agrees(a, rows, offset, width) && Agrees(b, rows, offset, width)
    ensures a == b
  {
    forall key | key in a ensures key in b && a[key] == b[key] {
      assert Get(a, key) == Get(b, key);
    }
    forall key | key in b ensures key in a {
      assert Get(a, key) == Get(b, key);
    }
  }

  // ---------- A day is the sum of its hours ----------

  function SumOfHours(hourly: map<nat, nat>, day: nat, hours: nat): nat {
    if hours == 0 then 0 else SumOfHours(hourly, day, hours - 1) + Get(hourly, day + (hours - 1) * HOUR)
  }

  function CountInHours(rows: seq<Row>, offset: int, day: nat, hours: nat): nat {
    if hours == 0 then 0
    else CountInHours(rows, offset, day, hours - 1) + Count(rows, offset, HOUR, day + (hours - 1) * HOUR)
  }

  predicate Recent(rows: seq<Row>) {
    forall r :: r in rows ==> 2 * DAY <= r.timestamp < U64 / 4
  }

  /** A row adds one to exactly one of the first hours of a local day when its hour key is there. */
  lemma {:induction false} HourOfRow(rows: seq<Row>, offset: int, day: nat, hours: nat)
    requires rows != []
    ensures var init, key := rows[..|rows| - 1], BucketKey(rows[|rows| - 1].timestamp, offset, HOUR);
            CountInHours(rows, offset, day, hours) ==
            CountInHours(init, offset, day, hours) +
            if day <= key < day + hours * HOUR && (key - day) % HOUR == 0 then 1 else 0
  {
    if hours > 0 {
      HourOfRow(rows, offset, day, hours - 1);
      var key := BucketKey(rows[|rows| - 1].timestamp, offset, HOUR);
      assert key == day + (hours - 1) * HOUR <==>
             day + (hours - 1) * HOUR <= key < day + hours * HOUR && (key - day) % HOUR == 0;
    }
  }

  lemma DayOfHour(timestamp: nat, offset: int, day: nat)
    requires ZoneOffset(offset) && 2 * DAY <= timestamp < U64 / 4
    requires (day + offset * 1000) % DAY == 0
    ensures var key := BucketKey(timestamp, offset, HOUR);
            BucketKey(timestamp, offset, DAY) == day <==>
            day <= key < day + 24 * HOUR && (key - day) % HOUR == 0
  {
    KeyWraps(timestamp, offset, HOUR);
    KeyWraps(timestamp, offset, DAY);
    HoursOfDay(timestamp + offset * 1000, day + offset * 1000);
  }

  /** A time lies in the day that starts at a boundary exactly when its hour does. */
  lemma HoursOfDay(time: int, dayStart: int)
    requires dayStart % DAY == 0
    ensures var hour := time - time % HOUR;
            time - time % DAY == dayStart <==>
            dayStart <= hour < dayStart + 24 * HOUR && (hour - dayStart) % HOUR == 0
  {
    var h, d := time / HOUR, dayStart / DAY;
    DayIndex(time);
    assert time - time % HOUR == h * HOUR && time - time % DAY == h / 24 * DAY && dayStart == d * DAY;
    assert h * HOUR - d * DAY == (h - 24 * d) * HOUR;
    assert (h - 24 * d) * HOUR % HOUR == 0;
  }

  lemma DayIndex(time: int)
    ensures time / DAY == time / HOUR / 24
  {
  }

  lemma FloorIsAligned(time: int)
    ensures (time - time % HOUR) % HOUR == 0 && (time - time % DAY) % DAY == 0
    ensures time % HOUR <= time % DAY
  {
    DayIndex(time);
  }

  lemma {:induction false} DayIsItsHours(rows: seq<Row>, offset: int, day: nat)
    requires ZoneOffset(offset) && Recent(rows) && (day + offset * 1000) % DAY == 0
    ensures Count(rows, offset, DAY, day) == CountInHours(rows, offset, day, 24)
    decreases |rows|
  {
    if rows == [] {
      NoRowsNoHours(offset, day, 24);
    } else {
      var init, last := rows[..|rows| - 1], rows[|rows| - 1];
      assert last in rows;
      DayIsItsHours(init, offset, day);
      HourOfRow(rows, offset, day, 24);
      DayOfHour(last.timestamp, offset, day);
    }
  }

  lemma {:induction false} NoRowsNoHours(offset: int, day: nat, hours: nat)
    ensures CountInHours([], offset, day, hours) == 0
  {
    if hours > 0 {
      NoRowsNoHours(offset, day, hours - 1);
    }
  }

  lemma {:induction false} SumAgrees(hourly: map<nat, nat>, rows: seq<Row>, offset: int, day: nat, hours: nat)
    requires Agrees(hourly, rows, offset, HOUR)
    ensures SumOfHours(hourly, day, hours) == CountInHours(rows, offset, day, hours)
  {
    if hours > 0 {
      SumAgrees(hourly, rows, offset, day, hours - 1);
    }
  }

  /** Wherever both tables agree with the log, each local day is the sum of its 24 hours. */
  lemma DayCountIsSumOfHours(hourly: map<nat, nat>, daily: map<nat, nat>, rows: seq<Row>, offset: int, day: nat)
    requires ZoneOffset(offset) && Recent(rows)
    requires Agrees(hourly, rows, offset, HOUR) && Agrees(daily, rows, offset, DAY)
    requires (day + offset * 1000) % DAY == 0
    ensures Get(daily, day) == SumOfHours(hourly, day, 24)
  {
    DayIsItsHours(rows, offset, day);
    SumAgrees(hourly, rows, offset, day, 24);
  }

  // ---------- The tables ----------

  /** The statement that fails while a batch is inserted, if any. */
  datatype Fault = NoFault | RowFault(index: nat) | CountFault

  class QueryLog {
    var log: seq<Row>                // every row ever inserted
    var hourly: map<nat, nat>
    var daily: map<nat, nat>

    ghost predicate Valid(offset: int)
      reads this
    {
      Agrees(hourly, log, offset, HOUR) && Agrees(daily, log, offset, DAY)
    }

    constructor ()
      ensures log == [] && forall offset :: Valid(offset)
    {
      log, hourly, daily := [], map[], map[];
    }

    /** All rows and both counters change together, or nothing does. */
    method InsertDomain(data: seq<Row>, offset: int, fault: Fault) returns (ok: bool)
      requires Valid(offset)
      modifies this
      ensures Valid(offset)
      ensures ok <==> fault == NoFault || (fault.RowFault? && fault.index >= |data|)
      ensures log == if ok then old(log) + data else old(log)
      ensures !ok ==> hourly == old(hourly) && daily == old(daily)
    {
      var hourlyCount, dailyCount, inserted := map[], map[], log;
      assert data[..0] == [];
      for i := 0 to |data|
        invariant inserted == log + data[..i]
        invariant fault.RowFault? ==> i <= fault.index
        invariant Agrees(hourlyCount, data[..i], offset, HOUR)
        invariant Agrees(dailyCount, data[..i], offset, DAY)
        modifies {}
      {
        if fault == RowFault(i) {
          return false;
        }
        inserted := inserted + [data[i]];
        var timestamp := data[i].timestamp;
        assert data[..i + 1] == data[..i] + [data[i]];
        AgreesWithOneMore(hourlyCount, data[..i], data[i], offset, HOUR);
        AgreesWithOneMore(dailyCount, data[..i], data[i], offset, DAY);
        hourlyCount := Bump(hourlyCount, BucketKey(timestamp, offset, HOUR), 1);
        dailyCount := Bump(dailyCount, BucketKey(timestamp, offset, DAY), 1);
      }
      assert data[..|data|] == data;
      AgreesWithMore(hourly, hourlyCount, log, data, offset, HOUR);
      AgreesWithMore(daily, dailyCount, log, data, offset, DAY);
      var newHourly := UpdateCounts(hourly, hourlyCount);
      var newDaily := UpdateCounts(daily, dailyCount);
      if fault == CountFault {
        return false;
      }
      log, hourly, daily := inserted, newHourly, newDaily;
      return true;
    }
  }

  /** Two equal logs stay equal when one gets a batch at once and the other in two parts. */
  method SplittingChangesNothing(whole: QueryLog, parts: QueryLog, data: seq<Row>, at: nat, offset: int)
    requires whole != parts && at <= |data|
    requires whole.Valid(offset) && parts.Valid(offset) && whole.log == parts.log
    modifies whole, parts
    ensures whole.log == parts.log == old(whole.log) + data
    ensures whole.hourly == parts.hourly && whole.daily == parts.daily
  {
    var all := whole.InsertDomain(data, offset, NoFault);
    var first := parts.InsertDomain(data[..at], offset, NoFault);
    var second := parts.InsertDomain(data[at..], offset, NoFault);
    assert parts.log == old(parts.log) + data[..at] + data[at..] == old(parts.log) + data;
    AgreementIsUnique(whole.hourly, parts.hourly, whole.log, offset, HOUR);
    AgreementIsUnique(whole.daily, parts.daily, whole.log, offset, DAY);
  }

  datatype Insert = Insert(data: seq<Row>, fault: Fault)

  /** The rows of the inserts that commit, in order. */
  function Committed(inserts: seq<Insert>): seq<Row> {
    if inserts == [] then []
    else
      var last := inserts[|inserts| - 1];
      Committed(inserts[..|inserts| - 1]) +
      if last.fault == NoFault || (last.fault.RowFault? && last.fault.index >= |last.data|) then last.data else []
  }

  /** After any run of inserts, failing ones included, both tables agree with the rows committed
      and every local day is the sum of its hours. */
  method RunInserts(inserts: seq<Insert>, offset: int) returns (db: QueryLog)
    requires ZoneOffset(offset)
    ensures fresh(db) && db.log == Committed(inserts)
    ensures Agrees(db.hourly, Committed(inserts), offset, HOUR)
    ensures Agrees(db.daily, Committed(inserts), offset, DAY)
    ensures Recent(Committed(inserts)) ==>
              forall day: nat :: (day + offset * 1000) % DAY == 0 ==>
                Get(db.daily, day) == SumOfHours(db.hourly, day, 24)
  {
    db := new QueryLog();
    assert inserts[..0] == [];
    for i := 0 to |inserts|
      invariant fresh(db) && db.Valid(offset) && db.log == Committed(inserts[..i])
    {
      var ok := db.InsertDomain(inserts[i].data, offset, inserts[i].fault);
      assert inserts[..i + 1][..i] == inserts[..i];
    }
    assert inserts[..|inserts|] == inserts;
    if Recent(db.log) {
      forall day: nat | (day + offset * 1000) % DAY == 0
        ensures Get(db.daily, day) == SumOfHours(db.hourly, day, 24)
      {
        DayCountIsSumOfHours(db.hourly, db.daily, db.log, offset, day);
      }
    }
  }

  /** One upsert per entry, in any order of the entries. */
  method UpdateCounts(counts: map<nat, nat>, more: map<nat, nat>) returns (updated: map<nat, nat>)
    ensures updated == Added(counts, more)
  {
    updated := counts;
    var rest := more.Keys;
    while rest != {}
      invariant rest <= more.Keys
      invariant updated.Keys == counts.Keys + (more.Keys - rest)
      invariant forall key :: key in updated ==>
                updated[key] == Get(counts, key) + if key in rest then 0 else Get(more, key)
      decreases rest
    {
      var key :| key in rest;
      rest := rest - {key};
      updated := Bump(updated, key, more[key]);
    }
  }
}
