/** The login limiter: one attempt counter and one sliding time stamp behind a mutex. */
module LoginLimiter {

  // Instants are nanoseconds of a monotonic clock; whole seconds are floored.
  const NANOS_PER_SECOND: nat := 1_000_000_000
  const MINUTE: nat := 60 * NANOS_PER_SECOND
  const I32_MAX: int := 0x7fff_ffff
  const I32_MIN: int := -0x8000_0000
  const FREE_ATTEMPTS := 5

  datatype State = State(count: int, stamp: nat)

  /** One call holds the mutex and may read the clock up to three times. */
  datatype Call = Call(first: nat, second: nat, third: nat)

  /** Durations between instants saturate at zero. */
  function Since(later: nat, earlier: nat): nat {
    if later >= earlier then later - earlier else 0
  }

  function WholeSeconds(nanos: nat): nat {
    nanos / NANOS_PER_SECOND
  }

  /** The counter is a 32-bit signed integer that wraps in a release build. */
  function Increment(count: int): int {
    if count == I32_MAX then I32_MIN else count + 1
  }

  function Counted(s: State, c: Call): State {
    State(Increment(s.count), if s.count == 0 then c.first else s.stamp)
  }

  predicate Admits(s: State, c: Call) {
    var t := Counted(s, c);
    t.count <= FREE_ATTEMPTS || WholeSeconds(Since(c.second, t.stamp)) >= 60
  }

  function Next(s: State, c: Call): State {
    var t := Counted(s, c);
    if t.count <= FREE_ATTEMPTS then t
    else if WholeSeconds(Since(c.second, t.stamp)) >= 60 then State(0, c.second)
    else if WholeSeconds(Since(c.second, t.stamp)) < 30 then State(t.count, c.third)
    else t
  }

  class LoginAttempts {
    var count: int
    var stamp: nat

    ghost function View(): State
      reads this
    {
      State(count, stamp)
    }

    constructor (now: nat)
      ensures View() == State(0, now)
    {
      count, stamp := 0, now;
    }

    method Reset(now: nat)
      modifies this
      ensures View() == State(0, now)
    {
      count := 0;
      stamp := now;
    }

    method Check(c: Call) returns (admitted: bool)
      requires I32_MIN <= count <= I32_MAX
      modifies this
      ensures View() == Next(old(View()), c)
      ensures admitted == Admits(old(View()), c)
      ensures I32_MIN <= count <= I32_MAX
    {
      if count == 0 {
        stamp := c.first;
      }
      count := if count == I32_MAX then I32_MIN else count + 1;
      if count > FREE_ATTEMPTS {
        var duration := Since(c.second, stamp);
        if WholeSeconds(duration) < 60 {
          if WholeSeconds(duration) < 30 {
            stamp := c.third;
          }
          return false;
        }
        count := 0;
        stamp := c.second;
      }
      return true;
    }
  }

  // ---------- Runs ----------

  function After(s: State, calls: seq<Call>): State
    decreases calls
  {
    if calls == [] then s else After(Next(s, calls[0]), calls[1..])
  }

  /** The answer of every call of a run, in order. */
  function Answers(s: State, calls: seq<Call>): (answers: seq<bool>)
    ensures |answers| == |calls|
    decreases calls
  {
    if calls == [] then [] else [Admits(s, calls[0])] + Answers(Next(s, calls[0]), calls[1..])
  }

  function CountTrue(answers: seq<bool>): nat {
    if answers == [] then 0 else (if answers[0] then 1 else 0) + CountTrue(answers[1..])
  }

  /** The clock never runs backwards, within a call or from one call to the next. */
  predicate Timely(now: nat, calls: seq<Call>)
    decreases calls
  {
    calls == [] ||
    (now <= calls[0].first <= calls[0].second <= calls[0].third && Timely(calls[0].third, calls[1..]))
  }

  lemma {:induction false} TimelyAt(now: nat, calls: seq<Call>, i: nat, j: nat)
    requires Timely(now, calls) && i <= j < |calls|
    ensures now <= calls[i].first <= calls[i].second <= calls[i].third
    ensures if i == j then true else calls[i].third <= calls[j].first <= calls[j].second <= calls[j].third
    decreases calls
  {
    if i > 0 {
      TimelyAt(calls[0].third, calls[1..], i - 1, j - 1);
    } else if j > 0 {
      TimelyAt(calls[0].third, calls[1..], j - 1, j - 1);
    }
  }

  lemma {:induction false} RunSplits(s: State, calls: seq<Call>, k: nat)
    requires k <= |calls|
    ensures Answers(s, calls) == Answers(s, calls[..k]) + Answers(After(s, calls[..k]), calls[k..])
    ensures After(s, calls) == After(After(s, calls[..k]), calls[k..])
    decreases calls
  {
    if k == 0 {
      assert calls[..0] == [] && calls[0..] == calls;
    } else {
      RunSplits(Next(s, calls[0]), calls[1..], k - 1);
      assert calls[..k][1..] == calls[1..][..k - 1];
      assert calls[1..][k - 1..] == calls[k..];
    }
  }

  /** The counter is neither negative nor at its maximum before any call of a run. */
  predicate NeverWraps(s: State, calls: seq<Call>)
    decreases calls
  {
    calls == [] || (0 <= s.count < I32_MAX && NeverWraps(Next(s, calls[0]), calls[1..]))
  }

  lemma {:induction false} NeverWrapsWithin(s: State, calls: seq<Call>, i: nat, j: nat)
    requires NeverWraps(s, calls) && i <= j <= |calls|
    ensures NeverWraps(After(s, calls[..i]), calls[i..j])
    decreases calls
  {
    if i > 0 {
      NeverWrapsWithin(Next(s, calls[0]), calls[1..], i - 1, j - 1);
      assert calls[..i][1..] == calls[1..][..i - 1] && calls[1..][i - 1..j - 1] == calls[i..j];
    } else if j > 0 {
      NeverWrapsWithin(Next(s, calls[0]), calls[1..], 0, j - 1);
      assert calls[..0] == [] && calls[1..][..0] == [];
      assert calls[0..j][1..] == calls[1..][0..j - 1];
    }
  }

  /** A run as long as the range of the counter never wraps it. */
  lemma {:induction false} ShortRunsNeverWrap(s: State, calls: seq<Call>)
    requires 0 <= s.count && s.count + |calls| <= I32_MAX
    ensures NeverWraps(s, calls)
    decreases calls
  {
    if calls != [] {
      ShortRunsNeverWrap(Next(s, calls[0]), calls[1..]);
    }
  }

  /** How many more admissions are possible while less than a minute has passed since start. */
  function Allowance(s: State, start: nat): int {
    var free := if s.count <= FREE_ATTEMPTS then FREE_ATTEMPTS - s.count else 0;
    if s.count == 0 || s.stamp >= start then free else free + 1 + FREE_ATTEMPTS
  }

  lemma {:induction false} AllowanceBounds(s: State, calls: seq<Call>, start: nat)
    requires NeverWraps(s, calls)
    requires forall c :: c in calls ==> start <= c.first <= c.second <= c.third && c.second < start + MINUTE
    ensures CountTrue(Answers(s, calls)) <= Allowance(s, start)
    decreases calls
  {
    if calls != [] {
      var c := calls[0];
      assert c in calls;
      AllowanceBounds(Next(s, c), calls[1..], start);
      assert Allowance(Next(s, c), start) + (if Admits(s, c) then 1 else 0) <= Allowance(s, start);
      assert Answers(s, calls) == [Admits(s, c)] + Answers(Next(s, c), calls[1..]);
    }
  }

  lemma WindowTimes(now: nat, calls: seq<Call>, i: nat, j: nat)
    requires Timely(now, calls) && i <= j < |calls|
    ensures forall c :: c in calls[i..j + 1] ==>
              calls[i].first <= c.first <= c.second <= c.third && c.second <= calls[j].second
  {
    forall c | c in calls[i..j + 1]
      ensures calls[i].first <= c.first <= c.second <= c.third && c.second <= calls[j].second
    {
      var k :| i <= k <= j && calls[k] == c;
      TimelyAt(now, calls, i, k);
      TimelyAt(now, calls, k, j);
    }
  }

  lemma WindowAnswers(s: State, calls: seq<Call>, i: nat, j: nat)
    requires i <= j < |calls|
    ensures Answers(s, calls)[i..j + 1] == Answers(After(s, calls[..i]), calls[i..j + 1])
  {
    RunSplits(s, calls, i);
    var t, rest := After(s, calls[..i]), calls[i..];
    RunSplits(t, rest, j + 1 - i);
    assert rest[..j + 1 - i] == calls[i..j + 1];
  }

  /** Any eleven admitted attempts of a run without a reset span at least a minute, however long the
      run, as long as the counter does not wrap in it; PastTheWrap shows that this is needed. */
  lemma ElevenAdmissionsSpanAMinute(s: State, now: nat, calls: seq<Call>, i: nat, j: nat)
    requires Timely(now, calls) && NeverWraps(s, calls)
    requires i <= j < |calls|
    requires CountTrue(Answers(s, calls)[i..j + 1]) >= 11
    ensures calls[j].second - calls[i].first >= MINUTE
  {
    if calls[j].second - calls[i].first < MINUTE {
      NeverWrapsWithin(s, calls, i, j + 1);
      WindowTimes(now, calls, i, j);
      AllowanceBounds(After(s, calls[..i]), calls[i..j + 1], calls[i].first);
      WindowAnswers(s, calls, i, j);
    }
  }

  // ---------- The counter's width ----------

  function AtOnce(now: nat, n: nat): seq<Call> {
    seq(n, _ => Call(now, now, now))
  }

  lemma {:induction false} CountsUp(now: nat, count: int, n: nat)
    requires 0 <= count && count + n <= I32_MAX
    ensures After(State(count, now), AtOnce(now, n)) == State(count + n, now)
    decreases n
  {
    if n > 0 {
      assert AtOnce(now, n)[1..] == AtOnce(now, n - 1);
      CountsUp(now, count + 1, n - 1);
    }
  }

  lemma {:induction false} NegativeAdmitsAll(s: State, calls: seq<Call>)
    requires I32_MIN <= s.count <= s.count + |calls| <= 0
    ensures CountTrue(Answers(s, calls)) == |calls|
    decreases calls
  {
    if calls != [] {
      NegativeAdmitsAll(Next(s, calls[0]), calls[1..]);
      assert Answers(s, calls) == [true] + Answers(Next(s, calls[0]), calls[1..]);
    }
  }

  /** Once 2^31 calls arrive without an idle minute the counter turns negative and the limiter
      is open: the last eleven of these calls are all admitted, at one instant. */
  lemma PastTheWrap(now: nat)
    ensures var calls := AtOnce(now, I32_MAX + 11);
            CountTrue(Answers(State(0, now), calls)[I32_MAX..]) == 11
  {
    var s, calls := State(0, now), AtOnce(now, I32_MAX + 11);
    RunSplits(s, calls, I32_MAX);
    assert calls[..I32_MAX] == AtOnce(now, I32_MAX);
    CountsUp(now, 0, I32_MAX);
    var t, rest := State(I32_MAX, now), calls[I32_MAX..];
    NegativeAdmitsAll(Next(t, rest[0]), rest[1..]);
    assert Answers(s, calls)[I32_MAX..] == Answers(t, rest);
    assert Answers(t, rest) == [true] + Answers(Next(t, rest[0]), rest[1..]);
  }

  // ---------- Refusals ----------

  /** The state after a refusal and then only admitted calls: every sixth of them closes a cycle. */
  ghost predicate CycleState(s: State, admitted: seq<Call>, refusedAt: nat) {
    if admitted == [] then s.count > FREE_ATTEMPTS && s.stamp <= refusedAt
    else
      && s.count == (|admitted| - 1) % 6
      && (s.count > 0 ==> s.stamp == admitted[|admitted| - s.count].first)
  }

  lemma {:induction false} CycleKept(s: State, admitted: seq<Call>, refusedAt: nat, calls: seq<Call>)
    requires CycleState(s, admitted, refusedAt) && s.count < I32_MAX
    requires forall i :: 0 <= i < |calls| ==> Answers(s, calls)[i]
    ensures CycleState(After(s, calls), admitted + calls, refusedAt)
    ensures After(s, calls).count < I32_MAX
    decreases calls
  {
    if calls == [] {
      assert admitted + calls == admitted;
    } else {
      var t := Next(s, calls[0]);
      assert Answers(s, calls)[0];
      forall i | 0 <= i < |calls[1..]| ensures Answers(t, calls[1..])[i] {
        assert Answers(t, calls[1..])[i] == Answers(s, calls)[i + 1];
      }
      assert CycleState(t, admitted + [calls[0]], refusedAt);
      CycleKept(t, admitted + [calls[0]], refusedAt, calls[1..]);
      assert admitted + [calls[0]] + calls[1..] == admitted + calls;
    }
  }

  lemma CycleCloses(n: nat)
    requires n > 0
    ensures (n - 1) % 6 < 6 && ((n - 1) % 6 == FREE_ATTEMPTS <==> n % 6 == 0)
  {
  }

  lemma AdmittedFromCycle(s: State, admitted: seq<Call>, refusedAt: nat, last: Call)
    requires CycleState(s, admitted, refusedAt) && 0 <= s.count < I32_MAX
    requires Timely(refusedAt, admitted + [last]) && last.second >= refusedAt + MINUTE
    ensures Admits(s, last) <==>
            |admitted| == 0 || |admitted| % 6 != 0 || last.second - admitted[|admitted| - 5].first >= MINUTE
  {
    if admitted != [] {
      var n := |admitted|;
      CycleCloses(n);
      if s.count == FREE_ATTEMPTS {
        TimelyAt(refusedAt, admitted + [last], n - FREE_ATTEMPTS, n);
        assert (admitted + [last])[n - FREE_ATTEMPTS] == admitted[n - FREE_ATTEMPTS];
        assert (admitted + [last])[n] == last;
      }
    }
  }

  /** When a call comes a minute after the latest refusal, with only admitted calls between, it is
      admitted exactly when those are not a positive multiple of six or the cycle they fill is a
      minute old; so directly after the refusal it is always admitted. */
  lemma AMinuteAfterTheLatestRefusal(s: State, refused: Call, between: seq<Call>, last: Call)
    requires s.stamp <= refused.first <= refused.second <= refused.third
    requires 0 <= s.count && s.count + 1 < I32_MAX
    requires !Admits(s, refused)
    requires forall i :: 0 <= i < |between| ==> Answers(Next(s, refused), between)[i]
    requires last.second >= refused.third + MINUTE
    requires Timely(refused.third, between + [last])
    ensures Admits(After(Next(s, refused), between), last) <==>
            |between| == 0 || |between| % 6 != 0 || last.second - between[|between| - 5].first >= MINUTE
  {
    CycleKept(Next(s, refused), [], refused.third, between);
    assert [] + between == between;
    AdmittedFromCycle(After(Next(s, refused), between), between, refused.third, last);
  }

  /** A refused call a minute after the latest refusal: six calls are admitted and the seventh, at
      the same instant, is not. */
  lemma SeventhIsRefused()
    ensures var s, calls := State(5, 0), AtOnce(MINUTE, 7);
            && !Admits(s, Call(0, 0, 0)) && Timely(0, calls)
            && Answers(Next(s, Call(0, 0, 0)), calls) == [true, true, true, true, true, true, false]
  {
    var t := Next(State(5, 0), Call(0, 0, 0));
    assert AtOnce(MINUTE, 7)[1..] == AtOnce(MINUTE, 6);
    assert Next(t, AtOnce(MINUTE, 7)[0]) == State(0, MINUTE);
    AdmittedThenRefused(6, 0);
    TimelyAtOnce(0, MINUTE, 7);
    assert Answers(t, AtOnce(MINUTE, 7)) == [true] + Answers(State(0, MINUTE), AtOnce(MINUTE, 6));
  }

  lemma {:induction false} TimelyAtOnce(now: nat, later: nat, n: nat)
    requires now <= later
    ensures Timely(now, AtOnce(later, n))
    decreases n
  {
    if n > 0 {
      assert AtOnce(later, n)[1..] == AtOnce(later, n - 1);
      TimelyAtOnce(later, later, n - 1);
    }
  }

  /** Calls at one instant from a stamp of that instant: admitted up to the fifth. */
  lemma {:induction false} AdmittedThenRefused(n: nat, count: nat)
    requires count + n == FREE_ATTEMPTS + 1 && n > 0
    ensures Answers(State(count, MINUTE), AtOnce(MINUTE, n)) == seq(n - 1, _ => true) + [false]
    decreases n
  {
    assert AtOnce(MINUTE, n)[1..] == AtOnce(MINUTE, n - 1);
    if n == 1 {
      assert Answers(Next(State(count, MINUTE), Call(MINUTE, MINUTE, MINUTE)), AtOnce(MINUTE, 0)) == [];
      assert seq(0, _ => true) == [];
    } else {
      AdmittedThenRefused(n - 1, count + 1);
      assert seq(n - 1, _ => true) == [true] + seq(n - 2, _ => true);
    }
  }

  /** The gap before call i of a series that starts after an instant. */
  function GapStart(stampedAt: nat, calls: seq<Call>, i: nat): nat
    requires i < |calls|
  {
    if i == 0 then stampedAt else calls[i - 1].third
  }

  predicate GapsUnderHalfAMinute(stampedAt: nat, calls: seq<Call>) {
    forall i :: 0 <= i < |calls| ==> calls[i].second < GapStart(stampedAt, calls, i) + 30 * NANOS_PER_SECOND
  }

  lemma {:induction false} SteadyAttemptsStayRefused(s: State, calls: seq<Call>)
    requires FREE_ATTEMPTS <= s.count && s.count + |calls| <= I32_MAX
    requires GapsUnderHalfAMinute(s.stamp, calls)
    ensures CountTrue(Answers(s, calls)) == 0
    decreases calls
  {
    if calls != [] {
      assert calls[0].second < GapStart(s.stamp, calls, 0) + 30 * NANOS_PER_SECOND;
      var t := Next(s, calls[0]);
      forall i | 0 <= i < |calls[1..]|
        ensures calls[1..][i].second < GapStart(t.stamp, calls[1..], i) + 30 * NANOS_PER_SECOND
      {
        assert calls[i + 1].second < GapStart(s.stamp, calls, i + 1) + 30 * NANOS_PER_SECOND;
      }
      SteadyAttemptsStayRefused(t, calls[1..]);
      assert Answers(s, calls) == [false] + Answers(t, calls[1..]);
    }
  }

  /** A refusal less than thirty seconds from the stored time renews itself: every further call is
      refused as long as each comes within thirty seconds of the one before it. */
  lemma EarlyRefusalPersists(s: State, refused: Call, calls: seq<Call>)
    requires 0 <= s.count && s.count + 1 + |calls| <= I32_MAX
    requires !Admits(s, refused) && refused.second < s.stamp + 30 * NANOS_PER_SECOND
    requires GapsUnderHalfAMinute(refused.third, calls)
    ensures CountTrue(Answers(s, [refused] + calls)) == 0
  {
    var all := [refused] + calls;
    assert all[1..] == calls;
    SteadyAttemptsStayRefused(Next(s, refused), calls);
    assert Answers(s, all) == [false] + Answers(Next(s, refused), calls);
  }

  // ---------- Refusals that do not move the clock ----------

  /** A call between half a minute and a minute after an instant. */
  predicate Waits(c: Call, stamp: nat) {
    30 <= WholeSeconds(Since(c.second, stamp)) < 60
  }

  /** Once five attempts are used up, calls between half a minute and a minute after the stored time
      are refused and put off nothing: however many there are, the first call a minute after that time
      is admitted and starts a new cycle. */
  lemma {:induction false} WaitingEnds(s: State, calls: seq<Call>, last: Call)
    requires FREE_ATTEMPTS <= s.count && s.count + |calls| < I32_MAX
    requires forall c :: c in calls ==> Waits(c, s.stamp)
    requires WholeSeconds(Since(last.second, s.stamp)) >= 60
    ensures forall i :: 0 <= i < |calls| ==> !Answers(s, calls)[i]
    ensures After(s, calls).stamp == s.stamp && Admits(After(s, calls), last)
    ensures Next(After(s, calls), last) == State(0, last.second)
    decreases calls
  {
    if calls != [] {
      assert calls[0] in calls;
      var t := Next(s, calls[0]);
      assert t == State(s.count + 1, s.stamp) && !Admits(s, calls[0]);
      WaitingEnds(t, calls[1..], last);
    }
  }
}
