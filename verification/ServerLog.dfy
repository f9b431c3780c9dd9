/** Fan-out of log lines to subscribed streams. A dispatch first sends under the read lock, noting
    closed streams by index, and later removes those indices under the write lock; subscribers may
    arrive in between. The audit log uses the same code with another message type. */
module ServerLog {
  import opened Common

  const CAPACITY: nat := 4096

  /** Elements whose flag is not raised; elements beyond the flags are kept. */
  function Unflagged<T>(xs: seq<T>, flags: seq<bool>): seq<T>
    requires |flags| <= |xs|
  {
    if flags == [] then xs
    else (if flags[0] then [] else [xs[0]]) + Unflagged(xs[1..], flags[1..])
  }

  predicate Increasing(indices: seq<nat>) {
    forall i, j :: 0 <= i < j < |indices| ==> indices[i] < indices[j]
  }

  /** The positions of raised flags, ascending, counted from an offset. */
  function FlaggedFrom(flags: seq<bool>, offset: nat): seq<nat> {
    if flags == [] then []
    else if flags[0] then [offset] + FlaggedFrom(flags[1..], offset + 1)
    else FlaggedFrom(flags[1..], offset + 1)
  }

  lemma {:induction false} FlaggedInRange(flags: seq<bool>, offset: nat)
    ensures Increasing(FlaggedFrom(flags, offset))
    ensures forall k :: 0 <= k < |FlaggedFrom(flags, offset)| ==>
            offset <= FlaggedFrom(flags, offset)[k] < offset + |flags|
    decreases |flags|
  {
    if flags != [] {
      FlaggedInRange(flags[1..], offset + 1);
    }
  }

  function RemoveAt<T>(xs: seq<T>, i: nat): seq<T> {
    if i < |xs| then xs[..i] + xs[i + 1..] else xs
  }

  /** Removing positions one at a time, the last one first. */
  function RemoveBackwards<T>(xs: seq<T>, indices: seq<nat>): seq<T> {
    if indices == [] then xs else RemoveAt(RemoveBackwards(xs, indices[1..]), indices[0])
  }

  /** Backward removal of flagged positions keeps exactly the unflagged elements, in order, also
      when further elements were appended after the positions were noted. */
  lemma {:induction false} BackwardRemovalKeepsUnflagged<T>(done: seq<T>, xs: seq<T>, flags: seq<bool>)
    requires |flags| <= |xs|
    ensures RemoveBackwards(done + xs, FlaggedFrom(flags, |done|)) == done + Unflagged(xs, flags)
    decreases |flags|
  {
    if flags != [] {
      var kept, later := Unflagged(xs[1..], flags[1..]), FlaggedFrom(flags[1..], |done| + 1);
      BackwardRemovalKeepsUnflagged(done + [xs[0]], xs[1..], flags[1..]);
      assert done + [xs[0]] + xs[1..] == done + xs;
      assert RemoveBackwards(done + xs, later) == done + [xs[0]] + kept;
      if flags[0] {
        RemoveOneMore(done + xs, |done|, later);
        RemoveMiddle(done, xs[0], kept);
        assert [] + kept == kept;
      } else {
        assert done + [xs[0]] + kept == done + ([xs[0]] + kept);
      }
    }
  }

  lemma RemoveOneMore<T>(xs: seq<T>, i: nat, later: seq<nat>)
    ensures RemoveBackwards(xs, [i] + later) == RemoveAt(RemoveBackwards(xs, later), i)
  {
    assert ([i] + later)[1..] == later;
  }

  lemma RemoveMiddle<T>(before: seq<T>, x: T, after: seq<T>)
    ensures RemoveAt(before + [x] + after, |before|) == before + after
  {
    assert (before + [x] + after)[|before| + 1..] == after;
  }

  lemma {:induction false} FlaggedAppend(flags: seq<bool>, flag: bool, offset: nat)
    ensures FlaggedFrom(flags + [flag], offset) ==
            FlaggedFrom(flags, offset) + (if flag then [offset + |flags|] else [])
    decreases |flags|
  {
    if flags != [] {
      assert (flags + [flag])[1..] == flags[1..] + [flag];
      FlaggedAppend(flags[1..], flag, offset + 1);
    }
  }

  lemma {:induction false} UnflaggedOfAppend<T>(xs: seq<T>, more: seq<T>, flags: seq<bool>)
    requires |flags| == |xs|
    ensures Unflagged(xs + more, flags) == Unflagged(xs, flags) + more
    decreases |flags|
  {
    if flags == [] {
      assert xs + more == more;
    } else {
      assert (xs + more)[1..] == xs[1..] + more;
      UnflaggedOfAppend(xs[1..], more, flags[1..]);
    }
  }

  /** A queue after one send: closed and full channels take nothing. */
  function Gained<Msg>(queue: seq<Msg>, closed: bool, msg: Msg): seq<Msg> {
    if !closed && |queue| < CAPACITY then queue + [msg] else queue
  }

  datatype SendOutcome = Sent | Full | Closed

  /** A bounded channel to one subscriber; the receiving side may close it. */
  class Stream<Msg> {
    var queue: seq<Msg>
    var closed: bool

    constructor ()
      ensures queue == [] && !closed
    {
      queue, closed := [], false;
    }

    method TrySend(msg: Msg) returns (outcome: SendOutcome)
      modifies this
      ensures closed == old(closed)
      ensures outcome == Closed <==> closed
      ensures outcome == Sent <==> !closed && |old(queue)| < CAPACITY
      ensures queue == Gained(old(queue), closed, msg)
    {
      if closed {
        outcome := Closed;
      } else if |queue| >= CAPACITY {
        outcome := Full;
      } else {
        queue := queue + [msg];
        outcome := Sent;
      }
    }

    /** The receiving side takes the oldest message, if there is one. */
    method Receive() returns (message: Option<Msg>)
      modifies this
      ensures closed == old(closed)
      ensures message == (if old(queue) == [] then None else Some(old(queue)[0]))
      ensures queue == if old(queue) == [] then [] else old(queue)[1..]
    {
      if queue == [] {
        return None;
      }
      message := Some(queue[0]);
      queue := queue[1..];
    }
  }

  // ---------- What a subscriber gets ----------

  /** What happens to one open stream: a message is dispatched, or the receiver asks for one. */
  datatype Move<Msg> = Dispatched(msg: Msg) | Asked

  function QueueAfter<Msg>(queue: seq<Msg>, move: Move<Msg>): seq<Msg> {
    match move
    case Dispatched(msg) => Gained(queue, false, msg)
    case Asked => if queue == [] then [] else queue[1..]
  }

  function Left<Msg>(queue: seq<Msg>, moves: seq<Move<Msg>>): seq<Msg>
    decreases moves
  {
    if moves == [] then queue else Left(QueueAfter(queue, moves[0]), moves[1..])
  }

  function Received<Msg>(queue: seq<Msg>, moves: seq<Move<Msg>>): seq<Msg>
    decreases moves
  {
    if moves == [] then []
    else
      (if moves[0].Asked? && queue != [] then [queue[0]] else []) + Received(QueueAfter(queue, moves[0]), moves[1..])
  }

  /** The messages dispatched while fewer than 4096 were waiting. */
  function WithRoom<Msg>(queue: seq<Msg>, moves: seq<Move<Msg>>): seq<Msg>
    decreases moves
  {
    if moves == [] then []
    else
      (if moves[0].Dispatched? && |queue| < 4096 then [moves[0].msg] else []) +
      WithRoom(QueueAfter(queue, moves[0]), moves[1..])
  }

  function Messages<Msg>(moves: seq<Move<Msg>>): seq<Msg> {
    if moves == [] then [] else (if moves[0].Dispatched? then [moves[0].msg] else []) + Messages(moves[1..])
  }

  /** Whatever the interleaving: what the receiver got, and after it what still waits, is what was
      waiting at first and then the messages that found room, each once and in order. A message is
      missed only while 4096 are waiting. */
  lemma {:induction false} StreamsAreFifo<Msg>(queue: seq<Msg>, moves: seq<Move<Msg>>)
    requires |queue| <= 4096
    ensures Received(queue, moves) + Left(queue, moves) == queue + WithRoom(queue, moves)
    ensures |Left(queue, moves)| <= 4096
    decreases moves
  {
    if moves != [] {
      var next := QueueAfter(queue, moves[0]);
      var received, left, more := Received(next, moves[1..]), Left(next, moves[1..]), WithRoom(next, moves[1..]);
      StreamsAreFifo(next, moves[1..]);
      if moves[0].Asked? && queue != [] {
        assert queue + more == [queue[0]] + (next + more);
        assert [queue[0]] + received + left == [queue[0]] + (received + left);
        assert WithRoom(queue, moves) == more;
      } else if moves[0].Dispatched? && |queue| < 4096 {
        assert next + more == queue + ([moves[0].msg] + more);
        assert Received(queue, moves) == received;
      } else {
        assert Received(queue, moves) == received && WithRoom(queue, moves) == more && next == queue;
      }
    }
  }

  /** A receiver that never lets 4096 messages wait misses none. */
  lemma {:induction false} PromptReceiversMissNothing<Msg>(queue: seq<Msg>, moves: seq<Move<Msg>>)
    requires |queue| + |moves| <= 4096
    ensures WithRoom(queue, moves) == Messages(moves)
    decreases moves
  {
    if moves != [] {
      PromptReceiversMissNothing(QueueAfter(queue, moves[0]), moves[1..]);
    }
  }

  class Log<Msg> {
    var streams: seq<Stream<Msg>>

    /** Every subscription creates a channel of its own. */
    ghost predicate Valid()
      reads this
    {
      Distinct(streams)
    }

    constructor ()
      ensures Valid() && streams == []
    {
      streams := [];
    }

    method Subscribe() returns (stream: Stream<Msg>)
      requires Valid()
      modifies this
      ensures Valid() && fresh(stream) && streams == old(streams) + [stream]
      ensures stream.queue == [] && !stream.closed
    {
      stream := new Stream();
      streams := streams + [stream];
    }

    /** The read phase: exactly the open streams with room gain the message, once. */
    method SendToAll(msg: Msg) returns (closedAt: seq<nat>, ghost flags: seq<bool>)
      requires Valid()
      modifies streams
      ensures |flags| == |streams| && forall k :: 0 <= k < |flags| ==> flags[k] == old(streams[k].closed)
      ensures closedAt == FlaggedFrom(flags, 0)
      ensures forall k :: 0 <= k < |streams| ==> streams[k].closed == flags[k]
      ensures forall k :: 0 <= k < |streams| ==> streams[k].queue == Gained(old(streams[k].queue), flags[k], msg)
    {
      closedAt, flags := [], [];
      for i := 0 to |streams|
        invariant |flags| == i && closedAt == FlaggedFrom(flags, 0)
        invariant forall k :: 0 <= k < i ==> flags[k] == streams[k].closed
        invariant forall k :: 0 <= k < |streams| ==> streams[k].closed == old(streams[k].closed)
        invariant forall k :: i <= k < |streams| ==> streams[k].queue == old(streams[k].queue)
        invariant forall k :: 0 <= k < i ==> streams[k].queue == Gained(old(streams[k].queue), flags[k], msg)
      {
        var outcome := streams[i].TrySend(msg);
        FlaggedAppend(flags, outcome == Closed, 0);
        flags := flags + [outcome == Closed];
        if outcome == Closed {
          closedAt := closedAt + [i];
        }
      }
    }

    /** The write phase, on the list as it is by then: every index is still in range. */
    method RemoveClosed(closedAt: seq<nat>, ghost flags: seq<bool>)
      requires Valid() && |flags| <= |streams|
      requires closedAt == FlaggedFrom(flags, 0)
      modifies this
      ensures streams == Unflagged(old(streams), flags)
    {
      BackwardRemovalKeepsUnflagged([], streams, flags);
      assert [] + streams == streams;
      assert [] + Unflagged(streams, flags) == Unflagged(streams, flags);
      FlaggedInRange(flags, 0);
      streams := RemoveEach(streams, closedAt);
    }

    /** One dispatch with any number of subscriptions between its two phases. */
    method Dispatch(msg: Msg, arrivals: nat)
      returns (ghost seen: seq<Stream<Msg>>, ghost flags: seq<bool>, ghost arrived: seq<Stream<Msg>>)
      requires Valid()
      modifies this, streams
      ensures Valid()
      ensures seen == old(streams) && fresh(arrived) && |arrived| == arrivals
      ensures |flags| == |seen| && forall k :: 0 <= k < |seen| ==> flags[k] == old(seen[k].closed)
      ensures streams == Unflagged(seen, flags) + arrived
      ensures forall k :: 0 <= k < |seen| ==>
                seen[k].queue == if !flags[k] && |old(seen[k].queue)| < 4096 then old(seen[k].queue) + [msg]
                                 else old(seen[k].queue)
      ensures forall k :: 0 <= k < |arrived| ==> arrived[k].queue == [] && !arrived[k].closed
    {
      var closedAt;
      seen := streams;
      closedAt, flags := SendToAll(msg);
      arrived := Arrivals(arrivals);
      if |closedAt| > 0 {
        RemoveClosed(closedAt, flags);
      } else {
        NothingFlagged(streams, flags, 0);
      }
      UnflaggedOfAppend(seen, arrived, flags);
      UnflaggedDistinct(seen + arrived, flags);
    }

    method Arrivals(count: nat) returns (arrived: seq<Stream<Msg>>)
      requires Valid()
      modifies this
      ensures Valid() && streams == old(streams) + arrived && fresh(arrived) && |arrived| == count
      ensures forall k :: 0 <= k < |arrived| ==> arrived[k].queue == [] && !arrived[k].closed
    {
      arrived := [];
      for k := 0 to count
        invariant Valid() && streams == old(streams) + arrived && fresh(arrived) && |arrived| == k
        invariant forall i :: 0 <= i < |arrived| ==> arrived[i].queue == [] && !arrived[i].closed
      {
        var stream := Subscribe();
        arrived := arrived + [stream];
      }
    }
  }

  method RemoveEach<T>(xs: seq<T>, indices: seq<nat>) returns (list: seq<T>)
    requires Increasing(indices) && forall k :: 0 <= k < |indices| ==> indices[k] < |xs|
    ensures list == RemoveBackwards(xs, indices)
  {
    list := xs;
    var n := |indices|;
    while n > 0
      invariant 0 <= n <= |indices|
      invariant list == RemoveBackwards(xs, indices[n..])
      invariant n > 0 ==> indices[n - 1] < |list|
    {
      n := n - 1;
      assert indices[n..][1..] == indices[n + 1..];
      list := list[..indices[n]] + list[indices[n] + 1..];
    }
    assert indices[0..] == indices;
  }

  lemma {:induction false} NothingFlagged<T>(xs: seq<T>, flags: seq<bool>, offset: nat)
    requires |flags| <= |xs| && FlaggedFrom(flags, offset) == []
    ensures Unflagged(xs, flags) == xs
    decreases |flags|
  {
    if flags != [] {
      NothingFlagged(xs[1..], flags[1..], offset + 1);
    }
  }

  // ---------- Dispatches that overlap ----------

  lemma {:induction false} RemovalShrinks<T>(xs: seq<T>, indices: seq<nat>)
    requires Increasing(indices) && forall k :: 0 <= k < |indices| ==> indices[k] < |xs|
    ensures |RemoveBackwards(xs, indices)| == |xs| - |indices|
    ensures indices != [] ==> |indices| <= |xs| - indices[0]
  {
    if indices != [] {
      RemovalShrinks(xs, indices[1..]);
      assert |indices| > 1 ==> indices[1..][0] == indices[1];
    }
  }

  /** Two dispatches that send before either removes note the same closed streams. Unless there were
      none, the second removal goes wrong: a noted position is out of range by then, or as many other
      streams are removed as were closed. */
  lemma OverlapHurts<T>(xs: seq<T>, flags: seq<bool>)
    requires |flags| <= |xs|
    ensures var noted, kept := FlaggedFrom(flags, 0), Unflagged(xs, flags);
            && RemoveBackwards(xs, noted) == kept
            && (RemoveBackwards(kept, noted) == kept && (forall k :: 0 <= k < |noted| ==> noted[k] < |kept|)
                <==> noted == [])
            && ((forall k :: 0 <= k < |noted| ==> noted[k] < |kept|) ==>
                  |RemoveBackwards(kept, noted)| == |kept| - |noted|)
  {
    var noted, kept := FlaggedFrom(flags, 0), Unflagged(xs, flags);
    BackwardRemovalKeepsUnflagged([], xs, flags);
    assert [] + xs == xs && [] + kept == kept;
    FlaggedInRange(flags, 0);
    if forall k :: 0 <= k < |noted| ==> noted[k] < |kept| {
      RemovalShrinks(kept, noted);
    }
  }

  predicate Distinct<T(==)>(xs: seq<T>) {
    forall i, j :: 0 <= i < j < |xs| ==> xs[i] != xs[j]
  }

  lemma {:induction false} UnflaggedAmong<T>(xs: seq<T>, flags: seq<bool>, x: T)
    requires |flags| <= |xs| && x in Unflagged(xs, flags)
    ensures x in xs
    decreases |flags|
  {
    if flags != [] && (flags[0] || x != xs[0]) {
      UnflaggedAmong(xs[1..], flags[1..], x);
    }
  }

  lemma {:induction false} UnflaggedDistinct<T>(xs: seq<T>, flags: seq<bool>)
    requires |flags| <= |xs| && Distinct(xs)
    ensures Distinct(Unflagged(xs, flags))
    decreases |flags|
  {
    if flags != [] {
      var rest := Unflagged(xs[1..], flags[1..]);
      UnflaggedDistinct(xs[1..], flags[1..]);
      if !flags[0] {
        forall k | 0 <= k < |rest| ensures rest[k] != xs[0] {
          UnflaggedAmong(xs[1..], flags[1..], rest[k]);
        }
        assert Distinct([xs[0]] + rest);
      } else {
        assert [] + rest == rest;
      }
    }
  }
}
