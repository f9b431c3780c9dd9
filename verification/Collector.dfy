/** The collector: an event loop that buffers DNS requests, hands them to the query log in
    batches, and holds clients whose hardware address is not known yet for a short while. */
module Collector {
  import opened Common
  import opened ClientHistory

  datatype Event =
    | Receive(requests: seq<Request>, now: nat, stored: bool)
    | TimerFire(now: nat, stored: bool)
    | FlushTick(now: nat)
    | CheckTick

  // ---------- What the loop does ----------

  /** The requests not handled yet, and the steps made so far. */
  datatype LoopState = LoopState(buffer: seq<Request>, trace: seq<Step>)

  function Handling(s: LoopState, requests: seq<Request>, now: nat, stored: bool): LoopState {
    LoopState([], s.trace + [Handled(Batch(requests, now, stored))])
  }

  /** A receive fills the buffer, which is handled when it holds 8192 requests, or at once outside batch
      mode; the timer handles what the buffer holds. */
  function LoopAfter(s: LoopState, e: Event, batchMode: bool): LoopState {
    match e
    case Receive(requests, now, stored) =>
      if requests == [] then s
      else if batchMode && |s.buffer + requests| < 8192 then s.(buffer := s.buffer + requests)
      else Handling(s, s.buffer + requests, now, stored)
    case TimerFire(now, stored) => if s.buffer == [] then s else Handling(s, s.buffer, now, stored)
    case FlushTick(now) => s.(trace := s.trace + [Ticked(now)])
    case CheckTick => s
  }

  function RunAfter(s: LoopState, events: seq<Event>, batchMode: bool): LoopState
    decreases events
  {
    if events == [] then s else RunAfter(LoopAfter(s, events[0], batchMode), events[1..], batchMode)
  }

  function ReceivedIn(events: seq<Event>): seq<Request> {
    if events == [] then []
    else ReceivedBy(events[0]) + ReceivedIn(events[1..])
  }

  function ReceivedBy(e: Event): seq<Request> {
    if e.Receive? then e.requests else []
  }

  predicate Ends(s: seq<Request>, end: seq<Request>) {
    |end| <= |s| && s[|s| - |end|..] == end
  }

  /** What is buffered came last. */
  lemma {:induction false} BufferCameLast(s: LoopState, events: seq<Event>, batchMode: bool)
    ensures Ends(s.buffer + ReceivedIn(events), RunAfter(s, events, batchMode).buffer)
    decreases events
  {
    if events == [] {
      assert s.buffer + [] == s.buffer;
    } else {
      var next, own, more := LoopAfter(s, events[0], batchMode), ReceivedBy(events[0]), ReceivedIn(events[1..]);
      BufferCameLast(next, events[1..], batchMode);
      Regroup(s.buffer, own, more);
      assert s.buffer + [] == s.buffer;
      if next.buffer == [] {
        assert [] + more == more;
        EndsLater(s.buffer + own, more, RunAfter(next, events[1..], batchMode).buffer);
      }
    }
  }

  lemma EndsLater(before: seq<Request>, s: seq<Request>, end: seq<Request>)
    requires Ends(s, end)
    ensures Ends(before + s, end)
  {
    var all := before + s;
    assert all[|all| - |end|..] == s[|s| - |end|..];
  }

  lemma {:induction false} RunsJoin(s: LoopState, a: seq<Event>, b: seq<Event>, batchMode: bool)
    ensures RunAfter(s, a + b, batchMode) == RunAfter(RunAfter(s, a, batchMode), b, batchMode)
    decreases a
  {
    if a == [] {
      assert a + b == b;
    } else {
      assert (a + b)[1..] == a[1..] + b;
      RunsJoin(LoopAfter(s, a[0], batchMode), a[1..], b, batchMode);
    }
  }

  /** No request outlives the next timer event: whatever is buffered was received after the last one. */
  lemma NothingOutlivesTheTimer(s: LoopState, before: seq<Event>, now: nat, stored: bool, after: seq<Event>,
                                batchMode: bool)
    ensures var timer := [TimerFire(now, stored)];
            Ends(ReceivedIn(after), RunAfter(s, before + (timer + after), batchMode).buffer)
  {
    var timer := [TimerFire(now, stored)];
    var there := RunAfter(s, before, batchMode);
    RunsJoin(s, before, timer + after, batchMode);
    assert (timer + after)[1..] == after;
    var empty := LoopAfter(there, timer[0], batchMode);
    BufferCameLast(empty, after, batchMode);
    assert empty.buffer + ReceivedIn(after) == ReceivedIn(after);
  }

  /** Without a timer event, fewer than 8192 requests wait together, in order, and none is handled. */
  lemma {:induction false} FewRequestsWait(s: LoopState, events: seq<Event>)
    requires |s.buffer + ReceivedIn(events)| < 8192 && forall e :: e in events ==> !e.TimerFire?
    ensures RunAfter(s, events, true).buffer == s.buffer + ReceivedIn(events)
    ensures BatchesIn(RunAfter(s, events, true).trace) == BatchesIn(s.trace)
    decreases events
  {
    if events == [] {
      assert s.buffer + [] == s.buffer;
    } else {
      var e, rest := events[0], events[1..];
      var next := LoopAfter(s, e, true);
      assert e in events;
      Regroup(s.buffer, ReceivedBy(e), ReceivedIn(rest));
      assert s.buffer + [] == s.buffer && BatchesIn(s.trace) + [] == BatchesIn(s.trace);
      if e.FlushTick? {
        TraceGrows(s.trace, Ticked(e.now));
      }
      FewRequestsWait(next, rest);
    }
  }

  class DataServer {
    const batchMode: bool
    var buffer: seq<Request>
    var timerArmed: bool
    var macCache: map<Ip, Mac>
    var pending: map<Ip, Pending>
    var totalRequests: nat
    var handed: seq<Client>          // what insert_client was given, in order

    ghost var received: seq<Request>
    ghost var trace: seq<Step>
    ghost var deliveries: seq<Delivery>
    ghost var marks: Marks
    ghost var clock: nat

    /** What holds whenever the loop waits for its next event. */
    ghost predicate Valid()
      reads this
    {
      Buffering() && Waiting() && Answering()
    }

    ghost function State(): LoopState
      reads this
    {
      LoopState(buffer, trace)
    }

    ghost predicate Buffering()
      reads this
    {
      Buffered(BatchesIn(trace), buffer, received, batchMode, timerArmed, totalRequests)
    }

    ghost predicate Waiting()
      reads this
    {
      Consistent(Store(pending, macCache), handed, marks, trace, clock)
    }

    ghost predicate Answering()
      reads this
    {
      Lists(deliveries, handed) && Explained(trace, deliveries, clock)
    }

    ghost predicate HandedOver(ip: Ip)
      reads this
    {
      OverSince(handed, marks, trace, ip)
    }

    constructor (batchMode: bool)
      ensures Valid() && this.batchMode == batchMode
      ensures received == [] && trace == [] && handed == [] && pending == map[] && clock == 0
    {
      this.batchMode := batchMode;
      buffer, timerArmed, macCache, pending, handed := [], false, map[], map[], [];
      totalRequests := 0;
      received, trace, deliveries, marks, clock := [], [], [], map[], 0;
    }

    /** A step goes on record, with the hand-overs it made. */
    ghost method Record(step: Step, more: seq<Delivery>, now: nat)
      requires Consistent(Store(pending, macCache), handed, marks, trace + [step], now)
      requires Lists(deliveries + more, handed) && Explained(trace + [step], deliveries + more, now)
      modifies this`deliveries, this`trace, this`clock
      ensures Waiting() && Answering() && clock == now
      ensures trace == old(trace) + [step] && deliveries == old(deliveries) + more
    {
      deliveries, trace, clock := deliveries + more, trace + [step], now;
    }

    method FillMacCache(requests: seq<Request>)
      modifies this`macCache
      ensures macCache == CacheAfter(old(macCache), requests)
    {
      if |macCache| > CACHE_LIMIT {
        macCache := map[];
      }
      ghost var start := macCache;
      assert requests[..0] == [];
      for i := 0 to |requests|
        invariant macCache == Inserted(start, requests[..i])
      {
        assert requests[..i + 1][..i] == requests[..i];
        if requests[i].mac != ZERO_MAC {
          macCache := macCache[requests[i].addr := requests[i].mac];
        }
      }
      assert requests[..|requests|] == requests;
    }

    /** Every counted request files its client anew or renews the entry already filed. */
    method NoteClients(requests: seq<Request>, now: nat) returns (counted: nat)
      modifies this`pending
      ensures counted == CountedIn(requests)
      ensures pending == NoteAll(old(pending), macCache, requests, now)
    {
      counted := 0;
      assert requests[..0] == [];
      for i := 0 to |requests|
        invariant counted == CountedIn(requests[..i])
        invariant pending == NoteAll(old(pending), macCache, requests[..i], now)
      {
        var req := requests[i];
        assert requests[..i + 1] == requests[..i] + [req];
        CountedAppend(requests[..i], req);
        if req.Counted() {
          counted := counted + 1;
          var mac := req.mac;
          if mac == ZERO_MAC && req.addr in macCache {
            mac := macCache[req.addr];
          }
          if req.addr in pending {
            var existing := pending[req.addr];
            if mac != ZERO_MAC {
              existing := existing.(client := existing.client.(mac := mac));
            }
            existing := existing.(client := existing.client.(lastQuery := now));
            pending := pending[req.addr := existing];
          } else {
            pending := pending[req.addr := Pending(now, Client(req.addr, "", mac, now))];
          }
        }
      }
      assert requests[..|requests|] == requests;
    }

    /** Releases every entry that is too old or has an address by now, and no other. */
    method Release(now: nat, limit: nat) returns (released: seq<Client>, ghost due: seq<Ip>)
      modifies this`pending
      ensures ListsDue(due, old(pending), now, limit)
      ensures released == ClientsOf(old(pending), due)
      ensures pending == Kept(old(pending), now, limit)
    {
      var toRemove := [];
      var unseen := pending.Keys;
      while unseen != {}
        invariant unseen <= pending.Keys
        invariant forall ip :: ip in toRemove <==> ip in pending && ip !in unseen && Due(pending[ip], now, limit)
        invariant forall i, j :: 0 <= i < j < |toRemove| ==> toRemove[i] != toRemove[j]
        decreases unseen
      {
        var ip :| ip in unseen;
        unseen := unseen - {ip};
        if Due(pending[ip], now, limit) {
          toRemove := toRemove + [ip];
        }
      }
      due := toRemove;
      released := RemoveEntries(toRemove);
    }

    method RemoveEntries(ips: seq<Ip>) returns (removed: seq<Client>)
      requires forall ip :: ip in ips ==> ip in pending
      requires forall i, j :: 0 <= i < j < |ips| ==> ips[i] != ips[j]
      modifies this`pending
      ensures removed == ClientsOf(old(pending), ips)
      ensures pending == map ip | ip in old(pending) && ip !in ips :: old(pending)[ip]
    {
      removed := [];
      ghost var before := pending;
      for i := 0 to |ips|
        invariant pending == map ip | ip in before && ip !in ips[..i] :: before[ip]
        invariant removed == ClientsOf(before, ips[..i])
      {
        var ip := ips[i];
        assert ip in ips && ips[..i + 1] == ips[..i] + [ip];
        assert ip !in ips[..i];
        removed := removed + [pending[ip].client];
        pending := pending - {ip};
      }
      assert ips[..|ips|] == ips;
    }

    /** The passes of a batch over the cache and the entries. */
    method TakeBatch(requests: seq<Request>, now: nat)
      returns (counted: nat, released: seq<Client>, ghost due: seq<Ip>)
      modifies this`macCache, this`pending
      ensures counted == CountedIn(requests)
      ensures macCache == CacheAfter(old(macCache), requests)
      ensures var noted := NoteAll(old(pending), CacheAfter(old(macCache), requests), requests, now);
              && ListsDue(due, noted, now, BATCH_AGE) && released == ClientsOf(noted, due)
              && pending == Kept(noted, now, BATCH_AGE)
    {
      FillMacCache(requests);
      counted := NoteClients(requests, now);
      released, due := Release(now, BATCH_AGE);
    }

    /** The clients released by a batch are handed over if and only if its rows could be stored. */
    method HandleBatch(requests: seq<Request>, now: nat, stored: bool) returns (ghost due: seq<Ip>)
      requires Waiting() && Answering() && clock <= now < U64
      modifies this`macCache, this`pending, this`totalRequests, this`handed, this`trace, this`deliveries, this`marks,
               this`clock
      ensures Waiting() && Answering() && clock == now
      ensures trace == old(trace) + [Handled(Batch(requests, now, stored))]
      ensures marks == Marked(old(marks), requests, |old(handed)|)
      ensures var noted := Entries(Store(old(pending), old(macCache)), Batch(requests, now, stored));
              && ListsDue(due, noted, now, BATCH_AGE)
              && pending == Kept(noted, now, BATCH_AGE)
              && handed == if stored then old(handed) + ClientsOf(noted, due) else old(handed)
      ensures totalRequests == old(totalRequests) + CountedIn(requests)
      ensures Young(pending, now, BATCH_AGE)
    {
      ghost var before, b := Store(pending, macCache), Batch(requests, now, stored);
      var counted, released;
      counted, released, due := TakeBatch(requests, now);
      ghost var gone := BatchGoesOn(before, due, b, handed, deliveries, marks, trace, clock);
      // The rows go to the query log first; when that fails the clients are not handed over.
      marks := Marked(marks, requests, |handed|);
      totalRequests, handed := totalRequests + counted, if stored then handed + released else handed;
      Record(Handled(b), DeliveriesOf(Entries(before, b), gone, |trace|), now);
    }

    method OnReceive(requests: seq<Request>, now: nat, stored: bool)
      requires Valid() && clock <= now < U64
      requires |requests| <= if batchMode then BATCH_SIZE else 1
      modifies this
      ensures Valid() && received == old(received) + requests
      ensures State() == LoopAfter(old(State()), Receive(requests, now, stored), batchMode)
      ensures clock == if trace == old(trace) then old(clock) else now
      ensures trace != old(trace) ==> Young(pending, now, BATCH_AGE)
    {
      if |requests| == 0 {
        assert received + requests == received;
        return;
      }
      Receives(BatchesIn(trace), buffer, received, batchMode, timerArmed, totalRequests, requests);
      buffer := buffer + requests;
      received := received + requests;
      if batchMode {
        if |buffer| >= 1 && !timerArmed {
          timerArmed := true;
        }
        if |buffer| < BATCH_SIZE {
          return;
        }
      }
      HandleBuffer(now, stored);
    }

    method OnTimer(now: nat, stored: bool)
      requires Valid() && timerArmed && clock <= now < U64
      modifies this
      ensures Valid() && received == old(received) && clock == now
      ensures State() == LoopAfter(old(State()), TimerFire(now, stored), batchMode)
      ensures Young(pending, now, BATCH_AGE)
    {
      HandleBuffer(now, stored);
    }

    method HandleBuffer(now: nat, stored: bool)
      requires Handleable(BatchesIn(trace), buffer, received, batchMode, totalRequests)
      requires Waiting() && Answering() && clock <= now < U64
      modifies this
      ensures Valid() && received == old(received) && clock == now && buffer == []
      ensures trace == old(trace) + [Handled(Batch(old(buffer), now, stored))]
      ensures Young(pending, now, BATCH_AGE)
    {
      BufferHandled(trace, buffer, received, batchMode, totalRequests, Batch(buffer, now, stored));
      timerArmed := false;
      ghost var due := HandleBatch(buffer, now, stored);
      Empty();
    }

    method Empty()
      requires Waiting() && Answering()
      modifies this`buffer
      ensures Waiting() && Answering() && buffer == []
    {
      buffer := [];
    }

    /** Entries older than ten seconds, and entries with an address, are handed over. */
    method OnFlushTick(now: nat) returns (ghost due: seq<Ip>)
      requires Valid() && clock <= now < U64
      modifies this`pending, this`handed, this`trace, this`deliveries, this`clock
      ensures Valid() && clock == now && trace == old(trace) + [Ticked(now)]
      ensures ListsDue(due, old(pending), now, TICK_AGE) && handed == old(handed) + ClientsOf(old(pending), due)
      ensures pending == Kept(old(pending), now, TICK_AGE)
      ensures Young(pending, now, TICK_AGE)
    {
      due := Flush(now);
    }

    method Flush(now: nat) returns (ghost due: seq<Ip>)
      requires Waiting() && Answering() && clock <= now < U64
      modifies this`pending, this`handed, this`trace, this`deliveries, this`clock
      ensures Waiting() && Answering() && clock == now && trace == old(trace) + [Ticked(now)]
      ensures BatchesIn(trace) == BatchesIn(old(trace))
      ensures ListsDue(due, old(pending), now, TICK_AGE) && handed == old(handed) + ClientsOf(old(pending), due)
      ensures pending == Kept(old(pending), now, TICK_AGE)
      ensures Young(pending, now, TICK_AGE)
    {
      ghost var before := Store(pending, macCache);
      var released;
      released, due := Release(now, TICK_AGE);
      TickKeeps(before, due, handed, marks, trace, clock, now);
      StepIsExplained(trace, deliveries, clock, Ticked(now), due, now);
      ListsMore(deliveries, handed, before.pending, due, |trace|);
      handed := handed + released;
      Record(Ticked(now), DeliveriesOf(before.pending, due, |trace|), now);
    }

    method TakeAll() returns (drained: seq<Client>, ghost all: seq<Ip>)
      modifies this`pending
      ensures pending == map[] && (forall ip :: ip in all <==> ip in old(pending))
      ensures forall i, j :: 0 <= i < j < |all| ==> all[i] != all[j]
      ensures drained == ClientsOf(old(pending), all)
    {
      ghost var before := pending;
      drained, all := [], [];
      while pending != map[]
        invariant pending.Keys <= before.Keys && forall ip :: ip in pending ==> pending[ip] == before[ip]
        invariant forall ip :: ip in all <==> ip in before && ip !in pending
        invariant drained == ClientsOf(before, all)
        invariant forall i, j :: 0 <= i < j < |all| ==> all[i] != all[j]
        decreases pending.Keys
      {
        var ip :| ip in pending;
        drained := drained + [pending[ip].client];
        assert (all + [ip])[..|all|] == all;
        all := all + [ip];
        pending := pending - {ip};
      }
    }

    method HandOverAll() returns (ghost all: seq<Ip>)
      requires Waiting() && Answering()
      modifies this`pending, this`handed, this`trace, this`deliveries, this`clock
      ensures Waiting() && Answering() && clock == old(clock)
      ensures pending == map[] && trace == old(trace) + [Drained] && BatchesIn(trace) == BatchesIn(old(trace))
      ensures (forall ip :: ip in all <==> ip in old(pending)) && handed == old(handed) + ClientsOf(old(pending), all)
    {
      ghost var before := Store(pending, macCache);
      var drained;
      drained, all := TakeAll();
      HandOverKeeps(before, map[], all, handed, marks, trace, Drained, clock, clock);
      StepIsExplained(trace, deliveries, clock, Drained, all, clock);
      ListsMore(deliveries, handed, before.pending, all, |trace|);
      handed := handed + drained;
      Record(Drained, DeliveriesOf(before.pending, all, |trace|), clock);
    }

    /** Shutdown hands over everything still pending; requests still buffered stay unhandled. */
    method Drain() returns (ghost all: seq<Ip>)
      requires Valid()
      modifies this`pending, this`handed, this`trace, this`deliveries, this`clock
      ensures Valid() && pending == map[] && trace == old(trace) + [Drained] && clock == old(clock)
      ensures (forall ip :: ip in all <==> ip in old(pending)) && handed == old(handed) + ClientsOf(old(pending), all)
      ensures forall ip :: LastNaming(BatchesIn(trace), ip).Some? ==> (HandedOver(ip) <==> !Dropped(trace, ip))
    {
      all := HandOverAll();
      NobodyPending(handed, marks, trace);
    }
  }

  // ---------- Whole runs ----------

  function EventTime(e: Event, clock: nat): nat {
    if e.CheckTick? then clock else e.now
  }

  /** The clock does not run backwards and a receive takes at most a batch. */
  predicate Schedule(events: seq<Event>, clock: nat, batchMode: bool)
    decreases |events|
  {
    events == [] ||
    (var e := events[0];
     && clock <= EventTime(e, clock) < U64
     && (e.Receive? ==> |e.requests| <= if batchMode then BATCH_SIZE else 1)
     && Schedule(events[1..], EventTime(e, clock), batchMode))
  }

  method React(server: DataServer, e: Event)
    requires server.Valid() && server.clock <= EventTime(e, server.clock) < U64
    requires e.Receive? ==> |e.requests| <= if server.batchMode then BATCH_SIZE else 1
    modifies server
    ensures server.Valid() && server.clock <= EventTime(e, old(server.clock))
    ensures server.received == old(server.received) + ReceivedBy(e)
    ensures server.State() == LoopAfter(old(server.State()), e, server.batchMode)
  {
    match e {
      case Receive(requests, time, stored) =>
        server.OnReceive(requests, time, stored);
      case TimerFire(time, stored) =>
        if server.timerArmed {
          server.OnTimer(time, stored);
        }
      case FlushTick(time) =>
        ghost var due := server.OnFlushTick(time);
      case CheckTick =>
    }
  }

  method Loop(server: DataServer, events: seq<Event>)
    requires server.Valid() && Schedule(events, server.clock, server.batchMode)
    modifies server
    ensures server.Valid() && server.received == old(server.received) + ReceivedIn(events)
    ensures server.State() == RunAfter(old(server.State()), events, server.batchMode)
  {
    assert events[0..] == events;
    for i := 0 to |events|
      invariant server.Valid() && Schedule(events[i..], server.clock, server.batchMode)
      invariant server.received + ReceivedIn(events[i..]) == old(server.received) + ReceivedIn(events)
      invariant RunAfter(server.State(), events[i..], server.batchMode) ==
                RunAfter(old(server.State()), events, server.batchMode)
    {
      ghost var clock := server.clock;
      assert events[i..][0] == events[i] && events[i..][1..] == events[i + 1..];
      Regroup(server.received, ReceivedBy(events[i]), ReceivedIn(events[i + 1..]));
      React(server, events[i]);
      ScheduleLater(events[i + 1..], EventTime(events[i], clock), server.clock, server.batchMode);
    }
    assert server.received + [] == server.received;
  }

  /** A schedule that fits a clock fits every earlier one. */
  lemma {:induction false} ScheduleLater(events: seq<Event>, clock: nat, earlier: nat, batchMode: bool)
    requires earlier <= clock < U64 && Schedule(events, clock, batchMode)
    ensures Schedule(events, earlier, batchMode)
    decreases |events|
  {
    if events != [] && events[0].CheckTick? {
      ScheduleLater(events[1..], clock, earlier, batchMode);
    }
  }

  /** Any interleaving of events until stop, then the drain: nothing received is duplicated,
      reordered or lost from batches and buffer, and a client named in a handled batch is handed
      over, since and with the time of the last batch naming it, if and only if no batch that
      failed to store its rows released its entry after that naming. Every hand-over is justified: no
      client is made up, none without a hardware address leaves before its time, and a stored batch
      hands over each client it tells a hardware address of. */
  method Serve(events: seq<Event>, batchMode: bool) returns (server: DataServer)
    requires Schedule(events, 0, batchMode)
    ensures fresh(server) && server.Valid() && server.batchMode == batchMode
    ensures Requests(BatchesIn(server.trace)) + server.buffer == ReceivedIn(events)
    ensures |server.buffer| < if batchMode then BATCH_SIZE else 1
    ensures server.pending == map[]
    ensures var end := RunAfter(LoopState([], []), events, batchMode);
            server.buffer == end.buffer && server.trace == end.trace + [Drained]
    ensures forall ip :: LastNaming(BatchesIn(server.trace), ip).Some? ==>
              (server.HandedOver(ip) <==> !Dropped(server.trace, ip))
    ensures NothingMadeUp(server.handed, ReceivedIn(events)) && Lists(server.deliveries, server.handed)
    ensures AllJustified(server.deliveries, server.trace) && Answered(server.deliveries, server.trace)
    ensures Explained(server.trace, server.deliveries, server.clock)
    ensures |server.macCache| <= 26383
  {
    server := new DataServer(batchMode);
    Loop(server, events);
    assert server.received == [] + ReceivedIn(events) == ReceivedIn(events);
    ghost var all := server.Drain();
    RunMeans(server.trace, server.deliveries, server.clock, server.handed, server.received, 2 * BATCH_SIZE - 1);
  }

  /** A client can be lost: the batch that releases it fails to store its rows. */
  method FailedBatchLosesClient(req: Request, now: nat) returns (server: DataServer)
    requires req.Counted() && req.mac != ZERO_MAC && now < U64
    ensures server.pending == map[] && server.handed == []
    ensures LastNaming(BatchesIn(server.trace), req.addr) == Some(now) && Dropped(server.trace, req.addr)
  {
    server := new DataServer(false);
    ghost var due := server.HandleBatch([req], now, false);
    OneRequest(req, now);
  }

  /** The entry of a client whose address is known is released at once. */
  lemma OneRequest(req: Request, now: nat)
    requires req.Counted() && req.mac != ZERO_MAC && now < U64
    ensures var trace := [Handled(Batch([req], now, false))];
            && Replay(trace).pending == map[] && LastNaming(BatchesIn(trace), req.addr) == Some(now)
            && Dropped(trace, req.addr)
  {
    var b, none := Batch([req], now, false), Store(map[], map[]);
    var requests, trace := [req], [Handled(b)];
    assert requests[..0] == [] && trace[..0] == [];
    assert requests[0].Counted();
    assert Names(requests, req.addr);
    assert Inserted(map[], requests) == Inserted(map[], [])[req.addr := req.mac];
    var entry := EntryFor(map[], CacheAfter(map[], requests), req, now);
    assert NoteAll(map[], CacheAfter(map[], requests), requests, now) == map[][req.addr := entry];
    assert Entries(none, b) == map[req.addr := Pending(now, Client(req.addr, "", req.mac, now))];
    assert [] + [Handled(b)] == trace;
    TraceGrows([], Handled(b));
    assert [] + [b] == [b];
    HistoryGrows([], b);
    assert LosesAt(trace, 0, req.addr);
  }
}
