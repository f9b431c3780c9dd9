/** Clients as they appear in DNS requests: the entries that wait for a hardware address, the batches
    and ticks that release them, and what a history of such steps says about each client. */
module ClientHistory {
  import opened Common

  const BATCH_SIZE: nat := 1024 * 8
  const CACHE_LIMIT: nat := 10000
  const BATCH_AGE: nat := 3000
  const TICK_AGE: nat := 10000
  const U64: nat := 0x1_0000_0000_0000_0000

  type Ip = string
  type Mac = string
  const ZERO_MAC: Mac := "00:00:00:00:00:00"

  datatype Request = Request(addr: Ip, mac: Mac, prefetch: bool, dualstack: bool) {
    /** Prefetch and dual-stack probes are not queries of a client. */
    predicate Counted() {
      !prefetch && !dualstack
    }
  }

  datatype Client = Client(ip: Ip, hostname: string, mac: Mac, lastQuery: nat)

  datatype Pending = Pending(firstSeen: nat, client: Client)

  /** A handled batch: its requests, its time, and whether its rows were stored. */
  datatype Batch = Batch(requests: seq<Request>, now: nat, stored: bool)

  // ---------- What a history says ----------

  function Requests(history: seq<Batch>): seq<Request> {
    if history == [] then []
    else Requests(history[..|history| - 1]) + history[|history| - 1].requests
  }

  predicate Names(requests: seq<Request>, ip: Ip) {
    exists i :: 0 <= i < |requests| && requests[i].Counted() && requests[i].addr == ip
  }

  /** The time of the last batch that holds a counted request of a client. */
  function LastNaming(history: seq<Batch>, ip: Ip): Option<nat> {
    if history == [] then None
    else
      var last := history[|history| - 1];
      if Names(last.requests, ip) then Some(last.now) else LastNaming(history[..|history| - 1], ip)
  }

  lemma HistoryGrows(history: seq<Batch>, b: Batch)
    ensures Requests(history + [b]) == Requests(history) + b.requests
    ensures forall ip :: LastNaming(history + [b], ip) ==
                         if Names(b.requests, ip) then Some(b.now) else LastNaming(history, ip)
  {
    assert (history + [b])[..|history|] == history;
  }

  /** Ages are differences of 64-bit milliseconds; they wrap when the clock runs backwards. */
  function Age(now: nat, firstSeen: nat): int {
    if firstSeen <= now then now - firstSeen else now - firstSeen + U64
  }

  predicate Due(p: Pending, now: nat, limit: nat) {
    Age(now, p.firstSeen) > limit || p.client.mac != ZERO_MAC
  }

  predicate Holds(clients: seq<Client>, ip: Ip, time: nat) {
    exists c :: c in clients && c.ip == ip && c.lastQuery == time
  }

  /** Each entry is filed under its own address and was first seen no later than last named. */
  ghost predicate Filed(pending: map<Ip, Pending>, clock: nat) {
    forall ip :: ip in pending ==>
      pending[ip].client.ip == ip && pending[ip].firstSeen <= pending[ip].client.lastQuery <= clock
  }

  predicate NoneOf(clients: seq<Client>, ip: Ip) {
    forall c :: c in clients ==> c.ip != ip
  }

  /** The entry a counted request leaves behind for its client. */
  function EntryFor(pending: map<Ip, Pending>, macCache: map<Ip, Mac>, req: Request, now: nat): Pending {
    var mac := if req.mac == ZERO_MAC && req.addr in macCache then macCache[req.addr] else req.mac;
    if req.addr in pending then
      var existing := pending[req.addr];
      existing.(client := existing.client.(
        mac := if mac != ZERO_MAC then mac else existing.client.mac, lastQuery := now))
    else
      Pending(now, Client(req.addr, "", mac, now))
  }

  function NoteAll(pending: map<Ip, Pending>, macCache: map<Ip, Mac>, requests: seq<Request>,
                   now: nat): map<Ip, Pending>
    decreases requests
  {
    if requests == [] then pending
    else
      var req := requests[|requests| - 1];
      var noted := NoteAll(pending, macCache, requests[..|requests| - 1], now);
      if req.Counted() then noted[req.addr := EntryFor(noted, macCache, req, now)] else noted
  }

  function Kept(pending: map<Ip, Pending>, now: nat, limit: nat): map<Ip, Pending> {
    map ip | ip in pending && !Due(pending[ip], now, limit) :: pending[ip]
  }

  /** The clients of some entries, in the order in which they are listed. */
  function ClientsOf(pending: map<Ip, Pending>, ips: seq<Ip>): (clients: seq<Client>)
    requires forall ip :: ip in ips ==> ip in pending
    ensures |clients| == |ips|
    ensures forall ip :: ip in ips ==> pending[ip].client in clients
  {
    if ips == [] then [] else ClientsOf(pending, ips[..|ips| - 1]) + [pending[ips[|ips| - 1]].client]
  }

  /** Each due entry is listed once, and no other. */
  ghost predicate ListsDue(due: seq<Ip>, pending: map<Ip, Pending>, now: nat, limit: nat) {
    && (forall ip :: ip in due <==> ip in pending && Due(pending[ip], now, limit))
    && (forall i, j :: 0 <= i < j < |due| ==> due[i] != due[j])
  }

  ghost predicate Known(macCache: map<Ip, Mac>) {
    forall ip :: ip in macCache ==> macCache[ip] != ZERO_MAC
  }

  /** How noting the clients of some requests changes the entries. */
  ghost predicate Noted(before: map<Ip, Pending>, after: map<Ip, Pending>, macCache: map<Ip, Mac>,
                        requests: seq<Request>, now: nat)
  {
    && Filed(after, now)
    && (forall ip :: Names(requests, ip) ==>
          && ip in after && after[ip].client.lastQuery == now
          && (ip in macCache ==> after[ip].client.mac != ZERO_MAC))
    && (forall ip :: !Names(requests, ip) ==>
          (ip in after <==> ip in before) && (ip in after ==> after[ip] == before[ip]))
  }

  lemma NotedNext(before: map<Ip, Pending>, after: map<Ip, Pending>, macCache: map<Ip, Mac>, requests: seq<Request>,
                  req: Request, now: nat)
    requires Noted(before, after, macCache, requests, now) && Known(macCache)
    ensures var next := if req.Counted() then after[req.addr := EntryFor(after, macCache, req, now)] else after;
            Noted(before, next, macCache, requests + [req], now)
  {
    NamesAppend(requests, req);
  }

  lemma {:induction false} NotingIsNoted(before: map<Ip, Pending>, macCache: map<Ip, Mac>, requests: seq<Request>,
                                         now: nat)
    requires Filed(before, now) && Known(macCache)
    ensures Noted(before, NoteAll(before, macCache, requests, now), macCache, requests, now)
    decreases requests
  {
    if requests != [] {
      var init, req := requests[..|requests| - 1], requests[|requests| - 1];
      assert init + [req] == requests;
      NotingIsNoted(before, macCache, init, now);
      NotedNext(before, NoteAll(before, macCache, init, now), macCache, init, req, now);
    }
  }

  // ---------- What a run of steps leaves ----------

  /** What the loop did: handled a batch, released at a tick, or handed over everything at the end. */
  datatype Step = Handled(batch: Batch) | Ticked(now: nat) | Drained

  datatype Store = Store(pending: map<Ip, Pending>, cache: map<Ip, Mac>)

  function Inserted(cache: map<Ip, Mac>, requests: seq<Request>): map<Ip, Mac> {
    if requests == [] then cache
    else
      var req, init := requests[|requests| - 1], Inserted(cache, requests[..|requests| - 1]);
      if req.mac != ZERO_MAC then init[req.addr := req.mac] else init
  }

  /** A cache that has grown too large is emptied before new addresses go in. */
  function CacheAfter(cache: map<Ip, Mac>, requests: seq<Request>): map<Ip, Mac> {
    Inserted(if |cache| > CACHE_LIMIT then map[] else cache, requests)
  }

  /** The entries of a batch before the due ones are released. */
  function Entries(s: Store, b: Batch): map<Ip, Pending> {
    NoteAll(s.pending, CacheAfter(s.cache, b.requests), b.requests, b.now)
  }

  function StoreAfter(s: Store, step: Step): Store {
    match step
    case Handled(b) => Store(Kept(Entries(s, b), b.now, BATCH_AGE), CacheAfter(s.cache, b.requests))
    case Ticked(now) => s.(pending := Kept(s.pending, now, TICK_AGE))
    case Drained => s.(pending := map[])
  }

  function Replay(trace: seq<Step>): Store {
    if trace == [] then Store(map[], map[])
    else StoreAfter(Replay(trace[..|trace| - 1]), trace[|trace| - 1])
  }

  function BatchesIn(trace: seq<Step>): seq<Batch> {
    if trace == [] then []
    else
      var last := trace[|trace| - 1];
      BatchesIn(trace[..|trace| - 1]) + if last.Handled? then [last.batch] else []
  }

  /** A batch that failed to store its rows released the entry of a client: it was older than
      three seconds, or its hardware address was known by then. */
  predicate Loses(s: Store, step: Step, ip: Ip) {
    && step.Handled? && !step.batch.stored
    && ip in Entries(s, step.batch) && Due(Entries(s, step.batch)[ip], step.batch.now, BATCH_AGE)
  }

  predicate NamedBy(step: Step, ip: Ip) {
    step.Handled? && Names(step.batch.requests, ip)
  }

  predicate LosesAt(trace: seq<Step>, j: nat, ip: Ip) {
    j < |trace| && Loses(Replay(trace[..j]), trace[j], ip) && forall i :: j < i < |trace| ==> !NamedBy(trace[i], ip)
  }

  /** A failed batch released the entry of a client and no later batch names it. */
  ghost predicate Dropped(trace: seq<Step>, ip: Ip) {
    exists j: nat :: LosesAt(trace, j, ip)
  }

  lemma TraceGrows(trace: seq<Step>, step: Step)
    ensures Replay(trace + [step]) == StoreAfter(Replay(trace), step)
    ensures BatchesIn(trace + [step]) == BatchesIn(trace) + if step.Handled? then [step.batch] else []
  {
    assert (trace + [step])[..|trace|] == trace;
  }

  lemma DroppedGrows(trace: seq<Step>, step: Step, ip: Ip)
    ensures Dropped(trace + [step], ip) <==>
            Loses(Replay(trace), step, ip) || (!NamedBy(step, ip) && Dropped(trace, ip))
  {
    var all := trace + [step];
    assert all[..|trace|] == trace && all[|trace|] == step;
    if Loses(Replay(trace), step, ip) {
      assert LosesAt(all, |trace|, ip);
    }
    if !NamedBy(step, ip) && Dropped(trace, ip) {
      var j: nat :| LosesAt(trace, j, ip);
      assert all[..j] == trace[..j];
      assert LosesAt(all, j, ip);
    }
    if Dropped(all, ip) {
      var j: nat :| LosesAt(all, j, ip);
      if j < |trace| {
        assert all[..j] == trace[..j] && !NamedBy(all[|trace|], ip);
        forall i | j < i < |trace| ensures !NamedBy(trace[i], ip) {
          assert !NamedBy(all[i], ip);
        }
        assert LosesAt(trace, j, ip);
      }
    }
  }

  // ---------- Who is accounted for ----------

  /** What became of the last naming of a client, at a given time: it is pending; or the failed
      release dropped it and nothing was handed over since; or it was handed over since. */
  predicate Fate(entries: map<Ip, Pending>, since: seq<Client>, time: nat, dropped: bool, ip: Ip) {
    if ip in entries then entries[ip].client.lastQuery == time && NoneOf(since, ip) && !dropped
    else if dropped then NoneOf(since, ip)
    else Holds(since, ip, time)
  }

  /** How many clients had been handed over when a batch last named a client. */
  type Marks = map<Ip, nat>

  ghost predicate Settled(pending: map<Ip, Pending>, handed: seq<Client>, marks: Marks, trace: seq<Step>, ip: Ip) {
    var naming := LastNaming(BatchesIn(trace), ip);
    if naming.None? then ip !in pending
    else ip in marks && marks[ip] <= |handed| &&
         Fate(pending, handed[marks[ip]..], naming.value, Dropped(trace, ip), ip)
  }

  ghost predicate Accounted(pending: map<Ip, Pending>, handed: seq<Client>, marks: Marks, trace: seq<Step>) {
    forall ip :: Settled(pending, handed, marks, trace, ip)
  }

  function Marked(marks: Marks, requests: seq<Request>, count: nat): Marks {
    if requests == [] then marks
    else
      var req, init := requests[|requests| - 1], Marked(marks, requests[..|requests| - 1], count);
      if req.Counted() then init[req.addr := count] else init
  }

  lemma {:induction false} MarkedIs(marks: Marks, requests: seq<Request>, count: nat, ip: Ip)
    ensures Names(requests, ip) ==> ip in Marked(marks, requests, count) && Marked(marks, requests, count)[ip] == count
    ensures !Names(requests, ip) ==>
              (ip in Marked(marks, requests, count) <==> ip in marks) &&
              (ip in marks ==> Marked(marks, requests, count)[ip] == marks[ip])
  {
    if requests != [] {
      var init, req := requests[..|requests| - 1], requests[|requests| - 1];
      MarkedIs(marks, init, count, ip);
      NamesAppend(init, req);
      assert init + [req] == requests;
    }
  }

  ghost predicate ListsAll(gone: seq<Ip>, entries: map<Ip, Pending>, kept: map<Ip, Pending>) {
    && (forall ip :: ip in gone <==> ip in entries && ip !in kept)
    && (forall ip :: ip in kept ==> ip in entries && kept[ip] == entries[ip])
  }

  lemma {:induction false} ReleasedAre(entries: map<Ip, Pending>, gone: seq<Ip>, c: Client)
    requires (forall ip :: ip in gone ==> ip in entries) && c in ClientsOf(entries, gone)
    ensures exists ip :: ip in gone && entries[ip].client == c
  {
    var last := gone[|gone| - 1];
    if c != entries[last].client {
      ReleasedAre(entries, gone[..|gone| - 1], c);
    }
  }

  lemma ReleasedOf(entries: map<Ip, Pending>, gone: seq<Ip>, clock: nat, ip: Ip)
    requires (forall x :: x in gone ==> x in entries) && Filed(entries, clock)
    ensures ip in gone ==> Holds(ClientsOf(entries, gone), ip, entries[ip].client.lastQuery)
    ensures ip !in gone ==> NoneOf(ClientsOf(entries, gone), ip)
  {
    var released := ClientsOf(entries, gone);
    if ip in gone {
      assert entries[ip].client in released;
    } else {
      forall c | c in released ensures c.ip != ip {
        ReleasedAre(entries, gone, c);
      }
    }
  }

  /** Entries that leave are handed over, or dropped. */
  lemma ReleaseDecides(entries: map<Ip, Pending>, kept: map<Ip, Pending>, gone: seq<Ip>, clock: nat, since: seq<Client>,
                       time: nat, dropped: bool, over: bool, ip: Ip)
    requires ListsAll(gone, entries, kept) && Filed(entries, clock) && Fate(entries, since, time, dropped, ip)
    ensures Fate(kept, if over then since + ClientsOf(entries, gone) else since, time,
                 dropped || (!over && ip in gone), ip)
  {
    ReleasedOf(entries, gone, clock, ip);
  }

  lemma NotedSettles(before: map<Ip, Pending>, noted: map<Ip, Pending>, macCache: map<Ip, Mac>, b: Batch,
                     handed: seq<Client>, marks: Marks, trace: seq<Step>, ip: Ip)
    requires Settled(before, handed, marks, trace, ip) && Noted(before, noted, macCache, b.requests, b.now)
    requires LastNaming(BatchesIn(trace) + [b], ip).Some?
    ensures var next := Marked(marks, b.requests, |handed|);
            && ip in next && next[ip] <= |handed|
            && Fate(noted, handed[next[ip]..], LastNaming(BatchesIn(trace) + [b], ip).value,
                    !Names(b.requests, ip) && Dropped(trace, ip), ip)
  {
    HistoryGrows(BatchesIn(trace), b);
    MarkedIs(marks, b.requests, |handed|, ip);
    assert handed[|handed|..] == [];
  }

  lemma SinceGrows(handed: seq<Client>, more: seq<Client>, mark: nat)
    requires mark <= |handed|
    ensures (handed + more)[mark..] == handed[mark..] + more
  {
  }

  /** One batch: whoever it names is marked anew, and the due entries are handed over or dropped. */
  lemma BatchSettles(s: Store, noted: map<Ip, Pending>, due: seq<Ip>, b: Batch, handed: seq<Client>, marks: Marks,
                     trace: seq<Step>, ip: Ip)
    requires s == Replay(trace) && noted == Entries(s, b) && Filed(s.pending, b.now)
    requires Noted(s.pending, noted, CacheAfter(s.cache, b.requests), b.requests, b.now)
    requires ListsDue(due, noted, b.now, BATCH_AGE) && Settled(s.pending, handed, marks, trace, ip)
    ensures Settled(Kept(noted, b.now, BATCH_AGE), if b.stored then handed + ClientsOf(noted, due) else handed,
                    Marked(marks, b.requests, |handed|), trace + [Handled(b)], ip)
  {
    var kept, next := Kept(noted, b.now, BATCH_AGE), Marked(marks, b.requests, |handed|);
    TraceGrows(trace, Handled(b));
    DroppedGrows(trace, Handled(b), ip);
    var naming := LastNaming(BatchesIn(trace) + [b], ip);
    HistoryGrows(BatchesIn(trace), b);
    if naming.Some? {
      NotedSettles(s.pending, noted, CacheAfter(s.cache, b.requests), b, handed, marks, trace, ip);
      ReleaseDecides(noted, kept, due, b.now, handed[next[ip]..], naming.value,
                     !Names(b.requests, ip) && Dropped(trace, ip), b.stored, ip);
      SinceGrows(handed, ClientsOf(noted, due), next[ip]);
    }
  }

  /** A tick or the end: whatever leaves is handed over. */
  lemma HandOverSettles(pending: map<Ip, Pending>, kept: map<Ip, Pending>, gone: seq<Ip>, clock: nat,
                        handed: seq<Client>,
                        marks: Marks, trace: seq<Step>, step: Step, ip: Ip)
    requires !step.Handled? && ListsAll(gone, pending, kept) && Filed(pending, clock)
    requires Settled(pending, handed, marks, trace, ip)
    ensures Settled(kept, handed + ClientsOf(pending, gone), marks, trace + [step], ip)
  {
    TraceGrows(trace, step);
    DroppedGrows(trace, step, ip);
    assert BatchesIn(trace) + [] == BatchesIn(trace);
    var naming := LastNaming(BatchesIn(trace), ip);
    if naming.Some? {
      ReleaseDecides(pending, kept, gone, clock, handed[marks[ip]..], naming.value, Dropped(trace, ip), true, ip);
      SinceGrows(handed, ClientsOf(pending, gone), marks[ip]);
    }
  }

  ghost predicate Unresolved(pending: map<Ip, Pending>) {
    forall ip :: ip in pending ==> pending[ip].client.mac == ZERO_MAC
  }

  /** What holds between two events: the entries and the cache are those of the steps so far, and
      every client is accounted for. */
  ghost predicate Consistent(s: Store, handed: seq<Client>, marks: Marks, trace: seq<Step>, clock: nat) {
    && clock < U64 && s == Replay(trace) && Known(s.cache) && Filed(s.pending, clock)
    && Unresolved(s.pending) && Accounted(s.pending, handed, marks, trace)
  }

  predicate Sized(batches: seq<Batch>, batchMode: bool) {
    forall b :: b in batches ==> 0 < |b.requests| <= if batchMode then 2 * BATCH_SIZE - 1 else 1
  }

  /** A buffer about to be handled: with the batches handled so far it is what was received. */
  ghost predicate Handleable(batches: seq<Batch>, buffer: seq<Request>, received: seq<Request>, batchMode: bool,
                             total: nat) {
    && Requests(batches) + buffer == received
    && Sized(batches, batchMode) && total == CountedIn(Requests(batches))
    && 0 < |buffer| <= if batchMode then 2 * BATCH_SIZE - 1 else 1
  }

  /** The buffer between two events, and the timer, which is armed exactly when it is not empty. */
  ghost predicate Buffered(batches: seq<Batch>, buffer: seq<Request>, received: seq<Request>, batchMode: bool,
                           timerArmed: bool, total: nat) {
    && Requests(batches) + buffer == received
    && Sized(batches, batchMode) && total == CountedIn(Requests(batches))
    && (timerArmed <==> buffer != [])
    && |buffer| < if batchMode then BATCH_SIZE else 1
  }

  lemma Receives(batches: seq<Batch>, buffer: seq<Request>, received: seq<Request>, batchMode: bool, timerArmed: bool,
                 total: nat, requests: seq<Request>)
    requires Buffered(batches, buffer, received, batchMode, timerArmed, total)
    requires 0 < |requests| <= if batchMode then BATCH_SIZE else 1
    ensures Handleable(batches, buffer + requests, received + requests, batchMode, total)
    ensures batchMode && |buffer + requests| < BATCH_SIZE ==>
              Buffered(batches, buffer + requests, received + requests, batchMode, true, total)
  {
    Regroup(Requests(batches), buffer, requests);
  }

  lemma BufferHandled(trace: seq<Step>, buffer: seq<Request>, received: seq<Request>, batchMode: bool, total: nat,
                      b: Batch)
    requires Handleable(BatchesIn(trace), buffer, received, batchMode, total) && b.requests == buffer
    ensures Buffered(BatchesIn(trace + [Handled(b)]), [], received, batchMode, false, total + CountedIn(buffer))
  {
    BatchCounts(trace, b, batchMode);
    assert Requests(BatchesIn(trace + [Handled(b)])) + [] == Requests(BatchesIn(trace + [Handled(b)]));
  }

  /** The client was handed over with the time of its last naming, and since that naming. */
  ghost predicate OverSince(handed: seq<Client>, marks: Marks, trace: seq<Step>, ip: Ip) {
    var naming := LastNaming(BatchesIn(trace), ip);
    naming.Some? && ip in marks && marks[ip] <= |handed| && Holds(handed[marks[ip]..], ip, naming.value)
  }

  lemma NobodyPending(handed: seq<Client>, marks: Marks, trace: seq<Step>)
    requires Accounted(map[], handed, marks, trace)
    ensures forall ip :: LastNaming(BatchesIn(trace), ip).Some? ==>
              (OverSince(handed, marks, trace, ip) <==> !Dropped(trace, ip))
  {
    forall ip | LastNaming(BatchesIn(trace), ip).Some?
      ensures OverSince(handed, marks, trace, ip) <==> !Dropped(trace, ip)
    {
      assert Settled(map[], handed, marks, trace, ip);
    }
  }

  predicate Young(pending: map<Ip, Pending>, now: nat, limit: nat) {
    forall ip :: ip in pending ==> now - pending[ip].firstSeen <= limit
  }

  lemma {:induction false} InsertedIs(cache: map<Ip, Mac>, requests: seq<Request>)
    requires Known(cache)
    ensures Known(Inserted(cache, requests))
    ensures forall i :: 0 <= i < |requests| && requests[i].mac != ZERO_MAC ==>
            requests[i].addr in Inserted(cache, requests)
  {
    if requests != [] {
      InsertedIs(cache, requests[..|requests| - 1]);
    }
  }

  /** What one batch keeps of everything the loop relies on. */
  lemma BatchKeeps(s: Store, noted: map<Ip, Pending>, due: seq<Ip>, b: Batch, handed: seq<Client>, marks: Marks,
                   trace: seq<Step>, clock: nat)
    requires Consistent(s, handed, marks, trace, clock) && clock <= b.now < U64
    requires noted == Entries(s, b) && ListsDue(due, noted, b.now, BATCH_AGE)
    ensures Consistent(Store(Kept(noted, b.now, BATCH_AGE), CacheAfter(s.cache, b.requests)),
                       if b.stored then handed + ClientsOf(noted, due) else handed,
                       Marked(marks, b.requests, |handed|), trace + [Handled(b)], b.now)
    ensures Young(Kept(noted, b.now, BATCH_AGE), b.now, BATCH_AGE)
  {
    InsertedIs(if |s.cache| > CACHE_LIMIT then map[] else s.cache, b.requests);
    NotingIsNoted(s.pending, CacheAfter(s.cache, b.requests), b.requests, b.now);
    TraceGrows(trace, Handled(b));
    var kept, next := Kept(noted, b.now, BATCH_AGE), Marked(marks, b.requests, |handed|);
    var over := if b.stored then handed + ClientsOf(noted, due) else handed;
    forall ip ensures Settled(kept, over, next, trace + [Handled(b)], ip) {
      assert Settled(s.pending, handed, marks, trace, ip);
      BatchSettles(s, noted, due, b, handed, marks, trace, ip);
    }
  }

  lemma DueAreGone(pending: map<Ip, Pending>, due: seq<Ip>, now: nat)
    requires ListsDue(due, pending, now, TICK_AGE) && Filed(pending, now) && now < U64
    ensures ListsAll(due, pending, Kept(pending, now, TICK_AGE)) && Young(Kept(pending, now, TICK_AGE), now, TICK_AGE)
  {
  }

  lemma HandOverKeeps(s: Store, kept: map<Ip, Pending>, gone: seq<Ip>, handed: seq<Client>, marks: Marks,
                      trace: seq<Step>, step: Step, clock: nat, now: nat)
    requires Consistent(s, handed, marks, trace, clock) && clock <= now < U64
    requires !step.Handled? && ListsAll(gone, s.pending, kept) && StoreAfter(s, step) == s.(pending := kept)
    ensures Consistent(s.(pending := kept), handed + ClientsOf(s.pending, gone), marks, trace + [step], now)
    ensures BatchesIn(trace + [step]) == BatchesIn(trace)
  {
    TraceGrows(trace, step);
    var over := handed + ClientsOf(s.pending, gone);
    forall ip ensures Settled(kept, over, marks, trace + [step], ip) {
      assert Settled(s.pending, handed, marks, trace, ip);
      HandOverSettles(s.pending, kept, gone, clock, handed, marks, trace, step, ip);
    }
  }

  lemma TickKeeps(s: Store, due: seq<Ip>, handed: seq<Client>, marks: Marks, trace: seq<Step>, clock: nat, now: nat)
    requires Consistent(s, handed, marks, trace, clock) && clock <= now < U64
    requires ListsDue(due, s.pending, now, TICK_AGE)
    ensures Consistent(Store(Kept(s.pending, now, TICK_AGE), s.cache), handed + ClientsOf(s.pending, due), marks,
                       trace + [Ticked(now)], now)
    ensures BatchesIn(trace + [Ticked(now)]) == BatchesIn(trace) && Young(Kept(s.pending, now, TICK_AGE), now, TICK_AGE)
  {
    DueAreGone(s.pending, due, now);
    HandOverKeeps(s, Kept(s.pending, now, TICK_AGE), due, handed, marks, trace, Ticked(now), clock, now);
  }

  lemma BatchCounts(trace: seq<Step>, b: Batch, batchMode: bool)
    requires Sized(BatchesIn(trace), batchMode) && 0 < |b.requests| <= if batchMode then 2 * BATCH_SIZE - 1 else 1
    ensures var batches := BatchesIn(trace + [Handled(b)]);
            && Sized(batches, batchMode) && Requests(batches) == Requests(BatchesIn(trace)) + b.requests
            && CountedIn(Requests(batches)) == CountedIn(Requests(BatchesIn(trace))) + CountedIn(b.requests)
  {
    TraceGrows(trace, Handled(b));
    HistoryGrows(BatchesIn(trace), b);
    CountedConcat(Requests(BatchesIn(trace)), b.requests);
  }

  // ---------- Who was handed over, when and why ----------

  /** A client that was handed over, and the step of the trace that did it. */
  datatype Delivery = Delivery(client: Client, at: nat)

  predicate CameIn(requests: seq<Request>, ip: Ip, mac: Mac) {
    exists i :: 0 <= i < |requests| && requests[i].addr == ip && requests[i].mac == mac
  }

  /** A handled request came from an address with a hardware address. */
  predicate Came(trace: seq<Step>, ip: Ip, mac: Mac) {
    exists j :: 0 <= j < |trace| && trace[j].Handled? && CameIn(trace[j].batch.requests, ip, mac)
  }

  predicate NamedAt(trace: seq<Step>, j: nat, ip: Ip, time: nat) {
    j < |trace| && NamedBy(trace[j], ip) && trace[j].batch.now == time
  }

  /** Nothing in a client is made up: it has no host name, its hardware address is unknown or came with
      its address, and its time is that of a batch that names it. */
  ghost predicate Genuine(c: Client, trace: seq<Step>) {
    && c.hostname == ""
    && (c.mac == ZERO_MAC || Came(trace, c.ip, c.mac))
    && exists j: nat :: NamedAt(trace, j, c.ip, c.lastQuery)
  }

  /** The client was named at a time and has not been handed over since. */
  predicate WaitsSince(trace: seq<Step>, deliveries: seq<Delivery>, ip: Ip, j: nat, time: nat) {
    NamedAt(trace, j, ip, time) && forall d :: d in deliveries && d.client.ip == ip ==> d.at < j
  }

  ghost predicate HonestEntry(p: Pending, ip: Ip, deliveries: seq<Delivery>, trace: seq<Step>) {
    p.client.ip == ip && Genuine(p.client, trace) &&
    exists j: nat :: WaitsSince(trace, deliveries, ip, j, p.firstSeen)
  }

  ghost predicate HonestEntries(pending: map<Ip, Pending>, deliveries: seq<Delivery>, trace: seq<Step>) {
    forall ip :: ip in pending ==> HonestEntry(pending[ip], ip, deliveries, trace)
  }

  ghost predicate HonestCache(cache: map<Ip, Mac>, trace: seq<Step>) {
    forall ip :: ip in cache ==> Came(trace, ip, cache[ip])
  }

  /** Named longer ago than an age, and waiting since. */
  ghost predicate Overdue(deliveries: seq<Delivery>, ip: Ip, trace: seq<Step>, now: nat, age: nat) {
    exists j: nat, time: nat :: WaitsSince(trace, deliveries, ip, j, time) && time + age < now
  }

  /** Why a client was handed over: a batch that stored its rows came with its hardware address or
      found it waiting for more than three seconds, a tick found it waiting for more than ten, or it
      was left at the end. */
  ghost predicate Justified(deliveries: seq<Delivery>, k: nat, trace: seq<Step>)
    requires k < |deliveries|
  {
    var (c, at, before) := (deliveries[k].client, deliveries[k].at, deliveries[..k]);
    && at < |trace| && Genuine(c, trace[..at + 1])
    && match trace[at]
       case Handled(b) => b.stored && (c.mac != ZERO_MAC || Overdue(before, c.ip, trace[..at + 1], b.now, 3000))
       case Ticked(now) => c.mac == ZERO_MAC && Overdue(before, c.ip, trace[..at + 1], now, 10000)
       case Drained => c.mac == ZERO_MAC
  }

  ghost predicate AllJustified(deliveries: seq<Delivery>, trace: seq<Step>) {
    forall k :: 0 <= k < |deliveries| ==> Justified(deliveries, k, trace)
  }

  /** The last counted request of a client. */
  predicate LastNamed(requests: seq<Request>, ip: Ip, i: nat) {
    && i < |requests| && requests[i].Counted() && requests[i].addr == ip
    && forall j :: i < j < |requests| && requests[j].Counted() ==> requests[j].addr != ip
  }

  /** The last request from an address with a known hardware address. */
  predicate LastKnown(requests: seq<Request>, ip: Ip, i: nat) {
    && i < |requests| && requests[i].addr == ip && requests[i].mac != ZERO_MAC
    && forall j :: i < j < |requests| && requests[j].addr == ip ==> requests[j].mac == ZERO_MAC
  }

  function Told(named: Request, known: Request): Mac {
    if named.mac != ZERO_MAC then named.mac else known.mac
  }

  /** The hardware address a batch gives a client it names: that of its last counted request, or where
      this has none, the last one that came from the client. */
  ghost predicate Tells(requests: seq<Request>, ip: Ip, mac: Mac) {
    exists i: nat, j: nat ::
      LastNamed(requests, ip, i) && LastKnown(requests, ip, j) && mac == Told(requests[i], requests[j])
  }

  predicate Answers(d: Delivery, at: nat, b: Batch, ip: Ip, mac: Mac) {
    d.at == at && d.client == Client(ip, "", mac, b.now)
  }

  /** Every client that a stored batch names and tells a hardware address of was handed over with it. */
  ghost predicate Answered(deliveries: seq<Delivery>, trace: seq<Step>) {
    forall at: nat, ip, mac ::
      (at < |trace| && trace[at].Handled? && trace[at].batch.stored && Tells(trace[at].batch.requests, ip, mac)) ==>
        exists d :: d in deliveries && Answers(d, at, trace[at].batch, ip, mac)
  }

  /** What holds of all hand-overs so far, and of what waits for the next. */
  ghost predicate Fair(s: Store, deliveries: seq<Delivery>, trace: seq<Step>) {
    && HonestEntries(s.pending, deliveries, trace) && HonestCache(s.cache, trace)
    && (forall k :: 0 <= k < |deliveries| ==> Justified(deliveries, k, trace))
    && Answered(deliveries, trace)
  }

  // ---------- Longer traces ----------

  lemma CameGrows(trace: seq<Step>, step: Step, ip: Ip, mac: Mac)
    requires Came(trace, ip, mac)
    ensures Came(trace + [step], ip, mac)
  {
    var j :| 0 <= j < |trace| && trace[j].Handled? && CameIn(trace[j].batch.requests, ip, mac);
    assert (trace + [step])[j] == trace[j];
  }

  lemma CameNow(trace: seq<Step>, b: Batch, i: nat)
    requires i < |b.requests|
    ensures Came(trace + [Handled(b)], b.requests[i].addr, b.requests[i].mac)
  {
    assert (trace + [Handled(b)])[|trace|] == Handled(b);
    assert CameIn(b.requests, b.requests[i].addr, b.requests[i].mac);
  }

  lemma GenuineGrows(c: Client, trace: seq<Step>, step: Step)
    requires Genuine(c, trace)
    ensures Genuine(c, trace + [step])
  {
    if c.mac != ZERO_MAC {
      CameGrows(trace, step, c.ip, c.mac);
    }
    var j: nat :| NamedAt(trace, j, c.ip, c.lastQuery);
    assert NamedAt(trace + [step], j, c.ip, c.lastQuery);
  }

  lemma EntryGrows(p: Pending, ip: Ip, deliveries: seq<Delivery>, trace: seq<Step>, step: Step)
    requires HonestEntry(p, ip, deliveries, trace)
    ensures HonestEntry(p, ip, deliveries, trace + [step])
  {
    GenuineGrows(p.client, trace, step);
    var j: nat :| WaitsSince(trace, deliveries, ip, j, p.firstSeen);
    assert WaitsSince(trace + [step], deliveries, ip, j, p.firstSeen);
  }

  lemma JustifiedGrows(deliveries: seq<Delivery>, more: seq<Delivery>, k: nat, trace: seq<Step>, step: Step)
    requires k < |deliveries| && Justified(deliveries, k, trace)
    ensures Justified(deliveries + more, k, trace + [step])
  {
    var at := deliveries[k].at;
    assert (trace + [step])[..at + 1] == trace[..at + 1];
    assert (deliveries + more)[..k] == deliveries[..k];
  }

  // ---------- Noting is honest ----------

  lemma {:induction false} InsertedIsHonest(cache: map<Ip, Mac>, requests: seq<Request>, trace: seq<Step>, b: Batch)
    requires HonestCache(cache, trace) && requests <= b.requests
    ensures HonestCache(Inserted(cache, requests), trace + [Handled(b)])
  {
    var all := trace + [Handled(b)];
    if requests == [] {
      forall ip | ip in cache ensures Came(all, ip, cache[ip]) {
        CameGrows(trace, Handled(b), ip, cache[ip]);
      }
    } else {
      InsertedIsHonest(cache, requests[..|requests| - 1], trace, b);
      CameNow(trace, b, |requests| - 1);
    }
  }

  lemma NewEntryIsHonest(pending: map<Ip, Pending>, macCache: map<Ip, Mac>, i: nat, deliveries: seq<Delivery>,
                         trace: seq<Step>, b: Batch)
    requires i < |b.requests| && b.requests[i].Counted() && forall d :: d in deliveries ==> d.at < |trace|
    requires var all := trace + [Handled(b)]; HonestEntries(pending, deliveries, all) && HonestCache(macCache, all)
    ensures var req := b.requests[i];
            HonestEntry(EntryFor(pending, macCache, req, b.now), req.addr, deliveries, trace + [Handled(b)])
  {
    var req, all := b.requests[i], trace + [Handled(b)];
    CameNow(trace, b, i);
    assert Names(b.requests, req.addr) && all[|trace|] == Handled(b);
    assert NamedAt(all, |trace|, req.addr, b.now);
    if req.addr !in pending {
      assert WaitsSince(all, deliveries, req.addr, |trace|, b.now);
    } else {
      assert HonestEntry(pending[req.addr], req.addr, deliveries, all);
    }
  }

  lemma {:induction false} NotingIsHonest(pending: map<Ip, Pending>, macCache: map<Ip, Mac>, n: nat,
                                          deliveries: seq<Delivery>, trace: seq<Step>, b: Batch)
    requires n <= |b.requests| && forall d :: d in deliveries ==> d.at < |trace|
    requires var all := trace + [Handled(b)]; HonestEntries(pending, deliveries, all) && HonestCache(macCache, all)
    ensures HonestEntries(NoteAll(pending, macCache, b.requests[..n], b.now), deliveries, trace + [Handled(b)])
  {
    if n > 0 {
      NotingIsHonest(pending, macCache, n - 1, deliveries, trace, b);
      assert b.requests[..n][..n - 1] == b.requests[..n - 1];
      if b.requests[n - 1].Counted() {
        NewEntryIsHonest(NoteAll(pending, macCache, b.requests[..n - 1], b.now), macCache, n - 1, deliveries, trace, b);
      }
    }
  }

  lemma EntriesAreHonest(s: Store, deliveries: seq<Delivery>, trace: seq<Step>, b: Batch)
    requires HonestEntries(s.pending, deliveries, trace) && HonestCache(s.cache, trace)
    requires forall d :: d in deliveries ==> d.at < |trace|
    ensures HonestEntries(Entries(s, b), deliveries, trace + [Handled(b)])
    ensures HonestCache(CacheAfter(s.cache, b.requests), trace + [Handled(b)])
  {
    InsertedIsHonest(if |s.cache| > CACHE_LIMIT then map[] else s.cache, b.requests, trace, b);
    forall ip | ip in s.pending ensures HonestEntry(s.pending[ip], ip, deliveries, trace + [Handled(b)]) {
      EntryGrows(s.pending[ip], ip, deliveries, trace, Handled(b));
    }
    NotingIsHonest(s.pending, CacheAfter(s.cache, b.requests), |b.requests|, deliveries, trace, b);
    assert b.requests[..|b.requests|] == b.requests;
  }

  // ---------- Releasing is fair ----------

  function DeliveriesOf(entries: map<Ip, Pending>, gone: seq<Ip>, at: nat): seq<Delivery>
    requires forall ip :: ip in gone ==> ip in entries
  {
    seq(|gone|, i requires 0 <= i < |gone| => Delivery(entries[gone[i]].client, at))
  }

  /** The release of an entry: it was due, or the end has come. */
  predicate Releasable(p: Pending, step: Step) {
    match step
    case Handled(b) => b.stored && Due(p, b.now, BATCH_AGE)
    case Ticked(now) => p.client.mac == ZERO_MAC && Due(p, now, TICK_AGE)
    case Drained => p.client.mac == ZERO_MAC
  }

  function TimeOf(step: Step, clock: nat): nat {
    match step
    case Handled(b) => b.now
    case Ticked(now) => now
    case Drained => clock
  }

  lemma ReleaseIsJustified(entries: map<Ip, Pending>, gone: seq<Ip>, i: nat, deliveries: seq<Delivery>,
                           trace: seq<Step>, step: Step, clock: nat)
    requires i < |gone| && (forall ip :: ip in gone ==> ip in entries)
    requires forall x, y :: 0 <= x < y < |gone| ==> gone[x] != gone[y]
    requires HonestEntries(entries, deliveries, trace + [step]) && Releasable(entries[gone[i]], step)
    requires entries[gone[i]].firstSeen <= TimeOf(step, clock)
    ensures Justified(deliveries + DeliveriesOf(entries, gone, |trace|), |deliveries| + i, trace + [step])
  {
    var all, more := trace + [step], DeliveriesOf(entries, gone, |trace|);
    var longer, k := deliveries + more, |deliveries| + i;
    var p := entries[gone[i]];
    assert longer[k] == Delivery(p.client, |trace|) && all[..|trace| + 1] == all && all[|trace|] == step;
    assert HonestEntry(p, gone[i], deliveries, all);
    var j: nat :| WaitsSince(all, deliveries, gone[i], j, p.firstSeen);
    EarlierDeliveries(entries, gone, i, deliveries, all, |trace|);
    assert WaitsSince(all, longer[..k], gone[i], j, p.firstSeen);
  }

  lemma EarlierDeliveries(entries: map<Ip, Pending>, gone: seq<Ip>, i: nat, deliveries: seq<Delivery>, all: seq<Step>,
                          at: nat)
    requires i < |gone| && (forall ip :: ip in gone ==> ip in entries)
    requires forall x, y :: 0 <= x < y < |gone| ==> gone[x] != gone[y]
    requires HonestEntries(entries, deliveries, all)
    ensures var earlier := (deliveries + DeliveriesOf(entries, gone, at))[..|deliveries| + i];
            forall d :: d in earlier && d.client.ip == gone[i] ==> d in deliveries
  {
    var more := DeliveriesOf(entries, gone, at);
    DeliveredIps(entries, gone, deliveries, all, at);
    assert (deliveries + more)[..|deliveries| + i] == deliveries + more[..i];
  }

  lemma DeliveredIps(entries: map<Ip, Pending>, gone: seq<Ip>, deliveries: seq<Delivery>, all: seq<Step>, at: nat)
    requires (forall ip :: ip in gone ==> ip in entries) && HonestEntries(entries, deliveries, all)
    ensures forall i :: 0 <= i < |gone| ==> DeliveriesOf(entries, gone, at)[i].client.ip == gone[i]
  {
    forall i | 0 <= i < |gone| ensures entries[gone[i]].client.ip == gone[i] {
      assert gone[i] in gone && HonestEntry(entries[gone[i]], gone[i], deliveries, all);
    }
  }

  lemma KeptStayHonest(entries: map<Ip, Pending>, kept: map<Ip, Pending>, gone: seq<Ip>, deliveries: seq<Delivery>,
                       all: seq<Step>, at: nat)
    requires ListsAll(gone, entries, kept) && HonestEntries(entries, deliveries, all)
    ensures HonestEntries(kept, deliveries + DeliveriesOf(entries, gone, at), all)
  {
    var longer := deliveries + DeliveriesOf(entries, gone, at);
    DeliveredIps(entries, gone, deliveries, all, at);
    forall ip | ip in kept ensures HonestEntry(kept[ip], ip, longer, all) {
      assert HonestEntry(entries[ip], ip, deliveries, all);
      var j: nat :| WaitsSince(all, deliveries, ip, j, entries[ip].firstSeen);
      assert ip !in gone;
      assert forall d :: d in longer && d.client.ip == ip ==> d in deliveries;
      assert WaitsSince(all, longer, ip, j, kept[ip].firstSeen);
    }
  }

  lemma OldStayJustified(deliveries: seq<Delivery>, more: seq<Delivery>, trace: seq<Step>, step: Step)
    requires forall k :: 0 <= k < |deliveries| ==> Justified(deliveries, k, trace)
    ensures forall k :: 0 <= k < |deliveries| ==> Justified(deliveries + more, k, trace + [step])
    ensures forall d :: d in deliveries ==> d.at < |trace|
  {
    forall k | 0 <= k < |deliveries| ensures Justified(deliveries + more, k, trace + [step]) {
      JustifiedGrows(deliveries, more, k, trace, step);
    }
    forall d | d in deliveries ensures d.at < |trace| {
      var k :| 0 <= k < |deliveries| && deliveries[k] == d;
      assert Justified(deliveries, k, trace);
    }
  }

  lemma AllStayJustified(entries: map<Ip, Pending>, gone: seq<Ip>, deliveries: seq<Delivery>, trace: seq<Step>,
                         step: Step,
                     clock: nat)
    requires (forall ip :: ip in gone ==> ip in entries)
    requires forall x, y :: 0 <= x < y < |gone| ==> gone[x] != gone[y]
    requires HonestEntries(entries, deliveries, trace + [step])
    requires forall ip :: ip in gone ==> Releasable(entries[ip], step) && entries[ip].firstSeen <= TimeOf(step, clock)
    requires forall k :: 0 <= k < |deliveries| ==> Justified(deliveries, k, trace)
    ensures var longer := deliveries + DeliveriesOf(entries, gone, |trace|);
            forall k :: 0 <= k < |longer| ==> Justified(longer, k, trace + [step])
  {
    var longer := deliveries + DeliveriesOf(entries, gone, |trace|);
    OldStayJustified(deliveries, DeliveriesOf(entries, gone, |trace|), trace, step);
    forall k | |deliveries| <= k < |longer| ensures Justified(longer, k, trace + [step]) {
      assert gone[k - |deliveries|] in gone;
      ReleaseIsJustified(entries, gone, k - |deliveries|, deliveries, trace, step, clock);
    }
  }

  // ---------- Stored batches answer ----------

  lemma {:induction false} InsertedTells(cache: map<Ip, Mac>, requests: seq<Request>, ip: Ip, j: nat)
    requires LastKnown(requests, ip, j)
    ensures ip in Inserted(cache, requests) && Inserted(cache, requests)[ip] == requests[j].mac
  {
    var init := requests[..|requests| - 1];
    if j < |init| {
      assert LastKnown(init, ip, j);
      InsertedTells(cache, init, ip, j);
    }
  }

  lemma {:induction false} NotedTells(pending: map<Ip, Pending>, macCache: map<Ip, Mac>, requests: seq<Request>,
                                      now: nat, ip: Ip, i: nat)
    requires LastNamed(requests, ip, i) && ip in macCache && macCache[ip] != ZERO_MAC
    ensures var noted := NoteAll(pending, macCache, requests, now);
            && ip in noted && noted[ip].client.lastQuery == now
            && noted[ip].client.mac == if requests[i].mac != ZERO_MAC then requests[i].mac else macCache[ip]
    decreases requests
  {
    var init := requests[..|requests| - 1];
    if i < |init| {
      assert LastNamed(init, ip, i);
      NotedTells(pending, macCache, init, now, ip, i);
    }
  }

  lemma CacheTells(cache: map<Ip, Mac>, requests: seq<Request>, ip: Ip, j: nat)
    requires LastKnown(requests, ip, j)
    ensures ip in CacheAfter(cache, requests) && CacheAfter(cache, requests)[ip] == requests[j].mac
  {
    InsertedTells(if |cache| > CACHE_LIMIT then map[] else cache, requests, ip, j);
  }

  lemma EntryTells(s: Store, b: Batch, ip: Ip, i: nat, j: nat)
    requires LastNamed(b.requests, ip, i) && LastKnown(b.requests, ip, j)
    ensures ip in Entries(s, b) && Entries(s, b)[ip].client.lastQuery == b.now
    ensures Entries(s, b)[ip].client.mac == Told(b.requests[i], b.requests[j]) != ZERO_MAC
  {
    CacheTells(s.cache, b.requests, ip, j);
    NotedTells(s.pending, CacheAfter(s.cache, b.requests), b.requests, b.now, ip, i);
  }

  lemma BatchTells(s: Store, b: Batch, ip: Ip, mac: Mac)
    requires Tells(b.requests, ip, mac)
    ensures ip in Entries(s, b) && mac != ZERO_MAC
    ensures Entries(s, b)[ip].client.lastQuery == b.now && Entries(s, b)[ip].client.mac == mac
  {
    var i: nat, j: nat :|
      LastNamed(b.requests, ip, i) && LastKnown(b.requests, ip, j) && mac == Told(b.requests[i], b.requests[j]);
    EntryTells(s, b, ip, i, j);
  }

  lemma StoredAnswers(s: Store, b: Batch, due: seq<Ip>, deliveries: seq<Delivery>, trace: seq<Step>, ip: Ip, mac: Mac)
    requires b.stored && ListsDue(due, Entries(s, b), b.now, BATCH_AGE) && Tells(b.requests, ip, mac)
    requires HonestEntries(Entries(s, b), deliveries, trace + [Handled(b)])
    ensures exists d :: d in deliveries + DeliveriesOf(Entries(s, b), due, |trace|) && Answers(d, |trace|, b, ip, mac)
  {
    BatchTells(s, b, ip, mac);
    assert HonestEntry(Entries(s, b)[ip], ip, deliveries, trace + [Handled(b)]);
    var i :| 0 <= i < |due| && due[i] == ip;
    var more := DeliveriesOf(Entries(s, b), due, |trace|);
    assert more[i] in more && Answers(more[i], |trace|, b, ip, mac);
  }

  lemma AnsweredGrows(deliveries: seq<Delivery>, more: seq<Delivery>, trace: seq<Step>, step: Step)
    requires Answered(deliveries, trace)
    requires step.Handled? && step.batch.stored ==> forall ip, mac :: Tells(step.batch.requests, ip, mac) ==>
               exists d :: d in deliveries + more && Answers(d, |trace|, step.batch, ip, mac)
    ensures Answered(deliveries + more, trace + [step])
  {
    var all := trace + [step];
    forall at: nat, ip, mac | at < |all| && all[at].Handled? && all[at].batch.stored &&
                              Tells(all[at].batch.requests, ip, mac)
      ensures exists d :: d in deliveries + more && Answers(d, at, all[at].batch, ip, mac)
    {
      if at < |trace| {
        assert all[at] == trace[at];
        var d :| d in deliveries && Answers(d, at, trace[at].batch, ip, mac);
        assert d in deliveries + more;
      }
    }
  }

  // ---------- Every step is fair ----------

  lemma BatchIsFair(s: Store, deliveries: seq<Delivery>, trace: seq<Step>, b: Batch, due: seq<Ip>)
    requires Fair(s, deliveries, trace) && HandsOver(s, Handled(b), due) && Filed(Entries(s, b), b.now)
    ensures Fair(StoreAfter(s, Handled(b)), deliveries + DeliveriesOf(Entries(s, b), due, |trace|),
                 trace + [Handled(b)])
  {
    var entries, step := Entries(s, b), Handled(b);
    var more := DeliveriesOf(entries, due, |trace|);
    OldStayJustified(deliveries, more, trace, step);
    EntriesAreHonest(s, deliveries, trace, b);
    if b.stored {
      AllStayJustified(entries, due, deliveries, trace, step, b.now);
      KeptStayHonest(entries, Kept(entries, b.now, BATCH_AGE), due, deliveries, trace + [step], |trace|);
      forall ip, mac | Tells(b.requests, ip, mac)
        ensures exists d :: d in deliveries + more && Answers(d, |trace|, b, ip, mac)
      {
        StoredAnswers(s, b, due, deliveries, trace, ip, mac);
      }
      AnsweredGrows(deliveries, more, trace, step);
    } else {
      assert deliveries + more == deliveries;
      NothingDelivered(deliveries, trace, step);
    }
  }

  lemma NothingDelivered(deliveries: seq<Delivery>, trace: seq<Step>, step: Step)
    requires (forall k :: 0 <= k < |deliveries| ==> Justified(deliveries, k, trace)) && Answered(deliveries, trace)
    requires step.Handled? ==> !step.batch.stored
    ensures forall k :: 0 <= k < |deliveries| ==> Justified(deliveries, k, trace + [step])
    ensures Answered(deliveries, trace + [step])
  {
    assert deliveries + [] == deliveries;
    OldStayJustified(deliveries, [], trace, step);
    AnsweredGrows(deliveries, [], trace, step);
  }

  lemma ReleaseIsFair(s: Store, kept: map<Ip, Pending>, gone: seq<Ip>, deliveries: seq<Delivery>, trace: seq<Step>,
                      step: Step, clock: nat)
    requires Fair(s, deliveries, trace) && !step.Handled? && ListsAll(gone, s.pending, kept)
    requires forall x, y :: 0 <= x < y < |gone| ==> gone[x] != gone[y]
    requires forall ip :: ip in gone ==>
             Releasable(s.pending[ip], step) && s.pending[ip].firstSeen <= TimeOf(step, clock)
    ensures Fair(s.(pending := kept), deliveries + DeliveriesOf(s.pending, gone, |trace|), trace + [step])
  {
    var more := DeliveriesOf(s.pending, gone, |trace|);
    forall ip | ip in s.pending ensures HonestEntry(s.pending[ip], ip, deliveries, trace + [step]) {
      EntryGrows(s.pending[ip], ip, deliveries, trace, step);
    }
    forall ip | ip in s.cache ensures Came(trace + [step], ip, s.cache[ip]) {
      CameGrows(trace, step, ip, s.cache[ip]);
    }
    AllStayJustified(s.pending, gone, deliveries, trace, step, clock);
    KeptStayHonest(s.pending, kept, gone, deliveries, trace + [step], |trace|);
    AnsweredGrows(deliveries, more, trace, step);
  }

  /** The hand-overs are those of the clients handed over, in order. */
  predicate Lists(deliveries: seq<Delivery>, handed: seq<Client>) {
    |deliveries| == |handed| && forall k :: 0 <= k < |handed| ==> deliveries[k].client == handed[k]
  }

  lemma ListsMore(deliveries: seq<Delivery>, handed: seq<Client>, entries: map<Ip, Pending>, gone: seq<Ip>, at: nat)
    requires Lists(deliveries, handed) && forall ip :: ip in gone ==> ip in entries
    ensures Lists(deliveries + DeliveriesOf(entries, gone, at), handed + ClientsOf(entries, gone))
  {
    var more, released := DeliveriesOf(entries, gone, at), ClientsOf(entries, gone);
    forall i | 0 <= i < |gone| ensures more[i].client == released[i] {
      ClientsAt(entries, gone, i);
    }
    ListsJoin(deliveries, handed, more, released);
  }

  lemma ListsJoin(a: seq<Delivery>, x: seq<Client>, b: seq<Delivery>, y: seq<Client>)
    requires Lists(a, x) && Lists(b, y)
    ensures Lists(a + b, x + y)
  {
  }

  lemma {:induction false} ClientsAt(entries: map<Ip, Pending>, gone: seq<Ip>, i: nat)
    requires i < |gone| && forall ip :: ip in gone ==> ip in entries
    ensures ClientsOf(entries, gone)[i] == entries[gone[i]].client
  {
    if i < |gone| - 1 {
      ClientsAt(entries, gone[..|gone| - 1], i);
    }
  }

  // ---------- Every run is fair ----------

  function EntriesAt(s: Store, step: Step): map<Ip, Pending> {
    if step.Handled? then Entries(s, step.batch) else s.pending
  }

  /** The entries whose clients a step hands over: the due ones, unless rows could not be stored, or
      all of them at the end. */
  ghost predicate HandsOver(s: Store, step: Step, gone: seq<Ip>) {
    match step
    case Handled(b) => if b.stored then ListsDue(gone, Entries(s, b), b.now, BATCH_AGE) else gone == []
    case Ticked(now) => ListsDue(gone, s.pending, now, TICK_AGE)
    case Drained =>
      (forall ip :: ip in gone <==> ip in s.pending) && forall i, j :: 0 <= i < j < |gone| ==> gone[i] != gone[j]
  }

  /** The hand-overs of the last step, after those of the steps before it. */
  ghost predicate LastExplained(trace: seq<Step>, deliveries: seq<Delivery>, clock: nat, earlier: seq<Delivery>,
                                gone: seq<Ip>, before: nat)
    requires trace != []
  {
    var init, step := trace[..|trace| - 1], trace[|trace| - 1];
    && HandsOver(Replay(init), step, gone) && before <= clock == TimeOf(step, before)
    && deliveries == earlier + DeliveriesOf(EntriesAt(Replay(init), step), gone, |init|)
  }

  /** The hand-overs are those of the steps of the trace, in order. */
  ghost predicate Explained(trace: seq<Step>, deliveries: seq<Delivery>, clock: nat)
    decreases |trace|
  {
    if trace == [] then deliveries == []
    else
      exists earlier, gone, before ::
        LastExplained(trace, deliveries, clock, earlier, gone, before) &&
        Explained(trace[..|trace| - 1], earlier, before)
  }

  lemma StepIsExplained(trace: seq<Step>, deliveries: seq<Delivery>, clock: nat, step: Step, gone: seq<Ip>, now: nat)
    requires Explained(trace, deliveries, clock) && HandsOver(Replay(trace), step, gone)
    requires clock <= now == TimeOf(step, clock)
    ensures Explained(trace + [step], deliveries + DeliveriesOf(EntriesAt(Replay(trace), step), gone, |trace|), now)
  {
    var all, longer := trace + [step], deliveries + DeliveriesOf(EntriesAt(Replay(trace), step), gone, |trace|);
    assert all[..|all| - 1] == trace && all[|all| - 1] == step;
    assert LastExplained(all, longer, now, deliveries, gone, clock);
  }

  /** What the entries and the cache of a run keep. */
  ghost predicate Sound(s: Store, clock: nat) {
    Known(s.cache) && Filed(s.pending, clock) && Unresolved(s.pending)
  }

  lemma SoundStep(s: Store, step: Step, clock: nat, now: nat)
    requires Sound(s, clock) && clock <= now == TimeOf(step, clock)
    ensures Sound(StoreAfter(s, step), now) && Filed(EntriesAt(s, step), now)
  {
    if step.Handled? {
      var b := step.batch;
      InsertedIs(if |s.cache| > CACHE_LIMIT then map[] else s.cache, b.requests);
      NotingIsNoted(s.pending, CacheAfter(s.cache, b.requests), b.requests, b.now);
    }
  }

  lemma StepIsFair(s: Store, deliveries: seq<Delivery>, trace: seq<Step>, step: Step, gone: seq<Ip>, clock: nat,
                   now: nat)
    requires Fair(s, deliveries, trace) && Sound(s, clock) && clock <= now == TimeOf(step, clock)
    requires HandsOver(s, step, gone)
    ensures Fair(StoreAfter(s, step), deliveries + DeliveriesOf(EntriesAt(s, step), gone, |trace|), trace + [step])
  {
    SoundStep(s, step, clock, now);
    match step
    case Handled(b) =>
      BatchIsFair(s, deliveries, trace, b, gone);
    case Ticked(_) =>
      ReleaseIsFair(s, Kept(s.pending, now, TICK_AGE), gone, deliveries, trace, step, clock);
    case Drained =>
      ReleaseIsFair(s, map[], gone, deliveries, trace, step, clock);
  }

  /** However receives, timers and ticks interleave, all hand-overs are fair. */
  lemma {:induction false} RunIsFair(trace: seq<Step>, deliveries: seq<Delivery>, clock: nat)
    requires Explained(trace, deliveries, clock)
    ensures Fair(Replay(trace), deliveries, trace) && Sound(Replay(trace), clock)
    decreases |trace|
  {
    if trace != [] {
      var init, step := trace[..|trace| - 1], trace[|trace| - 1];
      var earlier, gone, before :| LastExplained(trace, deliveries, clock, earlier, gone, before) &&
                                   Explained(init, earlier, before);
      RunIsFair(init, earlier, before);
      StepIsFair(Replay(init), earlier, init, step, gone, before, clock);
      SoundStep(Replay(init), step, before, clock);
      assert init + [step] == trace;
    }
  }

  /** One batch goes on record: its clients are accounted for and its hand-overs explained. */
  lemma BatchGoesOn(s: Store, due: seq<Ip>, b: Batch, handed: seq<Client>, deliveries: seq<Delivery>, marks: Marks,
                    trace: seq<Step>, clock: nat) returns (gone: seq<Ip>)
    requires Consistent(s, handed, marks, trace, clock) && clock <= b.now < U64
    requires Lists(deliveries, handed) && Explained(trace, deliveries, clock)
    requires ListsDue(due, Entries(s, b), b.now, BATCH_AGE)
    ensures HandsOver(s, Handled(b), gone)
    ensures var over := if b.stored then handed + ClientsOf(Entries(s, b), due) else handed;
            var longer := deliveries + DeliveriesOf(Entries(s, b), gone, |trace|);
            && Consistent(Store(Kept(Entries(s, b), b.now, BATCH_AGE), CacheAfter(s.cache, b.requests)), over,
                          Marked(marks, b.requests, |handed|), trace + [Handled(b)], b.now)
            && Lists(longer, over) && Explained(trace + [Handled(b)], longer, b.now)
    ensures Young(Kept(Entries(s, b), b.now, BATCH_AGE), b.now, BATCH_AGE)
  {
    gone := if b.stored then due else [];
    BatchKeeps(s, Entries(s, b), due, b, handed, marks, trace, clock);
    StepIsExplained(trace, deliveries, clock, Handled(b), gone, b.now);
    ListsMore(deliveries, handed, Entries(s, b), gone, |trace|);
    assert handed + [] == handed;
  }

  lemma {:induction false} CameIsHandled(trace: seq<Step>, ip: Ip, mac: Mac)
    requires Came(trace, ip, mac)
    ensures CameIn(Requests(BatchesIn(trace)), ip, mac)
    decreases |trace|
  {
    var init, step := trace[..|trace| - 1], trace[|trace| - 1];
    var j :| 0 <= j < |trace| && trace[j].Handled? && CameIn(trace[j].batch.requests, ip, mac);
    assert init + [step] == trace;
    TraceGrows(init, step);
    if step.Handled? {
      HistoryGrows(BatchesIn(init), step.batch);
    }
    if j < |init| {
      assert init[j] == trace[j];
      CameIsHandled(init, ip, mac);
      CameInMore(Requests(BatchesIn(init)), if step.Handled? then step.batch.requests else [], ip, mac);
    } else {
      CameInMore(Requests(BatchesIn(init)), step.batch.requests, ip, mac);
    }
    assert BatchesIn(init) + [] == BatchesIn(init);
    assert Requests(BatchesIn(init)) + [] == Requests(BatchesIn(init));
  }

  lemma CameInMore(a: seq<Request>, b: seq<Request>, ip: Ip, mac: Mac)
    ensures CameIn(a, ip, mac) || CameIn(b, ip, mac) ==> CameIn(a + b, ip, mac)
  {
    if i :| 0 <= i < |a| && a[i].addr == ip && a[i].mac == mac {
      assert (a + b)[i] == a[i];
    }
    if i :| 0 <= i < |b| && b[i].addr == ip && b[i].mac == mac {
      assert (a + b)[|a| + i] == b[i];
    }
  }

  /** No client that was handed over is made up: it has no host name, and its hardware address is
      unknown or came with a handled request from its address. */
  ghost predicate NothingMadeUp(handed: seq<Client>, requests: seq<Request>) {
    forall c :: c in handed ==> c.hostname == "" && (c.mac == ZERO_MAC || CameIn(requests, c.ip, c.mac))
  }

  lemma HandedAreGenuine(handed: seq<Client>, deliveries: seq<Delivery>, trace: seq<Step>, received: seq<Request>)
    requires Lists(deliveries, handed) && forall k :: 0 <= k < |deliveries| ==> Justified(deliveries, k, trace)
    requires Requests(BatchesIn(trace)) <= received
    ensures NothingMadeUp(handed, received)
  {
    forall c | c in handed ensures c.hostname == "" && (c.mac == ZERO_MAC || CameIn(received, c.ip, c.mac)) {
      var k :| 0 <= k < |handed| && handed[k] == c;
      var at := deliveries[k].at;
      assert Justified(deliveries, k, trace) && Genuine(c, trace[..at + 1]);
      if c.mac != ZERO_MAC {
        var j :| 0 <= j < at + 1 && trace[j].Handled? && CameIn(trace[j].batch.requests, c.ip, c.mac);
        CameIsHandled(trace, c.ip, c.mac);
        var requests := Requests(BatchesIn(trace));
        CameInMore(requests, received[|requests|..], c.ip, c.mac);
        assert requests + received[|requests|..] == received;
      }
    }
  }

  // ---------- The cache ----------

  lemma {:induction false} InsertedSize(cache: map<Ip, Mac>, requests: seq<Request>)
    ensures |Inserted(cache, requests)| <= |cache| + |requests|
    ensures forall ip :: ip in cache ==> ip in Inserted(cache, requests)
  {
    if requests != [] {
      var req, init := requests[|requests| - 1], Inserted(cache, requests[..|requests| - 1]);
      InsertedSize(cache, requests[..|requests| - 1]);
      assert init[req.addr := req.mac].Keys == init.Keys + {req.addr};
    }
  }

  /** The cache never outgrows its limit by more than a batch. */
  lemma {:induction false} CacheIsBounded(trace: seq<Step>, most: nat)
    requires forall b :: b in BatchesIn(trace) ==> |b.requests| <= most
    ensures |Replay(trace).cache| <= CACHE_LIMIT + most
    decreases |trace|
  {
    if trace != [] {
      var init, step := trace[..|trace| - 1], trace[|trace| - 1];
      CacheIsBounded(init, most);
      if step.Handled? {
        var cache := Replay(init).cache;
        assert step.batch in BatchesIn(trace);
        InsertedSize(if |cache| > CACHE_LIMIT then map[] else cache, step.batch.requests);
      }
    }
  }

  /** What every run comes to. */
  lemma RunMeans(trace: seq<Step>, deliveries: seq<Delivery>, clock: nat, handed: seq<Client>, received: seq<Request>,
                 most: nat)
    requires Explained(trace, deliveries, clock) && Lists(deliveries, handed)
    requires Requests(BatchesIn(trace)) <= received && forall b :: b in BatchesIn(trace) ==> |b.requests| <= most
    ensures NothingMadeUp(handed, received) && AllJustified(deliveries, trace) && Answered(deliveries, trace)
    ensures |Replay(trace).cache| <= CACHE_LIMIT + most
  {
    RunIsFair(trace, deliveries, clock);
    HandedAreGenuine(handed, deliveries, trace, received);
    CacheIsBounded(trace, most);
  }

  /** A hardware address has come with a handled request from an address. */
  ghost predicate EverKnown(trace: seq<Step>, ip: Ip) {
    exists mac :: mac != ZERO_MAC && Came(trace, ip, mac)
  }

  lemma KnownBefore(init: seq<Step>, step: Step, ip: Ip)
    requires EverKnown(init + [step], ip)
    ensures EverKnown(init, ip) ||
            (step.Handled? && exists mac :: mac != ZERO_MAC && CameIn(step.batch.requests, ip, mac))
  {
    var all := init + [step];
    var mac :| mac != ZERO_MAC && Came(all, ip, mac);
    var j :| 0 <= j < |all| && all[j].Handled? && CameIn(all[j].batch.requests, ip, mac);
    if j < |init| {
      assert init[j] == all[j];
      assert Came(init, ip, mac);
    }
  }

  /** Until as many requests were handled as the cache may hold, it keeps every address it has seen. */
  lemma {:induction false} CacheRemembers(trace: seq<Step>)
    requires |Requests(BatchesIn(trace))| <= CACHE_LIMIT
    ensures |Replay(trace).cache| <= |Requests(BatchesIn(trace))|
    ensures forall ip :: EverKnown(trace, ip) ==> ip in Replay(trace).cache
    decreases |trace|
  {
    if trace != [] {
      var init, step := trace[..|trace| - 1], trace[|trace| - 1];
      assert init + [step] == trace;
      TraceGrows(init, step);
      if step.Handled? {
        HistoryGrows(BatchesIn(init), step.batch);
      } else {
        assert BatchesIn(init) + [] == BatchesIn(init);
      }
      CacheRemembers(init);
      var cache := Replay(init).cache;
      if step.Handled? {
        InsertedSize(cache, step.batch.requests);
      }
      forall ip | EverKnown(trace, ip) ensures ip in Replay(trace).cache {
        KnownBefore(init, step, ip);
        if step.Handled? && !EverKnown(init, ip) {
          var mac :| mac != ZERO_MAC && CameIn(step.batch.requests, ip, mac);
          CameIsInserted(cache, step.batch.requests, ip, mac);
        }
      }
    }
  }

  lemma {:induction false} CameIsInserted(cache: map<Ip, Mac>, requests: seq<Request>, ip: Ip, mac: Mac)
    requires CameIn(requests, ip, mac) && mac != ZERO_MAC
    ensures ip in Inserted(cache, requests)
  {
    var init, last := requests[..|requests| - 1], requests[|requests| - 1];
    var i :| 0 <= i < |requests| && requests[i].addr == ip && requests[i].mac == mac;
    if i < |init| {
      assert init[i] == requests[i];
      CameIsInserted(cache, init, ip, mac);
    }
  }

  lemma {:induction false} ExplainedAt(trace: seq<Step>, deliveries: seq<Delivery>, clock: nat, n: nat)
    returns (earlier: seq<Delivery>, before: nat)
    requires Explained(trace, deliveries, clock) && n <= |trace|
    ensures Explained(trace[..n], earlier, before) && earlier <= deliveries
    decreases |trace|
  {
    if n == |trace| {
      assert trace[..n] == trace;
      earlier, before := deliveries, clock;
    } else {
      var e, gone, b :| LastExplained(trace, deliveries, clock, e, gone, b) && Explained(trace[..|trace| - 1], e, b);
      earlier, before := ExplainedAt(trace[..|trace| - 1], e, b, n);
      assert trace[..|trace| - 1][..n] == trace[..n];
    }
  }

  /** What a step of an explained trace handed over is among the hand-overs. */
  lemma StepDelivers(trace: seq<Step>, deliveries: seq<Delivery>, clock: nat, at: nat)
    returns (gone: seq<Ip>, before: nat)
    requires Explained(trace, deliveries, clock) && at < |trace|
    ensures HandsOver(Replay(trace[..at]), trace[at], gone) && Sound(Replay(trace[..at]), before)
    ensures before <= TimeOf(trace[at], before)
    ensures forall d :: d in DeliveriesOf(EntriesAt(Replay(trace[..at]), trace[at]), gone, at) ==> d in deliveries
  {
    var upTo, init := trace[..at + 1], trace[..at];
    var now, time := ExplainedAt(trace, deliveries, clock, at + 1);
    assert upTo[..|upTo| - 1] == init && upTo[|upTo| - 1] == trace[at];
    var earlier, g, b :| LastExplained(upTo, now, time, earlier, g, b) && Explained(init, earlier, b);
    RunIsFair(init, earlier, b);
    gone, before := g, b;
    var more := DeliveriesOf(EntriesAt(Replay(init), trace[at]), g, at);
    assert |init| == at && now == earlier + more && deliveries[..|now|] == now;
    forall d | d in more ensures d in deliveries {
      assert d in deliveries[..|now|];
    }
  }

  predicate Resolved(d: Delivery, at: nat, ip: Ip, time: nat) {
    d.at == at && d.client.ip == ip && d.client.mac != ZERO_MAC && d.client.lastQuery == time
  }

  /** While no more than 10000 requests were handled, every client whose hardware address has ever come
      is handed over, with a hardware address, by every stored batch that names it. */
  lemma KnownAreHandedOver(trace: seq<Step>, deliveries: seq<Delivery>, clock: nat, at: nat, ip: Ip)
    requires Explained(trace, deliveries, clock) && at < |trace| && trace[at].Handled? && trace[at].batch.stored
    requires |Requests(BatchesIn(trace[..at + 1]))| <= 10000
    requires Names(trace[at].batch.requests, ip) && EverKnown(trace[..at + 1], ip)
    ensures exists d :: d in deliveries && Resolved(d, at, ip, trace[at].batch.now)
  {
    var s, b := Replay(trace[..at]), trace[at].batch;
    var gone, before := StepDelivers(trace, deliveries, clock, at);
    KnownIsCached(trace, at, ip);
    NamedKnownIsDue(s, b, before, ip);
    var more := DeliveriesOf(Entries(s, b), gone, at);
    var i :| 0 <= i < |gone| && gone[i] == ip;
    assert more[i] in more && Resolved(more[i], at, ip, b.now);
  }

  lemma KnownIsCached(trace: seq<Step>, at: nat, ip: Ip)
    requires at < |trace| && trace[at].Handled? && EverKnown(trace[..at + 1], ip)
    requires |Requests(BatchesIn(trace[..at + 1]))| <= 10000
    ensures ip in CacheAfter(Replay(trace[..at]).cache, trace[at].batch.requests)
  {
    var upTo := trace[..at + 1];
    assert upTo[..|upTo| - 1] == trace[..at] && upTo[|upTo| - 1] == trace[at];
    CacheRemembers(upTo);
  }

  lemma NamedKnownIsDue(s: Store, b: Batch, clock: nat, ip: Ip)
    requires Sound(s, clock) && clock <= b.now && Names(b.requests, ip) && ip in CacheAfter(s.cache, b.requests)
    ensures var entries := Entries(s, b);
            && ip in entries && Due(entries[ip], b.now, BATCH_AGE) && entries[ip].client.ip == ip
            && entries[ip].client.mac != ZERO_MAC && entries[ip].client.lastQuery == b.now
  {
    InsertedIs(if |s.cache| > CACHE_LIMIT then map[] else s.cache, b.requests);
    NotingIsNoted(s.pending, CacheAfter(s.cache, b.requests), b.requests, b.now);
  }

  // ---------- Small facts ----------

  function CountedIn(requests: seq<Request>): nat {
    if requests == [] then 0 else CountedIn(requests[1..]) + if requests[0].Counted() then 1 else 0
  }

  lemma {:induction false} CountedConcat(a: seq<Request>, b: seq<Request>)
    ensures CountedIn(a + b) == CountedIn(a) + CountedIn(b)
    decreases |a|
  {
    if a == [] {
      assert a + b == b;
    } else {
      assert (a + b)[1..] == a[1..] + b;
      CountedConcat(a[1..], b);
    }
  }

  lemma CountedAppend(requests: seq<Request>, req: Request)
    ensures CountedIn(requests + [req]) == CountedIn(requests) + if req.Counted() then 1 else 0
  {
    CountedConcat(requests, [req]);
  }

  lemma NamesAppend(requests: seq<Request>, req: Request)
    ensures forall ip :: Names(requests + [req], ip) <==> Names(requests, ip) || (req.Counted() && req.addr == ip)
  {
    var all := requests + [req];
    forall ip ensures Names(all, ip) <==> Names(requests, ip) || (req.Counted() && req.addr == ip) {
      if Names(requests, ip) {
        var i :| 0 <= i < |requests| && requests[i].Counted() && requests[i].addr == ip;
        assert all[i] == requests[i];
      }
      if req.Counted() && req.addr == ip {
        assert all[|requests|] == req;
      }
      if Names(all, ip) {
        var i :| 0 <= i < |all| && all[i].Counted() && all[i].addr == ip;
        assert i < |requests| ==> requests[i] == all[i];
      }
    }
  }

  lemma Regroup(a: seq<Request>, b: seq<Request>, c: seq<Request>)
    ensures a + b + c == a + (b + c)
  {
  }
}
