/** What every reachable state of the blob cache satisfies, and what that means for its callers. */
module BlobInvariants {
  import opened Common
  import opened BlobState

  // ---------------------------------------------------------------------------------------------
  // The invariant
  // ---------------------------------------------------------------------------------------------

  /** Exactly the ready entries carry a URL; only they count bytes. */
  ghost predicate EntryOk(s: State, e: Entry) {
    && e.serial < s.nextSerial
    && (e.status.Ready? <==> e.url.Some?)
    && (!e.status.Ready? ==> e.bytes == 0)
  }

  ghost predicate EntriesOk(s: State) {
    && (forall id | id in s.cache :: EntryOk(s, s.cache[id]))
    && (forall a, b | a in s.cache && b in s.cache && a != b :: s.cache[a].serial != s.cache[b].serial)
  }

  /** `u` is the URL of a cached entry. */
  ghost predicate Cached(s: State, u: nat) {
    exists id :: id in s.cache && s.cache[id].url == Some(u)
  }

  /** `u` belongs to a response whose request has not run its continuation yet. */
  ghost predicate InTransit(s: State, u: nat) {
    exists t :: t in s.flights && s.flights[t].blob.Some? && s.flights[t].blob.value.url == u
  }

  /** Created and not revoked. */
  ghost predicate Live(s: State, u: nat) {
    u < s.nextUrl && s.revoked[u] == 0
  }

  /** Every created URL has one owner or was revoked, once. */
  ghost predicate UrlsOk(s: State) {
    && (forall u: nat :: Live(s, u) <==> Cached(s, u) || InTransit(s, u))
    && (forall u: nat :: !(Cached(s, u) && InTransit(s, u)))
    && (forall a, b | a in s.cache && b in s.cache && s.cache[a].url.Some? && s.cache[a].url == s.cache[b].url ::
        a == b)
    && (forall t, r | t in s.flights && r in s.flights && s.flights[t].blob.Some? && s.flights[r].blob.Some?
                      && s.flights[t].blob.value.url == s.flights[r].blob.value.url :: t == r)
    && (forall u: nat :: s.revoked[u] <= if u < s.nextUrl then 1 else 0)
  }

  ghost predicate Queued(queue: seq<Task>, ticket: nat) {
    exists i :: 0 <= i < |queue| && queue[i].ticket == ticket
  }

  ghost predicate Pending(s: State, ticket: nat) {
    ticket in s.flights || Queued(s.queue, ticket)
  }

  /** The cached entry of `id` is loading on the promise `ticket`. */
  ghost predicate LoadsOn(s: State, id: Id, ticket: nat) {
    id in s.cache && s.cache[id].status.Loading? && s.cache[id].promise == Some(ticket)
  }

  /** Queue order, and what a queued task says about its entry. */
  ghost predicate QueueOk(s: State) {
    && (forall i, j | 0 <= i < j < |s.queue| :: s.queue[i].ticket != s.queue[j].ticket)
    && (forall i, j | 0 <= i < j < |s.queue| :: s.queue[j].requestedByUser ==> s.queue[i].requestedByUser)
    && (forall i | 0 <= i < |s.queue| :: QueuedOk(s, s.queue[i]))
  }

  ghost predicate QueuedOk(s: State, task: Task) {
    && task.ticket < s.nextTicket
    && task.ticket !in s.flights
    && LoadsOn(s, task.id, task.ticket)
    && (task.requestedByUser ==> s.cache[task.id].requestedByUser)
  }

  /** The slots in use, and what a request in flight says about its entry. */
  ghost predicate FlightsOk(s: State) {
    && s.active == |s.flights| <= MAX_CONCURRENT_REQUESTS
    && (forall t | t in s.flights :: FlightOk(s, t, s.flights[t]))
  }

  ghost predicate FlightOk(s: State, t: nat, f: Flight) {
    && t < s.nextTicket
    && f.task.ticket == t
    && f.serial < s.nextSerial
    && (s.IsCurrent(f) ==> LoadsOn(s, f.task.id, t))
  }

  /** The task behind `ticket` is queued, or in flight for this very entry. */
  ghost predicate HasTask(s: State, id: Id, ticket: nat) {
    || (exists i :: 0 <= i < |s.queue| && s.queue[i].ticket == ticket && s.queue[i].id == id)
    || (ticket in s.flights && s.flights[ticket].task.id == id && s.IsCurrent(s.flights[ticket]))
  }

  /** Every loading entry (but those listed) has its one task. */
  ghost predicate LoadingOk(s: State, but: set<Id>) {
    forall id | id in s.cache && s.cache[id].status.Loading? && id !in but ::
      s.cache[id].promise.Some? && HasTask(s, id, s.cache[id].promise.value)
  }

  /** A promise is settled once, exactly when its task has left queue and flight. */
  ghost predicate SettledOk(s: State) {
    && (forall t: nat :: s.settled[t] == if t < s.nextTicket && !Pending(s, t) then 1 else 0)
    && (forall t: nat :: t in s.outcomes <==> s.settled[t] == 1)
  }

  /** What an entry says about its promise is what the promise was settled with. */
  ghost predicate PromisesOk(s: State) {
    forall id | id in s.cache :: PromiseOk(s, s.cache[id])
  }

  ghost predicate PromiseOk(s: State, e: Entry) {
    match e.status
    case Loading => true
    case Ready => e.promise.Some? && e.promise.value in s.outcomes && e.url.Some?
                  && s.outcomes[e.promise.value] == Resolved(e.url.value)
    case Failed =>
      e.promise.Some? ==> e.promise.value in s.outcomes && s.outcomes[e.promise.value] == Rejected(Unavailable)
  }

  ghost predicate RefsOk(s: State) {
    forall id | id in s.refs :: s.refs[id] > 0
  }

  ghost predicate TasksOk(s: State, but: set<Id>) {
    QueueOk(s) && FlightsOk(s) && LoadingOk(s, but) && SettledOk(s)
  }

  /** All of the above: kept by every part of a turn. */
  ghost predicate Core(s: State, but: set<Id>) {
    EntriesOk(s) && UrlsOk(s) && TasksOk(s, but) && PromisesOk(s) && RefsOk(s)
  }

  /** No lost wakeup: requests wait only while all slots are taken. */
  ghost predicate NoLostWakeup(s: State) {
    s.queue != [] ==> s.active == MAX_CONCURRENT_REQUESTS
  }

  /** Within the bounds, or everything that could be dropped is held. */
  ghost predicate Bounded(s: State) {
    !OverBound(s.cache) || forall id | id in s.cache && s.cache[id].status.Ready? :: s.RefCount(id) > 0
  }

  /** The invariant at the end of every turn. */
  ghost predicate Inv(s: State) {
    Core(s, {}) && NoLostWakeup(s) && Bounded(s)
  }

  // ---------------------------------------------------------------------------------------------
  // Eviction
  // ---------------------------------------------------------------------------------------------

  lemma EvictOneKeepsUrls(s: State, id: Id)
    requires EntriesOk(s) && UrlsOk(s) && Evictable(s, id)
    ensures EntriesOk(EvictOne(s, id)) && UrlsOk(EvictOne(s, id))
  {
    var s' := EvictOne(s, id);
    assert EntryOk(s, s.cache[id]);
    var u := s.cache[id].url.value;
    assert Cached(s, u);
    assert EntriesOk(s');
    hide EntriesOk;
    forall v: nat ensures Cached(s', v) <==> Cached(s, v) && v != u {
      if Cached(s, v) && v != u {
        var a :| a in s.cache && s.cache[a].url == Some(v);
        assert a in s'.cache;
      }
    }
    assert forall v: nat :: InTransit(s', v) <==> InTransit(s, v);
    hide Cached, InTransit;
  }

  lemma EvictOneKeepsTasks(s: State, id: Id, but: set<Id>)
    requires TasksOk(s, but) && Evictable(s, id)
    ensures TasksOk(EvictOne(s, id), but)
  {
    var s' := EvictOne(s, id);
    forall i | 0 <= i < |s.queue| ensures QueuedOk(s', s.queue[i]) {
      assert QueuedOk(s, s.queue[i]);
    }
    forall t | t in s.flights ensures FlightOk(s', t, s.flights[t]) {
      assert FlightOk(s, t, s.flights[t]);
    }
    forall a | a in s'.cache && s'.cache[a].status.Loading? && a !in but
      ensures s'.cache[a].promise.Some? && HasTask(s', a, s'.cache[a].promise.value)
    {
      assert HasTask(s, a, s.cache[a].promise.value);
    }
    assert forall t: nat :: Pending(s', t) <==> Pending(s, t);
  }

  lemma EvictOneKeepsCore(s: State, id: Id, but: set<Id>)
    requires Core(s, but) && Evictable(s, id)
    ensures Core(EvictOne(s, id), but)
  {
    assert forall a | a in EvictOne(s, id).cache :: PromiseOk(s, s.cache[a]);
    hide EntriesOk, UrlsOk, TasksOk;
    EvictOneKeepsUrls(s, id);
    EvictOneKeepsTasks(s, id, but);
  }

  /** Among finitely many evictable entries one is the oldest. */
  lemma OldestExists(s: State, ids: set<Id>) returns (oldest: Id)
    requires EntriesOk(s) && ids != {} && ids <= s.cache.Keys
    ensures oldest in ids && forall other | other in ids && other != oldest :: Older(s.cache[oldest], s.cache[other])
    decreases |ids|
  {
    var id :| id in ids;
    if ids == {id} {
      oldest := id;
    } else {
      var rest := OldestExists(s, ids - {id});
      oldest := if Older(s.cache[id], s.cache[rest]) then id else rest;
    }
  }

  lemma OldestOrNone(s: State)
    requires EntriesOk(s)
    ensures (exists id :: IsOldestEvictable(s, id)) <==> exists id :: Evictable(s, id)
  {
    var ids := set id | id in s.cache && Evictable(s, id);
    if ids != {} {
      var oldest := OldestExists(s, ids);
      assert IsOldestEvictable(s, oldest);
    }
    if id :| Evictable(s, id) {
      assert id in ids;
    }
  }

  lemma {:induction false} EvictKeepsCore(s: State, but: set<Id>)
    requires Core(s, but)
    ensures Core(Evict(s), but) && Bounded(Evict(s))
    ensures Evict(s) == s.(cache := Evict(s).cache, revoked := Evict(s).revoked)
    decreases |s.cache|
  {
    hide Core, OverBound, Bounded;
    if OverBound(s.cache) && exists v :: IsOldestEvictable(s, v) {
      var v :| IsOldestEvictable(s, v) && Evict(s) == Evict(EvictOne(s, v));
      EvictOneKeepsCore(s, v, but);
      assert (s.cache - {v}).Keys == s.cache.Keys - {v};
      EvictKeepsCore(EvictOne(s, v), but);
    } else {
      NothingLeftToEvict(s, but);
    }
  }

  lemma NothingLeftToEvict(s: State, but: set<Id>)
    requires Core(s, but) && !(OverBound(s.cache) && exists v :: IsOldestEvictable(s, v))
    ensures Bounded(s)
  {
    hide OverBound, UrlsOk, TasksOk, PromisesOk, EntriesOk;
    OldestOrNone(s);
    assert forall id | id in s.cache && s.cache[id].status.Ready? :: s.RefCount(id) > 0 || Evictable(s, id);
  }

  // ---------------------------------------------------------------------------------------------
  // The pump
  // ---------------------------------------------------------------------------------------------

  lemma QueuedTail(queue: seq<Task>, ticket: nat)
    requires queue != [] && forall i, j | 0 <= i < j < |queue| :: queue[i].ticket != queue[j].ticket
    ensures Queued(queue[1..], ticket) <==> Queued(queue, ticket) && ticket != queue[0].ticket
  {
    if Queued(queue, ticket) && ticket != queue[0].ticket {
      var i :| 0 <= i < |queue| && queue[i].ticket == ticket;
      assert queue[1..][i - 1].ticket == ticket;
    }
  }

  /** The task of a loading entry other than the first one's is further back, or in flight. */
  lemma HasTaskTail(s: State, s': State, a: Id)
    requires LoadingOk(s, {}) && s.queue != [] && a in s.cache && s.cache[a].status.Loading? && a != s.queue[0].id
    requires s'.queue == s.queue[1..] && a in s'.cache && s'.cache[a] == s.cache[a]
    requires forall t | t in s.flights :: t in s'.flights && s'.flights[t] == s.flights[t]
    ensures s.cache[a].promise.Some? && HasTask(s', a, s.cache[a].promise.value)
  {
    var t := s.cache[a].promise.value;
    assert HasTask(s, a, t);
    if !(t in s.flights && s.flights[t].task.id == a && s.IsCurrent(s.flights[t])) {
      var i :| 0 <= i < |s.queue| && s.queue[i].ticket == t && s.queue[i].id == a;
      assert s'.queue[i - 1] == s.queue[i];
    }
  }

  lemma PumpOnceKeepsQueue(s: State)
    requires QueueOk(s) && CanPump(s)
    ensures QueueOk(PumpOnce(s))
  {
    var task, s' := s.queue[0], PumpOnce(s);
    assert QueuedOk(s, task);
    forall i | 0 <= i < |s'.queue| ensures QueuedOk(s', s'.queue[i]) {
      assert QueuedOk(s, s.queue[i + 1]) && s'.queue[i] == s.queue[i + 1];
    }
  }

  lemma FlightsGrow(flights: map<nat, Flight>, ticket: nat, f: Flight)
    requires ticket !in flights
    ensures |flights[ticket := f]| == |flights| + 1
  {
    assert flights[ticket := f].Keys == flights.Keys + {ticket};
  }

  lemma PumpOnceKeepsFlights(s: State)
    requires EntriesOk(s) && QueueOk(s) && FlightsOk(s) && CanPump(s)
    ensures FlightsOk(PumpOnce(s))
  {
    var task, s' := s.queue[0], PumpOnce(s);
    assert QueuedOk(s, task) && EntryOk(s, s.cache[task.id]);
    hide QueueOk, EntriesOk;
    FlightsGrow(s.flights, task.ticket, Flight(task, s.cache[task.id].serial, None));
    forall t | t in s'.flights ensures FlightOk(s', t, s'.flights[t]) {
      assert t != task.ticket ==> FlightOk(s, t, s.flights[t]);
    }
  }

  lemma PumpOnceKeepsLoading(s: State)
    requires QueueOk(s) && LoadingOk(s, {}) && CanPump(s)
    ensures LoadingOk(PumpOnce(s), {})
  {
    var task, s' := s.queue[0], PumpOnce(s);
    assert QueuedOk(s, task);
    forall a | a in s'.cache && s'.cache[a].status.Loading?
      ensures s'.cache[a].promise.Some? && HasTask(s', a, s'.cache[a].promise.value)
    {
      if a != task.id {
        HasTaskTail(s, s', a);
      }
    }
  }

  lemma PumpOnceSettles(s: State)
    requires QueueOk(s) && SettledOk(s) && CanPump(s)
    ensures SettledOk(PumpOnce(s))
  {
    var task, s' := s.queue[0], PumpOnce(s);
    assert QueuedOk(s, task) && Queued(s.queue, task.ticket);
    forall t: nat ensures Pending(s', t) <==> Pending(s, t) && (Unwanted(s, task.id) ==> t != task.ticket) {
      QueuedTail(s.queue, t);
    }
  }

  lemma PumpOnceKeepsEntries(s: State)
    requires EntriesOk(s) && QueueOk(s) && CanPump(s)
    ensures EntriesOk(PumpOnce(s))
  {
    assert QueuedOk(s, s.queue[0]);
    hide QueueOk;
  }

  /** Who owns which URL does not change: entries with a URL and responses in transit stay, and no others come. */
  ghost predicate SameOwners(s: State, s': State) {
    && s'.nextUrl == s.nextUrl && s'.revoked == s.revoked
    && (forall a | a in s'.cache :: a in s.cache && s'.cache[a] == s.cache[a])
    && (forall a | a in s.cache && s.cache[a].url.Some? :: a in s'.cache)
    && (forall t | t in s.flights :: t in s'.flights && s'.flights[t] == s.flights[t])
    && (forall t | t in s'.flights && s'.flights[t].blob.Some? :: t in s.flights)
  }

  lemma SameOwnersKeepUrls(s: State, s': State)
    requires UrlsOk(s) && SameOwners(s, s')
    ensures UrlsOk(s')
  {
    forall v: nat ensures Cached(s', v) <==> Cached(s, v) {
      if Cached(s, v) {
        var a :| a in s.cache && s.cache[a].url == Some(v);
        assert a in s'.cache;
      }
    }
    forall v: nat ensures InTransit(s', v) <==> InTransit(s, v) {
      if InTransit(s, v) {
        var t :| t in s.flights && s.flights[t].blob.Some? && s.flights[t].blob.value.url == v;
        assert s'.flights[t] == s.flights[t];
      }
    }
    hide Cached, InTransit;
  }

  /** The pump drops no ready entry and finishes no request. */
  lemma PumpOnceKeepsUrls(s: State)
    requires EntriesOk(s) && UrlsOk(s) && QueueOk(s) && CanPump(s)
    ensures EntriesOk(PumpOnce(s)) && UrlsOk(PumpOnce(s))
  {
    var task := s.queue[0];
    assert QueuedOk(s, task) && EntryOk(s, s.cache[task.id]);
    PumpOnceKeepsEntries(s);
    hide QueueOk, EntriesOk, UrlsOk;
    SameOwnersKeepUrls(s, PumpOnce(s));
  }

  lemma PumpOnceKeepsPromises(s: State)
    requires PromisesOk(s) && QueueOk(s) && CanPump(s) && (forall t: nat :: t in s.outcomes <==> s.settled[t] == 1)
    requires s.settled[s.queue[0].ticket] == 0
    ensures PromisesOk(PumpOnce(s))
  {
    hide QueueOk;
    forall id | id in PumpOnce(s).cache ensures PromiseOk(PumpOnce(s), PumpOnce(s).cache[id]) {
      assert PromiseOk(s, s.cache[id]);
    }
  }

  lemma PumpOnceKeepsCore(s: State)
    requires Core(s, {}) && CanPump(s)
    ensures Core(PumpOnce(s), {})
  {
    assert QueuedOk(s, s.queue[0]) && Queued(s.queue, s.queue[0].ticket);
    assert s.settled[s.queue[0].ticket] == 0;
    hide EntriesOk, UrlsOk, QueueOk, FlightsOk, LoadingOk, PromisesOk;
    PumpOnceKeepsQueue(s);
    PumpOnceKeepsFlights(s);
    PumpOnceKeepsLoading(s);
    PumpOnceSettles(s);
    PumpOnceKeepsUrls(s);
    PumpOnceKeepsPromises(s);
  }

  lemma PumpOnceKeepsBound(s: State)
    requires Core(s, {}) && CanPump(s) && Bounded(s)
    ensures Bounded(PumpOnce(s))
  {
    var id := s.queue[0].id;
    assert QueuedOk(s, s.queue[0]) && EntryOk(s, s.cache[id]);
    hide Core, QueuedOk, EntryOk;
    if Unwanted(s, id) {
      FewerIsInBound(s.cache, id);
    }
  }

  lemma FewerIsInBound(cache: map<Id, Entry>, id: Id)
    requires id in cache
    ensures OverBound(cache - {id}) ==> OverBound(cache)
  {
    hide Bytes;
    BytesRemove(cache, id);
    assert (cache - {id}).Keys == cache.Keys - {id};
  }

  lemma {:induction false} PumpKeepsInv(s: State)
    requires Core(s, {}) && Bounded(s)
    ensures Inv(Pump(s))
    decreases |s.queue|
  {
    if CanPump(s) {
      PumpOnceKeepsBound(s);
      PumpOnceKeepsCore(s);
      PumpKeepsInv(PumpOnce(s));
    }
  }

  // ---------------------------------------------------------------------------------------------
  // Calls: get, retain, release
  // ---------------------------------------------------------------------------------------------

  /** Changing one entry but not its URL leaves the ownership of URLs alone. */
  lemma EntryUpdateKeepsUrls(s: State, s': State, id: Id, e: Entry)
    requires UrlsOk(s) && s'.cache == s.cache[id := e] && e.url == (if id in s.cache then s.cache[id].url else None)
    requires s'.flights == s.flights && s'.revoked == s.revoked && s'.nextUrl == s.nextUrl
    ensures UrlsOk(s')
  {
    forall v: nat ensures Cached(s', v) <==> Cached(s, v) {
      if Cached(s, v) {
        var a :| a in s.cache && s.cache[a].url == Some(v);
        assert a in s'.cache && s'.cache[a].url == Some(v);
      }
    }
    forall v: nat ensures InTransit(s', v) <==> InTransit(s, v) {
    }
  }

  lemma TouchKeepsTasks(s: State, id: Id, byUser: bool, now: int)
    requires TasksOk(s, {}) && id in s.cache
    ensures TasksOk(Touched(s, id, byUser, now), {})
  {
    var s' := Touched(s, id, byUser, now);
    forall i | 0 <= i < |s.queue| ensures QueuedOk(s', s.queue[i]) {
      assert QueuedOk(s, s.queue[i]);
    }
    forall t | t in s.flights ensures FlightOk(s', t, s.flights[t]) {
      assert FlightOk(s, t, s.flights[t]);
    }
    forall a | a in s'.cache && s'.cache[a].status.Loading?
      ensures s'.cache[a].promise.Some? && HasTask(s', a, s'.cache[a].promise.value)
    {
      assert HasTask(s, a, s.cache[a].promise.value);
    }
    forall t: nat ensures Pending(s', t) <==> Pending(s, t) {
    }
  }

  lemma EntryUpdateKeepsEntries(s: State, s': State, id: Id, e: Entry)
    requires EntriesOk(s) && s'.cache == s.cache[id := e] && s.nextSerial <= s'.nextSerial && EntryOk(s', e)
    requires if id in s.cache then e.serial == s.cache[id].serial else e.serial == s.nextSerial
    ensures EntriesOk(s')
  {
    forall a | a in s'.cache ensures EntryOk(s', s'.cache[a]) && (a != id ==> s'.cache[a].serial != e.serial) {
      assert a != id ==> EntryOk(s, s.cache[a]);
    }
  }

  lemma EntryUpdateKeepsPromises(s: State, s': State, id: Id, e: Entry)
    requires PromisesOk(s) && s'.cache == s.cache[id := e] && PromiseOk(s', e)
    requires forall t | t in s.outcomes :: t in s'.outcomes && s'.outcomes[t] == s.outcomes[t]
    ensures PromisesOk(s')
  {
    forall a | a in s'.cache ensures PromiseOk(s', s'.cache[a]) {
      assert a != id ==> PromiseOk(s, s.cache[a]);
    }
  }

  lemma EntryUpdateKeepsBound(s: State, s': State, id: Id, e: Entry)
    requires Bounded(s) && id in s.cache && s'.cache == s.cache[id := e] && e.bytes == s.cache[id].bytes
    requires e.status.Ready? ==> s.cache[id].status.Ready?
    requires forall a :: s.RefCount(a) <= s'.RefCount(a)
    ensures Bounded(s')
  {
    BytesUpdate(s.cache, id, e);
  }

  lemma TouchKeepsCore(s: State, id: Id, byUser: bool, now: int)
    requires Core(s, {}) && id in s.cache
    ensures Core(Touched(s, id, byUser, now), {})
  {
    var s' := Touched(s, id, byUser, now);
    var e := s'.cache[id];
    assert EntryOk(s, s.cache[id]) && PromiseOk(s, s.cache[id]);
    hide TasksOk, UrlsOk, EntriesOk, PromisesOk;
    TouchKeepsTasks(s, id, byUser, now);
    EntryUpdateKeepsUrls(s, s', id, e);
    EntryUpdateKeepsEntries(s, s', id, e);
    EntryUpdateKeepsPromises(s, s', id, e);
  }

  /** Counting holders is no business of entries, requests and promises. */
  lemma RefsKeepCore(s: State, refs: map<Id, nat>)
    requires Core(s, {}) && RefsOk(s.(refs := refs))
    ensures Core(s.(refs := refs), {})
  {
    var s' := s.(refs := refs);
    forall v: nat ensures (Cached(s', v) <==> Cached(s, v)) && (InTransit(s', v) <==> InTransit(s, v)) {
    }
    forall i | 0 <= i < |s.queue| ensures QueuedOk(s', s.queue[i]) {
      assert QueuedOk(s, s.queue[i]);
    }
    forall t | t in s.flights ensures FlightOk(s', t, s.flights[t]) {
      assert FlightOk(s, t, s.flights[t]);
    }
    forall a | a in s.cache && s.cache[a].status.Loading? ensures HasTask(s', a, s.cache[a].promise.value) {
      assert HasTask(s, a, s.cache[a].promise.value);
    }
    forall a | a in s.cache ensures EntryOk(s', s.cache[a]) && PromiseOk(s', s.cache[a]) {
      assert EntryOk(s, s.cache[a]) && PromiseOk(s, s.cache[a]);
    }
    forall t: nat ensures Pending(s', t) <==> Pending(s, t) {
    }
  }

  lemma InsertKeepsTasks(s: State, id: Id, byUser: bool, now: int)
    requires TasksOk(s, {}) && id !in s.cache
    ensures TasksOk(Inserted(s, id, byUser, now), {id})
  {
    var s' := Inserted(s, id, byUser, now);
    forall i | 0 <= i < |s.queue| ensures QueuedOk(s', s.queue[i]) {
      assert QueuedOk(s, s.queue[i]);
    }
    forall t | t in s.flights ensures FlightOk(s', t, s.flights[t]) {
      assert FlightOk(s, t, s.flights[t]);
    }
    forall a | a in s'.cache && s'.cache[a].status.Loading? && a != id
      ensures s'.cache[a].promise.Some? && HasTask(s', a, s'.cache[a].promise.value)
    {
      assert HasTask(s, a, s.cache[a].promise.value);
    }
    forall t: nat ensures Pending(s', t) <==> Pending(s, t) {
    }
  }

  lemma InsertKeepsCore(s: State, id: Id, byUser: bool, now: int)
    requires Core(s, {}) && id !in s.cache
    ensures Core(Inserted(s, id, byUser, now), {id})
  {
    var s' := Inserted(s, id, byUser, now);
    var e := s'.cache[id];
    hide TasksOk, UrlsOk, EntriesOk, PromisesOk;
    InsertKeepsTasks(s, id, byUser, now);
    EntryUpdateKeepsUrls(s, s', id, e);
    EntryUpdateKeepsEntries(s, s', id, e);
    EntryUpdateKeepsPromises(s, s', id, e);
  }

  /** A user task goes behind the user tasks and before the prefetch tasks that wait, a prefetch task to the end;
      the tasks that wait keep their order among themselves. */
  lemma EnqueueKeepsOrder(queue: seq<Task>, task: Task)
    requires forall i, j | 0 <= i < j < |queue| :: queue[j].requestedByUser ==> queue[i].requestedByUser
    requires forall i, j | 0 <= i < j < |queue| :: queue[i].ticket != queue[j].ticket
    requires !Queued(queue, task.ticket)
    ensures var q := Enqueued(queue, task);
            && (forall i, j | 0 <= i < j < |q| :: q[j].requestedByUser ==> q[i].requestedByUser)
            && (forall i, j | 0 <= i < j < |q| :: q[i].ticket != q[j].ticket)
    ensures exists k :: InsertedAt(queue, task, Enqueued(queue, task), k)
  {
    var k := if task.requestedByUser then FirstPrefetch(queue) else |queue|;
    var q := Enqueued(queue, task);
    assert forall i | 0 <= i < |q| :: q[i] == if i < k then queue[i] else if i == k then task else queue[i - 1];
    assert forall i | 0 <= i < |queue| :: Queued(queue, queue[i].ticket);
    assert InsertedAt(queue, task, q, k);
  }

  /** `q` is `queue` with `task` put in at `k`: first in, first out among its equals. */
  ghost predicate InsertedAt(queue: seq<Task>, task: Task, q: seq<Task>, k: nat) {
    && k <= |queue|
    && q == queue[..k] + [task] + queue[k..]
    && (forall i | 0 <= i < k :: task.requestedByUser ==> queue[i].requestedByUser)
    && (forall i | k <= i < |queue| :: task.requestedByUser && !queue[i].requestedByUser)
  }

  lemma EnqueueMembers(queue: seq<Task>, task: Task)
    ensures forall i | 0 <= i < |Enqueued(queue, task)| ::
              Enqueued(queue, task)[i] == task || Enqueued(queue, task)[i] in queue
    ensures forall i | 0 <= i < |queue| ::
              exists j :: 0 <= j < |Enqueued(queue, task)| && Enqueued(queue, task)[j] == queue[i]
    ensures exists j :: 0 <= j < |Enqueued(queue, task)| && Enqueued(queue, task)[j] == task
    ensures forall t :: Queued(Enqueued(queue, task), t) <==> Queued(queue, t) || t == task.ticket
  {
    var k := if task.requestedByUser then FirstPrefetch(queue) else |queue|;
    var q := Enqueued(queue, task);
    assert q[k] == task;
    forall i | 0 <= i < |queue| ensures exists j :: 0 <= j < |q| && q[j] == queue[i] {
      assert q[if i < k then i else i + 1] == queue[i];
    }
    forall i | 0 <= i < |q| ensures q[i] == task || q[i] in queue {
      assert q[i] == if i < k then queue[i] else if i == k then task else queue[i - 1];
    }
  }

  /** A ticket not handed out yet is nobody's. */
  lemma NextTicketIsFresh(s: State)
    requires QueueOk(s) && FlightsOk(s)
    ensures s.nextTicket !in s.flights && !Queued(s.queue, s.nextTicket)
  {
    forall i | 0 <= i < |s.queue| ensures s.queue[i].ticket < s.nextTicket {
      assert QueuedOk(s, s.queue[i]);
    }
    forall t | t in s.flights ensures t < s.nextTicket {
      assert FlightOk(s, t, s.flights[t]);
    }
  }

  lemma LoadKeepsQueue(s: State, id: Id)
    requires QueueOk(s) && FlightsOk(s) && id in s.cache && s.cache[id].promise.None?
    ensures QueueOk(LoadQueued(s, id))
  {
    var s', task := LoadQueued(s, id), Task(s.nextTicket, id, s.cache[id].requestedByUser);
    NextTicketIsFresh(s);
    EnqueueMembers(s.queue, task);
    EnqueueKeepsOrder(s.queue, task);
    hide Enqueued, FlightsOk;
    forall i | 0 <= i < |s'.queue| ensures QueuedOk(s', s'.queue[i]) {
      if s'.queue[i] != task {
        var j :| 0 <= j < |s.queue| && s.queue[j] == s'.queue[i];
        assert QueuedOk(s, s.queue[j]);
      }
    }
  }

  lemma LoadKeepsFlights(s: State, id: Id)
    requires FlightsOk(s) && id in s.cache && s.cache[id].promise.None?
    ensures FlightsOk(LoadQueued(s, id))
  {
    hide Enqueued;
    forall t | t in s.flights ensures FlightOk(LoadQueued(s, id), t, s.flights[t]) {
      assert FlightOk(s, t, s.flights[t]);
    }
  }

  lemma LoadKeepsLoading(s: State, id: Id)
    requires LoadingOk(s, {id}) && id in s.cache
    ensures LoadingOk(LoadQueued(s, id), {})
  {
    var s', task := LoadQueued(s, id), Task(s.nextTicket, id, s.cache[id].requestedByUser);
    EnqueueMembers(s.queue, task);
    hide Enqueued;
    forall a | a in s'.cache && s'.cache[a].status.Loading?
      ensures s'.cache[a].promise.Some? && HasTask(s', a, s'.cache[a].promise.value)
    {
      if a != id {
        var t := s.cache[a].promise.value;
        assert HasTask(s, a, t);
        if !(t in s.flights && s.flights[t].task.id == a && s.IsCurrent(s.flights[t])) {
          var i :| 0 <= i < |s.queue| && s.queue[i].ticket == t && s.queue[i].id == a;
          var j :| 0 <= j < |s'.queue| && s'.queue[j] == s.queue[i];
        }
      }
    }
  }

  lemma LoadKeepsSettled(s: State, id: Id)
    requires QueueOk(s) && FlightsOk(s) && SettledOk(s) && id in s.cache
    ensures SettledOk(LoadQueued(s, id))
  {
    var s', task := LoadQueued(s, id), Task(s.nextTicket, id, s.cache[id].requestedByUser);
    NextTicketIsFresh(s);
    EnqueueMembers(s.queue, task);
    hide Enqueued, FlightsOk, QueueOk;
    forall t: nat ensures Pending(s', t) <==> Pending(s, t) || t == s.nextTicket {
    }
  }

  lemma LoadKeepsCore(s: State, id: Id)
    requires Core(s, {id}) && id in s.cache && s.cache[id].promise.None?
    ensures Core(LoadQueued(s, id), {})
  {
    var s' := LoadQueued(s, id);
    var e := s'.cache[id];
    assert EntryOk(s, s.cache[id]) && PromiseOk(s, s.cache[id]);
    hide QueueOk, FlightsOk, LoadingOk, SettledOk, UrlsOk, EntriesOk, PromisesOk, Enqueued;
    LoadKeepsQueue(s, id);
    LoadKeepsFlights(s, id);
    LoadKeepsLoading(s, id);
    LoadKeepsSettled(s, id);
    EntryUpdateKeepsUrls(s, s', id, e);
    EntryUpdateKeepsEntries(s, s', id, e);
    EntryUpdateKeepsPromises(s, s', id, e);
  }

  lemma LoadIfNeededKeepsInv(s: State, id: Id)
    requires Core(s, {id}) && Bounded(s) && NoLostWakeup(s) && id in s.cache
    requires s.cache[id].promise.Some? ==> Core(s, {})
    ensures Inv(LoadIfNeeded(s, id))
  {
    assert EntryOk(s, s.cache[id]) && PromiseOk(s, s.cache[id]);
    hide Core;
    if s.cache[id].promise.None? {
      LoadKeepsCore(s, id);
      EntryUpdateKeepsBound(s, LoadQueued(s, id), id, LoadQueued(s, id).cache[id]);
      PumpKeepsInv(LoadQueued(s, id));
    }
  }

  lemma WeakenBut(s: State, id: Id)
    requires Core(s, {})
    ensures Core(s, {id})
  {
  }

  lemma GetKeepsInv(s: State, id: Id, byUser: bool, now: int)
    requires Inv(s)
    ensures Inv(GetStep(s, id, byUser, now))
  {
    hide Core, Bounded, LoadIfNeeded;
    if id in s.cache {
      var s1 := Touched(s, id, byUser, now);
      TouchKeepsCore(s, id, byUser, now);
      EntryUpdateKeepsBound(s, s1, id, s1.cache[id]);
      WeakenBut(s1, id);
      LoadIfNeededKeepsInv(s1, id);
    } else {
      var s1 := Inserted(s, id, byUser, now);
      InsertKeepsCore(s, id, byUser, now);
      EvictKeepsOthers(s1, id);
      EvictKeepsCore(s1, {id});
      LoadIfNeededKeepsInv(Evict(s1), id);
    }
  }

  lemma RetainKeepsCore(s: State, id: Id, now: int)
    requires Core(s, {})
    ensures Core(RetainStep(s, id, now), {})
  {
    var s1 := if id in s.cache then Touched(s, id, false, now) else s;
    assert RetainStep(s, id, now) == s1.(refs := s.refs[id := s.RefCount(id) + 1]);
    if id in s.cache {
      TouchKeepsCore(s, id, false, now);
    }
    RefsKeepCore(s1, s.refs[id := s.RefCount(id) + 1]);
  }

  lemma RetainKeepsBound(s: State, id: Id, now: int)
    requires Bounded(s)
    ensures Bounded(RetainStep(s, id, now))
  {
    if id in s.cache {
      EntryUpdateKeepsBound(s, RetainStep(s, id, now), id, s.cache[id].(lastUsed := now));
    }
  }

  lemma RetainKeepsInv(s: State, id: Id, now: int)
    requires Inv(s)
    ensures Inv(RetainStep(s, id, now))
  {
    hide Core, Bounded;
    RetainKeepsCore(s, id, now);
    RetainKeepsBound(s, id, now);
  }

  lemma UnretainKeepsCore(s: State, id: Id)
    requires Core(s, {})
    ensures Core(Unretained(s, id), {})
  {
    assert Unretained(s, id) == s.(refs := Unretained(s, id).refs);
    RefsKeepCore(s, Unretained(s, id).refs);
  }

  lemma ReleaseKeepsInv(s: State, id: Id)
    requires Inv(s)
    ensures Inv(Evict(Unretained(s, id)))
  {
    hide Core, Bounded;
    UnretainKeepsCore(s, id);
    EvictKeepsCore(Unretained(s, id), {});
  }
}
