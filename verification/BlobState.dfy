/**
 The artifact blob cache as a state machine: an LRU cache of object URLs, reference counts kept
 apart from the entries, a priority queue in front of at most three requests, and requests that
 complete long after their entry may have been dropped.

 Every event below is one atomic turn of the single-threaded event loop.  Entries are values; the
 `serial` of an entry stands for its object identity, so that a request can tell whether the entry
 it was started for is still the cached one.  A task's `ticket` names its promise.
 */
module BlobState {
  import opened Common

  type Id(==, !new)

  const MAX_CONCURRENT_REQUESTS: nat := 3
  const CACHE_MAX_BYTES: nat := 64 * 1024 * 1024
  const CACHE_MAX_ENTRIES: nat := 40

  datatype Failure = Unavailable | Network

  datatype Status = Loading | Ready | Failed

  datatype Entry = Entry(
    serial: nat,
    status: Status,
    promise: Option<nat>,
    url: Option<nat>,
    bytes: nat,
    lastUsed: int,
    requestedByUser: bool)

  datatype Task = Task(ticket: nat, id: Id, requestedByUser: bool)

  datatype Blob = Blob(url: nat, bytes: nat)

  /** A request in flight for the entry `serial`; `blob` is set once its object URL exists. */
  datatype Flight = Flight(task: Task, serial: nat, blob: Option<Blob>)

  datatype Outcome = Resolved(url: nat) | Rejected(failure: Failure) | Aborted

  datatype State = State(
    cache: map<Id, Entry>,
    refs: map<Id, nat>,
    queue: seq<Task>,
    active: nat,
    flights: map<nat, Flight>,
    nextSerial: nat,
    nextTicket: nat,
    nextUrl: nat,
    revoked: multiset<nat>,
    settled: multiset<nat>,
    outcomes: map<nat, Outcome>)
  {
    function RefCount(id: Id): nat {
      if id in refs then refs[id] else 0
    }

    /** The flight's entry is still the cached one. */
    predicate IsCurrent(f: Flight) {
      f.task.id in cache && cache[f.task.id].serial == f.serial
    }

    function Settle(ticket: nat, outcome: Outcome): State {
      this.(settled := settled + multiset{ticket}, outcomes := outcomes[ticket := outcome])
    }
  }

  const Empty := State(map[], map[], [], 0, map[], 0, 0, 0, multiset{}, multiset{}, map[])

  // ---------------------------------------------------------------------------------------------
  // Eviction
  // ---------------------------------------------------------------------------------------------

  /** The bytes held by all entries. */
  ghost function Bytes(cache: map<Id, Entry>): nat
    decreases |cache|
  {
    if cache == map[] then 0 else
      var id :| id in cache;
      cache[id].bytes + Bytes(cache - {id})
  }

  lemma {:induction false} BytesRemove(cache: map<Id, Entry>, id: Id)
    requires id in cache
    ensures Bytes(cache) == cache[id].bytes + Bytes(cache - {id})
    decreases |cache|
  {
    var first :| first in cache && Bytes(cache) == cache[first].bytes + Bytes(cache - {first});
    if first != id {
      BytesRemove(cache - {first}, id);
      BytesRemove(cache - {id}, first);
      assert cache - {first} - {id} == cache - {id} - {first};
    }
  }

  lemma BytesUpdate(cache: map<Id, Entry>, id: Id, e: Entry)
    ensures Bytes(cache[id := e]) == e.bytes + Bytes(cache - {id})
    ensures id in cache && cache[id].bytes == e.bytes ==> Bytes(cache[id := e]) == Bytes(cache)
    ensures |cache[id := e]| == if id in cache then |cache| else |cache| + 1
  {
    BytesRemove(cache[id := e], id);
    assert cache[id := e] - {id} == cache - {id};
    if id in cache {
      BytesRemove(cache, id);
      assert cache[id := e].Keys == cache.Keys;
    }
  }

  predicate Evictable(s: State, id: Id) {
    id in s.cache && s.cache[id].status.Ready? && s.RefCount(id) == 0
  }

  /** Least recently used first; among equal readings, in order of insertion. */
  predicate Older(a: Entry, b: Entry) {
    a.lastUsed < b.lastUsed || (a.lastUsed == b.lastUsed && a.serial < b.serial)
  }

  ghost predicate IsOldestEvictable(s: State, id: Id) {
    Evictable(s, id) && forall other | Evictable(s, other) && other != id :: Older(s.cache[id], s.cache[other])
  }

  ghost predicate OverBound(cache: map<Id, Entry>) {
    |cache| > CACHE_MAX_ENTRIES || Bytes(cache) > CACHE_MAX_BYTES
  }

  function RevokeUrl(revoked: multiset<nat>, e: Entry): multiset<nat> {
    if e.url.Some? then revoked + multiset{e.url.value} else revoked
  }

  function EvictOne(s: State, id: Id): State
    requires id in s.cache
  {
    s.(cache := s.cache - {id}, revoked := RevokeUrl(s.revoked, s.cache[id]))
  }

  /** Evict until within bounds, or until nothing evictable is left. */
  ghost function Evict(s: State): State
    decreases |s.cache|
  {
    if OverBound(s.cache) && exists id :: IsOldestEvictable(s, id) then
      var id :| IsOldestEvictable(s, id);
      assert |s.cache - {id}| < |s.cache| by {
        assert (s.cache - {id}).Keys == s.cache.Keys - {id};
      }
      Evict(EvictOne(s, id))
    else s
  }

  /** Which oldest entry there is to take is no choice. */
  lemma EvictTakesOldest(s: State, id: Id)
    requires OverBound(s.cache) && IsOldestEvictable(s, id)
    ensures Evict(s) == Evict(EvictOne(s, id))
  {
    var v :| IsOldestEvictable(s, v) && Evict(s) == Evict(EvictOne(s, v));
    assert IsOldestEvictable(s, v);
    assert Evictable(s, v);
    assert v != id ==> Older(s.cache[v], s.cache[id]);
  }

  // ---------------------------------------------------------------------------------------------
  // The request queue
  // ---------------------------------------------------------------------------------------------

  /** Position of the first prefetch task, or the length. */
  function FirstPrefetch(queue: seq<Task>): (k: nat)
    ensures k <= |queue|
    ensures forall i | 0 <= i < k :: queue[i].requestedByUser
    ensures k < |queue| ==> !queue[k].requestedByUser
  {
    if queue == [] || !queue[0].requestedByUser then 0 else 1 + FirstPrefetch(queue[1..])
  }

  /** User tasks go in front of all prefetch tasks, prefetch tasks to the end. */
  function Enqueued(queue: seq<Task>, task: Task): seq<Task> {
    var k := if task.requestedByUser then FirstPrefetch(queue) else |queue|;
    queue[..k] + [task] + queue[k..]
  }

  predicate CanPump(s: State) {
    s.active < MAX_CONCURRENT_REQUESTS && s.queue != []
  }

  /** Nobody holds the artifact and no user asked for it. */
  predicate Unwanted(s: State, id: Id) {
    id !in s.cache || (s.RefCount(id) == 0 && !s.cache[id].requestedByUser)
  }

  function PumpOnce(s: State): State
    requires CanPump(s)
  {
    var task, s' := s.queue[0], s.(queue := s.queue[1..]);
    if Unwanted(s, task.id) then
      s'.(cache := s.cache - {task.id}).Settle(task.ticket, Aborted)
    else
      s'.(active := s.active + 1,
          flights := s.flights[task.ticket := Flight(task, s.cache[task.id].serial, None)])
  }

  /** Start requests while slots are free, dropping tasks nobody wants any more. */
  function Pump(s: State): State
    decreases |s.queue|
  {
    if CanPump(s) then Pump(PumpOnce(s)) else s
  }

  // ---------------------------------------------------------------------------------------------
  // Events
  // ---------------------------------------------------------------------------------------------

  datatype Event =
    | Get(id: Id, byUser: bool, now: int)
    | Retain(id: Id, now: int)
    | Release(id: Id)
    | ReleaseAll
    | BlobArrives(ticket: nat, bytes: nat)
    | Succeed(ticket: nat, now: int)
    | Fail(ticket: nat, failure: Failure, now: int)

  function Inserted(s: State, id: Id, byUser: bool, now: int): State {
    s.(cache := s.cache[id := Entry(s.nextSerial, Loading, None, None, 0, now, byUser)], nextSerial := s.nextSerial + 1)
  }

  function Touched(s: State, id: Id, byUser: bool, now: int): State
    requires id in s.cache
  {
    var e := s.cache[id];
    s.(cache := s.cache[id := e.(requestedByUser := e.requestedByUser || byUser, lastUsed := now)])
  }

  /** A new promise for the entry, its task in the queue; the pump has not run yet. */
  function LoadQueued(s: State, id: Id): State
    requires id in s.cache
  {
    var e := s.cache[id];
    s.(cache := s.cache[id := e.(status := Loading, promise := Some(s.nextTicket))],
       queue := Enqueued(s.queue, Task(s.nextTicket, id, e.requestedByUser)),
       nextTicket := s.nextTicket + 1)
  }

  /** Ready and pending entries are shared; only an entry without a promise starts a request. */
  function LoadIfNeeded(s: State, id: Id): State
    requires id in s.cache
  {
    var e := s.cache[id];
    if (e.status.Ready? && e.url.Some?) || e.promise.Some? then s else Pump(LoadQueued(s, id))
  }

  lemma {:induction false} EvictKeepsOthers(s: State, id: Id)
    requires id in s.cache && !Evictable(s, id)
    ensures id in Evict(s).cache && Evict(s).cache[id] == s.cache[id]
    decreases |s.cache|
  {
    if OverBound(s.cache) && exists v :: IsOldestEvictable(s, v) {
      var v :| IsOldestEvictable(s, v) && Evict(s) == Evict(EvictOne(s, v));
      assert (s.cache - {v}).Keys == s.cache.Keys - {v};
      EvictKeepsOthers(EvictOne(s, v), id);
    }
  }

  ghost function GetStep(s: State, id: Id, byUser: bool, now: int): State {
    if id in s.cache then LoadIfNeeded(Touched(s, id, byUser, now), id)
    else
      EvictKeepsOthers(Inserted(s, id, byUser, now), id);
      LoadIfNeeded(Evict(Inserted(s, id, byUser, now)), id)
  }

  function RetainStep(s: State, id: Id, now: int): State {
    s.(refs := s.refs[id := s.RefCount(id) + 1],
       cache := if id in s.cache then s.cache[id := s.cache[id].(lastUsed := now)] else s.cache)
  }

  function Unretained(s: State, id: Id): State {
    var count := s.RefCount(id);
    if count == 0 then s
    else if count == 1 then s.(refs := s.refs - {id})
    else s.(refs := s.refs[id := count - 1])
  }

  /** The URLs the cache holds. */
  ghost function UrlsOf(cache: map<Id, Entry>): set<nat> {
    set id | id in cache && cache[id].url.Some? :: cache[id].url.value
  }

  function AbortAll(s: State): State
    decreases |s.queue|
  {
    if s.queue == [] then s else AbortAll(s.(queue := s.queue[1..]).Settle(s.queue[0].ticket, Aborted))
  }

  ghost function ReleaseAllStep(s: State): State {
    AbortAll(s.(cache := map[], refs := map[], revoked := s.revoked + multiset(UrlsOf(s.cache))))
  }

  function BlobArrivesStep(s: State, ticket: nat, bytes: nat): State {
    if ticket in s.flights && s.flights[ticket].blob.None? then
      s.(flights := s.flights[ticket := s.flights[ticket].(blob := Some(Blob(s.nextUrl, bytes)))],
         nextUrl := s.nextUrl + 1)
    else s
  }

  function FreeSlot(active: nat): nat {
    if active == 0 then 0 else active - 1
  }

  /** A response: into its entry if that is still cached, else revoked and reported as an abort.
      The slot is free again; eviction and the pump have not run yet. */
  function Succeeded(s: State, ticket: nat, now: int): State
    requires ticket in s.flights && s.flights[ticket].blob.Some?
  {
    var Flight(task, _, Some(Blob(url, bytes))) := s.flights[ticket];
    var current := s.IsCurrent(s.flights[ticket]);
    s.(cache := if current then
                  s.cache[task.id :=
                    s.cache[task.id].(status := Ready, url := Some(url), bytes := bytes, lastUsed := now)]
                else s.cache,
       revoked := if current then s.revoked else s.revoked + multiset{url},
       flights := s.flights - {ticket},
       active := FreeSlot(s.active),
       settled := s.settled + multiset{ticket},
       outcomes := s.outcomes[ticket := if current then Resolved(url) else Aborted])
  }

  /** A failure: noted in the entry if that is still cached; only an unavailable artifact keeps its
      rejected promise, so that it is never asked for again. */
  function Failing(s: State, ticket: nat, failure: Failure, now: int): State
    requires ticket in s.flights
  {
    var id := s.flights[ticket].task.id;
    s.(cache := if s.IsCurrent(s.flights[ticket]) then
                  s.cache[id := s.cache[id].(status := Failed,
                                             promise := if failure.Unavailable? then s.cache[id].promise else None,
                                             lastUsed := now)]
                else s.cache,
       flights := s.flights - {ticket},
       active := FreeSlot(s.active),
       settled := s.settled + multiset{ticket},
       outcomes := s.outcomes[ticket := Rejected(failure)])
  }

  /** One turn of the event loop; an event about no request in flight does nothing. */
  ghost function Next(s: State, event: Event): State {
    match event
    case Get(id, byUser, now) => GetStep(s, id, byUser, now)
    case Retain(id, now) => RetainStep(s, id, now)
    case Release(id) => Evict(Unretained(s, id))
    case ReleaseAll => ReleaseAllStep(s)
    case BlobArrives(ticket, bytes) => BlobArrivesStep(s, ticket, bytes)
    case Succeed(ticket, now) =>
      if ticket in s.flights && s.flights[ticket].blob.Some? then Pump(Evict(Succeeded(s, ticket, now))) else s
    case Fail(ticket, failure, now) =>
      if ticket in s.flights && s.flights[ticket].blob.None? then Pump(Evict(Failing(s, ticket, failure, now))) else s
  }

  ghost function Run(s: State, events: seq<Event>): State
    decreases |events|
  {
    if events == [] then s else Run(Next(s, events[0]), events[1..])
  }
}
