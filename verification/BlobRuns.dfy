/** The blob cache over whole runs, and what its callers can rely on. */
module BlobRuns {
  import opened Common
  import opened BlobState
  import opened BlobInvariants
  import opened BlobCompletions

  lemma NextKeepsInv(s: State, event: Event)
    requires Inv(s)
    ensures Inv(Next(s, event))
  {
    hide Evict, Pump, GetStep, RetainStep, ReleaseAllStep, Succeeded, Failing, Core, Bounded;
    match event
    case Get(id, byUser, now) => GetKeepsInv(s, id, byUser, now);
    case Retain(id, now) => RetainKeepsInv(s, id, now);
    case Release(id) => ReleaseKeepsInv(s, id);
    case ReleaseAll => ReleaseAllKeepsInv(s);
    case BlobArrives(ticket, bytes) => ArrivalKeepsInv(s, ticket, bytes);
    case Succeed(ticket, now) =>
      hide Inv;
      if ticket in s.flights && s.flights[ticket].blob.Some? {
        InvIsCore(s);
        SuccessKeepsCore(s, ticket, now);
        CompletionKeepsInv(Succeeded(s, ticket, now));
      }
    case Fail(ticket, failure, now) =>
      hide Inv;
      if ticket in s.flights && s.flights[ticket].blob.None? {
        InvIsCore(s);
        FailureKeepsCore(s, ticket, failure, now);
        CompletionKeepsInv(Failing(s, ticket, failure, now));
      }
  }

  lemma InvIsCore(s: State)
    requires Inv(s)
    ensures Core(s, {}) && Bounded(s) && NoLostWakeup(s)
  {
  }

  lemma EmptyIsInv()
    ensures Inv(Empty)
  {
  }

  /** Whatever the events and their order, every state between two turns satisfies the invariant. */
  lemma {:induction false} RunKeepsInv(s: State, events: seq<Event>)
    requires Inv(s)
    ensures Inv(Run(s, events))
    decreases |events|
  {
    if events != [] {
      NextKeepsInv(s, events[0]);
      RunKeepsInv(Next(s, events[0]), events[1..]);
    }
  }

  // ---------------------------------------------------------------------------------------------
  // Reachable states
  // ---------------------------------------------------------------------------------------------

  /** Object URLs are not leaked and not revoked twice: with no response in transit, the live URLs
      are exactly those of the ready entries. */
  lemma LiveUrlsAreReadyEntries(events: seq<Event>, u: nat)
    requires forall t | t in Run(Empty, events).flights :: Run(Empty, events).flights[t].blob.None?
    ensures var s := Run(Empty, events);
            && s.revoked[u] <= 1
            && (Live(s, u) <==> exists id :: id in s.cache && s.cache[id].status.Ready? && s.cache[id].url == Some(u))
  {
    EmptyIsInv();
    RunKeepsInv(Empty, events);
    var s := Run(Empty, events);
    assert !InTransit(s, u);
    assert forall id | id in s.cache :: EntryOk(s, s.cache[id]);
    if Cached(s, u) {
      var id :| id in s.cache && s.cache[id].url == Some(u);
    }
  }

  /** Between turns the cache is within its bounds, or every ready entry is held. */
  lemma CacheIsBounded(events: seq<Event>)
    ensures var s := Run(Empty, events);
            || (|s.cache| <= 40 && Bytes(s.cache) <= 64 * 1024 * 1024)
            || forall id | id in s.cache && s.cache[id].status.Ready? :: id in s.refs
  {
    EmptyIsInv();
    RunKeepsInv(Empty, events);
  }

  /** At most three requests; waiting only when all slots are taken; user tasks first. */
  lemma SchedulingHolds(events: seq<Event>)
    ensures var s := Run(Empty, events);
            && s.active == |s.flights| <= 3
            && (s.queue != [] ==> s.active == 3)
            && (forall i, j | 0 <= i < j < |s.queue| :: s.queue[j].requestedByUser ==> s.queue[i].requestedByUser)
  {
    EmptyIsInv();
    RunKeepsInv(Empty, events);
  }

  /** A task is the one task of the cached entry `id`. */
  ghost predicate TaskOf(s: State, id: Id, ticket: nat) {
    && id in s.cache
    && ((exists i :: 0 <= i < |s.queue| && s.queue[i].ticket == ticket && s.queue[i].id == id)
        || (ticket in s.flights && s.flights[ticket].task.id == id && s.IsCurrent(s.flights[ticket])))
  }

  /** Single flight: a cached entry has a task exactly while it is loading, and never two. */
  lemma LoadingEntriesHaveOneTask(events: seq<Event>, id: Id)
    requires id in Run(Empty, events).cache
    ensures var s := Run(Empty, events);
            && (s.cache[id].status.Loading? <==> exists t :: TaskOf(s, id, t))
            && (forall t, r | TaskOf(s, id, t) && TaskOf(s, id, r) :: t == r)
  {
    EmptyIsInv();
    RunKeepsInv(Empty, events);
    var s := Run(Empty, events);
    forall t | TaskOf(s, id, t) ensures LoadsOn(s, id, t) {
      if t in s.flights && s.flights[t].task.id == id && s.IsCurrent(s.flights[t]) {
        assert FlightOk(s, t, s.flights[t]);
      } else {
        var i :| 0 <= i < |s.queue| && s.queue[i].ticket == t && s.queue[i].id == id;
        assert QueuedOk(s, s.queue[i]);
      }
    }
    if s.cache[id].status.Loading? {
      assert HasTask(s, id, s.cache[id].promise.value);
      assert TaskOf(s, id, s.cache[id].promise.value);
    }
  }

  /** Every promise handed out is settled exactly once, when its task has left queue and flight. */
  lemma PromisesSettleOnce(events: seq<Event>, ticket: nat)
    ensures var s := Run(Empty, events);
            s.settled[ticket] == if ticket < s.nextTicket && !Pending(s, ticket) then 1 else 0
  {
    EmptyIsInv();
    RunKeepsInv(Empty, events);
  }

  // ---------------------------------------------------------------------------------------------
  // What eviction takes
  // ---------------------------------------------------------------------------------------------

  /** The cache without the evictable entries that are older than `id`. */
  ghost function WithoutOlder(s: State, id: Id): map<Id, Entry>
    requires id in s.cache
  {
    map v | v in s.cache && !(Evictable(s, v) && v != id && Older(s.cache[v], s.cache[id])) :: s.cache[v]
  }

  ghost predicate PartOf(small: map<Id, Entry>, large: map<Id, Entry>) {
    forall id | id in small :: id in large && large[id] == small[id]
  }

  lemma CacheWithout(cache: map<Id, Entry>, id: Id)
    requires id in cache
    ensures Bytes(cache) == cache[id].bytes + Bytes(cache - {id}) && |cache - {id}| == |cache| - 1
  {
    BytesRemove(cache, id);
    assert (cache - {id}).Keys == cache.Keys - {id};
  }

  lemma {:induction false} BytesSubset(small: map<Id, Entry>, large: map<Id, Entry>)
    requires PartOf(small, large)
    ensures Bytes(small) <= Bytes(large) && |small| <= |large|
    decreases |large|
  {
    hide Bytes;
    if large == map[] {
      assert small == map[];
    } else {
      var id :| id in large;
      CacheWithout(large, id);
      BytesSubset(small - {id}, large - {id});
      if id in small {
        CacheWithout(small, id);
      } else {
        assert small - {id} == small;
      }
    }
  }

  /** Eviction takes an entry exactly when nobody holds it and dropping all older ones is not enough:
      least recently used first, and never one too many. */
  lemma {:induction false} EvictExactly(s: State, id: Id)
    requires EntriesOk(s) && id in s.cache
    ensures id in Evict(s).cache <==> !Evictable(s, id) || !OverBound(WithoutOlder(s, id))
    ensures id in Evict(s).cache ==> Evict(s).cache[id] == s.cache[id]
    decreases |s.cache|
  {
    if !Evictable(s, id) {
      EvictKeepsOthers(s, id);
    } else if !OverBound(s.cache) {
      BytesSubset(WithoutOlder(s, id), s.cache);
    } else {
      OldestIsThere(s, id);
      var v :| IsOldestEvictable(s, v) && Evict(s) == Evict(EvictOne(s, v));
      var s' := EvictOne(s, v);
      assert s'.cache.Keys == s.cache.Keys - {v};
      hide Evict;
      if v == id {
        assert WithoutOlder(s, id) == s.cache;
        EvictAddsNothing(s', id);
      } else {
        EvictOneKeepsEntries(s, v);
        EvictExactly(s', id);
        EvictOneKeepsRest(s, v, id);
      }
    }
  }

  lemma OldestIsThere(s: State, id: Id)
    requires EntriesOk(s) && Evictable(s, id)
    ensures exists v :: IsOldestEvictable(s, v)
  {
    OldestOrNone(s);
  }

  lemma EvictOneKeepsRest(s: State, v: Id, id: Id)
    requires IsOldestEvictable(s, v) && Evictable(s, id) && v != id
    ensures Evictable(EvictOne(s, v), id)
    ensures WithoutOlder(EvictOne(s, v), id) == WithoutOlder(s, id)
  {
    var s' := EvictOne(s, v);
    forall a ensures a in WithoutOlder(s', id) <==> a in WithoutOlder(s, id) {
    }
  }

  lemma EvictOneKeepsEntries(s: State, id: Id)
    requires EntriesOk(s) && id in s.cache
    ensures EntriesOk(EvictOne(s, id))
  {
    forall a | a in s.cache ensures EntryOk(EvictOne(s, id), s.cache[a]) {
      assert EntryOk(s, s.cache[a]);
    }
  }

  lemma {:induction false} EvictAddsNothing(s: State, id: Id)
    requires id !in s.cache
    ensures id !in Evict(s).cache
    decreases |s.cache|
  {
    if OverBound(s.cache) && exists v :: IsOldestEvictable(s, v) {
      var v :| IsOldestEvictable(s, v) && Evict(s) == Evict(EvictOne(s, v));
      assert (s.cache - {v}).Keys == s.cache.Keys - {v};
      EvictAddsNothing(EvictOne(s, v), id);
    }
  }

  /** The pump touches no ready entry. */
  lemma {:induction false} PumpKeepsReady(s: State, id: Id)
    requires Core(s, {})
    ensures id in s.cache && s.cache[id].status.Ready? ==> id in Pump(s).cache && Pump(s).cache[id] == s.cache[id]
    ensures id !in s.cache ==> id !in Pump(s).cache
    decreases |s.queue|
  {
    if CanPump(s) {
      assert QueuedOk(s, s.queue[0]);
      PumpOnceKeepsCore(s);
      PumpKeepsReady(PumpOnce(s), id);
    }
  }

  /** The request's response is about to be delivered to its callers. */
  ghost predicate Delivers(s: State, ticket: nat) {
    ticket in s.flights && s.flights[ticket].blob.Some? && s.IsCurrent(s.flights[ticket])
  }

  ghost predicate Keeps(s: State, id: Id, url: nat) {
    id in s.cache && s.cache[id].url == Some(url)
  }

  /** A response delivered to a waiting caller: its URL outlives the turn exactly when somebody holds
      the artifact or it fits once everything older is gone. */
  lemma DeliveredUrlSurvives(s: State, ticket: nat, now: int)
    requires Inv(s) && Delivers(s, ticket)
    ensures var delivered := Succeeded(s, ticket, now);
            var Flight(task, _, Some(Blob(url, _))) := s.flights[ticket];
            && delivered.outcomes[ticket] == Resolved(url)
            && Keeps(delivered, task.id, url)
            && (Keeps(Next(s, Succeed(ticket, now)), task.id, url)
                <==> s.RefCount(task.id) > 0 || !OverBound(WithoutOlder(delivered, task.id)))
  {
    hide Core, Bounded, Evict, Pump, OverBound;
    SuccessKeepsCore(s, ticket, now);
    ReadyAfterTurn(Succeeded(s, ticket, now), s.flights[ticket].task.id);
  }

  lemma ReadyAfterTurn(s: State, id: Id)
    requires Core(s, {}) && id in s.cache && s.cache[id].status.Ready?
    ensures id in Pump(Evict(s)).cache <==> s.RefCount(id) > 0 || !OverBound(WithoutOlder(s, id))
    ensures id in Pump(Evict(s)).cache ==> Pump(Evict(s)).cache[id] == s.cache[id]
  {
    EvictExactly(s, id);
    EvictKeepsCore(s, {});
    hide Core;
    PumpKeepsReady(Evict(s), id);
  }

  /** So a file over 64 MB that nobody holds is revoked in the turn that delivers it, although the
      download path accepts files up to 200 MB and does not hold what it downloads. */
  lemma OversizeDownloadIsRevoked(s: State, ticket: nat, now: int)
    requires Inv(s) && Delivers(s, ticket)
    requires s.RefCount(s.flights[ticket].task.id) == 0
    requires s.flights[ticket].blob.value.bytes > CACHE_MAX_BYTES
    ensures var Flight(task, _, Some(Blob(url, _))) := s.flights[ticket];
            && Succeeded(s, ticket, now).outcomes[ticket] == Resolved(url)
            && !Keeps(Next(s, Succeed(ticket, now)), task.id, url)
  {
    hide Inv, Next, OverBound;
    var delivered, id := Succeeded(s, ticket, now), s.flights[ticket].task.id;
    DeliveredUrlSurvives(s, ticket, now);
    assert WithoutOlder(delivered, id)[id].bytes > CACHE_MAX_BYTES;
    OneBigEntry(WithoutOlder(delivered, id), id);
  }

  lemma OneBigEntry(cache: map<Id, Entry>, id: Id)
    requires id in cache && cache[id].bytes > CACHE_MAX_BYTES
    ensures OverBound(cache)
  {
    BytesRemove(cache, id);
  }

  const DOWNLOAD_MAX_BYTES: nat := 200 * 1024 * 1024

  /** The family above is reachable: a plain user download of `bytes` bytes. */
  lemma OversizeDownloadIsReachable(id: Id, bytes: nat)
    requires CACHE_MAX_BYTES < bytes <= DOWNLOAD_MAX_BYTES
    ensures var s := Run(Empty, [Get(id, true, 0), BlobArrives(0, bytes)]);
            && Inv(s) && 0 in s.flights && s.flights[0].blob == Some(Blob(0, bytes))
            && s.IsCurrent(s.flights[0]) && s.RefCount(s.flights[0].task.id) == 0
  {
    var events := [Get(id, true, 0), BlobArrives(0, bytes)];
    EmptyIsInv();
    RunKeepsInv(Empty, events);
    var s1 := Inserted(Empty, id, true, 0);
    assert s1.cache == map[id := Entry(0, Loading, None, None, 0, 0, true)];
    BytesRemove(s1.cache, id);
    assert s1.cache - {id} == map[];
    assert Evict(s1) == s1;
    var s2 := LoadQueued(s1, id);
    assert s2.queue == [Task(0, id, true)];
    var s3 := PumpOnce(s2);
    assert Pump(s2) == Pump(s3) == s3;
    assert Next(Empty, events[0]) == s3;
    assert events[1..] == [BlobArrives(0, bytes)];
    assert Run(s3, events[1..]) == Run(Next(s3, BlobArrives(0, bytes)), []);
  }

  // ---------------------------------------------------------------------------------------------
  // What never happens
  // ---------------------------------------------------------------------------------------------

  ghost predicate HeldReady(s: State, id: Id) {
    id in s.cache && s.cache[id].status.Ready? && s.RefCount(id) > 0
  }

  lemma PumpKeepsRefs(s: State)
    ensures Pump(s).refs == s.refs
    decreases |s.queue|
  {
    if CanPump(s) {
      PumpKeepsRefs(PumpOnce(s));
    }
  }

  /** A URL on screen is never revoked: while somebody holds a ready artifact, no event but clearing
      the cache, or the last holder letting go, takes its entry or changes its URL. */
  lemma HeldUrlStays(s: State, event: Event, id: Id)
    requires Inv(s) && HeldReady(s, id) && event != ReleaseAll && (event == Release(id) ==> s.RefCount(id) > 1)
    ensures StillHeld(s, Next(s, event), id)
  {
    hide Inv, StillHeld, GetStep, RetainStep, Evict, Unretained, BlobArrivesStep, Succeeded, Failing, Pump;
    match event
    case Get(other, byUser, now) => HeldThroughGet(s, other, byUser, now, id);
    case Retain(other, now) => HeldThroughRetain(s, other, now, id);
    case Release(other) => HeldThroughRelease(s, other, id);
    case BlobArrives(ticket, bytes) => HeldThroughArrival(s, ticket, bytes, id);
    case Succeed(ticket, now) => HeldThroughSuccess(s, ticket, now, id);
    case Fail(ticket, failure, now) => HeldThroughFailure(s, ticket, failure, now, id);
  }

  ghost predicate StillHeld(s: State, s': State, id: Id) {
    HeldReady(s', id) && id in s.cache && s'.cache[id].url == s.cache[id].url
  }

  lemma HeldThroughRetain(s: State, other: Id, now: int, id: Id)
    requires HeldReady(s, id)
    ensures StillHeld(s, RetainStep(s, other, now), id)
  {
  }

  lemma {:induction false} EvictKeepsRefs(s: State)
    ensures Evict(s).refs == s.refs
    decreases |s.cache|
  {
    if OverBound(s.cache) && exists v :: IsOldestEvictable(s, v) {
      var v :| IsOldestEvictable(s, v) && Evict(s) == Evict(EvictOne(s, v));
      assert (s.cache - {v}).Keys == s.cache.Keys - {v};
      EvictKeepsRefs(EvictOne(s, v));
    }
  }

  lemma HeldThroughRelease(s: State, other: Id, id: Id)
    requires HeldReady(s, id) && (other == id ==> s.RefCount(id) > 1)
    ensures StillHeld(s, Evict(Unretained(s, other)), id)
  {
    hide Evict;
    EvictKeepsOthers(Unretained(s, other), id);
    EvictKeepsRefs(Unretained(s, other));
  }

  lemma HeldThroughArrival(s: State, ticket: nat, bytes: nat, id: Id)
    requires HeldReady(s, id)
    ensures StillHeld(s, BlobArrivesStep(s, ticket, bytes), id)
  {
  }

  lemma HeldThroughSuccess(s: State, ticket: nat, now: int, id: Id)
    requires Inv(s) && HeldReady(s, id)
    ensures StillHeld(s, Next(s, Succeed(ticket, now)), id)
  {
    if ticket in s.flights && s.flights[ticket].blob.Some? {
      NoTaskForReady(s, id, ticket);
      hide Core, Evict, Pump;
      SuccessKeepsCore(s, ticket, now);
      HeldThroughTurn(Succeeded(s, ticket, now), id);
    }
  }

  lemma HeldThroughFailure(s: State, ticket: nat, failure: Failure, now: int, id: Id)
    requires Inv(s) && HeldReady(s, id)
    ensures StillHeld(s, Next(s, Fail(ticket, failure, now)), id)
  {
    if ticket in s.flights && s.flights[ticket].blob.None? {
      NoTaskForReady(s, id, ticket);
      hide Core, Evict, Pump;
      FailureKeepsCore(s, ticket, failure, now);
      HeldThroughTurn(Failing(s, ticket, failure, now), id);
    }
  }

  lemma NoTaskForReady(s: State, id: Id, ticket: nat)
    requires Core(s, {}) && id in s.cache && s.cache[id].status.Ready? && ticket in s.flights
    ensures s.flights[ticket].task.id == id ==> !s.IsCurrent(s.flights[ticket])
  {
    assert FlightOk(s, ticket, s.flights[ticket]);
  }

  lemma HeldThroughTurn(s: State, id: Id)
    requires Core(s, {}) && HeldReady(s, id)
    ensures StillHeld(s, Pump(Evict(s)), id)
  {
    EvictKeepsOthers(s, id);
    EvictKeepsCore(s, {});
    hide Core;
    PumpKeepsReady(Evict(s), id);
    PumpKeepsRefs(Evict(s));
  }

  lemma HeldThroughGet(s: State, other: Id, byUser: bool, now: int, id: Id)
    requires Inv(s) && HeldReady(s, id)
    ensures StillHeld(s, GetStep(s, other, byUser, now), id)
  {
    assert EntryOk(s, s.cache[id]);
    if other in s.cache {
      var s1 := Touched(s, other, byUser, now);
      TouchKeepsCore(s, other, byUser, now);
      hide Inv, Core;
      HeldThroughLoad(s1, other, id);
    } else {
      var s1 := Inserted(s, other, byUser, now);
      InsertKeepsCore(s, other, byUser, now);
      EvictKeepsOthers(s1, id);
      EvictKeepsOthers(s1, other);
      hide Inv, Core;
      EvictKeepsCore(s1, {other});
      HeldThroughLoad(Evict(s1), other, id);
    }
  }

  lemma HeldThroughLoad(s: State, other: Id, id: Id)
    requires Core(s, {other}) && HeldReady(s, id) && other in s.cache
    ensures StillHeld(s, LoadIfNeeded(s, other), id)
  {
    assert EntryOk(s, s.cache[id]);
    assert PromiseOk(s, s.cache[other]);
    if s.cache[other].promise.None? {
      LoadKeepsCore(s, other);
      hide Core;
      PumpKeepsReady(LoadQueued(s, other), id);
      PumpKeepsRefs(LoadQueued(s, other));
    }
  }

  /** The last release of a ready entry lets eviction at it: it stays exactly if it fits beside what is not older. */
  lemma LastReleaseLetsGo(s: State, id: Id)
    requires Inv(s) && HeldReady(s, id) && s.RefCount(id) == 1
    ensures var s', let := Next(s, Release(id)), Unretained(s, id);
            && s'.RefCount(id) == 0
            && (id in s'.cache <==> !OverBound(WithoutOlder(let, id)))
            && (id in s'.cache ==> s'.cache[id] == s.cache[id])
            && (id !in s'.cache ==> s'.revoked[s.cache[id].url.value] == 1)
  {
    hide Evict, OverBound, WithoutOlder, TasksOk, PromisesOk, Bounded, NoLostWakeup;
    var let := Unretained(s, id);
    assert EntriesOk(let) by {
      assert forall a | a in s.cache :: EntryOk(s, s.cache[a]);
    }
    EvictExactly(let, id);
    EvictKeepsRefs(let);
    var u := s.cache[id].url.value;
    assert Cached(s, u);
    ReleaseKeepsInv(s, id);
    EvictKeepsUrls(let);
    if id !in Evict(let).cache {
      NoOtherOwner(s, Evict(let), id);
    }
  }

  lemma {:induction false} EvictKeepsUrls(s: State)
    ensures Evict(s).nextUrl == s.nextUrl && Evict(s).flights == s.flights
    ensures forall a | a in Evict(s).cache :: a in s.cache && Evict(s).cache[a] == s.cache[a]
    decreases |s.cache|
  {
    if OverBound(s.cache) && exists v :: IsOldestEvictable(s, v) {
      var v :| IsOldestEvictable(s, v) && Evict(s) == Evict(EvictOne(s, v));
      assert (s.cache - {v}).Keys == s.cache.Keys - {v};
      EvictKeepsUrls(EvictOne(s, v));
    }
  }

  /** A URL whose one entry is gone is revoked. */
  lemma NoOtherOwner(s: State, s': State, id: Id)
    requires UrlsOk(s) && UrlsOk(s') && id in s.cache && s.cache[id].url.Some? && id !in s'.cache
    requires s'.nextUrl == s.nextUrl && s'.flights == s.flights
    requires forall a | a in s'.cache :: a in s.cache && s'.cache[a] == s.cache[a]
    ensures s'.revoked[s.cache[id].url.value] == 1
  {
    var u := s.cache[id].url.value;
    assert Cached(s, u) && Live(s, u);
    assert !InTransit(s', u) by {
      assert InTransit(s', u) ==> InTransit(s, u);
    }
    assert !Cached(s', u);
    assert !Live(s', u);
  }

  /** All cached entries were inserted at or after serial `n`. */
  ghost predicate InsertedSince(s: State, n: nat) {
    n <= s.nextSerial && forall id | id in s.cache :: n <= s.cache[id].serial
  }

  lemma PumpKeepsInsertedSince(s: State, n: nat)
    requires InsertedSince(s, n)
    ensures InsertedSince(Pump(s), n)
    decreases |s.queue|
  {
    if CanPump(s) {
      PumpKeepsInsertedSince(PumpOnce(s), n);
    }
  }

  lemma {:induction false} EvictKeepsInsertedSince(s: State, n: nat)
    requires InsertedSince(s, n)
    ensures InsertedSince(Evict(s), n)
    decreases |s.cache|
  {
    if OverBound(s.cache) && exists v :: IsOldestEvictable(s, v) {
      var v :| IsOldestEvictable(s, v) && Evict(s) == Evict(EvictOne(s, v));
      assert (s.cache - {v}).Keys == s.cache.Keys - {v};
      EvictKeepsInsertedSince(EvictOne(s, v), n);
    }
  }

  lemma GetKeepsInsertedSince(s: State, id: Id, byUser: bool, now: int, n: nat)
    requires InsertedSince(s, n)
    ensures InsertedSince(GetStep(s, id, byUser, now), n)
  {
    if id in s.cache {
      PumpKeepsInsertedSince(LoadQueued(Touched(s, id, byUser, now), id), n);
    } else {
      var s1 := Inserted(s, id, byUser, now);
      EvictKeepsInsertedSince(s1, n);
      EvictKeepsOthers(s1, id);
      hide Evict;
      PumpKeepsInsertedSince(LoadQueued(Evict(s1), id), n);
    }
  }

  lemma TurnKeepsInsertedSince(s: State, n: nat)
    requires InsertedSince(s, n)
    ensures InsertedSince(Pump(Evict(s)), n)
  {
    EvictKeepsInsertedSince(s, n);
    PumpKeepsInsertedSince(Evict(s), n);
  }

  lemma NextKeepsInsertedSince(s: State, event: Event, n: nat)
    requires Inv(s) && InsertedSince(s, n)
    ensures InsertedSince(Next(s, event), n)
  {
    hide Inv, GetStep, Evict, Pump;
    match event
    case Get(id, byUser, now) => GetKeepsInsertedSince(s, id, byUser, now, n);
    case Retain(id, now) =>
    case Release(id) => EvictKeepsInsertedSince(Unretained(s, id), n);
    case ReleaseAll =>
      ReleaseAllKeepsInv(s);
      ReleaseAllKeepsRequests(s);
    case BlobArrives(ticket, bytes) =>
    case Succeed(ticket, now) =>
      if ticket in s.flights && s.flights[ticket].blob.Some? {
        TurnKeepsInsertedSince(Succeeded(s, ticket, now), n);
      }
    case Fail(ticket, failure, now) =>
      if ticket in s.flights && s.flights[ticket].blob.None? {
        TurnKeepsInsertedSince(Failing(s, ticket, failure, now), n);
      }
  }

  lemma ReleaseAllKeepsRequests(s: State)
    requires Inv(s)
    ensures var s' := ReleaseAllStep(s);
            && s'.nextSerial == s.nextSerial && s'.nextTicket == s.nextTicket
            && s'.flights == s.flights && s'.queue == []
  {
    AbortAllSettlesQueue(s.(cache := map[], refs := map[], revoked := s.revoked + multiset(UrlsOf(s.cache))));
  }

  lemma {:induction false} RunKeepsInsertedSince(s: State, events: seq<Event>, n: nat)
    requires Inv(s) && InsertedSince(s, n)
    ensures InsertedSince(Run(s, events), n)
    decreases |events|
  {
    if events != [] {
      NextKeepsInv(s, events[0]);
      NextKeepsInsertedSince(s, events[0], n);
      RunKeepsInsertedSince(Next(s, events[0]), events[1..], n);
    }
  }

  /** The request `ticket` is in flight as it was, or has landed; it does not start again. */
  ghost predicate SameFlight(s: State, ticket: nat, was: Flight) {
    && ticket < s.nextTicket
    && (forall i | 0 <= i < |s.queue| :: s.queue[i].ticket != ticket)
    && (ticket in s.flights ==> s.flights[ticket].task == was.task && s.flights[ticket].serial == was.serial)
  }

  lemma {:induction false} PumpKeepsFlight(s: State, ticket: nat, was: Flight)
    requires SameFlight(s, ticket, was)
    ensures SameFlight(Pump(s), ticket, was)
    decreases |s.queue|
  {
    if CanPump(s) {
      var s' := PumpOnce(s);
      assert forall i | 0 <= i < |s'.queue| :: s'.queue[i] == s.queue[i + 1];
      PumpKeepsFlight(s', ticket, was);
    }
  }

  lemma {:induction false} EvictKeepsRequests(s: State)
    ensures Evict(s).queue == s.queue && Evict(s).flights == s.flights && Evict(s).nextTicket == s.nextTicket
    decreases |s.cache|
  {
    if OverBound(s.cache) && exists v :: IsOldestEvictable(s, v) {
      var v :| IsOldestEvictable(s, v) && Evict(s) == Evict(EvictOne(s, v));
      assert (s.cache - {v}).Keys == s.cache.Keys - {v};
      EvictKeepsRequests(EvictOne(s, v));
    }
  }

  lemma LoadKeepsFlight(s: State, id: Id, ticket: nat, was: Flight)
    requires SameFlight(s, ticket, was) && id in s.cache
    ensures SameFlight(LoadIfNeeded(s, id), ticket, was)
  {
    hide Pump, Enqueued;
    var queued := LoadQueued(s, id);
    EnqueueMembers(s.queue, Task(s.nextTicket, id, s.cache[id].requestedByUser));
    PumpKeepsFlight(queued, ticket, was);
  }

  lemma NextKeepsFlight(s: State, event: Event, ticket: nat, was: Flight)
    requires Inv(s) && SameFlight(s, ticket, was)
    ensures SameFlight(Next(s, event), ticket, was)
  {
    hide Inv, Evict, Pump, LoadIfNeeded, AbortAll;
    match event
    case Get(id, byUser, now) =>
      if id in s.cache {
        LoadKeepsFlight(Touched(s, id, byUser, now), id, ticket, was);
      } else {
        var inserted := Inserted(s, id, byUser, now);
        EvictKeepsRequests(inserted);
        EvictKeepsOthers(inserted, id);
        LoadKeepsFlight(Evict(inserted), id, ticket, was);
      }
    case Retain(id, now) =>
    case Release(id) => EvictKeepsRequests(Unretained(s, id));
    case ReleaseAll => ReleaseAllKeepsRequests(s);
    case BlobArrives(t, bytes) =>
    case Succeed(t, now) =>
      if t in s.flights && s.flights[t].blob.Some? {
        EvictKeepsRequests(Succeeded(s, t, now));
        PumpKeepsFlight(Evict(Succeeded(s, t, now)), ticket, was);
      }
    case Fail(t, failure, now) =>
      if t in s.flights && s.flights[t].blob.None? {
        EvictKeepsRequests(Failing(s, t, failure, now));
        PumpKeepsFlight(Evict(Failing(s, t, failure, now)), ticket, was);
      }
  }

  lemma {:induction false} RunKeepsFlight(s: State, events: seq<Event>, ticket: nat, was: Flight)
    requires Inv(s) && SameFlight(s, ticket, was)
    ensures SameFlight(Run(s, events), ticket, was)
    decreases |events|
  {
    hide Inv, SameFlight, Next;
    if events != [] {
      NextKeepsInv(s, events[0]);
      NextKeepsFlight(s, events[0], ticket, was);
      RunKeepsFlight(Next(s, events[0]), events[1..], ticket, was);
    }
  }

  /** After the cache is cleared, no response to a request in flight then ever enters it, whatever happens in
      between: the request stays the one it was, and whenever it completes, it finds its entry gone. */
  lemma EarlierRequestsStayStale(s: State, events: seq<Event>, ticket: nat)
    requires Inv(s)
    ensures forall t | t in s.flights :: s.flights[t].serial < s.nextSerial
    ensures var later := Run(ReleaseAllStep(s), events);
            ticket in later.flights && later.flights[ticket].serial < s.nextSerial ==>
                !later.IsCurrent(later.flights[ticket])
    ensures var later := Run(ReleaseAllStep(s), events);
            ticket in later.flights && ticket in s.flights ==>
              && later.flights[ticket].task == s.flights[ticket].task
              && later.flights[ticket].serial == s.flights[ticket].serial
              && !later.IsCurrent(later.flights[ticket])
  {
    FlightsAreEarlier(s);
    hide Inv;
    ReleaseAllKeepsInv(s);
    ReleaseAllKeepsRequests(s);
    RunKeepsInsertedSince(ReleaseAllStep(s), events, s.nextSerial);
    if ticket in s.flights {
      NextKeepsFlight(s, ReleaseAll, ticket, s.flights[ticket]);
      RunKeepsFlight(ReleaseAllStep(s), events, ticket, s.flights[ticket]);
    }
  }

  lemma FlightsAreEarlier(s: State)
    requires Inv(s)
    ensures forall t | t in s.flights :: s.flights[t].serial < s.nextSerial
    ensures forall t | t in s.flights :: SameFlight(s, t, s.flights[t])
  {
    hide EntriesOk, UrlsOk, PromisesOk, LoadingOk, SettledOk, Bounded;
    forall t | t in s.flights ensures s.flights[t].serial < s.nextSerial && SameFlight(s, t, s.flights[t]) {
      assert FlightOk(s, t, s.flights[t]);
      assert forall i | 0 <= i < |s.queue| :: QueuedOk(s, s.queue[i]);
    }
  }

  /** A stale response is neither delivered nor leaked: its URL is revoked and its callers see an abort. */
  lemma StaleResponseIsDiscarded(s: State, ticket: nat, now: int)
    requires Inv(s) && ticket in s.flights && s.flights[ticket].blob.Some? && !s.IsCurrent(s.flights[ticket])
    ensures var landed := Succeeded(s, ticket, now);
            && landed.cache == s.cache
            && landed.outcomes[ticket] == Aborted
            && landed.revoked[s.flights[ticket].blob.value.url] == 1
  {
    assert InTransit(s, s.flights[ticket].blob.value.url);
    assert Live(s, s.flights[ticket].blob.value.url);
  }
}
