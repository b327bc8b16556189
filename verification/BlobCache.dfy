/**
 The module-level cache as an object: each method is one turn, or one step of a turn, and is proved
 to take exactly the step that `BlobState` describes.

 The ghost field stands for the browser.
 */
module BlobCache {
  import opened Common
  import opened BlobState
  import opened BlobInvariants
  import opened BlobCompletions
  import opened BlobRuns
  import opened BlobRequests

  /** Requests in flight, object URLs made and revoked, promises settled. */
  datatype Browser = Browser(
    flights: map<nat, Flight>,
    nextUrl: nat,
    revoked: multiset<nat>,
    settled: multiset<nat>,
    outcomes: map<nat, Outcome>)
  {
    function Settle(ticket: nat, outcome: Outcome): Browser {
      this.(settled := settled + multiset{ticket}, outcomes := outcomes[ticket := outcome])
    }
  }

  /** Where a caller stands: the URL at once, or a promise to wait for. */
  datatype Access = Now(url: nat) | Later(ticket: nat)

  lemma PumpUnfolds(s: State)
    ensures Pump(s) == if CanPump(s) then Pump(PumpOnce(s)) else s
  {
  }

  lemma AllDecided(s: State)
    ensures Core(s, {}) ==> forall k | 0 <= k < |s.queue| ::
              Decided(Pump(s), s.queue[k], Offered(s, k), Wanted(s, s.queue[k].id))
  {
    hide Core, Pump, Decided, Offered, Wanted;
    if Core(s, {}) {
      forall k | 0 <= k < |s.queue|
        ensures Decided(Pump(s), s.queue[k], Offered(s, k), Wanted(s, s.queue[k].id))
      {
        PumpDecides(s, k);
      }
    }
  }

  lemma AbortAllUnfolds(s: State)
    ensures AbortAll(s) ==
            if s.queue == [] then s else AbortAll(s.(queue := s.queue[1..]).Settle(s.queue[0].ticket, Aborted))
  {
  }

  ghost predicate DistinctUrls(cache: map<Id, Entry>) {
    forall a, b | a in cache && b in cache && cache[a].url.Some? && cache[a].url == cache[b].url :: a == b
  }

  lemma UrlsAreDistinct(s: State)
    requires Inv(s)
    ensures DistinctUrls(s.cache)
  {
  }

  lemma NoUrls()
    ensures UrlsOf(map[]) == {}
  {
  }

  /** Revoking the URL of one more entry: it was not among those already revoked. */
  lemma RevokeNext(cache: map<Id, Entry>, revoked: multiset<nat>, rest: map<Id, Entry>, id: Id)
    requires DistinctUrls(cache) && id in rest && forall a | a in rest :: a in cache && rest[a] == cache[a]
    ensures |rest - {id}| < |rest|
    ensures RevokeUrl(revoked + multiset(UrlsOf(cache) - UrlsOf(rest)), rest[id])
            == revoked + multiset(UrlsOf(cache) - UrlsOf(rest - {id}))
  {
    var less := rest - {id};
    assert less.Keys == rest.Keys - {id};
    if rest[id].url.Some? {
      var u := rest[id].url.value;
      assert u in UrlsOf(rest) && u in UrlsOf(cache) && u !in UrlsOf(less);
      forall v ensures v in UrlsOf(rest) <==> v in UrlsOf(less) || v == u {
        if v in UrlsOf(rest) && v != u {
          var a :| a in rest && rest[a].url == Some(v);
          assert a in less;
        }
      }
      assert UrlsOf(cache) - UrlsOf(less) == (UrlsOf(cache) - UrlsOf(rest)) + {u};
    } else {
      forall v ensures v in UrlsOf(rest) <==> v in UrlsOf(less) {
        if v in UrlsOf(rest) {
          var a :| a in rest && rest[a].url == Some(v);
          assert a in less;
        }
      }
      assert UrlsOf(rest) == UrlsOf(less);
    }
  }

  lemma SlotIsTaken(s: State, ticket: nat)
    requires Inv(s) && ticket in s.flights
    ensures s.active > 0 && EntriesOk(s) && PromisesOk(s) && TasksOk(s, {})
  {
    hide EntriesOk, UrlsOk, PromisesOk, QueueOk, LoadingOk, SettledOk, Bounded, NoLostWakeup;
    assert ticket in s.flights.Keys;
  }

  lemma SuccessTurn(s: State, ticket: nat, now: int)
    requires Inv(s) && ticket in s.flights && s.flights[ticket].blob.Some?
    ensures s.active > 0 && EntriesOk(Succeeded(s, ticket, now))
    ensures Next(s, Succeed(ticket, now)) == Pump(Evict(Succeeded(s, ticket, now)))
    ensures Inv(Pump(Evict(Succeeded(s, ticket, now))))
  {
    hide EntriesOk, Succeeded, Evict, Pump, Inv;
    SlotIsTaken(s, ticket);
    SuccessKeepsEntries(s, ticket, now);
    NextKeepsInv(s, Succeed(ticket, now));
  }

  lemma FailureTurn(s: State, ticket: nat, failure: Failure, now: int)
    requires Inv(s) && ticket in s.flights && s.flights[ticket].blob.None?
    ensures s.active > 0 && EntriesOk(Failing(s, ticket, failure, now))
    ensures Next(s, Fail(ticket, failure, now)) == Pump(Evict(Failing(s, ticket, failure, now)))
    ensures Inv(Pump(Evict(Failing(s, ticket, failure, now))))
  {
    hide EntriesOk, Failing, Evict, Pump, Inv;
    SlotIsTaken(s, ticket);
    FailureKeepsEntries(s, ticket, failure, now);
    NextKeepsInv(s, Fail(ticket, failure, now));
  }

  /** What a caller gets, and what happens to a missing entry before it is loaded. */
  lemma GetPlan(s: State, id: Id, byUser: bool, now: int)
    requires Inv(s)
    ensures Inv(GetStep(s, id, byUser, now))
    ensures id in s.cache ==> (s.cache[id].status.Ready? <==> s.cache[id].url.Some?)
    ensures id in s.cache && s.cache[id].status.Ready? ==> Live(GetStep(s, id, byUser, now), s.cache[id].url.value)
    ensures id !in s.cache ==>
              var inserted := Inserted(s, id, byUser, now);
              && EntriesOk(inserted)
              && id in Evict(inserted).cache && Evict(inserted).cache[id] == inserted.cache[id]
              && Evict(inserted).nextTicket == s.nextTicket
              && GetStep(s, id, byUser, now) == LoadIfNeeded(Evict(inserted), id)
  {
    GetKeepsInv(s, id, byUser, now);
    if id in s.cache {
      GetAnswers(s, id, byUser, now);
    } else {
      InsertKeepsCore(s, id, byUser, now);
      hide Inv;
      EvictKeepsOthers(Inserted(s, id, byUser, now), id);
      EvictKeepsCore(Inserted(s, id, byUser, now), {id});
    }
  }

  /** What an entry lets a caller have: a live URL if ready. */
  lemma GetAnswers(s: State, id: Id, byUser: bool, now: int)
    requires Inv(s) && id in s.cache
    ensures s.cache[id].status.Ready? <==> s.cache[id].url.Some?
    ensures s.cache[id].status.Ready? ==>
              && GetStep(s, id, byUser, now) == Touched(s, id, byUser, now)
              && Live(GetStep(s, id, byUser, now), s.cache[id].url.value)
  {
    assert EntryOk(s, s.cache[id]);
    if s.cache[id].status.Ready? {
      assert Cached(s, s.cache[id].url.value);
      assert Live(s, s.cache[id].url.value);
    }
  }

  class ArtifactBlobCache {
    var cache: map<Id, Entry>
    var refs: map<Id, nat>
    var queue: seq<Task>
    var activeRequests: nat
    var nextSerial: nat
    var nextTicket: nat
    ghost var browser: Browser

    ghost function View(): State
      reads this
    {
      State(cache, refs, queue, activeRequests, browser.flights, nextSerial, nextTicket,
            browser.nextUrl, browser.revoked, browser.settled, browser.outcomes)
    }

    constructor ()
      ensures View() == Empty && Inv(View())
    {
      cache, refs, queue, activeRequests, nextSerial, nextTicket := map[], map[], [], 0, 0, 0;
      browser := Browser(map[], 0, multiset{}, multiset{}, map[]);
    }

    function RefCount(id: Id): (n: nat)
      reads this
      ensures n == View().RefCount(id)
    {
      if id in refs then refs[id] else 0
    }

    method CacheBytes() returns (total: nat)
      ensures total == Bytes(cache)
    {
      total := 0;
      var rest := cache;
      while rest != map[]
        invariant total + Bytes(rest) == Bytes(cache)
        decreases |rest|
      {
        var id :| id in rest;
        BytesRemove(rest, id);
        assert (rest - {id}).Keys == rest.Keys - {id};
        total := total + rest[id].bytes;
        rest := rest - {id};
      }
    }

    /** The least recently used entry that can be revoked safely, if any. */
    method OldestEvictable() returns (oldest: Option<Id>)
      requires EntriesOk(View())
      ensures oldest.Some? ==> IsOldestEvictable(View(), oldest.value)
      ensures oldest.None? ==> forall id :: !Evictable(View(), id)
    {
      oldest := None;
      var ids := cache.Keys;
      while ids != {}
        invariant ids <= cache.Keys
        invariant oldest.Some? ==> Evictable(View(), oldest.value) && oldest.value !in ids
        invariant forall id | id in cache.Keys - ids && Evictable(View(), id) ::
            oldest.Some? && (id == oldest.value || Older(cache[oldest.value], cache[id]))
      {
        var id :| id in ids;
        if cache[id].status.Ready? && RefCount(id) == 0 {
          if oldest.None? || Older(cache[id], cache[oldest.value]) {
            oldest := Some(id);
          }
        }
        ids := ids - {id};
      }
    }

    /** Evict in a loop until back within the bounds. */
    method EvictEntries()
      requires EntriesOk(View())
      modifies this
      ensures View() == Evict(old(View()))
    {
      var bytes := CacheBytes();
      while |cache| > CACHE_MAX_ENTRIES || bytes > CACHE_MAX_BYTES
        invariant EntriesOk(View()) && bytes == Bytes(cache)
        invariant Evict(View()) == Evict(old(View()))
        decreases |cache|
      {
        var victim := OldestEvictable();
        if victim.None? {
          return;
        }
        ghost var before := View();
        var id := victim.value;
        BytesRemove(cache, id);
        EvictTakesOldest(before, id);
        EvictOneKeepsEntries(before, id);
        assert (cache - {id}).Keys == cache.Keys - {id};
        bytes := bytes - cache[id].bytes;
        browser := browser.(revoked := RevokeUrl(browser.revoked, cache[id]));
        cache := cache - {id};
        assert View() == EvictOne(before, id);
      }
    }

    /** Start requests while there are slots; a task that nobody wants any more is aborted when it is its turn. */
    method PumpQueue()
      modifies this
      ensures View() == Pump(old(View()))
      ensures Core(old(View()), {}) ==> forall k | 0 <= k < |old(queue)| ::
                Decided(View(), old(queue)[k], Offered(old(View()), k), Wanted(old(View()), old(queue)[k].id))
    {
      hide Pump, Core, Decided, Offered, Wanted;
      PumpUnfolds(View());
      while activeRequests < MAX_CONCURRENT_REQUESTS && queue != []
        invariant Pump(View()) == Pump(old(View()))
        decreases |queue|
      {
        ghost var before := View();
        PumpUnfolds(before);
        var task := queue[0];
        queue := queue[1..];
        if task.id !in cache || (RefCount(task.id) == 0 && !cache[task.id].requestedByUser) {
          cache := cache - {task.id};
          browser := browser.Settle(task.ticket, Aborted);
          assert Unwanted(before, task.id) && View() == PumpOnce(before);
        } else {
          activeRequests := activeRequests + 1;
          browser := browser.(flights := browser.flights[task.ticket := Flight(task, cache[task.id].serial, None)]);
          assert !Unwanted(before, task.id) && View() == PumpOnce(before);
        }
      }
      PumpUnfolds(View());
      AllDecided(old(View()));
    }

    method QueueRequest(task: Task)
      modifies this
      ensures View() == Pump(old(View()).(queue := Enqueued(old(queue), task)))
    {
      if task.requestedByUser {
        var firstPrefetch := FirstPrefetch(queue);
        queue := queue[..firstPrefetch] + [task] + queue[firstPrefetch..];
      } else {
        assert queue[..|queue|] + [task] + queue[|queue|..] == queue + [task];
        queue := queue + [task];
      }
      PumpQueue();
    }

    method StartLoad(id: Id) returns (ticket: nat)
      requires id in cache
      modifies this
      ensures View() == Pump(LoadQueued(old(View()), id)) && ticket == old(nextTicket)
    {
      ghost var before := View();
      ticket := nextTicket;
      nextTicket := nextTicket + 1;
      cache := cache[id := cache[id].(status := Loading, promise := Some(ticket))];
      assert View().(queue := Enqueued(queue, Task(ticket, id, cache[id].requestedByUser))) == LoadQueued(before, id);
      QueueRequest(Task(ticket, id, cache[id].requestedByUser));
    }

    /** Ready entries answer at once, pending ones share their promise, only the rest start a request. */
    method GetArtifactObjectUrl(id: Id, requestedByUser: bool, now: int) returns (access: Access)
      requires Inv(View())
      modifies this
      ensures View() == GetStep(old(View()), id, requestedByUser, now) && Inv(View())
      ensures access.Now? <==> old(id in cache && cache[id].status.Ready?)
      ensures access.Now? ==> old(cache[id].url) == Some(access.url) && Live(View(), access.url)
      ensures access.Later? ==>
              access.ticket == old(nextTicket) || old(id in cache && cache[id].promise == Some(access.ticket))
    {
      hide Inv, Evict, Pump, LoadQueued, EntriesOk, Live;
      ghost var before := View();
      GetPlan(before, id, requestedByUser, now);
      if id !in cache {
        cache := cache[id := Entry(nextSerial, Loading, None, None, 0, now, requestedByUser)];
        nextSerial := nextSerial + 1;
        assert View() == Inserted(before, id, requestedByUser, now);
        EvictEntries();
      } else {
        var entry := cache[id];
        cache := cache[id := entry.(requestedByUser := entry.requestedByUser || requestedByUser, lastUsed := now)];
        assert View() == Touched(before, id, requestedByUser, now);
      }
      var entry := cache[id];
      if entry.status.Ready? && entry.url.Some? {
        access := Now(entry.url.value);
      } else {
        var ticket;
        if entry.promise.Some? {
          ticket := entry.promise.value;
        } else {
          ticket := StartLoad(id);
        }
        access := Later(ticket);
      }
    }

    /** Into the viewport: count the holder, even before there is an entry. */
    method RetainArtifact(id: Id, now: int)
      requires Inv(View())
      modifies this
      ensures View() == RetainStep(old(View()), id, now) && Inv(View())
    {
      hide Inv;
      RetainKeepsInv(View(), id, now);
      refs := refs[id := RefCount(id) + 1];
      if id in cache {
        cache := cache[id := cache[id].(lastUsed := now)];
      }
    }

    /** Out of the viewport: the entry only becomes evictable. */
    method ReleaseArtifact(id: Id)
      requires Inv(View())
      modifies this
      ensures View() == Evict(Unretained(old(View()), id)) && Inv(View())
    {
      ReleaseKeepsInv(View(), id);
      ghost var before := View();
      UnretainKeepsCore(before, id);
      var count := RefCount(id);
      if count > 0 {
        if count == 1 {
          refs := refs - {id};
        } else {
          refs := refs[id := count - 1];
        }
      }
      assert View() == Unretained(before, id);
      EvictEntries();
    }

    /** The identity changed: revoke everything, abort what is queued; requests in flight go on. */
    method ReleaseEverything()
      requires Inv(View())
      modifies this
      ensures View() == ReleaseAllStep(old(View())) && Inv(View())
    {
      hide Inv, DistinctUrls, AbortAll, UrlsOf;
      ReleaseAllKeepsInv(View());
      UrlsAreDistinct(View());
      RevokeUrls();
      cache, refs := map[], map[];
      ghost var cleared := View();
      while queue != []
        invariant AbortAll(View()) == AbortAll(cleared)
        decreases |queue|
      {
        ghost var s := View();
        var task := queue[0];
        AbortAllUnfolds(s);
        queue := queue[1..];
        browser := browser.Settle(task.ticket, Aborted);
        assert View() == s.(queue := s.queue[1..]).Settle(task.ticket, Aborted);
      }
      AbortAllUnfolds(View());
    }

    /** Revoke the URL of every entry. */
    method RevokeUrls()
      requires DistinctUrls(View().cache)
      modifies this
      ensures View() == old(View()).(revoked := old(browser.revoked) + multiset(UrlsOf(old(cache))))
    {
      ghost var before := View();
      hide DistinctUrls, UrlsOf, RevokeUrl;
      var rest := cache;
      while rest != map[]
        invariant View() == before.(revoked := browser.revoked)
        invariant forall id | id in rest :: id in before.cache && rest[id] == before.cache[id]
        invariant browser.revoked == before.revoked + multiset(UrlsOf(before.cache) - UrlsOf(rest))
        decreases |rest|
      {
        var id :| id in rest;
        RevokeNext(before.cache, before.revoked, rest, id);
        browser := browser.(revoked := RevokeUrl(browser.revoked, rest[id]));
        rest := rest - {id};
      }
      NoUrls();
      assert UrlsOf(before.cache) - {} == UrlsOf(before.cache);
    }

    /** The browser makes an object URL for a response. */
    ghost method ResponseArrives(ticket: nat, bytes: nat)
      requires Inv(View())
      modifies this
      ensures View() == BlobArrivesStep(old(View()), ticket, bytes) && Inv(View())
    {
      ArrivalKeepsInv(View(), ticket, bytes);
      if ticket in browser.flights && browser.flights[ticket].blob.None? {
        browser := browser.(
          flights := browser.flights[ticket := browser.flights[ticket].(blob := Some(Blob(browser.nextUrl, bytes)))],
          nextUrl := browser.nextUrl + 1);
      }
    }

    /** The continuation of a request whose response arrived; `serial` is the entry it was started for. */
    method RequestSucceeded(task: Task, serial: nat, blob: Blob, now: int)
      requires Inv(View())
      requires task.ticket in browser.flights && browser.flights[task.ticket] == Flight(task, serial, Some(blob))
      modifies this
      ensures View() == Next(old(View()), Succeed(task.ticket, now)) && Inv(View())
    {
      hide Inv, Evict, Pump, EntriesOk, Next;
      ghost var after := Succeeded(View(), task.ticket, now);
      SuccessTurn(View(), task.ticket, now);
      if task.id !in cache || cache[task.id].serial != serial {
        browser := browser.(revoked := browser.revoked + multiset{blob.url}).Settle(task.ticket, Aborted);
      } else {
        cache := cache[task.id :=
            cache[task.id].(status := Ready, url := Some(blob.url), bytes := blob.bytes, lastUsed := now)];
        browser := browser.Settle(task.ticket, Resolved(blob.url));
      }
      browser := browser.(flights := browser.flights - {task.ticket});
      activeRequests := activeRequests - 1;
      assert View() == after;
      EvictEntries();
      PumpQueue();
    }

    /** The continuation of a request that failed for good. */
    method RequestFailed(task: Task, serial: nat, failure: Failure, now: int)
      requires Inv(View())
      requires task.ticket in browser.flights && browser.flights[task.ticket] == Flight(task, serial, None)
      modifies this
      ensures View() == Next(old(View()), Fail(task.ticket, failure, now)) && Inv(View())
    {
      hide Inv, Evict, Pump, EntriesOk, Next;
      ghost var after := Failing(View(), task.ticket, failure, now);
      FailureTurn(View(), task.ticket, failure, now);
      if task.id in cache && cache[task.id].serial == serial {
        var entry := cache[task.id];
        cache := cache[task.id :=
          entry.(status := Failed, promise := if failure.Unavailable? then entry.promise else None, lastUsed := now)];
      }
      browser := browser.Settle(task.ticket, Rejected(failure));
      browser := browser.(flights := browser.flights - {task.ticket});
      activeRequests := activeRequests - 1;
      assert View() == after;
      EvictEntries();
      PumpQueue();
    }
  }
}
