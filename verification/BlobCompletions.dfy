/** Requests coming back and the cache being cleared: the turns that race with each other. */
module BlobCompletions {
  import opened Common
  import opened BlobState
  import opened BlobInvariants

  // ---------------------------------------------------------------------------------------------
  // A response arrives
  // ---------------------------------------------------------------------------------------------

  lemma ArrivalKeepsUrls(s: State, ticket: nat, bytes: nat)
    requires EntriesOk(s) && UrlsOk(s) && ticket in s.flights && s.flights[ticket].blob.None?
    ensures UrlsOk(BlobArrivesStep(s, ticket, bytes))
  {
    var s' := BlobArrivesStep(s, ticket, bytes);
    assert s'.flights[ticket].blob == Some(Blob(s.nextUrl, bytes));
    forall v: nat ensures Cached(s', v) <==> Cached(s, v) {
    }
    forall v: nat ensures InTransit(s', v) <==> InTransit(s, v) || v == s.nextUrl {
      if InTransit(s, v) {
        var t :| t in s.flights && s.flights[t].blob.Some? && s.flights[t].blob.value.url == v;
        assert s'.flights[t] == s.flights[t];
      }
    }
    assert !Live(s, s.nextUrl);
    forall t, r | t in s'.flights && r in s'.flights && s'.flights[t].blob.Some? && s'.flights[r].blob.Some?
                  && s'.flights[t].blob.value.url == s'.flights[r].blob.value.url ensures t == r
    {
      assert t != ticket ==> InTransit(s, s'.flights[t].blob.value.url);
      assert r != ticket ==> InTransit(s, s'.flights[r].blob.value.url);
    }
  }

  lemma ArrivalKeepsTasks(s: State, ticket: nat, bytes: nat)
    requires TasksOk(s, {}) && ticket in s.flights && s.flights[ticket].blob.None?
    ensures TasksOk(BlobArrivesStep(s, ticket, bytes), {})
  {
    var s' := BlobArrivesStep(s, ticket, bytes);
    assert s'.flights.Keys == s.flights.Keys;
    forall i | 0 <= i < |s.queue| ensures QueuedOk(s', s.queue[i]) {
      assert QueuedOk(s, s.queue[i]);
    }
    forall t | t in s'.flights ensures FlightOk(s', t, s'.flights[t]) {
      assert FlightOk(s, t, s.flights[t]);
    }
    forall a | a in s.cache && s.cache[a].status.Loading? ensures HasTask(s', a, s.cache[a].promise.value) {
      assert HasTask(s, a, s.cache[a].promise.value);
    }
    forall t: nat ensures Pending(s', t) <==> Pending(s, t) {
    }
  }

  lemma ArrivalKeepsEntries(s: State, ticket: nat, bytes: nat)
    requires EntriesOk(s) && PromisesOk(s)
    ensures EntriesOk(BlobArrivesStep(s, ticket, bytes)) && PromisesOk(BlobArrivesStep(s, ticket, bytes))
  {
    var s' := BlobArrivesStep(s, ticket, bytes);
    forall a | a in s.cache ensures EntryOk(s', s.cache[a]) && PromiseOk(s', s.cache[a]) {
      assert EntryOk(s, s.cache[a]) && PromiseOk(s, s.cache[a]);
    }
  }

  lemma ArrivalKeepsInv(s: State, ticket: nat, bytes: nat)
    requires Inv(s)
    ensures Inv(BlobArrivesStep(s, ticket, bytes))
  {
    if ticket in s.flights && s.flights[ticket].blob.None? {
      ArrivalKeepsEntries(s, ticket, bytes);
      hide TasksOk, UrlsOk, EntriesOk, PromisesOk, OverBound;
      ArrivalKeepsUrls(s, ticket, bytes);
      ArrivalKeepsTasks(s, ticket, bytes);
    }
  }

  // ---------------------------------------------------------------------------------------------
  // A request completes
  // ---------------------------------------------------------------------------------------------

  /** The entry a request was started for is not waited for by anyone else. */
  lemma OneTaskPerEntry(s: State, ticket: nat)
    requires TasksOk(s, {}) && ticket in s.flights && s.IsCurrent(s.flights[ticket])
    ensures var id := s.flights[ticket].task.id;
            && LoadsOn(s, id, ticket)
            && (forall i | 0 <= i < |s.queue| :: s.queue[i].id != id)
            && (forall t | t in s.flights && t != ticket && s.flights[t].task.id == id :: !s.IsCurrent(s.flights[t]))
  {
    var id := s.flights[ticket].task.id;
    assert FlightOk(s, ticket, s.flights[ticket]);
    forall i | 0 <= i < |s.queue| ensures s.queue[i].id != id {
      assert QueuedOk(s, s.queue[i]);
    }
    forall t | t in s.flights && t != ticket && s.flights[t].task.id == id ensures !s.IsCurrent(s.flights[t]) {
      assert FlightOk(s, t, s.flights[t]);
    }
  }

  /** A request leaves flight: its entry, if still cached, is no longer loading; its promise is settled. */
  ghost predicate Lands(s: State, s': State, ticket: nat) {
    && ticket in s.flights
    && s'.queue == s.queue && s'.nextTicket == s.nextTicket && s'.nextSerial == s.nextSerial && s'.refs == s.refs
    && s'.flights == s.flights - {ticket}
    && s'.active == FreeSlot(s.active)
    && s'.settled == s.settled + multiset{ticket}
    && s'.outcomes.Keys == s.outcomes.Keys + {ticket}
    && (forall t | t in s.outcomes && t != ticket :: s'.outcomes[t] == s.outcomes[t])
    && s'.cache.Keys == s.cache.Keys
    && (forall a | a in s.cache && a != s.flights[ticket].task.id :: s'.cache[a] == s.cache[a])
    && var id := s.flights[ticket].task.id;
       if s.IsCurrent(s.flights[ticket]) then
         !s'.cache[id].status.Loading? && s'.cache[id].serial == s.cache[id].serial
       else id in s.cache ==> s'.cache[id] == s.cache[id]
  }

  lemma LandingKeepsQueue(s: State, s': State, ticket: nat)
    requires TasksOk(s, {}) && Lands(s, s', ticket)
    ensures QueueOk(s')
  {
    if s.IsCurrent(s.flights[ticket]) {
      OneTaskPerEntry(s, ticket);
    }
    forall i | 0 <= i < |s'.queue| ensures QueuedOk(s', s'.queue[i]) {
      assert QueuedOk(s, s.queue[i]);
    }
  }

  lemma FlightsShrink(flights: map<nat, Flight>, ticket: nat)
    requires ticket in flights
    ensures |flights - {ticket}| == |flights| - 1
  {
    assert (flights - {ticket}).Keys == flights.Keys - {ticket};
  }

  lemma LandingKeepsFlight(s: State, s': State, ticket: nat, t: nat)
    requires TasksOk(s, {}) && Lands(s, s', ticket) && t in s'.flights
    ensures FlightOk(s', t, s'.flights[t])
  {
    if s.IsCurrent(s.flights[ticket]) {
      OneTaskPerEntry(s, ticket);
    }
    assert FlightOk(s, t, s.flights[t]);
    hide QueueOk, LoadingOk, SettledOk, FlightsOk;
  }

  lemma LandingKeepsFlights(s: State, s': State, ticket: nat)
    requires TasksOk(s, {}) && Lands(s, s', ticket)
    ensures FlightsOk(s')
  {
    hide QueueOk, LoadingOk, SettledOk, FlightOk;
    FlightsShrink(s.flights, ticket);
    forall t | t in s'.flights ensures FlightOk(s', t, s'.flights[t]) {
      LandingKeepsFlight(s, s', ticket, t);
    }
  }

  lemma LandingKeepsLoading(s: State, s': State, ticket: nat)
    requires TasksOk(s, {}) && Lands(s, s', ticket)
    ensures LoadingOk(s', {})
  {
    hide QueueOk, SettledOk;
    forall a | a in s'.cache && s'.cache[a].status.Loading?
      ensures s'.cache[a].promise.Some? && HasTask(s', a, s'.cache[a].promise.value)
    {
      assert s'.cache[a] == s.cache[a];
      var t := s.cache[a].promise.value;
      assert HasTask(s, a, t);
      assert FlightOk(s, ticket, s.flights[ticket]);
    }
  }

  lemma LandingKeepsSettled(s: State, s': State, ticket: nat)
    requires TasksOk(s, {}) && Lands(s, s', ticket)
    ensures SettledOk(s')
  {
    assert FlightOk(s, ticket, s.flights[ticket]);
    forall i | 0 <= i < |s.queue| ensures s.queue[i].ticket != ticket {
      assert QueuedOk(s, s.queue[i]);
    }
    forall t: nat ensures Pending(s', t) <==> Pending(s, t) && t != ticket {
    }
  }

  lemma LandingKeepsTasks(s: State, s': State, ticket: nat)
    requires TasksOk(s, {}) && Lands(s, s', ticket)
    ensures TasksOk(s', {})
  {
    LandingKeepsQueue(s, s', ticket);
    LandingKeepsFlights(s, s', ticket);
    LandingKeepsLoading(s, s', ticket);
    LandingKeepsSettled(s, s', ticket);
  }

  lemma LandingKeepsPromises(s: State, s': State, ticket: nat)
    requires TasksOk(s, {}) && PromisesOk(s) && Lands(s, s', ticket)
    requires s.IsCurrent(s.flights[ticket]) ==> PromiseOk(s', s'.cache[s.flights[ticket].task.id])
    ensures PromisesOk(s')
  {
    assert Pending(s, ticket) && ticket !in s.outcomes;
    hide TasksOk;
    forall a | a in s'.cache ensures PromiseOk(s', s'.cache[a]) {
      assert PromiseOk(s, s.cache[a]);
    }
  }

  lemma SuccessLands(s: State, ticket: nat, now: int)
    requires ticket in s.flights && s.flights[ticket].blob.Some?
    ensures Lands(s, Succeeded(s, ticket, now), ticket)
  {
  }

  lemma FailureLands(s: State, ticket: nat, failure: Failure, now: int)
    requires ticket in s.flights
    ensures Lands(s, Failing(s, ticket, failure, now), ticket)
  {
  }

  lemma SuccessMovesUrl(s: State, ticket: nat, now: int)
    requires EntriesOk(s) && UrlsOk(s) && TasksOk(s, {}) && ticket in s.flights && s.flights[ticket].blob.Some?
    ensures var f, s' := s.flights[ticket], Succeeded(s, ticket, now);
            var u := f.blob.value.url;
            && InTransit(s, u)
            && (s.IsCurrent(f) ==> s.cache[f.task.id].url.None?)
            && (forall v: nat :: Cached(s', v) <==> Cached(s, v) || (v == u && s.IsCurrent(f)))
            && (forall v: nat :: InTransit(s', v) <==> InTransit(s, v) && v != u)
  {
    var f, s' := s.flights[ticket], Succeeded(s, ticket, now);
    var u, id := f.blob.value.url, f.task.id;
    assert InTransit(s, u);
    if s.IsCurrent(f) {
      OneTaskPerEntry(s, ticket);
      assert EntryOk(s, s.cache[id]);
      assert s'.cache[id].url == Some(u);
    }
    hide TasksOk, EntriesOk;
    forall v: nat ensures Cached(s', v) <==> Cached(s, v) || (v == u && s.IsCurrent(f)) {
      if Cached(s, v) {
        var a :| a in s.cache && s.cache[a].url == Some(v);
        assert s'.cache[a] == s.cache[a];
      }
    }
    forall v: nat ensures InTransit(s', v) <==> InTransit(s, v) && v != u {
      if InTransit(s, v) && v != u {
        var t :| t in s.flights && s.flights[t].blob.Some? && s.flights[t].blob.value.url == v;
        assert t in s'.flights;
      }
    }
  }

  /** The URL in transit moves to the entry it was loaded for, or is revoked if that entry is gone. */
  lemma SuccessKeepsUrls(s: State, ticket: nat, now: int)
    requires EntriesOk(s) && UrlsOk(s) && TasksOk(s, {}) && ticket in s.flights && s.flights[ticket].blob.Some?
    ensures UrlsOk(Succeeded(s, ticket, now))
  {
    var f, s' := s.flights[ticket], Succeeded(s, ticket, now);
    SuccessMovesUrl(s, ticket, now);
    hide TasksOk, EntriesOk;
    forall a, b | a in s'.cache && b in s'.cache && s'.cache[a].url.Some? && s'.cache[a].url == s'.cache[b].url
      ensures a == b
    {
      assert !(a == f.task.id && s.IsCurrent(f)) ==> Cached(s, s'.cache[a].url.value);
      assert !(b == f.task.id && s.IsCurrent(f)) ==> Cached(s, s'.cache[b].url.value);
    }
  }

  /** A request fails before its response became a URL, so URLs do not change hands. */
  lemma FailureKeepsUrls(s: State, ticket: nat, failure: Failure, now: int)
    requires EntriesOk(s) && UrlsOk(s) && ticket in s.flights && s.flights[ticket].blob.None?
    ensures UrlsOk(Failing(s, ticket, failure, now))
  {
    var s' := Failing(s, ticket, failure, now);
    forall v: nat ensures Cached(s', v) <==> Cached(s, v) {
      if Cached(s, v) {
        var a :| a in s.cache && s.cache[a].url == Some(v);
        assert a in s'.cache && s'.cache[a].url == Some(v);
      }
    }
    forall v: nat ensures InTransit(s', v) <==> InTransit(s, v) {
      if InTransit(s, v) {
        var t :| t in s.flights && s.flights[t].blob.Some? && s.flights[t].blob.value.url == v;
        assert t in s'.flights;
      }
    }
  }

  lemma SuccessKeepsEntries(s: State, ticket: nat, now: int)
    requires EntriesOk(s) && ticket in s.flights && s.flights[ticket].blob.Some?
    ensures EntriesOk(Succeeded(s, ticket, now))
  {
    var f, s' := s.flights[ticket], Succeeded(s, ticket, now);
    if s.IsCurrent(f) {
      assert EntryOk(s, s.cache[f.task.id]);
      EntryUpdateKeepsEntries(s, s', f.task.id, s'.cache[f.task.id]);
    } else {
      forall a | a in s.cache ensures EntryOk(s', s.cache[a]) {
        assert EntryOk(s, s.cache[a]);
      }
    }
  }

  lemma FailureKeepsEntries(s: State, ticket: nat, failure: Failure, now: int)
    requires EntriesOk(s) && TasksOk(s, {}) && ticket in s.flights
    ensures EntriesOk(Failing(s, ticket, failure, now))
  {
    var f, s' := s.flights[ticket], Failing(s, ticket, failure, now);
    if s.IsCurrent(f) {
      OneTaskPerEntry(s, ticket);
      assert EntryOk(s, s.cache[f.task.id]);
      hide TasksOk;
      EntryUpdateKeepsEntries(s, s', f.task.id, s'.cache[f.task.id]);
    } else {
      forall a | a in s.cache ensures EntryOk(s', s.cache[a]) {
        assert EntryOk(s, s.cache[a]);
      }
    }
  }

  lemma SuccessKeepsCore(s: State, ticket: nat, now: int)
    requires Core(s, {}) && ticket in s.flights && s.flights[ticket].blob.Some?
    ensures Core(Succeeded(s, ticket, now), {})
  {
    var s' := Succeeded(s, ticket, now);
    if s.IsCurrent(s.flights[ticket]) {
      OneTaskPerEntry(s, ticket);
    }
    SuccessLands(s, ticket, now);
    hide TasksOk, UrlsOk, EntriesOk, PromisesOk, Lands;
    LandingKeepsTasks(s, s', ticket);
    SuccessKeepsUrls(s, ticket, now);
    SuccessKeepsEntries(s, ticket, now);
    LandingKeepsPromises(s, s', ticket);
  }

  lemma FailureKeepsCore(s: State, ticket: nat, failure: Failure, now: int)
    requires Core(s, {}) && ticket in s.flights && s.flights[ticket].blob.None?
    ensures Core(Failing(s, ticket, failure, now), {})
  {
    var s' := Failing(s, ticket, failure, now);
    if s.IsCurrent(s.flights[ticket]) {
      OneTaskPerEntry(s, ticket);
    }
    FailureLands(s, ticket, failure, now);
    hide TasksOk, UrlsOk, EntriesOk, PromisesOk, Lands;
    LandingKeepsTasks(s, s', ticket);
    FailureKeepsUrls(s, ticket, failure, now);
    FailureKeepsEntries(s, ticket, failure, now);
    LandingKeepsPromises(s, s', ticket);
  }

  lemma CompletionKeepsInv(s: State)
    requires Core(s, {})
    ensures Inv(Pump(Evict(s)))
  {
    hide Core, Bounded;
    EvictKeepsCore(s, {});
    PumpKeepsInv(Evict(s));
  }

  // ---------------------------------------------------------------------------------------------
  // The cache is cleared
  // ---------------------------------------------------------------------------------------------

  /** Every queued task, and no other, is settled, and the queue is empty. */
  lemma {:induction false} AbortAllSettlesQueue(s: State)
    requires forall i, j | 0 <= i < j < |s.queue| :: s.queue[i].ticket != s.queue[j].ticket
    ensures AbortAll(s) == s.(queue := [], settled := AbortAll(s).settled, outcomes := AbortAll(s).outcomes)
    ensures forall t: nat :: AbortAll(s).settled[t] == s.settled[t] + if Queued(s.queue, t) then 1 else 0
    ensures forall t: nat :: t in AbortAll(s).outcomes <==> t in s.outcomes || Queued(s.queue, t)
    decreases |s.queue|
  {
    if s.queue != [] {
      var s' := s.(queue := s.queue[1..]).Settle(s.queue[0].ticket, Aborted);
      AbortAllSettlesQueue(s');
      forall t: nat ensures Queued(s.queue, t) <==> Queued(s'.queue, t) || t == s.queue[0].ticket {
        QueuedTail(s.queue, t);
      }
      assert Queued(s.queue, s.queue[0].ticket);
      QueuedTail(s.queue, s.queue[0].ticket);
    }
  }

  /** Clearing revokes every cached URL and aborts every queued task; requests in flight go on. */
  lemma ReleaseAllKeepsInv(s: State)
    requires Inv(s)
    ensures Inv(ReleaseAllStep(s))
    ensures ReleaseAllStep(s).cache == map[] && ReleaseAllStep(s).refs == map[] && ReleaseAllStep(s).queue == []
    ensures ReleaseAllStep(s).flights == s.flights
  {
    var cleared := s.(cache := map[], refs := map[], revoked := s.revoked + multiset(UrlsOf(s.cache)));
    var s' := ReleaseAllStep(s);
    AbortAllSettlesQueue(cleared);
    ClearKeepsUrls(s, s');
    forall t | t in s'.flights ensures FlightOk(s', t, s'.flights[t]) {
      assert FlightOk(s, t, s.flights[t]);
    }
    ClearSettles(s, s');
  }

  lemma ClearKeepsUrls(s: State, s': State)
    requires UrlsOk(s) && s'.cache == map[] && s'.flights == s.flights && s'.nextUrl == s.nextUrl
    requires s'.revoked == s.revoked + multiset(UrlsOf(s.cache))
    ensures UrlsOk(s')
  {
    forall u: nat ensures s'.revoked[u] == s.revoked[u] + if Cached(s, u) then 1 else 0 {
      assert u in UrlsOf(s.cache) <==> Cached(s, u);
    }
    forall u: nat ensures !Cached(s', u) && (InTransit(s', u) <==> InTransit(s, u)) {
    }
  }

  lemma ClearSettles(s: State, s': State)
    requires QueueOk(s) && SettledOk(s) && s'.queue == [] && s'.flights == s.flights && s'.nextTicket == s.nextTicket
    requires forall t: nat :: s'.settled[t] == s.settled[t] + if Queued(s.queue, t) then 1 else 0
    requires forall t: nat :: t in s'.outcomes <==> t in s.outcomes || Queued(s.queue, t)
    ensures SettledOk(s')
  {
    forall i | 0 <= i < |s.queue| ensures s.queue[i].ticket < s.nextTicket && s.queue[i].ticket !in s.flights {
      assert QueuedOk(s, s.queue[i]);
    }
    forall t: nat ensures Pending(s', t) <==> Pending(s, t) && !Queued(s.queue, t) {
    }
  }
}
