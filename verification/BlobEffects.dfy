/** What each turn of the blob cache does to holders, promises and the cached bytes, field by field. */
module BlobEffects {
  import opened Common
  import opened BlobState
  import opened BlobInvariants
  import opened BlobCompletions
  import opened BlobRuns
  import opened BlobRequests

  // ---------------------------------------------------------------------------------------------
  // Holders
  // ---------------------------------------------------------------------------------------------

  /** How many hold the artifact. */
  ghost function Holders(s: State, id: Id): nat {
    if id in s.refs then s.refs[id] else 0
  }

  ghost function HoldersAfter(holders: nat, e: Event, id: Id): nat {
    if e == ReleaseAll then 0
    else if e.Retain? && e.id == id then holders + 1
    else if e == Release(id) && holders > 0 then holders - 1
    else holders
  }

  /** Holders are counted by retains and releases alone, whether or not there is an entry. */
  lemma HoldersInTurn(s: State, e: Event, id: Id)
    requires Inv(s)
    ensures Holders(Next(s, e), id) == HoldersAfter(Holders(s, id), e, id)
    ensures id in Next(s, e).refs <==> Holders(Next(s, e), id) > 0
  {
    NextKeepsInv(s, e);
    assert RefsOk(Next(s, e));
    if e == ReleaseAll {
      ReleaseAllEmpties(s);
    } else if Pumps(s, e) {
      hide Inv, AtPump, Pump, Next;
      TurnIsPump(s, e);
      PumpKeepsRefs(AtPump(s, e));
    } else {
      QuietHolders(s, e, id);
    }
  }

  lemma QuietHolders(s: State, e: Event, id: Id)
    requires Inv(s) && e != ReleaseAll && !Pumps(s, e)
    ensures Holders(Next(s, e), id) == HoldersAfter(Holders(s, id), e, id)
  {
    hide Inv, Evict, Pump, LoadQueued;
    match e
    case Get(other, byUser, now) =>
      assert Next(s, e).refs == s.refs by { QuietGet(s, other, byUser, now); }
    case Release(other) => EvictKeepsRefs(Unretained(s, other));
    case _ =>
  }

  lemma QuietGet(s: State, id: Id, byUser: bool, now: int)
    requires !NeedsLoad(s, id)
    ensures GetStep(s, id, byUser, now).refs == s.refs
  {
  }

  // ---------------------------------------------------------------------------------------------
  // Promises
  // ---------------------------------------------------------------------------------------------

  /** A new promise is handed out only for an artifact without an entry, or whose entry has no promise. */
  lemma PromisesAreShared(s: State, e: Event)
    requires Inv(s)
    ensures Next(s, e).nextTicket ==
            s.nextTicket + if e.Get? && (e.id !in s.cache || s.cache[e.id].promise.None?) then 1 else 0
  {
    if e == ReleaseAll {
      ReleaseAllKeepsRequests(s);
    } else {
      hide Inv, AtPump, Pump, Next;
      TurnIsPump(s, e);
      PumpKeepsTickets(AtPump(s, e));
    }
  }

  lemma {:induction false} PumpKeepsTickets(s: State)
    ensures Pump(s).nextTicket == s.nextTicket
    decreases |s.queue|
  {
    if CanPump(s) {
      PumpKeepsTickets(PumpOnce(s));
    }
  }

  ghost predicate Reported(s: State, ticket: nat, outcome: Outcome) {
    ticket !in s.flights && s.settled[ticket] == 1 && ticket in s.outcomes && s.outcomes[ticket] == outcome
  }

  /** Callers who wait on a request get the URL of its response, or an abort if the entry is not the one the request
      was started for. */
  lemma SuccessIsReported(s: State, ticket: nat, now: int)
    requires Inv(s) && ticket in s.flights && s.flights[ticket].blob.Some?
    ensures var f := s.flights[ticket];
            var current := f.task.id in s.cache && s.cache[f.task.id].serial == f.serial;
            Reported(Next(s, Succeed(ticket, now)), ticket, if current then Resolved(f.blob.value.url) else Aborted)
  {
    hide Inv, Core, Evict, Pump, Queued, Bounded, NoLostWakeup, RefsOk;
    InvIsCore(s);
    NotQueuedInFlight(s, ticket);
    RestOfTurn(Succeeded(s, ticket, now), ticket);
  }

  /** Callers who wait on a request that fails get its failure. */
  lemma FailureIsReported(s: State, ticket: nat, failure: Failure, now: int)
    requires Inv(s) && ticket in s.flights && s.flights[ticket].blob.None?
    ensures Reported(Next(s, Fail(ticket, failure, now)), ticket, Rejected(failure))
  {
    hide Inv, Core, Evict, Pump, Queued, Bounded, NoLostWakeup, RefsOk;
    InvIsCore(s);
    NotQueuedInFlight(s, ticket);
    RestOfTurn(Failing(s, ticket, failure, now), ticket);
  }

  /** Eviction and pump do nothing to a request that has landed. */
  lemma RestOfTurn(s: State, ticket: nat)
    requires !Queued(s.queue, ticket) && ticket !in s.flights && ticket in s.outcomes
    ensures var s' := Pump(Evict(s));
            && ticket !in s'.flights && s'.settled[ticket] == s.settled[ticket]
            && ticket in s'.outcomes && s'.outcomes[ticket] == s.outcomes[ticket]
  {
    hide Evict, Pump, Queued;
    EvictKeepsPromises(s);
    PumpLeavesOthers(Evict(s), ticket);
  }

  lemma NotQueuedInFlight(s: State, ticket: nat)
    requires Core(s, {}) && ticket in s.flights
    ensures !Queued(s.queue, ticket) && s.settled[ticket] == 0
  {
    forall i | 0 <= i < |s.queue| ensures s.queue[i].ticket != ticket {
      assert QueuedOk(s, s.queue[i]);
    }
    assert Pending(s, ticket);
  }

  lemma {:induction false} EvictKeepsPromises(s: State)
    ensures Evict(s).queue == s.queue && Evict(s).flights == s.flights
    ensures Evict(s).settled == s.settled && Evict(s).outcomes == s.outcomes
    decreases |s.cache|
  {
    if OverBound(s.cache) && exists v :: IsOldestEvictable(s, v) {
      var v :| IsOldestEvictable(s, v) && Evict(s) == Evict(EvictOne(s, v));
      assert (s.cache - {v}).Keys == s.cache.Keys - {v};
      EvictKeepsPromises(EvictOne(s, v));
    }
  }

  /** A response gets an object URL of its own; nothing else changes until its continuation runs. */
  lemma ArrivalRecordsBlob(s: State, ticket: nat, bytes: nat)
    requires ticket in s.flights && s.flights[ticket].blob.None?
    ensures var s' := Next(s, BlobArrives(ticket, bytes));
            && s'.flights.Keys == s.flights.Keys
            && s'.flights[ticket].blob == Some(Blob(s.nextUrl, bytes))
            && s'.flights[ticket].task == s.flights[ticket].task
            && s'.flights[ticket].serial == s.flights[ticket].serial
            && (forall t | t in s.flights && t != ticket :: s'.flights[t] == s.flights[t])
            && s'.nextUrl == s.nextUrl + 1 && s'.cache == s.cache && s'.queue == s.queue
  {
    hide Evict, Pump;
  }

  /** Clearing the cache aborts whatever waits in the queue; requests in flight go on, and keep their slots. */
  lemma ClearingAbortsQueue(s: State)
    requires Inv(s)
    ensures var s' := Next(s, ReleaseAll);
            && s'.cache == map[] && s'.refs == map[] && s'.queue == []
            && s'.flights == s.flights && s'.active == s.active
            && (forall i | 0 <= i < |s.queue| ::
                  s.queue[i].ticket in s'.outcomes && s'.outcomes[s.queue[i].ticket] == Aborted)
            && (forall i | 0 <= i < |s.queue| :: s'.settled[s.queue[i].ticket] == 1)
  {
    var cleared := s.(cache := map[], refs := map[], revoked := s.revoked + multiset(UrlsOf(s.cache)));
    AbortAllAborts(cleared);
    ReleaseAllKeepsRequests(s);
    ReleaseAllEmpties(s);
    ReleaseAllKeepsInv(s);
    var s' := ReleaseAllStep(s);
    forall i | 0 <= i < |s.queue| ensures s'.settled[s.queue[i].ticket] == 1 {
      assert QueuedOk(s, s.queue[i]);
      assert !Pending(s', s.queue[i].ticket);
    }
  }

  lemma {:induction false} AbortAllAborts(s: State)
    ensures AbortAll(s).active == s.active
    ensures forall t | t in s.outcomes && s.outcomes[t] == Aborted ::
              t in AbortAll(s).outcomes && AbortAll(s).outcomes[t] == Aborted
    ensures forall i | 0 <= i < |s.queue| ::
              s.queue[i].ticket in AbortAll(s).outcomes && AbortAll(s).outcomes[s.queue[i].ticket] == Aborted
    decreases |s.queue|
  {
    if s.queue != [] {
      var s1 := s.(queue := s.queue[1..]).Settle(s.queue[0].ticket, Aborted);
      AbortAllAborts(s1);
      assert forall i | 0 < i < |s.queue| :: s.queue[i] == s1.queue[i - 1];
      assert s1.outcomes[s.queue[0].ticket] == Aborted;
    }
  }

  // ---------------------------------------------------------------------------------------------
  // Eviction
  // ---------------------------------------------------------------------------------------------

  /** Nobody holds it and it can be revoked. */
  ghost predicate Idle(s: State, id: Id) {
    id in s.cache && s.cache[id].status == Ready && Holders(s, id) == 0
  }

  /** Used less recently; of entries last used at the same reading, inserted first. */
  ghost predicate UsedBefore(a: Entry, b: Entry) {
    a.lastUsed < b.lastUsed || (a.lastUsed == b.lastUsed && a.serial < b.serial)
  }

  /** Within 40 entries and 64 MB nothing is evicted; otherwise the idle entries go that were used least recently,
      until the cache is back within its bounds or holds no idle entry. */
  lemma EvictionOrder(s: State)
    requires EntriesOk(s)
    ensures |s.cache| <= 40 && Bytes(s.cache) <= 67_108_864 ==> Evict(s) == s
    ensures forall id | id in Evict(s).cache :: id in s.cache && Evict(s).cache[id] == s.cache[id]
    ensures forall id | id in s.cache && id !in Evict(s).cache :: Idle(s, id)
    ensures forall a, b | a in s.cache && a !in Evict(s).cache && b in Evict(s).cache && Idle(s, b) ::
              UsedBefore(s.cache[a], s.cache[b])
    ensures (|Evict(s).cache| <= 40 && Bytes(Evict(s).cache) <= 67_108_864)
            || forall id | id in Evict(s).cache :: !Idle(s, id)
  {
    EvictKeepsUrls(s);
    EvictStops(s);
    forall id | id in s.cache && id !in Evict(s).cache ensures Idle(s, id) {
      EvictExactly(s, id);
    }
    forall a, b | a in s.cache && a !in Evict(s).cache && b in Evict(s).cache && Idle(s, b)
      ensures UsedBefore(s.cache[a], s.cache[b])
    {
      EvictionPrefers(s, a, b);
    }
  }

  lemma EvictionPrefers(s: State, a: Id, b: Id)
    requires EntriesOk(s) && a in s.cache && a !in Evict(s).cache && b in Evict(s).cache && Idle(s, b)
    ensures UsedBefore(s.cache[a], s.cache[b])
  {
    EvictKeepsUrls(s);
    hide Evict, OverBound;
    EvictExactly(s, a);
    EvictExactly(s, b);
    if Older(s.cache[b], s.cache[a]) {
      assert PartOf(WithoutOlder(s, a), WithoutOlder(s, b));
      FewerStayInBound(WithoutOlder(s, a), WithoutOlder(s, b));
    }
  }

  lemma FewerStayInBound(small: map<Id, Entry>, large: map<Id, Entry>)
    requires PartOf(small, large)
    ensures OverBound(small) ==> OverBound(large)
  {
    BytesSubset(small, large);
  }

  lemma EvictStops(s: State)
    requires EntriesOk(s)
    ensures |s.cache| <= 40 && Bytes(s.cache) <= 67_108_864 ==> Evict(s) == s
    ensures (|Evict(s).cache| <= 40 && Bytes(Evict(s).cache) <= 67_108_864)
            || forall id | id in Evict(s).cache :: !Idle(s, id)
  {
    EvictEnds(s);
    EvictKeepsRefs(s);
    EvictKeepsUrls(s);
    NothingToEvict(s);
    hide Evict;
    assert forall id | id in Evict(s).cache && Idle(s, id) :: Evictable(Evict(s), id);
  }

  lemma NothingToEvict(s: State)
    ensures |s.cache| <= 40 && Bytes(s.cache) <= 67_108_864 ==> Evict(s) == s
  {
  }

  ghost predicate Ended(s: State) {
    !OverBound(s.cache) || forall id :: !Evictable(s, id)
  }

  lemma {:induction false} EvictEnds(s: State)
    requires EntriesOk(s)
    ensures Ended(Evict(s))
    decreases |s.cache|
  {
    hide OverBound, EntriesOk, Ended;
    if OverBound(s.cache) && exists v :: IsOldestEvictable(s, v) {
      var v :| IsOldestEvictable(s, v) && Evict(s) == Evict(EvictOne(s, v));
      assert (s.cache - {v}).Keys == s.cache.Keys - {v};
      EvictOneKeepsEntries(s, v);
      EvictEnds(EvictOne(s, v));
    } else {
      NoneLeft(s);
    }
  }

  lemma NoneLeft(s: State)
    requires EntriesOk(s) && !(OverBound(s.cache) && exists v :: IsOldestEvictable(s, v))
    ensures Ended(s)
  {
    hide EntriesOk, OverBound;
    OldestOrNone(s);
  }
}
