/**
 Which requests the pump starts and which it drops, told from who holds the artifacts and what the callers asked
 for, over whole runs.
 */
module BlobRequests {
  import opened Common
  import opened BlobState
  import opened BlobInvariants
  import opened BlobCompletions
  import opened BlobRuns

  // ---------------------------------------------------------------------------------------------
  // What the pump decides
  // ---------------------------------------------------------------------------------------------

  /** Somebody holds the artifact, or its entry says that a user asked for it. */
  ghost predicate Wanted(s: State, id: Id) {
    id in s.refs || (id in s.cache && s.cache[id].requestedByUser)
  }

  ghost function WantedBefore(s: State, k: nat): nat
    requires k <= |s.queue|
  {
    if k == 0 then 0 else WantedBefore(s, k - 1) + if Wanted(s, s.queue[k - 1].id) then 1 else 0
  }

  /** There is a slot for task number `k`, once the wanted ones before it are started. */
  ghost predicate Offered(s: State, k: nat)
    requires k <= |s.queue|
  {
    s.active + WantedBefore(s, k) < 3
  }

  /** A task that is offered a slot is started if it is wanted and aborted if not; any other one stays queued. */
  ghost predicate Decided(s: State, task: Task, offered: bool, wanted: bool) {
    && (task.ticket in s.flights <==> offered && wanted)
    && (task.ticket in s.flights ==> s.flights[task.ticket].task == task && s.flights[task.ticket].blob.None?)
    && (s.settled[task.ticket] == if offered && !wanted then 1 else 0)
    && (offered && !wanted ==> task.ticket in s.outcomes && s.outcomes[task.ticket] == Aborted)
    && (task in s.queue <==> !offered)
  }

  /** The pump does nothing to a promise whose task does not wait. */
  lemma {:induction false} PumpLeavesOthers(s: State, ticket: nat)
    requires !Queued(s.queue, ticket)
    ensures !Queued(Pump(s).queue, ticket)
    ensures ticket in Pump(s).flights <==> ticket in s.flights
    ensures ticket in s.flights ==> Pump(s).flights[ticket] == s.flights[ticket]
    ensures Pump(s).settled[ticket] == s.settled[ticket]
    ensures ticket in Pump(s).outcomes <==> ticket in s.outcomes
    ensures ticket in s.outcomes ==> Pump(s).outcomes[ticket] == s.outcomes[ticket]
    decreases |s.queue|
  {
    if CanPump(s) {
      var s' := PumpOnce(s);
      assert s.queue[0].ticket != ticket;
      assert forall i | 0 <= i < |s'.queue| :: s'.queue[i] == s.queue[i + 1];
      PumpLeavesOthers(s', ticket);
    }
  }

  lemma WantedIff(s: State, id: Id)
    requires RefsOk(s) && id in s.cache
    ensures Wanted(s, id) <==> !Unwanted(s, id)
  {
  }

  /** The first task in front of a free slot. */
  lemma FirstDecided(s: State)
    requires Core(s, {}) && CanPump(s)
    ensures Decided(Pump(s), s.queue[0], true, Wanted(s, s.queue[0].id))
  {
    var task, s' := s.queue[0], PumpOnce(s);
    assert QueuedOk(s, task) && Queued(s.queue, task.ticket);
    assert s.settled[task.ticket] == 0;
    WantedIff(s, task.id);
    QueuedTail(s.queue, task.ticket);
    hide Core, Wanted, Unwanted;
    PumpLeavesOthers(s', task.ticket);
    InQueueIsQueued(Pump(s'), task);
  }

  lemma InQueueIsQueued(s: State, task: Task)
    ensures task in s.queue ==> Queued(s.queue, task.ticket)
  {
  }

  /** A task that waits while all slots are taken. */
  lemma NoneDecided(s: State, k: nat)
    requires Core(s, {}) && k < |s.queue| && s.active >= 3
    ensures Decided(s, s.queue[k], false, Wanted(s, s.queue[k].id))
  {
    assert QueuedOk(s, s.queue[k]) && Queued(s.queue, s.queue[k].ticket);
  }

  /** Deciding about the first task changes nothing for the others. */
  lemma OthersStayWanted(s: State, k: nat)
    requires Core(s, {}) && CanPump(s) && 0 < k < |s.queue|
    ensures Wanted(PumpOnce(s), s.queue[k].id) <==> Wanted(s, s.queue[k].id)
  {
    assert QueuedOk(s, s.queue[0]) && QueuedOk(s, s.queue[k]);
  }

  lemma {:induction false} WantedShifts(s: State, k: nat)
    requires Core(s, {}) && CanPump(s) && 0 < k <= |s.queue|
    ensures WantedBefore(s, k) == WantedBefore(PumpOnce(s), k - 1) + if Wanted(s, s.queue[0].id) then 1 else 0
  {
    hide Core, Wanted;
    if k > 1 {
      WantedShifts(s, k - 1);
      OthersStayWanted(s, k - 1);
      assert PumpOnce(s).queue[k - 2] == s.queue[k - 1];
    }
  }

  lemma OfferShifts(s: State, k: nat)
    requires Core(s, {}) && CanPump(s) && 0 < k < |s.queue|
    ensures Offered(s, k) <==> Offered(PumpOnce(s), k - 1)
  {
    assert QueuedOk(s, s.queue[0]);
    WantedIff(s, s.queue[0].id);
    WantedShifts(s, k);
    hide Core, Wanted, Unwanted, WantedBefore;
  }

  /** What becomes of task number `k` of the queue when the pump runs. */
  lemma {:induction false} PumpDecides(s: State, k: nat)
    requires Core(s, {}) && k < |s.queue|
    ensures Decided(Pump(s), s.queue[k], Offered(s, k), Wanted(s, s.queue[k].id))
    decreases |s.queue|
  {
    hide Core, Wanted, Decided;
    if !CanPump(s) {
      NoneDecided(s, k);
    } else if k == 0 {
      FirstDecided(s);
    } else {
      PumpOnceKeepsCore(s);
      OfferShifts(s, k);
      OthersStayWanted(s, k);
      PumpDecides(PumpOnce(s), k - 1);
    }
  }

  /** The tasks that still wait are the last ones, in order. */
  lemma {:induction false} PumpTakesFromTheFront(s: State)
    ensures |Pump(s).queue| <= |s.queue| && Pump(s).queue == s.queue[|s.queue| - |Pump(s).queue|..]
    decreases |s.queue|
  {
    if CanPump(s) {
      var rest := PumpOnce(s);
      assert rest.queue == s.queue[1..];
      PumpTakesFromTheFront(rest);
      assert rest.queue[|rest.queue| - |Pump(s).queue|..] == s.queue[|s.queue| - |Pump(s).queue|..];
    }
  }

  // ---------------------------------------------------------------------------------------------
  // What a turn does to an entry
  // ---------------------------------------------------------------------------------------------

  /** A response or a failure of a request in flight. */
  ghost predicate IsAnswer(s: State, e: Event) {
    || (e.Succeed? && e.ticket in s.flights && s.flights[e.ticket].blob.Some?)
    || (e.Fail? && e.ticket in s.flights && s.flights[e.ticket].blob.None?)
  }

  /** The event brings the answer to the request of this very entry. */
  ghost predicate AnswersFor(s: State, e: Event, id: Id) {
    && IsAnswer(s, e) && s.flights[e.ticket].task.id == id
    && id in s.cache && s.flights[e.ticket].serial == s.cache[id].serial
  }

  ghost predicate NeedsLoad(s: State, id: Id) {
    id !in s.cache || s.cache[id].promise.None?
  }

  /** The state as the pump of the turn finds it. */
  ghost function AtPump(s: State, e: Event): State {
    match e
    case Get(id, byUser, now) =>
      if id in s.cache then
        var s1 := Touched(s, id, byUser, now);
        if NeedsLoad(s, id) then LoadQueued(s1, id) else s1
      else
        EvictKeepsOthers(Inserted(s, id, byUser, now), id);
        LoadQueued(Evict(Inserted(s, id, byUser, now)), id)
    case Succeed(ticket, now) => if IsAnswer(s, e) then Evict(Succeeded(s, ticket, now)) else s
    case Fail(ticket, failure, now) => if IsAnswer(s, e) then Evict(Failing(s, ticket, failure, now)) else s
    case _ => Next(s, e)
  }

  ghost predicate Pumps(s: State, e: Event) {
    IsAnswer(s, e) || (e.Get? && NeedsLoad(s, e.id))
  }

  /** The queue the pump finds: a new request has its place in it. */
  ghost function Line(s: State, e: Event): seq<Task> {
    if e.Get? && NeedsLoad(s, e.id) then
      Enqueued(s.queue, Task(s.nextTicket, e.id, e.byUser || (e.id in s.cache && s.cache[e.id].requestedByUser)))
    else s.queue
  }

  /** The slots taken when the pump runs: the answer to a request frees its slot first. */
  ghost function SlotsTaken(s: State, e: Event): int {
    if IsAnswer(s, e) then s.active - 1 else s.active
  }

  lemma PumpOfIdle(s: State)
    requires NoLostWakeup(s)
    ensures Pump(s) == s
  {
  }

  lemma GetAtPump(s: State, id: Id, byUser: bool, now: int)
    requires Inv(s)
    ensures var e := Get(id, byUser, now); var p := AtPump(s, e);
            && Core(p, {}) && Next(s, e) == Pump(p)
            && p.queue == Line(s, e) && p.active == s.active && p.refs == s.refs && p.flights == s.flights
            && p.nextTicket == s.nextTicket + if NeedsLoad(s, id) then 1 else 0
  {
    var e := Get(id, byUser, now);
    if id in s.cache {
      assert EntryOk(s, s.cache[id]) && PromiseOk(s, s.cache[id]);
      var s1 := Touched(s, id, byUser, now);
      TouchKeepsCore(s, id, byUser, now);
      hide Core, Pump, Enqueued;
      if NeedsLoad(s, id) {
        WeakenBut(s1, id);
        LoadKeepsCore(s1, id);
      } else {
        PumpOfIdle(s1);
      }
    } else {
      var s1 := Inserted(s, id, byUser, now);
      InsertKeepsCore(s, id, byUser, now);
      hide Core, Pump, Evict, Enqueued;
      EvictKeepsOthers(s1, id);
      EvictKeepsCore(s1, {id});
      LoadKeepsCore(Evict(s1), id);
    }
  }

  /** Both answers to a request: the flight is gone, its slot free, the rest as before. */
  ghost predicate LandedAtPump(s: State, p: State, ticket: nat) {
    && p.queue == s.queue && p.active == s.active - 1 && p.refs == s.refs && p.flights == s.flights - {ticket}
    && p.nextTicket == s.nextTicket
  }

  lemma SuccessAtPump(s: State, ticket: nat, now: int)
    requires Inv(s) && IsAnswer(s, Succeed(ticket, now))
    ensures Core(Evict(Succeeded(s, ticket, now)), {})
    ensures LandedAtPump(s, Evict(Succeeded(s, ticket, now)), ticket)
  {
    SlotInUse(s, ticket);
    hide Core, Evict, Bounded, NoLostWakeup;
    SuccessKeepsCore(s, ticket, now);
    EvictKeepsCore(Succeeded(s, ticket, now), {});
  }

  lemma FailureAtPump(s: State, ticket: nat, failure: Failure, now: int)
    requires Inv(s) && IsAnswer(s, Fail(ticket, failure, now))
    ensures Core(Evict(Failing(s, ticket, failure, now)), {})
    ensures LandedAtPump(s, Evict(Failing(s, ticket, failure, now)), ticket)
  {
    SlotInUse(s, ticket);
    hide Core, Evict, Bounded, NoLostWakeup;
    FailureKeepsCore(s, ticket, failure, now);
    EvictKeepsCore(Failing(s, ticket, failure, now), {});
  }

  lemma SlotInUse(s: State, ticket: nat)
    requires Inv(s) && ticket in s.flights
    ensures s.active > 0
  {
    assert FlightsOk(s) && ticket in s.flights.Keys;
  }

  lemma LandingAtPump(s: State, e: Event)
    requires Inv(s) && IsAnswer(s, e)
    ensures var p := AtPump(s, e);
            Core(p, {}) && Next(s, e) == Pump(p) && LandedAtPump(s, p, e.ticket)
  {
    hide Inv, Core, Pump, Evict, Succeeded, Failing, LandedAtPump;
    match e
    case Succeed(ticket, now) => SuccessAtPump(s, ticket, now);
    case Fail(ticket, failure, now) => FailureAtPump(s, ticket, failure, now);
  }

  /** Any other turn does not pump, and need not. */
  lemma IdleAtPump(s: State, e: Event)
    requires Inv(s) && !e.Get? && !IsAnswer(s, e) && e != ReleaseAll
    ensures var p := AtPump(s, e);
            && Inv(p) && Next(s, e) == p == Pump(p)
            && p.queue == s.queue && p.active == s.active && p.nextTicket == s.nextTicket
            && (e.Succeed? || e.Fail? ==> p == s)
  {
    hide Inv, Pump, Evict;
    NextKeepsInv(s, e);
    InvIsCore(Next(s, e));
    PumpOfIdle(Next(s, e));
    if e.Release? {
      EvictKeepsRequests(Unretained(s, e.id));
      EvictKeepsActive(Unretained(s, e.id));
    }
  }

  lemma {:induction false} EvictKeepsActive(s: State)
    ensures Evict(s).active == s.active
    decreases |s.cache|
  {
    if OverBound(s.cache) && exists v :: IsOldestEvictable(s, v) {
      var v :| IsOldestEvictable(s, v) && Evict(s) == Evict(EvictOne(s, v));
      assert (s.cache - {v}).Keys == s.cache.Keys - {v};
      EvictKeepsActive(EvictOne(s, v));
    }
  }

  // ---------------------------------------------------------------------------------------------
  // Entries, field by field
  // ---------------------------------------------------------------------------------------------

  /** The pump only takes entries away. */
  lemma {:induction false} PumpKeepsEntries(s: State)
    ensures forall a | a in Pump(s).cache :: a in s.cache && Pump(s).cache[a] == s.cache[a]
    decreases |s.queue|
  {
    if CanPump(s) {
      PumpKeepsEntries(PumpOnce(s));
    }
  }

  /** What a turn leaves in an entry that it does not take away. */
  ghost predicate EntryAfter(s: State, e: Event, id: Id, entry: Entry) {
    if id !in s.cache then
      e.Get? && e.id == id && entry == Entry(s.nextSerial, Loading, Some(s.nextTicket), None, 0, e.now, e.byUser)
    else
      var was := s.cache[id];
      match e
      case Get(other, byUser, now) =>
        if other != id then entry == was
        else if was.promise.Some? then
          entry == was.(lastUsed := now, requestedByUser := was.requestedByUser || byUser)
        else
          entry == was.(lastUsed := now, requestedByUser := was.requestedByUser || byUser,
                        status := Loading, promise := Some(s.nextTicket))
      case Retain(other, now) => entry == if other == id then was.(lastUsed := now) else was
      case Succeed(ticket, now) =>
        if AnswersFor(s, e, id) then
          entry == was.(status := Ready, url := Some(s.flights[ticket].blob.value.url),
                        bytes := s.flights[ticket].blob.value.bytes, lastUsed := now)
        else entry == was
      case Fail(ticket, failure, now) =>
        if AnswersFor(s, e, id) then
          entry == was.(status := Failed, promise := if failure == Network then None else was.promise, lastUsed := now)
        else entry == was
      case _ => entry == was
  }

  lemma EntryAtPump(s: State, e: Event, id: Id)
    requires Inv(s) && e != ReleaseAll && id in AtPump(s, e).cache
    ensures EntryAfter(s, e, id, AtPump(s, e).cache[id])
  {
    hide Inv, Evict, Pump, LoadIfNeeded, LoadQueued, Inserted, Touched;
    match e
    case Get(other, byUser, now) => GetEntryAtPump(s, other, byUser, now, id);
    case Retain(other, now) =>
    case Release(other) => EvictKeepsUrls(Unretained(s, other));
    case BlobArrives(ticket, bytes) =>
    case Succeed(ticket, now) =>
      if IsAnswer(s, e) {
        EvictKeepsUrls(Succeeded(s, ticket, now));
      }
    case Fail(ticket, failure, now) =>
      if IsAnswer(s, e) {
        EvictKeepsUrls(Failing(s, ticket, failure, now));
      }
  }

  lemma GetEntryAtPump(s: State, other: Id, byUser: bool, now: int, id: Id)
    requires id in AtPump(s, Get(other, byUser, now)).cache
    ensures EntryAfter(s, Get(other, byUser, now), id, AtPump(s, Get(other, byUser, now)).cache[id])
  {
    hide Evict, Pump, LoadIfNeeded, Enqueued;
    if other !in s.cache {
      var inserted := Inserted(s, other, byUser, now);
      EvictKeepsUrls(inserted);
      EvictKeepsOthers(inserted, other);
      EvictKeepsTickets(inserted);
    }
  }

  lemma EvictKeepsTickets(s: State)
    ensures Evict(s).nextTicket == s.nextTicket
  {
    EvictKeepsRequests(s);
  }

  /** Every turn but clearing is one pump over the state it finds. */
  lemma TurnIsPump(s: State, e: Event)
    requires Inv(s) && e != ReleaseAll
    ensures Core(AtPump(s, e), {}) && Next(s, e) == Pump(AtPump(s, e))
    ensures AtPump(s, e).queue == Line(s, e) && AtPump(s, e).active == SlotsTaken(s, e)
    ensures Pumps(s, e) ==> AtPump(s, e).refs == s.refs
    ensures AtPump(s, e).nextTicket == s.nextTicket + if e.Get? && NeedsLoad(s, e.id) then 1 else 0
    ensures !e.Get? && !IsAnswer(s, e) ==> NoLostWakeup(AtPump(s, e))
  {
    hide Core, Bounded, Pump, Evict, AtPump, NoLostWakeup;
    if e.Get? {
      GetAtPump(s, e.id, e.byUser, e.now);
    } else if IsAnswer(s, e) {
      LandingAtPump(s, e);
    } else {
      IdleAtPump(s, e);
    }
  }

  /** The mark of a user's request: set by one, kept by all other events. */
  lemma MarkAtPump(s: State, e: Event, id: Id)
    requires Inv(s) && e != ReleaseAll && id in AtPump(s, e).cache
    ensures AtPump(s, e).cache[id].requestedByUser <==>
              ByUser(e, id) || (id in s.cache && s.cache[id].requestedByUser)
  {
    hide Inv, AtPump;
    EntryAtPump(s, e, id);
  }

  /** The fields of an entry after a turn. */
  lemma EntryInTurn(s: State, e: Event, id: Id)
    requires Inv(s) && id in Next(s, e).cache
    ensures EntryAfter(s, e, id, Next(s, e).cache[id])
  {
    if e == ReleaseAll {
      ReleaseAllEmpties(s);
    } else {
      hide Inv, Pump, AtPump, Next;
      TurnIsPump(s, e);
      PumpKeepsEntries(AtPump(s, e));
      EntryAtPump(s, e, id);
    }
  }

  lemma ReleaseAllEmpties(s: State)
    requires Inv(s)
    ensures var s' := ReleaseAllStep(s); s'.cache == map[] && s'.refs == map[] && s'.queue == []
  {
    AbortAllSettlesQueue(s.(cache := map[], refs := map[], revoked := s.revoked + multiset(UrlsOf(s.cache))));
  }

  // ---------------------------------------------------------------------------------------------
  // Who asked
  // ---------------------------------------------------------------------------------------------

  lemma {:induction false} RunAppend(s: State, events: seq<Event>, e: Event)
    ensures Run(s, events + [e]) == Next(Run(s, events), e)
    decreases |events|
  {
    hide Next;
    if events == [] {
      assert [] + [e] == [e] && [e][1..] == [];
    } else {
      assert (events + [e])[1..] == events[1..] + [e];
      RunAppend(Next(s, events[0]), events[1..], e);
    }
  }

  ghost predicate ByUser(e: Event, id: Id) {
    e.Get? && e.id == id && e.byUser
  }

  /** Event number `i` is a user's request for `id`, and the artifact has had an entry ever since. */
  ghost predicate AskedAt(events: seq<Event>, id: Id, i: nat) {
    && i < |events| && ByUser(events[i], id)
    && forall j | i < j <= |events| :: id in Run(Empty, events[..j]).cache
  }

  ghost predicate Asked(events: seq<Event>, id: Id) {
    exists i: nat :: AskedAt(events, id, i)
  }

  lemma AskedAppend(events: seq<Event>, e: Event, id: Id)
    ensures Asked(events + [e], id) <==>
              id in Run(Empty, events + [e]).cache && (ByUser(e, id) || Asked(events, id))
  {
    hide Run;
    var longer := events + [e];
    assert longer[..|longer|] == longer;
    assert forall j | 0 <= j <= |events| :: longer[..j] == events[..j];
    if Asked(events, id) && id in Run(Empty, longer).cache {
      var i: nat :| AskedAt(events, id, i);
      assert AskedAt(longer, id, i);
    }
    if ByUser(e, id) && id in Run(Empty, longer).cache {
      assert AskedAt(longer, id, |events|);
    }
    if Asked(longer, id) {
      var i: nat :| AskedAt(longer, id, i);
      assert i < |events| ==> AskedAt(events, id, i);
      assert id in Run(Empty, longer[..|longer|]).cache;
    }
  }

  /** An entry is marked as a user's exactly when a user has asked for it since it was inserted. */
  lemma {:induction false} MarkMeansAsked(events: seq<Event>, id: Id)
    requires id in Run(Empty, events).cache
    ensures Run(Empty, events).cache[id].requestedByUser <==> Asked(events, id)
  {
    hide Run, Asked;
    if events == [] {
      assert Run(Empty, []) == Empty by { RunOfNothing(Empty); }
    } else {
      var front, e := events[..|events| - 1], events[|events| - 1];
      assert events == front + [e];
      if id in Run(Empty, front).cache {
        MarkMeansAsked(front, id);
      } else {
        NeverAsked(front, id);
      }
      MarkStep(front, e, id);
    }
  }

  lemma RunOfNothing(s: State)
    ensures Run(s, []) == s
  {
  }

  lemma MarkStep(front: seq<Event>, e: Event, id: Id)
    requires id in Run(Empty, front + [e]).cache
    requires if id in Run(Empty, front).cache then Run(Empty, front).cache[id].requestedByUser <==> Asked(front, id)
             else !Asked(front, id)
    ensures Run(Empty, front + [e]).cache[id].requestedByUser <==> Asked(front + [e], id)
  {
    RunAppend(Empty, front, e);
    hide Run, Next, Inv, Asked;
    EmptyIsInv();
    RunKeepsInv(Empty, front);
    EntryInTurn(Run(Empty, front), e, id);
    AskedAppend(front, e, id);
  }

  lemma NeverAsked(events: seq<Event>, id: Id)
    requires id !in Run(Empty, events).cache
    ensures !Asked(events, id)
  {
    hide Run;
    assert events[..|events|] == events;
    forall i: nat ensures !AskedAt(events, id, i) {
      assert id !in Run(Empty, events[..|events|]).cache;
    }
  }

  // ---------------------------------------------------------------------------------------------
  // What a turn does to the requests that wait
  // ---------------------------------------------------------------------------------------------

  /** Somebody holds the artifact, or a user has asked for it since its entry was inserted, in this event or before. */
  ghost predicate WantedIn(events: seq<Event>, e: Event, id: Id) {
    id in Run(Empty, events).refs || ByUser(e, id) || Asked(events, id)
  }

  ghost function WantedAhead(events: seq<Event>, e: Event, line: seq<Task>, k: nat): nat
    requires k <= |line|
  {
    if k == 0 then 0 else WantedAhead(events, e, line, k - 1) + if WantedIn(events, e, line[k - 1].id) then 1 else 0
  }

  /** Task number `k` reaches a free slot. */
  ghost predicate ReachesSlot(events: seq<Event>, e: Event, k: nat)
    requires k <= |Line(Run(Empty, events), e)|
  {
    var s := Run(Empty, events);
    SlotsTaken(s, e) + WantedAhead(events, e, Line(s, e), k) < 3
  }

  lemma WantedAtPump(events: seq<Event>, e: Event, k: nat)
    requires var s := Run(Empty, events); Inv(s) && Pumps(s, e) && k < |AtPump(s, e).queue|
    ensures var p := AtPump(Run(Empty, events), e);
            Wanted(p, p.queue[k].id) <==> WantedIn(events, e, p.queue[k].id)
  {
    var s := Run(Empty, events);
    hide Run, AtPump, Pump, Inv, Core, Asked, Line, SlotsTaken, NoLostWakeup;
    TurnIsPump(s, e);
    var p := AtPump(s, e);
    QueuedIsCached(p, k);
    var id := p.queue[k].id;
    MarkAtPump(s, e, id);
    if id in s.cache {
      MarkMeansAsked(events, id);
    } else {
      NeverAsked(events, id);
    }
  }

  lemma QueuedIsCached(s: State, k: nat)
    requires Core(s, {}) && k < |s.queue|
    ensures s.queue[k].id in s.cache
  {
    assert QueuedOk(s, s.queue[k]);
  }

  lemma {:induction false} WantedAheadAtPump(events: seq<Event>, e: Event, k: nat)
    requires var s := Run(Empty, events); Inv(s) && Pumps(s, e) && k <= |AtPump(s, e).queue|
    ensures var p := AtPump(Run(Empty, events), e);
            WantedBefore(p, k) == WantedAhead(events, e, p.queue, k)
  {
    hide Run, AtPump, Inv, Pumps, Wanted, WantedIn;
    if k > 0 {
      WantedAheadAtPump(events, e, k - 1);
      WantedAtPump(events, e, k - 1);
    }
  }

  /** After any events, in any turn but clearing: a waiting task that reaches a free slot is started if the artifact
      is held or a user has asked for it since its entry was inserted, and its promise is aborted if not; every other
      waiting task goes on waiting.  No task of the queue is aborted for any other reason, and none is lost. */
  lemma TurnDecides(events: seq<Event>, e: Event, k: nat)
    requires e != ReleaseAll && k < |Line(Run(Empty, events), e)|
    ensures var task := Line(Run(Empty, events), e)[k];
            Decided(Run(Empty, events + [e]), task, ReachesSlot(events, e, k), WantedIn(events, e, task.id))
  {
    var s := Run(Empty, events);
    RunAppend(Empty, events, e);
    EmptyIsInv();
    RunKeepsInv(Empty, events);
    hide Run, Inv, Pump, AtPump, Line, Wanted, WantedIn, Decided;
    TurnIsPump(s, e);
    var p := AtPump(s, e);
    PumpDecides(p, k);
    if Pumps(s, e) {
      WantedAtPump(events, e, k);
      WantedAheadAtPump(events, e, k);
    } else {
      IdleQueueIsFull(s, e);
    }
  }

  lemma IdleQueueIsFull(s: State, e: Event)
    requires Inv(s) && e != ReleaseAll && !Pumps(s, e) && Line(s, e) != []
    ensures SlotsTaken(s, e) == 3
  {
  }

  /** Those that go on waiting are the last ones of the queue, in their order. */
  lemma TurnTakesFromTheFront(events: seq<Event>, e: Event)
    requires e != ReleaseAll
    ensures exists n: nat :: IsFrom(Run(Empty, events + [e]).queue, Line(Run(Empty, events), e), n)
  {
    var s := Run(Empty, events);
    RunAppend(Empty, events, e);
    EmptyIsInv();
    RunKeepsInv(Empty, events);
    hide Run, Inv, Pump, AtPump, Line, IsFrom, Next;
    TurnIsPump(s, e);
    PumpLeavesEnd(AtPump(s, e));
  }

  lemma PumpLeavesEnd(s: State)
    ensures exists n: nat :: IsFrom(Pump(s).queue, s.queue, n)
  {
    PumpTakesFromTheFront(s);
    assert IsFrom(Pump(s).queue, s.queue, |s.queue| - |Pump(s).queue|);
  }

  ghost predicate IsFrom(rest: seq<Task>, line: seq<Task>, n: nat) {
    n <= |line| && rest == line[n..]
  }
}
