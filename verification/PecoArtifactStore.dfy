/**
 The store object: every method is one step of the state machine, and asynchronous actions are two, the
 request and the landing of its answer.
 */
module PecoArtifactStore {
  import opened Common
  import opened ArtifactStore

  class ArtifactStoreObject {
    var store: Store
    var generation: nat
    var headInFlight: Option<nat>
    ghost var heads: multiset<nat>
    ghost var mores: multiset<nat>

    ghost function State(): World
      reads this
    {
      World(store, generation, headInFlight, heads, mores)
    }

    constructor ()
      ensures State() == START && Inv(State())
    {
      store, generation, headInFlight := EMPTY, 0, None;
      heads, mores := multiset{}, multiset{};
    }

    /** Returns the generation a request was sent for, if one was. */
    method LoadHead() returns (sent: Option<nat>)
      requires Inv(State())
      modifies this
      ensures State() == StartHead(old(State())) && Inv(State())
      ensures sent == if old(headInFlight).None? then Some(generation) else None
    {
      StartHeadKeepsInv(State());
      if headInFlight.Some? {
        return None;
      }
      headInFlight := Some(generation);
      store := store.(loading := true, error := None);
      heads := heads + multiset{generation};
      return Some(generation);
    }

    method Load() returns (sent: Option<nat>)
      requires Inv(State())
      modifies this
      ensures State() == Next(old(State()), Event.Load) && Inv(State())
      ensures sent.Some? ==>
                !old(store).loaded && sent.value == generation && heads == old(heads) + multiset{generation}
      ensures sent.None? ==> heads == old(heads)
    {
      if store.loaded {
        return None;
      }
      sent := LoadHead();
    }

    method RefreshHead() returns (sent: Option<nat>)
      requires Inv(State())
      modifies this
      ensures State() == Next(old(State()), Event.RefreshHead) && Inv(State())
      ensures sent.Some? ==> sent.value == generation && heads == old(heads) + multiset{generation}
      ensures sent.None? ==> heads == old(heads)
    {
      sent := LoadHead();
    }

    /** The answer to a head request sent in generation `gen`. */
    method HeadArrives(gen: nat, outcome: Result<Page, string>)
      requires Inv(State()) && gen in heads
      modifies this
      ensures State() == Next(old(State()), HeadDone(gen, outcome)) && Inv(State())
      ensures gen != generation ==> store == old(store) && headInFlight == old(headInFlight)
    {
      hide ApplyHead, ApplyMore, Inv;
      NextKeepsInv(State(), HeadDone(gen, outcome));
      if gen != generation {
        LateAnswerChangesNothing(State(), HeadDone(gen, outcome));
      }
      if gen == generation {
        match outcome {
          case Ok(page) => store := ApplyHead(page, store);
          case Err(message) => store := store.(error := Some(message));
        }
      }
      if headInFlight == Some(gen) {
        headInFlight := None;
      }
      if gen == generation {
        store := store.(loading := false);
      }
      heads := heads - multiset{gen};
    }

    /** Returns the generation and the offset of the request, if one was sent. */
    method LoadMore() returns (sent: Option<(nat, nat)>)
      requires Inv(State())
      modifies this
      ensures State() == Next(old(State()), Event.LoadMore) && Inv(State())
      ensures sent.Some? ==> sent.value == (generation, store.nextOffset) && mores == old(mores) + multiset{generation}
      ensures sent.None? ==> mores == old(mores)
    {
      StartMoreKeepsInv(State());
      if store.loadingMore || store.nextOffset >= store.total {
        return None;
      }
      store := store.(loadingMore := true, error := None);
      mores := mores + multiset{generation};
      return Some((generation, store.nextOffset));
    }

    method MoreArrives(gen: nat, outcome: Result<Page, string>)
      requires Inv(State()) && gen in mores
      modifies this
      ensures State() == Next(old(State()), MoreDone(gen, outcome)) && Inv(State())
      ensures gen != generation ==> store == old(store)
    {
      hide ApplyHead, ApplyMore, Inv;
      NextKeepsInv(State(), MoreDone(gen, outcome));
      if gen == generation {
        match outcome {
          case Ok(page) => store := ApplyMore(page, store);
          case Err(message) => store := store.(error := Some(message));
        }
        store := store.(loadingMore := false);
      }
      mores := mores - multiset{gen};
    }

    /** Artifacts announced over the event stream. */
    method Ingest(items: seq<Item>)
      requires Inv(State())
      modifies this
      ensures State() == Next(old(State()), Event.Ingest(items)) && Inv(State())
      ensures store.total - old(store).total == |Known(store)| - |Known(old(store))|
    {
      hide Inv, Ids, Without, Prefix, Known, Next;
      ghost var after := Next(State(), Event.Ingest(items));
      NextKeepsInv(State(), Event.Ingest(items));
      IngestCountsTheNew(store, items);
      IngestIs(State(), items);
      if items == [] {
        return;
      }
      var known := Known(store);
      var prefix, added := Collect(items, known);
      store := store.(ingested := prefix + Without(store.ingested, Ids(prefix)), total := store.total + |added|);
    }

    method SetFilter(choice: FilterChoice)
      requires Inv(State())
      modifies this
      ensures State() == Next(old(State()), Event.SetFilter(choice)) && Inv(State())
    {
      store := store.(filter := choice);
    }

    method MarkUnavailable(id: string)
      requires Inv(State())
      modifies this
      ensures State() == Next(old(State()), Event.MarkUnavailable(id)) && Inv(State())
    {
      store := store.(ingested := Patched(store.ingested, id), pages := Patched(store.pages, id));
    }

    /** The user changes: the lists go, and answers to what is still in flight will be ignored. */
    method Reset()
      requires Inv(State())
      modifies this
      ensures State() == Next(old(State()), Event.Reset) && Inv(State())
      ensures forall g | g in heads || g in mores :: g < generation
    {
      NextKeepsInv(State(), Event.Reset);
      ResetOutdatesRequests(State());
      generation := generation + 1;
      headInFlight := None;
      store := EMPTY;
    }
  }

  lemma IngestIs(w: World, items: seq<Item>)
    ensures Next(w, Event.Ingest(items)) == w.(store := ApplyIngest(items, w.store))
  {
  }

  /** The batch in reverse, each id once, and which ids are new. */
  method Collect(items: seq<Item>, known: set<string>) returns (prefix: seq<Item>, added: set<string>)
    ensures prefix == Prefix(items) && added == Ids(items) - known
  {
    hide Ids;
    prefix, added := [], {};
    var k: nat := |items|;
    assert items[k..] == [];
    IdsOne(Item("", "", false));
    while k > 0
      invariant k <= |items| && prefix == Prefix(items[k..]) && added == Ids(items[k..]) - known
    {
      k := k - 1;
      var item := items[k];
      assert items[k..] == [item] + items[k + 1..];
      IdsConcat([item], items[k + 1..]);
      IdsOne(item);
      prefix := PutInto(prefix, item);
      if item.id !in known {
        added := added + {item.id};
      }
    }
    assert items[0..] == items;
  }

  /** Replace the item of the same id, or append. */
  method PutInto(prefix: seq<Item>, item: Item) returns (r: seq<Item>)
    ensures r == Put(prefix, item)
  {
    var at: nat := 0;
    while at < |prefix| && prefix[at].id != item.id
      invariant at <= |prefix| && Put(prefix, item) == prefix[..at] + Put(prefix[at..], item)
    {
      PutSkips(prefix, at, item);
      at := at + 1;
    }
    if at < |prefix| {
      r := prefix[at := item];
      assert prefix[at..][1..] == prefix[at + 1..];
    } else {
      r := prefix + [item];
    }
  }

  lemma PutSkips(prefix: seq<Item>, at: nat, item: Item)
    requires at < |prefix| && prefix[at].id != item.id
    ensures prefix[..at] + Put(prefix[at..], item) == prefix[..at + 1] + Put(prefix[at + 1..], item)
  {
    var tail := Put(prefix[at + 1..], item);
    assert Put(prefix[at..], item) == [prefix[at]] + tail by {
      assert prefix[at..][1..] == prefix[at + 1..];
    }
    hide Put;
    assert prefix[..at] + ([prefix[at]] + tail) == prefix[..at + 1] + tail;
  }
}
