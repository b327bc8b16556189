/** What each step of the artifact store does to its fields, and in which order it lists the items. */
module ArtifactEffects {
  import opened Common
  import opened ArtifactStore

  // ---------------------------------------------------------------------------------------------
  // Lists
  // ---------------------------------------------------------------------------------------------

  ghost predicate Names(list: seq<Item>, id: string) {
    exists k :: 0 <= k < |list| && list[k].id == id
  }

  /** Item number `k` of `kept` is item number `at[k]` of `list`; those left out are the ones named in `others`. */
  ghost predicate KeptAt(list: seq<Item>, others: seq<Item>, kept: seq<Item>, at: seq<nat>) {
    && |at| == |kept|
    && (forall k | 0 <= k < |at| :: at[k] < |list| && kept[k] == list[at[k]])
    && (forall i, j | 0 <= i < j < |at| :: at[i] < at[j])
    && (forall i: nat | i < |list| :: i in at <==> !Names(others, list[i].id))
  }

  /** `kept` is `list` without the items that `others` names, in order. */
  ghost predicate IsRest(list: seq<Item>, others: seq<Item>, kept: seq<Item>) {
    exists at :: KeptAt(list, others, kept, at)
  }

  lemma NamesIds(list: seq<Item>, id: string)
    ensures Names(list, id) <==> id in Ids(list)
  {
  }

  lemma KeptSkips(list: seq<Item>, others: seq<Item>, kept: seq<Item>, at: seq<nat>, last: Item)
    requires KeptAt(list, others, kept, at) && Names(others, last.id)
    ensures KeptAt(list + [last], others, kept, at)
  {
    hide Names;
  }

  lemma KeptTakes(list: seq<Item>, others: seq<Item>, kept: seq<Item>, at: seq<nat>, last: Item)
    requires KeptAt(list, others, kept, at) && !Names(others, last.id)
    ensures KeptAt(list + [last], others, kept + [last], at + [|list|])
  {
    hide Names;
    assert forall i: nat :: i in at + [|list|] <==> i in at || i == |list|;
  }

  lemma {:induction false} WithoutAt(list: seq<Item>, others: seq<Item>) returns (at: seq<nat>)
    ensures KeptAt(list, others, Without(list, Ids(others)), at)
  {
    hide Names, Ids;
    if list == [] {
      at := [];
    } else {
      hide KeptAt;
      var front, last := list[..|list| - 1], list[|list| - 1];
      assert list == front + [last];
      at := WithoutAt(front, others);
      NamesIds(others, last.id);
      if last.id in Ids(others) {
        KeptSkips(front, others, Without(front, Ids(others)), at, last);
        assert Without(front, Ids(others)) + [] == Without(front, Ids(others));
      } else {
        KeptTakes(front, others, Without(front, Ids(others)), at, last);
        at := at + [|front|];
      }
    }
  }

  lemma WithoutIsRest(list: seq<Item>, others: seq<Item>)
    ensures IsRest(list, others, Without(list, Ids(others)))
  {
    var at := WithoutAt(list, others);
  }

  /** The list shown: what came over the stream, then what is only in the pages. */
  lemma ShownInOrder(s: Store)
    ensures var shown, n := Merged(s.ingested, s.pages), |s.ingested|;
            n <= |shown| && shown[..n] == s.ingested && IsRest(s.pages, s.ingested, shown[n..])
  {
    hide IsRest, Without, Ids;
    WithoutIsRest(s.pages, s.ingested);
  }

  // ---------------------------------------------------------------------------------------------
  // Answers
  // ---------------------------------------------------------------------------------------------

  /** A head page goes in front of the older pages; its items leave both the older pages and the stream's list; the
      total is the server's, and the cursor does not go back. */
  lemma HeadPageLands(w: World, page: Page)
    requires Inv(w) && w.generation in w.heads
    ensures var s, t := w.store, Next(w, HeadDone(w.generation, Ok(page))).store; var n := |page.artifacts|;
            && n <= |t.pages| && t.pages[..n] == page.artifacts && IsRest(s.pages, page.artifacts, t.pages[n..])
            && IsRest(s.ingested, page.artifacts, t.ingested)
            && t.total == page.total && t.loaded && !t.loading
            && t.nextOffset == (if s.nextOffset < page.offset + n then page.offset + n else s.nextOffset)
            && t.loadingMore == s.loadingMore && t.error == s.error && t.filter == s.filter
    ensures Next(w, HeadDone(w.generation, Ok(page))).headInFlight == None
  {
    hide IsRest, Without, Ids;
    WithoutIsRest(w.store.pages, page.artifacts);
    WithoutIsRest(w.store.ingested, page.artifacts);
  }

  /** A further page adds what is not known yet at the end; neither total nor cursor goes back. */
  lemma FurtherPageLands(w: World, page: Page)
    requires w.generation in w.mores
    ensures var s, t := w.store, Next(w, MoreDone(w.generation, Ok(page))).store;
            && |s.pages| <= |t.pages| && t.pages[..|s.pages|] == s.pages
            && IsRest(page.artifacts, s.ingested + s.pages, t.pages[|s.pages|..])
            && t.ingested == s.ingested
            && t.total == (if s.total < page.total then page.total else s.total)
            && t.nextOffset ==
               (if s.nextOffset < page.offset + |page.artifacts| then page.offset + |page.artifacts| else s.nextOffset)
            && !t.loadingMore && t.loading == s.loading && t.loaded == s.loaded
            && t.error == s.error && t.filter == s.filter
  {
    hide IsRest, Without, Ids;
    WithoutIsRest(page.artifacts, w.store.ingested + w.store.pages);
    IdsConcat(w.store.ingested, w.store.pages);
  }

  // ---------------------------------------------------------------------------------------------
  // Requests
  // ---------------------------------------------------------------------------------------------

  /** A head request is sent when none is in flight, by `Load` only before the first page has come in. */
  lemma HeadIsRequested(w: World, e: Event)
    requires Inv(w) && (e == Load || e == RefreshHead)
    ensures var w' := Next(w, e);
            if w.store.loading || (e == Load && w.store.loaded) then w' == w
            else w' == World(w.store.(loading := true, error := None), w.generation, Some(w.generation),
                             w.heads + multiset{w.generation}, w.mores)
  {
  }

  /** A further page is requested when none is being fetched and the cursor has not reached the total. */
  lemma MoreIsRequested(w: World)
    ensures var w' := Next(w, LoadMore);
            if !w.store.loadingMore && w.store.nextOffset < w.store.total then
              w' == World(w.store.(loadingMore := true, error := None), w.generation, w.headInFlight, w.heads,
                          w.mores + multiset{w.generation})
            else w' == w
  {
  }

  /** An artifact that turns out to be gone is marked wherever it is listed; nothing else changes. */
  lemma UnavailableInBoth(w: World, id: string)
    ensures var s, t := w.store, Next(w, MarkUnavailable(id)).store;
            && t == s.(ingested := t.ingested, pages := t.pages)
            && |t.ingested| == |s.ingested| && |t.pages| == |s.pages|
            && (forall k | 0 <= k < |s.ingested| :: t.ingested[k] ==
                  if s.ingested[k].id == id then s.ingested[k].(available := false) else s.ingested[k])
            && (forall k | 0 <= k < |s.pages| :: t.pages[k] ==
                  if s.pages[k].id == id then s.pages[k].(available := false) else s.pages[k])
    ensures Next(w, MarkUnavailable(id)) == w.(store := Next(w, MarkUnavailable(id)).store)
  {
  }

  /** Nothing of the earlier user is left. */
  lemma ResetForgets(w: World)
    ensures var s := Next(w, Reset).store;
            && s.ingested == [] && s.pages == [] && s.total == 0 && s.nextOffset == 0
            && !s.loading && !s.loadingMore && !s.loaded && s.error == None && s.filter == All
    ensures Next(w, Reset).generation == w.generation + 1 && Next(w, Reset).headInFlight == None
    ensures Next(w, Reset).heads == w.heads && Next(w, Reset).mores == w.mores
  {
  }

  // ---------------------------------------------------------------------------------------------
  // Announcements
  // ---------------------------------------------------------------------------------------------

  /** The last item of `next` with this id is number `k`. */
  ghost predicate LastAt(next: seq<Item>, id: string, k: nat) {
    k < |next| && next[k].id == id && forall j | k < j < |next| :: next[j].id != id
  }

  /** Later items come first; of items with the same id, the last one gives the place. */
  ghost predicate NewestFirst(list: seq<Item>, next: seq<Item>) {
    forall i, j, a: nat, b: nat | 0 <= i < j < |list| && LastAt(next, list[i].id, a) && LastAt(next, list[j].id, b) ::
      a > b
  }

  lemma {:induction false} PutPlaces(prefix: seq<Item>, item: Item)
    requires Unique(prefix)
    ensures var r := Put(prefix, item);
            && (Names(prefix, item.id) ==> |r| == |prefix| && forall i | 0 <= i < |r| :: r[i].id == prefix[i].id)
            && (!Names(prefix, item.id) ==> r == prefix + [item])
  {
    if prefix != [] {
      var first, rest := prefix[0], prefix[1..];
      assert prefix == [first] + rest;
      if first.id != item.id {
        PutPlaces(rest, item);
        assert Names(prefix, item.id) <==> Names(rest, item.id) by {
          NamesTail(prefix, item.id);
        }
      }
    }
  }

  lemma NamesTail(list: seq<Item>, id: string)
    requires list != [] && list[0].id != id
    ensures Names(list, id) <==> Names(list[1..], id)
  {
    if Names(list, id) {
      var k :| 0 <= k < |list| && list[k].id == id;
      assert list[1..][k - 1].id == id;
    }
  }

  lemma LastShifts(next: seq<Item>, id: string, k: nat)
    requires next != []
    ensures k > 0 ==> (LastAt(next, id, k) <==> LastAt(next[1..], id, k - 1))
    ensures LastAt(next, id, 0) ==> !Names(next[1..], id)
  {
    assert forall j | 0 < j < |next| :: next[j] == next[1..][j - 1];
  }

  lemma {:induction false} PrefixIsNewestFirst(next: seq<Item>)
    ensures NewestFirst(Prefix(next), next)
  {
    hide Put, Unique, Ids;
    if next != [] {
      var first, rest := next[0], next[1..];
      PrefixIsNewestFirst(rest);
      UniquePrefix(rest);
      PrefixIds(rest);
      NamesIds(Prefix(rest), first.id);
      NamesIds(rest, first.id);
      PutPlaces(Prefix(rest), first);
      PutIsNewestFirst(next);
    }
  }

  lemma PutIsNewestFirst(next: seq<Item>)
    requires next != [] && NewestFirst(Prefix(next[1..]), next[1..])
    requires Names(Prefix(next[1..]), next[0].id) <==> Names(next[1..], next[0].id)
    requires var was, all := Prefix(next[1..]), Prefix(next);
             && (Names(was, next[0].id) ==> |all| == |was| && forall i | 0 <= i < |all| :: all[i].id == was[i].id)
             && (!Names(was, next[0].id) ==> all == was + [next[0]])
    ensures NewestFirst(Prefix(next), next)
  {
    hide Prefix, LastAt, Names;
    var was, all, rest := Prefix(next[1..]), Prefix(next), next[1..];
    forall i, j, a: nat, b: nat |
      0 <= i < j < |all| && LastAt(next, all[i].id, a) && LastAt(next, all[j].id, b)
      ensures a > b
    {
      LastShifts(next, all[i].id, a);
      LastShifts(next, all[j].id, b);
      if a == 0 {
        LastIsFirst(next, all[i].id);
        NamedAt(was, i);
        assert false;
      } else if b > 0 {
        if j == |was| {
          LastNames(rest, all[j].id, b - 1);
        }
        assert j < |was|;
        assert LastAt(rest, was[i].id, a - 1) && LastAt(rest, was[j].id, b - 1);
      }
    }
  }

  lemma LastIsFirst(next: seq<Item>, id: string)
    requires LastAt(next, id, 0)
    ensures next[0].id == id
  {
  }

  lemma NamedAt(list: seq<Item>, i: nat)
    ensures i < |list| ==> Names(list, list[i].id)
  {
  }

  lemma LastNames(list: seq<Item>, id: string, k: nat)
    requires LastAt(list, id, k)
    ensures Names(list, id)
  {
  }

  /** Announced items go in front, newest first, and leave their older versions; pages and cursor stay. */
  lemma AnnouncedInFront(w: World, items: seq<Item>)
    ensures var s, t := w.store, Next(w, Ingest(items)).store; var n := |Prefix(items)|;
            && n <= |t.ingested| && t.ingested[..n] == Prefix(items) && NewestFirst(t.ingested[..n], items)
            && IsRest(s.ingested, items, t.ingested[n..])
            && t.pages == s.pages && t.nextOffset == s.nextOffset && t.loaded == s.loaded
            && t.loading == s.loading && t.loadingMore == s.loadingMore && t.error == s.error && t.filter == s.filter
  {
    hide IsRest, Without, Ids, Prefix, NewestFirst;
    PrefixIsNewestFirst(items);
    PrefixIds(items);
    WithoutIsRest(w.store.ingested, items);
    if items == [] {
      NothingAnnounced(w.store);
    }
  }

  lemma NothingAnnounced(s: Store)
    ensures Prefix([]) == [] && Without(s.ingested, Ids([])) == s.ingested
  {
    IdsOne(Item("", "", false));
    NothingTaken(s.ingested);
  }

  lemma {:induction false} NothingTaken(list: seq<Item>)
    ensures Without(list, {}) == list
  {
    if list != [] {
      NothingTaken(list[..|list| - 1]);
    }
  }
}
